/** Which interfaces take part in multicast discovery, and on which endpoints. */
module Discovery {
  import opened Wrappers
  import opened Numbers
  import opened Text
  import opened Ordering
  import opened Addresses

  datatype Kind = Ethernet | Wifi | Bridge | Tunnel | Virtual | Other

  datatype Net4 = Net4(address: V4, prefix: nat)

  datatype Net6 = Net6(address: V6, prefix: nat)

  datatype Record = Record(name: string, index: Option<nat>, kind: Kind,
                           ipv4: seq<Net4>, ipv6: seq<Net6>, pointToPoint: bool)

  datatype Mode = All | Selected

  datatype Preferences = Preferences(mode: Mode, interfaces: set<string>)

  datatype Endpoint = V4Endpoint(name: string, address: V4) | V6Endpoint(name: string, index: nat)

  datatype NetworkKey = V4Key(network: Bits, prefix: nat) | V6Key(network: Bits, prefix: nat)

  datatype Plan = Plan(endpoints: seq<Endpoint>, active: set<string>, coveredBy: map<string, string>)

  // The networks covered so far, each with the interface that brought it in, and the plan so far.
  datatype Cover = Cover(owners: map<NetworkKey, string>, plan: Plan)

  const NOTHING := Cover(map[], Plan([], {}, map[]))

  // ---- Records ----

  predicate Physical(kind: Kind) {
    kind == Ethernet || kind == Wifi
  }

  function Priority(kind: Kind): nat {
    match kind
    case Ethernet => 0
    case Wifi => 1
    case Other => 2
    case Tunnel => 3
    case Bridge => 4
    case Virtual => 5
  }

  function RecordRank(r: Record): Rank {
    Rank(Priority(r.kind), r.name)
  }

  function Keys4(nets: seq<Net4>): seq<NetworkKey> {
    if nets == [] then []
    else
      var rest := Keys4(nets[1..]);
      if LinkLocalV4(nets[0].address) then rest
      else [V4Key(Masked(nets[0].address, nets[0].prefix), Min(nets[0].prefix, 32))] + rest
  }

  function Keys6(nets: seq<Net6>): seq<NetworkKey> {
    if nets == [] then []
    else
      var rest := Keys6(nets[1..]);
      if LinkLocalV6(nets[0].address) then rest
      else [V6Key(Masked(nets[0].address, nets[0].prefix), Min(nets[0].prefix, 128))] + rest
  }

  // The networks of a record; only which keys occur, and the least of them, matters.
  function NetworkKeys(r: Record): seq<NetworkKey> {
    Keys4(r.ipv4) + Keys6(r.ipv6)
  }

  predicate BitsLess(a: Bits, b: Bits) {
    b != [] && (a == [] || (!a[0] && b[0]) || (a[0] == b[0] && BitsLess(a[1..], b[1..])))
  }

  predicate KeyLess(a: NetworkKey, b: NetworkKey) {
    if a.V4Key? != b.V4Key? then a.V4Key?
    else BitsLess(a.network, b.network) || (a.network == b.network && a.prefix < b.prefix)
  }

  function Least(keys: seq<NetworkKey>): (k: NetworkKey)
    requires keys != []
    ensures k in keys
  {
    if |keys| == 1 then keys[0]
    else
      var rest := Least(keys[1..]);
      if KeyLess(rest, keys[0]) then rest else keys[0]
  }

  function Endpoints4(name: string, nets: seq<Net4>): seq<Endpoint> {
    if nets == [] then []
    else
      var rest := Endpoints4(name, nets[1..]);
      if LinkLocalV4(nets[0].address) then rest else [V4Endpoint(name, nets[0].address)] + rest
  }

  predicate DiscoversV4(r: Record) {
    !r.pointToPoint && exists i :: 0 <= i < |r.ipv4| && !LinkLocalV4(r.ipv4[i].address)
  }

  function RecordEndpoints(r: Record): seq<Endpoint> {
    (if DiscoversV4(r) then Endpoints4(r.name, r.ipv4) else []) +
    (if r.index.Some? && r.ipv6 != [] then [V6Endpoint(r.name, r.index.value)] else [])
  }

  // ---- The plan ----

  predicate Includes(prefs: Preferences, name: string) {
    prefs.mode == All || name in prefs.interfaces
  }

  predicate Collapses(prefs: Preferences, r: Record) {
    prefs.mode == All && Physical(r.kind)
  }

  predicate Covered(owners: map<NetworkKey, string>, keys: seq<NetworkKey>) {
    keys != [] && forall k :: k in keys ==> k in owners
  }

  predicate Skips(prefs: Preferences, c: Cover, r: Record) {
    Includes(prefs, r.name) && Collapses(prefs, r) && Covered(c.owners, NetworkKeys(r))
  }

  // New networks get this owner; known ones keep theirs.
  function Own(owners: map<NetworkKey, string>, keys: seq<NetworkKey>, name: string): map<NetworkKey, string> {
    map k | k in owners.Keys + (set j | j in keys) :: if k in owners then owners[k] else name
  }

  function Step(prefs: Preferences, c: Cover, r: Record): Cover {
    if !Includes(prefs, r.name) then c
    else if Skips(prefs, c, r) then
      c.(plan := c.plan.(coveredBy := c.plan.coveredBy[r.name := c.owners[Least(NetworkKeys(r))]]))
    else
      var es := RecordEndpoints(r);
      Cover(if Collapses(prefs, r) then Own(c.owners, NetworkKeys(r), r.name) else c.owners,
            c.plan.(endpoints := c.plan.endpoints + es, active := c.plan.active + if es != [] then {r.name} else {}))
  }

  function Fold(prefs: Preferences, rs: seq<Record>): Cover {
    if rs == [] then NOTHING else Step(prefs, Fold(prefs, rs[..|rs| - 1]), rs[|rs| - 1])
  }

  function Ordered(records: seq<Record>): seq<Record> {
    SortByKey(records, RecordRank)
  }

  function DiscoveryPlan(records: seq<Record>, prefs: Preferences): Plan {
    var plan := Fold(prefs, Ordered(records)).plan;
    plan.(endpoints := Dedup(SortByKey(plan.endpoints, EndpointRank)))
  }

  // ---- Descriptions ----

  function Tail(e: Endpoint): string {
    match e
    case V4Endpoint(_, address) => Dotted(address) + ")"
    case V6Endpoint(_, index) => "IPv6, if-index " + (Decimal(index) + ")")
  }

  function Description(e: Endpoint): string {
    (e.name + " ") + ['('] + Tail(e)
  }

  function EndpointRank(e: Endpoint): Rank {
    Rank(0, Description(e))
  }

  lemma TailHasNoParenthesis(e: Endpoint)
    ensures '(' !in Tail(e)
    ensures e.V4Endpoint? ==> Tail(e)[0] != 'I'
    ensures e.V6Endpoint? ==> Tail(e)[0] == 'I'
  {
    match e
    case V4Endpoint(_, a) =>
      assert Dotted(a)[0] == Octet(a, 0)[0];
      forall c | c in Dotted(a)
        ensures c == '.' || '0' <= c <= '9'
      {
        assert c == '.' || exists k | 0 <= k < 4 :: c in Octet(a, k);
      }
    case V6Endpoint(_, index) =>
      assert '(' !in "IPv6, if-index " && '(' !in Decimal(index);
  }

  // Whatever the interface names are, a description tells the endpoint.
  lemma DescriptionInjective(d: Endpoint, e: Endpoint)
    ensures Description(d) == Description(e) <==> d == e
  {
    if Description(d) == Description(e) {
      SameDescription(d, e);
    }
  }

  lemma SameDescription(d: Endpoint, e: Endpoint)
    requires (d.name + " ") + ['('] + Tail(d) == (e.name + " ") + ['('] + Tail(e)
    ensures d == e
  {
    TailHasNoParenthesis(d);
    TailHasNoParenthesis(e);
    LastSeparatorSplits(d.name + " ", e.name + " ", Tail(d), Tail(e), '(');
    assert d.name == (d.name + " ")[..|d.name|] && e.name == (e.name + " ")[..|e.name|];
    if d.V4Endpoint? {
      assert Dotted(d.address) == Tail(d)[..|Tail(d)| - 1] && Dotted(e.address) == Tail(e)[..|Tail(e)| - 1];
      DottedInjective(d.address, e.address);
    } else {
      var n := |"IPv6, if-index "|;
      assert Decimal(d.index) == Tail(d)[n..|Tail(d)| - 1] && Decimal(e.index) == Tail(e)[n..|Tail(e)| - 1];
      DecimalInjective(d.index, e.index);
    }
  }

  // ---- The loop ----

  lemma EndpointsFrom(out: seq<Endpoint>, name: string, nets: seq<Net4>, i: nat)
    requires i < |nets|
    ensures out + Endpoints4(name, nets[i..]) ==
            (if LinkLocalV4(nets[i].address) then out else out + [V4Endpoint(name, nets[i].address)])
            + Endpoints4(name, nets[i + 1..])
  {
    assert nets[i..][0] == nets[i] && nets[i..][1..] == nets[i + 1..];
  }

  method AppendRecordEndpoints(endpoints: seq<Endpoint>, r: Record) returns (out: seq<Endpoint>)
    ensures out == endpoints + RecordEndpoints(r)
  {
    out := endpoints;
    if DiscoversV4(r) {
      for i := 0 to |r.ipv4|
        invariant out + Endpoints4(r.name, r.ipv4[i..]) == endpoints + Endpoints4(r.name, r.ipv4)
      {
        EndpointsFrom(out, r.name, r.ipv4, i);
        if !LinkLocalV4(r.ipv4[i].address) {
          out := out + [V4Endpoint(r.name, r.ipv4[i].address)];
        }
      }
      assert Endpoints4(r.name, r.ipv4[|r.ipv4|..]) == [] && out + [] == out;
    }
    if r.index.Some? && r.ipv6 != [] {
      out := out + [V6Endpoint(r.name, r.index.value)];
    }
  }

  lemma OwnOneMore(owners: map<NetworkKey, string>, keys: seq<NetworkKey>, i: nat, name: string)
    requires i < |keys|
    ensures var before := Own(owners, keys[..i], name);
            Own(owners, keys[..i + 1], name) == if keys[i] in before then before else before[keys[i] := name]
  {
    assert keys[..i + 1] == keys[..i] + [keys[i]];
    assert forall k :: k in keys[..i + 1] <==> k in keys[..i] || k == keys[i];
  }

  lemma FoldOneMore(prefs: Preferences, rs: seq<Record>, i: nat)
    requires i < |rs|
    ensures Fold(prefs, rs[..i + 1]) == Step(prefs, Fold(prefs, rs[..i]), rs[i])
  {
    assert rs[..i + 1][..i] == rs[..i];
  }

  method OwnAll(owners: map<NetworkKey, string>, keys: seq<NetworkKey>, name: string)
    returns (out: map<NetworkKey, string>)
    ensures out == Own(owners, keys, name)
  {
    out := owners;
    for i := 0 to |keys|
      invariant out == Own(owners, keys[..i], name)
    {
      OwnOneMore(owners, keys, i, name);
      if keys[i] !in out {
        out := out[keys[i] := name];
      }
    }
    assert keys[..|keys|] == keys;
  }

  method TakeRecord(prefs: Preferences, c: Cover, record: Record) returns (next: Cover)
    ensures next == Step(prefs, c, record)
  {
    next := c;
    if !Includes(prefs, record.name) {
      return;
    }
    if prefs.mode == All && Physical(record.kind) {
      var keys := NetworkKeys(record);
      if keys != [] && forall k :: k in keys ==> k in next.owners {
        next := next.(plan := next.plan.(coveredBy := next.plan.coveredBy[record.name := next.owners[Least(keys)]]));
        return;
      }
      var owners := OwnAll(next.owners, keys, record.name);
      next := next.(owners := owners);
    }
    var endpoints := AppendRecordEndpoints(next.plan.endpoints, record);
    var active := if |endpoints| > |next.plan.endpoints| then {record.name} else {};
    next := next.(plan := next.plan.(endpoints := endpoints, active := next.plan.active + active));
  }

  method PlanDiscovery(records: seq<Record>, prefs: Preferences) returns (plan: Plan)
    ensures plan == DiscoveryPlan(records, prefs)
  {
    var cover := NOTHING;
    var ordered := Ordered(records);
    for i := 0 to |ordered|
      invariant cover == Fold(prefs, ordered[..i])
    {
      FoldOneMore(prefs, ordered, i);
      cover := TakeRecord(prefs, cover, ordered[i]);
    }
    assert ordered[..|ordered|] == ordered;
    var endpoints := Dedup(SortByKey(cover.plan.endpoints, EndpointRank));
    plan := cover.plan.(endpoints := endpoints);
  }
}
