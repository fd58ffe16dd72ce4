/** Which networks automatic discovery reaches: the adapters it keeps, and what each of them can do. */
module HiddenNetworks {
  import opened Wrappers
  import opened Numbers
  import opened Addresses
  import opened Ordering
  import opened Discovery
  import opened DiscoveryCoverage

  // ---- The adapters kept ----

  // No physical record on the network comes before this one.
  ghost predicate Leads(records: seq<Record>, r: Record, k: NetworkKey) {
    HasKey(r, k) && forall q :: q in records && Physical(q.kind) && HasKey(q, k) ==>
      !RankLess(RecordRank(q), RecordRank(r))
  }

  // A physical record without a network, or the first one on some network.
  ghost predicate Keeps(records: seq<Record>, r: Record) {
    NetworkKeys(r) == [] || exists k :: Leads(records, r, k)
  }

  // Records that are not physical always take part.
  ghost predicate InUse(records: seq<Record>, r: Record) {
    Physical(r.kind) ==> Keeps(records, r)
  }

  // The networks owned before position i are those of the physical records before it.
  lemma OwnedBefore(prefs: Preferences, rs: seq<Record>, i: nat, k: NetworkKey)
    requires prefs.mode == All && i <= |rs|
    ensures k in Fold(prefs, rs[..i]).owners <==> exists j: nat :: j < i && Physical(rs[j].kind) && HasKey(rs[j], k)
  {
    var before := rs[..i];
    OwnersAreRetained(prefs, before);
    if k in Fold(prefs, before).owners {
      var j: nat :| OwnsAt(prefs, before, k, Fold(prefs, before).owners[k], j);
      assert Physical(rs[j].kind) && HasKey(rs[j], k);
    }
    if exists j: nat :: j < i && Physical(rs[j].kind) && HasKey(rs[j], k) {
      var j: nat :| j < i && Physical(rs[j].kind) && HasKey(rs[j], k);
      assert before[j] == rs[j] && HasKey(before[j], k);
      if SkippedAt(prefs, before, j) {
        SkippedIsCovered(prefs, before, j, k);
        var m: nat :| m < j && RetainedAt(prefs, before, m) && HasKey(before[m], k);
        assert k in NetworkKeys(before[m]);
      } else {
        assert RetainedAt(prefs, before, j) && k in NetworkKeys(before[j]);
      }
    }
  }

  // In a list sorted by rank, the records before a position are those of smaller rank.
  lemma BeforeIsSmaller(rs: seq<Record>, i: nat, q: Record)
    requires StrictlyAscending(rs, RecordRank) && i < |rs| && q in rs
    ensures RankLess(RecordRank(q), RecordRank(rs[i])) <==> exists j: nat :: j < i && rs[j] == q
  {
    var j: nat :| j < |rs| && rs[j] == q;
    RankLessTotal(RecordRank(q), RecordRank(rs[i]));
    RankLessTotal(RecordRank(rs[i]), RecordRank(rs[i]));
  }

  lemma SameRecords(records: seq<Record>)
    ensures forall q :: q in records <==> q in Ordered(records)
  {
    SortKeeps(records, RecordRank);
    forall q
      ensures q in records <==> q in Ordered(records)
    {
      assert q in records <==> q in multiset(records);
      assert q in Ordered(records) <==> q in multiset(Ordered(records));
    }
  }

  // A network is owned when its record is reached exactly when that record does not lead on it.
  lemma OwnedOrLeading(records: seq<Record>, prefs: Preferences, i: nat, k: NetworkKey)
    requires prefs.mode == All && DistinctNames(records)
    requires i < |Ordered(records)| && HasKey(Ordered(records)[i], k)
    ensures k in Fold(prefs, Ordered(records)[..i]).owners <==> !Leads(records, Ordered(records)[i], k)
  {
    var rs := Ordered(records);
    SameRecords(records);
    OrderedKeepsDistinct(records);
    OwnedBefore(prefs, rs, i, k);
    if k in Fold(prefs, rs[..i]).owners {
      var j: nat :| j < i && Physical(rs[j].kind) && HasKey(rs[j], k);
      assert rs[j] in records && RankLess(RecordRank(rs[j]), RecordRank(rs[i]));
    }
    if !Leads(records, rs[i], k) {
      var q :| q in records && Physical(q.kind) && HasKey(q, k) && RankLess(RecordRank(q), RecordRank(rs[i]));
      BeforeIsSmaller(rs, i, q);
    }
  }

  lemma UsedMeans(records: seq<Record>, prefs: Preferences, i: nat)
    requires prefs.mode == All && DistinctNames(records) && i < |Ordered(records)|
    ensures UsedAt(prefs, Ordered(records), i) <==> InUse(records, Ordered(records)[i])
  {
    var r := Ordered(records)[i];
    var owners := Fold(prefs, Ordered(records)[..i]).owners;
    forall k | k in NetworkKeys(r)
      ensures k in owners <==> !Leads(records, r, k)
    {
      assert HasKey(r, k);
      OwnedOrLeading(records, prefs, i, k);
    }
    if Keeps(records, r) && NetworkKeys(r) != [] {
      var k :| Leads(records, r, k);
      assert k in NetworkKeys(r) && k !in owners;
    }
    if NetworkKeys(r) != [] && !Covered(owners, NetworkKeys(r)) {
      var k :| k in NetworkKeys(r) && k !in owners;
      assert Leads(records, r, k);
    }
  }

  // In automatic mode a physical record is retained exactly when it has no network, or has one that no physical
  // record of smaller rank has.
  lemma RetainedMeans(records: seq<Record>, prefs: Preferences, r: Record)
    requires prefs.mode == All && DistinctNames(records) && r in records && Physical(r.kind)
    ensures (exists i: nat :: RetainedAt(prefs, Ordered(records), i) && Ordered(records)[i] == r) <==> Keeps(records, r)
  {
    SameRecords(records);
    var i: nat :| i < |Ordered(records)| && Ordered(records)[i] == r;
    UsedMeans(records, prefs, i);
    if exists j: nat :: RetainedAt(prefs, Ordered(records), j) && Ordered(records)[j] == r {
      var j: nat :| RetainedAt(prefs, Ordered(records), j) && Ordered(records)[j] == r;
      UsedMeans(records, prefs, j);
    }
    assert InUse(records, r) ==> RetainedAt(prefs, Ordered(records), i);
  }

  // ---- What a record can do for its networks ----

  predicate OnNetwork(n: Net4, k: NetworkKey) {
    !LinkLocalV4(n.address) && k == V4Key(Masked(n.address, n.prefix), Min(n.prefix, 32))
  }

  // IPv4 multicast is not for point-to-point links; IPv6 multicast needs the index.
  predicate CanReach(r: Record, k: NetworkKey) {
    if k.V4Key? then !r.pointToPoint else r.index.Some?
  }

  // The plan has an endpoint of the record on the network: one of its addresses there, or its IPv6 index.
  ghost predicate Reaches(plan: Plan, r: Record, k: NetworkKey) {
    if k.V4Key? then exists n :: n in r.ipv4 && OnNetwork(n, k) && V4Endpoint(r.name, n.address) in plan.endpoints
    else r.index.Some? && V6Endpoint(r.name, r.index.value) in plan.endpoints
  }

  lemma {:induction false} Keys4Mean(nets: seq<Net4>, k: NetworkKey)
    ensures k in Keys4(nets) <==> exists n :: n in nets && OnNetwork(n, k)
  {
    if nets != [] {
      Keys4Mean(nets[1..], k);
      assert nets == [nets[0]] + nets[1..];
      assert k in Keys4(nets) <==> OnNetwork(nets[0], k) || k in Keys4(nets[1..]);
      assert forall n :: n in nets <==> n == nets[0] || n in nets[1..];
    }
  }

  lemma {:induction false} Keys6Need(nets: seq<Net6>, k: NetworkKey)
    requires k in Keys6(nets)
    ensures k.V6Key? && nets != []
  {
    if k in Keys6(nets[1..]) {
      Keys6Need(nets[1..], k);
    }
  }

  lemma {:induction false} Endpoints4Mean(name: string, nets: seq<Net4>, n: Net4)
    requires n in nets && !LinkLocalV4(n.address)
    ensures V4Endpoint(name, n.address) in Endpoints4(name, nets)
  {
    if n != nets[0] {
      Endpoints4Mean(name, nets[1..], n);
    }
  }

  lemma EndpointsAreNamed(r: Record, e: Endpoint)
    requires e in RecordEndpoints(r)
    ensures e.name == r.name && (e.V4Endpoint? ==> !r.pointToPoint)
  {
    if DiscoversV4(r) && e in Endpoints4(r.name, r.ipv4) {
      NamedEndpoints4(r.name, r.ipv4, e);
    }
  }

  lemma {:induction false} NamedEndpoints4(name: string, nets: seq<Net4>, e: Endpoint)
    requires e in Endpoints4(name, nets)
    ensures e.name == name
  {
    if e in Endpoints4(name, nets[1..]) {
      NamedEndpoints4(name, nets[1..], e);
    }
  }

  // An endpoint under the record's name is in the plan exactly when the record is in use and has it.
  lemma EndpointOf(records: seq<Record>, prefs: Preferences, r: Record, e: Endpoint)
    requires prefs.mode == All && DistinctNames(records) && r in records && e.name == r.name
    ensures e in DiscoveryPlan(records, prefs).endpoints <==> InUse(records, r) && e in RecordEndpoints(r)
  {
    var rs := Ordered(records);
    SameRecords(records);
    OrderedKeepsDistinct(records);
    EndpointsAreSorted(records, prefs, e);
    var i: nat :| i < |rs| && rs[i] == r;
    UsedMeans(records, prefs, i);
    if e in DiscoveryPlan(records, prefs).endpoints {
      var j: nat :| UsedAt(prefs, rs, j) && e in RecordEndpoints(rs[j]);
      EndpointsAreNamed(rs[j], e);
      assert j == i;
    }
  }

  // In automatic mode a record reaches a network it is on exactly when it is in use and can.
  lemma RecordReaches(records: seq<Record>, prefs: Preferences, r: Record, k: NetworkKey)
    requires prefs.mode == All && DistinctNames(records) && r in records && HasKey(r, k)
    ensures Reaches(DiscoveryPlan(records, prefs), r, k) <==> InUse(records, r) && CanReach(r, k)
  {
    if k.V4Key? {
      V4Reaches(records, prefs, r, k);
    } else {
      Keys4Mean(r.ipv4, k);
      Keys6Need(r.ipv6, k);
      if r.index.Some? {
        EndpointOf(records, prefs, r, V6Endpoint(r.name, r.index.value));
      }
    }
  }

  lemma V4Reaches(records: seq<Record>, prefs: Preferences, r: Record, k: NetworkKey)
    requires prefs.mode == All && DistinctNames(records) && r in records && HasKey(r, k) && k.V4Key?
    ensures Reaches(DiscoveryPlan(records, prefs), r, k) <==> InUse(records, r) && CanReach(r, k)
  {
    Keys4Mean(r.ipv4, k);
    if k in Keys6(r.ipv6) {
      Keys6Need(r.ipv6, k);
    }
    var n :| n in r.ipv4 && OnNetwork(n, k);
    EndpointOf(records, prefs, r, V4Endpoint(r.name, n.address));
    Endpoints4Mean(r.name, r.ipv4, n);
    if Reaches(DiscoveryPlan(records, prefs), r, k) {
      var m :| m in r.ipv4 && OnNetwork(m, k)
               && V4Endpoint(r.name, m.address) in DiscoveryPlan(records, prefs).endpoints;
      EndpointOf(records, prefs, r, V4Endpoint(r.name, m.address));
      EndpointsAreNamed(r, V4Endpoint(r.name, m.address));
    }
  }

  // ---- Networks ----

  // Some record of the plan reaches the network; only physical ones count if so asked.
  ghost predicate Reached(records: seq<Record>, plan: Plan, k: NetworkKey, physical: bool) {
    exists r :: r in records && HasKey(r, k) && (physical ==> Physical(r.kind)) && Reaches(plan, r, k)
  }

  // In automatic mode a network is reached, by a physical record or by any, exactly when such a record on it is in
  // use and can: for IPv4 it is not point-to-point, for IPv6 it has an index.
  lemma NetworkIsReached(records: seq<Record>, prefs: Preferences, k: NetworkKey, physical: bool)
    requires prefs.mode == All && DistinctNames(records)
    ensures Reached(records, DiscoveryPlan(records, prefs), k, physical) <==>
            exists r :: r in records && HasKey(r, k) && (physical ==> Physical(r.kind))
                        && InUse(records, r) && CanReach(r, k)
  {
    forall r | r in records && HasKey(r, k)
      ensures Reaches(DiscoveryPlan(records, prefs), r, k) <==> InUse(records, r) && CanReach(r, k)
    {
      RecordReaches(records, prefs, r, k);
    }
  }

  // A network that a record alone would reach is hidden beside others exactly when no record in use on it can
  // reach it.
  lemma NetworkIsHidden(records: seq<Record>, prefs: Preferences, w: Record, k: NetworkKey)
    requires prefs.mode == All && DistinctNames(records) && w in records && HasKey(w, k) && CanReach(w, k)
    ensures Reaches(DiscoveryPlan([w], prefs), w, k)
    ensures !Reached(records, DiscoveryPlan(records, prefs), k, false) <==>
            forall r :: r in records && HasKey(r, k) && InUse(records, r) ==> !CanReach(r, k)
  {
    assert w in [w];
    RankLessTotal(RecordRank(w), RecordRank(w));
    assert Leads([w], w, k);
    RecordReaches([w], prefs, w, k);
    NetworkIsReached(records, prefs, k, false);
  }

  // ---- Inputs that hide a network ----

  // 2.0.0.1/8 and 128.0.0.1/8
  const LOW := Net4(Zeros(6) + [true] + Zeros(24) + [true], 8)
  const HIGH := Net4([true] + Zeros(30) + [true], 8)

  function KeyOf(n: Net4): NetworkKey {
    V4Key(Masked(n.address, n.prefix), Min(n.prefix, 32))
  }

  lemma EvenIsNotLinkLocal(a: V4)
    requires !a[7]
    ensures !LinkLocalV4(a)
  {
    assert a[..8][..7] == a[..7] && a[..8][7] == a[7];
    assert Number(a[..8]) == 2 * Number(a[..7]);
  }

  lemma LowAndHigh()
    ensures OnNetwork(LOW, KeyOf(LOW)) && OnNetwork(HIGH, KeyOf(HIGH))
    ensures KeyOf(LOW) != KeyOf(HIGH) && KeyLess(KeyOf(LOW), KeyOf(HIGH))
  {
    EvenIsNotLinkLocal(LOW.address);
    EvenIsNotLinkLocal(HIGH.address);
    assert !Masked(LOW.address, 8)[0] && Masked(HIGH.address, 8)[0];
  }

  lemma KeysOfOne(n: Net4)
    requires !LinkLocalV4(n.address)
    ensures Keys4([n]) == [KeyOf(n)]
  {
    assert [n][1..] == [];
  }

  lemma KeysOfTwo(m: Net4, n: Net4)
    requires !LinkLocalV4(m.address) && !LinkLocalV4(n.address)
    ensures Keys4([m, n]) == [KeyOf(m), KeyOf(n)]
  {
    KeysOfOne(n);
    assert [m, n][1..] == [n];
  }

  lemma OrderedAsListed(rs: seq<Record>)
    requires StrictlyAscending(rs, RecordRank) && DistinctNames(rs)
    ensures Ordered(rs) == rs
  {
    OrderedKeepsDistinct(rs);
    SameRecords(rs);
    SortedIsCanonical(Ordered(rs), rs, RecordRank);
  }

  // Two adapters own a network each, and a third that has both is reported as covered by the owner of the lesser.
  lemma CoveredByTwo(prefs: Preferences, a: Record, b: Record, w: Record, low: NetworkKey, high: NetworkKey)
    requires prefs.mode == All && Physical(a.kind) && Physical(b.kind) && Physical(w.kind)
    requires NetworkKeys(a) == [low] && NetworkKeys(b) == [high] && NetworkKeys(w) == [low, high]
    requires low != high && KeyLess(low, high)
    ensures Fold(prefs, [a, b, w]).plan.coveredBy == map[w.name := a.name]
    ensures RecordEndpoints(a) != [] ==> a.name in Fold(prefs, [a, b, w]).plan.active
  {
    var first := OwnsNew(prefs, NOTHING, a, low);
    var second := OwnsNew(prefs, first, b, high);
    FoldAppend(prefs, [], a);
    FoldAppend(prefs, [a], b);
    FoldAppend(prefs, [a, b], w);
    assert [] + [a] == [a] && [a] + [b] == [a, b] && [a, b] + [w] == [a, b, w];
    LeastOfTwo(low, high);
    assert Covered(second.owners, NetworkKeys(w));
  }

  // A record on a new network becomes its owner.
  lemma OwnsNew(prefs: Preferences, c: Cover, r: Record, k: NetworkKey) returns (d: Cover)
    requires prefs.mode == All && Physical(r.kind) && NetworkKeys(r) == [k] && k !in c.owners
    ensures d == Step(prefs, c, r) && d.owners == c.owners[k := r.name]
    ensures d.plan.coveredBy == c.plan.coveredBy
    ensures d.plan.active == c.plan.active + if RecordEndpoints(r) != [] then {r.name} else {}
  {
    d := Step(prefs, c, r);
    assert !Covered(c.owners, [k]) by {
      assert k in [k];
    }
    assert Own(c.owners, [k], r.name) == c.owners[k := r.name];
  }

  lemma LeastOfTwo(low: NetworkKey, high: NetworkKey)
    requires low != high && KeyLess(low, high)
    ensures Least([low, high]) == low
  {
    assert [low, high][1..] == [high];
    KeyLessIsStrict(low, high);
  }

  lemma KeyLessIsStrict(low: NetworkKey, high: NetworkKey)
    requires KeyLess(low, high)
    ensures !KeyLess(high, low)
  {
    BitsLessIsStrict(low.network, high.network);
  }

  lemma {:induction false} BitsLessIsStrict(x: Bits, y: Bits)
    ensures !(BitsLess(x, y) && BitsLess(y, x)) && !BitsLess(x, x)
  {
    if x != [] {
      BitsLessIsStrict(x[1..], if y == [] then [] else y[1..]);
    }
  }

  // With nothing but the three, the second network is out of reach when its owner is point-to-point.
  lemma SecondNetworkIsHidden(prefs: Preferences, a: Record, b: Record, w: Record, low: NetworkKey, high: NetworkKey)
    requires prefs.mode == All && DistinctNames([a, b, w]) && StrictlyAscending([a, b, w], RecordRank)
    requires Physical(a.kind) && Physical(b.kind) && Physical(w.kind)
    requires NetworkKeys(a) == [low] && NetworkKeys(b) == [high] && NetworkKeys(w) == [low, high] && low != high
    requires CanReach(w, high) && !CanReach(b, high)
    ensures Reaches(DiscoveryPlan([w], prefs), w, high)
    ensures !Reached([a, b, w], DiscoveryPlan([a, b, w], prefs), high, false)
  {
    var records := [a, b, w];
    assert records[0] == a && records[1] == b && records[2] == w;
    assert HasKey(a, low) && HasKey(b, high) && HasKey(w, high) && !HasKey(a, high);
    assert !Leads(records, w, low) && !Leads(records, w, high);
    NetworkIsHidden(records, prefs, w, high);
  }

  const A := Record("a", None, Ethernet, [LOW], [], false)
  const B := Record("b", None, Ethernet, [HIGH], [], true)
  const W := Record("w", None, Wifi, [LOW, HIGH], [], false)

  lemma Adapters()
    ensures NetworkKeys(A) == [KeyOf(LOW)] && NetworkKeys(B) == [KeyOf(HIGH)]
    ensures NetworkKeys(W) == [KeyOf(LOW), KeyOf(HIGH)]
    ensures RankLess(RecordRank(A), RecordRank(B)) && RankLess(RecordRank(B), RecordRank(W))
    ensures RankLess(RecordRank(A), RecordRank(W)) && A.name != B.name && A.name != W.name && B.name != W.name
    ensures RecordEndpoints(A) != []
  {
    LowAndHigh();
    KeysOfOne(LOW);
    KeysOfOne(HIGH);
    KeysOfTwo(LOW, HIGH);
    assert A.name[0] != B.name[0] && A.name[0] != W.name[0] && B.name[0] != W.name[0];
    DiscoverableYields(A);
    assert LOW in A.ipv4;
  }

  // Adapter "a" has the one network, the point-to-point adapter "b" the other, and Wi-Fi both. Wi-Fi is reported as
  // covered by "a", which is active; yet nothing reaches its other network, which it would reach alone.
  lemma TwoOwnersHideNetwork()
    ensures var plan := DiscoveryPlan([A, B, W], Preferences(All, {}));
            && plan.coveredBy == map[W.name := A.name] && A.name in plan.active
            && HasKey(W, KeyOf(HIGH)) && Reaches(DiscoveryPlan([W], Preferences(All, {})), W, KeyOf(HIGH))
            && !Reached([A, B, W], plan, KeyOf(HIGH), false)
  {
    var prefs := Preferences(All, {});
    LowAndHigh();
    Adapters();
    OrderedAsListed([A, B, W]);
    CoveredByTwo(prefs, A, B, W, KeyOf(LOW), KeyOf(HIGH));
    SecondNetworkIsHidden(prefs, A, B, W, KeyOf(LOW), KeyOf(HIGH));
  }

  // A point-to-point Ethernet adapter that has IPv6 and an index takes over the network of a Wi-Fi adapter. It is
  // active, but on IPv6 alone: nothing reaches the Wi-Fi adapter's IPv4 network, which it would reach alone.
  lemma ActiveCoverHidesIPv4(prefs: Preferences, e: Record, w: Record, k: NetworkKey)
    requires prefs.mode == All && e.kind == Ethernet && w.kind == Wifi && e.name != w.name
    requires e.pointToPoint && e.index.Some? && e.ipv6 != [] && k.V4Key? && HasKey(e, k)
    requires NetworkKeys(w) == [k] && !w.pointToPoint
    ensures var plan := DiscoveryPlan([e, w], prefs);
            && plan.coveredBy == map[w.name := e.name] && e.name in plan.active
            && Reaches(DiscoveryPlan([w], prefs), w, k) && !Reached([e, w], plan, k, false)
  {
    var records := [e, w];
    assert records[0] == e && records[1] == w && HasKey(w, k);
    assert RankLess(RecordRank(e), RecordRank(w)) && !Leads(records, w, k);
    NetworkIsHidden(records, prefs, w, k);
    OrderedAsListed(records);
    CoveredByOne(prefs, e, w);
  }

  lemma CoveredByOne(prefs: Preferences, e: Record, w: Record)
    requires prefs.mode == All && Physical(e.kind) && Physical(w.kind) && RecordEndpoints(e) != []
    requires NetworkKeys(w) != [] && forall k :: k in NetworkKeys(w) ==> k in NetworkKeys(e)
    ensures Fold(prefs, [e, w]).plan.coveredBy == map[w.name := e.name]
    ensures e.name in Fold(prefs, [e, w]).plan.active
  {
    FoldAppend(prefs, [], e);
    FoldAppend(prefs, [e], w);
    assert [] + [e] == [e] && [e] + [w] == [e, w];
    assert Least(NetworkKeys(w)) in NetworkKeys(e);
  }
}
