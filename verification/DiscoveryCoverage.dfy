/** Automatic discovery loses no physical network, and its endpoint list is canonical. */
module DiscoveryCoverage {
  import opened Addresses
  import opened Ordering
  import opened Discovery

  // The i-th record in order is dropped because earlier ones cover all its networks.
  ghost predicate SkippedAt(prefs: Preferences, rs: seq<Record>, i: nat) {
    i < |rs| && Skips(prefs, Fold(prefs, rs[..i]), rs[i])
  }

  ghost predicate UsedAt(prefs: Preferences, rs: seq<Record>, i: nat) {
    i < |rs| && Includes(prefs, rs[i].name) && !SkippedAt(prefs, rs, i)
  }

  // A physical record that is kept and speaks for its networks.
  ghost predicate RetainedAt(prefs: Preferences, rs: seq<Record>, i: nat) {
    UsedAt(prefs, rs, i) && Collapses(prefs, rs[i])
  }

  lemma PrefixAgrees(prefs: Preferences, rs: seq<Record>, r: Record, i: nat)
    requires i < |rs|
    ensures (rs + [r])[..|rs|] == rs
    ensures SkippedAt(prefs, rs + [r], i) == SkippedAt(prefs, rs, i)
    ensures UsedAt(prefs, rs + [r], i) == UsedAt(prefs, rs, i)
    ensures RetainedAt(prefs, rs + [r], i) == RetainedAt(prefs, rs, i)
  {
    assert (rs + [r])[..i] == rs[..i];
    assert (rs + [r])[..|rs|] == rs;
  }

  lemma FoldAppend(prefs: Preferences, rs: seq<Record>, r: Record)
    ensures Fold(prefs, rs + [r]) == Step(prefs, Fold(prefs, rs), r)
    ensures SkippedAt(prefs, rs + [r], |rs|) <==> Skips(prefs, Fold(prefs, rs), r)
    ensures UsedAt(prefs, rs + [r], |rs|) <==> Includes(prefs, r.name) && !Skips(prefs, Fold(prefs, rs), r)
  {
    assert (rs + [r])[..|rs|] == rs;
  }

  // Record i is the retained owner of the network.
  ghost predicate OwnsAt(prefs: Preferences, rs: seq<Record>, k: NetworkKey, owner: string, i: nat) {
    RetainedAt(prefs, rs, i) && k in NetworkKeys(rs[i]) && rs[i].name == owner
  }

  ghost predicate OwnersInv(prefs: Preferences, rs: seq<Record>) {
    var owners := Fold(prefs, rs).owners;
    && (forall k :: k in owners ==> exists i: nat :: OwnsAt(prefs, rs, k, owners[k], i))
    && (forall i: nat, k :: RetainedAt(prefs, rs, i) && k in NetworkKeys(rs[i]) ==> k in owners)
  }

  lemma {:induction false} OwnersAreRetained(prefs: Preferences, rs: seq<Record>)
    ensures OwnersInv(prefs, rs)
  {
    if rs != [] {
      var before, r := rs[..|rs| - 1], rs[|rs| - 1];
      assert rs == before + [r];
      OwnersAreRetained(prefs, before);
      OwnersByStep(prefs, before, r);
    }
  }

  lemma OwnersByStep(prefs: Preferences, rs: seq<Record>, r: Record)
    requires OwnersInv(prefs, rs)
    ensures OwnersInv(prefs, rs + [r])
  {
    FoldAppend(prefs, rs, r);
    var all, past, owners := rs + [r], Fold(prefs, rs).owners, Fold(prefs, rs + [r]).owners;
    forall k | k in owners
      ensures exists i: nat :: OwnsAt(prefs, all, k, owners[k], i)
    {
      if k in past {
        var i: nat :| OwnsAt(prefs, rs, k, past[k], i);
        PrefixAgrees(prefs, rs, r, i);
        assert OwnsAt(prefs, all, k, owners[k], i);
      } else {
        assert OwnsAt(prefs, all, k, owners[k], |rs|);
      }
    }
    forall i: nat, k | RetainedAt(prefs, all, i) && k in NetworkKeys(all[i])
      ensures k in owners
    {
      if i < |rs| {
        PrefixAgrees(prefs, rs, r, i);
        assert k in past;
      }
    }
  }

  ghost predicate HasKey(r: Record, k: NetworkKey) {
    k in NetworkKeys(r)
  }

  // Each network of a skipped record belongs to a retained record that comes earlier in order.
  lemma SkippedIsCovered(prefs: Preferences, rs: seq<Record>, i: nat, k: NetworkKey)
    requires SkippedAt(prefs, rs, i) && HasKey(rs[i], k)
    ensures exists j: nat :: j < i && RetainedAt(prefs, rs, j) && HasKey(rs[j], k)
    ensures k in Fold(prefs, rs[..i]).owners
    ensures exists j: nat :: j < i && OwnsAt(prefs, rs, k, Fold(prefs, rs[..i]).owners[k], j)
  {
    OwnersAreRetained(prefs, rs[..i]);
    var owner := Fold(prefs, rs[..i]).owners[k];
    var j: nat :| OwnsAt(prefs, rs[..i], k, owner, j);
    OwnsInPrefix(prefs, rs, i, k, owner, j);
    assert OwnsAt(prefs, rs, k, Fold(prefs, rs[..i]).owners[k], j);
    assert RetainedAt(prefs, rs, j) && HasKey(rs[j], k);
  }

  lemma OwnsInPrefix(prefs: Preferences, rs: seq<Record>, i: nat, k: NetworkKey, owner: string, j: nat)
    requires i <= |rs| && OwnsAt(prefs, rs[..i], k, owner, j)
    ensures j < i && OwnsAt(prefs, rs, k, owner, j)
  {
    assert rs[..i][..j] == rs[..j];
  }

  // In automatic mode every network of a physical record is a network of a retained physical record of rank
  // no greater, so the retained records have all the networks.
  lemma NoPhysicalNetworkIsLost(records: seq<Record>, prefs: Preferences, r: Record, k: NetworkKey)
    requires prefs.mode == All && r in records && Physical(r.kind) && HasKey(r, k)
    ensures exists j: nat :: RetainedAt(prefs, Ordered(records), j) && HasKey(Ordered(records)[j], k)
                             && Ordered(records)[j] in records && Physical(Ordered(records)[j].kind)
                             && !RankLess(RecordRank(r), RecordRank(Ordered(records)[j]))
  {
    SortKeeps(records, RecordRank);
    var rs := Ordered(records);
    assert r in multiset(records);
    assert r in rs;
    var i: nat :| i < |rs| && rs[i] == r;
    RankLessTotal(RecordRank(r), RecordRank(r));
    var j: nat := i;
    if SkippedAt(prefs, rs, i) {
      SkippedIsCovered(prefs, rs, i, k);
      j :| j < i && RetainedAt(prefs, rs, j) && HasKey(rs[j], k);
    }
    assert rs[j] in multiset(rs);
    assert RetainedAt(prefs, rs, j) && HasKey(rs[j], k);
  }

  // ---- Covered-by ----

  // The record at i was skipped in favour of the record at j.
  ghost predicate CoversAt(prefs: Preferences, rs: seq<Record>, skipped: string, owner: string, i: nat, j: nat) {
    && SkippedAt(prefs, rs, i) && rs[i].name == skipped
    && j < i && RetainedAt(prefs, rs, j) && rs[j].name == owner
    && exists k :: HasKey(rs[i], k) && HasKey(rs[j], k)
  }

  lemma {:induction false} CoveredByIsRetained(prefs: Preferences, rs: seq<Record>, name: string)
    requires name in Fold(prefs, rs).plan.coveredBy
    ensures exists i: nat, j: nat :: CoversAt(prefs, rs, name, Fold(prefs, rs).plan.coveredBy[name], i, j)
  {
    var before, r := rs[..|rs| - 1], rs[|rs| - 1];
    assert rs == before + [r];
    FoldAppend(prefs, before, r);
    if Skips(prefs, Fold(prefs, before), r) && r.name == name {
      var k := Least(NetworkKeys(r));
      assert HasKey(rs[|before|], k) && SkippedAt(prefs, rs, |before|);
      SkippedIsCovered(prefs, rs, |before|, k);
      var j: nat :| j < |before| && OwnsAt(prefs, rs, k, Fold(prefs, rs[..|before|]).owners[k], j);
      assert rs[..|before|] == before;
      assert HasKey(rs[j], k);
      assert CoversAt(prefs, rs, name, Fold(prefs, rs).plan.coveredBy[name], |before|, j);
    } else {
      CoveredByIsRetained(prefs, before, name);
      var owner := Fold(prefs, before).plan.coveredBy[name];
      var i: nat, j: nat :| CoversAt(prefs, before, name, owner, i, j);
      PrefixAgrees(prefs, before, r, i);
      PrefixAgrees(prefs, before, r, j);
      assert CoversAt(prefs, rs, name, owner, i, j);
    }
  }

  ghost predicate YieldsAt(prefs: Preferences, rs: seq<Record>, i: nat) {
    UsedAt(prefs, rs, i) && RecordEndpoints(rs[i]) != []
  }

  lemma {:induction false} ActiveRecords(prefs: Preferences, rs: seq<Record>, name: string)
    ensures name in Fold(prefs, rs).plan.active <==> exists i: nat :: YieldsAt(prefs, rs, i) && rs[i].name == name
  {
    if rs != [] {
      var before, r := rs[..|rs| - 1], rs[|rs| - 1];
      assert rs == before + [r];
      FoldAppend(prefs, before, r);
      ActiveRecords(prefs, before, name);
      forall i: nat | i < |before|
        ensures YieldsAt(prefs, rs, i) == YieldsAt(prefs, before, i)
      {
        PrefixAgrees(prefs, before, r, i);
      }
      assert YieldsAt(prefs, rs, |before|) <==>
             Includes(prefs, r.name) && !Skips(prefs, Fold(prefs, before), r) && RecordEndpoints(r) != [];
      assert rs[|before|] == r;
      if name in Fold(prefs, before).plan.active {
        var i: nat :| YieldsAt(prefs, before, i) && before[i].name == name;
        assert YieldsAt(prefs, rs, i) && rs[i].name == name;
      }
    }
  }

  ghost predicate DistinctNames(rs: seq<Record>) {
    forall i, j :: 0 <= i < j < |rs| ==> rs[i].name != rs[j].name
  }

  lemma OrderedKeepsDistinct(records: seq<Record>)
    requires DistinctNames(records)
    ensures StrictlyAscending(Ordered(records), RecordRank) && DistinctNames(Ordered(records))
  {
    SortIsStrict(records, RecordRank);
    SortKeeps(records, RecordRank);
    var name := (r: Record) => Rank(0, r.name);
    forall i, j | 0 <= i < j < |Ordered(records)|
      ensures Ordered(records)[i].name != Ordered(records)[j].name
    {
      KeysAreDistinct(records, Ordered(records), name, i, j);
    }
  }

  // An address other than a link-local IPv4 one on a link to many, or an indexed interface with IPv6.
  predicate Discoverable(r: Record) {
    || (!r.pointToPoint && exists n :: n in r.ipv4 && !LinkLocalV4(n.address))
    || (r.index.Some? && r.ipv6 != [])
  }

  lemma DiscoverableYields(r: Record)
    ensures RecordEndpoints(r) != [] <==> Discoverable(r)
  {
    Endpoints4Exist(r.name, r.ipv4);
  }

  lemma {:induction false} Endpoints4Exist(name: string, nets: seq<Net4>)
    ensures Endpoints4(name, nets) != [] <==> exists n :: n in nets && !LinkLocalV4(n.address)
  {
    if nets != [] {
      Endpoints4Exist(name, nets[1..]);
      assert nets == [nets[0]] + nets[1..];
    }
  }

  // A record reported as covered names a retained physical record of smaller rank that shares a network with
  // it; that record is active exactly when it yields an endpoint.
  lemma CoveringRecord(records: seq<Record>, prefs: Preferences, name: string)
    requires DistinctNames(records) && name in DiscoveryPlan(records, prefs).coveredBy
    ensures exists i: nat, j: nat ::
              && CoversAt(prefs, Ordered(records), name, DiscoveryPlan(records, prefs).coveredBy[name], i, j)
              && RankLess(RecordRank(Ordered(records)[j]), RecordRank(Ordered(records)[i]))
              && (DiscoveryPlan(records, prefs).coveredBy[name] in DiscoveryPlan(records, prefs).active <==>
                    Discoverable(Ordered(records)[j]))
  {
    var rs := Ordered(records);
    OrderedKeepsDistinct(records);
    CoveredByIsRetained(prefs, rs, name);
    var owner := Fold(prefs, rs).plan.coveredBy[name];
    var i: nat, j: nat :| CoversAt(prefs, rs, name, owner, i, j);
    ActiveRecords(prefs, rs, owner);
    assert RankLess(RecordRank(rs[j]), RecordRank(rs[i]));
    DiscoverableYields(rs[j]);
    if Discoverable(rs[j]) {
      assert YieldsAt(prefs, rs, j) && rs[j].name == owner;
    }
    if owner in Fold(prefs, rs).plan.active {
      var m: nat :| YieldsAt(prefs, rs, m) && rs[m].name == owner;
      assert m == j;
    }
  }

  // ---- Order of the input ----

  // The plan does not depend on the order in which distinct interfaces are listed.
  lemma PlanIgnoresOrder(records: seq<Record>, shuffled: seq<Record>, prefs: Preferences)
    requires DistinctNames(records) && multiset(shuffled) == multiset(records)
    ensures DiscoveryPlan(shuffled, prefs) == DiscoveryPlan(records, prefs)
  {
    OrderedKeepsDistinct(records);
    var name := (r: Record) => Rank(0, r.name);
    forall i, j | 0 <= i < j < |shuffled|
      ensures shuffled[i].name != shuffled[j].name
    {
      KeysAreDistinct(records, shuffled, name, i, j);
    }
    OrderedKeepsDistinct(shuffled);
    SortKeeps(records, RecordRank);
    SortKeeps(shuffled, RecordRank);
    forall r
      ensures r in Ordered(records) <==> r in Ordered(shuffled)
    {
      assert r in Ordered(records) <==> r in multiset(Ordered(records));
      assert r in Ordered(shuffled) <==> r in multiset(Ordered(shuffled));
    }
    SortedIsCanonical(Ordered(records), Ordered(shuffled), RecordRank);
  }

  // ---- Endpoints ----

  lemma {:induction false} FoldEndpoints(prefs: Preferences, rs: seq<Record>, e: Endpoint)
    ensures e in Fold(prefs, rs).plan.endpoints <==>
            exists i: nat :: UsedAt(prefs, rs, i) && e in RecordEndpoints(rs[i])
  {
    if rs != [] {
      var before, r := rs[..|rs| - 1], rs[|rs| - 1];
      assert rs == before + [r];
      FoldAppend(prefs, before, r);
      FoldEndpoints(prefs, before, e);
      forall i: nat | i < |before|
        ensures UsedAt(prefs, rs, i) == UsedAt(prefs, before, i) && rs[i] == before[i]
      {
        PrefixAgrees(prefs, before, r, i);
      }
      assert UsedAt(prefs, rs, |before|) <==> Includes(prefs, r.name) && !Skips(prefs, Fold(prefs, before), r);
      assert rs[|before|] == r;
    }
  }

  // The endpoint list is strictly ascending by description, hence free of repeats, and holds exactly the
  // endpoints of the records in use.
  lemma EndpointsAreSorted(records: seq<Record>, prefs: Preferences, e: Endpoint)
    ensures StrictlyAscending(DiscoveryPlan(records, prefs).endpoints, EndpointRank)
    ensures e in DiscoveryPlan(records, prefs).endpoints <==>
            exists i: nat :: UsedAt(prefs, Ordered(records), i) && e in RecordEndpoints(Ordered(records)[i])
  {
    var es := Fold(prefs, Ordered(records)).plan.endpoints;
    var sorted := SortByKey(es, EndpointRank);
    SortKeeps(es, EndpointRank);
    forall x, y | x in sorted && y in sorted && EndpointRank(x) == EndpointRank(y)
      ensures x == y
    {
      DescriptionInjective(x, y);
    }
    DedupIsStrict(sorted, EndpointRank);
    FoldEndpoints(prefs, Ordered(records), e);
    assert e in sorted <==> e in multiset(sorted);
    assert e in es <==> e in multiset(es);
  }

  // Equal sets of endpoints give equal lists, so comparing the lists detects exactly a change of the set.
  lemma EndpointListIsCanonical(records: seq<Record>, prefs: Preferences, others: seq<Record>, otherPrefs: Preferences)
    ensures DiscoveryPlan(records, prefs).endpoints == DiscoveryPlan(others, otherPrefs).endpoints <==>
            forall e ::
              e in DiscoveryPlan(records, prefs).endpoints <==> e in DiscoveryPlan(others, otherPrefs).endpoints
  {
    var a, b := DiscoveryPlan(records, prefs).endpoints, DiscoveryPlan(others, otherPrefs).endpoints;
    EndpointsAreSorted(records, prefs, V6Endpoint("", 0));
    EndpointsAreSorted(others, otherPrefs, V6Endpoint("", 0));
    if forall e :: e in a <==> e in b {
      SortedIsCanonical(a, b, EndpointRank);
    }
  }

  // The bound sockets follow the plan; nothing is rebound while the set of endpoints stays the same.
  class Sockets {
    var endpoints: seq<Endpoint>
    var bound: seq<Endpoint>

    constructor (records: seq<Record>, prefs: Preferences)
      ensures endpoints == bound == DiscoveryPlan(records, prefs).endpoints
      ensures StrictlyAscending(endpoints, EndpointRank)
    {
      EndpointsAreSorted(records, prefs, V6Endpoint("", 0));
      var plan := PlanDiscovery(records, prefs);
      endpoints, bound := plan.endpoints, plan.endpoints;
    }

    method RefreshIfNeeded(records: seq<Record>, prefs: Preferences) returns (changed: bool)
      requires StrictlyAscending(endpoints, EndpointRank)
      modifies this
      ensures endpoints == DiscoveryPlan(records, prefs).endpoints && StrictlyAscending(endpoints, EndpointRank)
      ensures bound == if changed then endpoints else old(bound)
      ensures changed <==> exists e :: (e in endpoints) != (e in old(endpoints))
    {
      var plan := PlanDiscovery(records, prefs);
      EndpointsAreSorted(records, prefs, V6Endpoint("", 0));
      changed := plan.endpoints != endpoints;
      if changed {
        if forall e :: e in plan.endpoints <==> e in endpoints {
          SortedIsCanonical(plan.endpoints, endpoints, EndpointRank);
        }
        bound := plan.endpoints;
        endpoints := plan.endpoints;
      }
    }
  }

  // ---- What coverage does not promise ----

  // A point-to-point Ethernet adapter without IPv6 takes over the network of a Wi-Fi adapter and yields no
  // endpoint for it, though the Wi-Fi adapter alone would be discovered on.
  lemma PointToPointHidesNetwork(e: Record, w: Record)
    requires e.kind == Ethernet && e.pointToPoint && e.ipv6 == []
    requires w.kind == Wifi && Discoverable(w)
    requires NetworkKeys(w) != [] && forall k :: k in NetworkKeys(w) ==> k in NetworkKeys(e)
    ensures DiscoveryPlan([w], Preferences(All, {})).endpoints != []
    ensures DiscoveryPlan([e, w], Preferences(All, {})).endpoints == []
    ensures DiscoveryPlan([e, w], Preferences(All, {})).coveredBy == map[w.name := e.name]
  {
    AloneIsDiscovered(w);
    var prefs := Preferences(All, {});
    assert RankLess(RecordRank(e), RecordRank(w));
    assert [e, w][1..] == [w] && [w][1..] == [];
    assert SortByKey([w], RecordRank) == [w];
    RankLessTotal(RecordRank(e), RecordRank(w));
    assert Ordered([e, w]) == [e, w];
    FoldAppend(prefs, [], e);
    FoldAppend(prefs, [e], w);
    assert [e, w] == [e] + [w] && [e] == [] + [e];
    assert RecordEndpoints(e) == [];
    assert Least(NetworkKeys(w)) in NetworkKeys(e);
  }

  lemma FirstIsUsed(prefs: Preferences, rs: seq<Record>)
    requires rs != [] && Includes(prefs, rs[0].name)
    ensures UsedAt(prefs, rs, 0)
  {
    assert rs[..0] == [];
    assert Fold(prefs, rs[..0]).owners == map[];
    assert NetworkKeys(rs[0]) != [] ==> NetworkKeys(rs[0])[0] in NetworkKeys(rs[0]);
  }

  lemma AloneIsDiscovered(w: Record)
    requires Discoverable(w)
    ensures DiscoveryPlan([w], Preferences(All, {})).endpoints != []
  {
    var prefs := Preferences(All, {});
    DiscoverableYields(w);
    var e := RecordEndpoints(w)[0];
    assert [w][1..] == [];
    assert SortByKey([w], RecordRank) == [w];
    FirstIsUsed(prefs, [w]);
    EndpointsAreSorted([w], prefs, e);
  }
}
