/**
 The in-memory ledger of outgoing transfers: at most four sends hold a permit, the ledger is bounded by
 evicting finished entries, and a running send always finds its own entry.
 */
module Ledger {
  import opened Wrappers
  import opened Text
  import opened Restore

  const MAX_CONCURRENT_SENDS := 4
  const MAX_IN_MEMORY_TRANSFERS := 100

  // A send with a permit: before its entry is pushed, while it runs, and after its outcome is recorded.
  datatype Stage = Admitted | Running | Concluded

  // `lost` are the sends dropped in flight; their entries stay unfinished for good.
  datatype State = State(entries: seq<Transfer>, sends: map<Uuid, Stage>, lost: set<Uuid>)

  datatype Action =
    | Acquire(id: Uuid)
    | Push(id: Uuid, entry: Transfer)
    | MarkSending(id: Uuid)
    | SetTotal(id: Uuid, bytes: nat)
    | StoreBytes(id: Uuid, bytes: nat)
    | Conclude(id: Uuid, completed: bool, total: Option<nat>, error: Option<string>)
    | Release(id: Uuid)
    | Drop(id: Uuid)

  predicate IsFinished(t: Transfer) {
    t.status == Completed || t.status == Failed
  }

  function FindId(ts: seq<Transfer>, id: Uuid): (k: nat)
    ensures k <= |ts|
    ensures k < |ts| ==> ts[k].id == id
    ensures forall i :: 0 <= i < k ==> ts[i].id != id
  {
    if ts == [] then 0 else if ts[0].id == id then 0 else 1 + FindId(ts[1..], id)
  }

  function FirstFinished(ts: seq<Transfer>): (k: nat)
    ensures k <= |ts|
    ensures k < |ts| ==> IsFinished(ts[k])
    ensures forall i :: 0 <= i < k ==> !IsFinished(ts[i])
  {
    if ts == [] then 0 else if IsFinished(ts[0]) then 0 else 1 + FirstFinished(ts[1..])
  }

  function Evict(ts: seq<Transfer>): seq<Transfer> {
    var k := FirstFinished(ts);
    if |ts| >= MAX_IN_MEMORY_TRANSFERS && k < |ts| then ts[..k] + ts[k + 1..] else ts
  }

  function Update(ts: seq<Transfer>, id: Uuid, change: Transfer -> Transfer): seq<Transfer> {
    var k := FindId(ts, id);
    if k < |ts| then ts[k := change(ts[k])] else ts
  }

  function Outcome(completed: bool, total: Option<nat>, error: Option<string>): Transfer -> Transfer {
    (t: Transfer) => t.(status := if completed then Completed else Failed, error := error,
                        total := if total.Some? then total.value else t.total)
  }

  // The counter of transferred bytes is shared between the entry and the sending task.
  function Transferred(bytes: nat): Transfer -> Transfer {
    (t: Transfer) => t.(transferred := bytes)
  }

  predicate IsStage(s: State, id: Uuid, stage: Stage) {
    id in s.sends && s.sends[id] == stage
  }

  predicate IsUnused(s: State, id: Uuid) {
    id !in s.sends && id !in s.lost && forall i :: 0 <= i < |s.entries| ==> s.entries[i].id != id
  }

  function Next(s: State, a: Action): State {
    match a
    case Acquire(id) =>
      if |s.sends| < MAX_CONCURRENT_SENDS && IsUnused(s, id) then s.(sends := s.sends[id := Admitted]) else s
    case Push(id, entry) =>
      if IsStage(s, id, Admitted)
      then s.(entries := Evict(s.entries) + [entry.(id := id, status := Preparing)], sends := s.sends[id := Running])
      else s
    case MarkSending(id) =>
      if IsStage(s, id, Running)
      then s.(entries := Update(s.entries, id, (t: Transfer) => t.(status := Sending))) else s
    case SetTotal(id, total) =>
      if IsStage(s, id, Running)
      then s.(entries := Update(s.entries, id, (t: Transfer) => t.(total := total))) else s
    case StoreBytes(id, bytes) =>
      if IsStage(s, id, Running) || IsStage(s, id, Concluded)
      then s.(entries := Update(s.entries, id, Transferred(bytes))) else s
    case Conclude(id, completed, total, error) =>
      if IsStage(s, id, Running)
      then s.(entries := Update(s.entries, id, Outcome(completed, total, error)), sends := s.sends[id := Concluded])
      else s
    case Release(id) => if IsStage(s, id, Concluded) then s.(sends := s.sends - {id}) else s
    case Drop(id) =>
      if IsStage(s, id, Admitted) then s.(sends := s.sends - {id})
      else if IsStage(s, id, Running) then s.(sends := s.sends - {id}, lost := s.lost + {id})
      else s
  }

  function Run(s: State, acts: seq<Action>): State {
    if acts == [] then s else Next(Run(s, acts[..|acts| - 1]), acts[|acts| - 1])
  }

  function RunningIds(s: State): set<Uuid> {
    set id | id in s.sends && s.sends[id] == Running
  }

  ghost predicate AppearsOnce(ts: seq<Transfer>, id: Uuid) {
    && (exists i :: 0 <= i < |ts| && ts[i].id == id && !IsFinished(ts[i]))
    && (forall i, j :: 0 <= i < |ts| && 0 <= j < |ts| && ts[i].id == id && ts[j].id == id ==> i == j)
  }

  function Bound(lost: set<Uuid>): nat {
    if MAX_CONCURRENT_SENDS + |lost| > MAX_IN_MEMORY_TRANSFERS
    then MAX_CONCURRENT_SENDS + |lost| else MAX_IN_MEMORY_TRANSFERS
  }

  ghost predicate UnfinishedAreKnown(s: State) {
    forall i :: 0 <= i < |s.entries| && !IsFinished(s.entries[i]) ==>
      s.entries[i].id in RunningIds(s) + s.lost
  }

  ghost predicate KnownAppear(s: State) {
    forall id :: id in RunningIds(s) + s.lost ==> AppearsOnce(s.entries, id)
  }

  ghost predicate AdmittedAreNew(s: State) {
    forall id :: IsStage(s, id, Admitted) ==>
      id !in s.lost && forall i :: 0 <= i < |s.entries| ==> s.entries[i].id != id
  }

  ghost predicate Inv(s: State) {
    && |s.sends| <= MAX_CONCURRENT_SENDS
    && UnfinishedAreKnown(s) && KnownAppear(s) && AdmittedAreNew(s)
    && RunningIds(s) !! s.lost
    && |s.entries| <= Bound(s.lost)
  }

  // ---- Eviction ----

  lemma EvictSpares(ts: seq<Transfer>, id: Uuid)
    ensures AppearsOnce(ts, id) ==> AppearsOnce(Evict(ts), id)
    ensures forall t :: t in Evict(ts) ==> t in ts
  {
    var k := FirstFinished(ts);
    var us := Evict(ts);
    if us != ts {
      assert forall j :: 0 <= j < |us| ==> us[j] == if j < k then ts[j] else ts[j + 1];
      if AppearsOnce(ts, id) {
        var i :| 0 <= i < |ts| && ts[i].id == id && !IsFinished(ts[i]);
        var j := if i < k then i else i - 1;
        assert us[j].id == id && !IsFinished(us[j]);
      }
    }
  }

  // A full ledger without finished entries holds only running and lost sends.
  lemma UnfinishedBound(s: State)
    requires UnfinishedAreKnown(s) && KnownAppear(s) && FirstFinished(s.entries) == |s.entries|
    ensures |s.entries| <= |RunningIds(s)| + |s.lost|
  {
    var ids := set i | 0 <= i < |s.entries| :: s.entries[i].id;
    forall i, j | 0 <= i < j < |s.entries|
      ensures s.entries[i].id != s.entries[j].id
    {
      assert s.entries[i].id in RunningIds(s) + s.lost;
      assert AppearsOnce(s.entries, s.entries[i].id);
    }
    IdsSize(s.entries);
    SubsetSize(ids, RunningIds(s) + s.lost);
    assert |RunningIds(s) + s.lost| <= |RunningIds(s)| + |s.lost|;
  }

  lemma {:induction false} IdsSize(ts: seq<Transfer>)
    requires forall i, j :: 0 <= i < j < |ts| ==> ts[i].id != ts[j].id
    ensures |(set i | 0 <= i < |ts| :: ts[i].id)| == |ts|
  {
    if ts != [] {
      var before := ts[..|ts| - 1];
      IdsSize(before);
      var ids := set i | 0 <= i < |before| :: before[i].id;
      assert (set i | 0 <= i < |ts| :: ts[i].id) == ids + {ts[|ts| - 1].id};
    }
  }

  lemma AdmittedLeavesRoom(s: State, id: Uuid)
    requires IsStage(s, id, Admitted)
    ensures |RunningIds(s)| < |s.sends|
  {
    assert id !in RunningIds(s);
    assert RunningIds(s) + {id} <= s.sends.Keys;
    SubsetSize(RunningIds(s) + {id}, s.sends.Keys);
  }

  // ---- Steps ----

  lemma PushKeepsInv(s: State, id: Uuid, entry: Transfer)
    requires Inv(s) && IsStage(s, id, Admitted)
    ensures Inv(Next(s, Push(id, entry)))
  {
    var t := Next(s, Push(id, entry));
    var ts := Evict(s.entries);
    assert RunningIds(t) == RunningIds(s) + {id};
    assert t.sends.Keys == s.sends.Keys;
    PushedEntries(s, id, entry);
    if |s.entries| >= MAX_IN_MEMORY_TRANSFERS && FirstFinished(s.entries) == |s.entries| {
      UnfinishedBound(s);
      AdmittedLeavesRoom(s, id);
    }
  }

  lemma PushedEntries(s: State, id: Uuid, entry: Transfer)
    requires Inv(s) && IsStage(s, id, Admitted)
    ensures var t := Next(s, Push(id, entry));
            UnfinishedAreKnown(t) && KnownAppear(t) && AdmittedAreNew(t)
  {
    var t := Next(s, Push(id, entry));
    var ts := Evict(s.entries);
    assert t.entries == ts + [entry.(id := id, status := Preparing)];
    assert RunningIds(t) == RunningIds(s) + {id};
    EvictedEntries(s);
    forall i | 0 <= i < |t.entries| && !IsFinished(t.entries[i])
      ensures t.entries[i].id in RunningIds(t) + t.lost
    {
      assert i < |ts| ==> t.entries[i] == ts[i];
    }
    forall p | IsStage(t, p, Admitted)
      ensures p !in t.lost && forall i :: 0 <= i < |t.entries| ==> t.entries[i].id != p
    {
      assert IsStage(s, p, Admitted) && p != id;
      assert forall i :: 0 <= i < |ts| ==> t.entries[i] == ts[i];
    }
    forall known | known in RunningIds(t) + t.lost
      ensures AppearsOnce(t.entries, known)
    {
      EvictSpares(s.entries, known);
      PushedAppearsOnce(ts, entry.(id := id, status := Preparing), known);
    }
  }

  // What is left after an eviction is known, and none of it belongs to an admitted send.
  lemma EvictedEntries(s: State)
    requires UnfinishedAreKnown(s) && AdmittedAreNew(s)
    ensures forall i :: 0 <= i < |Evict(s.entries)| && !IsFinished(Evict(s.entries)[i]) ==>
              Evict(s.entries)[i].id in RunningIds(s) + s.lost
    ensures forall i, p :: 0 <= i < |Evict(s.entries)| && IsStage(s, p, Admitted) ==> Evict(s.entries)[i].id != p
  {
    var ts := Evict(s.entries);
    forall i | 0 <= i < |ts|
      ensures exists j :: 0 <= j < |s.entries| && s.entries[j] == ts[i]
    {
      EvictSpares(s.entries, ts[i].id);
      assert ts[i] in ts;
    }
  }

  lemma PushedAppearsOnce(ts: seq<Transfer>, entry: Transfer, known: Uuid)
    requires !IsFinished(entry)
    requires if known == entry.id then forall i :: 0 <= i < |ts| ==> ts[i].id != known else AppearsOnce(ts, known)
    ensures AppearsOnce(ts + [entry], known)
  {
    var us := ts + [entry];
    if known == entry.id {
      assert us[|ts|].id == known;
    } else {
      var i :| 0 <= i < |ts| && ts[i].id == known && !IsFinished(ts[i]);
      assert us[i] == ts[i];
    }
  }

  // Changing the entry of a running send in place.
  lemma UpdateKeepsEntries(s: State, id: Uuid, change: Transfer -> Transfer)
    requires Inv(s) && id in RunningIds(s)
    requires forall t :: change(t).id == t.id
    ensures var us := Update(s.entries, id, change);
            && |us| == |s.entries| && FindId(s.entries, id) < |s.entries|
            && (forall i :: 0 <= i < |us| ==> us[i].id == s.entries[i].id)
            && (forall i :: 0 <= i < |us| && s.entries[i].id != id ==> us[i] == s.entries[i])
            && (forall i :: 0 <= i < |us| && s.entries[i].id == id ==> us[i] == change(s.entries[i]))
  {
    assert AppearsOnce(s.entries, id);
  }

  lemma ChangeKeepsInv(s: State, id: Uuid, change: Transfer -> Transfer)
    requires Inv(s) && id in RunningIds(s)
    requires forall t :: change(t).id == t.id && (!IsFinished(t) ==> !IsFinished(change(t)))
    ensures Inv(s.(entries := Update(s.entries, id, change)))
  {
    var t := s.(entries := Update(s.entries, id, change));
    UpdateKeepsEntries(s, id, change);
    forall known | known in RunningIds(t) + t.lost
      ensures AppearsOnce(t.entries, known)
    {
      assert AppearsOnce(s.entries, known);
      var i :| 0 <= i < |s.entries| && s.entries[i].id == known && !IsFinished(s.entries[i]);
      assert t.entries[i].id == known && !IsFinished(t.entries[i]);
    }
    forall i | 0 <= i < |t.entries| && !IsFinished(t.entries[i])
      ensures t.entries[i].id in RunningIds(t) + t.lost
    {
      assert s.entries[i].id == id || t.entries[i] == s.entries[i];
    }
  }

  lemma ConcludeKeepsInv(s: State, id: Uuid, completed: bool, total: Option<nat>, error: Option<string>)
    requires Inv(s) && IsStage(s, id, Running)
    ensures Inv(Next(s, Conclude(id, completed, total, error)))
  {
    var t := Next(s, Conclude(id, completed, total, error));
    var change := Outcome(completed, total, error);
    assert id in RunningIds(s);
    UpdateKeepsEntries(s, id, change);
    assert RunningIds(t) == RunningIds(s) - {id};
    assert t.sends.Keys == s.sends.Keys;
    ConcludedEntries(s, id, t);
    forall p | IsStage(t, p, Admitted)
      ensures p !in t.lost && forall i :: 0 <= i < |t.entries| ==> t.entries[i].id != p
    {
      assert IsStage(s, p, Admitted);
    }
  }

  lemma ConcludedEntries(s: State, id: Uuid, t: State)
    requires UnfinishedAreKnown(s) && KnownAppear(s) && id in RunningIds(s)
    requires RunningIds(t) == RunningIds(s) - {id} && t.lost == s.lost && id !in s.lost
    requires |t.entries| == |s.entries|
    requires forall i :: 0 <= i < |t.entries| ==>
               t.entries[i].id == s.entries[i].id
               && if s.entries[i].id == id then IsFinished(t.entries[i]) else t.entries[i] == s.entries[i]
    ensures UnfinishedAreKnown(t) && KnownAppear(t)
  {
    forall known | known in RunningIds(t) + t.lost
      ensures AppearsOnce(t.entries, known)
    {
      assert AppearsOnce(s.entries, known);
      var i :| 0 <= i < |s.entries| && s.entries[i].id == known && !IsFinished(s.entries[i]);
      assert t.entries[i] == s.entries[i];
    }
  }

  lemma LeaveKeepsInv(s: State, id: Uuid, lost: set<Uuid>)
    requires Inv(s) && id in s.sends
    requires lost == if s.sends[id] == Running then s.lost + {id} else s.lost
    ensures Inv(s.(sends := s.sends - {id}, lost := lost))
  {
    var t := s.(sends := s.sends - {id}, lost := lost);
    KnownAfterLeaving(s, id, lost);
    assert t.sends.Keys == s.sends.Keys - {id};
    SubsetSize(s.lost, lost);
    assert UnfinishedAreKnown(t) && KnownAppear(t);
    forall p | IsStage(t, p, Admitted)
      ensures p !in lost && forall i :: 0 <= i < |t.entries| ==> t.entries[i].id != p
    {
      assert IsStage(s, p, Admitted);
    }
  }

  lemma KnownAfterLeaving(s: State, id: Uuid, lost: set<Uuid>)
    requires id in s.sends && lost == if s.sends[id] == Running then s.lost + {id} else s.lost
    requires RunningIds(s) !! s.lost
    ensures var t := s.(sends := s.sends - {id}, lost := lost);
            RunningIds(t) + t.lost == RunningIds(s) + s.lost && RunningIds(t) !! t.lost
  {
    assert RunningIds(s.(sends := s.sends - {id}, lost := lost)) == RunningIds(s) - {id};
  }

  // A store may come after the outcome, when the entry is finished and perhaps evicted already.
  lemma StoreKeepsInv(s: State, id: Uuid, bytes: nat)
    requires Inv(s)
    ensures Inv(s.(entries := Update(s.entries, id, Transferred(bytes))))
  {
    var t := s.(entries := Update(s.entries, id, Transferred(bytes)));
    SameEntries(s.entries, id, bytes);
    assert RunningIds(t) == RunningIds(s);
    forall known | known in RunningIds(t) + t.lost
      ensures AppearsOnce(t.entries, known)
    {
      assert AppearsOnce(s.entries, known);
      var i :| 0 <= i < |s.entries| && s.entries[i].id == known && !IsFinished(s.entries[i]);
      assert t.entries[i].id == known && !IsFinished(t.entries[i]);
    }
    forall i | 0 <= i < |t.entries| && !IsFinished(t.entries[i])
      ensures t.entries[i].id in RunningIds(t) + t.lost
    {
      assert !IsFinished(s.entries[i]) && t.entries[i].id == s.entries[i].id;
    }
    forall p | IsStage(t, p, Admitted)
      ensures p !in t.lost && forall i :: 0 <= i < |t.entries| ==> t.entries[i].id != p
    {
      assert IsStage(s, p, Admitted);
    }
  }

  lemma SameEntries(ts: seq<Transfer>, id: Uuid, bytes: nat)
    ensures var us := Update(ts, id, Transferred(bytes));
            |us| == |ts| && forall i :: 0 <= i < |ts| ==> us[i].id == ts[i].id && us[i].status == ts[i].status
  {
  }

  lemma AcquireKeepsInv(s: State, id: Uuid)
    requires Inv(s)
    ensures Inv(Next(s, Acquire(id)))
  {
    var t := Next(s, Acquire(id));
    assert RunningIds(t) == RunningIds(s);
    assert t.entries == s.entries && t.lost == s.lost;
    assert t.sends.Keys <= s.sends.Keys + {id};
    forall known | known in RunningIds(t) + t.lost
      ensures AppearsOnce(t.entries, known)
    {
      assert AppearsOnce(s.entries, known);
    }
    forall p | IsStage(t, p, Admitted)
      ensures p !in t.lost && forall i :: 0 <= i < |t.entries| ==> t.entries[i].id != p
    {
      assert p != id ==> IsStage(s, p, Admitted);
    }
  }

  lemma StepKeepsInv(s: State, a: Action)
    requires Inv(s)
    ensures Inv(Next(s, a))
  {
    match a
    case Acquire(id) => AcquireKeepsInv(s, id);
    case Push(id, entry) => if IsStage(s, id, Admitted) { PushKeepsInv(s, id, entry); }
    case MarkSending(id) =>
      if IsStage(s, id, Running) { ChangeKeepsInv(s, id, (t: Transfer) => t.(status := Sending)); }
    case SetTotal(id, total) =>
      if IsStage(s, id, Running) { ChangeKeepsInv(s, id, (t: Transfer) => t.(total := total)); }
    case StoreBytes(id, bytes) =>
      if IsStage(s, id, Running) { ChangeKeepsInv(s, id, Transferred(bytes)); }
      if IsStage(s, id, Concluded) { StoreKeepsInv(s, id, bytes); }
    case Conclude(id, completed, total, error) =>
      if IsStage(s, id, Running) { ConcludeKeepsInv(s, id, completed, total, error); }
    case Release(id) => if IsStage(s, id, Concluded) { LeaveKeepsInv(s, id, s.lost); }
    case Drop(id) =>
      if IsStage(s, id, Admitted) { LeaveKeepsInv(s, id, s.lost); }
      if IsStage(s, id, Running) { LeaveKeepsInv(s, id, s.lost + {id}); }
  }

  lemma {:induction false} RunKeepsInv(s: State, acts: seq<Action>)
    requires Inv(s)
    ensures Inv(Run(s, acts))
  {
    if acts != [] {
      RunKeepsInv(s, acts[..|acts| - 1]);
      StepKeepsInv(Run(s, acts[..|acts| - 1]), acts[|acts| - 1]);
    }
  }

  // From a restored ledger of at most 100 finished entries: at most four sends run, the ledger stays within
  // the larger of 100 and four plus the sends lost in flight, and a running send finds its own entry, unfinished.
  lemma LedgerIsBounded(restored: seq<Transfer>, acts: seq<Action>, id: Uuid)
    requires |restored| <= MAX_IN_MEMORY_TRANSFERS && forall t :: t in restored ==> IsFinished(t)
    ensures var s := Run(State(restored, map[], {}), acts);
            && |s.sends| <= MAX_CONCURRENT_SENDS
            && |s.entries| <= Bound(s.lost)
            && (IsStage(s, id, Running) ==>
                  FindId(s.entries, id) < |s.entries| && !IsFinished(s.entries[FindId(s.entries, id)]))
  {
    RunKeepsInv(State(restored, map[], {}), acts);
    var s := Run(State(restored, map[], {}), acts);
    if IsStage(s, id, Running) {
      assert id in RunningIds(s);
      assert AppearsOnce(s.entries, id);
    }
  }

  // Pushing an entry never evicts an unfinished one.
  lemma UnfinishedIsNeverEvicted(s: State, id: Uuid, entry: Transfer, t: Transfer)
    requires t in s.entries && !IsFinished(t)
    ensures t in Next(s, Push(id, entry)).entries
  {
    var k := FirstFinished(s.entries);
    var i :| 0 <= i < |s.entries| && s.entries[i] == t;
    var us := Evict(s.entries);
    if us != s.entries {
      assert us[if i < k then i else i - 1] == t;
    }
    assert t in us;
  }

  // ---- The entry of one send, whatever the others do ----

  // What a step does to the entry of send `id`. Once finished, only the counter moves.
  function Touched(e: Transfer, id: Uuid, a: Action): Transfer {
    match a
    case MarkSending(i) => if i == id && !IsFinished(e) then e.(status := Sending) else e
    case SetTotal(i, total) => if i == id && !IsFinished(e) then e.(total := total) else e
    case StoreBytes(i, bytes) => if i == id then Transferred(bytes)(e) else e
    case Conclude(i, completed, total, error) =>
      if i == id && !IsFinished(e) then Outcome(completed, total, error)(e) else e
    case _ => e
  }

  function Story(e: Transfer, id: Uuid, acts: seq<Action>): Transfer {
    if acts == [] then e else Touched(Story(e, id, acts[..|acts| - 1]), id, acts[|acts| - 1])
  }

  predicate Leaves(a: Action, id: Uuid) {
    a == Release(id) || a == Drop(id)
  }

  // No entry but `e` has the id, and it appears at most once.
  ghost predicate OnlyEntry(ts: seq<Transfer>, id: Uuid, e: Transfer) {
    && (forall i :: 0 <= i < |ts| && ts[i].id == id ==> ts[i] == e)
    && (forall i, j :: 0 <= i < j < |ts| && ts[i].id == id ==> ts[j].id != id)
  }

  // The send is in the ledger with this entry; once it is finished, others may have evicted it.
  ghost predicate Tracked(s: State, id: Uuid, e: Transfer) {
    && OnlyEntry(s.entries, id, e) && e.id == id
    && IsStage(s, id, if IsFinished(e) then Concluded else Running)
    && (!IsFinished(e) ==> FindId(s.entries, id) < |s.entries|)
  }

  lemma UpdateOther(ts: seq<Transfer>, other: Uuid, change: Transfer -> Transfer, id: Uuid, e: Transfer)
    requires OnlyEntry(ts, id, e) && other != id && forall t :: change(t).id == t.id
    ensures OnlyEntry(Update(ts, other, change), id, e)
  {
  }

  lemma UpdateOwn(ts: seq<Transfer>, id: Uuid, change: Transfer -> Transfer, e: Transfer)
    requires OnlyEntry(ts, id, e) && forall t :: change(t).id == t.id
    ensures OnlyEntry(Update(ts, id, change), id, change(e))
  {
  }

  lemma PushOther(ts: seq<Transfer>, entry: Transfer, id: Uuid, e: Transfer)
    requires OnlyEntry(ts, id, e) && entry.id != id
    ensures OnlyEntry(Evict(ts) + [entry], id, e)
  {
    var k, us := FirstFinished(ts), Evict(ts);
    if us != ts {
      assert forall j :: 0 <= j < |us| ==> us[j] == ts[if j < k then j else j + 1];
    }
  }

  lemma OthersKeepTrack(s: State, id: Uuid, e: Transfer, a: Action)
    requires Tracked(s, id, e) && a.id != id
    ensures OnlyEntry(Next(s, a).entries, id, e)
    ensures id in Next(s, a).sends && Next(s, a).sends[id] == s.sends[id]
  {
    match a
    case Push(other, entry) => PushOther(s.entries, entry.(id := other, status := Preparing), id, e);
    case MarkSending(other) => UpdateOther(s.entries, other, (t: Transfer) => t.(status := Sending), id, e);
    case SetTotal(other, total) => UpdateOther(s.entries, other, (t: Transfer) => t.(total := total), id, e);
    case StoreBytes(other, bytes) => UpdateOther(s.entries, other, Transferred(bytes), id, e);
    case Conclude(other, completed, total, error) =>
      UpdateOther(s.entries, other, Outcome(completed, total, error), id, e);
    case _ =>
  }

  lemma OwnStepKeepsTrack(s: State, id: Uuid, e: Transfer, a: Action)
    requires Tracked(s, id, e) && a.id == id && !Leaves(a, id)
    ensures OnlyEntry(Next(s, a).entries, id, Touched(e, id, a))
    ensures IsStage(Next(s, a), id, if IsFinished(Touched(e, id, a)) then Concluded else Running)
  {
    match a
    case MarkSending(_) => UpdateOwn(s.entries, id, (t: Transfer) => t.(status := Sending), e);
    case SetTotal(_, total) => UpdateOwn(s.entries, id, (t: Transfer) => t.(total := total), e);
    case StoreBytes(_, bytes) => UpdateOwn(s.entries, id, Transferred(bytes), e);
    case Conclude(_, completed, total, error) => UpdateOwn(s.entries, id, Outcome(completed, total, error), e);
    case _ =>
  }

  lemma StepKeepsTrack(s: State, id: Uuid, e: Transfer, a: Action)
    requires Inv(s) && Tracked(s, id, e) && !Leaves(a, id)
    ensures Tracked(Next(s, a), id, Touched(e, id, a))
  {
    StepKeepsInv(s, a);
    if a.id == id {
      OwnStepKeepsTrack(s, id, e, a);
    } else {
      OthersKeepTrack(s, id, e, a);
    }
    if !IsFinished(Touched(e, id, a)) {
      RunningIsFound(Next(s, a), id);
    }
  }

  lemma RunningIsFound(s: State, id: Uuid)
    requires Inv(s) && IsStage(s, id, Running)
    ensures FindId(s.entries, id) < |s.entries|
  {
    assert id in RunningIds(s);
    assert AppearsOnce(s.entries, id);
  }

  lemma PushStartsTrack(s: State, id: Uuid, entry: Transfer)
    requires Inv(s) && IsStage(s, id, Admitted)
    ensures Tracked(Next(s, Push(id, entry)), id, entry.(id := id, status := Preparing))
  {
    EvictedEntries(s);
    StepKeepsInv(s, Push(id, entry));
    RunningIsFound(Next(s, Push(id, entry)), id);
  }

  // From its push to its release, the entry of a send is its own steps applied in order: no other send changes
  // it, and while it is unfinished none removes it.
  lemma {:induction false} EntryFollowsItsSend(s: State, id: Uuid, e: Transfer, acts: seq<Action>)
    requires Inv(s) && Tracked(s, id, e) && forall a :: a in acts ==> !Leaves(a, id)
    ensures Tracked(Run(s, acts), id, Story(e, id, acts))
  {
    if acts != [] {
      var before, a := acts[..|acts| - 1], acts[|acts| - 1];
      assert a in acts && forall b :: b in before ==> b in acts;
      EntryFollowsItsSend(s, id, e, before);
      RunKeepsInv(s, before);
      StepKeepsTrack(Run(s, before), id, Story(e, id, before), a);
    }
  }

  // The steps of one send among those of all.
  function Own(acts: seq<Action>, id: Uuid): seq<Action> {
    if acts == [] then []
    else Own(acts[..|acts| - 1], id) + if acts[|acts| - 1].id == id then [acts[|acts| - 1]] else []
  }

  lemma {:induction false} StoryIgnoresOthers(e: Transfer, id: Uuid, acts: seq<Action>)
    ensures Story(e, id, acts) == Story(e, id, Own(acts, id))
  {
    if acts != [] {
      var before, a := acts[..|acts| - 1], acts[|acts| - 1];
      StoryIgnoresOthers(e, id, before);
      if a.id == id {
        StoryStep(e, id, Own(before, id), a);
      } else {
        assert Own(before, id) + [] == Own(before, id);
      }
    }
  }

  lemma StoryStep(e: Transfer, id: Uuid, acts: seq<Action>, a: Action)
    ensures Story(e, id, acts + [a]) == Touched(Story(e, id, acts), id, a)
  {
    assert (acts + [a])[..|acts|] == acts;
  }

  // ---- In place ----

  lemma FirstFinishedIs(ts: seq<Transfer>, k: nat)
    requires k <= |ts| && (forall i :: 0 <= i < k ==> !IsFinished(ts[i])) && (k < |ts| ==> IsFinished(ts[k]))
    ensures FirstFinished(ts) == k
  {
  }

  class OutgoingTransfers {
    var entries: seq<Transfer>

    constructor (restored: seq<Transfer>)
      ensures entries == restored
    {
      entries := restored;
    }

    method PushEntry(entry: Transfer)
      modifies this
      ensures entries == Evict(old(entries)) + [entry]
    {
      if |entries| >= MAX_IN_MEMORY_TRANSFERS {
        var k := 0;
        while k < |entries| && !IsFinished(entries[k])
          invariant k <= |entries|
          invariant entries == old(entries) && forall i :: 0 <= i < k ==> !IsFinished(entries[i])
        {
          k := k + 1;
        }
        FirstFinishedIs(entries, k);
        if k < |entries| {
          entries := entries[..k] + entries[k + 1..];
        }
      }
      entries := entries + [entry];
    }

    method FindEntry(id: Uuid) returns (k: nat)
      ensures k == FindId(entries, id)
    {
      k := 0;
      while k < |entries| && entries[k].id != id
        invariant k <= |entries|
        invariant k + FindId(entries[k..], id) == FindId(entries, id)
      {
        assert entries[k..][0] == entries[k] && entries[k..][1..] == entries[k + 1..];
        k := k + 1;
      }
    }

    method RecordOutcome(id: Uuid, completed: bool, total: Option<nat>, error: Option<string>)
      modifies this
      ensures entries == Update(old(entries), id, Outcome(completed, total, error))
    {
      var k := FindEntry(id);
      if k < |entries| {
        var record := entries[k];
        record := record.(status := if completed then Completed else Failed);
        if total.Some? {
          record := record.(total := total.value);
        }
        record := record.(error := error);
        entries := entries[k := record];
      }
    }
  }
}
