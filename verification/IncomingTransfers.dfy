/**
 What the transfer list says: a Receiving entry has a running task, a Completed one is in the history, the
 list is the recent end of everything ever listed, and progress never exceeds the total.
 */
module IncomingTransfers {
  import opened Wrappers
  import opened Numbers
  import opened Incoming

  type Requests = map<SessionId, seq<File>>

  ghost predicate Offered(r: Requests, x: SessionId, f: File) {
    x in r && f in r[x]
  }

  ghost predicate SameFile(t: Transfer, u: Upload) {
    t.session == u.session && t.file == u.file.id
  }

  ghost predicate UniqueKeys(ts: seq<Transfer>) {
    forall i, j :: 0 <= i < j < |ts| ==> !Names(ts[j], ts[i].session, ts[i].file)
  }

  // Every entry stands for a file some request offered, and shows no more than its size.
  ghost predicate ListInv(ts: seq<Transfer>, r: Requests) {
    && |ts| <= MAX_LISTED
    && UniqueKeys(ts)
    && (forall i :: 0 <= i < |ts| ==>
          Offered(r, ts[i].session, File(ts[i].file, ts[i].name, ts[i].total)) && ts[i].transferred <= ts[i].total)
  }

  ghost predicate RequestsInv(r: Requests) {
    forall x :: x in r ==> DistinctIds(r[x])
  }

  ghost predicate HasTask(b: Board, t: Transfer) {
    exists k :: k in b.tasks && k < |b.uploads| && SameFile(t, b.uploads[k])
  }

  ghost predicate InHistory(b: Board, k: nat) {
    exists h :: h in b.history && h.upload == k
  }

  ghost predicate HasEntry(b: Board, t: Transfer) {
    exists h :: h in b.history && h.upload < |b.uploads| && SameFile(t, b.uploads[h.upload]) && h.size == t.total
  }

  ghost predicate TasksInv(b: Board, r: Requests) {
    && (forall u :: u in b.uploads ==> Offered(r, u.session, u.file))
    && (forall k :: k in b.tasks ==> k < |b.uploads|)
    && (forall k :: k in b.tasks && (b.tasks[k].Recorded? || b.tasks[k].Stored?) ==> InHistory(b, k))
    && (forall h :: h in b.history ==> h.upload < |b.uploads| && h.size == b.uploads[h.upload].file.size)
  }

  ghost predicate StatusInv(b: Board) {
    && (forall i :: 0 <= i < |b.incoming| && b.incoming[i].status == Receiving ==> HasTask(b, b.incoming[i]))
    && (forall i :: 0 <= i < |b.incoming| && b.incoming[i].status == Completed ==> HasEntry(b, b.incoming[i]))
  }

  ghost predicate BoardInv(b: Board, r: Requests) {
    RequestsInv(r) && ListInv(b.incoming, r) && TasksInv(b, r) && StatusInv(b)
  }

  ghost predicate LoopInv(l: Loop, r: Requests) {
    match l
    case Preparing(x, f, _) => Offered(r, x, f)
    case _ => true
  }

  ghost predicate Inv(s: State) {
    BoardInv(s.board, s.consent.requests) && LoopInv(s.loop, s.consent.requests)
  }

  // ---- What the list operations do to each entry ----

  lemma SetResultAt(ts: seq<Transfer>, x: SessionId, f: FileId, status: Status, error: Option<Reason>)
    requires UniqueKeys(ts)
    ensures var us := SetResult(ts, x, f, status, error);
            && |us| == |ts|
            && forall i :: 0 <= i < |ts| ==>
                 us[i] == if Names(ts[i], x, f) then ts[i].(status := status, error := error) else ts[i]
  {
  }

  lemma SetReceivingAt(ts: seq<Transfer>, x: SessionId, f: FileId)
    requires UniqueKeys(ts)
    ensures var us := SetReceiving(ts, x, f);
            && |us| == |ts|
            && forall i :: 0 <= i < |ts| ==>
                 us[i] == if Names(ts[i], x, f) then ts[i].(status := Receiving) else ts[i]
  {
  }

  lemma SetProgressAt(ts: seq<Transfer>, x: SessionId, f: FileId, bytes: nat)
    requires UniqueKeys(ts)
    ensures var us := SetProgress(ts, x, f, bytes);
            && |us| == |ts|
            && forall i :: 0 <= i < |ts| ==>
                 us[i] == if Names(ts[i], x, f) then ts[i].(transferred := bytes) else ts[i]
  {
  }

  lemma ListKeepsInv(b: Board, r: Requests, x: SessionId, files: seq<File>)
    requires BoardInv(b, r) && x !in r && DistinctIds(files) && |files| <= MAX_INCOMING_FILES
    ensures BoardInv(List(b, x, files), r[x := files])
  {
    var ts, us := b.incoming, List(b, x, files).incoming;
    var n := RemoveCount(|ts|, |files|);
    assert us == ts[n..] + Entries(x, files);
    forall i | 0 <= i < |us|
      ensures if i < |ts| - n then us[i] == ts[n + i] && us[i].session != x
              else us[i] == Fresh(x, files[i - (|ts| - n)]) && files[i - (|ts| - n)] in files
    {
    }
    StatusAfterListing(b, x, files, n);
  }

  lemma StatusAfterListing(b: Board, x: SessionId, files: seq<File>, n: nat)
    requires StatusInv(b) && n == RemoveCount(|b.incoming|, |files|)
    ensures StatusInv(List(b, x, files))
  {
    var c := List(b, x, files);
    forall i | 0 <= i < |c.incoming| && c.incoming[i].status != Waiting
      ensures i < |b.incoming| - n && c.incoming[i] == b.incoming[n + i]
    {
    }
    forall i | 0 <= i < |c.incoming| && c.incoming[i].status == Receiving
      ensures HasTask(c, c.incoming[i])
    {
      var k :| k in b.tasks && k < |b.uploads| && SameFile(b.incoming[n + i], b.uploads[k]);
      assert k in c.tasks;
    }
    forall i | 0 <= i < |c.incoming| && c.incoming[i].status == Completed
      ensures HasEntry(c, c.incoming[i])
    {
      var h :| h in b.history && h.upload < |b.uploads| && SameFile(b.incoming[n + i], b.uploads[h.upload])
               && h.size == b.incoming[n + i].total;
      assert h in c.history;
    }
  }

  // Tasks and history carry over to a board with more of them and the same or milder entries.
  lemma StatusCarriesOver(b: Board, c: Board)
    requires StatusInv(b) && |c.incoming| == |b.incoming|
    requires b.uploads <= c.uploads && (forall k :: k in b.tasks ==> k in c.tasks)
    requires forall h :: h in b.history ==> h in c.history
    requires forall i :: 0 <= i < |b.incoming| ==>
               && Names(c.incoming[i], b.incoming[i].session, b.incoming[i].file)
               && c.incoming[i].total == b.incoming[i].total
               && (c.incoming[i].status == b.incoming[i].status || c.incoming[i].status == Failed)
    ensures StatusInv(c)
  {
    forall i | 0 <= i < |c.incoming| && c.incoming[i].status == Receiving
      ensures HasTask(c, c.incoming[i])
    {
      var k :| k in b.tasks && k < |b.uploads| && SameFile(b.incoming[i], b.uploads[k]);
      assert k in c.tasks && c.uploads[k] == b.uploads[k];
    }
    forall i | 0 <= i < |c.incoming| && c.incoming[i].status == Completed
      ensures HasEntry(c, c.incoming[i])
    {
      var h :| h in b.history && h.upload < |b.uploads| && SameFile(b.incoming[i], b.uploads[h.upload])
               && h.size == b.incoming[i].total;
      assert h in c.history && c.uploads[h.upload] == b.uploads[h.upload];
    }
  }

  lemma FailKeepsInv(b: Board, r: Requests, x: SessionId, reason: Reason)
    requires BoardInv(b, r)
    ensures BoardInv(FailBoard(b, x, reason), r)
  {
    StatusCarriesOver(b, FailBoard(b, x, reason));
  }

  lemma RejectKeepsInv(b: Board, r: Requests, x: SessionId, f: FileId)
    requires BoardInv(b, r)
    ensures BoardInv(b.(incoming := SetResult(b.incoming, x, f, Failed, Some(NoDestination))), r)
  {
    SetResultAt(b.incoming, x, f, Failed, Some(NoDestination));
    StatusCarriesOver(b, b.(incoming := SetResult(b.incoming, x, f, Failed, Some(NoDestination))));
  }

  lemma StoreKeepsInv(b: Board, r: Requests, t: nat, bytes: nat)
    requires BoardInv(b, r) && t < |b.uploads| && bytes <= b.uploads[t].file.size
    ensures BoardInv(StoreBytes(b, t, bytes), r)
  {
    var u := b.uploads[t];
    SetProgressAt(b.incoming, u.session, u.file.id, bytes);
    forall i | 0 <= i < |b.incoming| && Names(b.incoming[i], u.session, u.file.id)
      ensures b.incoming[i].total == u.file.size
    {
      SameIdSameFile(r, u.session, u.file, File(b.incoming[i].file, b.incoming[i].name, b.incoming[i].total));
    }
    StatusCarriesOver(b, StoreBytes(b, t, bytes));
  }

  lemma SameIdSameFile(r: Requests, x: SessionId, f: File, g: File)
    requires RequestsInv(r) && Offered(r, x, f) && Offered(r, x, g) && f.id == g.id
    ensures f == g
  {
    var i :| 0 <= i < |r[x]| && r[x][i] == f;
    var j :| 0 <= j < |r[x]| && r[x][j] == g;
  }

  lemma StartKeepsInv(b: Board, r: Requests, u: Upload)
    requires BoardInv(b, r) && Offered(r, u.session, u.file)
    ensures BoardInv(StartUpload(b, u), r)
  {
    var c := StartUpload(b, u);
    SetReceivingAt(b.incoming, u.session, u.file.id);
    var d := b.(uploads := c.uploads, tasks := c.tasks);
    StatusCarriesOver(b, d);
    TasksAfterStart(b, r, u);
    forall i | 0 <= i < |c.incoming| && c.incoming[i].status == Receiving
      ensures HasTask(c, c.incoming[i])
    {
      if Names(c.incoming[i], u.session, u.file.id) {
        assert |b.uploads| in c.tasks && SameFile(c.incoming[i], c.uploads[|b.uploads|]);
      } else {
        assert HasTask(d, d.incoming[i]);
      }
    }
    forall i | 0 <= i < |c.incoming| && c.incoming[i].status == Completed
      ensures HasEntry(c, c.incoming[i])
    {
      assert HasEntry(d, d.incoming[i]);
    }
  }

  lemma TasksAfterStart(b: Board, r: Requests, u: Upload)
    requires TasksInv(b, r) && Offered(r, u.session, u.file)
    ensures TasksInv(StartUpload(b, u), r)
  {
    var c := StartUpload(b, u);
    forall k | k in c.tasks && (c.tasks[k].Recorded? || c.tasks[k].Stored?)
      ensures InHistory(c, k)
    {
      assert InHistory(b, k);
    }
  }

  lemma PhaseKeepsInv(b: Board, r: Requests, t: nat, p: Phase)
    requires BoardInv(b, r) && t in b.tasks
    requires p.Recorded? || p.Stored? ==> InHistory(b, t)
    ensures BoardInv(b.(tasks := b.tasks[t := p]), r)
  {
    var c := b.(tasks := b.tasks[t := p]);
    StatusCarriesOver(b, c);
    forall k | k in c.tasks && (c.tasks[k].Recorded? || c.tasks[k].Stored?)
      ensures InHistory(c, k)
    {
      assert InHistory(b, k);
    }
  }

  lemma HistoryKeepsInv(b: Board, r: Requests, h: Received)
    requires BoardInv(b, r) && h.upload < |b.uploads| && h.size == b.uploads[h.upload].file.size
    ensures BoardInv(b.(history := b.history + [h]), r) && InHistory(b.(history := b.history + [h]), h.upload)
  {
    var c := b.(history := b.history + [h]);
    StatusCarriesOver(b, c);
    assert h in c.history;
    forall k | k in c.tasks && (c.tasks[k].Recorded? || c.tasks[k].Stored?)
      ensures InHistory(c, k)
    {
      assert InHistory(b, k);
      var g :| g in b.history && g.upload == k;
      assert g in c.history;
    }
  }

  // A task that ends sets its entry, so no entry is left Receiving on its account.
  lemma FinishKeepsInv(b: Board, r: Requests, t: nat, status: Status, error: Option<Reason>)
    requires BoardInv(b, r) && t in b.tasks && t < |b.uploads|
    requires status == Failed || (status == Completed && InHistory(b, t))
    ensures BoardInv(FinishTask(b, t, status, error), r)
  {
    var c := FinishTask(b, t, status, error);
    var u := b.uploads[t];
    SetResultAt(b.incoming, u.session, u.file.id, status, error);
    forall k | k in c.tasks && (c.tasks[k].Recorded? || c.tasks[k].Stored?)
      ensures InHistory(c, k)
    {
      assert InHistory(b, k);
    }
    forall i | 0 <= i < |c.incoming| && c.incoming[i].status == Receiving
      ensures HasTask(c, c.incoming[i])
    {
      var k :| k in b.tasks && k < |b.uploads| && SameFile(b.incoming[i], b.uploads[k]);
      assert k in c.tasks;
    }
    forall i | 0 <= i < |c.incoming| && c.incoming[i].status == Completed
      ensures HasEntry(c, c.incoming[i])
    {
      if Names(b.incoming[i], u.session, u.file.id) && status == Completed {
        var h :| h in b.history && h.upload == t;
        SameIdSameFile(r, u.session, u.file, File(b.incoming[i].file, b.incoming[i].name, b.incoming[i].total));
        assert h in c.history;
      } else {
        assert HasEntry(b, b.incoming[i]);
      }
    }
  }

  // ---- Steps ----

  predicate IsTaskStep(a: Action) {
    a.TaskFails? || a.TaskLinks? || a.TaskRecords? || a.TaskStores? || a.TaskCompletes? || a.Progress?
  }

  predicate IsListStep(a: Action) {
    a.Prepare? || a.DirectoryReady? || a.Resolve? || a.FailEnded? || a.WatchFail?
  }

  lemma RecordKeepsInv(b: Board, r: Requests, t: nat)
    requires BoardInv(b, r)
    ensures BoardInv(TaskStep(b, TaskRecords(t)), r)
  {
    if IsLinked(b, t) {
      var h := Received(t, b.tasks[t].name, b.uploads[t].file.size);
      HistoryKeepsInv(b, r, h);
      PhaseKeepsInv(b.(history := b.history + [h]), r, t, Recorded);
    }
  }

  lemma StoredKeepsInv(b: Board, r: Requests, t: nat)
    requires BoardInv(b, r)
    ensures BoardInv(TaskStep(b, TaskStores(t)), r)
  {
    if InPhase(b, t, Recorded) {
      StoreKeepsInv(b, r, t, b.uploads[t].file.size);
      assert InHistory(b, t);
      PhaseKeepsInv(StoreBytes(b, t, b.uploads[t].file.size), r, t, Stored);
    }
  }

  lemma FailedKeepsInv(b: Board, r: Requests, t: nat, text: string)
    requires BoardInv(b, r)
    ensures BoardInv(TaskStep(b, TaskFails(t, text)), r)
  {
    if InPhase(b, t, Saving) { FinishKeepsInv(b, r, t, Failed, Some(UploadFailed(text))); }
  }

  lemma LinkedKeepsInv(b: Board, r: Requests, t: nat, name: string)
    requires BoardInv(b, r)
    ensures BoardInv(TaskStep(b, TaskLinks(t, name)), r)
  {
    if InPhase(b, t, Saving) { PhaseKeepsInv(b, r, t, Linked(name)); }
  }

  lemma CompletedKeepsInv(b: Board, r: Requests, t: nat)
    requires BoardInv(b, r)
    ensures BoardInv(TaskStep(b, TaskCompletes(t)), r)
  {
    if InPhase(b, t, Stored) { FinishKeepsInv(b, r, t, Completed, None); }
  }

  lemma ProgressKeepsInv(b: Board, r: Requests, t: nat, written: nat)
    requires BoardInv(b, r)
    ensures BoardInv(TaskStep(b, Progress(t, written)), r)
  {
    if t < |b.uploads| { StoreKeepsInv(b, r, t, Min(written, b.uploads[t].file.size)); }
  }

  lemma TaskStepKeepsBoard(b: Board, r: Requests, a: Action)
    requires BoardInv(b, r) && IsTaskStep(a)
    ensures BoardInv(TaskStep(b, a), r)
  {
    match a
    case TaskFails(t, text) => FailedKeepsInv(b, r, t, text);
    case TaskLinks(t, name) => LinkedKeepsInv(b, r, t, name);
    case TaskRecords(t) => RecordKeepsInv(b, r, t);
    case TaskStores(t) => StoredKeepsInv(b, r, t);
    case TaskCompletes(t) => CompletedKeepsInv(b, r, t);
    case Progress(t, written) => ProgressKeepsInv(b, r, t, written);
  }

  lemma TaskStepIsLocal(s: State, a: Action)
    requires IsTaskStep(a)
    ensures Next(s, a).consent == s.consent && Next(s, a).loop == s.loop && Next(s, a).board == TaskStep(s.board, a)
  {
  }

  lemma TaskStepKeepsInv(s: State, a: Action)
    requires Inv(s) && IsTaskStep(a)
    ensures Inv(Next(s, a))
  {
    TaskStepKeepsBoard(s.board, s.consent.requests, a);
    TaskStepIsLocal(s, a);
  }

  lemma OfferKeepsInv(b: Board, r: Requests, x: SessionId, files: seq<File>)
    requires BoardInv(b, r) && x !in r && DistinctIds(files)
    ensures BoardInv(b, r[x := files])
  {
  }

  // All other steps leave board and requests alone.
  lemma OtherStepsAreQuiet(s: State, a: Action)
    requires !IsTaskStep(a) && !IsListStep(a)
    ensures Next(s, a).board == s.board && Next(s, a).consent.requests == s.consent.requests
    ensures Next(s, a).loop.Preparing? ==>
              Next(s, a).loop == s.loop || Offered(s.consent.requests, Next(s, a).loop.session, Next(s, a).loop.file)
  {
  }

  lemma PrepareKeepsInv(s: State, x: SessionId, files: seq<File>)
    requires Inv(s)
    ensures Inv(Next(s, Prepare(x, files)))
  {
    if PrepareEnabled(s, x, files) {
      if Oversized(files, s.maxBytes) {
        OfferKeepsInv(s.board, s.consent.requests, x, files);
      } else {
        ListKeepsInv(s.board, s.consent.requests, x, files);
      }
    }
  }

  lemma DirectoryKeepsInv(s: State, ok: bool)
    requires Inv(s)
    ensures Inv(Next(s, DirectoryReady(ok)))
  {
    if s.loop.Preparing? {
      if ok {
        StartKeepsInv(s.board, s.consent.requests, Upload(s.loop.session, s.loop.file, s.loop.touches));
      } else {
        RejectKeepsInv(s.board, s.consent.requests, s.loop.session, s.loop.file.id);
      }
    }
  }

  lemma EndingKeepsInv(s: State, a: Action)
    requires Inv(s) && (a.Resolve? || a.FailEnded? || a.WatchFail?)
    ensures Inv(Next(s, a))
  {
    match a
    case Resolve(x) =>
      FailKeepsInv(s.board, s.consent.requests, x, Declined);
      FailKeepsInv(s.board, s.consent.requests, x, Expired);
    case FailEnded => if s.loop.Ended? { FailKeepsInv(s.board, s.consent.requests, s.loop.session, s.loop.reason); }
    case WatchFail(x) => FailKeepsInv(s.board, s.consent.requests, x, TimedOut);
  }

  lemma ListStepKeepsInv(s: State, a: Action)
    requires Inv(s) && IsListStep(a)
    ensures Inv(Next(s, a))
  {
    match a
    case Prepare(x, files) => PrepareKeepsInv(s, x, files);
    case DirectoryReady(ok) => DirectoryKeepsInv(s, ok);
    case _ => EndingKeepsInv(s, a);
  }

  lemma StepKeepsInv(s: State, a: Action)
    requires Inv(s)
    ensures Inv(Next(s, a))
  {
    if IsTaskStep(a) {
      TaskStepKeepsInv(s, a);
    } else if IsListStep(a) {
      ListStepKeepsInv(s, a);
    } else {
      OtherStepsAreQuiet(s, a);
    }
  }

  lemma {:induction false} RunKeepsInv(s: State, acts: seq<Action>)
    requires Inv(s)
    ensures Inv(Run(s, acts))
  {
    if acts != [] {
      RunKeepsInv(s, acts[..|acts| - 1]);
      StepKeepsInv(Run(s, acts[..|acts| - 1]), acts[|acts| - 1]);
    }
  }

  // An entry is Receiving only while a result task for its file is outstanding, so once the tasks are gone no
  // entry is left Receiving.  A Completed entry is in the history with its size.  Progress is at most the total.
  lemma TransferListIsTruthful(maxBytes: nat, auto: bool, acts: seq<Action>, i: nat)
    requires i < |Run(Initial(maxBytes, auto), acts).board.incoming|
    ensures var b := Run(Initial(maxBytes, auto), acts).board;
            && b.incoming[i].transferred <= b.incoming[i].total
            && (b.incoming[i].status == Receiving ==> HasTask(b, b.incoming[i]))
            && (b.tasks == map[] ==> b.incoming[i].status != Receiving)
            && (b.incoming[i].status == Completed ==> HasEntry(b, b.incoming[i]))
  {
    RunKeepsInv(Initial(maxBytes, auto), acts);
  }
}
