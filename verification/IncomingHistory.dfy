/** The transfer list over time: it is the recent end of an unbounded log, and Completed is for good. */
module IncomingHistory {
  import opened Wrappers
  import opened Numbers
  import opened Incoming
  import opened IncomingTransfers

  // ---- The list refines an unbounded log ----

  function Listing(s: State, a: Action): seq<Transfer> {
    if a.Prepare? && PrepareEnabled(s, a.session, a.files) && !Oversized(a.files, s.maxBytes)
    then Entries(a.session, a.files) else []
  }

  // Everything ever listed along the run, in order of arrival.
  function Log(s: State, acts: seq<Action>): seq<Transfer> {
    if acts == [] then []
    else var before := acts[..|acts| - 1];
         Log(s, before) + Listing(Run(s, before), acts[|acts| - 1])
  }

  function Origin(t: Transfer): Transfer {
    t.(transferred := 0, status := Waiting, error := None)
  }

  // `ts` is the end of `log`, capped, up to status and progress.
  ghost predicate RecentEnd(ts: seq<Transfer>, log: seq<Transfer>) {
    && |ts| == Min(MAX_LISTED, |log|)
    && forall i :: 0 <= i < |ts| ==> Origin(ts[i]) == log[|log| - |ts| + i]
  }

  ghost predicate SameOrigins(ts: seq<Transfer>, us: seq<Transfer>) {
    |ts| == |us| && forall i :: 0 <= i < |ts| ==> Origin(us[i]) == Origin(ts[i])
  }

  lemma ListExtendsLog(b: Board, x: SessionId, files: seq<File>, log: seq<Transfer>)
    requires RecentEnd(b.incoming, log) && |files| <= MAX_INCOMING_FILES
    ensures RecentEnd(List(b, x, files).incoming, log + Entries(x, files))
  {
    var ts, us, longer := b.incoming, List(b, x, files).incoming, log + Entries(x, files);
    var n := RemoveCount(|ts|, |files|);
    assert us == ts[n..] + Entries(x, files);
    forall i | 0 <= i < |us|
      ensures Origin(us[i]) == longer[|longer| - |us| + i]
    {
      if i < |ts| - n {
        assert us[i] == ts[n + i];
      } else {
        assert us[i] == Entries(x, files)[i - (|ts| - n)];
      }
    }
  }

  lemma UpdatesKeepOrigins(ts: seq<Transfer>, x: SessionId, f: FileId, status: Status, error: Option<Reason>,
                           bytes: nat)
    ensures SameOrigins(ts, SetResult(ts, x, f, status, error))
    ensures SameOrigins(ts, SetReceiving(ts, x, f))
    ensures SameOrigins(ts, SetProgress(ts, x, f, bytes))
  {
  }

  lemma FailKeepsOrigins(ts: seq<Transfer>, x: SessionId, reason: Reason)
    ensures SameOrigins(ts, FailSession(ts, x, reason))
  {
  }

  // How a task step changes the list: not at all, or in the entry of its upload.
  ghost predicate ChangesEntry(b: Board, a: Action, us: seq<Transfer>)
    requires IsTaskStep(a)
  {
    || us == b.incoming
    || (a.task < |b.uploads| && var u := b.uploads[a.task];
        match a
        case TaskFails(_, text) => us == SetResult(b.incoming, u.session, u.file.id, Failed, Some(UploadFailed(text)))
        case TaskCompletes(_) => us == SetResult(b.incoming, u.session, u.file.id, Completed, None)
        case TaskStores(_) => us == SetProgress(b.incoming, u.session, u.file.id, u.file.size)
        case Progress(_, written) => us == SetProgress(b.incoming, u.session, u.file.id, Min(written, u.file.size))
        case _ => false)
  }

  lemma TaskChangesEntry(b: Board, a: Action)
    requires IsTaskStep(a)
    ensures ChangesEntry(b, a, TaskStep(b, a).incoming)
  {
  }

  lemma TaskStepKeepsOrigins(s: State, a: Action)
    requires IsTaskStep(a)
    ensures SameOrigins(s.board.incoming, Next(s, a).board.incoming)
  {
    TaskStepIsLocal(s, a);
    TaskKeepsOrigins(s.board, a, TaskStep(s.board, a).incoming);
  }

  lemma TaskKeepsOrigins(b: Board, a: Action, us: seq<Transfer>)
    requires IsTaskStep(a) && us == TaskStep(b, a).incoming
    ensures SameOrigins(b.incoming, us)
  {
    TaskChangesEntry(b, a);
    if us != b.incoming {
      var u := b.uploads[a.task];
      match a
      case TaskFails(_, text) =>
        UpdatesKeepOrigins(b.incoming, u.session, u.file.id, Failed, Some(UploadFailed(text)), 0);
      case TaskCompletes(_) => UpdatesKeepOrigins(b.incoming, u.session, u.file.id, Completed, None, 0);
      case TaskStores(_) => UpdatesKeepOrigins(b.incoming, u.session, u.file.id, Failed, None, u.file.size);
      case Progress(_, written) =>
        UpdatesKeepOrigins(b.incoming, u.session, u.file.id, Failed, None, Min(written, u.file.size));
      case _ =>
    }
  }

  lemma StepKeepsOrigins(s: State, a: Action)
    requires !(a.Prepare? && PrepareEnabled(s, a.session, a.files))
    ensures SameOrigins(s.board.incoming, Next(s, a).board.incoming)
  {
    var ts := s.board.incoming;
    match a
    case DirectoryReady(ok) =>
      if s.loop.Preparing? {
        UpdatesKeepOrigins(ts, s.loop.session, s.loop.file.id, Failed, Some(NoDestination), 0);
      }
    case FailEnded => if s.loop.Ended? { FailKeepsOrigins(ts, s.loop.session, s.loop.reason); }
    case Resolve(x) => FailKeepsOrigins(ts, x, Declined); FailKeepsOrigins(ts, x, Expired);
    case WatchFail(x) => FailKeepsOrigins(ts, x, TimedOut);
    case _ =>
      if IsTaskStep(a) {
        TaskStepKeepsOrigins(s, a);
      } else if !a.Prepare? {
        OtherStepsAreQuiet(s, a);
      }
  }

  lemma StepRefinesLog(s: State, a: Action, log: seq<Transfer>)
    requires RecentEnd(s.board.incoming, log)
    ensures RecentEnd(Next(s, a).board.incoming, log + Listing(s, a))
  {
    if Listing(s, a) == [] {
      assert log + Listing(s, a) == log;
    }
    if a.Prepare? && PrepareEnabled(s, a.session, a.files) {
      if !Oversized(a.files, s.maxBytes) {
        ListExtendsLog(s.board, a.session, a.files, log);
      }
    } else {
      StepKeepsOrigins(s, a);
    }
  }

  lemma {:induction false} LogIsRefined(s: State, acts: seq<Action>)
    requires s.board.incoming == []
    ensures RecentEnd(Run(s, acts).board.incoming, Log(s, acts))
  {
    if acts != [] {
      var before, a := acts[..|acts| - 1], acts[|acts| - 1];
      LogIsRefined(s, before);
      StepRefinesLog(Run(s, before), a, Log(s, before));
    }
  }

  // The transfer list is, up to status and progress, the last at most 100 entries ever listed, in order.
  lemma ListIsRecentEndOfLog(maxBytes: nat, auto: bool, acts: seq<Action>)
    ensures RecentEnd(Run(Initial(maxBytes, auto), acts).board.incoming, Log(Initial(maxBytes, auto), acts))
  {
    LogIsRefined(Initial(maxBytes, auto), acts);
  }

  // ---- Completed is for good when each file is uploaded once ----

  ghost predicate Asks(a: Action, x: SessionId, f: FileId) {
    a.UploadRequested? && a.session == x && a.file.id == f
  }

  ghost predicate Asked(acts: seq<Action>, x: SessionId, f: FileId) {
    exists a :: a in acts && Asks(a, x, f)
  }

  ghost predicate OneUploadPerFile(acts: seq<Action>) {
    forall i, j :: 0 <= i < j < |acts| && acts[i].UploadRequested? ==> !Asks(acts[j], acts[i].session, acts[i].file.id)
  }

  ghost predicate IsUploadOf(u: Upload, x: SessionId, f: FileId) {
    u.session == x && u.file.id == f
  }

  // The uploads started so far were each asked for, and no two are for one file.
  ghost predicate EventInv(s: State, acts: seq<Action>) {
    && (forall u :: u in s.board.uploads ==> Asked(acts, u.session, u.file.id))
    && (forall i, j :: 0 <= i < j < |s.board.uploads| ==>
          !IsUploadOf(s.board.uploads[j], s.board.uploads[i].session, s.board.uploads[i].file.id))
    && (s.loop.Preparing? ==>
          && Asked(acts, s.loop.session, s.loop.file.id)
          && forall u :: u in s.board.uploads ==> !IsUploadOf(u, s.loop.session, s.loop.file.id))
  }

  ghost predicate PreparingFor(l: Loop, x: SessionId, f: FileId) {
    l.Preparing? && l.session == x && l.file.id == f
  }

  ghost predicate IsCompleted(b: Board, x: SessionId, f: FileId) {
    exists i :: 0 <= i < |b.incoming| && Names(b.incoming[i], x, f) && b.incoming[i].status == Completed
  }

  ghost predicate AllCompleted(b: Board, x: SessionId, f: FileId) {
    forall i :: 0 <= i < |b.incoming| && Names(b.incoming[i], x, f) ==> b.incoming[i].status == Completed
  }

  // Nothing outstanding can touch the entry any more.
  ghost predicate Settled(s: State, acts: seq<Action>, x: SessionId, f: FileId) {
    && x in s.consent.requests
    && Asked(acts, x, f)
    && !PreparingFor(s.loop, x, f)
    && (forall k :: k in s.board.tasks && k < |s.board.uploads| ==> !IsUploadOf(s.board.uploads[k], x, f))
    && AllCompleted(s.board, x, f)
  }

  lemma AskedGrows(acts: seq<Action>, a: Action, x: SessionId, f: FileId)
    ensures Asked(acts + [a], x, f) <==> Asked(acts, x, f) || Asks(a, x, f)
  {
    if Asked(acts, x, f) {
      var b :| b in acts && Asks(b, x, f);
      assert b in acts + [a];
    }
    if Asks(a, x, f) {
      assert a in acts + [a];
    }
  }

  lemma OneUploadPrefix(acts: seq<Action>, a: Action)
    requires OneUploadPerFile(acts + [a])
    ensures OneUploadPerFile(acts)
    ensures a.UploadRequested? ==> !Asked(acts, a.session, a.file.id)
  {
    var all := acts + [a];
    assert forall i :: 0 <= i < |acts| ==> all[i] == acts[i];
    if a.UploadRequested? {
      forall b | b in acts
        ensures !Asks(b, a.session, a.file.id)
      {
        var i :| 0 <= i < |acts| && acts[i] == b;
        assert all[i].UploadRequested? ==> !Asks(all[|acts|], all[i].session, all[i].file.id);
      }
    }
  }

  lemma StepKeepsEventInv(s: State, acts: seq<Action>, a: Action)
    requires EventInv(s, acts) && OneUploadPerFile(acts + [a])
    ensures EventInv(Next(s, a), acts + [a])
  {
    OneUploadPrefix(acts, a);
    UploadsAfterStep(s, a);
    var t := Next(s, a);
    UploadsStayApart(s, acts, a);
    forall u | u in t.board.uploads
      ensures Asked(acts + [a], u.session, u.file.id)
    {
      AskedGrows(acts, a, u.session, u.file.id);
    }
    if t.loop.Preparing? {
      AskedGrows(acts, a, t.loop.session, t.loop.file.id);
      forall u | u in t.board.uploads
        ensures !IsUploadOf(u, t.loop.session, t.loop.file.id)
      {
        assert Asked(acts, u.session, u.file.id);
      }
    }
  }

  lemma UploadsStayApart(s: State, acts: seq<Action>, a: Action)
    requires EventInv(s, acts)
    ensures forall u :: u in Next(s, a).board.uploads ==> Asked(acts, u.session, u.file.id)
    ensures forall i, j :: 0 <= i < j < |Next(s, a).board.uploads| ==>
              !IsUploadOf(Next(s, a).board.uploads[j], Next(s, a).board.uploads[i].session,
                          Next(s, a).board.uploads[i].file.id)
  {
    UploadsAfterStep(s, a);
    var us, vs := s.board.uploads, Next(s, a).board.uploads;
    if vs != us {
      forall i, j | 0 <= i < j < |vs|
        ensures !IsUploadOf(vs[j], vs[i].session, vs[i].file.id)
      {
        assert vs[i] == us[i] && us[i] in us;
        assert j < |us| ==> vs[j] == us[j];
      }
    }
  }

  lemma UploadsAfterStep(s: State, a: Action)
    ensures Next(s, a).board.uploads ==
            if a == DirectoryReady(true) && s.loop.Preparing?
            then s.board.uploads + [Upload(s.loop.session, s.loop.file, s.loop.touches)] else s.board.uploads
    ensures Next(s, a).loop.Preparing? ==>
              || (Next(s, a).loop == s.loop && !a.DirectoryReady?)
              || (a.UploadRequested? && Next(s, a).loop.session == a.session && Next(s, a).loop.file == a.file)
  {
  }

  // What a step may do to the entry of a settled file.
  lemma ListAfterStep(s: State, a: Action, x: SessionId, f: FileId)
    requires x in s.consent.requests && !PreparingFor(s.loop, x, f)
    requires forall k :: k in s.board.tasks && k < |s.board.uploads| ==> !IsUploadOf(s.board.uploads[k], x, f)
    requires AllCompleted(s.board, x, f)
    ensures AllCompleted(Next(s, a).board, x, f)
  {
    if a.Prepare? {
      ListingSparesOthers(s, a.session, a.files, x, f);
    } else if IsTaskStep(a) {
      TasksSpareOthers(s, a, x, f);
    } else if !IsListStep(a) {
      OtherStepsAreQuiet(s, a);
    }
  }

  lemma ListingSparesOthers(s: State, y: SessionId, files: seq<File>, x: SessionId, f: FileId)
    requires x in s.consent.requests && AllCompleted(s.board, x, f)
    ensures AllCompleted(Next(s, Prepare(y, files)).board, x, f)
  {
    if PrepareEnabled(s, y, files) && !Oversized(files, s.maxBytes) {
      var us := List(s.board, y, files).incoming;
      var n := RemoveCount(|s.board.incoming|, |files|);
      assert us == s.board.incoming[n..] + Entries(y, files);
    }
  }

  lemma TasksSpareOthers(s: State, a: Action, x: SessionId, f: FileId)
    requires IsTaskStep(a) && AllCompleted(s.board, x, f)
    requires forall k :: k in s.board.tasks && k < |s.board.uploads| ==> !IsUploadOf(s.board.uploads[k], x, f)
    ensures AllCompleted(Next(s, a).board, x, f)
  {
  }

  lemma TasksAfterStep(s: State, a: Action, x: SessionId, f: FileId)
    requires !PreparingFor(s.loop, x, f)
    requires forall k :: k in s.board.tasks && k < |s.board.uploads| ==> !IsUploadOf(s.board.uploads[k], x, f)
    requires forall k :: k in s.board.tasks ==> k < |s.board.uploads|
    ensures forall k :: k in Next(s, a).board.tasks && k < |Next(s, a).board.uploads| ==>
              !IsUploadOf(Next(s, a).board.uploads[k], x, f)
  {
  }

  lemma StepKeepsSettled(s: State, acts: seq<Action>, a: Action, x: SessionId, f: FileId)
    requires IncomingTransfers.Inv(s) && Settled(s, acts, x, f) && OneUploadPerFile(acts + [a])
    ensures Settled(Next(s, a), acts + [a], x, f)
  {
    OneUploadPrefix(acts, a);
    AskedGrows(acts, a, x, f);
    UploadsAfterStep(s, a);
    ListAfterStep(s, a, x, f);
    TasksAfterStep(s, a, x, f);
  }

  // No entry is newly Completed.
  ghost predicate NoneNew(ts: seq<Transfer>, us: seq<Transfer>) {
    |us| == |ts| && forall i :: 0 <= i < |us| && us[i].status == Completed ==>
      ts[i].status == Completed && ts[i].session == us[i].session && ts[i].file == us[i].file
  }

  lemma CompletedBefore(ts: seq<Transfer>, us: seq<Transfer>, x: SessionId, f: FileId)
    requires NoneNew(ts, us) && exists i :: 0 <= i < |us| && Names(us[i], x, f) && us[i].status == Completed
    ensures exists i :: 0 <= i < |ts| && Names(ts[i], x, f) && ts[i].status == Completed
  {
    var i :| 0 <= i < |us| && Names(us[i], x, f) && us[i].status == Completed;
    assert Names(ts[i], x, f);
  }

  lemma UpdatesCompleteNothing(ts: seq<Transfer>, x: SessionId, f: FileId, error: Option<Reason>, bytes: nat)
    ensures NoneNew(ts, SetResult(ts, x, f, Failed, error)) && NoneNew(ts, SetReceiving(ts, x, f))
    ensures NoneNew(ts, SetProgress(ts, x, f, bytes))
  {
  }

  lemma TaskStepCompletesNothing(s: State, a: Action)
    requires IsTaskStep(a) && !a.TaskCompletes?
    ensures NoneNew(s.board.incoming, Next(s, a).board.incoming)
  {
    TaskStepIsLocal(s, a);
    TaskCompletesNothing(s.board, a, TaskStep(s.board, a).incoming);
  }

  lemma TaskCompletesNothing(b: Board, a: Action, us: seq<Transfer>)
    requires IsTaskStep(a) && !a.TaskCompletes? && us == TaskStep(b, a).incoming
    ensures NoneNew(b.incoming, us)
  {
    TaskChangesEntry(b, a);
    if us != b.incoming {
      var u := b.uploads[a.task];
      match a
      case TaskFails(_, text) => UpdatesCompleteNothing(b.incoming, u.session, u.file.id, Some(UploadFailed(text)), 0);
      case TaskStores(_) => UpdatesCompleteNothing(b.incoming, u.session, u.file.id, None, u.file.size);
      case Progress(_, written) =>
        UpdatesCompleteNothing(b.incoming, u.session, u.file.id, None, Min(written, u.file.size));
      case _ =>
    }
  }

  lemma ListStepCompletesNothing(s: State, a: Action)
    requires IsListStep(a) && !(a.Prepare? && PrepareEnabled(s, a.session, a.files))
    ensures NoneNew(s.board.incoming, Next(s, a).board.incoming)
  {
    if a.DirectoryReady? && s.loop.Preparing? {
      UpdatesCompleteNothing(s.board.incoming, s.loop.session, s.loop.file.id, Some(NoDestination), 0);
    }
  }

  lemma ListCompletesNothing(b: Board, y: SessionId, files: seq<File>, x: SessionId, f: FileId)
    requires IsCompleted(List(b, y, files), x, f)
    ensures IsCompleted(b, x, f)
  {
    var us := List(b, y, files).incoming;
    var n := RemoveCount(|b.incoming|, |files|);
    var i :| 0 <= i < |us| && Names(us[i], x, f) && us[i].status == Completed;
    assert us == b.incoming[n..] + Entries(y, files);
    assert i < |b.incoming| - n;
    assert us[i] == b.incoming[n + i];
  }

  lemma CompletedByTask(s: State, t: nat, x: SessionId, f: FileId)
    requires IsCompleted(Next(s, TaskCompletes(t)).board, x, f) && !IsCompleted(s.board, x, f)
    ensures InPhase(s.board, t, Stored) && IsUploadOf(s.board.uploads[t], x, f)
  {
    var us := Next(s, TaskCompletes(t)).board.incoming;
    var i :| 0 <= i < |us| && Names(us[i], x, f) && us[i].status == Completed;
  }

  // Only the end of a successful result task completes an entry.
  lemma NewlyCompleted(s: State, a: Action, x: SessionId, f: FileId)
    requires IsCompleted(Next(s, a).board, x, f) && !IsCompleted(s.board, x, f)
    ensures a.TaskCompletes? && InPhase(s.board, a.task, Stored) && IsUploadOf(s.board.uploads[a.task], x, f)
  {
    if IsTaskStep(a) {
      if !a.TaskCompletes? {
        TaskStepCompletesNothing(s, a);
        CompletedBefore(s.board.incoming, Next(s, a).board.incoming, x, f);
      } else {
        CompletedByTask(s, a.task, x, f);
      }
    } else if a.Prepare? && PrepareEnabled(s, a.session, a.files) {
      if !Oversized(a.files, s.maxBytes) {
        ListCompletesNothing(s.board, a.session, a.files, x, f);
      }
    } else if IsListStep(a) {
      ListStepCompletesNothing(s, a);
      CompletedBefore(s.board.incoming, Next(s, a).board.incoming, x, f);
    } else {
      OtherStepsAreQuiet(s, a);
    }
  }

  lemma CompletionSettles(s: State, acts: seq<Action>, t: nat)
    requires IncomingTransfers.Inv(s) && EventInv(s, acts) && InPhase(s.board, t, Stored)
    ensures Settled(Next(s, TaskCompletes(t)), acts + [TaskCompletes(t)],
                    s.board.uploads[t].session, s.board.uploads[t].file.id)
  {
    var u, us := s.board.uploads[t], s.board.uploads;
    assert u in us;
    AskedGrows(acts, TaskCompletes(t), u.session, u.file.id);
    assert Offered(s.consent.requests, u.session, u.file);
    CompletionCompletes(s.board, t);
    forall k | k in s.board.tasks - {t} && k < |us|
      ensures !IsUploadOf(us[k], u.session, u.file.id)
    {
      if k < t {
        assert !IsUploadOf(us[t], us[k].session, us[k].file.id);
      } else {
        assert !IsUploadOf(us[k], us[t].session, us[t].file.id);
      }
    }
    TaskStepIsLocal(s, TaskCompletes(t));
  }

  lemma CompletionCompletes(b: Board, t: nat)
    requires UniqueKeys(b.incoming) && InPhase(b, t, Stored)
    ensures var c := TaskStep(b, TaskCompletes(t));
            && c.uploads == b.uploads && c.tasks == b.tasks - {t}
            && AllCompleted(c, b.uploads[t].session, b.uploads[t].file.id)
  {
    SetResultAt(b.incoming, b.uploads[t].session, b.uploads[t].file.id, Completed, None);
  }

  lemma {:induction false} CompletedIsSettled(s: State, acts: seq<Action>, x: SessionId, f: FileId)
    requires IncomingTransfers.Inv(s) && s.board.incoming == [] && s.board.uploads == [] && s.loop.Idle?
    requires OneUploadPerFile(acts)
    ensures EventInv(Run(s, acts), acts)
    ensures IsCompleted(Run(s, acts).board, x, f) ==> Settled(Run(s, acts), acts, x, f)
  {
    if acts != [] {
      var before, a := acts[..|acts| - 1], acts[|acts| - 1];
      assert acts == before + [a];
      OneUploadPrefix(before, a);
      CompletedIsSettled(s, before, x, f);
      RunKeepsInv(s, before);
      StepKeepsEventInv(Run(s, before), before, a);
      if IsCompleted(Run(s, before).board, x, f) {
        StepKeepsSettled(Run(s, before), before, a, x, f);
      } else if IsCompleted(Run(s, acts).board, x, f) {
        NewlyCompleted(Run(s, before), a, x, f);
        CompletionSettles(Run(s, before), before, a.task);
      }
    }
  }

  lemma {:induction false} SettledIsKept(s: State, acts: seq<Action>, more: seq<Action>, x: SessionId, f: FileId)
    requires IncomingTransfers.Inv(s) && Settled(Run(s, acts), acts, x, f) && OneUploadPerFile(acts + more)
    ensures Settled(Run(s, acts + more), acts + more, x, f)
  {
    if more == [] {
      assert acts + more == acts;
    } else {
      var before, a := more[..|more| - 1], more[|more| - 1];
      assert acts + more == (acts + before) + [a];
      assert (acts + more)[..|acts + more| - 1] == acts + before;
      OneUploadPrefix(acts + before, a);
      SettledIsKept(s, acts, before, x, f);
      RunKeepsInv(s, acts + before);
      StepKeepsSettled(Run(s, acts + before), acts + before, a, x, f);
    }
  }

  // With one upload event per file, an entry once Completed is Completed for as long as it is listed.
  lemma CompletedIsNeverLeft(maxBytes: nat, auto: bool, acts: seq<Action>, more: seq<Action>,
                             x: SessionId, f: FileId, j: nat)
    requires OneUploadPerFile(acts + more)
    requires IsCompleted(Run(Initial(maxBytes, auto), acts).board, x, f)
    requires j < |Run(Initial(maxBytes, auto), acts + more).board.incoming|
    requires Names(Run(Initial(maxBytes, auto), acts + more).board.incoming[j], x, f)
    ensures Run(Initial(maxBytes, auto), acts + more).board.incoming[j].status == Completed
  {
    var s := Initial(maxBytes, auto);
    forall i, k | 0 <= i < k < |acts| && acts[i].UploadRequested?
      ensures !Asks(acts[k], acts[i].session, acts[i].file.id)
    {
      assert (acts + more)[i] == acts[i] && (acts + more)[k] == acts[k];
    }
    CompletedIsSettled(s, acts, x, f);
    SettledIsKept(s, acts, more, x, f);
  }

  // ---- Failed is not for good ----

  // The step brings the file's entry back: its upload starts anew, or a late result arrives.
  ghost predicate Revives(s: State, a: Action, x: SessionId, f: FileId) {
    || (a == DirectoryReady(true) && PreparingFor(s.loop, x, f))
    || (a.TaskCompletes? && InPhase(s.board, a.task, Stored) && IsUploadOf(s.board.uploads[a.task], x, f))
  }

  ghost predicate AllFailed(b: Board, x: SessionId, f: FileId) {
    forall i :: 0 <= i < |b.incoming| && Names(b.incoming[i], x, f) ==> b.incoming[i].status == Failed
  }

  // A failed entry stays failed exactly until its upload starts anew or a late result completes it.
  lemma FailedIsLeft(s: State, a: Action, x: SessionId, f: FileId, j: nat)
    requires IncomingTransfers.Inv(s) && x in s.consent.requests && AllFailed(s.board, x, f)
    requires j < |Next(s, a).board.incoming| && Names(Next(s, a).board.incoming[j], x, f)
    ensures Next(s, a).board.incoming[j].status != Failed <==> Revives(s, a, x, f)
  {
    if a.Prepare? {
      ListingKeepsFailed(s, a.session, a.files, x, f);
    } else if a.TaskCompletes? {
      LateResult(s, a.task, x, f);
    } else if IsTaskStep(a) {
      TasksKeepFailed(s, a, x, f);
    } else if a.DirectoryReady? {
      DirectoryOnFailed(s, a.ok, x, f);
    } else if IsListStep(a) {
      EndingsKeepFailed(s, a, x, f);
    } else {
      OtherStepsAreQuiet(s, a);
    }
  }

  lemma ListingKeepsFailed(s: State, y: SessionId, files: seq<File>, x: SessionId, f: FileId)
    requires x in s.consent.requests && AllFailed(s.board, x, f)
    ensures AllFailed(Next(s, Prepare(y, files)).board, x, f)
  {
    if PrepareEnabled(s, y, files) && !Oversized(files, s.maxBytes) {
      var us := List(s.board, y, files).incoming;
      assert us == s.board.incoming[RemoveCount(|s.board.incoming|, |files|)..] + Entries(y, files);
    }
  }

  lemma EndingsKeepFailed(s: State, a: Action, x: SessionId, f: FileId)
    requires (a.Resolve? || a.FailEnded? || a.WatchFail?) && AllFailed(s.board, x, f)
    ensures AllFailed(Next(s, a).board, x, f)
  {
  }

  lemma DirectoryOnFailed(s: State, ok: bool, x: SessionId, f: FileId)
    requires UniqueKeys(s.board.incoming) && AllFailed(s.board, x, f)
    ensures var us := Next(s, DirectoryReady(ok)).board.incoming;
            forall i :: 0 <= i < |us| && Names(us[i], x, f) ==>
              (us[i].status != Failed <==> Revives(s, DirectoryReady(ok), x, f))
  {
    if s.loop.Preparing? {
      SetReceivingAt(s.board.incoming, s.loop.session, s.loop.file.id);
      SetResultAt(s.board.incoming, s.loop.session, s.loop.file.id, Failed, Some(NoDestination));
    }
  }

  lemma LateResult(s: State, t: nat, x: SessionId, f: FileId)
    requires UniqueKeys(s.board.incoming) && AllFailed(s.board, x, f)
    ensures var us := Next(s, TaskCompletes(t)).board.incoming;
            forall i :: 0 <= i < |us| && Names(us[i], x, f) ==>
              (us[i].status != Failed <==> Revives(s, TaskCompletes(t), x, f))
  {
    if t < |s.board.uploads| {
      SetResultAt(s.board.incoming, s.board.uploads[t].session, s.board.uploads[t].file.id, Completed, None);
    }
  }

  // Updates other than a completion keep failed entries failed.
  ghost predicate FailedStay(ts: seq<Transfer>, us: seq<Transfer>) {
    |us| == |ts| && forall i :: 0 <= i < |us| ==>
      us[i].session == ts[i].session && us[i].file == ts[i].file && (ts[i].status == Failed ==> us[i].status == Failed)
  }

  lemma UpdatesKeepFailed(ts: seq<Transfer>, x: SessionId, f: FileId, error: Option<Reason>, bytes: nat)
    ensures FailedStay(ts, SetResult(ts, x, f, Failed, error)) && FailedStay(ts, SetProgress(ts, x, f, bytes))
  {
  }

  lemma TasksKeepFailed(s: State, a: Action, x: SessionId, f: FileId)
    requires IsTaskStep(a) && !a.TaskCompletes? && AllFailed(s.board, x, f)
    ensures AllFailed(Next(s, a).board, x, f)
  {
    TaskStepIsLocal(s, a);
    TaskKeepsFailed(s.board, a, TaskStep(s.board, a).incoming);
  }

  lemma TaskKeepsFailed(b: Board, a: Action, us: seq<Transfer>)
    requires IsTaskStep(a) && !a.TaskCompletes? && us == TaskStep(b, a).incoming
    ensures FailedStay(b.incoming, us)
  {
    TaskChangesEntry(b, a);
    if us != b.incoming {
      var u := b.uploads[a.task];
      match a
      case TaskFails(_, text) => UpdatesKeepFailed(b.incoming, u.session, u.file.id, Some(UploadFailed(text)), 0);
      case TaskStores(_) => UpdatesKeepFailed(b.incoming, u.session, u.file.id, None, u.file.size);
      case Progress(_, written) =>
        UpdatesKeepFailed(b.incoming, u.session, u.file.id, None, Min(written, u.file.size));
      case _ =>
    }
  }

  // One file is accepted and its upload starts; the session falls silent and times out, which fails the entry;
  // then the upload's result arrives.
  function LateRun(f: File): seq<Action> {
    [Prepare(0, [f]), Register, UploadRequested(0, f), DirectoryReady(true), Tick(SESSION_IDLE_TIMEOUT),
     WatchFire(0), WatchForget(0), WatchClear(0), WatchFail(0),
     TaskLinks(0, f.name), TaskRecords(0), TaskStores(0), TaskCompletes(0)]
  }

  ghost predicate SessionRuns(s: State, f: File) {
    && s.loop == Idle && s.consent.requests == map[0 := [f]]
    && s.board == Board([Fresh(0, f)], [], map[], [])
    && s.live == Liveness(0, {0}, {}, map[0 := Idling], map[0 := 0])
  }

  lemma SessionStarts(f: File, maxBytes: nat)
    requires f.size <= maxBytes < U64_RANGE
    ensures SessionRuns(Next(Next(Initial(maxBytes, true), Prepare(0, [f])), Register), f)
  {
    assert TotalSize([f]) == f.size by {
      assert [f][1..] == [];
    }
    var s := Next(Initial(maxBytes, true), Prepare(0, [f]));
    assert s.loop == Listed(0) && s.board.incoming == [Fresh(0, f)];
  }

  ghost predicate UploadRuns(s: State, f: File) {
    && s.board == Board([Fresh(0, f).(status := Receiving)], [Upload(0, f, true)], map[0 := Saving], [])
    && s.live == Liveness(0, {0}, {}, map[0 := Idling], map[0 := 0])
  }

  lemma UploadStarts(s: State, f: File)
    requires SessionRuns(s, f)
    ensures UploadRuns(Next(Next(s, UploadRequested(0, f)), DirectoryReady(true)), f)
  {
    var t := Next(s, UploadRequested(0, f));
    assert t.loop == Preparing(0, f, true) && t.board == s.board && t.live == s.live;
    assert Find([Fresh(0, f)], 0, f.id) == 0;
  }

  function TimedOutBoard(f: File): Board {
    var entry := Fresh(0, f).(status := Failed, error := Some(TimedOut));
    Board([entry], [Upload(0, f, true)], map[0 := Saving], [])
  }

  ghost predicate FileTimedOut(s: State, f: File) {
    s.board == TimedOutBoard(f)
  }

  lemma WatchdogFires(s: State, f: File)
    requires UploadRuns(s, f)
    ensures var t := Next(Next(s, Tick(SESSION_IDLE_TIMEOUT)), WatchFire(0));
            Watching(t.live, 0, Firing) && t.board == s.board
  {
  }

  lemma WatchdogActs(s: State, f: File)
    requires Watching(s.live, 0, Firing)
    requires s.board == Board([Fresh(0, f).(status := Receiving)], [Upload(0, f, true)], map[0 := Saving], [])
    ensures FileTimedOut(Next(Next(Next(s, WatchForget(0)), WatchClear(0)), WatchFail(0)), f)
  {
    var t := Next(s, WatchForget(0));
    assert Watching(t.live, 0, Forgotten) && t.board == s.board;
    var u := Next(t, WatchClear(0));
    assert Watching(u.live, 0, Watch.Cleared) && u.board == s.board;
  }

  lemma ResultArrives(b: Board, f: File)
    requires b == TimedOutBoard(f)
    ensures var c := TaskStep(TaskStep(b, TaskLinks(0, f.name)), TaskRecords(0));
            TaskStep(TaskStep(c, TaskStores(0)), TaskCompletes(0)).incoming ==
            [Fresh(0, f).(status := Completed, transferred := f.size)]
  {
    var c := TaskStep(TaskStep(b, TaskLinks(0, f.name)), TaskRecords(0));
    assert InPhase(c, 0, Recorded) && c.incoming == b.incoming && c.uploads == b.uploads;
    var d := TaskStep(c, TaskStores(0));
    assert InPhase(d, 0, Stored) && d.incoming == [b.incoming[0].(transferred := f.size)];
  }

  lemma ResultSteps(s: State, acts: seq<Action>, k: nat)
    requires k + 4 == |acts| && IsTaskStep(acts[k]) && IsTaskStep(acts[k + 1])
    requires IsTaskStep(acts[k + 2]) && IsTaskStep(acts[k + 3])
    ensures Run(s, acts).board ==
            TaskStep(TaskStep(TaskStep(TaskStep(At(s, acts, k).board, acts[k]), acts[k + 1]), acts[k + 2]), acts[k + 3])
  {
    RunStep(s, acts, k);
    RunStep(s, acts, k + 1);
    RunStep(s, acts, k + 2);
    RunStep(s, acts, k + 3);
    TaskStepIsLocal(At(s, acts, k), acts[k]);
    TaskStepIsLocal(At(s, acts, k + 1), acts[k + 1]);
    TaskStepIsLocal(At(s, acts, k + 2), acts[k + 2]);
    TaskStepIsLocal(At(s, acts, k + 3), acts[k + 3]);
    assert acts[..k + 4] == acts;
  }

  lemma LateRunStarts(f: File, maxBytes: nat)
    requires f.size <= maxBytes < U64_RANGE
    ensures UploadRuns(At(Initial(maxBytes, true), LateRun(f), 4), f)
  {
    var s, acts := Initial(maxBytes, true), LateRun(f);
    assert acts[..0] == [];
    RunStep(s, acts, 0);
    RunStep(s, acts, 1);
    SessionStarts(f, maxBytes);
    RunStep(s, acts, 2);
    RunStep(s, acts, 3);
    UploadStarts(At(s, acts, 2), f);
  }

  lemma LateRunTimesOut(f: File, maxBytes: nat)
    requires f.size <= maxBytes < U64_RANGE
    ensures FileTimedOut(At(Initial(maxBytes, true), LateRun(f), 9), f)
  {
    var s, acts := Initial(maxBytes, true), LateRun(f);
    LateRunStarts(f, maxBytes);
    RunStep(s, acts, 4);
    RunStep(s, acts, 5);
    WatchdogFires(At(s, acts, 4), f);
    RunStep(s, acts, 6);
    RunStep(s, acts, 7);
    RunStep(s, acts, 8);
    WatchdogActs(At(s, acts, 6), f);
  }

  // The entry is Failed at the time-out and Completed in the end.
  lemma TimedOutFileCompletes(f: File, maxBytes: nat)
    requires f.size <= maxBytes < U64_RANGE
    ensures At(Initial(maxBytes, true), LateRun(f), 9).board.incoming ==
            [Fresh(0, f).(status := Failed, error := Some(TimedOut))]
    ensures Run(Initial(maxBytes, true), LateRun(f)).board.incoming ==
            [Fresh(0, f).(status := Completed, transferred := f.size)]
  {
    var s, acts := Initial(maxBytes, true), LateRun(f);
    LateRunTimesOut(f, maxBytes);
    ResultSteps(s, acts, 9);
    ResultArrives(At(s, acts, 9).board, f);
  }

  // ---- What ends a session early ----

  predicate EndsSessions(a: Action) {
    a.FailEnded? || a.WatchFail? || a.Resolve?
  }

  // The session a step fails, if it fails one.
  function Failing(s: State, a: Action): Option<SessionId> {
    match a
    case FailEnded => if s.loop.Ended? then Some(s.loop.session) else None
    case WatchFail(x) => if Watching(s.live, x, Watch.Cleared) then Some(x) else None
    case Resolve(x) =>
      if x in s.consent.waiting && !s.consent.waiting[x].Open? && x in s.consent.requests
         && s.consent.waiting[x] != Answered(true)
      then Some(x) else None
    case _ => None
  }

  // What it tells their entries.
  function FailingReason(s: State, a: Action): Reason {
    match a
    case FailEnded => if s.loop.Ended? then s.loop.reason else TimedOut
    case Resolve(x) =>
      if x in s.consent.waiting && s.consent.waiting[x] == Answered(false) then Declined else Expired
    case _ => TimedOut
  }

  lemma EndingFailsSession(s: State, a: Action)
    requires EndsSessions(a)
    ensures Next(s, a).board.incoming ==
            if Failing(s, a).Some? then FailSession(s.board.incoming, Failing(s, a).value, FailingReason(s, a))
            else s.board.incoming
  {
  }

  // Session end, abort, decline and timeout fail the entries of their session that are still Waiting or
  // Receiving, with a reason, and change nothing else in the list.
  lemma EndingFailsOnlyIncomplete(s: State, a: Action, i: nat)
    requires EndsSessions(a) && i < |s.board.incoming|
    ensures var t := Next(s, a).board;
            && |t.incoming| == |s.board.incoming|
            && var e, f := s.board.incoming[i], t.incoming[i];
               if Failing(s, a) == Some(e.session) && e.status in {Waiting, Receiving}
               then f.status == Failed && f.error.Some? && f.(status := e.status, error := e.error) == e
               else f == e
  {
    EndingFailsSession(s, a);
  }
}
