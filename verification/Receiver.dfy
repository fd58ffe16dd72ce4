/**
 The receiver's shared state, updated in place section by section as the event loop and its tasks do.

 A receiver keeps a ghost log of its actions. It is valid when its state is the one the log leads to, so what
 holds over all runs holds of it; every handler appends its own action and says what its caller gains.
 */
module ReceiverService {
  import opened Wrappers
  import opened Numbers
  import opened Incoming
  import opened IncomingTraces
  import H = IncomingHistory

  // The size test of a prepared upload, summed as the release build does.
  method SumSizes(files: seq<File>) returns (total: nat)
    ensures total == WrappedSize(files)
  {
    total := 0;
    for i := 0 to |files|
      invariant total < U64_RANGE
      invariant (total + TotalSize(files[i..])) % U64_RANGE == WrappedSize(files)
    {
      assert files[i..][0] == files[i] && files[i..][1..] == files[i + 1..];
      total := (total + files[i].size) % U64_RANGE;
    }
  }

  class Receiver {
    const maxBytes: nat
    var autoAccept: bool
    var loop: Loop

    var requests: map<SessionId, seq<File>>
    var pending: Option<SessionId>
    var waiting: map<SessionId, Channel>
    var decisions: seq<Decided>

    var incoming: seq<Transfer>
    var uploads: seq<Upload>
    var tasks: map<nat, Phase>
    var history: seq<Received>

    var now: nat
    var sessions: set<SessionId>
    var stopped: set<SessionId>
    var watchdogs: map<SessionId, Watch>
    var activity: map<SessionId, nat>

    const startAuto: bool
    ghost var states: seq<State>
    ghost var acts: seq<Action>

    ghost predicate Valid()
      reads this
    {
      Genuine(states, acts, maxBytes, startAuto) && states[|acts|] == Abs()
    }

    ghost function Abs(): State
      reads this
    {
      State(maxBytes, autoAccept, loop, Consent(requests, pending, waiting, decisions),
            Board(incoming, uploads, tasks, history), Liveness(now, sessions, stopped, watchdogs, activity))
    }

    constructor (maxBytes: nat, autoAccept: bool)
      ensures Valid() && acts == [] && Abs() == Initial(maxBytes, autoAccept)
      ensures this.maxBytes == maxBytes && startAuto == autoAccept
    {
      this.maxBytes, this.autoAccept, startAuto, loop := maxBytes, autoAccept, autoAccept, Idle;
      requests, pending, waiting, decisions := map[], None, map[], [];
      incoming, uploads, tasks, history := [], [], map[], [];
      now, sessions, stopped, watchdogs, activity := 0, {}, {}, map[], map[];
      states, acts := [Initial(maxBytes, autoAccept)], [];
    }

    // Appends the step just performed to the log.
    ghost method Log(a: Action)
      requires Genuine(states, acts, maxBytes, startAuto) && Abs() == Next(states[|acts|], a)
      modifies this`states, this`acts
      ensures Valid() && acts == old(acts) + [a]
      ensures Ends(states, acts, maxBytes, startAuto, old(states[|acts|]), a)
    {
      LogGrows(states, acts, maxBytes, startAuto, a, Abs());
      states, acts := states + [Abs()], acts + [a];
    }

    // Everything proved over runs holds of a valid receiver, for instance: no request is decided twice, the list
    // is truthful, and it is the recent end of the log of listings.
    lemma SoundOverRuns()
      requires Valid()
      ensures forall i, j :: 0 <= i < j < |decisions| ==> decisions[i].session != decisions[j].session
      ensures Truthful(Board(incoming, uploads, tasks, history))
      ensures H.RecentEnd(incoming, H.Log(Initial(maxBytes, startAuto), acts))
    {
      GenuineIsRun(states, acts, maxBytes, startAuto);
      LatestIsTruthful(states, acts, maxBytes, startAuto);
      H.ListIsRecentEndOfLog(maxBytes, startAuto, acts);
      forall i, j | 0 <= i < j < |decisions|
        ensures decisions[i].session != decisions[j].session
      {
        D.AtMostOneDecision(maxBytes, startAuto, acts, i, j);
      }
    }

    // And every acceptance in it was consented to along its log.
    lemma AcceptedWithConsent(x: SessionId, ids: set<FileId>)
      requires Valid() && D.HasDecision(Consent(requests, pending, waiting, decisions), x, Accept(ids))
      ensures x in requests && ids == Ids(requests[x])
      ensures D.UserAccepted(Initial(maxBytes, startAuto), acts, x)
              || D.AutoAccepted(Initial(maxBytes, startAuto), acts, x)
    {
      GenuineIsRun(states, acts, maxBytes, startAuto);
      D.AcceptNeedsConsent(maxBytes, startAuto, acts, x, ids);
    }

    // ---- Helpers shared by the handlers ----

    method FindTransfer(x: SessionId, f: FileId) returns (k: nat)
      ensures k == Find(incoming, x, f)
    {
      k := 0;
      while k < |incoming| && !Names(incoming[k], x, f)
        invariant k <= |incoming|
        invariant k + Find(incoming[k..], x, f) == Find(incoming, x, f)
      {
        assert incoming[k..][0] == incoming[k] && incoming[k..][1..] == incoming[k + 1..];
        k := k + 1;
      }
    }

    method UpdateIncomingResult(x: SessionId, f: FileId, status: Status, error: Option<Reason>)
      modifies this`incoming
      ensures incoming == SetResult(old(incoming), x, f, status, error)
    {
      var k := FindTransfer(x, f);
      if k < |incoming| {
        incoming := incoming[k := incoming[k].(status := status, error := error)];
      }
    }

    method StoreProgress(x: SessionId, f: FileId, bytes: nat)
      modifies this`incoming
      ensures incoming == SetProgress(old(incoming), x, f, bytes)
    {
      var k := FindTransfer(x, f);
      if k < |incoming| {
        incoming := incoming[k := incoming[k].(transferred := bytes)];
      }
    }

    method FailIncompleteSession(x: SessionId, reason: Reason)
      modifies this`incoming
      ensures incoming == FailSession(old(incoming), x, reason)
    {
      for i := 0 to |incoming|
        invariant |incoming| == |old(incoming)|
        invariant forall k :: 0 <= k < i ==> incoming[k] == FailOne(old(incoming)[k], x, reason)
        invariant forall k :: i <= k < |incoming| ==> incoming[k] == old(incoming)[k]
      {
        if incoming[i].session == x {
          match incoming[i].status
          case Waiting => incoming := incoming[i := incoming[i].(status := Failed, error := Some(reason))];
          case Receiving => incoming := incoming[i := incoming[i].(status := Failed, error := Some(reason))];
          case _ =>
        }
      }
    }

    // Empties the slot; the sender it held is dropped and its decision task hears a hang-up.
    method DropSlot()
      modifies this`pending, this`waiting
      ensures Consent(requests, pending, waiting, decisions) ==
              DropPending(old(Consent(requests, pending, waiting, decisions)))
    {
      if pending.Some? {
        waiting := waiting[pending.value := Hung];
        pending := None;
      }
    }

    // ---- The event loop ----

    method SetAutoAccept(on: bool)
      requires Valid()
      modifies this
      ensures Valid() && acts == old(acts) + [Action.SetAutoAccept(on)]
    {
      autoAccept := on;
      Log(Action.SetAutoAccept(on));
    }

    method Tick(seconds: nat)
      requires Valid()
      modifies this
      ensures Valid() && acts == old(acts) + [Action.Tick(seconds)]
    {
      now := now + seconds;
      Log(Action.Tick(seconds));
    }

    // An oversized request is declined at once. Otherwise its files are listed, and the list stays capped.
    method PrepareUpload(x: SessionId, files: seq<File>)
      requires Valid()
      modifies this
      ensures Valid() && acts == old(acts) + [Prepare(x, files)]
      ensures old(loop).Idle? && x !in old(requests) && DistinctIds(files) ==>
                if Oversized(files, maxBytes)
                then D.HasDecision(Consent(requests, pending, waiting, decisions), x, Decline)
                     && incoming == old(incoming)
                else loop == Listed(x) && forall f :: f in files ==> Fresh(x, f) in incoming
      ensures Truthful(Board(incoming, uploads, tasks, history))
    {
      ghost var before := Abs();
      if loop == Idle && x !in requests && DistinctIds(files) {
        ConsiderFiles(x, files);
      }
      Log(Prepare(x, files));
      LatestIsTruthful(states, acts, maxBytes, startAuto);
      if PrepareEnabled(before, x, files) {
        PrepareGives(before, x, files);
      }
    }

    // The size and count tests, then the decline or the listing.
    method ConsiderFiles(x: SessionId, files: seq<File>)
      modifies this`requests, this`decisions, this`incoming, this`loop
      ensures Abs() == PrepareStep(old(Abs()), x, files)
    {
      requests := requests[x := files];
      var total := SumSizes(files);
      if total > maxBytes {
        decisions := decisions + [Decided(x, Decline)];
      } else if |files| > MAX_INCOMING_FILES {
        decisions := decisions + [Decided(x, Decline)];
      } else {
        ListFiles(x, files);
        loop := Listed(x);
      }
    }

    // Drains the oldest entries beyond the cap and appends the new ones.
    method ListFiles(x: SessionId, files: seq<File>)
      modifies this`incoming
      ensures incoming == List(old(Board(incoming, uploads, tasks, history)), x, files).incoming
    {
      if |incoming| + |files| > MAX_LISTED {
        var removeCount := |incoming| + |files| - MAX_LISTED;
        removeCount := if removeCount < |incoming| then removeCount else |incoming|;
        incoming := incoming[removeCount..];
      }
      incoming := incoming + Entries(x, files);
    }

    // The session's watchdog starts with a fresh deadline. With automatic acceptance on, the request is accepted
    // with all its files; otherwise it waits for the slot.
    method RegisterSession()
      requires Valid()
      modifies this
      ensures Valid() && acts == old(acts) + [Register]
      ensures old(loop).Listed? ==>
                && old(loop).session in sessions
                && WatchedFresh(Liveness(now, sessions, stopped, watchdogs, activity), old(loop).session)
                && if autoAccept && old(loop).session in requests
                   then D.HasDecision(Consent(requests, pending, waiting, decisions), old(loop).session,
                                      Accept(Ids(requests[old(loop).session])))
                   else loop == Registered(old(loop).session)
    {
      ghost var before := Abs();
      if loop.Listed? {
        var x := loop.session;
        StartWatchdog(x);
        if autoAccept && x in requests {
          decisions := decisions + [Decided(x, Accept(Ids(requests[x])))];
          loop := Idle;
        } else {
          loop := Registered(x);
        }
      }
      Log(Register);
      if before.loop.Listed? {
        RegisterGives(before);
      }
    }

    method StartWatchdog(x: SessionId)
      modifies this`sessions, this`watchdogs, this`activity
      ensures Liveness(now, sessions, stopped, watchdogs, activity) ==
              Enroll(old(Liveness(now, sessions, stopped, watchdogs, activity)), x)
    {
      sessions := sessions + {x};
      watchdogs, activity := watchdogs[x := Idling], activity[x := now];
    }

    // The new request is in the slot; one it displaces can only be declined from now on.
    method FillPending()
      requires Valid()
      modifies this
      ensures Valid() && acts == old(acts) + [Pend]
      ensures old(loop).Registered? ==> pending == Some(old(loop).session)
      ensures SlotDecides(old(Abs()), Abs(), false)
    {
      ghost var before := Abs();
      if loop.Registered? {
        var x := loop.session;
        DropSlot();
        pending, waiting := Some(x), waiting[x := Open];
        loop := Idle;
      }
      Log(Pend);
      SlotStepDecides(states, acts, maxBytes, startAuto, before, Pend);
    }

    // An upload to a live session renews its deadline, so its watchdog cannot fire now; the list is untouched.
    method FileUpload(x: SessionId, f: File)
      requires Valid()
      modifies this
      ensures Valid() && acts == old(acts) + [UploadRequested(x, f)]
      ensures old(loop).Idle? && x in requests && f in requests[x] ==>
                && loop == Preparing(x, f, x in sessions)
                && (x in sessions ==> !IdleLongEnough(Liveness(now, sessions, stopped, watchdogs, activity), x))
      ensures incoming == old(incoming) && pending == old(pending) && decisions == old(decisions)
    {
      if loop.Idle? && x in requests && f in requests[x] {
        if x in sessions {
          activity := activity[x := now];
        }
        loop := Preparing(x, f, x in sessions);
      }
      Log(UploadRequested(x, f));
    }

    // The file's entry, if listed, is failed or receives with a result task of its own.
    method BeginReceiving(ok: bool)
      requires Valid()
      modifies this
      ensures Valid() && acts == old(acts) + [DirectoryReady(ok)]
      ensures old(loop).Preparing? ==>
                && Shows(incoming, old(loop).session, old(loop).file.id, if ok then Receiving else Failed)
                && (ok ==> |uploads| - 1 in tasks
                           && uploads[|uploads| - 1] == Upload(old(loop).session, old(loop).file, old(loop).touches))
      ensures Truthful(Board(incoming, uploads, tasks, history))
    {
      ghost var before := Abs();
      if loop.Preparing? {
        var u := Upload(loop.session, loop.file, loop.touches);
        loop := Idle;
        if !ok {
          UpdateIncomingResult(u.session, u.file.id, Failed, Some(NoDestination));
        } else {
          StartReceiving(u);
        }
      }
      Log(DirectoryReady(ok));
      LatestIsTruthful(states, acts, maxBytes, startAuto);
      DirectoryShows(states, acts, maxBytes, startAuto, before, ok);
    }

    // Marks the file's entry and spawns its result task.
    method StartReceiving(u: Upload)
      modifies this`incoming, this`tasks, this`uploads
      ensures Board(incoming, uploads, tasks, history) == StartUpload(old(Board(incoming, uploads, tasks, history)), u)
    {
      var k := FindTransfer(u.session, u.file.id);
      if k < |incoming| {
        incoming := incoming[k := incoming[k].(status := Receiving)];
      }
      tasks, uploads := tasks[|uploads| := Saving], uploads + [u];
    }

    // The session is gone and its watchdog can stop; the rest of the event follows.
    method SessionEnd(x: SessionId, cancelled: bool)
      requires Valid()
      modifies this
      ensures Valid() && acts == old(acts) + [SessionEnds(x, cancelled)]
      ensures old(loop).Idle? ==>
                && x !in sessions && (x in old(sessions) ==> x in stopped)
                && loop == Ending(x, if cancelled then Some(Reason.Cancelled) else None)
      ensures incoming == old(incoming) && pending == old(pending)
    {
      if loop.Idle? {
        ForgetSession(x);
        loop := Ending(x, if cancelled then Some(Reason.Cancelled) else None);
      }
      Log(SessionEnds(x, cancelled));
    }

    method PrepareUploadAborted(x: SessionId)
      requires Valid()
      modifies this
      ensures Valid() && acts == old(acts) + [PrepareAborts(x)]
      ensures old(loop).Idle? ==>
                x !in sessions && (x in old(sessions) ==> x in stopped) && loop == Ending(x, Some(Aborted))
      ensures incoming == old(incoming) && pending == old(pending)
    {
      if loop.Idle? {
        ForgetSession(x);
        loop := Ending(x, Some(Aborted));
      }
      Log(PrepareAborts(x));
    }

    method ForgetSession(x: SessionId)
      modifies this`sessions, this`stopped
      ensures Liveness(now, sessions, stopped, watchdogs, activity) ==
              EndSession(old(Liveness(now, sessions, stopped, watchdogs, activity)), x)
    {
      if x in sessions {
        sessions, stopped := sessions - {x}, stopped + {x};
      }
    }

    // The ended session is not in the slot any more; if it was, it can only be declined.
    method CheckEndedSlot()
      requires Valid()
      modifies this
      ensures Valid() && acts == old(acts) + [CheckSlot]
      ensures old(loop).Ending? ==>
                && pending != Some(old(loop).session)
                && loop == (if old(loop).fails.Some? then Ended(old(loop).session, old(loop).fails.value) else Idle)
      ensures SlotDecides(old(Abs()), Abs(), false)
      ensures incoming == old(incoming) && sessions == old(sessions)
    {
      ghost var before := Abs();
      if loop.Ending? {
        if pending == Some(loop.session) {
          DropSlot();
        }
        loop := if loop.fails.Some? then Ended(loop.session, loop.fails.value) else Idle;
      }
      Log(CheckSlot);
      SlotStepDecides(states, acts, maxBytes, startAuto, before, CheckSlot);
    }

    // No entry of the cancelled or aborted session is left waiting or receiving.
    method FailEndedSession()
      requires Valid()
      modifies this
      ensures Valid() && acts == old(acts) + [FailEnded]
      ensures old(loop).Ended? ==> NoneIncomplete(incoming, old(loop).session) && loop == Idle
      ensures !old(loop).Ended? ==> loop == old(loop) && incoming == old(incoming)
      ensures sessions == old(sessions) && pending == old(pending)
    {
      if loop.Ended? {
        FailingCompletes(incoming, loop.session, loop.reason);
        FailIncompleteSession(loop.session, loop.reason);
        loop := Idle;
      }
      Log(FailEnded);
    }

    // The whole event of a session's end, with nothing in between: the session is gone, it is not in the slot,
    // and after a cancellation or an abort none of its entries is left waiting or receiving.
    method EndSessionEvent(x: SessionId, cancelled: bool)
      requires Valid() && loop.Idle?
      modifies this
      ensures Valid() && acts == old(acts) + [SessionEnds(x, cancelled), CheckSlot, FailEnded]
      ensures loop.Idle? && x !in sessions && pending != Some(x)
      ensures cancelled ==> NoneIncomplete(incoming, x)
      ensures !cancelled ==> incoming == old(incoming)
    {
      SessionEnd(x, cancelled);
      CheckEndedSlot();
      FailEndedSession();
    }

    method AbortEvent(x: SessionId)
      requires Valid() && loop.Idle?
      modifies this
      ensures Valid() && acts == old(acts) + [PrepareAborts(x), CheckSlot, FailEnded]
      ensures loop.Idle? && x !in sessions && pending != Some(x) && NoneIncomplete(incoming, x)
    {
      PrepareUploadAborted(x);
      CheckEndedSlot();
      FailEndedSession();
    }

    // ---- The user and the decision tasks ----

    // The control API takes the pending transfer and answers it; false stands for "no pending transfer". The
    // request can from now on only be accepted with all its files, or only be declined, as the user said.
    method DecidePending(accepted: bool) returns (found: bool)
      requires Valid()
      modifies this
      ensures Valid() && acts == old(acts) + [UserDecides(accepted)]
      ensures found == old(pending).Some? && pending == None
      ensures SlotDecides(old(Abs()), Abs(), accepted)
    {
      ghost var before := Abs();
      found := pending.Some?;
      if found {
        waiting := waiting[pending.value := Answered(accepted)];
        pending := None;
      }
      Log(UserDecides(accepted));
      SlotStepDecides(states, acts, maxBytes, startAuto, before, UserDecides(accepted));
    }

    // A decision task that has its answer decides the request; unless accepted, no entry of it is left waiting
    // or receiving.
    method ResolveDecision(x: SessionId)
      requires Valid()
      modifies this
      ensures Valid() && acts == old(acts) + [Resolve(x)]
      ensures x in old(waiting) && !old(waiting)[x].Open? ==>
                && x !in waiting && x in requests
                && D.HasDecision(Consent(requests, pending, waiting, decisions), x,
                                 if old(waiting)[x] == Answered(true) then Accept(Ids(requests[x])) else Decline)
                && (old(waiting)[x] != Answered(true) ==> NoneIncomplete(incoming, x))
    {
      WaitingIsRequested(states, acts, maxBytes, startAuto, x);
      if x in waiting && !waiting[x].Open? && x in requests {
        var decision := Decline;
        match waiting[x] {
          case Answered(true) => decision := Accept(Ids(requests[x]));
          case Answered(false) =>
            FailingCompletes(incoming, x, Declined);
            FailIncompleteSession(x, Declined);
          case Hung =>
            FailingCompletes(incoming, x, Expired);
            FailIncompleteSession(x, Expired);
        }
        waiting := waiting - {x};
        decisions := decisions + [Decided(x, decision)];
      }
      Log(Resolve(x));
    }

    // ---- Result and progress tasks ----

    // The upload's entry, if listed, is failed, and the task is over.
    method FailUpload(t: nat, text: string)
      requires Valid()
      modifies this
      ensures Valid() && acts == old(acts) + [TaskFails(t, text)] && uploads == old(uploads)
      ensures InPhase(old(Board(incoming, uploads, tasks, history)), t, Saving) ==>
                t !in tasks && Shows(incoming, uploads[t].session, uploads[t].file.id, Failed)
    {
      ghost var before := Abs();
      if InPhase(Board(incoming, uploads, tasks, history), t, Saving) {
        UpdateIncomingResult(uploads[t].session, uploads[t].file.id, Failed, Some(UploadFailed(text)));
        tasks := tasks - {t};
      }
      Log(TaskFails(t, text));
      TaskEndShows(states, acts, maxBytes, startAuto, before, TaskFails(t, text));
    }

    method LinkUpload(t: nat, name: string)
      requires Valid()
      modifies this
      ensures Valid() && acts == old(acts) + [TaskLinks(t, name)]
    {
      if InPhase(Board(incoming, uploads, tasks, history), t, Saving) {
        tasks := tasks[t := Linked(name)];
      }
      Log(TaskLinks(t, name));
    }

    // The upload is in the history under its name and with its size; entries that were there stay.
    method RecordUpload(t: nat)
      requires Valid()
      modifies this
      ensures Valid() && acts == old(acts) + [TaskRecords(t)]
      ensures old(history) <= history
      ensures IsLinked(old(Board(incoming, uploads, tasks, history)), t) ==>
                T.InHistory(Board(incoming, uploads, tasks, history), t)
    {
      if IsLinked(Board(incoming, uploads, tasks, history), t) {
        var received := Received(t, tasks[t].name, uploads[t].file.size);
        history := history + [received];
        assert received in history;
        tasks := tasks[t := Recorded];
      }
      Log(TaskRecords(t));
    }

    method StoreTotal(t: nat)
      requires Valid()
      modifies this
      ensures Valid() && acts == old(acts) + [TaskStores(t)]
      ensures Truthful(Board(incoming, uploads, tasks, history))
    {
      if InPhase(Board(incoming, uploads, tasks, history), t, Recorded) {
        StoreProgress(uploads[t].session, uploads[t].file.id, uploads[t].file.size);
        tasks := tasks[t := Stored];
      }
      Log(TaskStores(t));
      LatestIsTruthful(states, acts, maxBytes, startAuto);
    }

    // The upload's entry, if listed, is completed and in the history with its size; the task is over.
    method CompleteUpload(t: nat)
      requires Valid()
      modifies this
      ensures Valid() && acts == old(acts) + [TaskCompletes(t)]
      ensures uploads == old(uploads) && Truthful(Board(incoming, uploads, tasks, history))
      ensures InPhase(old(Board(incoming, uploads, tasks, history)), t, Stored) ==>
                t !in tasks && Shows(incoming, uploads[t].session, uploads[t].file.id, Completed)
    {
      ghost var before := Abs();
      if InPhase(Board(incoming, uploads, tasks, history), t, Stored) {
        UpdateIncomingResult(uploads[t].session, uploads[t].file.id, Completed, None);
        tasks := tasks - {t};
      }
      Log(TaskCompletes(t));
      LatestIsTruthful(states, acts, maxBytes, startAuto);
      TaskEndShows(states, acts, maxBytes, startAuto, before, TaskCompletes(t));
    }

    // No entry shows more than its total, and the session's deadline is renewed if the upload has one.
    method ReportProgress(t: nat, written: nat)
      requires Valid()
      modifies this
      ensures Valid() && acts == old(acts) + [Progress(t, written)]
      ensures Truthful(Board(incoming, uploads, tasks, history)) && uploads == old(uploads)
      ensures t < |uploads| && uploads[t].touches ==>
                !IdleLongEnough(Liveness(now, sessions, stopped, watchdogs, activity), uploads[t].session)
    {
      if t < |uploads| {
        var u := uploads[t];
        StoreProgress(u.session, u.file.id, if written < u.file.size then written else u.file.size);
        if u.touches {
          activity := activity[u.session := now];
        }
      }
      Log(Progress(t, written));
      LatestIsTruthful(states, acts, maxBytes, startAuto);
    }

    // ---- Watchdogs ----

    method StopWatchdog(x: SessionId)
      requires Valid()
      modifies this
      ensures Valid() && acts == old(acts) + [WatchStop(x)]
    {
      if x in watchdogs && watchdogs[x] == Idling && x in stopped {
        watchdogs := watchdogs - {x};
      }
      Log(WatchStop(x));
    }

    // If it fires, every registration, upload and progress report of the session lies 120 seconds back.
    method FireWatchdog(x: SessionId) returns (fired: bool)
      requires Valid()
      modifies this
      ensures Valid() && acts == old(acts) + [WatchFire(x)]
      ensures fired ==> Watching(Liveness(now, sessions, stopped, watchdogs, activity), x, Firing)
      ensures fired ==> SilentFor(states, acts, |acts| - 1, x, now)
      ensures !fired ==> watchdogs == old(watchdogs)
    {
      ghost var before := Abs();
      fired := x in watchdogs && watchdogs[x] == Idling && x in activity && now - activity[x] >= SESSION_IDLE_TIMEOUT;
      if fired {
        watchdogs := watchdogs[x := Firing];
      }
      Log(WatchFire(x));
      if fired {
        FiringMeansSilence(states, acts, maxBytes, startAuto, before, x);
      }
    }

    // A fired watchdog takes its session out: later uploads to it renew no deadline.
    method ForgetIdleSession(x: SessionId)
      requires Valid()
      modifies this
      ensures Valid() && acts == old(acts) + [WatchForget(x)]
      ensures Watching(old(Liveness(now, sessions, stopped, watchdogs, activity)), x, Firing) ==> x !in sessions
      ensures pending == old(pending) && incoming == old(incoming)
    {
      if x in watchdogs && watchdogs[x] == Firing {
        sessions := sessions - {x};
        watchdogs := watchdogs[x := Forgotten];
      }
      Log(WatchForget(x));
    }

    // The timed-out session is not in the slot any more; if it was, it can only be declined.
    method ClearIdleSlot(x: SessionId)
      requires Valid()
      modifies this
      ensures Valid() && acts == old(acts) + [WatchClear(x)]
      ensures Watching(old(Liveness(now, sessions, stopped, watchdogs, activity)), x, Forgotten) ==> pending != Some(x)
      ensures SlotDecides(old(Abs()), Abs(), false)
    {
      ghost var before := Abs();
      if x in watchdogs && watchdogs[x] == Forgotten {
        if pending == Some(x) {
          DropSlot();
        }
        watchdogs := watchdogs[x := Watch.Cleared];
      }
      Log(WatchClear(x));
      SlotStepDecides(states, acts, maxBytes, startAuto, before, WatchClear(x));
    }

    // No entry of the timed-out session is left waiting or receiving.
    method FailIdleSession(x: SessionId)
      requires Valid()
      modifies this
      ensures Valid() && acts == old(acts) + [WatchFail(x)]
      ensures Watching(old(Liveness(now, sessions, stopped, watchdogs, activity)), x, Watch.Cleared) ==>
                NoneIncomplete(incoming, x) && x !in watchdogs
    {
      if x in watchdogs && watchdogs[x] == Watch.Cleared {
        FailingCompletes(incoming, x, TimedOut);
        FailIncompleteSession(x, TimedOut);
        watchdogs := watchdogs - {x};
      }
      Log(WatchFail(x));
    }
  }
}
