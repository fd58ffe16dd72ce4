/** What the latest step of a receiver's trace gives, beyond the step itself. */
module IncomingTraces {
  import opened Wrappers
  import opened Incoming
  import D = IncomingDecisions
  import T = IncomingTransfers
  import W = IncomingWatchdog

  // A trace from the start of a receiver.
  ghost predicate Genuine(states: seq<State>, acts: seq<Action>, maxBytes: nat, auto: bool) {
    IsTrace(states, acts) && states[0] == Initial(maxBytes, auto)
  }

  lemma GenuineIsRun(states: seq<State>, acts: seq<Action>, maxBytes: nat, auto: bool)
    requires Genuine(states, acts, maxBytes, auto)
    ensures states[|acts|] == Run(Initial(maxBytes, auto), acts)
  {
    TraceIsRun(states, acts, |acts|);
    assert acts[..|acts|] == acts;
  }

  // The last action and the state before it.
  ghost predicate Ends(states: seq<State>, acts: seq<Action>, maxBytes: nat, auto: bool, s: State, a: Action) {
    && Genuine(states, acts, maxBytes, auto) && acts != []
    && s == states[|acts| - 1] && a == acts[|acts| - 1] && states[|acts|] == Next(s, a)
  }

  lemma LogGrows(states: seq<State>, acts: seq<Action>, maxBytes: nat, auto: bool, a: Action, t: State)
    requires Genuine(states, acts, maxBytes, auto) && t == Next(states[|acts|], a)
    ensures Genuine(states + [t], acts + [a], maxBytes, auto) && (states + [t])[|acts| + 1] == t
    ensures Ends(states + [t], acts + [a], maxBytes, auto, states[|acts|], a)
  {
    TraceGrows(states, acts, a, t);
  }

  lemma SoundBefore(states: seq<State>, acts: seq<Action>, maxBytes: nat, auto: bool, s: State, a: Action)
    requires Ends(states, acts, maxBytes, auto, s, a)
    ensures D.Inv(s) && T.Inv(s)
  {
    TraceIsRun(states, acts, |acts| - 1);
    D.RunKeepsInv(Initial(maxBytes, auto), acts[..|acts| - 1]);
    T.RunKeepsInv(Initial(maxBytes, auto), acts[..|acts| - 1]);
  }

  lemma SoundAfter(states: seq<State>, acts: seq<Action>, maxBytes: nat, auto: bool)
    requires Genuine(states, acts, maxBytes, auto)
    ensures D.Inv(states[|acts|]) && T.Inv(states[|acts|])
  {
    GenuineIsRun(states, acts, maxBytes, auto);
    D.RunKeepsInv(Initial(maxBytes, auto), acts);
    T.RunKeepsInv(Initial(maxBytes, auto), acts);
  }

  // ---- Requests ----

  // The request that was in the slot before and is not after can only be accepted, if the user said so, or only
  // be declined.
  ghost predicate SlotDecides(s: State, t: State, accepted: bool) {
    s.consent.pending.Some? && t.consent.pending != s.consent.pending ==>
      if accepted then D.Blessed(t.consent, s.consent.pending.value) else D.Doomed(t.consent, s.consent.pending.value)
  }

  lemma SlotStepDecides(states: seq<State>, acts: seq<Action>, maxBytes: nat, auto: bool, s: State, a: Action)
    requires Ends(states, acts, maxBytes, auto, s, a)
    ensures SlotDecides(s, states[|acts|], a == UserDecides(true))
  {
    SoundBefore(states, acts, maxBytes, auto, s, a);
    if s.consent.pending.Some? && states[|acts|].consent.pending != s.consent.pending {
      D.LeavingTheSlot(s, a, s.consent.pending.value);
    }
  }

  lemma PrepareGives(s: State, x: SessionId, files: seq<File>)
    requires PrepareEnabled(s, x, files)
    ensures var t := Next(s, Prepare(x, files));
            if Oversized(files, s.maxBytes) then D.HasDecision(t.consent, x, Decline) && t.board == s.board
            else t.loop == Listed(x) && forall f :: f in files ==> Fresh(x, f) in t.board.incoming
  {
    var t := Next(s, Prepare(x, files));
    if Oversized(files, s.maxBytes) {
      assert t.consent.decisions[|t.consent.decisions| - 1] == Decided(x, Decline);
    } else {
      ListedAreThere(s.board.incoming[RemoveCount(|s.board.incoming|, |files|)..], x, files);
    }
  }

  lemma ListedAreThere(kept: seq<Transfer>, x: SessionId, files: seq<File>)
    ensures forall f :: f in files ==> Fresh(x, f) in kept + Entries(x, files)
  {
    forall f | f in files
      ensures Fresh(x, f) in kept + Entries(x, files)
    {
      var i :| 0 <= i < |files| && files[i] == f;
      assert (kept + Entries(x, files))[|kept| + i] == Fresh(x, f);
    }
  }

  // The session's watchdog waits and cannot fire before the whole timeout has passed.
  ghost predicate WatchedFresh(l: Liveness, x: SessionId) {
    Watching(l, x, Idling) && x in l.activity && l.activity[x] == l.now
  }

  lemma RegisterGives(s: State)
    requires s.loop.Listed?
    ensures var t, x := Next(s, Register), s.loop.session;
            && x in t.live.sessions && WatchedFresh(t.live, x)
            && if s.autoAccept && x in s.consent.requests
               then D.HasDecision(t.consent, x, Accept(Ids(s.consent.requests[x]))) else t.loop == Registered(x)
  {
    var t := Next(s, Register);
    if s.autoAccept && s.loop.session in s.consent.requests {
      assert t.consent.decisions[|t.consent.decisions| - 1] in t.consent.decisions;
    }
  }

  // ---- The list ----

  // No entry of the session is left waiting or receiving.
  ghost predicate NoneIncomplete(ts: seq<Transfer>, x: SessionId) {
    forall i :: 0 <= i < |ts| && ts[i].session == x ==> ts[i].status == Completed || ts[i].status == Failed
  }

  lemma FailingCompletes(ts: seq<Transfer>, x: SessionId, reason: Reason)
    ensures NoneIncomplete(FailSession(ts, x, reason), x)
  {
  }

  // What the list says of a file: nothing, or one status.
  ghost predicate Shows(ts: seq<Transfer>, x: SessionId, f: FileId, status: Status) {
    forall i :: 0 <= i < |ts| && Names(ts[i], x, f) ==> ts[i].status == status
  }

  lemma ResultShows(b: Board, x: SessionId, f: FileId, status: Status, error: Option<Reason>)
    requires T.UniqueKeys(b.incoming)
    ensures Shows(SetResult(b.incoming, x, f, status, error), x, f, status)
  {
    T.SetResultAt(b.incoming, x, f, status, error);
  }

  // Every entry of the trace's last state is as truthful as over runs.
  ghost predicate Truthful(b: Board) {
    && |b.incoming| <= MAX_LISTED
    && forall i :: 0 <= i < |b.incoming| ==>
         && b.incoming[i].transferred <= b.incoming[i].total
         && (b.incoming[i].status == Receiving ==> T.HasTask(b, b.incoming[i]))
         && (b.incoming[i].status == Completed ==> T.HasEntry(b, b.incoming[i]))
  }

  lemma LatestIsTruthful(states: seq<State>, acts: seq<Action>, maxBytes: nat, auto: bool)
    requires Genuine(states, acts, maxBytes, auto)
    ensures Truthful(states[|acts|].board)
  {
    SoundAfter(states, acts, maxBytes, auto);
  }

  lemma TaskEndShows(states: seq<State>, acts: seq<Action>, maxBytes: nat, auto: bool, s: State, a: Action)
    requires Ends(states, acts, maxBytes, auto, s, a) && (a.TaskFails? || a.TaskCompletes?)
    ensures InPhase(s.board, a.task, if a.TaskFails? then Saving else Stored) ==>
              Shows(states[|acts|].board.incoming, s.board.uploads[a.task].session, s.board.uploads[a.task].file.id,
                    if a.TaskFails? then Failed else Completed)
  {
    SoundBefore(states, acts, maxBytes, auto, s, a);
    T.TaskStepIsLocal(s, a);
    TaskEndIn(s.board, a);
  }

  lemma TaskEndIn(b: Board, a: Action)
    requires T.UniqueKeys(b.incoming) && (a.TaskFails? || a.TaskCompletes?)
    ensures InPhase(b, a.task, if a.TaskFails? then Saving else Stored) ==>
              Shows(TaskStep(b, a).incoming, b.uploads[a.task].session, b.uploads[a.task].file.id,
                    if a.TaskFails? then Failed else Completed)
  {
    if a.task < |b.uploads| {
      var u := b.uploads[a.task];
      if a.TaskFails? {
        ResultShows(b, u.session, u.file.id, Failed, Some(UploadFailed(a.text)));
      } else {
        ResultShows(b, u.session, u.file.id, Completed, None);
      }
    }
  }

  lemma DirectoryShows(states: seq<State>, acts: seq<Action>, maxBytes: nat, auto: bool, s: State, ok: bool)
    requires Ends(states, acts, maxBytes, auto, s, DirectoryReady(ok))
    ensures s.loop.Preparing? ==>
              Shows(states[|acts|].board.incoming, s.loop.session, s.loop.file.id, if ok then Receiving else Failed)
  {
    SoundBefore(states, acts, maxBytes, auto, s, DirectoryReady(ok));
    if s.loop.Preparing? {
      T.SetReceivingAt(s.board.incoming, s.loop.session, s.loop.file.id);
      T.SetResultAt(s.board.incoming, s.loop.session, s.loop.file.id, Failed, Some(NoDestination));
    }
  }

  // A decision task waits only for a request on record.
  lemma WaitingIsRequested(states: seq<State>, acts: seq<Action>, maxBytes: nat, auto: bool, x: SessionId)
    requires Genuine(states, acts, maxBytes, auto)
    ensures x in states[|acts|].consent.waiting ==> x in states[|acts|].consent.requests
  {
    SoundAfter(states, acts, maxBytes, auto);
    var c := states[|acts|].consent;
    if x in c.waiting {
      assert x in c.waiting.Keys + D.InHand(states[|acts|].loop) + D.DecidedIds(c.decisions);
    }
  }

  // ---- Silence ----

  // All activity of the session in the log lies at least the timeout before `now`.
  ghost predicate SilentFor(states: seq<State>, acts: seq<Action>, n: nat, x: SessionId, now: nat)
    requires |states| == |acts| + 1 && n <= |acts|
  {
    forall j :: 0 <= j < n && W.Touches(states[j], acts[j], x) ==>
      now - states[j].live.now >= SESSION_IDLE_TIMEOUT
  }

  lemma FiringMeansSilence(states: seq<State>, acts: seq<Action>, maxBytes: nat, auto: bool, s: State, x: SessionId)
    requires Ends(states, acts, maxBytes, auto, s, WatchFire(x)) && W.Fires(s, WatchFire(x), x)
    ensures SilentFor(states, acts, |acts| - 1, x, s.live.now)
  {
    var k := |acts| - 1;
    TraceIsRun(states, acts, k);
    forall j | 0 <= j < k && W.Touches(states[j], acts[j], x)
      ensures s.live.now - states[j].live.now >= SESSION_IDLE_TIMEOUT
    {
      TraceIsRun(states, acts, j);
      W.FiresOnlyAfterSilence(states[0], acts, j, k, x);
    }
  }
}
