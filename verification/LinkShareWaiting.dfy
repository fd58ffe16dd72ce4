/** No waiting download handler is ever lost, and no clean-up touches another handler's request. */
module LinkShareWaiting {
  import opened Wrappers
  import opened LinkShare

  ghost predicate RequestInv(share: Share, key: string, ws: Waiters)
    requires key in share.requests
  {
    var q := share.requests[key];
    && q.ip.text == key
    && (q.status == Pending <==> q.sender)
    && q.id in ws && ws[q.id].share == share.id && ws[q.id].ip == q.ip
    && (q.sender ==> ws[q.id].stage == Waiting(Open) || ws[q.id].stage.Dropped?)
  }

  ghost predicate ShareInv(share: Share, ws: Waiters) {
    forall k :: k in share.requests ==> RequestInv(share, k, ws)
  }

  ghost predicate HoldsSender(share: Share, r: RequestId, key: string) {
    key in share.requests && share.requests[key].id == r && share.requests[key].sender
  }

  // The handler's sender is in the current share, or in one just detached and about to be told.
  ghost predicate Registered(s: State, r: RequestId)
    requires r in s.waiters
  {
    var w := s.waiters[r];
    || (s.store.Some? && s.store.value.id == w.share && HoldsSender(s.store.value, r, w.ip.text))
    || (w.share in s.detached && HoldsSender(s.detached[w.share], r, w.ip.text))
  }

  ghost predicate SharesInv(s: State) {
    && (s.store.Some? ==>
          && ShareInv(s.store.value, s.waiters)
          && s.store.value.id in s.started && s.store.value.id !in s.detached)
    && (forall d :: d in s.detached ==>
          d in s.started && s.detached[d].id == d && ShareInv(s.detached[d], s.waiters))
  }

  ghost predicate WaitersInv(s: State) {
    && (forall r :: Listening(s.waiters, r) ==> Registered(s, r))
    && (forall r :: r in s.waiters ==> s.waiters[r].stage != Waiting(Hung))
  }

  ghost predicate Inv(s: State) {
    SharesInv(s) && WaitersInv(s)
  }

  // Two requests never share a handler.
  lemma SenderIsUnique(share: Share, ws: Waiters, key: string, r: RequestId)
    requires ShareInv(share, ws) && key in share.requests && share.requests[key].id == r
    ensures r in ws && key == ws[r].ip.text && ws[r].share == share.id
  {
    assert RequestInv(share, key, ws);
  }

  lemma DetachKeepsInv(s: State)
    requires Inv(s)
    ensures Inv(Detach(s)) && Detach(s).store == None && Detach(s).started == s.started
    ensures Detach(s).detached.Keys <= s.started
  {
    var t := Detach(s);
    assert forall d :: d in t.detached ==> d in s.started;
    forall r | Listening(t.waiters, r)
      ensures Registered(t, r)
    {
      assert Registered(s, r);
    }
  }

  lemma StartKeepsInv(s: State, id: ShareId, files: set<FileId>, autoAccept: bool, pinText: string)
    requires Inv(s) && id !in s.started
    ensures Inv(StartStep(s, id, files, autoAccept, pinText))
  {
    DetachKeepsInv(s);
    var d, t := Detach(s), StartStep(s, id, files, autoAccept, pinText);
    forall r | Listening(t.waiters, r)
      ensures Registered(t, r)
    {
      assert Registered(d, r);
    }
  }

  // Telling every sender of a share leaves the other shares and their handlers alone.
  lemma TellAllKeeps(share: Share, ws: Waiters, other: Share)
    requires ShareInv(share, ws) && ShareInv(other, ws) && share.id != other.id
    ensures ShareInv(other, TellAll(ws, Senders(share.requests)))
  {
    var us := TellAll(ws, Senders(share.requests));
    forall k | k in other.requests
      ensures RequestInv(other, k, us)
    {
      assert RequestInv(other, k, ws);
      var r := other.requests[k].id;
      forall j | j in share.requests
        ensures share.requests[j].id != r
      {
        assert RequestInv(share, j, ws);
      }
    }
  }

  lemma StillListening(s: State, share: Share, r: RequestId)
    requires ShareInv(share, s.waiters) && Listening(TellAll(s.waiters, Senders(share.requests)), r)
    ensures Listening(s.waiters, r) && !HoldsSender(share, r, s.waiters[r].ip.text)
  {
    assert r !in Senders(share.requests);
  }

  lemma RejectKeepsInv(s: State, id: ShareId)
    requires Inv(s) && id in s.detached
    ensures Inv(Next(s, RejectDetached(id)))
  {
    var t := Next(s, RejectDetached(id));
    var share := s.detached[id];
    if s.store.Some? {
      TellAllKeeps(share, s.waiters, s.store.value);
    }
    forall d | d in t.detached
      ensures ShareInv(t.detached[d], t.waiters)
    {
      TellAllKeeps(share, s.waiters, s.detached[d]);
    }
    forall r | Listening(t.waiters, r)
      ensures Registered(t, r)
    {
      StillListening(s, share, r);
      assert Registered(s, r);
    }
  }

  lemma UpdateKeepsInv(s: State, autoAccept: bool, pin: Option<string>)
    requires Inv(s) && s.store.Some?
    ensures Inv(UpdateStep(s, s.store.value, autoAccept, pin))
  {
    var share := s.store.value;
    var t := UpdateStep(s, share, autoAccept, pin);
    if share.pin != pin {
      forall d | d in t.detached
        ensures ShareInv(t.detached[d], t.waiters)
      {
        TellAllKeeps(share, s.waiters, s.detached[d]);
      }
      forall r | Listening(t.waiters, r)
        ensures Registered(t, r)
      {
        StillListening(s, share, r);
        assert Registered(s, r);
      }
    } else {
      forall k | k in share.requests
        ensures RequestInv(t.store.value, k, t.waiters)
      {
        assert RequestInv(share, k, s.waiters);
      }
      forall r | Listening(t.waiters, r)
        ensures Registered(t, r)
      {
        assert Registered(s, r);
      }
    }
  }

  // Taking one request out of the store, with its sender used: everything else is as before.
  lemma TakeOutKeepsInv(s: State, key: string, answer: Answer)
    requires Inv(s) && s.store.Some? && key in s.store.value.requests
    requires answer != Hung || !Listening(s.waiters, s.store.value.requests[key].id)
    ensures var share := s.store.value;
            var q := share.requests[key];
            Inv(s.(store := Some(share.(requests := share.requests - {key})),
                   waiters := if q.sender then Tell(s.waiters, q.id, answer) else s.waiters))
    requires answer != Open
  {
    var share := s.store.value;
    var q := share.requests[key];
    var t := s.(store := Some(share.(requests := share.requests - {key})),
                waiters := if q.sender then Tell(s.waiters, q.id, answer) else s.waiters);
    assert RequestInv(share, key, s.waiters);
    forall k | k in t.store.value.requests
      ensures RequestInv(t.store.value, k, t.waiters)
    {
      assert RequestInv(share, k, s.waiters);
    }
    forall d, k | d in t.detached && k in t.detached[d].requests
      ensures RequestInv(t.detached[d], k, t.waiters)
    {
      assert RequestInv(s.detached[d], k, s.waiters);
    }
    forall r | Listening(t.waiters, r)
      ensures Registered(t, r)
    {
      assert Registered(s, r);
    }
  }

  lemma DecideKeepsInv(s: State, key: string, accepted: bool)
    requires Inv(s) && s.store.Some? && key in s.store.value.requests
    ensures Inv(DecideStep(s, s.store.value, key, accepted))
  {
    var share := s.store.value;
    var q := share.requests[key];
    TakeOutKeepsInv(s, key, Told(accepted));
    if accepted {
      var out := share.(requests := share.requests - {key});
      var t := DecideStep(s, share, key, true);
      assert RequestInv(share, key, s.waiters);
      forall k | k in t.store.value.requests
        ensures RequestInv(t.store.value, k, t.waiters)
      {
        if k != key {
          assert RequestInv(out, k, t.waiters);
        }
      }
      forall r | Listening(t.waiters, r)
        ensures Registered(t, r)
      {
        assert Registered(s.(store := Some(out), waiters := t.waiters), r);
      }
    }
  }

  // Only the attempts differ, which the invariant does not look at.
  lemma AttemptsDoNotMatter(s: State, share: Share)
    requires Inv(s) && s.store.Some? && share.(attempts := s.store.value.attempts) == s.store.value
    ensures Inv(s.(store := Some(share)))
  {
    var t := s.(store := Some(share));
    forall k | k in share.requests
      ensures RequestInv(share, k, t.waiters)
    {
      assert RequestInv(s.store.value, k, s.waiters);
    }
    forall r | Listening(t.waiters, r)
      ensures Registered(t, r)
    {
      assert Registered(s, r);
    }
  }

  lemma InsertKeepsInv(s: State, r: RequestId, ip: Ip)
    requires Inv(s) && s.store.Some? && r !in s.waiters && ip.text !in s.store.value.requests
    ensures Inv(Admit(s, s.store.value, r, ip))
  {
    var share := s.store.value;
    var t := Admit(s, share, r, ip);
    forall k | k in t.store.value.requests
      ensures RequestInv(t.store.value, k, t.waiters)
    {
      if k != ip.text {
        assert RequestInv(share, k, s.waiters);
      }
    }
    forall d, k | d in t.detached && k in t.detached[d].requests
      ensures RequestInv(t.detached[d], k, t.waiters)
    {
      assert RequestInv(s.detached[d], k, s.waiters);
    }
    forall p | Listening(t.waiters, p)
      ensures Registered(t, p)
    {
      if p != r {
        assert Registered(s, p);
      }
    }
  }

  lemma AdmitKeepsInv(s: State, r: RequestId, ip: Ip)
    requires Inv(s) && s.store.Some? && r !in s.waiters
    ensures Inv(Admit(s, s.store.value, r, ip))
  {
    var share := s.store.value;
    if ip.text in share.requests {
      var q := share.requests[ip.text];
      TakeOutKeepsInv(s, ip.text, Told(false));
      var without := share.(requests := share.requests - {ip.text});
      var ws := if q.sender then Tell(s.waiters, q.id, Told(false)) else s.waiters;
      var u := s.(store := Some(without), waiters := ws);
      InsertKeepsInv(u, r, ip);
      var next := Request(r, ip, if share.autoAccept then Accepted else Pending, !share.autoAccept);
      assert without.requests[ip.text := next] == share.requests[ip.text := next];
    } else {
      InsertKeepsInv(s, r, ip);
    }
  }

  // A handler that moves on without an answer may only be dropped; otherwise it disturbs no one.
  lemma MoveOnKeepsInv(s: State, r: RequestId, stage: Stage)
    requires Inv(s) && r in s.waiters && !stage.Waiting?
    requires s.waiters[r].stage == Waiting(Open) || s.waiters[r].stage.Dropped? ==> stage.Dropped?
    ensures Inv(SetStage(s, r, stage))
  {
    var t := SetStage(s, r, stage);
    if s.store.Some? {
      forall k | k in s.store.value.requests
        ensures RequestInv(s.store.value, k, t.waiters)
      {
        assert RequestInv(s.store.value, k, s.waiters);
      }
    }
    forall d, k | d in s.detached && k in s.detached[d].requests
      ensures RequestInv(s.detached[d], k, t.waiters)
    {
      assert RequestInv(s.detached[d], k, s.waiters);
    }
    forall p | Listening(t.waiters, p)
      ensures Registered(t, p)
    {
      assert Registered(s, p);
    }
  }

  lemma ClearKeepsInv(s: State, r: RequestId, key: string)
    requires Inv(s) && !Listening(s.waiters, r)
    ensures Inv(ClearRequest(s, r, key)) && ClearRequest(s, r, key).waiters == s.waiters
  {
    if s.store.Some? && key in s.store.value.requests {
      TakeOutKeepsInv(s, key, if s.store.value.requests[key].id == r then Hung else Told(false));
    }
  }

  lemma HandlerStepKeepsInv(s: State, a: Action)
    requires Inv(s)
    requires a.Resume? || a.ClearOwn? || a.Check? || a.Disconnect?
    ensures Inv(Next(s, a))
  {
    var r := a.request;
    if r in s.waiters {
      var stage := s.waiters[r].stage;
      match a
      case Resume(_) =>
        if stage.Waiting? && stage.answer.Told? {
          MoveOnKeepsInv(s, r, if stage.answer.accepted then Checking else Clearing);
        }
      case ClearOwn(_) =>
        if stage == Clearing || stage == Dropped(true) {
          ClearKeepsInv(s, r, s.waiters[r].ip.text);
          MoveOnKeepsInv(ClearRequest(s, r, s.waiters[r].ip.text), r,
                         if stage == Clearing then Finished(false) else Dropped(false));
        }
      case Check(_) =>
        if stage == Checking { MoveOnKeepsInv(s, r, Finished(Admitted(s, s.waiters[r].ip, s.waiters[r].ip.text))); }
      case Disconnect(_) =>
        if stage.Waiting? { MoveOnKeepsInv(s, r, Dropped(true)); } else { MoveOnKeepsInv(s, r, Dropped(false)); }
    }
  }

  lemma ShareStepKeepsInv(s: State, a: Action)
    requires Inv(s) && (a.Start? || a.Stop? || a.RejectDetached?)
    ensures Inv(Next(s, a))
  {
    match a
    case Start(id, files, autoAccept, pinText) =>
      if id !in s.started { StartKeepsInv(s, id, files, autoAccept, pinText); }
    case Stop(id) => DetachKeepsInv(s);
    case RejectDetached(id) => if id in s.detached { RejectKeepsInv(s, id); }
  }

  lemma RequestStepKeepsInv(s: State, a: Action)
    requires Inv(s) && (a.Decide? || a.Prepare?)
    ensures Inv(Next(s, a))
  {
    match a
    case Decide(key, accepted) =>
      if s.store.Some? && key in s.store.value.requests { DecideKeepsInv(s, key, accepted); }
    case Prepare(r, ip, supplied) =>
      if s.store.Some? && r !in s.waiters { PrepareKeepsInv(s, s.store.value, r, ip, supplied); }
  }

  lemma StepKeepsInv(s: State, a: Action)
    requires Inv(s)
    ensures Inv(Next(s, a))
  {
    match a
    case Start(_, _, _, _) => ShareStepKeepsInv(s, a);
    case Update(autoAccept, pinText) =>
      UpdateIsStep(s, autoAccept, pinText);
      if s.store.Some? { UpdateKeepsInv(s, autoAccept, NormalizePin(pinText)); }
    case Stop(_) => ShareStepKeepsInv(s, a);
    case RejectDetached(_) => ShareStepKeepsInv(s, a);
    case Decide(_, _) => RequestStepKeepsInv(s, a);
    case Prepare(_, _, _) => RequestStepKeepsInv(s, a);
    case Lookup(_, _) =>
    case Download(_, _, _) =>
    case _ => HandlerStepKeepsInv(s, a);
  }

  lemma PrepareKeepsInv(s: State, share: Share, r: RequestId, ip: Ip, supplied: Option<string>)
    requires Inv(s) && s.store == Some(share) && r !in s.waiters
    ensures Inv(PrepareStep(s, share, r, ip, supplied))
  {
    var checked := AfterPin(share, ip, supplied);
    AttemptsDoNotMatter(s, checked);
    if PinReplyTo(share, ip, supplied) == PinOk {
      AdmitKeepsInv(s.(store := Some(checked)), r, ip);
      SameAdmission(s, checked, r, ip);
    }
  }

  // Admitting takes nothing from the store but the share.
  lemma SameAdmission(s: State, share: Share, r: RequestId, ip: Ip)
    ensures Admit(s, share, r, ip) == Admit(s.(store := Some(share)), share, r, ip)
  {
  }

  lemma {:induction false} RunKeepsInv(acts: seq<Action>)
    ensures Inv(Run(INITIAL, acts))
  {
    if acts != [] {
      RunKeepsInv(acts[..|acts| - 1]);
      StepKeepsInv(Run(INITIAL, acts[..|acts| - 1]), acts[|acts| - 1]);
    }
  }

  // A request is Pending exactly while it holds its decision sender, and is filed under its own address.
  lemma PendingHoldsSender(acts: seq<Action>, key: string)
    requires Run(INITIAL, acts).store.Some? && key in Run(INITIAL, acts).store.value.requests
    ensures var q := Run(INITIAL, acts).store.value.requests[key];
            (q.status == Pending <==> q.sender) && q.ip.text == key
  {
    RunKeepsInv(acts);
    assert RequestInv(Run(INITIAL, acts).store.value, key, Run(INITIAL, acts).waiters);
  }

  ghost predicate Answers(s: State, r: RequestId, accepted: bool) {
    r in s.waiters && s.waiters[r].stage == Waiting(Told(accepted))
  }

  lemma DecisionReaches(s: State, r: RequestId, accepted: bool)
    requires s.store.Some? && Listening(s.waiters, r) && HoldsSender(s.store.value, r, s.waiters[r].ip.text)
    ensures Answers(Next(s, Decide(s.waiters[r].ip.text, accepted)), r, accepted)
  {
  }

  lemma RejectionReaches(s: State, id: ShareId, r: RequestId)
    requires id in s.detached && Listening(s.waiters, r) && HoldsSender(s.detached[id], r, s.waiters[r].ip.text)
    ensures Answers(Next(s, RejectDetached(id)), r, false)
  {
    assert r in Senders(s.detached[id].requests);
  }

  ghost predicate CurrentlyAsked(s: State, r: RequestId, accepted: bool)
    requires r in s.waiters
  {
    var key := s.waiters[r].ip.text;
    s.store.Some? && HoldsSender(s.store.value, r, key) && Answers(Next(s, Decide(key, accepted)), r, accepted)
  }

  ghost predicate AboutToBeRejected(s: State, r: RequestId)
    requires r in s.waiters
  {
    var id := s.waiters[r].share;
    && id in s.detached && HoldsSender(s.detached[id], r, s.waiters[r].ip.text)
    && Answers(Next(s, RejectDetached(id)), r, false)
  }

  ghost predicate Reached(s: State, r: RequestId, accepted: bool)
    requires r in s.waiters
  {
    s.waiters[r].stage.Waiting? ==>
      s.waiters[r].stage.answer.Told? || CurrentlyAsked(s, r, accepted) || AboutToBeRejected(s, r)
  }

  lemma WaitingIsReached(s: State, r: RequestId, accepted: bool)
    requires Inv(s) && r in s.waiters
    ensures Reached(s, r, accepted)
  {
    if Listening(s.waiters, r) {
      assert Registered(s, r);
      if s.store.Some? && HoldsSender(s.store.value, r, s.waiters[r].ip.text) {
        DecisionReaches(s, r, accepted);
      } else {
        RejectionReaches(s, s.waiters[r].share, r);
      }
    }
  }

  // A handler still waiting for its answer is registered under its own request id, in the current share or in
  // one just detached; the pending decision, or the rejection of the detached share, reaches it.
  lemma WaitingIsReachable(acts: seq<Action>, r: RequestId, accepted: bool)
    requires r in Run(INITIAL, acts).waiters
    ensures Reached(Run(INITIAL, acts), r, accepted)
  {
    RunKeepsInv(acts);
    WaitingIsReached(Run(INITIAL, acts), r, accepted);
  }

  // A clean-up removes at most its own undecided request.
  lemma ClearSparesSuccessors(acts: seq<Action>, r: RequestId, key: string)
    requires Run(INITIAL, acts).store.Some? && key in Run(INITIAL, acts).store.value.requests
    ensures var s := Run(INITIAL, acts);
            var t := Next(s, ClearOwn(r));
            && t.store.Some?
            && (key in t.store.value.requests ==> t.store.value.requests[key] == s.store.value.requests[key])
            && (key !in t.store.value.requests ==>
                  s.store.value.requests[key].id == r && s.store.value.requests[key].status == Pending)
            && (forall p :: Listening(s.waiters, p) ==> Listening(t.waiters, p))
  {
    RunKeepsInv(acts);
    var s := Run(INITIAL, acts);
    if r in s.waiters && !Listening(s.waiters, r) {
      ClearKeepsInv(s, r, s.waiters[r].ip.text);
    }
  }

  // ---- Abandoned requests ----

  ghost predicate Attended(ws: Waiters, r: RequestId) {
    r in ws && ws[r].stage != Dropped(false)
  }

  // A pending request of the current share whose handler is gone still has its clean-up task to come.
  ghost predicate CleanUpDue(s: State) {
    s.store.Some? ==>
      forall k :: k in s.store.value.requests && s.store.value.requests[k].sender ==>
        Attended(s.waiters, s.store.value.requests[k].id)
  }

  lemma AttendedAfterTelling(ws: Waiters, r: RequestId, answer: Answer, rs: set<RequestId>)
    ensures forall p :: Attended(ws, p) ==> Attended(Tell(ws, r, answer), p) && Attended(TellAll(ws, rs), p)
  {
  }

  lemma HandlerStepKeepsCleanUp(s: State, a: Action)
    requires Inv(s) && CleanUpDue(s)
    requires a.Resume? || a.ClearOwn? || a.Check? || a.Disconnect?
    ensures CleanUpDue(Next(s, a))
  {
    var r := a.request;
    if r in s.waiters && s.store.Some? {
      forall k | k in s.store.value.requests && s.store.value.requests[k].id == r
        ensures RequestInv(s.store.value, k, s.waiters) && k == s.waiters[r].ip.text
      {
        SenderIsUnique(s.store.value, s.waiters, k, r);
      }
      if !Listening(s.waiters, r) {
        ClearKeepsInv(s, r, s.waiters[r].ip.text);
      }
    }
  }

  lemma UpdateKeepsCleanUp(s: State, autoAccept: bool, pinText: string)
    requires CleanUpDue(s)
    ensures CleanUpDue(Next(s, Update(autoAccept, pinText)))
  {
    UpdateIsStep(s, autoAccept, pinText);
    if s.store.Some? {
      SettingsKeepCleanUp(s, s.store.value, autoAccept, NormalizePin(pinText));
    }
  }

  lemma SettingsKeepCleanUp(s: State, share: Share, autoAccept: bool, pin: Option<string>)
    requires CleanUpDue(s) && s.store == Some(share)
    ensures CleanUpDue(UpdateStep(s, share, autoAccept, pin))
  {
    AttendedAfterTelling(s.waiters, 0, Hung, Senders(share.requests));
  }

  lemma DecideKeepsCleanUp(s: State, key: string, accepted: bool)
    requires CleanUpDue(s)
    ensures CleanUpDue(Next(s, Decide(key, accepted)))
  {
    if s.store.Some? && key in s.store.value.requests {
      AttendedAfterTelling(s.waiters, s.store.value.requests[key].id, Told(accepted), {});
    }
  }

  lemma PrepareKeepsCleanUp(s: State, r: RequestId, ip: Ip, supplied: Option<string>)
    requires CleanUpDue(s)
    ensures CleanUpDue(Next(s, Prepare(r, ip, supplied)))
  {
    if s.store.Some? && ip.text in s.store.value.requests {
      AttendedAfterTelling(s.waiters, s.store.value.requests[ip.text].id, Told(false), {});
    }
  }

  lemma CleanUpDueByStep(s: State, a: Action)
    requires Inv(s) && CleanUpDue(s)
    ensures CleanUpDue(Next(s, a))
  {
    match a
    case Update(autoAccept, pinText) => UpdateKeepsCleanUp(s, autoAccept, pinText);
    case RejectDetached(id) =>
      if id in s.detached { AttendedAfterTelling(s.waiters, 0, Hung, Senders(s.detached[id].requests)); }
    case Decide(key, accepted) => DecideKeepsCleanUp(s, key, accepted);
    case Prepare(r, ip, supplied) => PrepareKeepsCleanUp(s, r, ip, supplied);
    case Resume(_) => HandlerStepKeepsCleanUp(s, a);
    case ClearOwn(_) => HandlerStepKeepsCleanUp(s, a);
    case Check(_) => HandlerStepKeepsCleanUp(s, a);
    case Disconnect(_) => HandlerStepKeepsCleanUp(s, a);
    case _ =>
  }

  lemma {:induction false} AbandonedRequestsAreCleaned(acts: seq<Action>)
    ensures CleanUpDue(Run(INITIAL, acts))
  {
    if acts != [] {
      var before := acts[..|acts| - 1];
      AbandonedRequestsAreCleaned(before);
      RunKeepsInv(before);
      CleanUpDueByStep(Run(INITIAL, before), acts[|acts| - 1]);
    }
  }
}
