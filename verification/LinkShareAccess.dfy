/** Who may download: the PIN in force and the owner's consent stand behind every grant. */
module LinkShareAccess {
  import opened Wrappers
  import opened LinkShare
  import LinkShareWaiting

  // ---- Every request was admitted by the PIN now in force ----

  // At step j of the run the request was admitted on this share by a check against this PIN.
  ghost predicate AdmittedAt(acts: seq<Action>, q: Request, share: Share, j: nat) {
    && j < |acts| && acts[j].Prepare? && acts[j].request == q.id && acts[j].ip == q.ip
    && At(INITIAL, acts, j).store.Some?
    && var past := At(INITIAL, acts, j).store.value;
       && past.id == share.id && past.pin == share.pin
       && PinReplyTo(past, q.ip, acts[j].supplied) == PinOk
  }

  // The admitting step found automatic acceptance on.
  ghost predicate AutoAt(acts: seq<Action>, j: nat) {
    j < |acts| && At(INITIAL, acts, j).store.Some? && At(INITIAL, acts, j).store.value.autoAccept
  }

  // At step d the owner accepted this very request.
  ghost predicate ApprovedAt(acts: seq<Action>, q: Request, key: string, d: nat) {
    && d < |acts| && acts[d] == Decide(key, true)
    && At(INITIAL, acts, d).store.Some? && key in At(INITIAL, acts, d).store.value.requests
    && At(INITIAL, acts, d).store.value.requests[key].id == q.id
  }

  ghost predicate Justified(acts: seq<Action>, share: Share, key: string)
    requires key in share.requests
  {
    var q := share.requests[key];
    exists j: nat :: AdmittedAt(acts, q, share, j) &&
      (q.status == Accepted ==> AutoAt(acts, j) || exists d: nat :: ApprovedAt(acts, q, key, d))
  }

  ghost predicate HasRequest(s: State, key: string) {
    s.store.Some? && key in s.store.value.requests
  }

  // The request was there before the step, on the same share under the same PIN; at most it was accepted now.
  ghost predicate CarriedOver(s: State, a: Action, t: State, key: string)
    requires HasRequest(t, key)
  {
    && HasRequest(s, key)
    && s.store.value.id == t.store.value.id && s.store.value.pin == t.store.value.pin
    && var q, p := s.store.value.requests[key], t.store.value.requests[key];
       && q.id == p.id && q.ip == p.ip
       && (p.status == q.status || (p.status == Accepted && a == Decide(key, true)))
  }

  // The step itself admitted the request.
  ghost predicate AdmittedNow(s: State, a: Action, t: State, key: string)
    requires HasRequest(t, key)
  {
    && s.store.Some? && s.store.value.id == t.store.value.id && s.store.value.pin == t.store.value.pin
    && var q := t.store.value.requests[key];
       && a.Prepare? && a.request == q.id && a.ip == q.ip
       && PinReplyTo(s.store.value, q.ip, a.supplied) == PinOk
       && (q.status == Accepted ==> s.store.value.autoAccept)
  }

  lemma RequestsAfterStep(s: State, a: Action, key: string)
    requires HasRequest(Next(s, a), key)
    ensures CarriedOver(s, a, Next(s, a), key) || AdmittedNow(s, a, Next(s, a), key)
  {
    match a
    case Prepare(r, ip, supplied) => RequestsAfterPrepare(s, r, ip, supplied, key);
    case ClearOwn(r) => RequestsAfterClearing(s, r, key);
    case Start(_, _, _, _) =>
    case Update(_, _) =>
    case Decide(_, _) =>
    case _ =>
  }

  lemma RequestsAfterPrepare(s: State, r: RequestId, ip: Ip, supplied: Option<string>, key: string)
    requires HasRequest(Next(s, Prepare(r, ip, supplied)), key)
    ensures var a := Prepare(r, ip, supplied);
            CarriedOver(s, a, Next(s, a), key) || AdmittedNow(s, a, Next(s, a), key)
  {
  }

  lemma RequestsAfterClearing(s: State, r: RequestId, key: string)
    requires HasRequest(Next(s, ClearOwn(r)), key)
    ensures CarriedOver(s, ClearOwn(r), Next(s, ClearOwn(r)), key)
  {
    var t := if r in s.waiters then ClearRequest(s, r, s.waiters[r].ip.text) else s;
    assert Next(s, ClearOwn(r)).store == s.store || Next(s, ClearOwn(r)).store == t.store;
  }

  lemma OldStepsRemain(acts: seq<Action>, a: Action, q: Request, p: Request, share: Share, next: Share, key: string)
    requires share.id == next.id && share.pin == next.pin && p.id == q.id && p.ip == q.ip
    ensures forall j: nat :: AdmittedAt(acts, q, share, j) ==> AdmittedAt(acts + [a], p, next, j)
    ensures forall j: nat :: AutoAt(acts, j) ==> AutoAt(acts + [a], j)
    ensures forall d: nat :: ApprovedAt(acts, q, key, d) ==> ApprovedAt(acts + [a], p, key, d)
  {
    RunAppend(INITIAL, acts, a);
  }

  lemma CarriedOverIsJustified(acts: seq<Action>, a: Action, t: State, key: string)
    requires t == Run(INITIAL, acts + [a]) && HasRequest(t, key)
    requires CarriedOver(Run(INITIAL, acts), a, t, key)
    requires Justified(acts, Run(INITIAL, acts).store.value, key)
    ensures Justified(acts + [a], t.store.value, key)
  {
    var share, next := Run(INITIAL, acts).store.value, t.store.value;
    var q, p := share.requests[key], next.requests[key];
    OldStepsRemain(acts, a, q, p, share, next, key);
    var j: nat :| AdmittedAt(acts, q, share, j) &&
      (q.status == Accepted ==> AutoAt(acts, j) || exists d: nat :: ApprovedAt(acts, q, key, d));
    if p.status == Accepted && q.status != Accepted {
      ApprovalIsOnRecord(acts, a, p, key);
    } else if p.status == Accepted && !AutoAt(acts, j) {
      var d: nat :| ApprovedAt(acts, q, key, d);
      assert ApprovedAt(acts + [a], p, key, d);
    }
    assert AdmittedAt(acts + [a], p, next, j);
  }

  lemma ApprovalIsOnRecord(acts: seq<Action>, a: Action, q: Request, key: string)
    requires a == Decide(key, true) && HasRequest(Run(INITIAL, acts), key)
    requires Run(INITIAL, acts).store.value.requests[key].id == q.id
    ensures ApprovedAt(acts + [a], q, key, |acts|)
  {
    assert (acts + [a])[..|acts|] == acts;
  }

  lemma AdmissionIsJustified(acts: seq<Action>, a: Action, t: State, key: string)
    requires HasRequest(t, key) && AdmittedNow(Run(INITIAL, acts), a, t, key)
    ensures Justified(acts + [a], t.store.value, key)
  {
    assert (acts + [a])[..|acts|] == acts;
    assert AdmittedAt(acts + [a], t.store.value.requests[key], t.store.value, |acts|);
    assert t.store.value.requests[key].status == Accepted ==> AutoAt(acts + [a], |acts|);
  }

  lemma {:induction false} RunIsJustified(acts: seq<Action>, key: string)
    requires HasRequest(Run(INITIAL, acts), key)
    ensures Justified(acts, Run(INITIAL, acts).store.value, key)
  {
    if acts != [] {
      var before, a := acts[..|acts| - 1], acts[|acts| - 1];
      assert acts == before + [a];
      var s, t := Run(INITIAL, before), Run(INITIAL, acts);
      RequestsAfterStep(s, a, key);
      if CarriedOver(s, a, t, key) {
        RunIsJustified(before, key);
        CarriedOverIsJustified(before, a, t, key);
      } else {
        AdmissionIsJustified(before, a, t, key);
      }
    }
  }

  // The share's contents go out only to the address of an accepted request of the active share; that request
  // passed this share's PIN check under the PIN still in force, and was accepted automatically or by the owner.
  lemma GrantsAreJustified(acts: seq<Action>, a: Action)
    requires Grants(Run(INITIAL, acts), a).Some?
    ensures var s := Run(INITIAL, acts);
            var key := Grants(s, a).value;
            && HasRequest(s, key)
            && s.store.value.requests[key].status == Accepted
            && Served(s, a) == Some(s.store.value.requests[key].ip)
            && Justified(acts, s.store.value, key)
  {
    RunIsJustified(acts, Grants(Run(INITIAL, acts), a).value);
  }

  // ---- PIN attempts ----

  predicate HasPin(s: State) {
    s.store.Some? && s.store.value.pin.Some?
  }

  // The step begins a new share or a new PIN.
  predicate NewEpoch(s: State, a: Action) {
    var t := Next(s, a);
    || t.store.None? || s.store.None?
    || t.store.value.id != s.store.value.id || t.store.value.pin != s.store.value.pin
  }

  // The reply of the PIN check, if the step makes one.
  function Reply(s: State, a: Action, ip: Ip): Option<PinReply> {
    if a.Prepare? && a.ip == ip && s.store.Some? && a.request !in s.waiters
    then Some(PinReplyTo(s.store.value, ip, a.supplied)) else None
  }

  // Invalid-PIN replies to the address since its last success in the present epoch.
  function Failures(acts: seq<Action>, ip: Ip): nat {
    if acts == [] then 0
    else
      var before, a := acts[..|acts| - 1], acts[|acts| - 1];
      var s := Run(INITIAL, before);
      if NewEpoch(s, a) then 0
      else
        match Reply(s, a, ip)
        case Some(PinOk) => 0
        case Some(PinInvalid) => Failures(before, ip) + 1
        case _ => Failures(before, ip)
  }

  // What the counter must be after the step.
  ghost predicate Counts(s: State, a: Action, ip: Ip) {
    Next(s, a).store.Some? ==>
      Attempts(Next(s, a).store.value, ip) ==
      if NewEpoch(s, a) then 0
      else match Reply(s, a, ip)
           case Some(PinOk) => 0
           case Some(PinInvalid) => Attempts(s.store.value, ip) + 1
           case _ => Attempts(s.store.value, ip)
  }

  lemma AttemptsByStep(s: State, a: Action, ip: Ip)
    requires s.store.Some? ==> s.store.value.id in s.started
    requires s.store.Some? && s.store.value.pin == None ==> Attempts(s.store.value, ip) == 0
    ensures Counts(s, a, ip)
  {
    match a
    case Prepare(r, other, supplied) => AttemptsByPrepare(s, r, other, supplied, ip);
    case Start(id, files, autoAccept, pinText) => AttemptsByStart(s, id, files, autoAccept, pinText, ip);
    case Update(autoAccept, pinText) => AttemptsByUpdate(s, autoAccept, pinText, ip);
    case Stop(_) =>
    case RejectDetached(_) =>
    case Lookup(_, _) =>
    case Download(_, _, _) =>
    case _ => RequestsAloneChange(s, a);
  }

  lemma AttemptsByStart(s: State, id: ShareId, files: set<FileId>, autoAccept: bool, pinText: string, ip: Ip)
    requires s.store.Some? ==> s.store.value.id in s.started
    ensures Counts(s, Start(id, files, autoAccept, pinText), ip)
  {
  }

  lemma AttemptsByUpdate(s: State, autoAccept: bool, pinText: string, ip: Ip)
    ensures Counts(s, Update(autoAccept, pinText), ip)
  {
  }

  // These steps leave share, PIN and attempts alone.
  lemma RequestsAloneChange(s: State, a: Action)
    requires a.ClearOwn? || a.Resume? || a.Check? || a.Disconnect? || a.Decide?
    ensures s.store.Some? <==> Next(s, a).store.Some?
    ensures s.store.Some? ==>
              && Next(s, a).store.value.id == s.store.value.id && Next(s, a).store.value.pin == s.store.value.pin
              && Next(s, a).store.value.attempts == s.store.value.attempts
  {
  }

  lemma AttemptsByPrepare(s: State, r: RequestId, other: Ip, supplied: Option<string>, ip: Ip)
    requires s.store.Some? && s.store.value.pin == None ==> Attempts(s.store.value, ip) == 0
    ensures Counts(s, Prepare(r, other, supplied), ip)
  {
  }

  lemma {:induction false} AttemptsCountFailures(acts: seq<Action>, ip: Ip)
    requires Run(INITIAL, acts).store.Some?
    ensures Attempts(Run(INITIAL, acts).store.value, ip) == Failures(acts, ip) <= MAX_PIN_ATTEMPTS
    ensures !HasPin(Run(INITIAL, acts)) ==> Failures(acts, ip) == 0
  {
    if acts != [] {
      var before, a := acts[..|acts| - 1], acts[|acts| - 1];
      var s := Run(INITIAL, before);
      LinkShareWaiting.RunKeepsInv(before);
      if s.store.Some? {
        AttemptsCountFailures(before, ip);
      }
      AttemptsByStep(s, a, ip);
    }
  }

  // An address gets at most ten Invalid-PIN replies between successes; after the tenth every check of it fails,
  // right PIN or not, until the share or the PIN changes.  Before that the PIN alone decides, and what other
  // addresses do never matters.
  lemma PinCheckIsLimited(acts: seq<Action>, a: Action, ip: Ip)
    requires HasPin(Run(INITIAL, acts)) && Reply(Run(INITIAL, acts), a, ip).Some?
    ensures Failures(acts, ip) <= MAX_PIN_ATTEMPTS
    ensures Reply(Run(INITIAL, acts), a, ip).value ==
            if Failures(acts, ip) == MAX_PIN_ATTEMPTS then PinLocked
            else if a.supplied == Run(INITIAL, acts).store.value.pin then PinOk else PinInvalid
  {
    AttemptsCountFailures(acts, ip);
  }

  ghost predicate SameEpoch(acts: seq<Action>, n: nat) {
    n <= |acts| && forall k :: n <= k < |acts| ==> !NewEpoch(Run(INITIAL, acts[..k]), acts[k])
  }

  lemma {:induction false} LockStays(acts: seq<Action>, n: nat, ip: Ip)
    requires SameEpoch(acts, n) && Failures(acts[..n], ip) == MAX_PIN_ATTEMPTS && HasPin(Run(INITIAL, acts[..n]))
    ensures Failures(acts, ip) == MAX_PIN_ATTEMPTS && HasPin(Run(INITIAL, acts))
    decreases |acts|
  {
    if n == |acts| {
      assert acts[..n] == acts;
    } else {
      var before, a := acts[..|acts| - 1], acts[|acts| - 1];
      assert before[..n] == acts[..n];
      assert forall k :: n <= k < |before| ==> before[..k] == acts[..k];
      LockStays(before, n, ip);
      assert !NewEpoch(Run(INITIAL, before), a);
      if Reply(Run(INITIAL, before), a, ip).Some? {
        PinCheckIsLimited(before, a, ip);
      }
    }
  }

  // Once an address has had its ten Invalid-PIN replies, every later check of it is locked out, whatever anyone
  // does, until a new share or a new PIN begins.
  lemma LockedOutForGood(acts: seq<Action>, n: nat, a: Action, ip: Ip)
    requires SameEpoch(acts, n) && Failures(acts[..n], ip) == MAX_PIN_ATTEMPTS && HasPin(Run(INITIAL, acts[..n]))
    requires Reply(Run(INITIAL, acts), a, ip).Some?
    ensures Reply(Run(INITIAL, acts), a, ip) == Some(PinLocked)
  {
    LockStays(acts, n, ip);
    PinCheckIsLimited(acts, a, ip);
  }
}
