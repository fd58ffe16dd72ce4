/** Every incoming request is decided at most once, and accepted only with consent. */
module IncomingDecisions {
  import opened Wrappers
  import opened Numbers
  import opened Incoming

  // The request the event loop has listed but not yet handed to the user or accepted.
  function InHand(l: Loop): set<SessionId> {
    match l
    case Listed(x) => {x}
    case Registered(x) => {x}
    case _ => {}
  }

  ghost function DecidedIds(ds: seq<Decided>): set<SessionId> {
    set d | d in ds :: d.session
  }

  // Each request is in exactly one place: in the event loop's hands, awaited by a decision task, or decided.
  // The only decision task without an outcome is the one whose sender sits in the pending slot.
  ghost predicate ConsentInv(c: Consent, inHand: set<SessionId>) {
    && c.requests.Keys == c.waiting.Keys + inHand + DecidedIds(c.decisions)
    && c.waiting.Keys !! inHand
    && c.waiting.Keys !! DecidedIds(c.decisions)
    && inHand !! DecidedIds(c.decisions)
    && (forall i, j :: 0 <= i < j < |c.decisions| ==> c.decisions[i].session != c.decisions[j].session)
    && (forall x :: x in c.waiting && c.waiting[x].Open? <==> c.pending == Some(x))
    && (forall d :: d in c.decisions && d.decision.Accept? ==>
          d.session in c.requests && d.decision.ids == Ids(c.requests[d.session]))
  }

  ghost predicate Inv(s: State) {
    ConsentInv(s.consent, InHand(s.loop))
  }

  lemma DecidedIdsAppend(ds: seq<Decided>, d: Decided)
    ensures DecidedIds(ds + [d]) == DecidedIds(ds) + {d.session}
  {
    forall x
      ensures x in DecidedIds(ds + [d]) <==> x in DecidedIds(ds) + {d.session}
    {
      if x in DecidedIds(ds) {
        var e :| e in ds && e.session == x;
        assert e in ds + [d];
      }
      assert d in ds + [d];
    }
  }

  lemma OfferKeepsInv(c: Consent, x: SessionId, files: seq<File>)
    requires ConsentInv(c, {}) && x !in c.requests
    ensures ConsentInv(Offer(c, x, files), {x})
  {
    forall d | d in c.decisions
      ensures d.session in c.requests
    {
      assert d.session in DecidedIds(c.decisions);
    }
  }

  lemma ConcludeKeepsInv(c: Consent, x: SessionId, d: Decision)
    requires ConsentInv(c, {x})
    requires d.Accept? ==> x in c.requests && d.ids == Ids(c.requests[x])
    ensures ConsentInv(Conclude(c, x, d), {})
  {
    DecidedIdsAppend(c.decisions, Decided(x, d));
    forall i | 0 <= i < |c.decisions|
      ensures c.decisions[i].session != x
    {
      assert c.decisions[i].session in DecidedIds(c.decisions);
    }
  }

  lemma ResolveKeepsInv(c: Consent, x: SessionId, inHand: set<SessionId>)
    requires ConsentInv(c, inHand) && x in c.waiting && !c.waiting[x].Open?
    ensures x in c.requests && ConsentInv(ResolveOne(c, x), inHand)
  {
    assert x in c.waiting.Keys + inHand + DecidedIds(c.decisions);
    DecidedIdsAppend(c.decisions, Decided(x, Verdict(c, x)));
    forall i | 0 <= i < |c.decisions|
      ensures c.decisions[i].session != x
    {
      assert c.decisions[i].session in DecidedIds(c.decisions);
    }
    var r := ResolveOne(c, x);
    assert r.waiting.Keys == c.waiting.Keys - {x};
  }

  lemma DropKeepsInv(c: Consent, inHand: set<SessionId>)
    requires ConsentInv(c, inHand)
    ensures ConsentInv(DropPending(c), inHand)
    ensures DropPending(c).pending == None
    ensures DropPending(c).waiting.Keys == c.waiting.Keys
  {
  }

  lemma FillKeepsInv(c: Consent, x: SessionId)
    requires ConsentInv(c, {x})
    ensures ConsentInv(FillSlot(c, x), {})
  {
    DropKeepsInv(c, {x});
    assert FillSlot(c, x).waiting.Keys == c.waiting.Keys + {x};
  }

  lemma TakeKeepsInv(c: Consent, accepted: bool, inHand: set<SessionId>)
    requires ConsentInv(c, inHand)
    ensures ConsentInv(TakeSlot(c, accepted), inHand)
  {
    assert TakeSlot(c, accepted).waiting.Keys == c.waiting.Keys;
  }

  lemma PrepareKeepsInv(s: State, x: SessionId, files: seq<File>)
    requires Inv(s) && PrepareEnabled(s, x, files)
    ensures Inv(PrepareStep(s, x, files))
  {
    OfferKeepsInv(s.consent, x, files);
    if Oversized(files, s.maxBytes) {
      ConcludeKeepsInv(Offer(s.consent, x, files), x, Decline);
    }
  }

  lemma RegisterKeepsInv(s: State)
    requires Inv(s)
    ensures Inv(Next(s, Register))
  {
    if s.loop.Listed? && s.autoAccept && s.loop.session in s.consent.requests {
      ConcludeKeepsInv(s.consent, s.loop.session, Accept(Ids(s.consent.requests[s.loop.session])));
    }
  }

  predicate IsConsentStep(a: Action) {
    a.Prepare? || a.Register? || a.Pend? || a.UserDecides? || a.Resolve? || a.CheckSlot? || a.WatchClear?
  }

  // All other steps leave the decisions alone.
  lemma OtherStepsAreQuiet(s: State, a: Action)
    requires !IsConsentStep(a)
    ensures Next(s, a).consent == s.consent && InHand(Next(s, a).loop) == InHand(s.loop)
  {
  }

  lemma PendKeepsInv(s: State)
    requires Inv(s)
    ensures Inv(Next(s, Pend))
  {
    if s.loop.Registered? { FillKeepsInv(s.consent, s.loop.session); }
  }

  lemma CheckSlotKeepsInv(s: State)
    requires Inv(s)
    ensures Inv(Next(s, CheckSlot))
  {
    DropKeepsInv(s.consent, InHand(s.loop));
  }

  lemma WatchClearKeepsInv(s: State, x: SessionId)
    requires Inv(s)
    ensures Inv(Next(s, WatchClear(x)))
  {
    DropKeepsInv(s.consent, InHand(s.loop));
  }

  lemma ResolveStepKeepsInv(s: State, x: SessionId)
    requires Inv(s)
    ensures Inv(Next(s, Resolve(x)))
  {
    if x in s.consent.waiting && !s.consent.waiting[x].Open? {
      ResolveKeepsInv(s.consent, x, InHand(s.loop));
    }
  }

  lemma StepKeepsInv(s: State, a: Action)
    requires Inv(s)
    ensures Inv(Next(s, a))
  {
    match a
    case Prepare(x, files) => if PrepareEnabled(s, x, files) { PrepareKeepsInv(s, x, files); }
    case Register => RegisterKeepsInv(s);
    case Pend => PendKeepsInv(s);
    case UserDecides(accepted) => TakeKeepsInv(s.consent, accepted, InHand(s.loop));
    case Resolve(x) => ResolveStepKeepsInv(s, x);
    case CheckSlot => CheckSlotKeepsInv(s);
    case WatchClear(x) => WatchClearKeepsInv(s, x);
    case _ => OtherStepsAreQuiet(s, a);
  }

  lemma {:induction false} RunKeepsInv(s: State, acts: seq<Action>)
    requires Inv(s)
    ensures Inv(Run(s, acts))
  {
    if acts != [] {
      RunKeepsInv(s, acts[..|acts| - 1]);
      StepKeepsInv(Run(s, acts[..|acts| - 1]), acts[|acts| - 1]);
    }
  }

  ghost predicate HasDecision(c: Consent, x: SessionId, d: Decision) {
    Decided(x, d) in c.decisions
  }

  ghost predicate Undecided(s: State, x: SessionId) {
    x in s.consent.requests && x !in DecidedIds(s.consent.decisions)
  }

  // Over every run, no request is decided twice.
  lemma AtMostOneDecision(maxBytes: nat, auto: bool, acts: seq<Action>, i: nat, j: nat)
    requires i < j < |Run(Initial(maxBytes, auto), acts).consent.decisions|
    ensures var ds := Run(Initial(maxBytes, auto), acts).consent.decisions;
            ds[i].session != ds[j].session
  {
    RunKeepsInv(Initial(maxBytes, auto), acts);
  }

  // An undecided request either sits in the pending slot, or the event loop still holds it, or its decision
  // task can decide it at once.  So with the loop and the decision tasks at rest it is the one in the slot.
  lemma UndecidedIsPending(maxBytes: nat, auto: bool, acts: seq<Action>, x: SessionId)
    ensures var s := Run(Initial(maxBytes, auto), acts);
            && (s.consent.pending == Some(x) ==> Undecided(s, x))
            && (Undecided(s, x) && s.consent.pending != Some(x) ==>
                  x in InHand(s.loop) || x in DecidedIds(Next(s, Resolve(x)).consent.decisions))
  {
    RunKeepsInv(Initial(maxBytes, auto), acts);
    var s := Run(Initial(maxBytes, auto), acts);
    if Undecided(s, x) && s.consent.pending != Some(x) && x !in InHand(s.loop) {
      DecidedIdsAppend(s.consent.decisions, Decided(x, Verdict(s.consent, x)));
    }
  }

  // ---- The fate of a request follows what happened to its slot ----

  // The request can only be declined from here on.
  ghost predicate Doomed(c: Consent, x: SessionId) {
    || HasDecision(c, x, Decline)
    || (x in c.waiting && (c.waiting[x] == Hung || c.waiting[x] == Answered(false)))
  }

  // The request can only be accepted, with all its files, from here on.
  ghost predicate Blessed(c: Consent, x: SessionId) {
    && x in c.requests
    && (|| HasDecision(c, x, Accept(Ids(c.requests[x])))
        || (x in c.waiting && c.waiting[x] == Answered(true)))
  }

  ghost predicate SameFate(c: Consent, d: Consent, x: SessionId) {
    && (Doomed(c, x) ==> Doomed(d, x))
    && (Blessed(c, x) ==> Blessed(d, x))
    && (x in c.requests ==> x in d.requests && d.requests[x] == c.requests[x])
  }

  lemma ConcludeKeepsFate(c: Consent, y: SessionId, d: Decision, x: SessionId)
    ensures SameFate(c, Conclude(c, y, d), x)
  {
    assert forall e :: e in c.decisions ==> e in c.decisions + [Decided(y, d)];
  }

  lemma ResolveKeepsFate(c: Consent, y: SessionId, x: SessionId)
    requires y in c.waiting && y in c.requests && !c.waiting[y].Open?
    ensures SameFate(c, ResolveOne(c, y), x)
  {
    assert forall e :: e in c.decisions ==> e in ResolveOne(c, y).decisions;
    assert Decided(y, Verdict(c, y)) in ResolveOne(c, y).decisions;
  }

  lemma SlotKeepsFate(c: Consent, inHand: set<SessionId>, y: SessionId, accepted: bool, x: SessionId)
    requires ConsentInv(c, inHand)
    ensures SameFate(c, DropPending(c), x)
    ensures SameFate(c, TakeSlot(c, accepted), x)
    ensures y !in c.waiting ==> SameFate(c, FillSlot(c, y), x)
  {
  }

  lemma PrepareKeepsFate(s: State, y: SessionId, files: seq<File>, x: SessionId)
    ensures SameFate(s.consent, Next(s, Prepare(y, files)).consent, x)
  {
    if PrepareEnabled(s, y, files) {
      ConcludeKeepsFate(Offer(s.consent, y, files), y, Decline, x);
    }
  }

  lemma RegisterKeepsFate(s: State, x: SessionId)
    ensures SameFate(s.consent, Next(s, Register).consent, x)
  {
    if s.loop.Listed? && s.loop.session in s.consent.requests {
      ConcludeKeepsFate(s.consent, s.loop.session, Accept(Ids(s.consent.requests[s.loop.session])), x);
    }
  }

  lemma PendKeepsFate(s: State, x: SessionId)
    requires Inv(s)
    ensures SameFate(s.consent, Next(s, Pend).consent, x)
  {
    if s.loop.Registered? {
      assert s.loop.session in InHand(s.loop);
      SlotKeepsFate(s.consent, InHand(s.loop), s.loop.session, true, x);
    }
  }

  lemma ResolveStepKeepsFate(s: State, y: SessionId, x: SessionId)
    ensures SameFate(s.consent, Next(s, Resolve(y)).consent, x)
  {
    if y in s.consent.waiting && !s.consent.waiting[y].Open? && y in s.consent.requests {
      ResolveKeepsFate(s.consent, y, x);
    }
  }

  lemma FateIsKeptByStep(s: State, a: Action, x: SessionId)
    requires Inv(s)
    ensures SameFate(s.consent, Next(s, a).consent, x)
  {
    match a
    case Prepare(y, files) => PrepareKeepsFate(s, y, files, x);
    case Register => RegisterKeepsFate(s, x);
    case Pend => PendKeepsFate(s, x);
    case UserDecides(accepted) => SlotKeepsFate(s.consent, InHand(s.loop), 0, accepted, x);
    case Resolve(y) => ResolveStepKeepsFate(s, y, x);
    case CheckSlot => SlotKeepsFate(s.consent, InHand(s.loop), 0, true, x);
    case WatchClear(y) => SlotKeepsFate(s.consent, InHand(s.loop), 0, true, x);
    case _ => OtherStepsAreQuiet(s, a);
  }

  lemma {:induction false} FateIsKept(s: State, acts: seq<Action>, x: SessionId)
    requires Inv(s)
    ensures SameFate(s.consent, Run(s, acts).consent, x)
  {
    if acts != [] {
      var before := acts[..|acts| - 1];
      FateIsKept(s, before, x);
      RunKeepsInv(s, before);
      FateIsKeptByStep(Run(s, before), acts[|acts| - 1], x);
    }
  }

  lemma DecisionsAgree(c: Consent, inHand: set<SessionId>, x: SessionId, d: Decision, e: Decision)
    requires ConsentInv(c, inHand) && HasDecision(c, x, d) && HasDecision(c, x, e)
    ensures d == e
  {
    var ds := c.decisions;
    var i :| 0 <= i < |ds| && ds[i] == Decided(x, d);
    var j :| 0 <= j < |ds| && ds[j] == Decided(x, e);
  }

  lemma FateExcludes(c: Consent, inHand: set<SessionId>, x: SessionId, d: Decision)
    requires ConsentInv(c, inHand) && HasDecision(c, x, d)
    ensures Doomed(c, x) ==> d == Decline
    ensures Blessed(c, x) ==> d == Accept(Ids(c.requests[x]))
  {
    assert Decided(x, d).session in DecidedIds(c.decisions);
    if Doomed(c, x) {
      DecisionsAgree(c, inHand, x, d, Decline);
    }
    if Blessed(c, x) {
      DecisionsAgree(c, inHand, x, d, Accept(Ids(c.requests[x])));
    }
  }

  // A request that leaves the pending slot by anything but the user's decision resolves to Decline, and one
  // taken out by the user resolves to exactly what the user said, whatever happens in between.
  lemma SlotDecidesFate(maxBytes: nat, auto: bool, acts: seq<Action>, a: Action, later: seq<Action>,
                        x: SessionId, d: Decision)
    requires Run(Initial(maxBytes, auto), acts).consent.pending == Some(x)
    requires Next(Run(Initial(maxBytes, auto), acts), a).consent.pending != Some(x)
    requires HasDecision(Run(Next(Run(Initial(maxBytes, auto), acts), a), later).consent, x, d)
    ensures x in Run(Initial(maxBytes, auto), acts).consent.requests
    ensures d == if a == UserDecides(true)
                 then Accept(Ids(Run(Initial(maxBytes, auto), acts).consent.requests[x])) else Decline
  {
    RunKeepsInv(Initial(maxBytes, auto), acts);
    var s := Run(Initial(maxBytes, auto), acts);
    assert x in s.consent.waiting && s.consent.waiting[x].Open?;
    assert x in s.consent.requests;
    StepKeepsInv(s, a);
    FateIsKeptByStep(s, a, x);
    LeavingTheSlot(s, a, x);
    FateIsKept(Next(s, a), later, x);
    RunKeepsInv(Next(s, a), later);
    FateExcludes(Run(Next(s, a), later).consent, InHand(Run(Next(s, a), later).loop), x, d);
  }

  // What the slot functions do to the request in the slot.
  lemma SlotFunctionsDecide(c: Consent, inHand: set<SessionId>, x: SessionId, y: SessionId)
    requires ConsentInv(c, inHand) && c.pending == Some(x)
    ensures x in c.requests && x in c.waiting && c.waiting[x].Open?
    ensures Doomed(DropPending(c), x) && Doomed(TakeSlot(c, false), x) && Blessed(TakeSlot(c, true), x)
    ensures y != x ==> Doomed(FillSlot(c, y), x)
  {
    assert x in c.waiting && c.waiting[x].Open?;
    assert x in c.waiting.Keys + inHand + DecidedIds(c.decisions);
  }

  lemma LeavingTheSlot(s: State, a: Action, x: SessionId)
    requires Inv(s) && s.consent.pending == Some(x) && Next(s, a).consent.pending != Some(x)
    ensures if a == UserDecides(true) then Blessed(Next(s, a).consent, x) else Doomed(Next(s, a).consent, x)
  {
    SlotFunctionsDecide(s.consent, InHand(s.loop), x, if s.loop.Registered? then s.loop.session else x);
    match a
    case Pend =>
    case UserDecides(_) =>
    case CheckSlot =>
    case WatchClear(_) =>
    case _ => OnlySlotStepsTouchTheSlot(s, a);
  }

  lemma OnlySlotStepsTouchTheSlot(s: State, a: Action)
    requires !a.Pend? && !a.UserDecides? && !a.CheckSlot? && !a.WatchClear?
    ensures Next(s, a).consent.pending == s.consent.pending
  {
  }

  // ---- Where an acceptance comes from ----

  // At step k of the run the request was accepted automatically.
  ghost predicate AutoAcceptedAt(s: State, acts: seq<Action>, x: SessionId, k: nat) {
    k < |acts| && acts[k] == Register && At(s, acts, k).loop == Listed(x) && At(s, acts, k).autoAccept
  }

  // At step k of the run the user accepted while this very request was in the pending slot.
  ghost predicate UserAcceptedAt(s: State, acts: seq<Action>, x: SessionId, k: nat) {
    k < |acts| && acts[k] == UserDecides(true) && At(s, acts, k).consent.pending == Some(x)
  }

  ghost predicate UserAccepted(s: State, acts: seq<Action>, x: SessionId) {
    exists k: nat :: UserAcceptedAt(s, acts, x, k)
  }

  ghost predicate AutoAccepted(s: State, acts: seq<Action>, x: SessionId) {
    exists k: nat :: AutoAcceptedAt(s, acts, x, k)
  }

  ghost predicate IsAccepted(s: State, x: SessionId) {
    exists d :: d in s.consent.decisions && d.session == x && d.decision.Accept?
  }

  ghost predicate Consents(c: Consent, x: SessionId) {
    x in c.waiting && c.waiting[x] == Answered(true)
  }

  // Everything on its way to acceptance was consented to.
  ghost predicate Consented(s: State, acts: seq<Action>, x: SessionId) {
    var t := Run(s, acts);
    && (Consents(t.consent, x) ==> UserAccepted(s, acts, x))
    && (IsAccepted(t, x) ==> UserAccepted(s, acts, x) || AutoAccepted(s, acts, x))
  }

  lemma ConsentIsRemembered(s: State, acts: seq<Action>, a: Action, x: SessionId)
    ensures UserAccepted(s, acts, x) ==> UserAccepted(s, acts + [a], x)
    ensures AutoAccepted(s, acts, x) ==> AutoAccepted(s, acts + [a], x)
  {
    RunAppend(s, acts, a);
    if UserAccepted(s, acts, x) {
      var k: nat :| UserAcceptedAt(s, acts, x, k);
      assert UserAcceptedAt(s, acts + [a], x, k);
    }
    if AutoAccepted(s, acts, x) {
      var k: nat :| AutoAcceptedAt(s, acts, x, k);
      assert AutoAcceptedAt(s, acts + [a], x, k);
    }
  }

  lemma SlotsKeepConsents(c: Consent, y: SessionId, x: SessionId)
    ensures Consents(DropPending(c), x) ==> Consents(c, x)
    ensures Consents(FillSlot(c, y), x) ==> Consents(c, x)
    ensures Consents(TakeSlot(c, false), x) ==> Consents(c, x)
    ensures Consents(TakeSlot(c, true), x) ==> Consents(c, x) || c.pending == Some(x)
  {
  }

  lemma ResolveKeepsConsents(s: State, y: SessionId, x: SessionId)
    ensures Consents(Next(s, Resolve(y)).consent, x) ==> Consents(s.consent, x)
  {
  }

  // One step adds a consent, or an acceptance, only in these ways.
  lemma NewConsent(s: State, a: Action, x: SessionId)
    ensures Consents(Next(s, a).consent, x) ==>
              Consents(s.consent, x) || (a == UserDecides(true) && s.consent.pending == Some(x))
  {
    match a
    case Pend => if s.loop.Registered? { SlotsKeepConsents(s.consent, s.loop.session, x); }
    case UserDecides(accepted) => SlotsKeepConsents(s.consent, 0, x);
    case CheckSlot => SlotsKeepConsents(s.consent, 0, x);
    case WatchClear(_) => SlotsKeepConsents(s.consent, 0, x);
    case Resolve(y) => ResolveKeepsConsents(s, y, x);
    case Prepare(_, _) =>
    case Register =>
    case _ => OtherStepsAreQuiet(s, a);
  }

  // The decision a step adds, if it adds one.
  ghost predicate Adds(c: Consent, d: Consent, x: SessionId, accepts: bool) {
    || d.decisions == c.decisions
    || (|d.decisions| == |c.decisions| + 1 && d.decisions[..|c.decisions|] == c.decisions
        && (d.decisions[|c.decisions|].decision.Accept? ==> accepts && d.decisions[|c.decisions|].session == x))
  }

  lemma NewAcceptance(s: State, a: Action, x: SessionId)
    ensures IsAccepted(Next(s, a), x) ==>
              || IsAccepted(s, x)
              || (a == Register && s.loop == Listed(x) && s.autoAccept)
              || Consents(s.consent, x)
  {
    match a
    case Prepare(y, files) => PreparedAcceptance(s, y, files, x);
    case Register => RegisteredAcceptance(s, x);
    case Resolve(y) => ResolvedAcceptance(s, y, x);
    case _ => DecisionsAreKept(s, a);
  }

  lemma DecisionsAreKept(s: State, a: Action)
    requires !a.Prepare? && !a.Register? && !a.Resolve?
    ensures Next(s, a).consent.decisions == s.consent.decisions
  {
  }

  lemma PreparedAcceptance(s: State, y: SessionId, files: seq<File>, x: SessionId)
    ensures IsAccepted(Next(s, Prepare(y, files)), x) ==> IsAccepted(s, x)
  {
    AppendedAcceptance(s.consent, Next(s, Prepare(y, files)).consent, y, false, x);
  }

  lemma RegisteredAcceptance(s: State, x: SessionId)
    ensures IsAccepted(Next(s, Register), x) ==> IsAccepted(s, x) || (s.loop == Listed(x) && s.autoAccept)
  {
    if s.loop.Listed? {
      AppendedAcceptance(s.consent, Next(s, Register).consent, s.loop.session, s.autoAccept, x);
    }
  }

  lemma AppendedAcceptance(c: Consent, d: Consent, y: SessionId, accepts: bool, x: SessionId)
    requires Adds(c, d, y, accepts)
    ensures (exists e :: e in d.decisions && e.session == x && e.decision.Accept?) ==>
              (exists e :: e in c.decisions && e.session == x && e.decision.Accept?) || (accepts && x == y)
  {
    if e :| e in d.decisions && e.session == x && e.decision.Accept? {
      var i :| 0 <= i < |d.decisions| && d.decisions[i] == e;
      assert i < |c.decisions| ==> d.decisions[..|c.decisions|][i] == e && c.decisions[i] == e;
    }
  }

  lemma ResolvedAcceptance(s: State, y: SessionId, x: SessionId)
    ensures IsAccepted(Next(s, Resolve(y)), x) ==> IsAccepted(s, x) || Consents(s.consent, x)
  {
    AppendedAcceptance(s.consent, Next(s, Resolve(y)).consent, y, Consents(s.consent, y), x);
  }

  lemma {:induction false} RunIsConsented(s: State, acts: seq<Action>, x: SessionId)
    requires Inv(s) && s.consent.waiting == map[] && s.consent.decisions == []
    ensures Consented(s, acts, x)
  {
    if acts != [] {
      var before, a := acts[..|acts| - 1], acts[|acts| - 1];
      assert acts == before + [a];
      RunIsConsented(s, before, x);
      RunKeepsInv(s, before);
      var k := |before|;
      assert acts[..k] == before;
      ConsentIsRemembered(s, before, a, x);
      NewConsent(Run(s, before), a, x);
      NewAcceptance(Run(s, before), a, x);
      assert UserAcceptedAt(s, acts, x, k) <==> a == UserDecides(true) && Run(s, before).consent.pending == Some(x);
      assert AutoAcceptedAt(s, acts, x, k) <==>
             a == Register && Run(s, before).loop == Listed(x) && Run(s, before).autoAccept;
    }
  }

  // A request is accepted only with its full file set, and only because automatic acceptance was on when it
  // was registered or because the user accepted while it was the one in the pending slot.
  lemma AcceptNeedsConsent(maxBytes: nat, auto: bool, acts: seq<Action>, x: SessionId, ids: set<FileId>)
    requires HasDecision(Run(Initial(maxBytes, auto), acts).consent, x, Accept(ids))
    ensures var s := Initial(maxBytes, auto);
            && x in Run(s, acts).consent.requests
            && ids == Ids(Run(s, acts).consent.requests[x])
            && (UserAccepted(s, acts, x) || AutoAccepted(s, acts, x))
  {
    var s := Initial(maxBytes, auto);
    RunKeepsInv(s, acts);
    RunIsConsented(s, acts, x);
    assert Decided(x, Accept(ids)) in Run(s, acts).consent.decisions;
    assert IsAccepted(Run(s, acts), x);
  }

  // ---- The size limit ----

  // Requests over the limits are declined, or on their way to it.
  ghost predicate LimitsKept(s: State) {
    forall x :: x in s.consent.requests && Oversized(s.consent.requests[x], s.maxBytes) ==> Doomed(s.consent, x)
  }

  lemma {:induction false} RunKeepsLimits(s: State, acts: seq<Action>)
    requires Inv(s) && LimitsKept(s)
    ensures LimitsKept(Run(s, acts)) && Run(s, acts).maxBytes == s.maxBytes
  {
    if acts != [] {
      var before, a := acts[..|acts| - 1], acts[|acts| - 1];
      RunKeepsLimits(s, before);
      RunKeepsInv(s, before);
      StepKeepsLimits(Run(s, before), a);
    }
  }

  lemma StepKeepsLimits(s: State, a: Action)
    requires Inv(s) && LimitsKept(s)
    ensures LimitsKept(Next(s, a)) && Next(s, a).maxBytes == s.maxBytes
  {
    var t := Next(s, a);
    forall x | x in t.consent.requests && Oversized(t.consent.requests[x], t.maxBytes)
      ensures Doomed(t.consent, x)
    {
      FateIsKeptByStep(s, a, x);
      if a.Prepare? {
        OversizedIsDeclined(s, a.session, a.files);
      } else {
        RequestsAreKept(s, a);
      }
    }
    LimitIsKept(s, a);
  }

  lemma LimitIsKept(s: State, a: Action)
    ensures Next(s, a).maxBytes == s.maxBytes
  {
  }

  lemma RequestsAreKept(s: State, a: Action)
    requires !a.Prepare?
    ensures Next(s, a).consent.requests == s.consent.requests
  {
  }

  lemma OversizedIsDeclined(s: State, x: SessionId, files: seq<File>)
    ensures var t := Next(s, Prepare(x, files));
            && (forall y :: y in t.consent.requests && y != x ==>
                  y in s.consent.requests && t.consent.requests[y] == s.consent.requests[y])
            && (x in t.consent.requests && x !in s.consent.requests && Oversized(t.consent.requests[x], s.maxBytes) ==>
                  Doomed(t.consent, x))
            && (x in s.consent.requests ==> t == s)
  {
    var t := Next(s, Prepare(x, files));
    if PrepareEnabled(s, x, files) && Oversized(files, s.maxBytes) {
      assert t.consent.decisions[|t.consent.decisions| - 1] == Decided(x, Decline);
    }
  }

  // An accepted request has at most 100 files, and its size is within the limit exactly when the sizes sum
  // to less than 2^64: past that the unchecked sum wraps and the test says nothing.
  lemma AcceptedWithinLimit(maxBytes: nat, auto: bool, acts: seq<Action>, x: SessionId, ids: set<FileId>)
    requires maxBytes < U64_RANGE
    requires HasDecision(Run(Initial(maxBytes, auto), acts).consent, x, Accept(ids))
    ensures var files := Run(Initial(maxBytes, auto), acts).consent.requests;
            && x in files
            && |files[x]| <= MAX_INCOMING_FILES
            && (TotalSize(files[x]) <= maxBytes <==> TotalSize(files[x]) < U64_RANGE)
  {
    var s := Initial(maxBytes, auto);
    RunKeepsInv(s, acts);
    RunKeepsLimits(s, acts);
    AcceptedIsNotOversized(Run(s, acts), x, ids);
    FitsUnlessWrapped(Run(s, acts).consent.requests[x], maxBytes);
  }

  lemma FitsUnlessWrapped(files: seq<File>, maxBytes: nat)
    requires maxBytes < U64_RANGE && !Oversized(files, maxBytes)
    ensures |files| <= MAX_INCOMING_FILES && (TotalSize(files) <= maxBytes <==> TotalSize(files) < U64_RANGE)
  {
  }

  lemma AcceptedIsNotOversized(t: State, x: SessionId, ids: set<FileId>)
    requires Inv(t) && LimitsKept(t) && HasDecision(t.consent, x, Accept(ids))
    ensures x in t.consent.requests && !Oversized(t.consent.requests[x], t.maxBytes)
  {
    assert Decided(x, Accept(ids)) in t.consent.decisions;
    if Oversized(t.consent.requests[x], t.maxBytes) {
      FateExcludes(t.consent, InHand(t.loop), x, Accept(ids));
    }
  }

  // Two files whose sizes sum to exactly 2^64 pass any limit: with automatic acceptance the run that offers
  // them ends in Accept.
  lemma WrappingSumPasses(maxBytes: nat)
    ensures var files := [File(0, "a", U64_RANGE - 1), File(1, "b", 1)];
            && TotalSize(files) == U64_RANGE
            && HasDecision(Run(Initial(maxBytes, true), [Prepare(7, files), Register]).consent, 7, Accept(Ids(files)))
  {
    var files := [File(0, "a", U64_RANGE - 1), File(1, "b", 1)];
    assert files[1..] == [File(1, "b", 1)];
    assert TotalSize(files[1..]) == 1;
    assert !Oversized(files, maxBytes);
    var s, prepared := Initial(maxBytes, true), [Prepare(7, files)];
    RunSnoc(s, [], Prepare(7, files));
    RunSnoc(s, prepared, Register);
    assert [] + prepared == prepared && prepared + [Register] == [Prepare(7, files), Register];
    var c := Run(s, prepared + [Register]).consent;
    assert c.decisions[0] == Decided(7, Accept(Ids(files)));
  }
}
