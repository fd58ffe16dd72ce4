/** What the latest step of a link-share store's trace gives, beyond the step itself. */
module LinkShareTraces {
  import opened Wrappers
  import opened LinkShare
  import V = LinkShareWaiting
  import A = LinkShareAccess

  ghost predicate Genuine(states: seq<State>, acts: seq<Action>) {
    IsTrace(states, acts) && states[0] == INITIAL
  }

  lemma GenuineIsRun(states: seq<State>, acts: seq<Action>)
    requires Genuine(states, acts)
    ensures states[|acts|] == Run(INITIAL, acts)
  {
    TraceIsRun(states, acts, |acts|);
    assert acts[..|acts|] == acts;
  }

  // The last action and the state before it.
  ghost predicate Ends(states: seq<State>, acts: seq<Action>, s: State, a: Action) {
    && Genuine(states, acts) && acts != []
    && s == states[|acts| - 1] && a == acts[|acts| - 1] && states[|acts|] == Next(s, a)
  }

  lemma LogGrows(states: seq<State>, acts: seq<Action>, a: Action, t: State)
    requires Genuine(states, acts) && t == Next(states[|acts|], a)
    ensures Genuine(states + [t], acts + [a]) && (states + [t])[|acts| + 1] == t
    ensures Ends(states + [t], acts + [a], states[|acts|], a)
  {
    TraceGrows(states, acts, a, t);
  }

  lemma BeforeIsRun(states: seq<State>, acts: seq<Action>, s: State, a: Action)
    requires Ends(states, acts, s, a)
    ensures s == Run(INITIAL, acts[..|acts| - 1]) && acts == acts[..|acts| - 1] + [a]
  {
    LastApart(acts);
    TraceIsRun(states, acts, |acts| - 1);
  }

  lemma LastApart(acts: seq<Action>)
    requires acts != []
    ensures acts == acts[..|acts| - 1] + [acts[|acts| - 1]]
  {
  }

  // ---- Who may download ----

  ghost predicate NobodyAdmitted(s: State) {
    forall ip, key :: !Admitted(s, ip, key)
  }

  // The request is accepted, and stands on an admission under the PIN in force and on consent.
  ghost predicate GoodGrant(acts: seq<Action>, s: State, ip: Ip, key: string) {
    && A.HasRequest(s, key) && s.store.value.requests[key].ip == ip && s.store.value.requests[key].status == Accepted
    && A.Justified(acts, s.store.value, key)
  }

  lemma AdmittedIsGood(states: seq<State>, acts: seq<Action>, ip: Ip, key: string)
    requires Genuine(states, acts) && Admitted(states[|acts|], ip, key)
    ensures GoodGrant(acts, states[|acts|], ip, key)
  {
    GenuineIsRun(states, acts);
    A.RunIsJustified(acts, key);
  }

  lemma GrantIsGood(states: seq<State>, acts: seq<Action>, s: State, r: RequestId)
    requires Ends(states, acts, s, Check(r)) && Grants(s, Check(r)).Some?
    ensures r in s.waiters && GoodGrant(acts[..|acts| - 1], s, s.waiters[r].ip, s.waiters[r].ip.text)
  {
    BeforeIsRun(states, acts, s, Check(r));
    A.GrantsAreJustified(acts[..|acts| - 1], Check(r));
  }

  // ---- What handlers hear ----

  // Every handler whose sender the requests held, and that still listened, has been told no.
  ghost predicate AllRejected(s: State, requests: map<string, Request>, t: State) {
    forall k :: k in requests && requests[k].sender && Listening(s.waiters, requests[k].id) ==>
      V.Answers(t, requests[k].id, false)
  }

  // A changed PIN takes every admission back; an unchanged one takes nothing.
  ghost predicate SettingsApplied(s: State, share: Share, pin: Option<string>, t: State) {
    if share.pin != pin then NobodyAdmitted(t) && AllRejected(s, share.requests, t)
    else t.waiters == s.waiters && SameAdmissions(s, t)
  }

  ghost predicate SameAdmissions(s: State, t: State) {
    forall ip, key :: Admitted(t, ip, key) == Admitted(s, ip, key)
  }

  lemma SettingsGive(s: State, share: Share, autoAccept: bool, pin: Option<string>)
    requires s.store == Some(share)
    ensures SettingsApplied(s, share, pin, UpdateStep(s, share, autoAccept, pin))
  {
    AllTold(s.waiters, share.requests);
  }

  lemma StartGives(s: State, id: ShareId, files: set<FileId>, autoAccept: bool, pinText: string)
    requires id !in s.started
    ensures var t := Next(s, Start(id, files, autoAccept, pinText));
            && NobodyAdmitted(t) && t.store.Some? && t.store.value.id == id && t.waiters == s.waiters
            && (s.store.Some? ==> s.store.value in t.detached.Values)
  {
    if s.store.Some? {
      assert Detach(s).detached[s.store.value.id] == s.store.value;
    }
  }

  lemma RejectDetachedRejects(s: State, id: ShareId)
    requires id in s.detached
    ensures AllRejected(s, s.detached[id].requests, Next(s, RejectDetached(id)))
  {
    AllTold(s.waiters, s.detached[id].requests);
  }

  lemma AllTold(ws: Waiters, requests: map<string, Request>)
    ensures forall k :: k in requests && requests[k].sender && Listening(ws, requests[k].id) ==>
              TellAll(ws, Senders(requests))[requests[k].id].stage == Waiting(Told(false))
  {
  }

  // ---- A decision ----

  lemma DecisionGives(states: seq<State>, acts: seq<Action>, s: State, key: string, accepted: bool)
    requires Ends(states, acts, s, Decide(key, accepted)) && A.HasRequest(s, key)
    ensures var t, q := states[|acts|], s.store.value.requests[key];
            && (if accepted then GoodGrant(acts, t, q.ip, key) else !A.HasRequest(t, key))
            && (q.sender && Listening(s.waiters, q.id) ==> V.Answers(t, q.id, accepted))
  {
    if accepted {
      AdmittedIsGood(states, acts, s.store.value.requests[key].ip, key);
    }
  }

  // ---- An admission ----

  // The PIN reply is what the failures since the last success make it.
  lemma ReplyGives(states: seq<State>, acts: seq<Action>, s: State, r: RequestId, ip: Ip, supplied: Option<string>)
    requires Ends(states, acts, s, Prepare(r, ip, supplied)) && A.HasPin(s) && r !in s.waiters
    ensures PinReplyTo(s.store.value, ip, supplied) ==
            if A.Failures(acts[..|acts| - 1], ip) == MAX_PIN_ATTEMPTS then PinLocked
            else if supplied == s.store.value.pin then PinOk else PinInvalid
  {
    BeforeIsRun(states, acts, s, Prepare(r, ip, supplied));
    A.PinCheckIsLimited(acts[..|acts| - 1], Prepare(r, ip, supplied), ip);
  }

  // An admitted address has this request, which stands on its admission, and its previous handler is told no.
  lemma AdmissionGives(states: seq<State>, acts: seq<Action>, s: State, r: RequestId, ip: Ip, supplied: Option<string>)
    requires Ends(states, acts, s, Prepare(r, ip, supplied)) && s.store.Some? && r !in s.waiters
    requires PinReplyTo(s.store.value, ip, supplied) == PinOk
    ensures var t := states[|acts|];
            && A.HasRequest(t, ip.text) && t.store.value.requests[ip.text].id == r
            && t.store.value.requests[ip.text].ip == ip && A.Justified(acts, t.store.value, ip.text)
    ensures A.HasRequest(s, ip.text) && s.store.value.requests[ip.text].sender
            && Listening(s.waiters, s.store.value.requests[ip.text].id) ==>
              V.Answers(states[|acts|], s.store.value.requests[ip.text].id, false)
  {
    GenuineIsRun(states, acts);
    A.RunIsJustified(acts, ip.text);
  }

  // ---- Clean-ups ----

  predicate OwnUndecided(q: Request, r: RequestId) {
    q.id == r && q.status == Pending
  }

  // The share loses the handler's own undecided requests and nothing else.
  ghost predicate ClearsOwn(s: State, t: State, r: RequestId) {
    && s.store.Some? == t.store.Some?
    && (s.store.Some? ==>
          forall k :: A.HasRequest(t, k) <==> (A.HasRequest(s, k) && !OwnUndecided(s.store.value.requests[k], r)))
    && (forall k :: A.HasRequest(t, k) ==> A.HasRequest(s, k) && t.store.value.requests[k] == s.store.value.requests[k])
  }

  lemma OwnKey(s: State, r: RequestId)
    requires V.Inv(s) && r in s.waiters && s.store.Some?
    ensures forall k :: k in s.store.value.requests && s.store.value.requests[k].id == r ==> k == s.waiters[r].ip.text
  {
    forall k | k in s.store.value.requests && s.store.value.requests[k].id == r
      ensures k == s.waiters[r].ip.text
    {
      V.SenderIsUnique(s.store.value, s.waiters, k, r);
    }
  }

  lemma ClearGives(s: State, r: RequestId)
    requires V.Inv(s) && r in s.waiters && (s.waiters[r].stage == Clearing || s.waiters[r].stage == Dropped(true))
    ensures ClearsOwn(s, Next(s, ClearOwn(r)), r)
    ensures forall p :: Listening(s.waiters, p) ==> Listening(Next(s, ClearOwn(r)).waiters, p)
  {
    if s.store.Some? {
      OwnKey(s, r);
    }
  }

  lemma CleanUpGives(states: seq<State>, acts: seq<Action>, s: State, r: RequestId)
    requires Ends(states, acts, s, ClearOwn(r)) && r in s.waiters
    requires s.waiters[r].stage == Clearing || s.waiters[r].stage == Dropped(true)
    ensures ClearsOwn(s, states[|acts|], r)
    ensures forall p :: Listening(s.waiters, p) ==> Listening(states[|acts|].waiters, p)
  {
    BeforeIsRun(states, acts, s, ClearOwn(r));
    V.RunKeepsInv(acts[..|acts| - 1]);
    ClearGives(s, r);
  }

  lemma CleanUpStaysDue(states: seq<State>, acts: seq<Action>)
    requires Genuine(states, acts)
    ensures V.CleanUpDue(states[|acts|])
  {
    GenuineIsRun(states, acts);
    V.AbandonedRequestsAreCleaned(acts);
  }

  // A handler that waits is reached by the next decision or the pending rejection.
  lemma WaitingStaysReached(states: seq<State>, acts: seq<Action>, r: RequestId, accepted: bool)
    requires Genuine(states, acts) && r in states[|acts|].waiters
    ensures V.Reached(states[|acts|], r, accepted)
  {
    GenuineIsRun(states, acts);
    V.WaitingIsReachable(acts, r, accepted);
  }
}
