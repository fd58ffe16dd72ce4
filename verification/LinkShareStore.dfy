/**
 The link-share store, updated in place under its lock.

 As the receiver does, it keeps a ghost log of its actions and is valid when its state is the one the log leads
 to, so that what holds over all runs holds of it.
 */
module LinkShareService {
  import opened Wrappers
  import opened Text
  import opened LinkShare
  import opened LinkShareTraces

  lemma TellThenTellAll(ws: Waiters, r: RequestId, rs: set<RequestId>)
    ensures TellAll(Tell(ws, r, Told(false)), rs) == TellAll(ws, rs + {r})
  {
  }

  lemma SendersWithout(requests: map<string, Request>, k: string)
    requires k in requests
    ensures Senders(requests) ==
            Senders(requests - {k}) + if requests[k].sender then {requests[k].id} else {}
  {
    var rest := requests - {k};
    forall r
      ensures r in Senders(requests) <==> r in Senders(rest) || (requests[k].sender && r == requests[k].id)
    {
      if r in Senders(requests) {
        var j :| j in requests && requests[j].sender && requests[j].id == r;
        assert j != k ==> j in rest && rest[j] == requests[j];
      }
      if r in Senders(rest) {
        var j :| j in rest && rest[j].sender && rest[j].id == r;
        assert j in requests && requests[j] == rest[j];
      }
    }
  }

  // A share is owned by the store, then by whoever detached it; it is a value in both places.
  class LinkShareStore {
    var active: Option<Share>
    var detached: map<ShareId, Share>
    var waiters: Waiters
    var started: set<ShareId>

    ghost var states: seq<State>
    ghost var acts: seq<Action>

    ghost predicate Valid()
      reads this
    {
      Genuine(states, acts) && states[|acts|] == Abs()
    }

    function Abs(): State
      reads this
    {
      State(active, detached, waiters, started)
    }

    constructor ()
      ensures Valid() && acts == [] && Abs() == INITIAL
    {
      active, detached, waiters, started := None, map[], map[], {};
      states, acts := [INITIAL], [];
    }

    // Appends the step just performed to the log.
    ghost method Log(a: Action)
      requires Genuine(states, acts) && Abs() == Next(states[|acts|], a)
      modifies this`states, this`acts
      ensures Valid() && acts == old(acts) + [a]
      ensures Ends(states, acts, old(states[|acts|]), a)
    {
      LogGrows(states, acts, a, Abs());
      states, acts := states + [Abs()], acts + [a];
    }

    // Everything proved over runs holds of a valid store: whoever may download was admitted under the PIN in force
    // and with consent, and a handler that waits is reached by the next decision or the rejection that is due.
    lemma SoundOverRuns(ip: Ip, key: string, r: RequestId, accepted: bool)
      requires Valid()
      ensures Admitted(Abs(), ip, key) ==> GoodGrant(acts, Abs(), ip, key)
      ensures r in waiters ==> V.Reached(Abs(), r, accepted)
      ensures V.CleanUpDue(Abs())
    {
      if Admitted(Abs(), ip, key) {
        AdmittedIsGood(states, acts, ip, key);
      }
      if r in waiters {
        WaitingStaysReached(states, acts, r, accepted);
      }
      CleanUpStaysDue(states, acts);
    }

    method Answer(r: RequestId, accepted: bool)
      modifies this`waiters
      ensures waiters == Tell(old(waiters), r, Told(accepted))
    {
      if r in waiters && waiters[r].stage == Waiting(Open) {
        waiters := waiters[r := waiters[r].(stage := Waiting(Told(accepted)))];
      }
    }

    // Drains the requests, rejecting every handler that still waits.
    method RejectAll(requests: map<string, Request>)
      modifies this`waiters
      ensures waiters == TellAll(old(waiters), Senders(requests))
    {
      var rest := requests;
      while rest != map[]
        invariant TellAll(waiters, Senders(rest)) == TellAll(old(waiters), Senders(requests))
        decreases |rest|
      {
        var key :| key in rest;
        SendersWithout(rest, key);
        if rest[key].sender {
          TellThenTellAll(waiters, rest[key].id, Senders(rest - {key}));
          Answer(rest[key].id, false);
        }
        assert (rest - {key}).Keys == rest.Keys - {key};
        rest := rest - {key};
      }
    }

    method DetachActive()
      modifies this`active, this`detached
      ensures Abs() == Detach(old(Abs()))
    {
      if active.Some? {
        detached := detached[active.value.id := active.value];
        active := None;
      }
    }

    // From here on nobody may download: the replaced share is set aside with its requests, the new one has none.
    method StartShare(id: ShareId, files: set<FileId>, autoAccept: bool, pinText: string)
      requires Valid()
      modifies this
      ensures Valid() && acts == old(acts) + [Start(id, files, autoAccept, pinText)]
      ensures id !in old(started) ==>
                && NobodyAdmitted(Abs()) && active.Some? && active.value.id == id
                && (old(active).Some? ==> old(active).value in detached.Values)
      ensures waiters == old(waiters)
    {
      if id !in started {
        StartGives(Abs(), id, files, autoAccept, pinText);
        Install(Share(id, files, autoAccept, NormalizePin(pinText), map[], map[]));
      }
      Log(Start(id, files, autoAccept, pinText));
    }

    method Install(next: Share)
      modifies this`active, this`detached, this`started
      ensures Abs() == Detach(old(Abs())).(store := Some(next), started := old(started) + {next.id})
    {
      DetachActive();
      active, started := Some(next), started + {next.id};
    }

    // A changed PIN takes every admission back and tells every waiting handler no; an unchanged one takes nothing.
    method UpdateShare(autoAccept: bool, pinText: string) returns (ok: bool)
      requires Valid()
      modifies this
      ensures Valid() && acts == old(acts) + [Update(autoAccept, pinText)]
      ensures ok == (old(active).Some? && ByteLength(pinText) <= MAX_PIN_BYTES)
      ensures ok ==> SettingsApplied(old(Abs()), old(active).value, NormalizePin(pinText), Abs())
      ensures !ok ==> Abs() == old(Abs())
    {
      ghost var before := Abs();
      UpdateIsStep(before, autoAccept, pinText);
      ok := active.Some? && ByteLength(pinText) <= MAX_PIN_BYTES;
      if ok {
        var pin := NormalizePin(pinText);
        ApplySettings(autoAccept, pin);
        SettingsGive(before, before.store.value, autoAccept, pin);
      }
      Log(Update(autoAccept, pinText));
    }

    method ApplySettings(autoAccept: bool, pin: Option<string>)
      requires active.Some?
      modifies this`active, this`waiters
      ensures Abs() == UpdateStep(old(Abs()), old(active).value, autoAccept, pin)
    {
      active := Some(active.value.(autoAccept := autoAccept));
      if active.value.pin != pin {
        RejectAll(active.value.requests);
        active := Some(active.value.(pin := pin, attempts := map[], requests := map[]));
      }
    }

    method StopShare(id: ShareId) returns (found: bool)
      requires Valid()
      modifies this
      ensures Valid() && acts == old(acts) + [Stop(id)]
      ensures found == (old(active).Some? && old(active).value.id == id)
      ensures found ==> NobodyAdmitted(Abs()) && active.None? && old(active).value in detached.Values
      ensures !found ==> active == old(active)
      ensures waiters == old(waiters)
    {
      found := active.Some? && active.value.id == id;
      if found {
        DetachActive();
        assert detached[id] == old(active).value;
      }
      Log(Stop(id));
    }

    // Whoever still waited on the share that was set aside has been told no.
    method CleanUpShare(id: ShareId)
      requires Valid()
      modifies this
      ensures Valid() && acts == old(acts) + [RejectDetached(id)] && active == old(active)
      ensures id !in detached
      ensures id in old(detached) ==> AllRejected(old(Abs()), old(detached)[id].requests, Abs())
    {
      if id in detached {
        RejectAll(detached[id].requests);
        detached := detached - {id};
        RejectDetachedRejects(old(Abs()), id);
      }
      Log(RejectDetached(id));
    }

    // An accepted request lets its address download, on an admission under the PIN in force and on consent; a
    // rejected one is gone. A handler still listening gets the answer.
    method DecideRequest(key: string, accepted: bool) returns (found: bool)
      requires Valid()
      modifies this
      ensures Valid() && acts == old(acts) + [Decide(key, accepted)]
      ensures found == A.HasRequest(old(Abs()), key)
      ensures found ==>
                var q := old(active).value.requests[key];
                && (if accepted then GoodGrant(acts, Abs(), q.ip, key) else !A.HasRequest(Abs(), key))
                && (q.sender && Listening(old(waiters), q.id) ==> V.Answers(Abs(), q.id, accepted))
    {
      ghost var before := Abs();
      found := active.Some? && key in active.value.requests;
      if found {
        var request := active.value.requests[key];
        if request.sender {
          Answer(request.id, accepted);
        }
        var requests := active.value.requests;
        if accepted {
          requests := requests[key := request.(status := Accepted, sender := false)];
        } else {
          requests := requests - {key};
        }
        active := Some(active.value.(requests := requests));
      }
      Log(Decide(key, accepted));
      if found {
        DecisionGives(states, acts, before, key, accepted);
      }
    }

    method CheckPin(ip: Ip, supplied: Option<string>) returns (reply: PinReply)
      requires active.Some?
      modifies this`active
      ensures reply == PinReplyTo(old(active).value, ip, supplied)
      ensures active == Some(AfterPin(old(active).value, ip, supplied))
    {
      var share := active.value;
      if share.pin == None {
        return PinOk;
      }
      var attempts := if ip in share.attempts then share.attempts[ip] else 0;
      if attempts >= MAX_PIN_ATTEMPTS {
        active := Some(share.(attempts := share.attempts[ip := attempts]));
        return PinLocked;
      }
      if supplied != share.pin {
        active := Some(share.(attempts := share.attempts[ip := attempts + 1]));
        return PinInvalid;
      }
      active := Some(share.(attempts := share.attempts - {ip}));
      return PinOk;
    }

    // No reply means that no share is active. With a PIN the reply is what the failures since the last success make
    // it; an admitted address has this request, and the handler it displaces is told no.
    method PrepareDownload(r: RequestId, ip: Ip, supplied: Option<string>) returns (reply: Option<PinReply>)
      requires Valid() && r !in waiters
      modifies this
      ensures Valid() && acts == old(acts) + [Prepare(r, ip, supplied)]
      ensures reply.Some? == old(active).Some?
      ensures reply.Some? && A.HasPin(old(Abs())) ==>
                reply.value == if A.Failures(old(acts), ip) == MAX_PIN_ATTEMPTS then PinLocked
                               else if supplied == old(active).value.pin then PinOk else PinInvalid
      ensures reply.Some? && !A.HasPin(old(Abs())) ==> reply.value == PinOk
      ensures reply == Some(PinOk) ==>
                && r in waiters && A.HasRequest(Abs(), ip.text) && active.value.requests[ip.text].id == r
                && active.value.requests[ip.text].ip == ip && A.Justified(acts, active.value, ip.text)
                && (A.HasRequest(old(Abs()), ip.text) && old(active).value.requests[ip.text].sender
                    && Listening(old(waiters), old(active).value.requests[ip.text].id) ==>
                      V.Answers(Abs(), old(active).value.requests[ip.text].id, false))
      ensures reply != Some(PinOk) ==>
                waiters == old(waiters) && SameAdmissions(old(Abs()), Abs())
    {
      ghost var before := Abs();
      reply := None;
      if active.Some? {
        var checked := CheckPin(ip, supplied);
        reply := Some(checked);
        if checked == PinOk {
          AdmitRequest(r, ip);
        }
      }
      Log(Prepare(r, ip, supplied));
      if reply.Some? && A.HasPin(before) {
        ReplyGives(states, acts, before, r, ip, supplied);
        assert acts[..|acts| - 1] == old(acts);
      }
      if reply == Some(PinOk) {
        AdmissionGives(states, acts, before, r, ip, supplied);
      }
    }

    method AdmitRequest(r: RequestId, ip: Ip)
      requires active.Some?
      modifies this`active, this`waiters
      ensures Abs() == Admit(old(Abs()), old(active).value, r, ip)
    {
      var share := active.value;
      var key := ip.text;
      if key in share.requests && share.requests[key].sender {
        Answer(share.requests[key].id, false);
      }
      var status := if share.autoAccept then Accepted else Pending;
      active := Some(share.(requests := share.requests[key := Request(r, ip, status, !share.autoAccept)]));
      waiters := waiters[r := Waiter(share.id, ip, if share.autoAccept then Checking else Waiting(Open))];
    }

    method ResumeHandler(r: RequestId)
      requires Valid()
      modifies this
      ensures Valid() && acts == old(acts) + [Resume(r)] && active == old(active)
    {
      if r in waiters && waiters[r].stage.Waiting? && !waiters[r].stage.answer.Open? {
        var accepted := waiters[r].stage.answer == Told(true);
        waiters := waiters[r := waiters[r].(stage := if accepted then Checking else Clearing)];
      }
      Log(Resume(r));
    }

    method ClearPendingRequest(r: RequestId, key: string)
      modifies this`active, this`waiters
      ensures Abs() == ClearRequest(old(Abs()), r, key)
    {
      if active.None? || key !in active.value.requests {
        return;
      }
      var request := active.value.requests[key];
      if request.id == r && request.status == Pending {
        active := Some(active.value.(requests := active.value.requests - {key}));
        if request.sender && r in waiters && waiters[r].stage == Waiting(Open) {
          waiters := waiters[r := waiters[r].(stage := Waiting(Hung))];
        }
      }
    }

    // The share loses the handler's own undecided request and nothing else, and no other handler's channel closes.
    method RunCleanUp(r: RequestId)
      requires Valid()
      modifies this
      ensures Valid() && acts == old(acts) + [ClearOwn(r)]
      ensures r in old(waiters) && (old(waiters)[r].stage == Clearing || old(waiters)[r].stage == Dropped(true)) ==>
                ClearsOwn(old(Abs()), Abs(), r) && forall p :: Listening(old(waiters), p) ==> Listening(waiters, p)
      ensures !(r in old(waiters) && (old(waiters)[r].stage == Clearing || old(waiters)[r].stage == Dropped(true))) ==>
                Abs() == old(Abs())
    {
      ghost var before := Abs();
      if r in waiters && waiters[r].stage == Clearing {
        ClearPendingRequest(r, waiters[r].ip.text);
        waiters := waiters[r := waiters[r].(stage := Finished(false))];
      } else if r in waiters && waiters[r].stage == Dropped(true) {
        ClearPendingRequest(r, waiters[r].ip.text);
        waiters := waiters[r := waiters[r].(stage := Dropped(false))];
      }
      Log(ClearOwn(r));
      if r in before.waiters && (before.waiters[r].stage == Clearing || before.waiters[r].stage == Dropped(true)) {
        CleanUpGives(states, acts, before, r);
      }
    }

    // A handler told yes hands the files out only if its address still may download, whatever happened meanwhile.
    method Recheck(r: RequestId) returns (granted: bool)
      requires Valid()
      modifies this
      ensures Valid() && acts == old(acts) + [Check(r)] && active == old(active)
      ensures granted ==> r in waiters && GoodGrant(old(acts), Abs(), waiters[r].ip, waiters[r].ip.text)
      ensures r in old(waiters) && old(waiters)[r].stage == Checking ==>
                granted == Admitted(Abs(), old(waiters)[r].ip, old(waiters)[r].ip.text)
    {
      ghost var before := Abs();
      granted := false;
      if r in waiters && waiters[r].stage == Checking {
        granted := MayDownload(waiters[r].ip, waiters[r].ip.text);
        waiters := waiters[r := waiters[r].(stage := Finished(granted))];
      }
      Log(Check(r));
      if granted {
        GrantIsGood(states, acts, before, r);
        assert acts[..|acts| - 1] == old(acts);
      }
    }

    // The address may download exactly when it has this request and the request is accepted; if it may, the request
    // stands on an admission under the PIN in force and on consent.
    method MayDownload(ip: Ip, key: string) returns (valid: bool)
      requires Valid()
      ensures valid == Admitted(Abs(), ip, key)
      ensures valid ==> GoodGrant(acts, Abs(), ip, key)
    {
      valid := false;
      if active.Some? && key in active.value.requests {
        var request := active.value.requests[key];
        valid := request.ip == ip && request.status == Accepted;
      }
      if valid {
        AdmittedIsGood(states, acts, ip, key);
      }
    }

    // Whenever a handler is dropped, a request of it that the share still holds has its clean-up due.
    method DropHandler(r: RequestId)
      requires Valid()
      modifies this
      ensures Valid() && acts == old(acts) + [Disconnect(r)] && active == old(active)
      ensures V.CleanUpDue(Abs()) && !Listening(waiters, r)
    {
      if r in waiters {
        match waiters[r].stage
        case Waiting(_) => waiters := waiters[r := waiters[r].(stage := Dropped(true))];
        case Clearing => waiters := waiters[r := waiters[r].(stage := Dropped(false))];
        case Checking => waiters := waiters[r := waiters[r].(stage := Dropped(false))];
        case _ =>
      }
      Log(Disconnect(r));
      CleanUpStaysDue(states, acts);
    }
  }
}
