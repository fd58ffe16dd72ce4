/**
 The link-share store: one active share, its download requests and PIN attempts, the handlers waiting for a
 decision, and shares already detached but not yet told.

 As in `Incoming`, an action is the code between two lock scopes and `Next` is total.
 */
module LinkShare {
  import opened Wrappers
  import opened Text

  type ShareId = int
  type RequestId = int
  type FileId = int

  const MAX_PIN_BYTES := 128
  const MAX_PIN_ATTEMPTS := 10

  // An address is identified with its text, which is the key of its request.
  datatype Ip = Ip(text: string)

  datatype Status = Pending | Accepted

  datatype Request = Request(id: RequestId, ip: Ip, status: Status, sender: bool)

  datatype Share = Share(id: ShareId, files: set<FileId>, autoAccept: bool, pin: Option<string>,
                         requests: map<string, Request>, attempts: map<Ip, nat>)

  datatype Answer = Open | Told(accepted: bool) | Hung

  // A prepare-download handler: waiting with its guard armed, clearing up after a rejection, about to recheck,
  // dropped (perhaps leaving a clean-up task), or finished.
  datatype Stage = Waiting(answer: Answer) | Clearing | Checking | Dropped(clears: bool) | Finished(granted: bool)

  datatype Waiter = Waiter(share: ShareId, ip: Ip, stage: Stage)

  datatype State = State(store: Option<Share>, detached: map<ShareId, Share>,
                         waiters: map<RequestId, Waiter>, started: set<ShareId>)

  datatype Action =
    | Start(share: ShareId, files: set<FileId>, autoAccept: bool, pinText: string)
    | Update(autoAccept: bool, pinText: string)
    | Stop(share: ShareId)
    | RejectDetached(share: ShareId)
    | Decide(key: string, accepted: bool)
    | Prepare(request: RequestId, ip: Ip, supplied: Option<string>)
    | Resume(request: RequestId)
    | ClearOwn(request: RequestId)
    | Check(request: RequestId)
    | Disconnect(request: RequestId)
    | Lookup(ip: Ip, key: string)
    | Download(ip: Ip, key: string, file: FileId)

  const INITIAL := State(None, map[], map[], {})

  function NormalizePin(text: string): Option<string> {
    var pin := Trim(text);
    if pin == "" then None else Some(pin)
  }

  // ---- PIN checks ----

  datatype PinReply = PinOk | PinInvalid | PinLocked

  function Attempts(share: Share, ip: Ip): nat {
    if ip in share.attempts then share.attempts[ip] else 0
  }

  function PinReplyTo(share: Share, ip: Ip, supplied: Option<string>): PinReply {
    if share.pin == None then PinOk
    else if Attempts(share, ip) >= MAX_PIN_ATTEMPTS then PinLocked
    else if supplied != share.pin then PinInvalid
    else PinOk
  }

  function AfterPin(share: Share, ip: Ip, supplied: Option<string>): Share {
    if share.pin == None then share
    else
      match PinReplyTo(share, ip, supplied)
      case PinOk => share.(attempts := share.attempts - {ip})
      case PinInvalid => share.(attempts := share.attempts[ip := Attempts(share, ip) + 1])
      case PinLocked => share.(attempts := share.attempts[ip := Attempts(share, ip)])
  }

  // ---- Channels ----

  type Waiters = map<RequestId, Waiter>

  predicate Listening(ws: Waiters, r: RequestId) {
    r in ws && ws[r].stage == Waiting(Open)
  }

  // Uses the sender of a request; nobody may be listening any more.
  function Tell(ws: Waiters, r: RequestId, answer: Answer): Waiters {
    if Listening(ws, r) then ws[r := ws[r].(stage := Waiting(answer))] else ws
  }

  function Senders(requests: map<string, Request>): set<RequestId> {
    set k | k in requests && requests[k].sender :: requests[k].id
  }

  function TellAll(ws: Waiters, rs: set<RequestId>): Waiters {
    map r | r in ws :: if r in rs && Listening(ws, r) then ws[r].(stage := Waiting(Told(false))) else ws[r]
  }

  // ---- Steps ----

  function Detach(s: State): State {
    match s.store
    case None => s
    case Some(share) => s.(store := None, detached := s.detached[share.id := share])
  }

  function StartStep(s: State, id: ShareId, files: set<FileId>, autoAccept: bool, pinText: string): State {
    var d := Detach(s);
    d.(store := Some(Share(id, files, autoAccept, NormalizePin(pinText), map[], map[])), started := s.started + {id})
  }

  function UpdateStep(s: State, share: Share, autoAccept: bool, pin: Option<string>): State {
    if share.pin != pin
    then s.(store := Some(share.(autoAccept := autoAccept, pin := pin, attempts := map[], requests := map[])),
            waiters := TellAll(s.waiters, Senders(share.requests)))
    else s.(store := Some(share.(autoAccept := autoAccept)))
  }

  function DecideStep(s: State, share: Share, key: string, accepted: bool): State
    requires key in share.requests
  {
    var request := share.requests[key];
    var ws := if request.sender then Tell(s.waiters, request.id, Told(accepted)) else s.waiters;
    var requests := if accepted then share.requests[key := request.(status := Accepted, sender := false)]
                    else share.requests - {key};
    s.(store := Some(share.(requests := requests)), waiters := ws)
  }

  function Admit(s: State, share: Share, r: RequestId, ip: Ip): State {
    var ws := if ip.text in share.requests && share.requests[ip.text].sender
              then Tell(s.waiters, share.requests[ip.text].id, Told(false)) else s.waiters;
    var status := if share.autoAccept then Accepted else Pending;
    var stage := if share.autoAccept then Checking else Waiting(Open);
    s.(store := Some(share.(requests := share.requests[ip.text := Request(r, ip, status, !share.autoAccept)])),
       waiters := ws[r := Waiter(share.id, ip, stage)])
  }

  function PrepareStep(s: State, share: Share, r: RequestId, ip: Ip, supplied: Option<string>): State {
    var checked := AfterPin(share, ip, supplied);
    if PinReplyTo(share, ip, supplied) == PinOk then Admit(s, checked, r, ip)
    else s.(store := Some(checked))
  }

  function SetStage(s: State, r: RequestId, stage: Stage): State
    requires r in s.waiters
  {
    s.(waiters := s.waiters[r := s.waiters[r].(stage := stage)])
  }

  // Removes the request under the handler's key if it is still the handler's own and undecided; its sender is
  // dropped with it.
  function ClearRequest(s: State, r: RequestId, key: string): State {
    if s.store.Some? && key in s.store.value.requests then
      var share := s.store.value;
      var request := share.requests[key];
      if request.id == r && request.status == Pending
      then s.(store := Some(share.(requests := share.requests - {key})),
              waiters := if request.sender then Tell(s.waiters, r, Hung) else s.waiters)
      else s
    else s
  }

  predicate Admitted(s: State, ip: Ip, key: string) {
    && s.store.Some? && key in s.store.value.requests
    && s.store.value.requests[key].ip == ip && s.store.value.requests[key].status == Accepted
  }

  function ResumeStep(s: State, r: RequestId): State {
    if r in s.waiters then
      match s.waiters[r].stage
      case Waiting(Told(true)) => SetStage(s, r, Checking)
      case Waiting(Told(false)) => SetStage(s, r, Clearing)
      case Waiting(Hung) => SetStage(s, r, Clearing)
      case _ => s
    else s
  }

  function ClearOwnStep(s: State, r: RequestId): State {
    if r in s.waiters then
      match s.waiters[r].stage
      case Clearing => SetStage(ClearRequest(s, r, s.waiters[r].ip.text), r, Finished(false))
      case Dropped(true) => SetStage(ClearRequest(s, r, s.waiters[r].ip.text), r, Dropped(false))
      case _ => s
    else s
  }

  function DisconnectStep(s: State, r: RequestId): State {
    if r in s.waiters then
      match s.waiters[r].stage
      case Waiting(_) => SetStage(s, r, Dropped(true))
      case Clearing => SetStage(s, r, Dropped(false))
      case Checking => SetStage(s, r, Dropped(false))
      case _ => s
    else s
  }

  function Next(s: State, a: Action): State {
    match a
    case Start(id, files, autoAccept, pinText) =>
      if id in s.started then s else StartStep(s, id, files, autoAccept, pinText)
    case Update(autoAccept, pinText) =>
      if s.store.Some? && ByteLength(pinText) <= MAX_PIN_BYTES
      then UpdateStep(s, s.store.value, autoAccept, NormalizePin(pinText)) else s
    case Stop(id) => if s.store.Some? && s.store.value.id == id then Detach(s) else s
    case RejectDetached(id) =>
      if id in s.detached
      then s.(detached := s.detached - {id}, waiters := TellAll(s.waiters, Senders(s.detached[id].requests))) else s
    case Decide(key, accepted) =>
      if s.store.Some? && key in s.store.value.requests then DecideStep(s, s.store.value, key, accepted) else s
    case Prepare(r, ip, supplied) =>
      if s.store.Some? && r !in s.waiters then PrepareStep(s, s.store.value, r, ip, supplied) else s
    case Resume(r) => ResumeStep(s, r)
    case ClearOwn(r) => ClearOwnStep(s, r)
    case Check(r) =>
      if r in s.waiters && s.waiters[r].stage == Checking
      then SetStage(s, r, Finished(Admitted(s, s.waiters[r].ip, s.waiters[r].ip.text))) else s
    case Disconnect(r) => DisconnectStep(s, r)
    case Lookup(_, _) => s
    case Download(_, _, _) => s
  }

  // The settings step reads the PIN text only through its normal form.
  lemma UpdateIsStep(s: State, autoAccept: bool, pinText: string)
    ensures Next(s, Update(autoAccept, pinText)) ==
            if s.store.Some? && ByteLength(pinText) <= MAX_PIN_BYTES
            then UpdateStep(s, s.store.value, autoAccept, NormalizePin(pinText)) else s
  {
  }

  // The key of the request that lets the step hand out the share's contents, if it does.
  function Grants(s: State, a: Action): Option<string> {
    match a
    case Check(r) =>
      if r in s.waiters && s.waiters[r].stage == Checking && Admitted(s, s.waiters[r].ip, s.waiters[r].ip.text)
      then Some(s.waiters[r].ip.text) else None
    case Lookup(ip, key) => if Admitted(s, ip, key) then Some(key) else None
    case Download(ip, key, file) =>
      if Admitted(s, ip, key) && file in s.store.value.files then Some(key) else None
    case _ => None
  }

  // The address a granting step serves.
  function Served(s: State, a: Action): Option<Ip> {
    match a
    case Check(r) => if r in s.waiters then Some(s.waiters[r].ip) else None
    case Lookup(ip, _) => Some(ip)
    case Download(ip, _, _) => Some(ip)
    case _ => None
  }

  function Run(s: State, acts: seq<Action>): State {
    if acts == [] then s else Next(Run(s, acts[..|acts| - 1]), acts[|acts| - 1])
  }

  function At(s: State, acts: seq<Action>, k: nat): State
    requires k <= |acts|
  {
    Run(s, acts[..k])
  }

  lemma {:induction false} RunAppend(s: State, acts: seq<Action>, a: Action)
    ensures Run(s, acts + [a]) == Next(Run(s, acts), a)
    ensures forall k :: 0 <= k <= |acts| ==> At(s, acts + [a], k) == At(s, acts, k)
  {
    assert (acts + [a])[..|acts|] == acts;
    forall k | 0 <= k <= |acts|
      ensures At(s, acts + [a], k) == At(s, acts, k)
    {
      assert (acts + [a])[..k] == acts[..k];
    }
  }

  // ---- Traces ----

  // The states a log of actions goes through, one more than there are actions.
  ghost predicate IsTrace(states: seq<State>, acts: seq<Action>) {
    && |states| == |acts| + 1
    && forall k {:trigger acts[k]} :: 0 <= k < |acts| ==> states[k + 1] == Next(states[k], acts[k])
  }

  lemma TraceGrows(states: seq<State>, acts: seq<Action>, a: Action, t: State)
    requires IsTrace(states, acts) && t == Next(states[|acts|], a)
    ensures IsTrace(states + [t], acts + [a])
  {
  }

  lemma {:induction false} TraceIsRun(states: seq<State>, acts: seq<Action>, n: nat)
    requires IsTrace(states, acts) && n <= |acts|
    ensures states[n] == At(states[0], acts, n)
  {
    if n > 0 {
      TraceIsRun(states, acts, n - 1);
      assert states[n] == Next(states[n - 1], acts[n - 1]);
      assert acts[..n][..n - 1] == acts[..n - 1];
    }
  }
}
