/**
 The incoming side of a node: the LocalSend event loop, the user's decision, the idle watchdogs and the
 per-upload result tasks, interleaved at every lock scope.

 A stretch of code between two await points or lock scopes is one action.  `Next` is total: an action that
 is not enabled (or an event the server cannot send, such as a reused session id) leaves the state alone, so
 every sequence of actions is a run.
 */
module Incoming {
  import opened Wrappers
  import opened Numbers

  // Session and file ids are opaque; only their equality matters.
  type SessionId = int
  type FileId = int

  const MAX_INCOMING_FILES := 100
  const MAX_LISTED := 100
  const SESSION_IDLE_TIMEOUT := 120

  datatype File = File(id: FileId, name: string, size: nat)

  datatype Status = Waiting | Receiving | Completed | Failed

  datatype Reason = Declined | Expired | Cancelled | Aborted | TimedOut | NoDestination | UploadFailed(text: string)

  datatype Transfer = Transfer(session: SessionId, file: FileId, name: string, total: nat,
                               transferred: nat, status: Status, error: Option<Reason>)

  datatype Decision = Accept(ids: set<FileId>) | Decline

  datatype Decided = Decided(session: SessionId, decision: Decision)

  // What a decision task sees of its one-shot channel: the sender is in the pending slot, it was used, or it
  // was dropped without being used.
  datatype Channel = Open | Answered(accepted: bool) | Hung

  // Who still owes whom a decision.
  datatype Consent = Consent(requests: map<SessionId, seq<File>>, pending: Option<SessionId>,
                             waiting: map<SessionId, Channel>, decisions: seq<Decided>)

  datatype Upload = Upload(session: SessionId, file: File, touches: bool)

  // A result task: waiting for the upload, moved into place, in the history, progress stored.
  datatype Phase = Saving | Linked(name: string) | Recorded | Stored

  datatype Received = Received(upload: nat, name: string, size: nat)

  // `uploads` lists the uploads ever started; a result task is named by its position there, and a progress
  // task for any of them may still be running.
  datatype Board = Board(incoming: seq<Transfer>, uploads: seq<Upload>, tasks: map<nat, Phase>, history: seq<Received>)

  datatype Watch = Idling | Firing | Forgotten | Cleared

  datatype Liveness = Liveness(now: nat, sessions: set<SessionId>, stopped: set<SessionId>,
                               watchdogs: map<SessionId, Watch>, activity: map<SessionId, nat>)

  // Where the event loop is suspended.
  datatype Loop =
    | Idle
    | Listed(session: SessionId)
    | Registered(session: SessionId)
    | Preparing(session: SessionId, file: File, touches: bool)
    | Ending(session: SessionId, fails: Option<Reason>)
    | Ended(session: SessionId, reason: Reason)

  datatype State = State(maxBytes: nat, autoAccept: bool, loop: Loop, consent: Consent, board: Board, live: Liveness)

  datatype Action =
    | SetAutoAccept(on: bool)
    | Tick(seconds: nat)
    | Prepare(session: SessionId, files: seq<File>)
    | Register
    | Pend
    | UserDecides(accepted: bool)
    | Resolve(session: SessionId)
    | UploadRequested(session: SessionId, file: File)
    | DirectoryReady(ok: bool)
    | SessionEnds(session: SessionId, cancelled: bool)
    | PrepareAborts(session: SessionId)
    | CheckSlot
    | FailEnded
    | WatchStop(session: SessionId)
    | WatchFire(session: SessionId)
    | WatchForget(session: SessionId)
    | WatchClear(session: SessionId)
    | WatchFail(session: SessionId)
    | TaskFails(task: nat, text: string)
    | TaskLinks(task: nat, name: string)
    | TaskRecords(task: nat)
    | TaskStores(task: nat)
    | TaskCompletes(task: nat)
    | Progress(task: nat, written: nat)

  function Initial(maxBytes: nat, autoAccept: bool): State {
    State(maxBytes, autoAccept, Idle, Consent(map[], None, map[], []), Board([], [], map[], []),
          Liveness(0, {}, {}, map[], map[]))
  }

  // ---- Requests and decisions ----

  function TotalSize(files: seq<File>): nat {
    if files == [] then 0 else files[0].size + TotalSize(files[1..])
  }

  // The unchecked `sum::<u64>()` of a release build.
  function WrappedSize(files: seq<File>): nat {
    TotalSize(files) % U64_RANGE
  }

  predicate Oversized(files: seq<File>, maxBytes: nat) {
    WrappedSize(files) > maxBytes || |files| > MAX_INCOMING_FILES
  }

  predicate DistinctIds(files: seq<File>) {
    forall i, j :: 0 <= i < j < |files| ==> files[i].id != files[j].id
  }

  function Ids(files: seq<File>): set<FileId> {
    set f | f in files :: f.id
  }

  function Offer(c: Consent, x: SessionId, files: seq<File>): Consent {
    c.(requests := c.requests[x := files])
  }

  function Conclude(c: Consent, x: SessionId, d: Decision): Consent {
    c.(decisions := c.decisions + [Decided(x, d)])
  }

  // Dropping the pending transfer hangs up on the decision task that waits for it.
  function DropPending(c: Consent): Consent {
    match c.pending
    case None => c
    case Some(x) => c.(pending := None, waiting := c.waiting[x := Hung])
  }

  function FillSlot(c: Consent, x: SessionId): Consent {
    var d := DropPending(c);
    d.(pending := Some(x), waiting := d.waiting[x := Open])
  }

  function TakeSlot(c: Consent, accepted: bool): Consent {
    match c.pending
    case None => c
    case Some(x) => c.(pending := None, waiting := c.waiting[x := Answered(accepted)])
  }

  function ClearSlot(c: Consent, x: SessionId): Consent {
    if c.pending == Some(x) then DropPending(c) else c
  }

  function Verdict(c: Consent, x: SessionId): Decision
    requires x in c.waiting && x in c.requests
  {
    if c.waiting[x] == Answered(true) then Accept(Ids(c.requests[x])) else Decline
  }

  function ResolveOne(c: Consent, x: SessionId): Consent
    requires x in c.waiting && x in c.requests
  {
    Conclude(c.(waiting := c.waiting - {x}), x, Verdict(c, x))
  }

  // ---- The transfer list ----

  predicate Names(t: Transfer, x: SessionId, f: FileId) {
    t.session == x && t.file == f
  }

  // Position of the first entry for the file, or the length of the list.
  function Find(ts: seq<Transfer>, x: SessionId, f: FileId): (k: nat)
    ensures k <= |ts|
    ensures k < |ts| ==> Names(ts[k], x, f)
    ensures forall i :: 0 <= i < k ==> !Names(ts[i], x, f)
  {
    if ts == [] then 0
    else if Names(ts[0], x, f) then 0
    else 1 + Find(ts[1..], x, f)
  }

  function Fresh(x: SessionId, f: File): Transfer {
    Transfer(x, f.id, f.name, f.size, 0, Waiting, None)
  }

  function Entries(x: SessionId, files: seq<File>): seq<Transfer> {
    seq(|files|, i requires 0 <= i < |files| => Fresh(x, files[i]))
  }

  function RemoveCount(listed: nat, added: nat): nat {
    if listed + added > MAX_LISTED
    then (if listed + added - MAX_LISTED < listed then listed + added - MAX_LISTED else listed)
    else 0
  }

  function List(b: Board, x: SessionId, files: seq<File>): Board {
    b.(incoming := b.incoming[RemoveCount(|b.incoming|, |files|)..] + Entries(x, files))
  }

  function SetResult(ts: seq<Transfer>, x: SessionId, f: FileId, status: Status, error: Option<Reason>): seq<Transfer> {
    var k := Find(ts, x, f);
    if k < |ts| then ts[k := ts[k].(status := status, error := error)] else ts
  }

  function SetProgress(ts: seq<Transfer>, x: SessionId, f: FileId, bytes: nat): seq<Transfer> {
    var k := Find(ts, x, f);
    if k < |ts| then ts[k := ts[k].(transferred := bytes)] else ts
  }

  function SetReceiving(ts: seq<Transfer>, x: SessionId, f: FileId): seq<Transfer> {
    var k := Find(ts, x, f);
    if k < |ts| then ts[k := ts[k].(status := Receiving)] else ts
  }

  function FailOne(t: Transfer, x: SessionId, reason: Reason): Transfer {
    if t.session == x && (t.status == Waiting || t.status == Receiving)
    then t.(status := Failed, error := Some(reason))
    else t
  }

  function FailSession(ts: seq<Transfer>, x: SessionId, reason: Reason): seq<Transfer> {
    seq(|ts|, i requires 0 <= i < |ts| => FailOne(ts[i], x, reason))
  }

  function FailBoard(b: Board, x: SessionId, reason: Reason): Board {
    b.(incoming := FailSession(b.incoming, x, reason))
  }

  function StartUpload(b: Board, u: Upload): Board {
    b.(incoming := SetReceiving(b.incoming, u.session, u.file.id),
       uploads := b.uploads + [u],
       tasks := b.tasks[|b.uploads| := Saving])
  }

  function FinishTask(b: Board, t: nat, status: Status, error: Option<Reason>): Board
    requires t < |b.uploads|
  {
    var u := b.uploads[t];
    b.(incoming := SetResult(b.incoming, u.session, u.file.id, status, error), tasks := b.tasks - {t})
  }

  function RecordTask(b: Board, t: nat, name: string): Board
    requires t < |b.uploads|
  {
    b.(history := b.history + [Received(t, name, b.uploads[t].file.size)], tasks := b.tasks[t := Recorded])
  }

  function StoreBytes(b: Board, t: nat, bytes: nat): Board
    requires t < |b.uploads|
  {
    b.(incoming := SetProgress(b.incoming, b.uploads[t].session, b.uploads[t].file.id, bytes))
  }

  // ---- Sessions and watchdogs ----

  function Enroll(l: Liveness, x: SessionId): Liveness {
    l.(sessions := l.sessions + {x}, watchdogs := l.watchdogs[x := Idling], activity := l.activity[x := l.now])
  }

  function Touch(l: Liveness, x: SessionId): Liveness {
    l.(activity := l.activity[x := l.now])
  }

  function EndSession(l: Liveness, x: SessionId): Liveness {
    if x in l.sessions then l.(sessions := l.sessions - {x}, stopped := l.stopped + {x}) else l
  }

  predicate Watching(l: Liveness, x: SessionId, w: Watch) {
    x in l.watchdogs && l.watchdogs[x] == w
  }

  predicate IdleLongEnough(l: Liveness, x: SessionId) {
    x in l.activity && l.now - l.activity[x] >= SESSION_IDLE_TIMEOUT
  }

  // ---- Steps ----

  predicate InPhase(b: Board, t: nat, p: Phase) {
    t < |b.uploads| && t in b.tasks && b.tasks[t] == p
  }

  predicate IsLinked(b: Board, t: nat) {
    t < |b.uploads| && t in b.tasks && b.tasks[t].Linked?
  }

  predicate PrepareEnabled(s: State, x: SessionId, files: seq<File>) {
    s.loop.Idle? && x !in s.consent.requests && DistinctIds(files)
  }

  function PrepareStep(s: State, x: SessionId, files: seq<File>): State
  {
    var c := Offer(s.consent, x, files);
    if Oversized(files, s.maxBytes) then s.(consent := Conclude(c, x, Decline))
    else s.(consent := c, board := List(s.board, x, files), loop := Listed(x))
  }

  function RegisterStep(s: State, x: SessionId): State {
    var l := Enroll(s.live, x);
    if s.autoAccept && x in s.consent.requests
    then s.(live := l, loop := Idle, consent := Conclude(s.consent, x, Accept(Ids(s.consent.requests[x]))))
    else s.(live := l, loop := Registered(x))
  }

  function ResolveStep(s: State, x: SessionId): State {
    var c := s.consent;
    if x in c.waiting && !c.waiting[x].Open? && x in c.requests then
      var t := s.(consent := ResolveOne(c, x));
      match c.waiting[x]
      case Answered(true) => t
      case Answered(false) => t.(board := FailBoard(s.board, x, Declined))
      case _ => t.(board := FailBoard(s.board, x, Expired))
    else s
  }

  function DirectoryStep(s: State, x: SessionId, f: File, touches: bool, ok: bool): State {
    if ok then s.(loop := Idle, board := StartUpload(s.board, Upload(x, f, touches)))
    else s.(loop := Idle,
            board := s.board.(incoming := SetResult(s.board.incoming, x, f.id, Failed, Some(NoDestination))))
  }

  // What a result or progress task does to the board.
  function TaskStep(b: Board, a: Action): Board {
    match a
    case TaskFails(t, text) =>
      if InPhase(b, t, Saving) then FinishTask(b, t, Failed, Some(UploadFailed(text))) else b
    case TaskLinks(t, name) =>
      if InPhase(b, t, Saving) then b.(tasks := b.tasks[t := Linked(name)]) else b
    case TaskRecords(t) => if IsLinked(b, t) then RecordTask(b, t, b.tasks[t].name) else b
    case TaskStores(t) =>
      if InPhase(b, t, Recorded)
      then var c := StoreBytes(b, t, b.uploads[t].file.size); c.(tasks := c.tasks[t := Stored])
      else b
    case TaskCompletes(t) => if InPhase(b, t, Stored) then FinishTask(b, t, Completed, None) else b
    case Progress(t, written) =>
      if t < |b.uploads| then StoreBytes(b, t, Min(written, b.uploads[t].file.size)) else b
    case _ => b
  }

  // A progress report renews the idle deadline it was given.
  function AfterProgress(l: Liveness, b: Board, t: nat): Liveness {
    if t < |b.uploads| && b.uploads[t].touches then Touch(l, b.uploads[t].session) else l
  }

  function EndStep(s: State, x: SessionId, fails: Option<Reason>): State {
    s.(live := EndSession(s.live, x), loop := Ending(x, fails))
  }

  function CheckSlotStep(s: State): State
    requires s.loop.Ending?
  {
    var c := ClearSlot(s.consent, s.loop.session);
    match s.loop.fails
    case None => s.(consent := c, loop := Idle)
    case Some(reason) => s.(consent := c, loop := Ended(s.loop.session, reason))
  }

  // One atomic step of any of the concurrent parties.
  function Next(s: State, a: Action): State {
    match a
    case SetAutoAccept(on) => s.(autoAccept := on)
    case Tick(seconds) => s.(live := s.live.(now := s.live.now + seconds))
    case Prepare(x, files) => if PrepareEnabled(s, x, files) then PrepareStep(s, x, files) else s
    case Register => if s.loop.Listed? then RegisterStep(s, s.loop.session) else s
    case Pend =>
      if s.loop.Registered? then s.(loop := Idle, consent := FillSlot(s.consent, s.loop.session)) else s
    case UserDecides(accepted) => s.(consent := TakeSlot(s.consent, accepted))
    case Resolve(x) => ResolveStep(s, x)
    case UploadRequested(x, f) =>
      if s.loop.Idle? && x in s.consent.requests && f in s.consent.requests[x]
      then s.(loop := Preparing(x, f, x in s.live.sessions),
              live := if x in s.live.sessions then Touch(s.live, x) else s.live)
      else s
    case DirectoryReady(ok) =>
      if s.loop.Preparing? then DirectoryStep(s, s.loop.session, s.loop.file, s.loop.touches, ok) else s
    case SessionEnds(x, cancelled) =>
      if s.loop.Idle? then EndStep(s, x, if cancelled then Some(Reason.Cancelled) else None) else s
    case PrepareAborts(x) => if s.loop.Idle? then EndStep(s, x, Some(Aborted)) else s
    case CheckSlot => if s.loop.Ending? then CheckSlotStep(s) else s
    case FailEnded =>
      if s.loop.Ended? then s.(loop := Idle, board := FailBoard(s.board, s.loop.session, s.loop.reason)) else s
    case WatchStop(x) =>
      if Watching(s.live, x, Idling) && x in s.live.stopped
      then s.(live := s.live.(watchdogs := s.live.watchdogs - {x})) else s
    case WatchFire(x) =>
      if Watching(s.live, x, Idling) && IdleLongEnough(s.live, x)
      then s.(live := s.live.(watchdogs := s.live.watchdogs[x := Firing])) else s
    case WatchForget(x) =>
      if Watching(s.live, x, Firing)
      then s.(live := s.live.(watchdogs := s.live.watchdogs[x := Forgotten], sessions := s.live.sessions - {x})) else s
    case WatchClear(x) =>
      if Watching(s.live, x, Forgotten)
      then s.(live := s.live.(watchdogs := s.live.watchdogs[x := Watch.Cleared]), consent := ClearSlot(s.consent, x))
      else s
    case WatchFail(x) =>
      if Watching(s.live, x, Watch.Cleared)
      then s.(live := s.live.(watchdogs := s.live.watchdogs - {x}), board := FailBoard(s.board, x, TimedOut)) else s
    case TaskFails(_, _) => s.(board := TaskStep(s.board, a))
    case TaskLinks(_, _) => s.(board := TaskStep(s.board, a))
    case TaskRecords(_) => s.(board := TaskStep(s.board, a))
    case TaskStores(_) => s.(board := TaskStep(s.board, a))
    case TaskCompletes(_) => s.(board := TaskStep(s.board, a))
    case Progress(t, _) => s.(board := TaskStep(s.board, a), live := AfterProgress(s.live, s.board, t))
  }

  function Run(s: State, acts: seq<Action>): State {
    if acts == [] then s else Next(Run(s, acts[..|acts| - 1]), acts[|acts| - 1])
  }

  // The state before action k of a run.
  function At(s: State, acts: seq<Action>, k: nat): State
    requires k <= |acts|
  {
    Run(s, acts[..k])
  }

  lemma {:induction false} RunStep(s: State, acts: seq<Action>, k: nat)
    requires k < |acts|
    ensures At(s, acts, k + 1) == Next(At(s, acts, k), acts[k])
  {
    assert acts[..k + 1][..k] == acts[..k];
  }

  lemma RunSnoc(s: State, acts: seq<Action>, a: Action)
    ensures Run(s, acts + [a]) == Next(Run(s, acts), a)
  {
    assert (acts + [a])[..|acts|] == acts;
  }

  lemma {:induction false} RunAppend(s: State, acts: seq<Action>, a: Action)
    ensures Run(s, acts + [a]) == Next(Run(s, acts), a)
    ensures forall k :: 0 <= k <= |acts| ==> At(s, acts + [a], k) == At(s, acts, k)
  {
    assert (acts + [a])[..|acts|] == acts;
    forall k | 0 <= k <= |acts|
      ensures At(s, acts + [a], k) == At(s, acts, k)
    {
      assert (acts + [a])[..k] == acts[..k];
    }
  }

  // ---- Traces ----

  // The states a log of actions goes through, one more than there are actions.
  ghost predicate IsTrace(states: seq<State>, acts: seq<Action>) {
    && |states| == |acts| + 1
    && forall k {:trigger acts[k]} :: 0 <= k < |acts| ==> states[k + 1] == Next(states[k], acts[k])
  }

  lemma TraceGrows(states: seq<State>, acts: seq<Action>, a: Action, t: State)
    requires IsTrace(states, acts) && t == Next(states[|acts|], a)
    ensures IsTrace(states + [t], acts + [a])
  {
  }

  lemma {:induction false} TraceIsRun(states: seq<State>, acts: seq<Action>, n: nat)
    requires IsTrace(states, acts) && n <= |acts|
    ensures states[n] == At(states[0], acts, n)
  {
    if n > 0 {
      TraceIsRun(states, acts, n - 1);
      assert states[n] == Next(states[n - 1], acts[n - 1]);
      assert acts[..n][..n - 1] == acts[..n - 1];
    }
  }
}
