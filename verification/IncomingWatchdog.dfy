/** A watchdog cancels a session only after 120 seconds without activity. */
module IncomingWatchdog {
  import opened Wrappers
  import opened Incoming

  // The step renews the session's idle deadline.
  predicate Touches(s: State, a: Action, x: SessionId) {
    || (a.Register? && s.loop == Listed(x))
    || (a.UploadRequested? && a.session == x && Next(s, a) != s && x in s.live.sessions)
    || (a.Progress? && a.task < |s.board.uploads| && s.board.uploads[a.task].touches
        && s.board.uploads[a.task].session == x)
  }

  // The step starts the watchdog's cancellation of the session.
  predicate Fires(s: State, a: Action, x: SessionId) {
    a == WatchFire(x) && Watching(s.live, x, Idling) && Watching(Next(s, a).live, x, Firing)
  }

  ghost predicate ActiveSince(s: State, x: SessionId, time: nat) {
    x in s.live.activity && s.live.activity[x] >= time
  }

  lemma ClockStep(s: State, a: Action, x: SessionId, time: nat)
    requires time <= s.live.now
    ensures Next(s, a).live.now >= s.live.now
    ensures Touches(s, a, x) || ActiveSince(s, x, time) ==> ActiveSince(Next(s, a), x, time)
  {
  }

  lemma {:induction false} ActivityIsKept(s: State, acts: seq<Action>, j: nat, k: nat, x: SessionId)
    requires j < k <= |acts| && Touches(At(s, acts, j), acts[j], x)
    ensures ActiveSince(At(s, acts, k), x, At(s, acts, j).live.now)
    ensures At(s, acts, k).live.now >= At(s, acts, j).live.now
    decreases k
  {
    RunStep(s, acts, k - 1);
    if k == j + 1 {
      ClockStep(At(s, acts, j), acts[j], x, At(s, acts, j).live.now);
    } else {
      ActivityIsKept(s, acts, j, k - 1, x);
      ClockStep(At(s, acts, k - 1), acts[k - 1], x, At(s, acts, j).live.now);
    }
  }

  // When a watchdog fires, every registration, upload start and progress report of the session happened at
  // least 120 seconds earlier.
  lemma FiresOnlyAfterSilence(s: State, acts: seq<Action>, j: nat, k: nat, x: SessionId)
    requires j < k < |acts| && Touches(At(s, acts, j), acts[j], x) && Fires(At(s, acts, k), acts[k], x)
    ensures At(s, acts, k).live.now - At(s, acts, j).live.now >= SESSION_IDLE_TIMEOUT
  {
    ActivityIsKept(s, acts, j, k, x);
  }

  // ---- The waiting loop ----

  // What a waiting watchdog sees: the activity time moves (which it may notice later), its sleep ends at some
  // time, the stop flag changes, or one of the channels closes.
  datatype Wake = Touched(at: nat) | Noticed | Slept(now: nat) | StopSet(on: bool) | Closed

  function LastTouch(start: nat, wakes: seq<Wake>): nat {
    if wakes == [] then start
    else
      var last := wakes[|wakes| - 1];
      if last.Touched? then last.at else LastTouch(start, wakes[..|wakes| - 1])
  }

  // The sleep ends and the session was silent for the whole timeout.
  predicate ExpiresAt(start: nat, wakes: seq<Wake>, k: nat)
    requires k < |wakes|
  {
    wakes[k].Slept? && wakes[k].now - LastTouch(start, wakes[..k]) >= SESSION_IDLE_TIMEOUT
  }

  predicate StopsAt(wakes: seq<Wake>, k: nat)
    requires k < |wakes|
  {
    wakes[k] == StopSet(true) || wakes[k] == Closed
  }

  // Nothing before wake k ends the wait.
  predicate WaitsUntil(start: nat, wakes: seq<Wake>, k: nat)
    requires k <= |wakes|
  {
    forall j :: 0 <= j < k ==> !ExpiresAt(start, wakes, j) && !StopsAt(wakes, j)
  }

  // The wait ends with the first expiry or stop, whichever comes first; the session is idle only on an expiry.
  method WaitForSessionIdle(start: nat, wakes: seq<Wake>) returns (idle: Option<bool>, k: nat)
    ensures k <= |wakes| && WaitsUntil(start, wakes, k)
    ensures idle.None? <==> k == |wakes|
    ensures idle == Some(true) ==> k < |wakes| && ExpiresAt(start, wakes, k)
    ensures idle == Some(false) ==> k < |wakes| && StopsAt(wakes, k)
  {
    var activity := start;
    k := 0;
    while k < |wakes|
      invariant k <= |wakes| && activity == LastTouch(start, wakes[..k]) && WaitsUntil(start, wakes, k)
    {
      assert wakes[..k + 1][..k] == wakes[..k];
      match wakes[k] {
        case Touched(at) => activity := at;
        case Noticed =>
        case Slept(now) =>
          if now - activity >= SESSION_IDLE_TIMEOUT {
            return Some(true), k;
          }
        case StopSet(on) =>
          if on {
            return Some(false), k;
          }
        case Closed => return Some(false), k;
      }
      k := k + 1;
    }
    return None, k;
  }
}
