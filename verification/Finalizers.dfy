/** Any number of finalizers, and other programs adding files, working on one directory at once. */
module Finalizers {
  import opened Wrappers
  import opened Finalize

  // Trying names, linked under a name, temporary file gone, given up (perhaps after linking), cleaned up.
  // A clean-up that fails is one that never happens.
  datatype Stage =
    | Trying
    | Linked(name: string)
    | Moved(name: string)
    | Broken(left: Option<string>)
    | Cleaned(left: Option<string>)

  datatype Worker = Worker(temporary: string, requested: string, content: Content, index: nat, stage: Stage)

  datatype State = State(dir: map<string, Content>, workers: seq<Worker>)

  datatype Action =
    | Begin(temporary: string, requested: string, content: Content)
    | Attempt(worker: nat, fault: bool)
    | Unlink(worker: nat, ok: bool)
    | Discard(worker: nat)
    | Create(name: string, content: Content)

  function SetStage(s: State, k: nat, stage: Stage): State
    requires k < |s.workers|
  {
    s.(workers := s.workers[k := s.workers[k].(stage := stage)])
  }

  function AttemptStep(s: State, k: nat, fault: bool): State
    requires k < |s.workers|
  {
    var w := s.workers[k];
    var name := NumberedName(w.requested, w.index);
    if fault then SetStage(s, k, Broken(None))
    else if name in s.dir then s.(workers := s.workers[k := w.(index := w.index + 1)])
    else SetStage(s.(dir := s.dir[name := w.content]), k, Linked(name))
  }

  function Next(s: State, a: Action): State {
    match a
    case Begin(temporary, requested, content) =>
      if temporary in s.dir then s
      else State(s.dir[temporary := content], s.workers + [Worker(temporary, requested, content, 0, Trying)])
    case Attempt(k, fault) => if k < |s.workers| && s.workers[k].stage.Trying? then AttemptStep(s, k, fault) else s
    case Unlink(k, ok) =>
      if k < |s.workers| && s.workers[k].stage.Linked? then
        var w := s.workers[k];
        if ok then SetStage(s.(dir := s.dir - {w.temporary}), k, Moved(w.stage.name))
        else SetStage(s, k, Broken(Some(w.stage.name)))
      else s
    case Discard(k) =>
      if k < |s.workers| && s.workers[k].stage.Broken? then
        SetStage(s.(dir := s.dir - {s.workers[k].temporary}), k, Cleaned(s.workers[k].stage.left))
      else s
    case Create(name, content) => if name in s.dir then s else s.(dir := s.dir[name := content])
  }

  function Run(s: State, acts: seq<Action>): State {
    if acts == [] then s else Next(Run(s, acts[..|acts| - 1]), acts[|acts| - 1])
  }

  // Every name the directory ever held along the run.
  function EverPresent(s: State, acts: seq<Action>): set<string> {
    if acts == [] then s.dir.Keys
    else EverPresent(s, acts[..|acts| - 1]) + Run(s, acts).dir.Keys
  }

  function Placed(w: Worker): Option<string> {
    match w.stage
    case Trying => None
    case Linked(name) => Some(name)
    case Moved(name) => Some(name)
    case Broken(left) => left
    case Cleaned(left) => left
  }

  predicate HoldsTemporary(w: Worker) {
    w.stage.Trying? || w.stage.Linked? || w.stage.Broken?
  }

  ghost predicate WorkerInv(dir: map<string, Content>, w: Worker) {
    && (HoldsTemporary(w) ==> w.temporary in dir && dir[w.temporary] == w.content)
    && (Placed(w).Some? ==>
          var name := Placed(w).value;
          name == NumberedName(w.requested, w.index) && name in dir && dir[name] == w.content)
  }

  ghost predicate Apart(v: Worker, w: Worker) {
    && (HoldsTemporary(v) && HoldsTemporary(w) ==> v.temporary != w.temporary)
    && (Placed(v).Some? && Placed(w).Some? ==> Placed(v) != Placed(w))
    && (HoldsTemporary(v) ==> Placed(w) != Some(v.temporary))
  }

  ghost predicate Inv(s: State) {
    && (forall k :: 0 <= k < |s.workers| ==> WorkerInv(s.dir, s.workers[k]))
    && (forall k :: 0 <= k < |s.workers| && HoldsTemporary(s.workers[k]) ==>
          Placed(s.workers[k]) != Some(s.workers[k].temporary))
    && (forall j, k :: 0 <= j < |s.workers| && 0 <= k < |s.workers| && j != k ==> Apart(s.workers[j], s.workers[k]))
  }

  lemma StepKeepsInv(s: State, a: Action)
    requires Inv(s)
    ensures Inv(Next(s, a))
  {
    match a
    case Attempt(k, fault) =>
      if k < |s.workers| && s.workers[k].stage.Trying? {
        AttemptKeepsInv(s, k, fault);
      }
    case Unlink(k, ok) =>
      if k < |s.workers| && s.workers[k].stage.Linked? {
        RemovalKeepsInv(s, k, if ok then Moved(s.workers[k].stage.name) else Broken(Some(s.workers[k].stage.name)), ok);
      }
    case Discard(k) =>
      if k < |s.workers| && s.workers[k].stage.Broken? {
        RemovalKeepsInv(s, k, Cleaned(s.workers[k].stage.left), true);
      }
    case _ =>
  }

  lemma AttemptKeepsInv(s: State, k: nat, fault: bool)
    requires Inv(s) && k < |s.workers| && s.workers[k].stage.Trying?
    ensures Inv(AttemptStep(s, k, fault))
  {
    var w := s.workers[k];
    var name := NumberedName(w.requested, w.index);
    assert WorkerInv(s.dir, w);
    if fault {
    } else if name in s.dir {
    } else {
      LinkKeepsInv(s, k, name);
    }
  }

  // A name the directory did not hold is nobody's temporary file and nobody's delivery.
  lemma LinkKeepsInv(s: State, k: nat, name: string)
    requires Inv(s) && k < |s.workers| && s.workers[k].stage.Trying?
    requires name == NumberedName(s.workers[k].requested, s.workers[k].index) && name !in s.dir
    ensures Inv(SetStage(s.(dir := s.dir[name := s.workers[k].content]), k, Linked(name)))
  {
    var t := SetStage(s.(dir := s.dir[name := s.workers[k].content]), k, Linked(name));
    forall j | 0 <= j < |s.workers|
      ensures WorkerInv(s.dir, s.workers[j])
      ensures HoldsTemporary(s.workers[j]) ==> s.workers[j].temporary != name
      ensures Placed(s.workers[j]) != Some(name)
    {
    }
  }

  // A worker that keeps its name, and perhaps gives up its temporary file, disturbs no other.
  lemma RemovalKeepsInv(s: State, k: nat, stage: Stage, removes: bool)
    requires Inv(s) && k < |s.workers| && HoldsTemporary(s.workers[k])
    requires Placed(s.workers[k].(stage := stage)) == Placed(s.workers[k])
    requires removes <==> !HoldsTemporary(s.workers[k].(stage := stage))
    ensures Inv(SetStage(if removes then s.(dir := s.dir - {s.workers[k].temporary}) else s, k, stage))
  {
    var t := SetStage(if removes then s.(dir := s.dir - {s.workers[k].temporary}) else s, k, stage);
    forall j | 0 <= j < |s.workers| && j != k
      ensures WorkerInv(t.dir, t.workers[j])
    {
      assert Apart(s.workers[j], s.workers[k]) && Apart(s.workers[k], s.workers[j]);
      assert WorkerInv(s.dir, s.workers[j]);
    }
    assert WorkerInv(s.dir, s.workers[k]);
  }

  lemma {:induction false} RunKeepsInv(s: State, acts: seq<Action>)
    requires Inv(s)
    ensures Inv(Run(s, acts))
  {
    if acts != [] {
      RunKeepsInv(s, acts[..|acts| - 1]);
      StepKeepsInv(Run(s, acts[..|acts| - 1]), acts[|acts| - 1]);
    }
  }

  // No step overwrites a file: an existing name keeps its content, or is a temporary file removed by its owner.
  lemma StepNeverOverwrites(s: State, a: Action, name: string)
    requires name in s.dir
    ensures name in Next(s, a).dir ==> Next(s, a).dir[name] == s.dir[name]
    ensures name !in Next(s, a).dir ==>
              (a.Unlink? || a.Discard?) && a.worker < |s.workers| && s.workers[a.worker].temporary == name
  {
  }

  lemma PlacedIsKept(s: State, a: Action, k: nat)
    requires k < |s.workers|
    ensures k < |Next(s, a).workers|
    ensures Next(s, a).workers[k].content == s.workers[k].content
    ensures Placed(s.workers[k]).Some? ==> Placed(Next(s, a).workers[k]) == Placed(s.workers[k])
  {
  }

  lemma {:induction false} DeliveredIsKept(s: State, acts: seq<Action>, k: nat)
    requires Inv(s) && k < |s.workers| && Placed(s.workers[k]).Some?
    ensures k < |Run(s, acts).workers|
    ensures Run(s, acts).workers[k].content == s.workers[k].content
    ensures Placed(Run(s, acts).workers[k]) == Placed(s.workers[k])
  {
    if acts != [] {
      DeliveredIsKept(s, acts[..|acts| - 1], k);
      PlacedIsKept(Run(s, acts[..|acts| - 1]), acts[|acts| - 1], k);
    }
  }

  // Two finalizers never get the same path, and each delivered file holds its own upload from then on.
  lemma DeliveriesAreSafe(dir: map<string, Content>, acts: seq<Action>, more: seq<Action>, j: nat, k: nat)
    requires j < k < |Run(State(dir, []), acts).workers|
    requires Placed(Run(State(dir, []), acts).workers[j]).Some? && Placed(Run(State(dir, []), acts).workers[k]).Some?
    ensures var s := Run(State(dir, []), acts);
            var later := Run(s, more).dir;
            var mine, other := Placed(s.workers[j]).value, Placed(s.workers[k]).value;
            && mine != other
            && mine in later && later[mine] == s.workers[j].content
            && other in later && later[other] == s.workers[k].content
  {
    RunKeepsInv(State(dir, []), acts);
    var s := Run(State(dir, []), acts);
    assert Apart(s.workers[j], s.workers[k]);
    RunKeepsInv(s, more);
    DeliveredIsKept(s, more, j);
    DeliveredIsKept(s, more, k);
    assert WorkerInv(Run(s, more).dir, Run(s, more).workers[j]);
    assert WorkerInv(Run(s, more).dir, Run(s, more).workers[k]);
  }

  ghost predicate WorkerTried(w: Worker, names: set<string>) {
    forall i :: 0 <= i < w.index ==> NumberedName(w.requested, i) in names
  }

  ghost predicate TriedArePresent(s: State, names: set<string>) {
    forall k :: 0 <= k < |s.workers| ==> WorkerTried(s.workers[k], names)
  }

  lemma {:induction false} RunKeepsTried(s: State, acts: seq<Action>)
    requires s.workers == []
    ensures TriedArePresent(Run(s, acts), EverPresent(s, acts))
    ensures Run(s, acts).dir.Keys <= EverPresent(s, acts)
  {
    if acts != [] {
      RunKeepsTried(s, acts[..|acts| - 1]);
      var before := Run(s, acts[..|acts| - 1]);
      TriedAfterStep(before, acts[|acts| - 1], EverPresent(s, acts[..|acts| - 1]));
    }
  }

  lemma TriedAfterStep(s: State, a: Action, names: set<string>)
    requires TriedArePresent(s, names) && s.dir.Keys <= names
    ensures TriedArePresent(Next(s, a), names)
  {
    var t := Next(s, a);
    forall k | 0 <= k < |t.workers|
      ensures WorkerTried(t.workers[k], names)
    {
      if k < |s.workers| {
        WorkerAfterStep(s, a, k);
        SearchMovesOn(s.workers[k], t.workers[k], s.dir.Keys, names);
      }
    }
  }

  lemma SearchMovesOn(w: Worker, v: Worker, taken: set<string>, names: set<string>)
    requires WorkerTried(w, names) && v.requested == w.requested && taken <= names
    requires v.index == w.index || (v.index == w.index + 1 && NumberedName(w.requested, w.index) in taken)
    ensures WorkerTried(v, names)
  {
  }

  // A step leaves a worker's search where it was, or moves it past a name that is taken.
  lemma WorkerAfterStep(s: State, a: Action, k: nat)
    requires k < |s.workers|
    ensures var w, v := s.workers[k], Next(s, a).workers[k];
            && v.requested == w.requested
            && (v.index == w.index || (v.index == w.index + 1 && NumberedName(w.requested, w.index) in s.dir))
  {
  }

  // No search goes past the number of names the directory ever held, whatever the others do meanwhile.
  lemma SearchIsBounded(dir: map<string, Content>, acts: seq<Action>, k: nat)
    requires k < |Run(State(dir, []), acts).workers|
    ensures Run(State(dir, []), acts).workers[k].index <= |EverPresent(State(dir, []), acts)|
  {
    RunKeepsTried(State(dir, []), acts);
    var w := Run(State(dir, []), acts).workers[k];
    TakenNamesBound(w.requested, w.index, EverPresent(State(dir, []), acts));
  }
}
