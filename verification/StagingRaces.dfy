/**
 Staging with requests in progress side by side: forms for link shares and for sends, stops, and clean-ups.

 A step is what a handler does between two waits, with one field of a form as one step. A handler can be dropped
 wherever it waits; its guards then hand over what they hold. A file counts as deleted once its removal was asked
 for. `Next` is total: an action that is not enabled does nothing.
 */
module StagingRaces {
  import opened Wrappers
  import opened Staging
  import S = ShareStaging
  import T = SendStaging

  type Request = int

  datatype Phase =
    | ShareForm(parts: seq<S.Part>)                     // reading, the guard armed with the files read
    | Retiring(own: set<string>, rest: set<string>)     // its share is in force and the guard still armed;
                                                        // `rest` is what is left of the replaced share
    | Stopping(rest: set<string>)
    | SendForm(fields: seq<T.Part>)
    | Sending(paths: set<string>)

  datatype State = State(limit: nat, active: Option<S.Share>, requests: map<Request, Phase>,
                         created: set<string>, deleted: set<string>)

  datatype Action =
    | OpenShare(r: Request)
    | ShareField(r: Request, part: S.Part)
    | Commit(r: Request, id: string, first: string)
    | Stop(r: Request, id: string, first: string)
    | Delete(r: Request, path: string)
    | Finish(r: Request)
    | OpenSend(r: Request)
    | SendField(r: Request, field: T.Part)
    | StartSend(r: Request)
    | Drop(r: Request)

  function Initial(limit: nat): State {
    State(limit, None, map[], {}, {})
  }

  function Live(s: State): set<string> {
    s.created - s.deleted
  }

  // The files only this request still answers for.
  function Held(p: Phase): set<string> {
    match p
    case ShareForm(parts) => S.Read(parts).files.Keys
    case Retiring(_, rest) => rest
    case Stopping(rest) => rest
    case SendForm(fields) => T.Paths(T.Uploads(fields))
    case Sending(paths) => paths
  }

  // ---- Steps ----

  function Put(s: State, r: Request, p: Phase): State {
    s.(requests := s.requests[r := p])
  }

  // A field was taken; its file, if it is one, is created.
  function Take(s: State, r: Request, p: Phase, path: set<string>): State {
    s.(requests := s.requests[r := p], created := s.created + path)
  }

  // The request ends; its files, and the one just created, are handed to deletion.
  function Discard(s: State, r: Request, made: set<string>): State
    requires r in s.requests
  {
    s.(requests := s.requests - {r}, created := s.created + made, deleted := s.deleted + Held(s.requests[r]) + made)
  }

  // The request ends with these files deleted; what else it had to delete is left.
  function Leave(s: State, r: Request, undone: set<string>): State {
    s.(requests := s.requests - {r}, deleted := s.deleted + undone)
  }

  // The file of a refused field exists only if the field got as far as creating it.
  predicate ShareCreates(parts: seq<S.Part>, part: S.Part) {
    && part.File? && part.file.creates
    && |parts| < S.MAX_SHARE_FIELDS && |S.Read(parts).files| < S.MAX_SHARE_FILES
  }

  predicate SendCreates(fields: seq<T.Part>, field: T.Part) {
    var targets := T.Distinct(T.ListedTargets(fields));
    && field.File? && field.file.creates && |T.Uploads(fields)| < T.MAX_SEND_FILES
    && targets != [] && T.AllKnown(targets, field.known)
  }

  function ShareFieldStep(s: State, r: Request, parts: seq<S.Part>, part: S.Part): State
    requires r in s.requests
  {
    if |parts| < S.MAX_SHARE_FIELDS && S.Adds(S.Read(parts), part, s.limit)
    then Take(s, r, ShareForm(parts + [part]), S.PathOf(part))
    else Discard(s, r, if ShareCreates(parts, part) then S.PathOf(part) else {})
  }

  ghost function SendFieldStep(s: State, r: Request, fields: seq<T.Part>, field: T.Part): State
    requires r in s.requests
  {
    if T.Fine(fields + [field], |fields|, s.limit)
    then Take(s, r, SendForm(fields + [field]), T.PathOf(field))
    else Discard(s, r, if SendCreates(fields, field) then T.PathOf(field) else {})
  }

  // The end of a share form. Replacing a share, the handler waits for the first of its files to be removed.
  function CommitStep(s: State, r: Request, parts: seq<S.Part>, id: string, first: string): State
    requires r in s.requests
  {
    var draft := S.Read(parts);
    if draft.files == map[] || draft.url.None? then Discard(s, r, {})
    else if s.active.None? then Leave(s, r, {}).(active := Some(S.ShareOf(id, draft)))
    else if first in s.active.value.files then
      Put(s, r, Retiring(draft.files.Keys, s.active.value.files.Keys - {first}))
        .(active := Some(S.ShareOf(id, draft)), deleted := s.deleted + {first})
    else s
  }

  function StopStep(s: State, r: Request, id: string, first: string): State {
    if s.active.Some? && s.active.value.id == id && first in s.active.value.files then
      Put(s, r, Stopping(s.active.value.files.Keys - {first})).(active := None, deleted := s.deleted + {first})
    else s
  }

  function DeleteStep(s: State, r: Request, path: string): State
    requires r in s.requests
  {
    match s.requests[r]
    case Retiring(own, rest) =>
      if path in rest then Put(s, r, Retiring(own, rest - {path})).(deleted := s.deleted + {path}) else s
    case Stopping(rest) =>
      if path in rest then Put(s, r, Stopping(rest - {path})).(deleted := s.deleted + {path}) else s
    case _ => s
  }

  // A clean-up that has nothing left disarms its guard, and a send that is over deletes its files.
  function FinishStep(s: State, r: Request): State
    requires r in s.requests
  {
    match s.requests[r]
    case Retiring(_, rest) => if rest == {} then Leave(s, r, {}) else s
    case Stopping(rest) => if rest == {} then Leave(s, r, {}) else s
    case Sending(_) => Discard(s, r, {})
    case _ => s
  }

  // What dropping the handler takes from the share it has put in force, and what it leaves undeleted.
  function Undoes(p: Phase): set<string> {
    if p.Retiring? then p.own else {}
  }

  function Leaks(p: Phase): set<string> {
    match p
    case Retiring(_, rest) => rest
    case Stopping(rest) => rest
    case _ => {}
  }

  function DropStep(s: State, r: Request): State
    requires r in s.requests
  {
    var p := s.requests[r];
    if p.Retiring? || p.Stopping? then Leave(s, r, Undoes(p)) else Discard(s, r, {})
  }

  ghost function Next(s: State, a: Action): State {
    match a
    case OpenShare(r) => if r in s.requests then s else Put(s, r, ShareForm([]))
    case ShareField(r, part) =>
      if r in s.requests && s.requests[r].ShareForm? && S.PathOf(part) !! s.created
      then ShareFieldStep(s, r, s.requests[r].parts, part) else s
    case Commit(r, id, first) =>
      if r in s.requests && s.requests[r].ShareForm? then CommitStep(s, r, s.requests[r].parts, id, first) else s
    case Stop(r, id, first) => if r in s.requests then s else StopStep(s, r, id, first)
    case Delete(r, path) => if r in s.requests then DeleteStep(s, r, path) else s
    case Finish(r) => if r in s.requests then FinishStep(s, r) else s
    case OpenSend(r) => if r in s.requests then s else Put(s, r, SendForm([]))
    case SendField(r, field) =>
      if r in s.requests && s.requests[r].SendForm? && T.PathOf(field) !! s.created
      then SendFieldStep(s, r, s.requests[r].fields, field) else s
    case StartSend(r) =>
      if r in s.requests && s.requests[r].SendForm? then
        var uploads := T.Uploads(s.requests[r].fields);
        if uploads == [] then Discard(s, r, {}) else Put(s, r, Sending(T.Paths(uploads)))
      else s
    case Drop(r) => if r in s.requests then DropStep(s, r) else s
  }

  ghost function Run(s: State, acts: seq<Action>): State {
    if acts == [] then s else Next(Run(s, acts[..|acts| - 1]), acts[|acts| - 1])
  }

  // ---- Interrupted handlers ----

  function UndoneBy(s: State, a: Action): set<string> {
    if a.Drop? && a.r in s.requests then Undoes(s.requests[a.r]) else {}
  }

  function LeakedBy(s: State, a: Action): set<string> {
    if a.Drop? && a.r in s.requests then Leaks(s.requests[a.r]) else {}
  }

  // The files of shares whose handlers were dropped after putting them in force and before disarming their guards.
  ghost function Undone(s: State, acts: seq<Action>): set<string> {
    if acts == [] then {}
    else
      var before := acts[..|acts| - 1];
      Undone(s, before) + UndoneBy(Run(s, before), acts[|acts| - 1])
  }

  // The files that clean-ups had still to delete when their handlers were dropped.
  ghost function Leaked(s: State, acts: seq<Action>): set<string> {
    if acts == [] then {}
    else
      var before := acts[..|acts| - 1];
      Leaked(s, before) + LeakedBy(Run(s, before), acts[|acts| - 1])
  }

  // ---- The invariant ----

  predicate IsForm(p: Phase) {
    p.ShareForm? || p.SendForm? || p.Sending?
  }

  function Owned(s: State): set<string> {
    S.Owned(s.active)
  }

  predicate HeldBy(s: State, r: Request, x: string) {
    r in s.requests && x in Held(s.requests[r])
  }

  ghost predicate Accounted(s: State, x: string) {
    x in Owned(s) || exists r :: HeldBy(s, r, x)
  }

  // No two answer for the same file.
  ghost predicate Apart(s: State) {
    && (forall r, q, x :: HeldBy(s, r, x) && HeldBy(s, q, x) ==> r == q)
    && (forall r, x :: HeldBy(s, r, x) ==> x !in Owned(s))
  }

  ghost predicate Known(s: State) {
    && s.deleted <= s.created && Owned(s) <= s.created
    && (forall r, x :: HeldBy(s, r, x) ==> x in s.created)
    && (forall r :: r in s.requests ==> Undoes(s.requests[r]) <= s.created)
  }

  // The files of an open form exist, and no guard but its own has them.
  ghost predicate FormsAreLive(s: State) {
    forall r, x :: HeldBy(s, r, x) && IsForm(s.requests[r]) ==>
      x !in s.deleted && forall q :: q in s.requests ==> x !in Undoes(s.requests[q])
  }

  ghost predicate Files(s: State) {
    Apart(s) && Known(s) && FormsAreLive(s)
  }

  // What a step does to a file that existed: it stays accounted for, is deleted or is leaked, and while it is
  // accounted for only an undone commit deletes it.
  ghost predicate Accounts(s: State, undone: set<string>, leaked: set<string>, t: State) {
    && s.created <= t.created && s.deleted + undone <= t.deleted
    && (forall x :: x in s.created && Accounted(s, x) ==> Accounted(t, x) || x in t.deleted || x in leaked)
    && (forall x :: x in s.created && Accounted(t, x) ==>
          && Accounted(s, x) && x !in leaked
          && (x in t.deleted ==> x in s.deleted || x in undone))
    && (forall x :: x in t.created && x !in s.created ==> Accounted(t, x) != (x in t.deleted))
  }

  // Enough for it: every holder after the step comes from one before, and the other way round.
  lemma AccountsFrom(s: State, undone: set<string>, leaked: set<string>, t: State)
    requires s.created <= t.created && s.deleted + undone <= t.deleted
    requires forall q, x :: HeldBy(s, q, x) ==> HeldBy(t, q, x) || x in Owned(t) || x in t.deleted || x in leaked
    requires forall x :: x in Owned(s) ==> Accounted(t, x) || x in t.deleted
    requires forall q, x :: HeldBy(t, q, x) && x in s.created ==>
               (HeldBy(s, q, x) || x in Owned(s)) && x !in leaked && (x in t.deleted ==> x in s.deleted || x in undone)
    requires forall x :: x in Owned(t) && x in s.created ==>
               Accounted(s, x) && x !in leaked && (x in t.deleted ==> x in s.deleted || x in undone)
    requires forall x :: x in t.created && x !in s.created ==> Accounted(t, x) != (x in t.deleted)
    ensures Accounts(s, undone, leaked, t)
  {
    forall x | x in s.created && Accounted(s, x)
      ensures Accounted(t, x) || x in t.deleted || x in leaked
    {
      if x !in Owned(s) {
        var q :| HeldBy(s, q, x);
        assert HeldBy(t, q, x) || x in Owned(t) || x in t.deleted || x in leaked;
      }
    }
    forall x | x in s.created && Accounted(t, x)
      ensures Accounted(s, x) && x !in leaked && (x in t.deleted ==> x in s.deleted || x in undone)
    {
      if x !in Owned(t) {
        var q :| HeldBy(t, q, x);
        assert HeldBy(s, q, x) || x in Owned(s);
      }
    }
  }

  lemma PutKeeps(s: State, r: Request, p: Phase)
    requires Files(s) && Undoes(p) == {}
    requires Held(p) == (if r in s.requests then Held(s.requests[r]) else {})
    requires r in s.requests ==> IsForm(s.requests[r])
    ensures Files(Put(s, r, p)) && Accounts(s, {}, {}, Put(s, r, p))
  {
    var t := Put(s, r, p);
    assert forall q, x :: HeldBy(t, q, x) <==> HeldBy(s, q, x);
    AccountsFrom(s, {}, {}, t);
  }

  lemma TakeKeeps(s: State, r: Request, p: Phase, path: set<string>)
    requires Files(s) && r in s.requests && IsForm(s.requests[r]) && IsForm(p)
    requires path !! s.created && Held(p) == Held(s.requests[r]) + path
    ensures Files(Take(s, r, p, path)) && Accounts(s, {}, {}, Take(s, r, p, path))
  {
    var t := Take(s, r, p, path);
    assert forall q, x :: HeldBy(t, q, x) <==> HeldBy(s, q, x) || (q == r && x in path);
    AccountsFrom(s, {}, {}, t);
  }

  lemma DiscardKeeps(s: State, r: Request, made: set<string>)
    requires Files(s) && r in s.requests && IsForm(s.requests[r]) && made !! s.created
    ensures Files(Discard(s, r, made)) && Accounts(s, {}, {}, Discard(s, r, made))
  {
    var t := Discard(s, r, made);
    assert forall x :: x in Held(s.requests[r]) ==> HeldBy(s, r, x);
    assert forall q, x :: HeldBy(t, q, x) <==> HeldBy(s, q, x) && q != r;
    AccountsFrom(s, {}, {}, t);
  }

  lemma UndoKeeps(s: State, r: Request)
    requires Files(s) && r in s.requests && (s.requests[r].Retiring? || s.requests[r].Stopping?)
    ensures var p := s.requests[r];
            Files(Leave(s, r, Undoes(p))) && Accounts(s, Undoes(p), Leaks(p), Leave(s, r, Undoes(p)))
  {
    var p := s.requests[r];
    var t := Leave(s, r, Undoes(p));
    assert forall q, x :: HeldBy(t, q, x) <==> HeldBy(s, q, x) && q != r;
    assert forall x :: x in Leaks(p) ==> HeldBy(s, r, x);
    AccountsFrom(s, Undoes(p), Leaks(p), t);
  }

  lemma LeaveKeeps(s: State, r: Request)
    requires Files(s) && r in s.requests && Held(s.requests[r]) == {}
    ensures Files(Leave(s, r, {})) && Accounts(s, {}, {}, Leave(s, r, {}))
  {
    var t := Leave(s, r, {});
    assert forall q, x :: HeldBy(t, q, x) <==> HeldBy(s, q, x) && q != r;
    AccountsFrom(s, {}, {}, t);
  }

  // The form's files become the share's; what was the share's is given to the request itself or is deleted.
  lemma CommitKeeps(s: State, r: Request, parts: seq<S.Part>, id: string, first: string)
    requires Files(s) && r in s.requests && s.requests[r] == ShareForm(parts)
    ensures Files(CommitStep(s, r, parts, id, first)) && Accounts(s, {}, {}, CommitStep(s, r, parts, id, first))
  {
    var draft := S.Read(parts);
    var t := CommitStep(s, r, parts, id, first);
    if draft.files == map[] || draft.url.None? {
      DiscardKeeps(s, r, {});
    } else if s.active.None? {
      assert forall q, x :: HeldBy(t, q, x) <==> HeldBy(s, q, x) && q != r;
      assert forall x :: x in Owned(t) <==> HeldBy(s, r, x);
      AccountsFrom(s, {}, {}, t);
    } else if first in s.active.value.files {
      assert forall q, x :: HeldBy(t, q, x) <==> if q == r then x in Owned(s) && x != first else HeldBy(s, q, x);
      assert forall x :: x in Owned(s) && x != first ==> HeldBy(t, r, x);
      assert forall x :: x in Owned(t) <==> HeldBy(s, r, x);
      AccountsFrom(s, {}, {}, t);
    } else {
      AccountsFrom(s, {}, {}, t);
    }
  }

  lemma StopKeeps(s: State, r: Request, id: string, first: string)
    requires Files(s) && r !in s.requests
    ensures Files(StopStep(s, r, id, first)) && Accounts(s, {}, {}, StopStep(s, r, id, first))
  {
    var t := StopStep(s, r, id, first);
    if t != s {
      assert forall q, x :: HeldBy(t, q, x) <==> if q == r then x in Owned(s) && x != first else HeldBy(s, q, x);
      assert forall x :: x in Owned(s) && x != first ==> HeldBy(t, r, x);
    }
    AccountsFrom(s, {}, {}, t);
  }

  lemma DeleteKeeps(s: State, r: Request, path: string)
    requires Files(s) && r in s.requests
    ensures Files(DeleteStep(s, r, path)) && Accounts(s, {}, {}, DeleteStep(s, r, path))
  {
    var t := DeleteStep(s, r, path);
    if t != s {
      assert HeldBy(s, r, path);
      assert forall q, x :: HeldBy(t, q, x) <==> HeldBy(s, q, x) && (q, x) != (r, path);
    }
    AccountsFrom(s, {}, {}, t);
  }

  lemma ShareFormGrows(parts: seq<S.Part>, part: S.Part)
    ensures Held(ShareForm(parts + [part])) == Held(ShareForm(parts)) + S.PathOf(part)
  {
    assert (parts + [part])[..|parts|] == parts && (parts + [part])[..|parts| + 1] == parts + [part];
    S.ReadNext(parts + [part], |parts|);
  }

  lemma SendFormGrows(fields: seq<T.Part>, field: T.Part)
    ensures Held(SendForm(fields + [field])) == Held(SendForm(fields)) + T.PathOf(field)
  {
    assert (fields + [field])[..|fields|] == fields;
    T.LastPart(fields + [field]);
    if field.File? {
      T.UploadAdded(T.Uploads(fields), T.UploadOf(field.file));
    }
  }

  lemma IdleKeeps(s: State)
    ensures Accounts(s, {}, {}, s)
  {
  }

  lemma FieldKeeps(s: State, a: Action)
    requires Files(s) && (a.ShareField? || a.SendField?)
    ensures Files(Next(s, a)) && Accounts(s, {}, {}, Next(s, a))
  {
    IdleKeeps(s);
    if a.r in s.requests {
      match (a, s.requests[a.r])
      case (ShareField(r, part), ShareForm(parts)) =>
        if S.PathOf(part) !! s.created {
          ShareFormGrows(parts, part);
          if |parts| < S.MAX_SHARE_FIELDS && S.Adds(S.Read(parts), part, s.limit) {
            TakeKeeps(s, r, ShareForm(parts + [part]), S.PathOf(part));
          } else {
            DiscardKeeps(s, r, if ShareCreates(parts, part) then S.PathOf(part) else {});
          }
        }
      case (SendField(r, field), SendForm(fields)) =>
        if T.PathOf(field) !! s.created {
          SendFormGrows(fields, field);
          if T.Fine(fields + [field], |fields|, s.limit) {
            TakeKeeps(s, r, SendForm(fields + [field]), T.PathOf(field));
          } else {
            DiscardKeeps(s, r, if SendCreates(fields, field) then T.PathOf(field) else {});
          }
        }
      case _ =>
    }
  }

  lemma EndKeeps(s: State, a: Action)
    requires Files(s) && (a.Finish? || a.StartSend? || a.Drop?)
    ensures Files(Next(s, a)) && Accounts(s, UndoneBy(s, a), LeakedBy(s, a), Next(s, a))
  {
    IdleKeeps(s);
    if a.r in s.requests {
      var p := s.requests[a.r];
      match a
      case Finish(r) =>
        if p.Sending? {
          DiscardKeeps(s, r, {});
        } else if Held(p) == {} {
          LeaveKeeps(s, r);
        }
      case StartSend(r) =>
        if p.SendForm? {
          DiscardKeeps(s, r, {});
          PutKeeps(s, r, Sending(T.Paths(T.Uploads(p.fields))));
        }
      case Drop(r) =>
        if p.Retiring? || p.Stopping? {
          UndoKeeps(s, r);
        } else {
          DiscardKeeps(s, r, {});
        }
    }
  }

  lemma StepKeeps(s: State, a: Action)
    requires Files(s)
    ensures Files(Next(s, a)) && Accounts(s, UndoneBy(s, a), LeakedBy(s, a), Next(s, a))
  {
    IdleKeeps(s);
    match a
    case OpenShare(r) =>
      if r !in s.requests {
        PutKeeps(s, r, ShareForm([]));
      }
    case OpenSend(r) =>
      if r !in s.requests {
        PutKeeps(s, r, SendForm([]));
      }
    case ShareField(_, _) => FieldKeeps(s, a);
    case SendField(_, _) => FieldKeeps(s, a);
    case Commit(r, id, first) =>
      if r in s.requests && s.requests[r].ShareForm? {
        CommitKeeps(s, r, s.requests[r].parts, id, first);
      }
    case Stop(r, id, first) =>
      if r !in s.requests {
        StopKeeps(s, r, id, first);
      }
    case Delete(r, path) =>
      if r in s.requests {
        DeleteKeeps(s, r, path);
      }
    case Finish(_) => EndKeeps(s, a);
    case StartSend(_) => EndKeeps(s, a);
    case Drop(_) => EndKeeps(s, a);
  }

  // ---- Over every run ----

  // What has become of each file.
  ghost predicate Settled(s: State, undone: set<string>, leaked: set<string>) {
    && undone <= s.deleted
    && (forall x :: x in s.created && Accounted(s, x) ==> x !in leaked && (x in s.deleted <==> x in undone))
    && (forall x :: x in s.created && !Accounted(s, x) ==> x in s.deleted || x in leaked)
    && leaked <= s.created
  }

  lemma SettledAfter(s: State, undone: set<string>, leaked: set<string>, byUndone: set<string>,
                     byLeaked: set<string>, t: State)
    requires Files(s) && Settled(s, undone, leaked) && Accounts(s, byUndone, byLeaked, t)
    requires byUndone <= s.created && byLeaked <= s.created && t.deleted <= t.created
    ensures Settled(t, undone + byUndone, leaked + byLeaked)
  {
  }

  lemma InterruptedExist(s: State, a: Action)
    requires Files(s)
    ensures UndoneBy(s, a) <= s.created && LeakedBy(s, a) <= s.created
  {
    if a.Drop? && a.r in s.requests {
      assert forall x :: x in LeakedBy(s, a) ==> HeldBy(s, a.r, x);
    }
  }

  lemma {:induction false} RunKeepsFiles(limit: nat, acts: seq<Action>)
    ensures Files(Run(Initial(limit), acts))
    ensures Settled(Run(Initial(limit), acts), Undone(Initial(limit), acts), Leaked(Initial(limit), acts))
  {
    if acts != [] {
      var before, a := acts[..|acts| - 1], acts[|acts| - 1];
      var s := Run(Initial(limit), before);
      RunKeepsFiles(limit, before);
      StepKeeps(s, a);
      InterruptedExist(s, a);
      SettledAfter(s, Undone(Initial(limit), before), Leaked(Initial(limit), before),
                   UndoneBy(s, a), LeakedBy(s, a), Next(s, a));
    }
  }

  // However requests overlap, no file is answered for twice: those of the active share, of every open form and of
  // every clean-up are disjoint, and those of open forms exist.
  lemma HoldersAreApart(limit: nat, acts: seq<Action>, r: Request, x: string)
    requires HeldBy(Run(Initial(limit), acts), r, x)
    ensures var s := Run(Initial(limit), acts);
            && x in s.created && x !in Owned(s)
            && (forall q :: HeldBy(s, q, x) ==> q == r)
            && (IsForm(s.requests[r]) ==> x in Live(s))
  {
    RunKeepsFiles(limit, acts);
  }

  // A file is left exactly when someone answers for it and it was not undone, or it was leaked and not deleted since.
  lemma EveryFileIsAccountedFor(limit: nat, acts: seq<Action>, x: string)
    requires x in Run(Initial(limit), acts).created
    ensures var s := Run(Initial(limit), acts);
            var undone, leaked := Undone(Initial(limit), acts), Leaked(Initial(limit), acts);
            && (x in Live(s) <==> (Accounted(s, x) && x !in undone) || (x in leaked && x !in s.deleted))
            && !(Accounted(s, x) && x in leaked)
  {
    RunKeepsFiles(limit, acts);
  }

  // The files left are exactly those accounted for if and only if no interrupted handler has undone one that still
  // is, or left one behind that is there still.
  lemma LeftExactlyWhenUninterrupted(limit: nat, acts: seq<Action>)
    ensures var s := Run(Initial(limit), acts);
            (forall x :: x in Live(s) <==> Accounted(s, x)) <==>
              && (forall x :: x in Undone(Initial(limit), acts) ==> !Accounted(s, x))
              && Leaked(Initial(limit), acts) <= s.deleted
  {
    RunKeepsFiles(limit, acts);
    var s := Run(Initial(limit), acts);
    if forall x :: x in Live(s) <==> Accounted(s, x) {
      forall x | x in Leaked(Initial(limit), acts)
        ensures x in s.deleted
      {
        assert x in Live(s) <==> Accounted(s, x);
      }
      forall x | x in Undone(Initial(limit), acts)
        ensures !Accounted(s, x)
      {
        assert x in Live(s) <==> Accounted(s, x);
      }
    }
  }

  // A file of the active share is gone exactly when the handler that put the share in force was dropped before it
  // had disarmed its guard.
  lemma ActiveFileIsGone(limit: nat, acts: seq<Action>, x: string)
    requires x in Owned(Run(Initial(limit), acts))
    ensures x in Run(Initial(limit), acts).deleted <==> x in Undone(Initial(limit), acts)
  {
    RunKeepsFiles(limit, acts);
  }

  lemma OthersStay(s: State, a: Action, r: Request)
    requires r in s.requests && a.r != r
    ensures r in Next(s, a).requests && Next(s, a).requests[r] == s.requests[r]
  {
  }

  lemma OwnFieldOrEnd(s: State, a: Action, x: string)
    requires HeldBy(s, a.r, x) && IsForm(s.requests[a.r]) && !a.Commit?
    ensures var t := Next(s, a); (HeldBy(t, a.r, x) && IsForm(t.requests[a.r])) || x in t.deleted
  {
    match (a, s.requests[a.r])
    case (ShareField(_, part), ShareForm(parts)) => ShareFormGrows(parts, part);
    case (SendField(_, field), SendForm(fields)) => SendFormGrows(fields, field);
    case _ =>
  }

  lemma OwnCommit(s: State, a: Action, x: string)
    requires HeldBy(s, a.r, x) && IsForm(s.requests[a.r]) && a.Commit?
    ensures var t := Next(s, a); (HeldBy(t, a.r, x) && IsForm(t.requests[a.r])) || x in Owned(t) || x in t.deleted
  {
  }

  // A file of an open form stays with the form, becomes the active share's or is deleted.
  lemma FormFileEnds(s: State, a: Action, r: Request, x: string)
    requires HeldBy(s, r, x) && IsForm(s.requests[r])
    ensures var t := Next(s, a); (HeldBy(t, r, x) && IsForm(t.requests[r])) || x in Owned(t) || x in t.deleted
  {
    if a.r != r {
      OthersStay(s, a, r);
    } else if a.Commit? {
      OwnCommit(s, a, x);
    } else {
      OwnFieldOrEnd(s, a, x);
    }
  }

  // ---- The books of the shares ----

  ghost predicate FormOk(limit: nat, p: Phase) {
    match p
    case ShareForm(parts) =>
      S.Acceptable(parts, limit) && S.BooksBalance(S.Read(parts).files, S.Read(parts).total, limit)
    case SendForm(fields) => T.AllFine(fields, |fields|, limit)
    case _ => true
  }

  ghost predicate Books(s: State) {
    && (forall r :: r in s.requests ==> FormOk(s.limit, s.requests[r]))
    && (s.active.Some? ==>
          s.active.value.files != map[] && S.BooksBalance(s.active.value.files, s.active.value.total, s.limit))
  }

  lemma AcceptableNext(limit: nat, parts: seq<S.Part>, part: S.Part)
    requires S.Acceptable(parts, limit) && |parts| < S.MAX_SHARE_FIELDS && S.Adds(S.Read(parts), part, limit)
    ensures S.Acceptable(parts + [part], limit)
  {
    var all := parts + [part];
    assert all[..|parts|] == parts;
    forall i | 0 <= i < |all|
      ensures S.Fine(all, i, limit)
    {
      if i < |parts| {
        assert all[..i] == parts[..i];
        assert S.Fine(parts, i, limit);
      }
    }
  }

  lemma BalanceNext(limit: nat, d: S.Draft, part: S.Part)
    requires S.BooksBalance(d.files, d.total, limit) && S.PathOf(part) !! d.files.Keys && S.Adds(d, part, limit)
    ensures S.BooksBalance(S.Apply(d, part).files, S.Apply(d, part).total, limit)
  {
    if part.File? {
      S.AddedFile(d.files, part.file.id, Bytes(part.file.chunks));
    }
  }

  lemma ReadSnoc(parts: seq<S.Part>, part: S.Part)
    ensures S.Read(parts + [part]) == S.Apply(S.Read(parts), part)
  {
    assert (parts + [part])[..|parts|] == parts;
  }

  lemma ShareFieldKeepsOk(limit: nat, parts: seq<S.Part>, part: S.Part)
    requires FormOk(limit, ShareForm(parts)) && S.PathOf(part) !! S.Read(parts).files.Keys
    requires |parts| < S.MAX_SHARE_FIELDS && S.Adds(S.Read(parts), part, limit)
    ensures FormOk(limit, ShareForm(parts + [part]))
  {
    AcceptableNext(limit, parts, part);
    BalanceNext(limit, S.Read(parts), part);
    ReadSnoc(parts, part);
  }

  lemma SendFieldKeepsOk(limit: nat, fields: seq<T.Part>, field: T.Part)
    requires FormOk(limit, SendForm(fields)) && T.Fine(fields + [field], |fields|, limit)
    ensures FormOk(limit, SendForm(fields + [field]))
  {
    var all := fields + [field];
    forall i | 0 <= i < |all|
      ensures T.Fine(all, i, limit)
    {
      if i < |fields| {
        assert all[..i] == fields[..i];
        assert T.Fine(fields, i, limit);
      }
    }
  }

  lemma PutKeepsBooks(s: State, r: Request, p: Phase, path: set<string>)
    requires Books(s) && FormOk(s.limit, p)
    ensures Books(Put(s, r, p)) && Books(Take(s, r, p, path))
  {
  }

  lemma EndKeepsBooks(s: State, r: Request, paths: set<string>)
    requires Books(s)
    ensures Books(Leave(s, r, paths)) && (r in s.requests ==> Books(Discard(s, r, paths)))
  {
  }

  lemma HeldIsCreated(s: State, r: Request)
    requires Files(s) && r in s.requests
    ensures Held(s.requests[r]) <= s.created
  {
    assert forall x :: x in Held(s.requests[r]) ==> HeldBy(s, r, x);
  }

  lemma ShareFieldKeepsBooks(s: State, r: Request, parts: seq<S.Part>, part: S.Part)
    requires Files(s) && Books(s) && r in s.requests && s.requests[r] == ShareForm(parts) && S.PathOf(part) !! s.created
    ensures Books(ShareFieldStep(s, r, parts, part))
  {
    assert FormOk(s.limit, s.requests[r]);
    HeldIsCreated(s, r);
    if |parts| < S.MAX_SHARE_FIELDS && S.Adds(S.Read(parts), part, s.limit) {
      ShareFieldKeepsOk(s.limit, parts, part);
      PutKeepsBooks(s, r, ShareForm(parts + [part]), S.PathOf(part));
    } else {
      EndKeepsBooks(s, r, if ShareCreates(parts, part) then S.PathOf(part) else {});
    }
  }

  lemma SendFieldKeepsBooks(s: State, r: Request, fields: seq<T.Part>, field: T.Part)
    requires Books(s) && r in s.requests && s.requests[r] == SendForm(fields)
    ensures Books(SendFieldStep(s, r, fields, field))
  {
    assert FormOk(s.limit, s.requests[r]);
    if T.Fine(fields + [field], |fields|, s.limit) {
      SendFieldKeepsOk(s.limit, fields, field);
      PutKeepsBooks(s, r, SendForm(fields + [field]), T.PathOf(field));
    } else {
      EndKeepsBooks(s, r, if SendCreates(fields, field) then T.PathOf(field) else {});
    }
  }

  lemma CommitKeepsBooks(s: State, r: Request, parts: seq<S.Part>, id: string, first: string)
    requires Books(s) && r in s.requests && s.requests[r] == ShareForm(parts)
    ensures Books(CommitStep(s, r, parts, id, first))
  {
    assert FormOk(s.limit, s.requests[r]);
  }

  lemma CleanUpKeepsBooks(s: State, r: Request, path: string)
    requires Books(s) && r in s.requests
    ensures Books(DeleteStep(s, r, path)) && Books(FinishStep(s, r)) && Books(DropStep(s, r))
  {
  }

  lemma StepKeepsBooks(s: State, a: Action)
    requires Files(s) && Books(s)
    ensures Books(Next(s, a))
  {
    match a
    case ShareField(r, part) =>
      if r in s.requests && s.requests[r].ShareForm? && S.PathOf(part) !! s.created {
        ShareFieldKeepsBooks(s, r, s.requests[r].parts, part);
      }
    case SendField(r, field) =>
      if r in s.requests && s.requests[r].SendForm? && T.PathOf(field) !! s.created {
        SendFieldKeepsBooks(s, r, s.requests[r].fields, field);
      }
    case Commit(r, id, first) =>
      if r in s.requests && s.requests[r].ShareForm? {
        CommitKeepsBooks(s, r, s.requests[r].parts, id, first);
      }
    case Delete(r, path) =>
      if r in s.requests {
        CleanUpKeepsBooks(s, r, path);
      }
    case OpenShare(_) => OpeningKeepsBooks(s, a);
    case OpenSend(_) => OpeningKeepsBooks(s, a);
    case Stop(_, _, _) => OpeningKeepsBooks(s, a);
    case Finish(_) => EndingKeepsBooks(s, a);
    case Drop(_) => EndingKeepsBooks(s, a);
    case StartSend(_) => EndingKeepsBooks(s, a);
  }

  lemma OpeningKeepsBooks(s: State, a: Action)
    requires Books(s) && (a.OpenShare? || a.OpenSend? || a.Stop?)
    ensures Books(Next(s, a))
  {
    match a
    case OpenShare(r) =>
      EmptyBooks(s.limit);
      PutKeepsBooks(s, r, ShareForm([]), {});
    case OpenSend(r) => PutKeepsBooks(s, r, SendForm([]), {});
    case Stop(_, _, _) =>
  }

  lemma EndingKeepsBooks(s: State, a: Action)
    requires Books(s) && (a.Finish? || a.Drop? || a.StartSend?)
    ensures Books(Next(s, a))
  {
    if a.r in s.requests {
      CleanUpKeepsBooks(s, a.r, "");
      EndKeepsBooks(s, a.r, {});
      if a.StartSend? && s.requests[a.r].SendForm? {
        PutKeepsBooks(s, a.r, Sending(T.Paths(T.Uploads(s.requests[a.r].fields))), {});
      }
    }
  }

  lemma EmptyBooks(limit: nat)
    ensures FormOk(limit, ShareForm([]))
  {
    assert S.Read([]) == S.BLANK;
  }

  lemma {:induction false} RunKeepsBooks(limit: nat, acts: seq<Action>)
    ensures Books(Run(Initial(limit), acts)) && Run(Initial(limit), acts).limit == limit
  {
    if acts != [] {
      var before, a := acts[..|acts| - 1], acts[|acts| - 1];
      var s := Run(Initial(limit), before);
      RunKeepsBooks(limit, before);
      RunKeepsFiles(limit, before);
      StepKeepsBooks(s, a);
      LimitStays(s, a);
    }
  }

  lemma LimitStays(s: State, a: Action)
    ensures Next(s, a).limit == s.limit
  {
  }

  // A form put in force is acceptable as a whole, and the share it replaces is the one active at that moment,
  // whatever was active when the form was opened. A form that is not put in force leaves the active share alone and
  // all its own files to deletion.
  lemma CommitReplacesTheActiveShare(limit: nat, acts: seq<Action>, r: Request, id: string, first: string)
    requires var s := Run(Initial(limit), acts);
             && r in s.requests && s.requests[r].ShareForm?
             && (s.active.Some? ==> first in s.active.value.files)
    ensures var s := Run(Initial(limit), acts);
            var parts, t := s.requests[r].parts, Next(s, Commit(r, id, first));
            if S.Commits(parts, limit) then
              && t.active == Some(S.ShareOf(id, S.Read(parts)))
              && S.BooksBalance(t.active.value.files, t.active.value.total, limit)
              && (s.active.Some? ==>
                    r in t.requests && first in t.deleted && Owned(s) == Held(t.requests[r]) + {first})
              && (s.active.None? ==> r !in t.requests)
            else t.active == s.active && r !in t.requests && Held(s.requests[r]) <= t.deleted
  {
    RunKeepsBooks(limit, acts);
    assert FormOk(limit, Run(Initial(limit), acts).requests[r]);
  }

  // The end of a send form starts the sends exactly when the whole form is fine.
  lemma StartSendDecides(limit: nat, acts: seq<Action>, r: Request)
    requires r in Run(Initial(limit), acts).requests && Run(Initial(limit), acts).requests[r].SendForm?
    ensures var s := Run(Initial(limit), acts);
            var fields, t := s.requests[r].fields, Next(s, StartSend(r));
            if T.Starts(fields, limit) then t.requests == s.requests[r := Sending(T.Paths(T.Uploads(fields)))]
            else r !in t.requests && Held(s.requests[r]) <= t.deleted
  {
    RunKeepsBooks(limit, acts);
    assert FormOk(limit, Run(Initial(limit), acts).requests[r]);
  }

  // ---- What interrupted requests do not promise ----

  function UrlPart(url: string): S.Part {
    S.ShareUrl(Some(url))
  }

  // A share of two files is put in force; a form with a third file takes its place, and its handler is dropped while
  // the first of the replaced files is being removed.
  function InterruptedRun(url: string, a: FileField, b: FileField, c: FileField, id: string, other: string)
    : seq<Action>
  {
    [OpenShare(0), ShareField(0, UrlPart(url)), ShareField(0, S.File(a)), ShareField(0, S.File(b)), Commit(0, id, ""),
     OpenShare(1), ShareField(1, UrlPart(url)), ShareField(1, S.File(c)), Commit(1, other, a.id), Drop(1)]
  }

  ghost function At(s: State, acts: seq<Action>, k: nat): State
    requires k <= |acts|
  {
    Run(s, acts[..k])
  }

  lemma RunStep(s: State, acts: seq<Action>, k: nat)
    requires k < |acts|
    ensures At(s, acts, k + 1) == Next(At(s, acts, k), acts[k])
  {
    assert acts[..k + 1][..k] == acts[..k];
  }

  function Draft(url: string, files: map<string, nat>, total: nat): S.Draft {
    S.Draft(false, None, Some(url), files, total)
  }

  function Size(f: FileField): nat {
    Bytes(f.chunks)
  }

  lemma UrlIsRead(url: string)
    ensures S.Read([UrlPart(url)]) == Draft(url, map[], 0)
  {
    assert [UrlPart(url)][..0] == [];
    assert S.Read([]) == S.BLANK;
  }

  lemma UrlIsTaken(s: State, r: Request, url: string)
    requires r in s.requests && s.requests[r] == ShareForm([])
    ensures Next(s, ShareField(r, UrlPart(url))) == Put(s, r, ShareForm([UrlPart(url)]))
  {
    assert [] + [UrlPart(url)] == [UrlPart(url)];
    assert s.created + {} == s.created;
  }

  lemma FormOpens(s: State, r: Request, url: string)
    requires r !in s.requests
    ensures Next(Next(s, OpenShare(r)), ShareField(r, UrlPart(url))) == Put(s, r, ShareForm([UrlPart(url)]))
    ensures S.Read([UrlPart(url)]) == Draft(url, map[], 0)
  {
    UrlIsRead(url);
    UrlIsTaken(Put(s, r, ShareForm([])), r, url);
  }

  lemma FileIsTaken(s: State, r: Request, parts: seq<S.Part>, f: FileField)
    requires r in s.requests && s.requests[r] == ShareForm(parts) && |parts| < S.MAX_SHARE_FIELDS && f.id !in s.created
    requires S.Adds(S.Read(parts), S.File(f), s.limit)
    ensures Next(s, ShareField(r, S.File(f))) == Take(s, r, ShareForm(parts + [S.File(f)]), {f.id})
  {
  }

  lemma FileIsRead(s: State, r: Request, parts: seq<S.Part>, f: FileField, url: string, files: map<string, nat>,
                   total: nat)
    requires r in s.requests && s.requests[r] == ShareForm(parts) && |parts| < 10 && f.id !in s.created
    requires S.Read(parts) == Draft(url, files, total) && |files| < 10 && IsGood(f) && total + Size(f) <= s.limit
    ensures Next(s, ShareField(r, S.File(f))) == Take(s, r, ShareForm(parts + [S.File(f)]), {f.id})
    ensures S.Read(parts + [S.File(f)]) == Draft(url, files[f.id := Size(f)], total + Size(f))
  {
    FileIsTaken(s, r, parts, f);
    ReadSnoc(parts, S.File(f));
  }

  // The first share is in force with a and b.
  ghost predicate FirstInForce(s: State, a: FileField, b: FileField, limit: nat) {
    && s.limit == limit && s.requests == map[] && s.created == {a.id, b.id} && s.deleted == {}
    && s.active.Some? && s.active.value.files == map[a.id := Size(a), b.id := Size(b)]
  }

  ghost predicate FirstRead(s: State, a: FileField, b: FileField, limit: nat) {
    && s.limit == limit && s.requests.Keys == {0} && s.requests[0].ShareForm?
    && s.active == None && s.created == {a.id, b.id} && s.deleted == {}
    && S.Read(s.requests[0].parts).files == map[a.id := Size(a), b.id := Size(b)]
    && S.Read(s.requests[0].parts).url.Some?
  }

  lemma FilesAreRead(s: State, url: string, a: FileField, b: FileField)
    requires s == Put(Initial(s.limit), 0, ShareForm([UrlPart(url)]))
    requires a.id != b.id && IsGood(a) && IsGood(b) && Size(a) + Size(b) <= s.limit
    ensures FirstRead(Next(Next(s, ShareField(0, S.File(a))), ShareField(0, S.File(b))), a, b, s.limit)
  {
    UrlIsRead(url);
    var u := [UrlPart(url)];
    FileIsRead(s, 0, u, a, url, map[], 0);
    var t := Take(s, 0, ShareForm(u + [S.File(a)]), {a.id});
    FileIsRead(t, 0, u + [S.File(a)], b, url, map[a.id := Size(a)], Size(a));
  }

  lemma FirstIsCommitted(s: State, a: FileField, b: FileField, id: string, limit: nat)
    requires FirstRead(s, a, b, limit)
    ensures FirstInForce(Next(s, Commit(0, id, "")), a, b, limit)
  {
    assert a.id in S.Read(s.requests[0].parts).files;
    assert (s.requests - {0}).Keys == {};
  }

  lemma FirstFormCommits(acts: seq<Action>, url: string, a: FileField, b: FileField, id: string, limit: nat)
    requires |acts| >= 5 && acts[0] == OpenShare(0) && acts[1] == ShareField(0, UrlPart(url))
    requires acts[2] == ShareField(0, S.File(a)) && acts[3] == ShareField(0, S.File(b)) && acts[4] == Commit(0, id, "")
    requires a.id != b.id && IsGood(a) && IsGood(b) && Size(a) + Size(b) <= limit
    ensures FirstInForce(At(Initial(limit), acts, 5), a, b, limit)
  {
    var s := Initial(limit);
    FormIsOpened(s, acts, 0, 0, url);
    assert acts[..0] == [];
    RunStep(s, acts, 2);
    RunStep(s, acts, 3);
    FilesAreRead(At(s, acts, 2), url, a, b);
    RunStep(s, acts, 4);
    FirstIsCommitted(At(s, acts, 4), a, b, id, limit);
  }

  lemma FormIsOpened(s: State, acts: seq<Action>, k: nat, r: Request, url: string)
    requires k + 2 <= |acts| && acts[k] == OpenShare(r) && acts[k + 1] == ShareField(r, UrlPart(url))
    requires r !in At(s, acts, k).requests
    ensures At(s, acts, k + 2) == Put(At(s, acts, k), r, ShareForm([UrlPart(url)]))
  {
    RunStep(s, acts, k);
    RunStep(s, acts, k + 1);
    FormOpens(At(s, acts, k), r, url);
  }

  // The second form is read.
  ghost predicate SecondRead(s: State, a: FileField, b: FileField, c: FileField) {
    && s.requests.Keys == {1} && s.requests[1].ShareForm?
    && s.created == {a.id, b.id, c.id} && s.deleted == {}
    && s.active.Some? && s.active.value.files == map[a.id := Size(a), b.id := Size(b)]
    && S.Read(s.requests[1].parts).files == map[c.id := Size(c)] && S.Read(s.requests[1].parts).url.Some?
  }

  lemma SecondFormReads(s: State, url: string, a: FileField, b: FileField, c: FileField, limit: nat)
    requires FirstInForce(s, a, b, limit) && IsGood(c) && Size(c) <= limit && c.id !in {a.id, b.id}
    ensures SecondRead(Next(Put(s, 1, ShareForm([UrlPart(url)])), ShareField(1, S.File(c))), a, b, c)
  {
    UrlIsRead(url);
    var t := Put(s, 1, ShareForm([UrlPart(url)]));
    FileIsRead(t, 1, [UrlPart(url)], c, url, map[], 0);
  }

  ghost predicate SecondIsLost(s: State, a: FileField, b: FileField, c: FileField, other: string) {
    && s.active.Some? && s.active.value.id == other && s.active.value.files == map[c.id := Size(c)]
    && s.requests == map[] && s.created == {a.id, b.id, c.id} && s.deleted == {a.id, c.id}
  }

  lemma SecondFormIsDropped(s: State, a: FileField, b: FileField, c: FileField, other: string)
    requires SecondRead(s, a, b, c) && a.id != b.id && c.id !in {a.id, b.id}
    ensures SecondIsLost(Next(Next(s, Commit(1, other, a.id)), Drop(1)), a, b, c, other)
  {
    var u := Next(s, Commit(1, other, a.id));
    assert u.requests[1] == Retiring({c.id}, {b.id});
    assert u.deleted == {a.id};
  }

  lemma SecondFormCommits(s: State, acts: seq<Action>, url: string, a: FileField, b: FileField, c: FileField,
                          other: string, limit: nat)
    requires |acts| >= 10 && acts[5] == OpenShare(1) && acts[6] == ShareField(1, UrlPart(url))
    requires acts[7] == ShareField(1, S.File(c)) && acts[8] == Commit(1, other, a.id) && acts[9] == Drop(1)
    requires FirstInForce(At(s, acts, 5), a, b, limit)
    requires a.id != b.id && c.id !in {a.id, b.id} && IsGood(c) && Size(c) <= limit
    ensures SecondIsLost(At(s, acts, 10), a, b, c, other)
  {
    FormIsOpened(s, acts, 5, 1, url);
    RunStep(s, acts, 7);
    SecondFormReads(At(s, acts, 5), url, a, b, c, limit);
    RunStep(s, acts, 8);
    RunStep(s, acts, 9);
    SecondFormIsDropped(At(s, acts, 8), a, b, c, other);
  }

  // The share in force has lost its only file, and a file of the replaced share is left that nobody answers for.
  lemma InterruptedCommitLosesFiles(url: string, a: FileField, b: FileField, c: FileField, id: string, other: string,
                                    limit: nat)
    requires a.id != b.id && c.id !in {a.id, b.id} && IsGood(a) && IsGood(b) && IsGood(c)
    requires Size(a) + Size(b) <= limit && Size(c) <= limit
    ensures var s := Run(Initial(limit), InterruptedRun(url, a, b, c, id, other));
            && s.active.Some? && s.active.value.id == other && Owned(s) == {c.id}
            && Live(s) == {b.id} && !Accounted(s, b.id)
  {
    InterruptedEnds(InterruptedRun(url, a, b, c, id, other), url, a, b, c, id, other, limit);
  }

  lemma InterruptedEnds(acts: seq<Action>, url: string, a: FileField, b: FileField, c: FileField, id: string,
                        other: string, limit: nat)
    requires acts == InterruptedRun(url, a, b, c, id, other)
    requires a.id != b.id && c.id !in {a.id, b.id} && IsGood(a) && IsGood(b) && IsGood(c)
    requires Size(a) + Size(b) <= limit && Size(c) <= limit
    ensures SecondIsLost(Run(Initial(limit), acts), a, b, c, other)
  {
    var s := Initial(limit);
    FirstFormCommits(acts, url, a, b, id, limit);
    SecondFormCommits(s, acts, url, a, b, c, other, limit);
    assert acts[..10] == acts;
  }
}
