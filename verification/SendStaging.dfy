/** A send request: its targets, its staged files, and the clean-up when the request ends. */
module SendStaging {
  import opened Wrappers
  import opened Numbers
  import opened Text
  import opened History
  import opened Staging

  const MAX_SEND_TARGETS := 32
  const MAX_SEND_FILES := 100

  datatype Target = Target(fingerprint: string, ip: Option<string>, port: nat, protocol: string, alias: string)

  type Key = (string, Option<string>, nat)

  // A form field; None stands for a text that could not be read or parsed. A file field comes with the devices
  // known when it arrives.
  datatype Part =
    | Targets(parsed: Option<seq<Target>>)
    | Pin(text: Option<string>)
    | File(file: FileField, known: set<(Key, string)>)
    | Other
    | Broken

  // ---- Distinct targets ----

  function KeyOf(t: Target): Key {
    (t.fingerprint, t.ip, t.port)
  }

  function Keys(ts: seq<Target>): set<Key> {
    set t | t in ts :: KeyOf(t)
  }

  function Keep(kept: seq<Target>, t: Target): seq<Target> {
    if KeyOf(t) in Keys(kept) then kept else kept + [t]
  }

  // The first target of every key, in order.
  function Distinct(ts: seq<Target>): seq<Target> {
    if ts == [] then [] else Keep(Distinct(ts[..|ts| - 1]), ts[|ts| - 1])
  }

  lemma KeysAppend(xs: seq<Target>, ys: seq<Target>)
    ensures Keys(xs + ys) == Keys(xs) + Keys(ys)
  {
  }

  lemma KeysSnoc(ts: seq<Target>, t: Target)
    ensures Keys(ts + [t]) == Keys(ts) + {KeyOf(t)}
  {
    KeysAppend(ts, [t]);
    assert Keys([t]) == {KeyOf(t)};
  }

  lemma DistinctSnoc(ts: seq<Target>, t: Target)
    ensures Distinct(ts + [t]) == Keep(Distinct(ts), t)
  {
    assert (ts + [t])[..|ts|] == ts;
  }

  lemma {:induction false} SameKeys(ts: seq<Target>)
    ensures Keys(Distinct(ts)) == Keys(ts)
  {
    if ts != [] {
      var before, last := ts[..|ts| - 1], ts[|ts| - 1];
      SameKeys(before);
      assert ts == before + [last];
      KeysSnoc(before, last);
      KeysSnoc(Distinct(before), last);
    }
  }

  // Every key appears, and appears once.
  lemma {:induction false} DistinctKeys(ts: seq<Target>)
    ensures forall i, j :: 0 <= i < j < |Distinct(ts)| ==> KeyOf(Distinct(ts)[i]) != KeyOf(Distinct(ts)[j])
    ensures Keys(Distinct(ts)) == Keys(ts)
    ensures forall t :: t in Distinct(ts) ==> t in ts
  {
    if ts != [] {
      var before, last := ts[..|ts| - 1], ts[|ts| - 1];
      DistinctKeys(before);
      SameKeys(ts);
      assert ts == before + [last];
      forall i | 0 <= i < |Distinct(before)|
        ensures KeyOf(Distinct(before)[i]) in Keys(Distinct(before))
      {
        assert Distinct(before)[i] in Distinct(before);
      }
    }
  }

  // What is distinct stays as it is.
  lemma {:induction false} DistinctTwice(ts: seq<Target>)
    ensures Distinct(Distinct(ts)) == Distinct(ts)
  {
    if ts != [] {
      var before, last := ts[..|ts| - 1], ts[|ts| - 1];
      DistinctTwice(before);
      DistinctSnoc(Distinct(before), last);
    }
  }

  lemma DistinctAppendOne(xs: seq<Target>, ys: seq<Target>, zs: seq<Target>, t: Target)
    requires Distinct(xs + Distinct(ys)) == Distinct(zs) && Keys(Distinct(ys)) <= Keys(Distinct(zs))
    ensures Distinct(xs + Distinct(ys + [t])) == Distinct(zs + [t])
  {
    DistinctSnoc(ys, t);
    DistinctSnoc(zs, t);
    if KeyOf(t) !in Keys(Distinct(ys)) {
      DistinctSnoc(xs + Distinct(ys), t);
      Reassociate(xs, Distinct(ys), [t]);
    }
  }

  lemma Reassociate<T>(xs: seq<T>, ys: seq<T>, zs: seq<T>)
    ensures xs + (ys + zs) == xs + ys + zs
  {
  }

  lemma KeysOfSuffix(xs: seq<Target>, ys: seq<Target>)
    ensures Keys(Distinct(ys)) <= Keys(Distinct(xs + ys))
  {
    SameKeys(ys);
    SameKeys(xs + ys);
    KeysAppend(xs, ys);
  }

  // Deduplicating field by field is the same as deduplicating all the targets once.
  lemma {:induction false} DistinctAppend(xs: seq<Target>, ys: seq<Target>)
    ensures Distinct(Distinct(xs) + Distinct(ys)) == Distinct(xs + ys)
    decreases |ys|
  {
    if ys == [] {
      DistinctTwice(xs);
      assert xs + ys == xs && Distinct(xs) + Distinct(ys) == Distinct(xs);
    } else {
      var before, last := ys[..|ys| - 1], ys[|ys| - 1];
      DistinctAppend(xs, before);
      KeysOfSuffix(xs, before);
      DistinctAppendOne(Distinct(xs), before, xs + before, last);
      LastApart(xs, ys);
    }
  }

  lemma LastApart<T>(xs: seq<T>, ys: seq<T>)
    requires ys != []
    ensures ys[..|ys| - 1] + [ys[|ys| - 1]] == ys
    ensures xs + ys[..|ys| - 1] + [ys[|ys| - 1]] == xs + ys
  {
  }

  // Keeps a target when its key was not seen before.
  method DeduplicateTargets(ts: seq<Target>) returns (kept: seq<Target>)
    ensures kept == Distinct(ts)
  {
    var seen: set<Key> := {};
    kept := [];
    for i := 0 to |ts|
      invariant kept == Distinct(ts[..i]) && seen == Keys(kept)
    {
      assert ts[..i + 1][..i] == ts[..i];
      if KeyOf(ts[i]) !in seen {
        KeysSnoc(kept, ts[i]);
        seen := seen + {KeyOf(ts[i])};
        kept := kept + [ts[i]];
      }
    }
    assert ts[..|ts|] == ts;
  }

  // ---- What a form says ----

  function ListedTargets(parts: seq<Part>): seq<Target> {
    if parts == [] then []
    else
      var last := parts[|parts| - 1];
      ListedTargets(parts[..|parts| - 1]) + if last.Targets? && last.parsed.Some? then last.parsed.value else []
  }

  // The last PIN that is not blank, as it was typed.
  function SuppliedPin(parts: seq<Part>): Option<string> {
    if parts == [] then None
    else
      var last := parts[|parts| - 1];
      if last.Pin? && last.text.Some? && Trim(last.text.value) != "" then last.text
      else SuppliedPin(parts[..|parts| - 1])
  }

  function UploadOf(f: FileField): Upload {
    Upload(f.id, f.name, f.contentType, Bytes(f.chunks), false)
  }

  function Uploads(parts: seq<Part>): seq<Upload> {
    if parts == [] then []
    else
      var last := parts[|parts| - 1];
      Uploads(parts[..|parts| - 1]) + if last.File? then [UploadOf(last.file)] else []
  }

  predicate AllKnown(ts: seq<Target>, known: set<(Key, string)>) {
    forall t :: t in ts ==> (KeyOf(t), t.protocol) in known
  }

  // The i-th field can be taken after those before it: targets come before files, at most 32 of them distinct,
  // and every file needs known targets, a working disk and room for its bytes.
  ghost predicate Fine(parts: seq<Part>, i: nat, limit: nat)
    requires i < |parts|
  {
    var targets, uploads := ListedTargets(parts[..i]), Uploads(parts[..i]);
    match parts[i]
    case Targets(parsed) =>
      && uploads == [] && parsed.Some? && |parsed.value| <= MAX_SEND_TARGETS
      && |Distinct(targets + parsed.value)| <= MAX_SEND_TARGETS
    case Pin(text) => text.Some?
    case File(file, known) =>
      && |uploads| < MAX_SEND_FILES && Distinct(targets) != [] && AllKnown(Distinct(targets), known)
      && IsGood(file) && UploadSize(uploads) + Bytes(file.chunks) <= limit
    case Other => true
    case Broken => false
  }

  ghost predicate AllFine(parts: seq<Part>, n: nat, limit: nat)
    requires n <= |parts|
  {
    forall i :: 0 <= i < n ==> Fine(parts, i, limit)
  }

  ghost predicate Starts(parts: seq<Part>, limit: nat) {
    AllFine(parts, |parts|, limit) && Uploads(parts) != []
  }

  ghost predicate FreshIds(parts: seq<Part>, used: set<string>) {
    && (forall p :: p in parts && p.File? ==> p.file.id !in used)
    && (forall i, j :: 0 <= i < j < |parts| && parts[i].File? && parts[j].File? ==>
          parts[i].file.id != parts[j].file.id)
  }

  function Paths(uploads: seq<Upload>): set<string> {
    set u | u in uploads :: u.id
  }

  function PathOf(p: Part): set<string> {
    if p.File? then {p.file.id} else {}
  }

  lemma FormNext(parts: seq<Part>, i: nat)
    requires i < |parts|
    ensures Uploads(parts[..i + 1]) == Uploads(parts[..i]) + if parts[i].File? then [UploadOf(parts[i].file)] else []
    ensures ListedTargets(parts[..i + 1]) ==
            if parts[i].Targets? && parts[i].parsed.Some? then ListedTargets(parts[..i]) + parts[i].parsed.value
            else ListedTargets(parts[..i])
  {
    assert parts[..i + 1][..i] == parts[..i];
  }

  lemma PinNext(parts: seq<Part>, i: nat)
    requires i < |parts|
    ensures SuppliedPin(parts[..i + 1]) ==
            if parts[i].Pin? && parts[i].text.Some? && Trim(parts[i].text.value) != "" then parts[i].text
            else SuppliedPin(parts[..i])
  {
    assert parts[..i + 1][..i] == parts[..i];
  }

  function FileIds(parts: seq<Part>): set<string> {
    set p | p in parts && p.File? :: p.file.id
  }

  lemma PathIsFileId(parts: seq<Part>, i: nat)
    requires i < |parts|
    ensures PathOf(parts[i]) <= FileIds(parts)
  {
    assert parts[i] in parts;
  }

  // The uploads are the files of the form, each once.
  lemma {:induction false} UploadIds(parts: seq<Part>, used: set<string>)
    requires FreshIds(parts, used)
    ensures Paths(Uploads(parts)) == FileIds(parts) && DistinctUploads(Uploads(parts)) && FileIds(parts) !! used
  {
    if parts != [] {
      var before, last := parts[..|parts| - 1], parts[|parts| - 1];
      assert parts == before + [last];
      UploadIds(before, used);
      assert FileIds(parts) == FileIds(before) + if last.File? then {last.file.id} else {};
      if last.File? {
        UploadAdded(Uploads(before), UploadOf(last.file));
        forall j | 0 <= j < |Uploads(before)|
          ensures Uploads(before)[j].id != last.file.id
        {
          assert Uploads(before)[j] in Uploads(before);
          assert Uploads(before)[j].id in FileIds(before);
        }
      }
    }
  }

  lemma UploadAdded(uploads: seq<Upload>, u: Upload)
    ensures UploadSize(uploads + [u]) == UploadSize(uploads) + u.size
    ensures Paths(uploads + [u]) == Paths(uploads) + {u.id}
  {
    assert (uploads + [u])[..|uploads|] == uploads;
  }

  // ---- What starting means ----

  // A field that could stand in the form, whatever the other fields count to.
  ghost predicate FieldOk(parts: seq<Part>, p: Part) {
    match p
    case Targets(parsed) => parsed.Some? && |parsed.value| <= MAX_SEND_TARGETS
    case Pin(text) => text.Some?
    case File(file, known) => IsGood(file) && AllKnown(Distinct(ListedTargets(parts)), known)
    case Other => true
    case Broken => false
  }

  ghost predicate TargetsFirst(parts: seq<Part>) {
    forall i, j :: 0 <= i < j < |parts| && parts[i].File? ==> !parts[j].Targets?
  }

  lemma LastPart(parts: seq<Part>)
    requires parts != []
    ensures var before, last := parts[..|parts| - 1], parts[|parts| - 1];
            && Uploads(parts) == (if last.File? then Uploads(before) + [UploadOf(last.file)] else Uploads(before))
            && ListedTargets(parts) ==
               (if last.Targets? && last.parsed.Some? then ListedTargets(before) + last.parsed.value
                else ListedTargets(before))
  {
  }

  lemma {:induction false} UploadsGrow(parts: seq<Part>, i: nat)
    requires i <= |parts|
    ensures |Uploads(parts[..i])| <= |Uploads(parts)| && UploadSize(Uploads(parts[..i])) <= UploadSize(Uploads(parts))
    decreases |parts|
  {
    if i == |parts| {
      assert parts[..i] == parts;
    } else {
      var before, last := parts[..|parts| - 1], parts[|parts| - 1];
      UploadsGrow(before, i);
      LastPart(parts);
      assert before[..i] == parts[..i];
      if last.File? {
        UploadAdded(Uploads(before), UploadOf(last.file));
      }
    }
  }

  lemma {:induction false} DistinctGrows(parts: seq<Part>, i: nat)
    requires i <= |parts|
    ensures |Distinct(ListedTargets(parts[..i]))| <= |Distinct(ListedTargets(parts))|
    decreases |parts|
  {
    if i == |parts| {
      assert parts[..i] == parts;
    } else {
      var before, last := parts[..|parts| - 1], parts[|parts| - 1];
      DistinctGrows(before, i);
      LastPart(parts);
      assert before[..i] == parts[..i];
      if last.Targets? && last.parsed.Some? {
        DistinctIsLonger(ListedTargets(before), last.parsed.value);
      }
    }
  }

  lemma {:induction false} DistinctIsLonger(xs: seq<Target>, ys: seq<Target>)
    ensures |Distinct(xs)| <= |Distinct(xs + ys)|
    decreases |ys|
  {
    if ys == [] {
      assert xs + ys == xs;
    } else {
      DistinctIsLonger(xs, ys[..|ys| - 1]);
      LastApart(xs, ys);
      DistinctSnoc(xs + ys[..|ys| - 1], ys[|ys| - 1]);
    }
  }

  // Where a file has been read there is an upload, and no other way round.
  lemma {:induction false} UploadsAreFiles(parts: seq<Part>)
    ensures Uploads(parts) != [] <==> exists i :: 0 <= i < |parts| && parts[i].File?
  {
    if parts != [] {
      var before := parts[..|parts| - 1];
      UploadsAreFiles(before);
      if parts[|parts| - 1].File? {
        assert parts[|parts| - 1].File?;
      } else if exists i :: 0 <= i < |parts| && parts[i].File? {
        var i :| 0 <= i < |parts| && parts[i].File?;
        assert before[i].File?;
      }
    }
  }

  // After the first file the targets are those of the whole form.
  lemma {:induction false} TargetsAreListed(parts: seq<Part>, i: nat)
    requires i < |parts| && parts[i].File? && TargetsFirst(parts)
    ensures ListedTargets(parts[..i]) == ListedTargets(parts)
    decreases |parts|
  {
    var before := parts[..|parts| - 1];
    LastPart(parts);
    if i < |before| {
      assert before[..i] == parts[..i] && before[i] == parts[i];
      assert !parts[|parts| - 1].Targets?;
      assert TargetsFirst(before);
      TargetsAreListed(before, i);
    }
  }

  lemma TargetsWithinBounds(parts: seq<Part>, i: nat, limit: nat)
    requires i < |parts| && parts[i].Targets? && FieldOk(parts, parts[i]) && TargetsFirst(parts)
    requires |Distinct(ListedTargets(parts))| <= MAX_SEND_TARGETS
    ensures Fine(parts, i, limit)
  {
    FormNext(parts, i);
    UploadsAreFiles(parts[..i]);
    DistinctGrows(parts, i + 1);
  }

  lemma FileWithinBounds(parts: seq<Part>, i: nat, limit: nat)
    requires i < |parts| && parts[i].File? && FieldOk(parts, parts[i]) && TargetsFirst(parts)
    requires |Uploads(parts)| <= MAX_SEND_FILES && UploadSize(Uploads(parts)) <= limit
    requires 1 <= |Distinct(ListedTargets(parts))|
    ensures Fine(parts, i, limit)
  {
    FormNext(parts, i);
    TargetsAreListed(parts, i);
    UploadsGrow(parts, i + 1);
    UploadAdded(Uploads(parts[..i]), UploadOf(parts[i].file));
  }

  lemma FineWithinBounds(parts: seq<Part>, i: nat, limit: nat)
    requires i < |parts| && FieldOk(parts, parts[i]) && TargetsFirst(parts)
    requires |Uploads(parts)| <= MAX_SEND_FILES && UploadSize(Uploads(parts)) <= limit
    requires 1 <= |Distinct(ListedTargets(parts))| <= MAX_SEND_TARGETS
    ensures Fine(parts, i, limit)
  {
    match parts[i]
    case Targets(_) => TargetsWithinBounds(parts, i, limit);
    case File(_, _) => FileWithinBounds(parts, i, limit);
    case _ =>
  }

  lemma {:induction false} FineCounts(parts: seq<Part>, n: nat, limit: nat)
    requires n <= |parts| && AllFine(parts, n, limit)
    ensures |Uploads(parts[..n])| <= MAX_SEND_FILES && UploadSize(Uploads(parts[..n])) <= limit
    ensures |Distinct(ListedTargets(parts[..n]))| <= MAX_SEND_TARGETS
  {
    if n > 0 {
      FineCounts(parts, n - 1, limit);
      assert Fine(parts, n - 1, limit);
      FineCountsNext(parts, n - 1, limit);
    }
  }

  lemma FineCountsNext(parts: seq<Part>, i: nat, limit: nat)
    requires i < |parts| && Fine(parts, i, limit)
    requires |Uploads(parts[..i])| <= MAX_SEND_FILES && UploadSize(Uploads(parts[..i])) <= limit
    requires |Distinct(ListedTargets(parts[..i]))| <= MAX_SEND_TARGETS
    ensures |Uploads(parts[..i + 1])| <= MAX_SEND_FILES && UploadSize(Uploads(parts[..i + 1])) <= limit
    ensures |Distinct(ListedTargets(parts[..i + 1]))| <= MAX_SEND_TARGETS
  {
    LastPart(parts[..i + 1]);
    assert parts[..i + 1][..i] == parts[..i];
    match parts[i]
    case File(file, _) => UploadAdded(Uploads(parts[..i]), UploadOf(file));
    case _ =>
  }

  lemma FineIsOrdered(parts: seq<Part>, limit: nat)
    requires AllFine(parts, |parts|, limit)
    ensures TargetsFirst(parts)
  {
    forall i, j | 0 <= i < j < |parts| && parts[i].File?
      ensures !parts[j].Targets?
    {
      assert Fine(parts, j, limit);
      assert parts[..j][i].File?;
      UploadsAreFiles(parts[..j]);
    }
  }

  lemma FineIsOk(parts: seq<Part>, i: nat, limit: nat)
    requires i < |parts| && AllFine(parts, |parts|, limit) && TargetsFirst(parts)
    ensures FieldOk(parts, parts[i])
    ensures parts[i].File? ==> Distinct(ListedTargets(parts)) != []
  {
    assert Fine(parts, i, limit);
    if parts[i].File? {
      TargetsAreListed(parts, i);
    }
  }

  // A form starts sends exactly when every field can stand in it, targets come before files, there are 1 to 32
  // distinct targets, known when each file arrives, and 1 to 100 files of at most `limit` bytes together.
  lemma StartsMeans(parts: seq<Part>, limit: nat)
    ensures Starts(parts, limit) <==>
              && (forall p :: p in parts ==> FieldOk(parts, p)) && TargetsFirst(parts)
              && 1 <= |Distinct(ListedTargets(parts))| <= MAX_SEND_TARGETS
              && 1 <= |Uploads(parts)| <= MAX_SEND_FILES && UploadSize(Uploads(parts)) <= limit
  {
    if Starts(parts, limit) {
      FineIsOrdered(parts, limit);
      FineCounts(parts, |parts|, limit);
      assert parts[..|parts|] == parts;
      UploadsAreFiles(parts);
      var f :| 0 <= f < |parts| && parts[f].File?;
      FineIsOk(parts, f, limit);
      forall p | p in parts
        ensures FieldOk(parts, p)
      {
        var i :| 0 <= i < |parts| && parts[i] == p;
        FineIsOk(parts, i, limit);
      }
    } else if (forall p :: p in parts ==> FieldOk(parts, p)) && TargetsFirst(parts)
              && 1 <= |Distinct(ListedTargets(parts))| <= MAX_SEND_TARGETS
              && 1 <= |Uploads(parts)| <= MAX_SEND_FILES && UploadSize(Uploads(parts)) <= limit {
      forall i | 0 <= i < |parts|
        ensures Fine(parts, i, limit)
      {
        FineWithinBounds(parts, i, limit);
      }
      assert false;
    }
  }

  // ---- The request ----

  datatype Intake = Intake(targets: seq<Target>, pin: Option<string>, uploads: seq<Upload>, total: nat)

  // What the handler holds after the first i fields.
  ghost predicate Holds(parts: seq<Part>, i: nat, intake: Intake, limit: nat)
    requires i <= |parts|
  {
    && intake.targets == Distinct(ListedTargets(parts[..i])) && intake.uploads == Uploads(parts[..i])
    && intake.pin == SuppliedPin(parts[..i]) && intake.total == UploadSize(intake.uploads) <= limit
  }

  ghost predicate Ready(parts: seq<Part>, i: nat, intake: Intake, limit: nat)
    requires i <= |parts|
  {
    && AllFine(parts, i, limit) && Holds(parts, i, intake, limit)
    && (intake.uploads != [] ==> intake.targets != [])
  }

  lemma OneMoreFine(parts: seq<Part>, i: nat, limit: nat)
    requires i < |parts|
    ensures AllFine(parts, i + 1, limit) <==> AllFine(parts, i, limit) && Fine(parts, i, limit)
  {
  }

  // Files are staged one by one until a field is refused, which leaves at most the uploads so far to delete.
  ghost predicate StagedSoFar(used: set<string>, gone: set<string>, all: set<string>, paths: set<string>, refused: bool,
                              created: set<string>, deleted: set<string>) {
    && paths <= all
    && (if refused
        then used <= created <= used + all && gone <= deleted <= gone + all && created <= used + paths + deleted
        else created == used + paths && deleted == gone)
  }

  lemma StagedNext(used: set<string>, gone: set<string>, all: set<string>, paths: set<string>, path: set<string>,
                   more: set<string>, refused: bool, created: set<string>, deleted: set<string>)
    requires paths <= all && path <= all
    requires !refused ==> created == used + paths + path && deleted == gone && more == paths + path
    requires refused ==>
               && more == paths && used + paths <= created <= used + paths + path
               && gone <= deleted <= gone + path + paths && created <= used + paths + deleted
    ensures StagedSoFar(used, gone, all, more, refused, created, deleted)
  {
  }

  class SendRequests {
    const temp: TempFiles
    const limit: nat

    constructor (limit: nat)
      ensures fresh(temp) && this.limit == limit && temp.Live() == {}
    {
      this.limit := limit;
      temp := new TempFiles();
    }

    method TakeTargets(parts: seq<Part>, i: nat, intake: Intake) returns (refused: bool, next: Intake)
      requires i < |parts| && parts[i].Targets? && Holds(parts, i, intake, limit)
      ensures refused <==> !Fine(parts, i, limit)
      ensures !refused ==> Holds(parts, i + 1, next, limit) && next.uploads == intake.uploads == []
    {
      FormNext(parts, i);
      PinNext(parts, i);
      next := intake;
      var parsed := parts[i].parsed;
      if intake.uploads != [] || parsed.None? || |parsed.value| > MAX_SEND_TARGETS {
        return true, next;
      }
      var more := DeduplicateTargets(parsed.value);
      DistinctAppend(ListedTargets(parts[..i]), parsed.value);
      var targets := DeduplicateTargets(intake.targets + more);
      if |targets| > MAX_SEND_TARGETS {
        return true, next;
      }
      return false, intake.(targets := targets);
    }

    method TakePin(parts: seq<Part>, i: nat, intake: Intake) returns (refused: bool, next: Intake)
      requires i < |parts| && parts[i].Pin? && Holds(parts, i, intake, limit)
      ensures refused <==> !Fine(parts, i, limit)
      ensures !refused ==> Holds(parts, i + 1, next, limit)
      ensures !refused ==> next.uploads == intake.uploads && next.targets == intake.targets
    {
      FormNext(parts, i);
      PinNext(parts, i);
      var text := parts[i].text;
      refused, next := text.None?, intake;
      if text.Some? && Trim(text.value) != "" {
        next := intake.(pin := text);
      }
    }

    // A file field. Its path is guarded until the upload owns it: a refusal hands it to deletion.
    method TakeFile(parts: seq<Part>, i: nat, intake: Intake) returns (refused: bool, next: Intake)
      requires limit < U64_RANGE && i < |parts| && parts[i].File? && Holds(parts, i, intake, limit)
      modifies temp
      ensures refused <==> !Fine(parts, i, limit)
      ensures !refused ==> Holds(parts, i + 1, next, limit) && next.targets == intake.targets != []
      ensures !refused ==> temp.created == old(temp.created) + PathOf(parts[i]) && temp.deleted == old(temp.deleted)
      ensures !refused ==> Paths(next.uploads) == Paths(intake.uploads) + PathOf(parts[i])
      ensures refused ==> Rejected(old(temp.created), old(temp.deleted), PathOf(parts[i]), Paths(intake.uploads))
    {
      FormNext(parts, i);
      PinNext(parts, i);
      next := intake;
      var f, known := parts[i].file, parts[i].known;
      if |intake.uploads| >= MAX_SEND_FILES || intake.targets == [] || !AllKnown(intake.targets, known) {
        temp.Remove(Paths(intake.uploads));
        return true, next;
      }
      var guarded := {f.id};
      if !f.creates {
        temp.Remove(Paths(intake.uploads));
        temp.Remove(guarded);
        return true, next;
      }
      temp.Create(f.id);
      var stop, size, total := StreamToFile(f, intake.total, limit);
      UploadAdded(intake.uploads, UploadOf(f));
      if stop.Finished? {
        next := intake.(uploads := intake.uploads + [Upload(f.id, f.name, f.contentType, size, false)], total := total);
        return false, next;
      }
      if stop != Overflow {
        temp.Remove({f.id});
        temp.Remove(Paths(intake.uploads));
      }
      temp.Remove(guarded);
      return true, next;
    }

    // A refused field created at most its own file, deleted no others than that and the uploads so far, and
    // left no file of its own.
    ghost predicate Rejected(created: set<string>, deleted: set<string>, path: set<string>, paths: set<string>)
      reads temp
    {
      && created <= temp.created <= created + path && deleted <= temp.deleted <= deleted + path + paths
      && temp.created <= created + temp.deleted
    }

    method TakeField(parts: seq<Part>, i: nat, intake: Intake) returns (refused: bool, next: Intake)
      requires limit < U64_RANGE && i < |parts| && Ready(parts, i, intake, limit)
      modifies temp
      ensures refused <==> !AllFine(parts, i + 1, limit)
      ensures !refused ==> Ready(parts, i + 1, next, limit) && temp.deleted == old(temp.deleted)
      ensures !refused ==> temp.created == old(temp.created) + PathOf(parts[i])
      ensures !refused ==> Paths(next.uploads) == Paths(intake.uploads) + PathOf(parts[i])
      ensures refused ==> next == intake
      ensures refused ==> Rejected(old(temp.created), old(temp.deleted), PathOf(parts[i]), Paths(intake.uploads))
    {
      match parts[i] {
        case Targets(_) => refused, next := TakeTargets(parts, i, intake);
        case Pin(_) => refused, next := TakePin(parts, i, intake);
        case File(_, _) => refused, next := TakeFile(parts, i, intake);
        case Other =>
          FormNext(parts, i);
          PinNext(parts, i);
          refused, next := false, intake;
        case Broken => refused, next := true, intake;
      }
      OneMoreFine(parts, i, limit);
      if refused {
        next := intake;
      }
    }

    // The loop over the form.
    method TakeFields(parts: seq<Part>) returns (refused: bool, intake: Intake)
      requires limit < U64_RANGE
      modifies temp
      ensures refused <==> !AllFine(parts, |parts|, limit)
      ensures !refused ==> Ready(parts, |parts|, intake, limit) && temp.deleted == old(temp.deleted)
      ensures !refused ==> temp.created == old(temp.created) + Paths(intake.uploads)
      ensures Paths(intake.uploads) <= FileIds(parts)
      ensures old(temp.created) <= temp.created <= old(temp.created) + FileIds(parts)
      ensures old(temp.deleted) <= temp.deleted <= old(temp.deleted) + FileIds(parts)
      ensures temp.created <= old(temp.created) + Paths(intake.uploads) + temp.deleted
    {
      intake := Intake([], None, [], 0);
      refused := false;
      ghost var used, gone, all := temp.created, temp.deleted, FileIds(parts);
      var i := 0;
      while i < |parts| && !refused
        invariant i <= |parts|
        invariant refused ==> !AllFine(parts, i, limit)
        invariant !refused ==> Ready(parts, i, intake, limit)
        invariant StagedSoFar(used, gone, all, Paths(intake.uploads), refused, temp.created, temp.deleted)
        decreases |parts| - i, !refused
      {
        PathIsFileId(parts, i);
        ghost var paths := Paths(intake.uploads);
        refused, intake := TakeField(parts, i, intake);
        StagedNext(used, gone, all, paths, PathOf(parts[i]), Paths(intake.uploads), refused,
                   temp.created, temp.deleted);
        i := i + 1;
      }
    }

    // Reads the form. On a refusal the guards of the uploads and of the open file hand their paths to deletion.
    // It starts exactly when every field is fine in turn and there is a file; then the uploads are exactly the
    // files of the form, within the limit, with the targets deduplicated, and ready to be sent.
    method TakeForm(parts: seq<Part>) returns (refused: bool, intake: Intake)
      requires limit < U64_RANGE && FreshIds(parts, temp.created)
      modifies temp
      ensures refused <==> !Starts(parts, limit)
      ensures !refused ==>
                && intake.uploads == Uploads(parts) && intake.targets == Distinct(ListedTargets(parts))
                && intake.targets != [] && intake.pin == SuppliedPin(parts)
                && DistinctUploads(intake.uploads) && intake.total == UploadSize(intake.uploads) <= limit
      ensures !refused ==> 1 <= |intake.uploads| <= MAX_SEND_FILES && 1 <= |intake.targets| <= MAX_SEND_TARGETS
      ensures !refused ==> temp.created == old(temp.created) + FileIds(parts) && temp.deleted == old(temp.deleted)
      ensures !refused ==> Paths(intake.uploads) == FileIds(parts)
      ensures refused ==> temp.created - temp.deleted <= old(temp.created) - old(temp.deleted)
      ensures old(temp.created) <= temp.created <= old(temp.created) + FileIds(parts)
      ensures old(temp.deleted) <= temp.deleted <= old(temp.deleted) + FileIds(parts)
    {
      refused, intake := TakeFields(parts);
      assert parts[..|parts|] == parts;
      UploadIds(parts, old(temp.created));
      StartsMeans(parts, limit);
      refused := refused || intake.uploads == [] || intake.targets == [];
      if refused {
        temp.Remove(Paths(intake.uploads));
      }
    }

    // The whole request: when it ends, on every path, no file it staged is left.
    method SendFiles(parts: seq<Part>) returns (refused: bool, intake: Intake)
      requires limit < U64_RANGE && FreshIds(parts, temp.created)
      modifies temp
      ensures refused <==> !Starts(parts, limit)
      ensures temp.Live() == old(temp.Live())
    {
      refused, intake := TakeForm(parts);
      if !refused {
        temp.Remove(Paths(intake.uploads));
      }
    }
  }
}
