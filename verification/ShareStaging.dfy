/** Starting and stopping a link share: who owns each staged file, on every path. */
module ShareStaging {
  import opened Wrappers
  import opened Numbers
  import opened Staging
  import LinkShare

  const MAX_SHARE_FILES := 100
  const MAX_SHARE_FIELDS := 103

  // A form field; None stands for a text that could not be read, or an address that is no HTTP origin.
  datatype Part =
    | AutoAccept(text: Option<string>)
    | Pin(text: Option<string>)
    | ShareUrl(url: Option<string>)
    | File(file: FileField)
    | Unknown
    | Broken

  datatype Refusal = BadRequest | TooLarge | Internal

  datatype Share = Share(id: string, url: string, files: map<string, nat>, total: nat,
                         autoAccept: bool, pin: Option<string>)

  datatype Draft = Draft(autoAccept: bool, pin: Option<string>, url: Option<string>,
                         files: map<string, nat>, total: nat)

  // ---- What a form says ----

  predicate PartOk(p: Part) {
    match p
    case AutoAccept(text) => text.Some?
    case Pin(text) => text.Some?
    case ShareUrl(url) => url.Some?
    case File(file) => IsGood(file)
    case Unknown => false
    case Broken => false
  }

  function FileCount(parts: seq<Part>): nat {
    if parts == [] then 0
    else FileCount(parts[..|parts| - 1]) + if parts[|parts| - 1].File? then 1 else 0
  }

  function TotalBytes(parts: seq<Part>): nat {
    if parts == [] then 0
    else
      TotalBytes(parts[..|parts| - 1]) +
      if parts[|parts| - 1].File? then Bytes(parts[|parts| - 1].file.chunks) else 0
  }

  function Apply(d: Draft, p: Part): Draft {
    match p
    case AutoAccept(text) => d.(autoAccept := text == Some("true"))
    case Pin(text) => d.(pin := if text.Some? then LinkShare.NormalizePin(text.value) else None)
    case ShareUrl(url) => d.(url := url)
    case File(file) => d.(files := d.files[file.id := Bytes(file.chunks)], total := d.total + Bytes(file.chunks))
    case Unknown => d
    case Broken => d
  }

  const BLANK := Draft(false, None, None, map[], 0)

  // The form as read: later settings win, every file counts with its bytes.
  function Read(parts: seq<Part>): Draft {
    if parts == [] then BLANK else Apply(Read(parts[..|parts| - 1]), parts[|parts| - 1])
  }

  // The field can join what was read so far.
  predicate Adds(d: Draft, p: Part, limit: nat) {
    PartOk(p) && (p.File? ==> |d.files| < MAX_SHARE_FILES && d.total + Bytes(p.file.chunks) <= limit)
  }

  function PathOf(p: Part): set<string> {
    if p.File? then {p.file.id} else {}
  }

  // The i-th field can be taken after those before it.
  predicate Fine(parts: seq<Part>, i: nat, limit: nat)
    requires i < |parts|
  {
    i < MAX_SHARE_FIELDS && Adds(Read(parts[..i]), parts[i], limit)
  }

  predicate Acceptable(parts: seq<Part>, limit: nat) {
    forall i :: 0 <= i < |parts| ==> Fine(parts, i, limit)
  }

  predicate Commits(parts: seq<Part>, limit: nat) {
    Acceptable(parts, limit) && Read(parts).files != map[] && Read(parts).url.Some?
  }

  // Every file field gets an id of its own.
  ghost predicate FreshIds(parts: seq<Part>, used: set<string>) {
    && (forall p :: p in parts && p.File? ==> p.file.id !in used)
    && (forall i, j :: 0 <= i < j < |parts| && parts[i].File? && parts[j].File? ==>
          parts[i].file.id != parts[j].file.id)
  }

  lemma {:induction false} PrefixIsSmaller(parts: seq<Part>, i: nat)
    requires i <= |parts|
    ensures FileCount(parts[..i]) <= FileCount(parts) && TotalBytes(parts[..i]) <= TotalBytes(parts)
    decreases |parts|
  {
    if i < |parts| {
      var before := parts[..|parts| - 1];
      assert before[..i] == parts[..i];
      PrefixIsSmaller(before, i);
    } else {
      assert parts[..i] == parts;
    }
  }

  // ---- Sizes ----

  ghost function SizeSum(files: map<string, nat>): nat
    decreases |files|
  {
    if files == map[] then 0
    else
      var k :| k in files;
      assert (files - {k}).Keys == files.Keys - {k};
      files[k] + SizeSum(files - {k})
  }

  lemma {:induction false} SizeSumWithout(files: map<string, nat>, k: string)
    requires k in files
    ensures SizeSum(files) == files[k] + SizeSum(files - {k})
    decreases |files|
  {
    var j :| j in files && SizeSum(files) == files[j] + SizeSum(files - {j});
    if j != k {
      assert (files - {j}).Keys == files.Keys - {j} && (files - {k}).Keys == files.Keys - {k};
      SizeSumWithout(files - {j}, k);
      SizeSumWithout(files - {k}, j);
      assert files - {j} - {k} == files - {k} - {j};
    }
  }

  // At most 100 files, which have `total` bytes together and no more than allowed.
  ghost predicate BooksBalance(files: map<string, nat>, total: nat, limit: nat) {
    |files| <= MAX_SHARE_FILES && total == SizeSum(files) <= limit
  }

  // The files read are those of the form.
  lemma {:induction false} ReadIds(parts: seq<Part>, used: set<string>)
    requires FreshIds(parts, used)
    ensures forall id :: id in Read(parts).files <==> exists p :: p in parts && p.File? && p.file.id == id
    ensures Read(parts).files.Keys !! used
  {
    if parts != [] {
      var before, last := parts[..|parts| - 1], parts[|parts| - 1];
      assert parts == before + [last];
      ReadIds(before, used);
    }
  }

  lemma NewFileIsFresh(parts: seq<Part>, used: set<string>, i: nat)
    requires FreshIds(parts, used) && i < |parts| && parts[i].File?
    ensures FreshIds(parts[..i], used)
    ensures parts[i].file.id !in used && parts[i].file.id !in Read(parts[..i]).files
  {
    var before := parts[..i];
    assert parts[i] in parts;
    assert forall p :: p in before ==> p in parts;
    ReadIds(before, used);
    forall p | p in before && p.File?
      ensures p.file.id != parts[i].file.id
    {
      var j :| 0 <= j < |before| && before[j] == p;
      assert parts[j].File?;
    }
  }

  // Each file counts once, and the total is the sum of the sizes.
  lemma {:induction false} ReadCounts(parts: seq<Part>, used: set<string>)
    requires FreshIds(parts, used)
    ensures Read(parts).total == TotalBytes(parts) == SizeSum(Read(parts).files)
    ensures |Read(parts).files| == FileCount(parts)
  {
    if parts != [] {
      var before, last := parts[..|parts| - 1], parts[|parts| - 1];
      assert parts == before + [last];
      ReadCounts(before, used);
      if last.File? {
        NewFileIsFresh(parts, used, |parts| - 1);
        AddedFile(Read(before).files, last.file.id, Bytes(last.file.chunks));
      }
    }
  }

  lemma AddedFile(files: map<string, nat>, id: string, size: nat)
    requires id !in files
    ensures SizeSum(files[id := size]) == SizeSum(files) + size && |files[id := size]| == |files| + 1
  {
    SizeSumWithout(files[id := size], id);
    assert files[id := size] - {id} == files;
    OneMoreKey(files, id, size);
  }

  lemma OneMoreKey(files: map<string, nat>, id: string, size: nat)
    requires id !in files
    ensures |files[id := size]| == |files| + 1
  {
    assert files[id := size].Keys == files.Keys + {id};
  }

  // ---- The store ----

  function ShareOf(id: string, d: Draft): Share
    requires d.url.Some?
  {
    Share(id, d.url.value, d.files, d.total, d.autoAccept, d.pin)
  }

  function Owned(active: Option<Share>): set<string> {
    if active.Some? then active.value.files.Keys else {}
  }

  // The first i fields were read, and each of their files is staged.
  ghost predicate ReadSoFar(parts: seq<Part>, i: nat, limit: nat, draft: Draft, staged: set<string>)
    requires i <= |parts|
  {
    && draft == Read(parts[..i]) && draft.total <= limit && staged == draft.files.Keys
    && forall j :: 0 <= j < i ==> Fine(parts, j, limit)
  }

  lemma ReadOneMore(parts: seq<Part>, i: nat, limit: nat, draft: Draft)
    requires i < |parts| && ReadSoFar(parts, i, limit, draft, draft.files.Keys) && Fine(parts, i, limit)
    ensures ReadSoFar(parts, i + 1, limit, Apply(draft, parts[i]), draft.files.Keys + PathOf(parts[i]))
  {
    ReadNext(parts, i);
  }

  lemma StagedNext(used: set<string>, gone: set<string>, staged: set<string>, more: set<string>,
                   created: set<string>, deleted: set<string>)
    requires staged !! used && more !! used && created == used + staged + more
    requires gone <= deleted <= gone + staged + more
    ensures staged + more !! used && created == used + (staged + more) && gone <= deleted <= gone + (staged + more)
  {
  }

  class ShareStore {
    const temp: TempFiles
    const limit: nat
    var active: Option<Share>

    // Between requests every staged file that is not handed to deletion is owned by the active share, whose books
    // are right.
    ghost predicate Valid()
      reads this, temp
    {
      BooksAreRight() && temp.deleted <= temp.created && temp.Live() == Owned(active)
    }

    ghost predicate Right(share: Share) {
      BooksBalance(share.files, share.total, limit) && share.files != map[]
    }

    ghost predicate BooksAreRight()
      reads this
    {
      limit < U64_RANGE && (active.Some? ==> Right(active.value))
    }

    constructor (limit: nat)
      requires limit < U64_RANGE
      ensures Valid() && fresh(temp) && active == None && this.limit == limit
    {
      this.limit := limit;
      active := None;
      temp := new TempFiles();
    }

    // One file field. `staged` says whether its file now exists.
    method StageFile(f: FileField, files: map<string, nat>, total: nat)
      returns (refusal: Option<Refusal>, staged: set<string>, size: nat, newTotal: nat)
      requires total <= limit < U64_RANGE && f.id !in temp.created
      modifies temp
      ensures refusal.None? <==> |files| < MAX_SHARE_FILES && IsGood(f) && total + Bytes(f.chunks) <= limit
      ensures refusal.None? ==> staged == {f.id} && size == Bytes(f.chunks) && newTotal == total + size
      ensures refusal.None? ==> temp.deleted == old(temp.deleted)
      ensures refusal == Some(TooLarge) ==> total + Bytes(f.chunks) > limit
      ensures staged <= {f.id} && temp.created == old(temp.created) + staged
      ensures old(temp.deleted) <= temp.deleted <= old(temp.deleted) + files.Keys + staged
    {
      staged, size, newTotal := {}, 0, total;
      if |files| >= MAX_SHARE_FILES {
        temp.Remove(files.Keys);
        return Some(BadRequest), staged, size, newTotal;
      }
      if !f.creates {
        temp.Remove(files.Keys);
        return Some(Internal), staged, size, newTotal;
      }
      temp.Create(f.id);
      staged := {f.id};
      var stop: Stop;
      stop, size, newTotal := StreamToFile(f, total, limit);
      match stop
      case Finished => refusal := None;
      case BrokenOff => refusal := Some(BadRequest);
      case Overflow => refusal := Some(TooLarge);
      case OverLimit =>
        temp.Remove({f.id});
        temp.Remove(files.Keys);
        refusal := Some(TooLarge);
      case WriteFailed =>
        temp.Remove({f.id});
        temp.Remove(files.Keys);
        refusal := Some(Internal);
      case FlushFailed => refusal := Some(Internal);
    }

    // A field that is not a file.
    method ReadSetting(part: Part, draft: Draft) returns (refusal: Option<Refusal>, next: Draft)
      requires !part.File?
      ensures refusal.None? <==> PartOk(part)
      ensures refusal.None? ==> next == Apply(draft, part)
      ensures refusal.Some? ==> refusal == Some(BadRequest)
    {
      next := draft;
      match part
      case AutoAccept(text) =>
        if text.None? {
          return Some(BadRequest), next;
        }
        return None, next.(autoAccept := text.value == "true");
      case Pin(text) =>
        if text.None? {
          return Some(BadRequest), next;
        }
        return None, next.(pin := LinkShare.NormalizePin(text.value));
      case ShareUrl(url) =>
        if url.None? {
          return Some(BadRequest), next;
        }
        return None, next.(url := url);
      case Unknown => return Some(BadRequest), next;
      case Broken => return Some(BadRequest), next;
    }

    method StagePart(part: Part, draft: Draft)
      returns (refusal: Option<Refusal>, staged: set<string>, next: Draft)
      requires draft.total <= limit < U64_RANGE && (part.File? ==> part.file.id !in temp.created)
      modifies temp
      ensures refusal.None? <==> Adds(draft, part, limit)
      ensures refusal.None? ==>
                next == Apply(draft, part) && staged == PathOf(part) && temp.deleted == old(temp.deleted)
      ensures refusal == Some(TooLarge) ==> part.File? && draft.total + Bytes(part.file.chunks) > limit
      ensures staged <= PathOf(part) && temp.created == old(temp.created) + staged
      ensures old(temp.deleted) <= temp.deleted <= old(temp.deleted) + draft.files.Keys + staged
    {
      if part.File? {
        var size, total;
        refusal, staged, size, total := StageFile(part.file, draft.files, draft.total);
        next := draft.(files := draft.files[part.file.id := size], total := total);
      } else {
        staged := {};
        refusal, next := ReadSetting(part, draft);
      }
    }

    // The i-th field, after the fields before it were read.
    method StageNext(parts: seq<Part>, i: nat, draft: Draft, ghost used: set<string>)
      returns (refusal: Option<Refusal>, staged: set<string>, next: Draft)
      requires FreshIds(parts, used) && i < |parts| && limit < U64_RANGE
      requires ReadSoFar(parts, i, limit, draft, draft.files.Keys) && temp.created == used + draft.files.Keys
      modifies temp
      ensures refusal.None? <==> Fine(parts, i, limit)
      ensures refusal.None? ==>
                ReadSoFar(parts, i + 1, limit, next, draft.files.Keys + staged) && temp.deleted == old(temp.deleted)
      ensures refusal == Some(TooLarge) ==> TotalBytes(parts) > limit
      ensures staged !! used && temp.created == old(temp.created) + staged
      ensures old(temp.deleted) <= temp.deleted <= old(temp.deleted) + draft.files.Keys + staged
    {
      PathIsNew(parts, used, i);
      if Fine(parts, i, limit) {
        ReadOneMore(parts, i, limit, draft);
      }
      staged, next := {}, draft;
      if parts[i].Broken? {
        return Some(BadRequest), staged, next;
      }
      if i + 1 > MAX_SHARE_FIELDS {
        return Some(BadRequest), staged, next;
      }
      refusal, staged, next := StagePart(parts[i], draft);
    }

    // The loop over the form. `staged` holds the paths the guard will delete unless disarmed.
    method StageForm(parts: seq<Part>) returns (refusal: Option<Refusal>, staged: set<string>, draft: Draft)
      requires limit < U64_RANGE && FreshIds(parts, temp.created)
      modifies temp
      ensures refusal.None? <==> Acceptable(parts, limit)
      ensures refusal.None? ==> draft == Read(parts) && staged == draft.files.Keys && temp.deleted == old(temp.deleted)
      ensures refusal == Some(TooLarge) ==> TotalBytes(parts) > limit
      ensures temp.created == old(temp.created) + staged && staged !! old(temp.created)
      ensures old(temp.deleted) <= temp.deleted <= old(temp.deleted) + staged
    {
      draft := BLANK;
      staged := {};
      refusal := None;
      ghost var used, gone := temp.created, temp.deleted;
      var i := 0;
      while i < |parts| && refusal.None?
        invariant i <= |parts| && staged !! used && temp.created == used + staged
        invariant refusal.None? ==> ReadSoFar(parts, i, limit, draft, staged) && temp.deleted == gone
        invariant refusal.Some? ==> i > 0 && !Fine(parts, i - 1, limit) && gone <= temp.deleted <= gone + staged
        invariant refusal == Some(TooLarge) ==> TotalBytes(parts) > limit
        decreases |parts| - i, refusal.None?
      {
        var more, next;
        refusal, more, next := StageNext(parts, i, draft, used);
        StagedNext(used, gone, staged, more, temp.created, temp.deleted);
        staged := staged + more;
        draft := if refusal.None? then next else draft;
        i := i + 1;
      }
      assert parts[..|parts|] == parts;
    }

    // A form is committed exactly when it is acceptable, has a file and an address. Then the new share owns
    // the files of this form, and those of the share it replaces are handed to deletion; otherwise the
    // active share stays, and every file of this form is handed to deletion.
    method StartShare(parts: seq<Part>, id: string) returns (refusal: Option<Refusal>)
      requires Valid() && FreshIds(parts, temp.created)
      modifies this`active, temp
      ensures Valid()
      ensures refusal.None? <==> Commits(parts, limit)
      ensures refusal.None? ==>
                active == Some(ShareOf(id, Read(parts))) && temp.deleted == old(temp.deleted) + Owned(old(active))
      ensures refusal.Some? ==>
                active == old(active) && temp.deleted == old(temp.deleted) + (temp.created - old(temp.created))
      ensures refusal == Some(TooLarge) ==> TotalBytes(parts) > limit
    {
      var staged, draft;
      refusal, staged, draft := StageForm(parts);
      if refusal.None? {
        AcceptableBooks(parts, old(temp.created), limit);
      }
      refusal := EndForm(refusal, staged, draft, id);
    }

    // What follows the loop: the guard hands over what it holds unless the draft becomes the active share.
    method EndForm(refused: Option<Refusal>, staged: set<string>, draft: Draft, id: string)
      returns (refusal: Option<Refusal>)
      requires BooksAreRight() && temp.deleted <= temp.created && staged <= temp.created
      requires temp.Live() - staged == Owned(active) && staged !! Owned(active)
      requires refused.None? ==>
                 && staged == draft.files.Keys && staged !! temp.deleted
                 && BooksBalance(draft.files, draft.total, limit)
      modifies this`active, temp`deleted
      ensures Valid()
      ensures refusal.None? <==> refused.None? && draft.files != map[] && draft.url.Some?
      ensures refusal.None? ==>
                active == Some(ShareOf(id, draft)) && temp.deleted == old(temp.deleted) + Owned(old(active))
      ensures refusal.Some? ==> active == old(active) && temp.deleted == old(temp.deleted) + staged
      ensures refusal == Some(TooLarge) ==> refused == Some(TooLarge)
    {
      refusal := if refused.None? && (draft.files == map[] || draft.url.None?) then Some(BadRequest) else refused;
      if refusal.Some? {
        Discard(staged);
      } else {
        ReplaceShare(ShareOf(id, draft));
      }
    }

    // The files of a refused form are handed to deletion, and the active share keeps its own.
    method Discard(staged: set<string>)
      requires BooksAreRight() && temp.deleted <= temp.created && staged <= temp.created
      requires temp.Live() - staged == Owned(active)
      modifies temp`deleted
      ensures Valid() && temp.deleted == old(temp.deleted) + staged
    {
      temp.Remove(staged);
    }

    method ReplaceShare(next: Share)
      requires limit < U64_RANGE && temp.deleted <= temp.created && Right(next)
      requires next.files.Keys !! Owned(active) && temp.Live() == Owned(active) + next.files.Keys
      modifies this`active, temp`deleted
      ensures Valid() && active == Some(next) && temp.deleted == old(temp.deleted) + Owned(old(active))
    {
      var previous := active;
      active := Some(next);
      if previous.Some? {
        temp.Remove(previous.value.files.Keys);
      }
    }

    method StopShare(id: Option<string>) returns (ok: bool)
      requires Valid()
      modifies this`active, temp
      ensures Valid()
      ensures ok <==> id.Some? && old(active).Some? && old(active).value.id == id.value
      ensures ok ==> active == None && temp.Live() == {}
      ensures !ok ==> active == old(active) && temp.deleted == old(temp.deleted)
      ensures temp.created == old(temp.created)
    {
      if id.None? || active.None? || active.value.id != id.value {
        return false;
      }
      var previous := active.value;
      active := None;
      temp.Remove(previous.files.Keys);
      return true;
    }
  }

  lemma ReadNext(parts: seq<Part>, i: nat)
    requires i < |parts|
    ensures Read(parts[..i + 1]) == Apply(Read(parts[..i]), parts[i])
    ensures Read(parts[..i + 1]).files.Keys == Read(parts[..i]).files.Keys + PathOf(parts[i])
  {
    assert parts[..i + 1][..i] == parts[..i];
  }

  lemma PathIsNew(parts: seq<Part>, used: set<string>, i: nat)
    requires FreshIds(parts, used) && i < |parts|
    ensures PathOf(parts[i]) !! used + Read(parts[..i]).files.Keys
    ensures parts[i].File? ==> Read(parts[..i]).total + Bytes(parts[i].file.chunks) <= TotalBytes(parts)
  {
    if parts[i].File? {
      NewFileIsFresh(parts, used, i);
      PrefixCounts(parts, used, i);
    }
  }

  lemma PrefixCounts(parts: seq<Part>, used: set<string>, i: nat)
    requires FreshIds(parts, used) && i < |parts|
    ensures parts[i].File? ==>
              && |Read(parts[..i]).files| < FileCount(parts)
              && Read(parts[..i]).total + Bytes(parts[i].file.chunks) <= TotalBytes(parts)
  {
    assert forall p :: p in parts[..i] ==> p in parts;
    PrefixIsSmaller(parts, i + 1);
    ReadCounts(parts[..i], used);
    assert parts[..i + 1][..i] == parts[..i];
  }

  // A form is acceptable exactly when it has at most 103 fields, each readable and every file written, with
  // at most 100 files of at most `limit` bytes together.
  lemma AcceptableMeans(parts: seq<Part>, used: set<string>, limit: nat)
    requires FreshIds(parts, used)
    ensures Acceptable(parts, limit) <==>
              && |parts| <= MAX_SHARE_FIELDS && (forall p :: p in parts ==> PartOk(p))
              && FileCount(parts) <= MAX_SHARE_FILES && TotalBytes(parts) <= limit
  {
    if |parts| <= MAX_SHARE_FIELDS && (forall p :: p in parts ==> PartOk(p))
       && FileCount(parts) <= MAX_SHARE_FILES && TotalBytes(parts) <= limit {
      forall i | 0 <= i < |parts|
        ensures Fine(parts, i, limit)
      {
        PrefixCounts(parts, used, i);
      }
    }
    if Acceptable(parts, limit) && parts != [] {
      AcceptedCounts(parts, used, limit, |parts|);
      assert parts[..|parts|] == parts;
      assert Fine(parts, |parts| - 1, limit);
      forall p | p in parts
        ensures PartOk(p)
      {
        var i :| 0 <= i < |parts| && parts[i] == p;
        assert Fine(parts, i, limit);
      }
    }
  }

  lemma AcceptableBooks(parts: seq<Part>, used: set<string>, limit: nat)
    requires FreshIds(parts, used) && Acceptable(parts, limit)
    ensures BooksBalance(Read(parts).files, Read(parts).total, limit)
    ensures Read(parts).files.Keys !! used
  {
    ReadCounts(parts, used);
    ReadIds(parts, used);
    AcceptableMeans(parts, used, limit);
  }

  lemma {:induction false} AcceptedCounts(parts: seq<Part>, used: set<string>, limit: nat, n: nat)
    requires FreshIds(parts, used) && n <= |parts| && forall i :: 0 <= i < n ==> Fine(parts, i, limit)
    ensures FileCount(parts[..n]) <= MAX_SHARE_FILES && TotalBytes(parts[..n]) <= limit
  {
    if n > 0 {
      AcceptedCounts(parts, used, limit, n - 1);
      assert forall p :: p in parts[..n - 1] ==> p in parts;
      ReadCounts(parts[..n - 1], used);
      assert Fine(parts, n - 1, limit);
      assert parts[..n][..n - 1] == parts[..n - 1];
    }
  }
}
