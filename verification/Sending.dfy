/**
 One send to one target: which files count as delivered, what its entry in the ledger goes through, and who
 ends the remote session.
 */
module Sending {
  import opened Wrappers
  import opened Numbers
  import opened Restore
  import opened History
  import Ledger

  // How the target answers the preparation: not at all or with an error, without a session, or with a session
  // and the ids it accepts, in the iteration order of the answer.
  datatype Opening = Unreachable | NoSession | Session(files: seq<string>)

  // How one file's upload goes: the chunks handed to the connection, then success, an error or time-out, or
  // the whole send being dropped.
  datatype Ending = Delivered | Broken | Dropped
  datatype Attempt = Attempt(chunks: seq<nat>, ending: Ending)

  datatype SendResult =
    | Sent(accepted: set<string>, total: nat)
    | Failed(completed: set<string>, bytes: nat)
    | Lost

  // Whether the whole send is dropped between two files: not at all, at a wait before the first file, or at
  // the last wait, for the guard's task.
  datatype Interrupt = Survives | EarlyDrop | LateDrop

  // ---- The guard of the remote session ----

  // The one-shot channel to the guard's task, as the task sees it.
  datatype Channel = Empty | Signalled(done: bool) | Closed

  // The guard; `holds` says that it still has the sender.
  datatype SessionGuard = SessionGuard(holds: bool, channel: Channel) {
    // Completing or cancelling takes the sender and uses it.
    function Signal(done: bool): SessionGuard {
      if holds then SessionGuard(false, Signalled(done)) else this
    }

    // Dropping the guard drops a sender it still has.
    function Dropped(): SessionGuard {
      if holds then SessionGuard(false, Closed) else this
    }

    // The task ends quietly on a completion and cancels the session on anything else it receives.
    predicate Cancels() {
      match channel
      case Empty => false
      case Signalled(done) => !done
      case Closed => true
    }
  }

  const ARMED := SessionGuard(true, Empty)

  ghost predicate HasId(uploads: seq<Upload>, id: string) {
    exists u :: u in uploads && u.id == id
  }

  ghost predicate AllKnown(uploads: seq<Upload>, ids: seq<string>) {
    forall id :: id in ids ==> HasId(uploads, id)
  }

  ghost predicate DistinctIds(ids: seq<string>) {
    forall i, j :: 0 <= i < j < |ids| ==> ids[i] != ids[j]
  }

  function ToSet(ids: seq<string>): set<string> {
    set id | id in ids
  }

  function Sum(chunks: seq<nat>): nat {
    if chunks == [] then 0 else Sum(chunks[..|chunks| - 1]) + chunks[|chunks| - 1]
  }

  // A staged file is streamed as staged: never more bytes than its size.
  ghost predicate Unchanged(uploads: seq<Upload>, attempts: string -> Attempt) {
    forall u :: u in uploads ==> Sum(attempts(u.id).chunks) <= u.size
  }

  ghost predicate NonDecreasing(xs: seq<nat>) {
    forall i, j :: 0 <= i < j < |xs| ==> xs[i] <= xs[j]
  }

  ghost predicate AtMost(xs: seq<nat>, bound: nat) {
    forall i :: 0 <= i < |xs| ==> xs[i] <= bound
  }

  // ---- Sizes of sets of files ----

  lemma {:induction false} SizeOfNone(uploads: seq<Upload>)
    ensures AcceptedSize(uploads, Some({})) == 0
  {
    if uploads != [] {
      SizeOfNone(uploads[..|uploads| - 1]);
    }
  }

  lemma {:induction false} SizeIgnoresUnknown(uploads: seq<Upload>, ids: set<string>, id: string)
    requires !HasId(uploads, id)
    ensures AcceptedSize(uploads, Some(ids + {id})) == AcceptedSize(uploads, Some(ids))
  {
    if uploads != [] {
      var before := uploads[..|uploads| - 1];
      assert uploads[|uploads| - 1] in uploads;
      assert forall u :: u in before ==> u in uploads;
      SizeIgnoresUnknown(before, ids, id);
    }
  }

  lemma {:induction false} SizeAddsOne(uploads: seq<Upload>, ids: set<string>, k: nat)
    requires DistinctUploads(uploads) && k < |uploads| && uploads[k].id !in ids
    ensures AcceptedSize(uploads, Some(ids + {uploads[k].id})) == AcceptedSize(uploads, Some(ids)) + uploads[k].size
  {
    var before := uploads[..|uploads| - 1];
    if k < |uploads| - 1 {
      SizeAddsOne(before, ids, k);
    } else {
      forall u | u in before
        ensures u.id != uploads[k].id
      {
        var i :| 0 <= i < |before| && before[i] == u;
        assert uploads[i] == u;
      }
      SizeIgnoresUnknown(before, ids, uploads[k].id);
    }
  }

  lemma {:induction false} SizeIsMonotone(uploads: seq<Upload>, ids: set<string>, more: set<string>)
    requires ids <= more
    ensures AcceptedSize(uploads, Some(ids)) <= AcceptedSize(uploads, Some(more)) <= UploadSize(uploads)
  {
    if uploads != [] {
      SizeIsMonotone(uploads[..|uploads| - 1], ids, more);
    }
  }

  lemma {:induction false} SizeOfAll(uploads: seq<Upload>, ids: set<string>)
    requires forall u :: u in uploads ==> u.id in ids
    ensures AcceptedSize(uploads, Some(ids)) == UploadSize(uploads)
  {
    if uploads != [] {
      assert uploads[|uploads| - 1] in uploads;
      SizeOfAll(uploads[..|uploads| - 1], ids);
    }
  }

  // ---- The lookup by id ----

  method FindUpload(uploads: seq<Upload>, id: string) returns (k: nat)
    ensures k <= |uploads|
    ensures k < |uploads| ==> uploads[k].id == id
    ensures k == |uploads| <==> !HasId(uploads, id)
  {
    k := 0;
    while k < |uploads| && uploads[k].id != id
      invariant k <= |uploads|
      invariant forall i :: 0 <= i < k ==> uploads[i].id != id
    {
      k := k + 1;
    }
    assert k < |uploads| ==> uploads[k] in uploads;
  }

  // The bytes of the accepted files, unless the target accepted a file it was not offered.
  method AcceptedTotal(uploads: seq<Upload>, files: seq<string>) returns (known: bool, total: nat)
    requires DistinctUploads(uploads) && UploadSize(uploads) < U64_RANGE && DistinctIds(files)
    ensures known <==> AllKnown(uploads, files)
    ensures known ==> total == AcceptedSize(uploads, Some(ToSet(files)))
  {
    total := 0;
    SizeOfNone(uploads);
    assert ToSet(files[..0]) == {};
    for i := 0 to |files|
      invariant total == AcceptedSize(uploads, Some(ToSet(files[..i])))
      invariant forall j :: 0 <= j < i ==> HasId(uploads, files[j])
    {
      var k := FindUpload(uploads, files[i]);
      if k == |uploads| {
        return false, 0;
      }
      assert files[..i + 1] == files[..i] + [files[i]];
      assert ToSet(files[..i + 1]) == ToSet(files[..i]) + {uploads[k].id};
      SizeAddsOne(uploads, ToSet(files[..i]), k);
      SizeIsMonotone(uploads, ToSet(files[..i + 1]), ToSet(files[..i + 1]));
      total := SaturatingAdd(total, uploads[k].size);
    }
    assert files[..|files|] == files;
    return true, total;
  }

  // Progress reports while one file streams, on top of what earlier files brought. They never pass the cap, and
  // do not go back when the file is no longer than it was.
  method StreamChunks(base: nat, cap: nat, chunks: seq<nat>, progress: seq<nat>) returns (out: seq<nat>)
    requires AtMost(progress, cap) && base <= cap < U64_RANGE
    ensures progress <= out && AtMost(out, cap)
    ensures NonDecreasing(progress) && AtMost(progress, base) && base + Sum(chunks) <= cap ==>
              NonDecreasing(out) && AtMost(out, base + Sum(chunks))
  {
    out := progress;
    var sent: nat := 0;
    ghost var steady := NonDecreasing(progress) && AtMost(progress, base) && base + Sum(chunks) <= cap;
    for i := 0 to |chunks|
      invariant progress <= out && AtMost(out, cap)
      invariant steady ==> sent == Sum(chunks[..i]) <= Sum(chunks)
      invariant steady ==> NonDecreasing(out) && AtMost(out, base + sent)
    {
      assert chunks[..i + 1][..i] == chunks[..i];
      SumOfPrefix(chunks, i + 1);
      sent := SaturatingAdd(sent, chunks[i]);
      var value := SaturatingAdd(base, sent);
      out := out + [if value < cap then value else cap];
    }
    assert chunks[..|chunks|] == chunks;
  }

  lemma {:induction false} SumOfPrefix(chunks: seq<nat>, i: nat)
    requires i <= |chunks|
    ensures Sum(chunks[..i]) <= Sum(chunks)
    decreases |chunks|
  {
    if i < |chunks| {
      var before := chunks[..|chunks| - 1];
      assert before[..i] == chunks[..i];
      SumOfPrefix(before, i);
    } else {
      assert chunks[..i] == chunks;
    }
  }

  // ---- The send ----

  // The first n accepted files were all delivered.
  ghost predicate DeliveredUpTo(files: seq<string>, attempts: string -> Attempt, n: nat) {
    n <= |files| && forall i :: 0 <= i < n ==> attempts(files[i]).ending == Delivered
  }

  ghost predicate AllClipboard(uploads: seq<Upload>) {
    forall u :: u in uploads ==> u.clipboard
  }

  // The session opened and every file it accepted can be sent.
  ghost predicate Proceeds(uploads: seq<Upload>, opening: Opening) {
    opening.Session? && opening.files != [] && AllKnown(uploads, opening.files)
  }

  // The send ended at the n-th accepted file, after delivering the ones before it.
  ghost predicate StoppedAt(files: seq<string>, attempts: string -> Attempt, result: SendResult, n: nat) {
    && n < |files| && DeliveredUpTo(files, attempts, n)
    && (result.Failed? ==> attempts(files[n]).ending == Broken && result.completed == ToSet(files[..n]))
    && (result.Lost? ==> attempts(files[n]).ending == Dropped)
  }

  function Ids(uploads: seq<Upload>): set<string> {
    set u | u in uploads :: u.id
  }

  // What a finished send is worth: the bytes of exactly the files delivered, all of them offered; a failed one
  // misses at least one file.
  ghost predicate Accounts(uploads: seq<Upload>, result: SendResult) {
    match result
    case Sent(accepted, total) => accepted <= Ids(uploads) && total == AcceptedSize(uploads, Some(accepted))
    case Failed(completed, bytes) =>
      && completed <= Ids(uploads) && (uploads != [] ==> completed != Ids(uploads))
      && bytes == AcceptedSize(uploads, Some(completed))
    case Lost => true
  }

  // How the outcome goes with the target's answer.
  ghost predicate FitsAnswer(uploads: seq<Upload>, opening: Opening, result: SendResult) {
    && Accounts(uploads, result)
    && (result.Sent? ==>
          if Proceeds(uploads, opening) then result.accepted == ToSet(opening.files)
          else opening.NoSession? && result.accepted == Ids(uploads) && result.total == UploadSize(uploads))
  }

  // Every accepted file was delivered.
  ghost predicate DeliversAll(uploads: seq<Upload>, opening: Opening, attempts: string -> Attempt,
                              interrupt: Interrupt) {
    && Proceeds(uploads, opening) && DeliveredUpTo(opening.files, attempts, |opening.files|)
    && interrupt != EarlyDrop
  }

  function Stores(id: Uuid, progress: seq<nat>): seq<Ledger.Action> {
    seq(|progress|, i requires 0 <= i < |progress| => Ledger.StoreBytes(id, progress[i]))
  }

  // What the send does to its entry before its outcome is known.
  ghost function SendSteps(id: Uuid, uploads: seq<Upload>, opening: Opening, progress: seq<nat>): seq<Ledger.Action> {
    if !opening.Session? then []
    else if !Proceeds(uploads, opening) then [Ledger.MarkSending(id)]
    else [Ledger.MarkSending(id), Ledger.SetTotal(id, AcceptedSize(uploads, Some(ToSet(opening.files))))]
         + Stores(id, progress)
  }

  method PerformSend(id: Uuid, uploads: seq<Upload>, total: nat, opening: Opening, attempts: string -> Attempt,
                     interrupt: Interrupt)
    returns (result: SendResult, guard: Option<SessionGuard>, steps: seq<Ledger.Action>, progress: seq<nat>)
    requires DistinctUploads(uploads) && total == UploadSize(uploads) < U64_RANGE
    requires opening.Session? ==> DistinctIds(opening.files)
    // Ok exactly when a clipboard text needed no session, or every accepted file was delivered.
    ensures result.Sent? <==>
              || (opening.NoSession? && AllClipboard(uploads))
              || (DeliversAll(uploads, opening, attempts, interrupt) && interrupt == Survives)
    // After a session: exactly the accepted files, and exactly their bytes.
    ensures result.Sent? && opening.Session? ==>
              && result.accepted == ToSet(opening.files) && result.accepted != {}
              && (forall f :: f in result.accepted ==> HasId(uploads, f))
              && result.total == AcceptedSize(uploads, Some(result.accepted))
    ensures result.Sent? && opening.NoSession? ==> result.accepted == Ids(uploads) && result.total == total
    // On an error: the files delivered before it, and exactly their bytes.
    ensures result.Failed? ==> result.bytes == AcceptedSize(uploads, Some(result.completed))
    ensures result.Failed? && !Proceeds(uploads, opening) ==> result.completed == {}
    ensures !result.Sent? && Proceeds(uploads, opening) && (result.Failed? || interrupt == Survives) ==>
              exists n: nat :: StoppedAt(opening.files, attempts, result, n)
    ensures FitsAnswer(uploads, opening, result)
    // Progress never passes the accepted total, and never goes back unless a staged file grew.
    ensures Unchanged(uploads, attempts) ==> NonDecreasing(progress)
    ensures opening.Session? ==> AtMost(progress, AcceptedSize(uploads, Some(ToSet(opening.files))))
    ensures !result.Lost? ==> steps == SendSteps(id, uploads, opening, progress)
    // An opened session is guarded, no task is left waiting, and it cancels exactly when a file is missing.
    ensures guard.Some? <==> opening.Session?
    ensures guard.Some? ==>
              && !guard.value.holds && guard.value.channel != Empty
              && (guard.value.Cancels() <==> !DeliversAll(uploads, opening, attempts, interrupt))
  {
    progress, steps, guard := [], [], None;
    SizeOfNone(uploads);
    match opening
    case Unreachable => result := SendResult.Failed({}, 0);
    case NoSession =>
      var i := 0;
      while i < |uploads| && uploads[i].clipboard
        invariant i <= |uploads| && forall k :: 0 <= k < i ==> uploads[k].clipboard
      {
        i := i + 1;
      }
      if i == |uploads| {
        SizeOfAll(uploads, Ids(uploads));
        result := Sent(Ids(uploads), total);
      } else {
        assert uploads[i] in uploads;
        result := SendResult.Failed({}, 0);
      }
    case Session(files) =>
      var armed := ARMED;
      if interrupt == EarlyDrop {
        return Lost, Some(armed.Dropped()), steps, progress;
      }
      steps := [Ledger.MarkSending(id)];
      result, armed, steps, progress := SendAccepted(id, uploads, files, attempts, interrupt, armed, steps);
      guard := Some(armed.Dropped());
  }

  // From the answer of the target on: the accepted files, or the reason why there are none to send.
  method SendAccepted(id: Uuid, uploads: seq<Upload>, files: seq<string>, attempts: string -> Attempt,
                      interrupt: Interrupt, armed: SessionGuard, before: seq<Ledger.Action>)
    returns (result: SendResult, guard: SessionGuard, steps: seq<Ledger.Action>, progress: seq<nat>)
    requires DistinctUploads(uploads) && UploadSize(uploads) < U64_RANGE && DistinctIds(files)
    requires armed == ARMED && interrupt != EarlyDrop
    ensures var p := files != [] && AllKnown(uploads, files);
            && (guard.channel == Signalled(true) <==> p && DeliveredUpTo(files, attempts, |files|))
            && (result.Sent? <==> guard.channel == Signalled(true) && interrupt == Survives)
            && (result.Sent? ==> result.accepted == ToSet(files) && result.accepted != {})
            && (result.Failed? && !p ==> result.completed == {})
            && (!result.Sent? && p && (result.Failed? || interrupt == Survives) ==>
                  exists n: nat :: StoppedAt(files, attempts, result, n))
            && (!result.Lost? ==>
                  steps == before + if p then [Ledger.SetTotal(id, AcceptedSize(uploads, Some(ToSet(files))))]
                                              + Stores(id, progress) else [])
    ensures Accounts(uploads, result)
    ensures AtMost(progress, AcceptedSize(uploads, Some(ToSet(files))))
    ensures Unchanged(uploads, attempts) ==> NonDecreasing(progress)
    ensures guard.holds ==> guard.channel == Empty
    ensures !guard.holds ==> guard.channel != Empty
  {
    guard, steps, progress := armed, before, [];
    SizeOfNone(uploads);
    var known, acceptedTotal := AcceptedTotal(uploads, files);
    if !known || files == [] {
      guard := guard.Signal(false);
      return if interrupt == LateDrop then Lost else SendResult.Failed({}, 0), guard, steps, progress;
    }
    SizeIsMonotone(uploads, ToSet(files), ToSet(files));
    assert files[0] in ToSet(files);
    steps := steps + [Ledger.SetTotal(id, acceptedTotal)];
    result, progress := SendFiles(uploads, files, attempts, acceptedTotal);
    steps := steps + Stores(id, progress);
    if result.Failed? {
      guard := guard.Signal(false);
    } else if result.Sent? {
      guard := guard.Signal(true);
    }
    if interrupt == LateDrop && !result.Lost? {
      result := Lost;
    }
  }

  method SendFiles(uploads: seq<Upload>, files: seq<string>, attempts: string -> Attempt, acceptedTotal: nat)
    returns (result: SendResult, progress: seq<nat>)
    requires DistinctUploads(uploads) && DistinctIds(files) && AllKnown(uploads, files) && files != []
    requires acceptedTotal == AcceptedSize(uploads, Some(ToSet(files))) < U64_RANGE
    ensures result.Sent? <==> DeliveredUpTo(files, attempts, |files|)
    ensures result.Sent? ==> result.accepted == ToSet(files) && result.total == acceptedTotal
    ensures result.Failed? ==> result.bytes == AcceptedSize(uploads, Some(result.completed))
    ensures !result.Sent? ==>
              exists n: nat :: StoppedAt(files, attempts, result, n)
    ensures Accounts(uploads, result)
    ensures AtMost(progress, acceptedTotal)
    ensures Unchanged(uploads, attempts) ==> NonDecreasing(progress)
  {
    var completed: set<string> := {};
    var bytes := 0;
    progress := [];
    SizeOfNone(uploads);
    for n := 0 to |files|
      invariant completed == ToSet(files[..n]) && bytes == AcceptedSize(uploads, Some(completed)) <= acceptedTotal
      invariant DeliveredUpTo(files, attempts, n)
      invariant AtMost(progress, acceptedTotal)
      invariant Unchanged(uploads, attempts) ==> NonDecreasing(progress) && AtMost(progress, bytes)
    {
      var k := FindUpload(uploads, files[n]);
      var attempt := attempts(files[n]);
      NextFileFits(uploads, files, n, k);
      progress := StreamChunks(bytes, acceptedTotal, attempt.chunks, progress);
      if attempt.ending == Dropped {
        assert StoppedAt(files, attempts, Lost, n);
        return Lost, progress;
      }
      if attempt.ending == Broken {
        assert StoppedAt(files, attempts, SendResult.Failed(completed, bytes), n);
        AcceptedAreOffered(uploads, files, n);
        return SendResult.Failed(completed, bytes), progress;
      }
      completed := completed + {files[n]};
      bytes := SaturatingAdd(bytes, uploads[k].size);
      progress := progress + [if bytes < acceptedTotal then bytes else acceptedTotal];
      assert files[..n + 1] == files[..n] + [files[n]];
    }
    assert files[..|files|] == files;
    assert ToSet(files) == completed;
    AcceptedAreOffered(uploads, files, |files|);
    return Sent(completed, acceptedTotal), progress;
  }

  // The accepted ids are ids of uploads, and a part of them is not all of them.
  lemma AcceptedAreOffered(uploads: seq<Upload>, files: seq<string>, n: nat)
    requires DistinctIds(files) && AllKnown(uploads, files) && n <= |files|
    ensures ToSet(files[..n]) <= Ids(uploads)
    ensures n < |files| ==> ToSet(files[..n]) != Ids(uploads)
  {
    forall id | id in files
      ensures id in Ids(uploads)
    {
      assert HasId(uploads, id);
    }
    if n < |files| {
      assert files[n] in files && files[n] !in ToSet(files[..n]);
    }
  }

  // The next accepted file is new, and its bytes still fit the accepted total.
  lemma NextFileFits(uploads: seq<Upload>, files: seq<string>, n: nat, k: nat)
    requires DistinctUploads(uploads) && DistinctIds(files) && n < |files| && AllKnown(uploads, files)
    requires k <= |uploads| && (k < |uploads| ==> uploads[k].id == files[n])
    requires k == |uploads| <==> !HasId(uploads, files[n])
    ensures k < |uploads| && uploads[k] in uploads
    ensures AcceptedSize(uploads, Some(ToSet(files[..n]) + {files[n]})) ==
            AcceptedSize(uploads, Some(ToSet(files[..n]))) + uploads[k].size
    ensures AcceptedSize(uploads, Some(ToSet(files[..n]) + {files[n]})) <= AcceptedSize(uploads, Some(ToSet(files)))
  {
    assert files[n] in files;
    SizeAddsOne(uploads, ToSet(files[..n]), k);
    SizeIsMonotone(uploads, ToSet(files[..n]) + {files[n]}, ToSet(files));
  }
}
