/** What a restart brings back of the sends of earlier runs. */
module Restart {
  import opened Wrappers
  import opened Numbers
  import opened Restore
  import opened Storage
  import opened History
  import opened Sending

  // However the table came about, the ledger restored from it stays bounded in every later run.
  lemma RestartedLedgerIsBounded(rows: Rows, instance: string, out: seq<Record>, parse: Parser,
                                 acts: seq<Ledger.Action>, id: Uuid)
    requires IsListing(rows, instance, OUTGOING, Ledger.MAX_IN_MEMORY_TRANSFERS, out)
    ensures var s := Ledger.Run(Ledger.State(GroupBy(out, parse), map[], {}), acts);
            && |s.entries| <= Ledger.Bound(s.lost)
            && (Ledger.IsStage(s, id, Ledger.Running) ==> Ledger.FindId(s.entries, id) < |s.entries|)
  {
    RestoredLedgerIsSmall(rows, instance, OUTGOING, Ledger.MAX_IN_MEMORY_TRANSFERS, out, parse);
    forall t | t in GroupBy(out, parse)
      ensures Ledger.IsFinished(t)
    {
      var i :| 0 <= i < |GroupBy(out, parse)| && GroupBy(out, parse)[i] == t;
    }
    Ledger.LedgerIsBounded(GroupBy(out, parse), acts, id);
  }

  // ---- A send and its record ----

  function Delivered(result: SendResult): set<string>
    requires !result.Lost?
  {
    if result.Sent? then result.accepted else result.completed
  }

  function Outcome(id: Uuid, uploads: seq<Upload>, result: SendResult, error: Option<string>): Ledger.Action
    requires !result.Lost?
  {
    match result
    case Sent(accepted, total) => Ledger.Conclude(id, |accepted| == |uploads|, Some(total), error)
    case Failed(_, _) => Ledger.Conclude(id, false, None, error)
  }

  function DeliveredBytes(result: SendResult): nat
    requires !result.Lost?
  {
    if result.Sent? then result.total else result.bytes
  }

  // What happens to the entry once the outcome is known. An error is given when files are missing. A body still
  // being streamed reports on, until the bytes of the outcome are stored and after that.
  function ConclusionSteps(id: Uuid, uploads: seq<Upload>, result: SendResult, error: Option<string>,
                           between: seq<nat>, late: seq<nat>): seq<Ledger.Action>
    requires !result.Lost?
  {
    [Outcome(id, uploads, result, error)] + Stores(id, between) +
    [Ledger.StoreBytes(id, DeliveredBytes(result))] + Stores(id, late)
  }

  // The last report, if there is one.
  function LastOr(reports: seq<nat>, bytes: nat): nat {
    if reports == [] then bytes else reports[|reports| - 1]
  }

  // The entry a send starts with.
  predicate JustPushed(e: Transfer, id: Uuid, uploads: seq<Upload>) {
    e.id == id && e.status == Preparing && e.total == UploadSize(uploads)
  }

  lemma {:induction false} StoryOfStores(e: Transfer, id: Uuid, acts: seq<Ledger.Action>, progress: seq<nat>)
    ensures var before, after := Ledger.Story(e, id, acts), Ledger.Story(e, id, acts + Stores(id, progress));
            after == before.(transferred := LastOr(progress, before.transferred))
  {
    if progress == [] {
      assert acts + Stores(id, progress) == acts;
    } else {
      var n := |progress| - 1;
      StoryOfStores(e, id, acts, progress[..n]);
      assert acts + Stores(id, progress) == acts + Stores(id, progress[..n]) + [Ledger.StoreBytes(id, progress[n])];
      Ledger.StoryStep(e, id, acts + Stores(id, progress[..n]), Ledger.StoreBytes(id, progress[n]));
    }
  }

  // The total the entry has when the outcome arrives: that of the accepted files, once they are known.
  lemma StoryOfSend(e: Transfer, id: Uuid, uploads: seq<Upload>, opening: Opening, progress: seq<nat>)
    requires JustPushed(e, id, uploads)
    ensures var during := Ledger.Story(e, id, SendSteps(id, uploads, opening, progress));
            && !Ledger.IsFinished(during) && during.id == id
            && during.total == if Proceeds(uploads, opening) then AcceptedSize(uploads, Some(ToSet(opening.files)))
                               else UploadSize(uploads)
  {
    var mark := Ledger.MarkSending(id);
    Ledger.StoryStep(e, id, [], mark);
    assert [] + [mark] == [mark];
    if Proceeds(uploads, opening) {
      var setTotal := Ledger.SetTotal(id, AcceptedSize(uploads, Some(ToSet(opening.files))));
      Ledger.StoryStep(e, id, [mark], setTotal);
      assert [mark] + [setTotal] == [mark, setTotal];
      StoryOfStores(e, id, [mark, setTotal], progress);
    }
  }

  // What the entry shows in the end.
  lemma StoryOfConclusion(e: Transfer, id: Uuid, acts: seq<Ledger.Action>, uploads: seq<Upload>, result: SendResult,
                          error: Option<string>, between: seq<nat>, late: seq<nat>)
    requires !result.Lost? && !Ledger.IsFinished(Ledger.Story(e, id, acts))
    ensures var during := Ledger.Story(e, id, acts);
            var shown := Ledger.Story(e, id, acts + ConclusionSteps(id, uploads, result, error, between, late));
            && shown.id == during.id && shown.transferred == LastOr(late, DeliveredBytes(result))
            && shown.total == (if result.Sent? then result.total else during.total)
            && shown.status == (if result.Sent? && |result.accepted| == |uploads| then Completed else Status.Failed)
  {
    var outcome, store := Outcome(id, uploads, result, error), Ledger.StoreBytes(id, DeliveredBytes(result));
    var concluded := acts + [outcome];
    var reported := concluded + Stores(id, between);
    Ledger.StoryStep(e, id, acts, outcome);
    StoryOfStores(e, id, concluded, between);
    Ledger.StoryStep(e, id, reported, store);
    StoryOfStores(e, id, reported + [store], late);
    FourParts(acts, [outcome], Stores(id, between), [store], Stores(id, late));
  }

  lemma FourParts<T>(a: seq<T>, b: seq<T>, c: seq<T>, d: seq<T>, e: seq<T>)
    ensures a + (b + c + d + e) == a + b + c + d + e
  {
  }

  lemma IdsCount(uploads: seq<Upload>)
    requires DistinctUploads(uploads)
    ensures |Ids(uploads)| == |uploads|
  {
    var names := seq(|uploads|, i requires 0 <= i < |uploads| => uploads[i].id);
    forall id
      ensures id in names <==> id in Ids(uploads)
    {
      if id in names {
        var i :| 0 <= i < |names| && names[i] == id;
        assert uploads[i] in uploads;
      }
      if id in Ids(uploads) {
        var i :| 0 <= i < |uploads| && uploads[i].id == id;
        assert names[i] == id;
      }
    }
    DistinctSize(names, Ids(uploads));
  }

  // Counting files decides whether all were accepted.
  lemma CountDecides(uploads: seq<Upload>, ids: set<string>)
    requires DistinctUploads(uploads) && ids <= Ids(uploads)
    ensures |ids| == |uploads| <==> (forall u :: u in uploads ==> u.id in ids)
  {
    IdsCount(uploads);
    var missing := Ids(uploads) - ids;
    assert Ids(uploads) == ids + missing && |Ids(uploads)| == |ids| + |missing|;
    if |ids| == |uploads| {
      assert missing == {};
      forall u | u in uploads
        ensures u.id in ids
      {
        assert u.id in Ids(uploads);
      }
    } else {
      assert missing != {};
      var id :| id in missing;
      var u :| u in uploads && u.id == id;
    }
  }

  // The restored entry repeats the status. It has the bytes of the outcome, so it repeats those shown exactly when
  // no later report said otherwise. Its total is that of all files offered, so it repeats the one shown exactly
  // when the send did not get to the accepted files, or the declined ones are empty.
  ghost predicate ShowsAgain(t: Transfer, shown: Transfer, uploads: seq<Upload>, opening: Opening, bytes: nat,
                             late: seq<nat>) {
    && t.id == shown.id && t.status == shown.status && t.transferred == bytes
    && (t.transferred == shown.transferred <==> LastOr(late, bytes) == bytes)
    && (t.total == shown.total <==>
          (Proceeds(uploads, opening) ==>
             AcceptedSize(uploads, Some(ToSet(opening.files))) == UploadSize(uploads)))
  }

  // After a restart the entry of a recorded send shows what it showed before, whatever other sends did in
  // between: `acts` are the steps of all sends from its push on, its own among them.
  lemma RestartShowsTheSend(s: Ledger.State, e: Transfer, acts: seq<Ledger.Action>, id: Uuid, uploads: seq<Upload>,
                            opening: Opening, progress: seq<nat>, result: SendResult, error: Option<string>,
                            between: seq<nat>, late: seq<nat>, rows: Rows, instance: string, transfer: string,
                            alias: string, now: int, limit: nat, out: seq<Record>, parse: Parser)
    requires Ledger.Inv(s) && Ledger.Tracked(s, id, e) && JustPushed(e, id, uploads)
    requires forall a :: a in acts ==> !Ledger.Leaves(a, id)
    requires !result.Lost? && FitsAnswer(uploads, opening, result) && UploadSize(uploads) < U64_RANGE
    requires Ledger.Own(acts, id) ==
             SendSteps(id, uploads, opening, progress) + ConclusionSteps(id, uploads, result, error, between, late)
    requires WellKeyed(rows) && DistinctUploads(uploads) && uploads != [] && parse(transfer) == Some(id)
    requires NewIds(rows, OutgoingRecords(instance, transfer, alias, uploads, Some(Delivered(result)), error, now))
    requires forall k :: k in rows ==> rows[k].batch != transfer
    requires var sent := OutgoingRecords(instance, transfer, alias, uploads, Some(Delivered(result)), error, now);
             var after := UpsertAll(rows, sent);
             && IsListing(after, instance, OUTGOING, limit, out)
             && Recent(after, instance, OUTGOING, limit, transfer)
    ensures Ledger.Tracked(Ledger.Run(s, acts), id, Ledger.Story(e, id, acts))
    ensures exists t :: t in GroupBy(out, parse)
                        && ShowsAgain(t, Ledger.Story(e, id, acts), uploads, opening, DeliveredBytes(result), late)
  {
    Ledger.EntryFollowsItsSend(s, id, e, acts);
    Ledger.StoryIgnoresOthers(e, id, acts);
    StoryOfSend(e, id, uploads, opening, progress);
    StoryOfConclusion(e, id, SendSteps(id, uploads, opening, progress), uploads, result, error, between, late);
    var delivered := Delivered(result);
    RecordThenRestore(rows, instance, transfer, alias, uploads, Some(delivered), error, now, limit, out, parse, id);
    var i :| 0 <= i < |Batches(out, parse)| && Batches(out, parse)[i] == transfer
             && Restored(GroupBy(out, parse)[i], id, alias, uploads, Some(delivered));
    EntryShowsAgain(GroupBy(out, parse)[i], Ledger.Story(e, id, acts), id, alias, uploads, opening, result, late);
  }

  // Without overflow a restored entry has the plain sums.
  lemma RestoredSums(t: Transfer, id: Uuid, alias: string, uploads: seq<Upload>, delivered: set<string>)
    requires Restored(t, id, alias, uploads, Some(delivered)) && UploadSize(uploads) < U64_RANGE
    ensures t.id == id && t.total == UploadSize(uploads) && t.transferred == AcceptedSize(uploads, Some(delivered))
    ensures t.status == if forall u :: u in uploads ==> Accepts(Some(delivered), u) then Completed else Status.Failed
  {
    SizeIsMonotone(uploads, delivered, delivered);
    NoWrap(AcceptedSize(uploads, Some(delivered)));
  }

  lemma NoWrap(n: nat)
    requires n < U64_RANGE
    ensures n % U64_RANGE == n
  {
  }

  lemma EntryShowsAgain(t: Transfer, shown: Transfer, id: Uuid, alias: string, uploads: seq<Upload>,
                        opening: Opening, result: SendResult, late: seq<nat>)
    requires !result.Lost? && FitsAnswer(uploads, opening, result) && UploadSize(uploads) < U64_RANGE
    requires DistinctUploads(uploads) && uploads != []
    requires Restored(t, id, alias, uploads, Some(Delivered(result)))
    requires shown.id == id && shown.transferred == LastOr(late, DeliveredBytes(result))
    requires shown.total == if Proceeds(uploads, opening) then AcceptedSize(uploads, Some(ToSet(opening.files)))
                            else UploadSize(uploads)
    requires shown.status == if result.Sent? && |result.accepted| == |uploads| then Completed else Status.Failed
    ensures ShowsAgain(t, shown, uploads, opening, DeliveredBytes(result), late)
  {
    RestoredSums(t, id, alias, uploads, Delivered(result));
    StatusFollowsCount(uploads, opening, result);
  }

  lemma StatusFollowsCount(uploads: seq<Upload>, opening: Opening, result: SendResult)
    requires !result.Lost? && FitsAnswer(uploads, opening, result) && DistinctUploads(uploads) && uploads != []
    ensures (result.Sent? && |result.accepted| == |uploads|) <==>
            (forall u :: u in uploads ==> Accepts(Some(Delivered(result)), u))
  {
    if result.Sent? {
      CountDecides(uploads, result.accepted);
    } else {
      var missing :| missing in Ids(uploads) && missing !in result.completed;
      var u :| u in uploads && u.id == missing;
    }
  }

  // Two files of 10 and 5 bytes, of which the target accepts the first: whether it arrives or breaks off, the
  // entry shows a total of 10 until the restart and 15 after it.
  lemma DeclinedFileComesBack(e: Transfer, id: Uuid, alias: string, progress: seq<nat>, result: SendResult, t: Transfer)
    requires var a, b := Upload("a", "a", "text/plain", 10, false), Upload("b", "b", "text/plain", 5, false);
             && JustPushed(e, id, [a, b]) && result in {Sent({"a"}, 10), SendResult.Failed({}, 0)}
             && Restored(t, id, alias, [a, b], Some(Delivered(result)))
    ensures var a, b := Upload("a", "a", "text/plain", 10, false), Upload("b", "b", "text/plain", 5, false);
            var steps := SendSteps(id, [a, b], Session(["a"]), progress)
                         + ConclusionSteps(id, [a, b], result, None, [], []);
            FitsAnswer([a, b], Session(["a"]), result) && Ledger.Story(e, id, steps).total == 10 && t.total == 15
  {
    var a, b := Upload("a", "a", "text/plain", 10, false), Upload("b", "b", "text/plain", 5, false);
    var uploads, opening := [a, b], Session(["a"]);
    TwoFiles(a, b);
    StoryOfSend(e, id, uploads, opening, progress);
    StoryOfConclusion(e, id, SendSteps(id, uploads, opening, progress), uploads, result, None, [], []);
  }

  lemma TwoFiles(a: Upload, b: Upload)
    requires a.id == "a" && b.id == "b"
    ensures UploadSize([a, b]) == a.size + b.size && Proceeds([a, b], Session(["a"]))
    ensures ToSet(["a"]) == {"a"} <= Ids([a, b]) && {} <= Ids([a, b]) && "b" in Ids([a, b])
    ensures AcceptedSize([a, b], Some({"a"})) == a.size && AcceptedSize([a, b], Some({})) == 0
  {
    assert [a, b][..1] == [a];
    assert [a][..0] == [];
    assert UploadSize([a]) == a.size;
    SizesOfTwo(a, b);
    assert a in [a, b] && b in [a, b];
    assert HasId([a, b], "a");
  }

  lemma SizesOfTwo(a: Upload, b: Upload)
    requires a.id == "a" && b.id == "b"
    ensures AcceptedSize([a, b], Some({"a"})) == a.size && AcceptedSize([a, b], Some({})) == 0
  {
    assert [a, b][..1] == [a];
    assert [a][..0] == [];
    assert "a"[0] != "b"[0];
    assert AcceptedSize([a], Some({"a"})) == a.size;
    SizeOfNone([a, b]);
  }
}
