/** Recording an outgoing batch, listing it and restoring it gives the batch back. */
module History {
  import opened Wrappers
  import opened Numbers
  import opened Seqs
  import opened Text
  import opened Restore
  import opened Storage

  datatype Upload = Upload(id: string, name: string, contentType: string, size: nat, clipboard: bool)

  const OUTGOING := "outgoing"

  predicate Accepts(accepted: Option<set<string>>, u: Upload) {
    accepted.Some? && u.id in accepted.value
  }

  function OutgoingRecord(instance: string, transfer: string, alias: string, u: Upload,
                          accepted: Option<set<string>>, error: Option<string>, now: int): Record {
    var completed := Accepts(accepted, u);
    Record(transfer + [':'] + u.id, transfer, instance, OUTGOING, alias, u.name, u.size,
           if completed then "completed" else "failed", now,
           if completed then None
           else Some(if error.Some? then error.value else "Receiver did not accept this file"),
           Some(u.contentType), u.clipboard)
  }

  function OutgoingRecords(instance: string, transfer: string, alias: string, uploads: seq<Upload>,
                           accepted: Option<set<string>>, error: Option<string>, now: int): seq<Record> {
    seq(|uploads|, i requires 0 <= i < |uploads| =>
      OutgoingRecord(instance, transfer, alias, uploads[i], accepted, error, now))
  }

  ghost predicate DistinctUploads(uploads: seq<Upload>) {
    forall i, j :: 0 <= i < j < |uploads| ==> uploads[i].id != uploads[j].id
  }

  function UploadSize(uploads: seq<Upload>): nat {
    if uploads == [] then 0 else UploadSize(uploads[..|uploads| - 1]) + uploads[|uploads| - 1].size
  }

  function AcceptedSize(uploads: seq<Upload>, accepted: Option<set<string>>): nat {
    if uploads == [] then 0
    else AcceptedSize(uploads[..|uploads| - 1], accepted) +
         if Accepts(accepted, uploads[|uploads| - 1]) then uploads[|uploads| - 1].size else 0
  }

  function Names(uploads: seq<Upload>): seq<string> {
    seq(|uploads|, i requires 0 <= i < |uploads| => uploads[i].name)
  }

  // ---- The rows a new batch adds ----

  ghost predicate NewIds(rows: Rows, rs: seq<Record>) {
    && (forall r :: r in rs ==> r.id !in rows)
    && (forall i, j :: 0 <= i < j < |rs| ==> rs[i].id != rs[j].id)
  }

  function RecordIds(rs: seq<Record>): set<string> {
    set r | r in rs :: r.id
  }

  // The table is the old one with the records added.
  ghost predicate Adds(rows: Rows, rs: seq<Record>, after: Rows) {
    && (forall r :: r in rs ==> r.id in after && after[r.id] == r)
    && after.Keys == rows.Keys + RecordIds(rs)
    && (forall k :: k in rows ==> after[k] == rows[k])
  }

  lemma AddsOneMore(rows: Rows, rs: seq<Record>, last: Record, after: Rows)
    requires Adds(rows, rs, after) && last.id !in after
    ensures Adds(rows, rs + [last], after[last.id := last])
  {
    IdsOfMore(rs, last);
  }

  lemma IdsOfMore(rs: seq<Record>, last: Record)
    ensures RecordIds(rs + [last]) == RecordIds(rs) + {last.id}
  {
    assert forall r :: r in rs + [last] <==> r in rs || r == last;
  }

  lemma {:induction false} UpsertNew(rows: Rows, rs: seq<Record>)
    requires NewIds(rows, rs)
    ensures Adds(rows, rs, UpsertAll(rows, rs))
  {
    if rs != [] {
      var before, last := rs[..|rs| - 1], rs[|rs| - 1];
      UpsertNew(rows, before);
      assert last in rs;
      forall r | r in before
        ensures r.id != last.id
      {
        var i :| 0 <= i < |before| && before[i] == r;
        assert rs[i] == r;
      }
      AddsOneMore(rows, before, last, UpsertAll(rows, before));
      assert before + [last] == rs;
    }
  }

  lemma RecordIdsAreDistinct(instance: string, transfer: string, alias: string, uploads: seq<Upload>,
                             accepted: Option<set<string>>, error: Option<string>, now: int)
    requires DistinctUploads(uploads)
    ensures var rs := OutgoingRecords(instance, transfer, alias, uploads, accepted, error, now);
            forall i, j :: 0 <= i < j < |rs| ==> rs[i].id != rs[j].id
  {
    var rs := OutgoingRecords(instance, transfer, alias, uploads, accepted, error, now);
    forall i, j | 0 <= i < j < |rs|
      ensures rs[i].id != rs[j].id
    {
      assert rs[i].id[|transfer| + 1..] == uploads[i].id && rs[j].id[|transfer| + 1..] == uploads[j].id;
    }
  }

  // ---- Sums and names do not depend on the order of the rows ----

  lemma PermuteWithout(xs: seq<Record>, ys: seq<Record>, i: nat)
    requires xs != [] && i < |ys| && ys[i] == xs[|xs| - 1] && multiset(xs) == multiset(ys)
    ensures multiset(xs[..|xs| - 1]) == multiset(ys[..i] + ys[i + 1..])
  {
    assert xs == xs[..|xs| - 1] + [xs[|xs| - 1]];
    Without(ys, i);
    assert multiset(xs[..|xs| - 1]) == multiset(xs) - multiset{ys[i]};
  }

  lemma Without(ys: seq<Record>, i: nat)
    requires i < |ys|
    ensures multiset(ys[..i] + ys[i + 1..]) == multiset(ys) - multiset{ys[i]}
  {
    assert ys == ys[..i] + [ys[i]] + ys[i + 1..];
  }

  lemma {:induction false} SizesPermute(xs: seq<Record>, ys: seq<Record>)
    requires multiset(xs) == multiset(ys)
    ensures TotalSize(xs) == TotalSize(ys) && CompletedSize(xs) == CompletedSize(ys)
    ensures multiset(FileNames(xs)) == multiset(FileNames(ys))
  {
    if xs == [] {
      if ys != [] {
        InMultiset(ys);
      }
    } else {
      var last, before := xs[|xs| - 1], xs[..|xs| - 1];
      assert last in multiset(xs);
      var i :| 0 <= i < |ys| && ys[i] == last;
      PermuteWithout(xs, ys, i);
      SizesPermute(before, ys[..i] + ys[i + 1..]);
      SizesWithout(ys, i);
      NamesWithout(ys, i);
      LastApart(xs);
      assert FileNames(xs) == FileNames(before) + [last.fileName];
    }
  }

  lemma InMultiset(ys: seq<Record>)
    requires ys != []
    ensures multiset(ys) != multiset{}
  {
    assert ys[0] in multiset(ys);
  }

  lemma {:induction false} SizesWithout(ys: seq<Record>, i: nat)
    requires i < |ys|
    ensures var rest := ys[..i] + ys[i + 1..];
            && TotalSize(ys) == TotalSize(rest) + ys[i].size
            && CompletedSize(ys) == CompletedSize(rest) + (if IsCompleted(ys[i]) then ys[i].size else 0)
  {
    var n := |ys| - 1;
    LastApart(ys);
    SumsAppend(ys[..n], ys[n]);
    if i == n {
      assert ys[..i] + ys[i + 1..] == ys[..n];
    } else {
      SizesWithout(ys[..n], i);
      WithoutBeforeLast(ys, i);
      SumsAppend(ys[..n][..i] + ys[..n][i + 1..], ys[n]);
    }
  }

  lemma LastApart<T>(ys: seq<T>)
    requires ys != []
    ensures ys[..|ys| - 1] + [ys[|ys| - 1]] == ys
  {
  }

  lemma WithoutBeforeLast<T>(ys: seq<T>, i: nat)
    requires i < |ys| - 1
    ensures var n := |ys| - 1; ys[..i] + ys[i + 1..] == ys[..n][..i] + ys[..n][i + 1..] + [ys[n]]
  {
  }

  lemma NamesWithout(ys: seq<Record>, i: nat)
    requires i < |ys|
    ensures multiset(FileNames(ys)) == multiset(FileNames(ys[..i] + ys[i + 1..])) + multiset{ys[i].fileName}
  {
    var names := FileNames(ys);
    assert FileNames(ys[..i] + ys[i + 1..]) == names[..i] + names[i + 1..];
    assert names == names[..i] + [names[i]] + names[i + 1..];
  }

  lemma SumsAppend(rs: seq<Record>, r: Record)
    ensures TotalSize(rs + [r]) == TotalSize(rs) + r.size
    ensures CompletedSize(rs + [r]) == CompletedSize(rs) + if IsCompleted(r) then r.size else 0
  {
    assert (rs + [r])[..|rs|] == rs;
  }

  lemma {:induction false} SizesOfRecords(instance: string, transfer: string, alias: string, uploads: seq<Upload>,
                                          accepted: Option<set<string>>, error: Option<string>, now: int)
    ensures var rs := OutgoingRecords(instance, transfer, alias, uploads, accepted, error, now);
            && TotalSize(rs) == UploadSize(uploads)
            && CompletedSize(rs) == AcceptedSize(uploads, accepted)
            && FileNames(rs) == Names(uploads)
  {
    if uploads != [] {
      var before, last := uploads[..|uploads| - 1], uploads[|uploads| - 1];
      SizesOfRecords(instance, transfer, alias, before, accepted, error, now);
      RecordsAppend(instance, transfer, alias, uploads, accepted, error, now);
      CompletionOfRecords(instance, transfer, alias, uploads, accepted, error, now);
      SumsAppend(OutgoingRecords(instance, transfer, alias, before, accepted, error, now),
                 OutgoingRecord(instance, transfer, alias, last, accepted, error, now));
    }
  }

  lemma RecordsAppend(instance: string, transfer: string, alias: string, uploads: seq<Upload>,
                      accepted: Option<set<string>>, error: Option<string>, now: int)
    requires uploads != []
    ensures OutgoingRecords(instance, transfer, alias, uploads, accepted, error, now) ==
            OutgoingRecords(instance, transfer, alias, uploads[..|uploads| - 1], accepted, error, now)
            + [OutgoingRecord(instance, transfer, alias, uploads[|uploads| - 1], accepted, error, now)]
  {
  }

  // ---- The round trip ----

  // The rows of the table that belong to the batch are exactly the new records.
  lemma BatchRows(rows: Rows, rs: seq<Record>, instance: string, transfer: string)
    requires WellKeyed(rows) && NewIds(rows, rs)
    requires forall k :: k in rows ==> rows[k].batch != transfer
    requires forall r :: r in rs ==> Matches(r, instance, OUTGOING) && r.batch == transfer
    ensures forall r :: InTable(UpsertAll(rows, rs), instance, OUTGOING, r) && r.batch == transfer <==> r in rs
  {
    UpsertNew(rows, rs);
    var after := UpsertAll(rows, rs);
    forall r
      ensures InTable(after, instance, OUTGOING, r) && r.batch == transfer <==> r in rs
    {
      if InTable(after, instance, OUTGOING, r) && r.batch == transfer {
        if r.id !in rows {
          var q :| q in rs && q.id == r.id;
          assert after[q.id] == q;
        }
      }
    }
  }

  lemma MembersHaveNoRepeats(rs: seq<Record>, b: string)
    requires NoRepeats(rs)
    ensures NoRepeats(Members(rs, b))
    decreases |rs|
  {
    if rs != [] {
      var before := rs[..|rs| - 1];
      MembersHaveNoRepeats(before, b);
      MembersAreRecords(before, b);
      forall r | r in Members(before, b)
        ensures r != rs[|rs| - 1]
      {
        var i :| 0 <= i < |before| && before[i] == r;
        assert rs[i] == r;
      }
    }
  }

  // The entry a recorded batch is restored to.
  ghost predicate Restored(t: Transfer, id: Uuid, alias: string, uploads: seq<Upload>, accepted: Option<set<string>>) {
    && t.id == id && t.alias == alias
    && multiset(t.fileNames) == multiset(Names(uploads))
    && t.total == Capped(UploadSize(uploads))
    && t.transferred == AcceptedSize(uploads, accepted) % U64_RANGE
    && t.status == (if forall u :: u in uploads ==> Accepts(accepted, u) then Completed else Failed)
    && (t.clipboard <==> exists u :: u in uploads && u.clipboard)
  }

  lemma RecordsOfUploads(instance: string, transfer: string, alias: string, uploads: seq<Upload>,
                         accepted: Option<set<string>>, error: Option<string>, now: int, ms: seq<Record>)
    requires multiset(ms) == multiset(OutgoingRecords(instance, transfer, alias, uploads, accepted, error, now))
    ensures (forall r :: r in ms ==> IsCompleted(r)) <==> (forall u :: u in uploads ==> Accepts(accepted, u))
    ensures (exists r :: r in ms && r.clipboard) <==> (exists u :: u in uploads && u.clipboard)
    ensures forall r :: r in ms ==> r.peer == alias
  {
    var rs := OutgoingRecords(instance, transfer, alias, uploads, accepted, error, now);
    forall r
      ensures r in ms <==> r in rs
    {
      assert r in ms <==> r in multiset(ms);
      assert r in rs <==> r in multiset(rs);
    }
    forall u | u in uploads
      ensures OutgoingRecord(instance, transfer, alias, u, accepted, error, now) in rs
    {
      var i :| 0 <= i < |uploads| && uploads[i] == u;
      assert rs[i] == OutgoingRecord(instance, transfer, alias, u, accepted, error, now);
    }
    forall r | r in rs
      ensures exists u :: u in uploads && r == OutgoingRecord(instance, transfer, alias, u, accepted, error, now)
    {
      var i :| 0 <= i < |rs| && rs[i] == r;
      assert uploads[i] in uploads;
    }
    CompletionOfRecords(instance, transfer, alias, uploads, accepted, error, now);
  }

  lemma CompletionOfRecords(instance: string, transfer: string, alias: string, uploads: seq<Upload>,
                            accepted: Option<set<string>>, error: Option<string>, now: int)
    ensures forall u :: u in uploads ==>
              var r := OutgoingRecord(instance, transfer, alias, u, accepted, error, now);
              (IsCompleted(r) <==> Accepts(accepted, u)) && r.clipboard == u.clipboard && r.peer == alias
  {
    assert "completed" != "failed";
  }

  // Recording a new batch and restoring any listing that still shows it gives one entry with its id, its file
  // names up to order, the sum of its sizes, the sum of the accepted sizes, and Completed exactly when all
  // files were accepted.
  lemma RecordThenRestore(rows: Rows, instance: string, transfer: string, alias: string, uploads: seq<Upload>,
                          accepted: Option<set<string>>, error: Option<string>, now: int,
                          limit: nat, out: seq<Record>, parse: Parser, id: Uuid)
    requires WellKeyed(rows) && DistinctUploads(uploads) && uploads != [] && parse(transfer) == Some(id)
    requires NewIds(rows, OutgoingRecords(instance, transfer, alias, uploads, accepted, error, now))
    requires forall k :: k in rows ==> rows[k].batch != transfer
    requires var after := UpsertAll(rows, OutgoingRecords(instance, transfer, alias, uploads, accepted, error, now));
             && IsListing(after, instance, OUTGOING, limit, out)
             && Recent(after, instance, OUTGOING, limit, transfer)
    ensures exists i :: 0 <= i < |Batches(out, parse)| && Batches(out, parse)[i] == transfer
                        && Restored(GroupBy(out, parse)[i], id, alias, uploads, accepted)
    ensures forall i, j :: 0 <= i < j < |Batches(out, parse)| ==> Batches(out, parse)[i] != Batches(out, parse)[j]
  {
    var rs := OutgoingRecords(instance, transfer, alias, uploads, accepted, error, now);
    var after := UpsertAll(rows, rs);
    forall r | r in rs
      ensures Matches(r, instance, OUTGOING) && r.batch == transfer
    {
    }
    BatchRows(rows, rs, instance, transfer);
    BatchesAreDistinct(out, parse);
    MembersAreRecords(out, transfer);
    var ms := Members(out, transfer);
    MembersHaveNoRepeats(out, transfer);
    RecordIdsAreDistinct(instance, transfer, alias, uploads, accepted, error, now);
    assert forall r :: r in ms <==> r in rs;
    SameElementsPermute(ms, rs);
    assert rs[0] in rs;
    assert rs[0] in ms && rs[0] in out;
    var i :| 0 <= i < |Batches(out, parse)| && Batches(out, parse)[i] == transfer;
    SummaryIsRestored(instance, transfer, alias, uploads, accepted, error, now, ms, id);
    assert GroupBy(out, parse)[i] == Summary(id, ms);
  }

  // A batch later than every other row is listed first, so any limit but zero shows it.
  lemma NewestIsRecent(rows: Rows, instance: string, transfer: string, alias: string, uploads: seq<Upload>,
                       accepted: Option<set<string>>, error: Option<string>, now: int, limit: nat)
    requires DistinctUploads(uploads) && uploads != [] && limit > 0
    requires NewIds(rows, OutgoingRecords(instance, transfer, alias, uploads, accepted, error, now))
    requires forall k :: k in rows ==> rows[k].createdMs < now
    ensures Recent(UpsertAll(rows, OutgoingRecords(instance, transfer, alias, uploads, accepted, error, now)),
                   instance, OUTGOING, limit, transfer)
  {
    var rs := OutgoingRecords(instance, transfer, alias, uploads, accepted, error, now);
    var after := UpsertAll(rows, rs);
    UpsertNew(rows, rs);
    assert rs[0] in rs;
    assert InTable(after, instance, OUTGOING, rs[0]) && after[rs[0].id].batch == transfer;
    forall b | b in BatchIds(after, instance, OUTGOING)
      ensures !Precedes(after, instance, OUTGOING, b, transfer)
    {
      if b == transfer {
        PrecedesOrder(after, instance, OUTGOING, b, b, b);
      } else {
        EarlierBatch(rows, rs, instance, transfer, now, b);
      }
    }
    assert Ahead(after, instance, OUTGOING, transfer) == {};
  }

  // The query's answer after recording the newest batch restores it.
  lemma NewestIsRestored(rows: Rows, instance: string, transfer: string, alias: string, uploads: seq<Upload>,
                         accepted: Option<set<string>>, error: Option<string>, now: int,
                         limit: nat, parse: Parser, id: Uuid)
    returns (out: seq<Record>, i: nat)
    requires WellKeyed(rows) && DistinctUploads(uploads) && uploads != [] && parse(transfer) == Some(id)
    requires NewIds(rows, OutgoingRecords(instance, transfer, alias, uploads, accepted, error, now))
    requires forall k :: k in rows ==> rows[k].batch != transfer && rows[k].createdMs < now
    requires limit > 0
    ensures IsListing(UpsertAll(rows, OutgoingRecords(instance, transfer, alias, uploads, accepted, error, now)),
                      instance, OUTGOING, limit, out)
    ensures i < |GroupBy(out, parse)| && Restored(GroupBy(out, parse)[i], id, alias, uploads, accepted)
  {
    var rs := OutgoingRecords(instance, transfer, alias, uploads, accepted, error, now);
    var after := UpsertAll(rows, rs);
    NewestIsRecent(rows, instance, transfer, alias, uploads, accepted, error, now, limit);
    UpsertKeepsKeys(rows, rs);
    out := ListingExists(after, instance, OUTGOING, limit);
    RecordThenRestore(rows, instance, transfer, alias, uploads, accepted, error, now, limit, out, parse, id);
    i :| 0 <= i < |Batches(out, parse)| && Batches(out, parse)[i] == transfer
         && Restored(GroupBy(out, parse)[i], id, alias, uploads, accepted);
  }

  lemma {:induction false} UpsertKeepsKeys(rows: Rows, rs: seq<Record>)
    requires WellKeyed(rows)
    ensures WellKeyed(UpsertAll(rows, rs))
  {
    if rs != [] {
      UpsertKeepsKeys(rows, rs[..|rs| - 1]);
    }
  }

  lemma EarlierBatch(rows: Rows, rs: seq<Record>, instance: string, transfer: string, now: int, b: string)
    requires NewIds(rows, rs) && rs != [] && b != transfer
    requires forall k :: k in rows ==> rows[k].createdMs < now
    requires forall r :: r in rs ==> Matches(r, instance, OUTGOING) && r.batch == transfer && r.createdMs == now
    ensures !AsLate(UpsertAll(rows, rs), instance, OUTGOING, b, transfer)
  {
    var after := UpsertAll(rows, rs);
    UpsertNew(rows, rs);
    assert rs[0] in rs;
    assert InTable(after, instance, OUTGOING, rs[0]);
    forall q | InTable(after, instance, OUTGOING, q)
      ensures q in rs || q.createdMs < now
    {
      if q.id !in rows {
        var r :| r in rs && r.id == q.id;
        assert after[r.id] == r;
      }
    }
  }

  lemma SummaryIsRestored(instance: string, transfer: string, alias: string, uploads: seq<Upload>,
                          accepted: Option<set<string>>, error: Option<string>, now: int, ms: seq<Record>, id: Uuid)
    requires multiset(ms) == multiset(OutgoingRecords(instance, transfer, alias, uploads, accepted, error, now))
    requires ms != []
    ensures Restored(Summary(id, ms), id, alias, uploads, accepted)
  {
    var rs := OutgoingRecords(instance, transfer, alias, uploads, accepted, error, now);
    SizesPermute(ms, rs);
    SizesOfRecords(instance, transfer, alias, uploads, accepted, error, now);
    RecordsOfUploads(instance, transfer, alias, uploads, accepted, error, now, ms);
    assert ms[0] in ms;
  }

  // ---- Migration ----

  // A row of schema 1 to 3: no batch id, and before schema 3 no clipboard flag.
  datatype Legacy = Legacy(row: Record, preview: Option<string>)

  function FirstColon(s: string): (k: nat)
    ensures k <= |s| && (k < |s| ==> s[k] == ':') && ':' !in s[..k]
  {
    if s == [] then 0
    else if s[0] == ':' then 0
    else 1 + FirstColon(s[1..])
  }

  function DerivedBatch(direction: string, id: string): string {
    if direction == OUTGOING && FirstColon(id) < |id| then id[..FirstColon(id)] else id
  }

  function Migrate(version: int, legacy: Legacy): Record {
    var row := legacy.row.(batch := DerivedBatch(legacy.row.direction, legacy.row.id));
    if version == 1 then row.(contentType := None, clipboard := false)
    else if version == 2 then row.(clipboard := legacy.preview.Some?)
    else row
  }

  // How the program names rows: an outgoing row after its transfer, any other row after itself.
  ghost predicate NamedAfterBatch(r: Record) {
    if r.direction == OUTGOING
    then ':' !in r.batch && exists file :: r.id == r.batch + [':'] + file
    else r.batch == r.id
  }

  lemma DerivedBatchIsTransfer(transfer: string, file: string)
    requires ':' !in transfer
    ensures DerivedBatch(OUTGOING, transfer + [':'] + file) == transfer
  {
    var id := transfer + [':'] + file;
    var k := FirstColon(id);
    assert id[|transfer|] == ':';
    assert id[..|id|] == id;
    assert id == id[..k] + [':'] + id[k + 1..];
    FirstSeparatorSplits(id[..k], transfer, id[k + 1..], file, ':');
  }

  // Whatever batch id an old row is given, migration derives the one the program would have stored; from
  // schema 3, and from schema 2 with its clipboard payloads, nothing else changes.
  lemma MigrationRestoresBatch(version: int, r: Record, stored: string, preview: Option<string>)
    requires NamedAfterBatch(r) && 1 <= version <= 3
    requires version == 2 ==> (preview.Some? <==> r.clipboard)
    ensures var m := Migrate(version, Legacy(r.(batch := stored), preview));
            && m.batch == r.batch
            && (version >= 2 ==> m == r)
            && (version == 1 ==> m == r.(contentType := None, clipboard := false))
  {
    if r.direction == OUTGOING {
      var file :| r.id == r.batch + [':'] + file;
      DerivedBatchIsTransfer(r.batch, file);
    }
  }

  lemma RecordsAreNamedAfterBatch(instance: string, transfer: string, alias: string, u: Upload,
                                  accepted: Option<set<string>>, error: Option<string>, now: int)
    requires ':' !in transfer
    ensures NamedAfterBatch(OutgoingRecord(instance, transfer, alias, u, accepted, error, now))
  {
    var r := OutgoingRecord(instance, transfer, alias, u, accepted, error, now);
    assert r.id == r.batch + [':'] + u.id;
  }
}
