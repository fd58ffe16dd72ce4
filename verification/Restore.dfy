/** Rebuilding the outgoing transfers from the stored records, one entry per batch. */
module Restore {
  import opened Wrappers
  import opened Numbers
  import opened Seqs

  type Uuid = int

  datatype Record = Record(id: string, batch: string, instance: string, direction: string, peer: string,
                           fileName: string, size: nat, status: string, createdMs: int,
                           error: Option<string>, contentType: Option<string>, clipboard: bool)

  datatype Status = Preparing | Sending | Completed | Failed

  datatype Transfer = Transfer(id: Uuid, alias: string, fileNames: seq<string>, total: nat, transferred: nat,
                               status: Status, createdMs: int, error: Option<string>,
                               contentType: Option<string>, clipboard: bool)

  // `Uuid::parse_str`, which is not part of this model.
  type Parser = string -> Option<Uuid>

  function SaturatingAdd(a: nat, b: nat): nat {
    if a + b < U64_RANGE then a + b else U64_RANGE - 1
  }

  predicate IsCompleted(r: Record) {
    r.status == "completed"
  }

  // ---- The specification: a plain group-by ----

  // The batch ids that parse, in order of first appearance.
  function Batches(rs: seq<Record>, parse: Parser): seq<string> {
    if rs == [] then []
    else
      var before, b := Batches(rs[..|rs| - 1], parse), rs[|rs| - 1].batch;
      if b in before || parse(b).None? then before else before + [b]
  }

  function Members(rs: seq<Record>, b: string): seq<Record> {
    if rs == [] then []
    else
      var before := Members(rs[..|rs| - 1], b);
      if rs[|rs| - 1].batch == b then before + [rs[|rs| - 1]] else before
  }

  function FileNames(rs: seq<Record>): seq<string> {
    seq(|rs|, i requires 0 <= i < |rs| => rs[i].fileName)
  }

  function TotalSize(rs: seq<Record>): nat {
    if rs == [] then 0 else TotalSize(rs[..|rs| - 1]) + rs[|rs| - 1].size
  }

  function CompletedSize(rs: seq<Record>): nat {
    if rs == [] then 0
    else CompletedSize(rs[..|rs| - 1]) + if IsCompleted(rs[|rs| - 1]) then rs[|rs| - 1].size else 0
  }

  function FirstError(rs: seq<Record>): Option<string> {
    if rs == [] then None
    else
      var before := FirstError(rs[..|rs| - 1]);
      if before.Some? then before else rs[|rs| - 1].error
  }

  function Capped(n: nat): nat {
    if n < U64_RANGE then n else U64_RANGE - 1
  }

  // The entry a batch should have.
  function Summary(id: Uuid, rs: seq<Record>): Transfer
    requires rs != []
  {
    Transfer(id, rs[0].peer, FileNames(rs), Capped(TotalSize(rs)), CompletedSize(rs) % U64_RANGE,
             if forall r :: r in rs ==> IsCompleted(r) then Completed else Failed,
             rs[0].createdMs, FirstError(rs), rs[0].contentType, exists r :: r in rs && r.clipboard)
  }

  lemma {:induction false} BatchesAreNonEmpty(rs: seq<Record>, parse: Parser, i: nat)
    requires i < |Batches(rs, parse)|
    ensures Members(rs, Batches(rs, parse)[i]) != [] && parse(Batches(rs, parse)[i]).Some?
  {
    var before := rs[..|rs| - 1];
    if i < |Batches(before, parse)| {
      BatchesAreNonEmpty(before, parse, i);
    }
  }

  function GroupBy(rs: seq<Record>, parse: Parser): (ts: seq<Transfer>)
    ensures |ts| == |Batches(rs, parse)|
  {
    seq(|Batches(rs, parse)|, i requires 0 <= i < |Batches(rs, parse)| =>
      var b := Batches(rs, parse)[i];
      BatchesAreNonEmpty(rs, parse, i);
      Summary(parse(b).value, Members(rs, b)))
  }

  // ---- Facts about the specification ----

  // One entry per distinct batch id.
  lemma {:induction false} BatchesAreDistinct(rs: seq<Record>, parse: Parser)
    ensures forall i, j :: 0 <= i < j < |Batches(rs, parse)| ==> Batches(rs, parse)[i] != Batches(rs, parse)[j]
    ensures forall b :: b in Batches(rs, parse) <==> parse(b).Some? && exists r :: r in rs && r.batch == b
  {
    if rs != [] {
      var before, last := rs[..|rs| - 1], rs[|rs| - 1];
      assert rs == before + [last];
      BatchesAreDistinct(before, parse);
      forall b
        ensures b in Batches(rs, parse) <==> parse(b).Some? && exists r :: r in rs && r.batch == b
      {
        if exists r :: r in before && r.batch == b {
          var r :| r in before && r.batch == b;
          assert r in rs;
        }
        assert last in rs;
      }
    }
  }

  lemma {:induction false} MembersAreRecords(rs: seq<Record>, b: string)
    ensures forall r :: r in Members(rs, b) <==> r in rs && r.batch == b
  {
    if rs != [] {
      MembersAreRecords(rs[..|rs| - 1], b);
      assert rs == rs[..|rs| - 1] + [rs[|rs| - 1]];
    }
  }

  lemma {:induction false} CompletedAtMostTotal(rs: seq<Record>)
    ensures CompletedSize(rs) <= TotalSize(rs)
    ensures (forall r :: r in rs ==> IsCompleted(r)) ==> CompletedSize(rs) == TotalSize(rs)
  {
    if rs != [] {
      CompletedAtMostTotal(rs[..|rs| - 1]);
      assert rs == rs[..|rs| - 1] + [rs[|rs| - 1]];
    }
  }

  // The transferred count never exceeds the total: when the counter wraps, the total is already at its cap.
  lemma TransferredAtMostTotal(id: Uuid, rs: seq<Record>)
    requires rs != []
    ensures Summary(id, rs).transferred <= Summary(id, rs).total < U64_RANGE
    ensures Summary(id, rs).transferred == CompletedSize(rs) <==> CompletedSize(rs) < U64_RANGE
  {
    CompletedAtMostTotal(rs);
  }

  // ---- The single pass ----

  // An entry with one more record of its batch.
  function Merged(t: Transfer, r: Record): Transfer {
    t.(fileNames := t.fileNames + [r.fileName],
       total := SaturatingAdd(t.total, r.size),
       transferred := if IsCompleted(r) then (t.transferred + r.size) % U64_RANGE else t.transferred,
       status := if IsCompleted(r) then t.status else Failed,
       error := if t.error.Some? then t.error else r.error,
       clipboard := t.clipboard || r.clipboard)
  }

  function FirstEntry(id: Uuid, r: Record): Transfer {
    Transfer(id, r.peer, [r.fileName], r.size, if IsCompleted(r) then r.size else 0,
             if IsCompleted(r) then Completed else Failed, r.createdMs, r.error, r.contentType, r.clipboard)
  }

  lemma SizesAppend(rs: seq<Record>, r: Record)
    ensures Capped(TotalSize(rs + [r])) == SaturatingAdd(Capped(TotalSize(rs)), r.size)
    ensures CompletedSize(rs + [r]) % U64_RANGE ==
            if IsCompleted(r) then (CompletedSize(rs) % U64_RANGE + r.size) % U64_RANGE
            else CompletedSize(rs) % U64_RANGE
  {
    assert (rs + [r])[..|rs|] == rs;
    WrapAdd(CompletedSize(rs), r.size);
  }

  lemma WrapAdd(a: nat, b: nat)
    ensures (a % U64_RANGE + b) % U64_RANGE == (a + b) % U64_RANGE
  {
  }

  lemma FlagsAppend(rs: seq<Record>, r: Record)
    ensures (forall q :: q in rs + [r] ==> IsCompleted(q)) <==>
            (forall q :: q in rs ==> IsCompleted(q)) && IsCompleted(r)
    ensures (exists q :: q in rs + [r] && q.clipboard) <==> (exists q :: q in rs && q.clipboard) || r.clipboard
    ensures FirstError(rs + [r]) == if FirstError(rs).Some? then FirstError(rs) else r.error
  {
    assert (rs + [r])[..|rs|] == rs;
    assert r in rs + [r];
    assert forall q :: q in rs + [r] <==> q in rs || q == r;
  }

  lemma SummaryAppend(id: Uuid, rs: seq<Record>, r: Record)
    requires rs != []
    ensures Summary(id, rs + [r]) == Merged(Summary(id, rs), r)
  {
    SizesAppend(rs, r);
    FlagsAppend(rs, r);
    assert FileNames(rs + [r]) == FileNames(rs) + [r.fileName];
  }

  lemma SummaryOfOne(id: Uuid, r: Record)
    requires r.size < U64_RANGE
    ensures Summary(id, [r]) == FirstEntry(id, r)
  {
    assert [r][..0] == [];
    assert FileNames([r]) == [r.fileName];
    assert r in [r];
    assert FirstError([r]) == r.error;
    assert TotalSize([r]) == r.size;
    assert CompletedSize([r]) == if IsCompleted(r) then r.size else 0;
    assert (exists q :: q in [r] && q.clipboard) <==> r.clipboard;
  }

  lemma GroupByAppend(rs: seq<Record>, r: Record, parse: Parser)
    ensures Batches(rs + [r], parse) ==
            if r.batch in Batches(rs, parse) || parse(r.batch).None? then Batches(rs, parse)
            else Batches(rs, parse) + [r.batch]
    ensures forall b :: Members(rs + [r], b) == if b == r.batch then Members(rs, b) + [r] else Members(rs, b)
  {
    assert (rs + [r])[..|rs|] == rs;
  }

  lemma NewBatchHasNoMembers(rs: seq<Record>, b: string, parse: Parser)
    requires b !in Batches(rs, parse) && parse(b).Some?
    ensures Members(rs, b) == []
  {
    BatchesAreDistinct(rs, parse);
    MembersAreRecords(rs, b);
    if Members(rs, b) != [] {
      HasMember(Members(rs, b));
    }
  }

  // The positions remember where each batch's entry is.
  ghost predicate Indexed(positions: map<string, nat>, bs: seq<string>) {
    && (forall b :: b in positions ==> positions[b] < |bs| && bs[positions[b]] == b)
    && (forall i :: 0 <= i < |bs| ==> bs[i] in positions && positions[bs[i]] == i)
  }

  lemma EntryKept(rs: seq<Record>, r: Record, parse: Parser, i: nat)
    requires i < |Batches(rs, parse)| && Batches(rs, parse)[i] != r.batch
    ensures i < |Batches(rs + [r], parse)| && GroupBy(rs + [r], parse)[i] == GroupBy(rs, parse)[i]
  {
    GroupByAppend(rs, r, parse);
    assert Batches(rs + [r], parse)[i] == Batches(rs, parse)[i];
  }

  // A record of a known batch changes that batch's entry only.
  lemma UpdatedEntry(rs: seq<Record>, r: Record, parse: Parser, k: nat)
    requires k < |Batches(rs, parse)| && Batches(rs, parse)[k] == r.batch
    ensures Batches(rs + [r], parse) == Batches(rs, parse)
    ensures Members(rs, r.batch) != [] && parse(r.batch).Some?
    ensures GroupBy(rs + [r], parse) ==
            GroupBy(rs, parse)[k := Summary(parse(r.batch).value, Members(rs, r.batch) + [r])]
  {
    BatchesAreNonEmpty(rs, parse, k);
    BatchesAreDistinct(rs, parse);
    GroupByAppend(rs, r, parse);
    forall i | 0 <= i < |Batches(rs, parse)| && i != k
      ensures GroupBy(rs + [r], parse)[i] == GroupBy(rs, parse)[i]
    {
      EntryKept(rs, r, parse, i);
    }
  }

  // A record of a new batch adds that batch's entry at the end.
  lemma AddedEntry(rs: seq<Record>, r: Record, parse: Parser)
    requires r.batch !in Batches(rs, parse) && parse(r.batch).Some? && r.size < U64_RANGE
    ensures Batches(rs + [r], parse) == Batches(rs, parse) + [r.batch]
    ensures GroupBy(rs + [r], parse) == GroupBy(rs, parse) + [FirstEntry(parse(r.batch).value, r)]
  {
    var n := |Batches(rs, parse)|;
    EntryAdded(rs, r, parse);
    forall i | 0 <= i < n
      ensures GroupBy(rs + [r], parse)[i] == GroupBy(rs, parse)[i]
    {
      EntryKept(rs, r, parse, i);
    }
  }

  lemma EntryAdded(rs: seq<Record>, r: Record, parse: Parser)
    requires r.batch !in Batches(rs, parse) && parse(r.batch).Some? && r.size < U64_RANGE
    ensures Batches(rs + [r], parse) == Batches(rs, parse) + [r.batch]
    ensures GroupBy(rs + [r], parse)[|Batches(rs, parse)|] == FirstEntry(parse(r.batch).value, r)
  {
    NewBatchHasNoMembers(rs, r.batch, parse);
    GroupByAppend(rs, r, parse);
    assert Members(rs + [r], r.batch) == [r];
    SummaryOfOne(parse(r.batch).value, r);
  }

  lemma IgnoredRecord(rs: seq<Record>, r: Record, parse: Parser)
    requires parse(r.batch).None?
    ensures Batches(rs + [r], parse) == Batches(rs, parse)
    ensures GroupBy(rs + [r], parse) == GroupBy(rs, parse)
  {
    BatchesAreDistinct(rs, parse);
    GroupByAppend(rs, r, parse);
  }

  // The summary of a batch becomes, field by field, the summary of the batch with the record.
  method MergeRecord(transfer: Transfer, record: Record, ghost earlier: seq<Record>) returns (merged: Transfer)
    requires earlier != [] && transfer == Summary(transfer.id, earlier)
    ensures merged == Summary(transfer.id, earlier + [record])
  {
    SummaryAppend(transfer.id, earlier, record);
    merged := transfer.(fileNames := transfer.fileNames + [record.fileName],
                        total := SaturatingAdd(transfer.total, record.size));
    if record.status == "completed" {
      merged := merged.(transferred := (merged.transferred + record.size) % U64_RANGE);
    } else {
      merged := merged.(status := Failed);
    }
    if merged.error.None? {
      merged := merged.(error := record.error);
    }
    merged := merged.(clipboard := merged.clipboard || record.clipboard);
  }

  method RestoreOutgoing(records: seq<Record>, parse: Parser) returns (transfers: seq<Transfer>)
    requires forall r :: r in records ==> r.size < U64_RANGE
    ensures transfers == GroupBy(records, parse)
  {
    var positions: map<string, nat> := map[];
    transfers := [];
    for k := 0 to |records|
      invariant transfers == GroupBy(records[..k], parse)
      invariant Indexed(positions, Batches(records[..k], parse))
    {
      var record := records[k];
      assert records[..k + 1] == records[..k] + [record];
      if record.batch in positions {
        var index := positions[record.batch];
        UpdatedEntry(records[..k], record, parse, index);
        var merged := MergeRecord(transfers[index], record, Members(records[..k], record.batch));
        transfers := transfers[index := merged];
        continue;
      }
      var parsed := parse(record.batch);
      if parsed.None? {
        IgnoredRecord(records[..k], record, parse);
        continue;
      }
      AddedEntry(records[..k], record, parse);
      positions := positions[record.batch := |transfers|];
      transfers := transfers + [FirstEntry(parsed.value, record)];
    }
    assert records[..|records|] == records;
  }
}
