/**
 The transfer table: atomic recording of a batch, listing of whole recent batches, and the batch ids a
 migration derives.
 */
module Storage {
  import opened Seqs
  import opened Ordering
  import opened Text
  import opened Restore

  const I64_MAX := 0x7FFF_FFFF_FFFF_FFFF
  const LISTING_LIMIT := 1000

  type Rows = map<string, Record>

  // ---- Recording ----

  // A row that exists keeps its size, peer, file name and time.
  function Upsert(rows: Rows, r: Record): Rows {
    if r.id in rows
    then rows[r.id := rows[r.id].(batch := r.batch, status := r.status, error := r.error,
                                  contentType := r.contentType, clipboard := r.clipboard)]
    else rows[r.id := r]
  }

  function UpsertAll(rows: Rows, rs: seq<Record>): Rows {
    if rs == [] then rows else Upsert(UpsertAll(rows, rs[..|rs| - 1]), rs[|rs| - 1])
  }

  predicate Fits(rs: seq<Record>) {
    forall r :: r in rs ==> r.size <= I64_MAX
  }

  class Database {
    var rows: Rows

    constructor (rows: Rows)
      ensures this.rows == rows
    {
      this.rows := rows;
    }

    // One transaction: a size the table cannot hold rolls the whole batch back.
    method RecordTransfers(rs: seq<Record>) returns (ok: bool)
      modifies this
      ensures ok <==> Fits(rs)
      ensures rows == if ok then UpsertAll(old(rows), rs) else old(rows)
    {
      var transaction := rows;
      for i := 0 to |rs|
        invariant transaction == UpsertAll(old(rows), rs[..i]) && rows == old(rows)
        invariant forall k :: 0 <= k < i ==> rs[k].size <= I64_MAX
      {
        if rs[i].size > I64_MAX {
          return false;
        }
        assert rs[..i + 1][..i] == rs[..i];
        var r := rs[i];
        if r.id in transaction {
          transaction := transaction[r.id := transaction[r.id].(batch := r.batch, status := r.status,
            error := r.error, contentType := r.contentType, clipboard := r.clipboard)];
        } else {
          transaction := transaction[r.id := r];
        }
      }
      assert rs[..|rs|] == rs;
      rows := transaction;
      return true;
    }
  }

  // ---- Listing ----

  predicate Matches(r: Record, instance: string, direction: string) {
    r.instance == instance && r.direction == direction
  }

  ghost predicate InTable(rows: Rows, instance: string, direction: string, r: Record) {
    r.id in rows && rows[r.id] == r && Matches(r, instance, direction)
  }

  // The table is keyed by row id.
  ghost predicate WellKeyed(rows: Rows) {
    forall k :: k in rows ==> rows[k].id == k
  }

  ghost function BatchIds(rows: Rows, instance: string, direction: string): set<string> {
    set k | k in rows && Matches(rows[k], instance, direction) :: rows[k].batch
  }

  // The latest row of batch a is at least as late as that of batch b.
  ghost predicate AsLate(rows: Rows, instance: string, direction: string, a: string, b: string) {
    forall r :: InTable(rows, instance, direction, r) && r.batch == b ==>
      exists q :: InTable(rows, instance, direction, q) && q.batch == a && q.createdMs >= r.createdMs
  }

  // Batch a comes before batch b in the listing: later, or equally late with the greater id.
  ghost predicate Precedes(rows: Rows, instance: string, direction: string, a: string, b: string) {
    && AsLate(rows, instance, direction, a, b)
    && (AsLate(rows, instance, direction, b, a) ==> TextLess(b, a))
  }

  ghost function Ahead(rows: Rows, instance: string, direction: string, b: string): set<string> {
    set a | a in BatchIds(rows, instance, direction) && Precedes(rows, instance, direction, a, b)
  }

  function CappedLimit(limit: nat): nat {
    if limit < LISTING_LIMIT then limit else LISTING_LIMIT
  }

  // The batch is among the most recent ones the limit allows.
  ghost predicate Recent(rows: Rows, instance: string, direction: string, limit: nat, b: string) {
    b in BatchIds(rows, instance, direction) && |Ahead(rows, instance, direction, b)| < CappedLimit(limit)
  }

  // The order of the rows: by the latest row of their batch, latest first, then by row id.
  ghost predicate RowBefore(rows: Rows, instance: string, direction: string, r: Record, q: Record) {
    && AsLate(rows, instance, direction, r.batch, q.batch)
    && (AsLate(rows, instance, direction, q.batch, r.batch) ==> TextLess(r.id, q.id))
  }

  ghost function RowOrder(rows: Rows, instance: string, direction: string): (Record, Record) -> bool {
    (r, q) => RowBefore(rows, instance, direction, r, q)
  }

  // What the query returns: the rows of the recent batches, each once, latest batch first and then by row id.
  ghost predicate IsListing(rows: Rows, instance: string, direction: string, limit: nat, out: seq<Record>) {
    && NoRepeats(out)
    && (forall r :: r in out <==>
          InTable(rows, instance, direction, r) && Recent(rows, instance, direction, limit, r.batch))
    && InOrder(RowOrder(rows, instance, direction), out)
  }

  lemma AsLateTotal(rows: Rows, instance: string, direction: string, a: string, b: string)
    ensures AsLate(rows, instance, direction, a, b) || AsLate(rows, instance, direction, b, a)
  {
    if !AsLate(rows, instance, direction, a, b) {
      var r :| InTable(rows, instance, direction, r) && r.batch == b &&
        !exists q :: InTable(rows, instance, direction, q) && q.batch == a && q.createdMs >= r.createdMs;
      forall q | InTable(rows, instance, direction, q) && q.batch == a
        ensures exists p :: InTable(rows, instance, direction, p) && p.batch == b && p.createdMs >= q.createdMs
      {
        assert r.createdMs > q.createdMs;
      }
    }
  }

  lemma AsLateTransitive(rows: Rows, instance: string, direction: string, a: string, b: string, c: string)
    requires AsLate(rows, instance, direction, a, b) && AsLate(rows, instance, direction, b, c)
    ensures AsLate(rows, instance, direction, a, c)
  {
    forall r | InTable(rows, instance, direction, r) && r.batch == c
      ensures exists q :: InTable(rows, instance, direction, q) && q.batch == a && q.createdMs >= r.createdMs
    {
      var p :| InTable(rows, instance, direction, p) && p.batch == b && p.createdMs >= r.createdMs;
      var q :| InTable(rows, instance, direction, q) && q.batch == a && q.createdMs >= p.createdMs;
    }
  }

  lemma PrecedesOrder(rows: Rows, instance: string, direction: string, a: string, b: string, c: string)
    ensures a != b ==> Precedes(rows, instance, direction, a, b) || Precedes(rows, instance, direction, b, a)
    ensures !Precedes(rows, instance, direction, a, a)
    ensures Precedes(rows, instance, direction, a, b) && Precedes(rows, instance, direction, b, c) ==>
              Precedes(rows, instance, direction, a, c)
  {
    AsLateTotal(rows, instance, direction, a, b);
    AsLateTotal(rows, instance, direction, a, a);
    TextLessTotal(a, b);
    TextLessTotal(a, a);
    if Precedes(rows, instance, direction, a, b) && Precedes(rows, instance, direction, b, c) {
      AsLateTransitive(rows, instance, direction, a, b, c);
      if AsLate(rows, instance, direction, c, a) {
        AsLateTransitive(rows, instance, direction, c, a, b);
        AsLateTransitive(rows, instance, direction, b, c, a);
        TextLessTransitive(c, b, a);
      }
    }
  }

  // A set of recent batches is no larger than the limit.
  lemma RecentIsLimited(rows: Rows, instance: string, direction: string, limit: nat, bs: set<string>)
    requires forall b :: b in bs ==> Recent(rows, instance, direction, limit, b)
    ensures |bs| <= CappedLimit(limit)
  {
    if bs != {} {
      var after := (a: string, b: string) => Precedes(rows, instance, direction, b, a);
      forall a, b, c
        ensures !after(a, a) && (after(a, b) && after(b, c) ==> after(a, c)) && (a != b ==> after(a, b) || after(b, a))
      {
        PrecedesOrder(rows, instance, direction, c, b, a);
        PrecedesOrder(rows, instance, direction, a, b, b);
      }
      var last := First(after, bs);
      var others := bs - {last};
      assert others <= Ahead(rows, instance, direction, last);
      SubsetSize(others, Ahead(rows, instance, direction, last));
    }
  }

  // ---- The listing exists and is unique ----

  lemma RowBeforeOrder(rows: Rows, instance: string, direction: string, p: Record, q: Record, r: Record)
    ensures p.id != q.id ==> RowBefore(rows, instance, direction, p, q) || RowBefore(rows, instance, direction, q, p)
    ensures !RowBefore(rows, instance, direction, p, p)
    ensures RowBefore(rows, instance, direction, p, q) && RowBefore(rows, instance, direction, q, r) ==>
              RowBefore(rows, instance, direction, p, r)
  {
    AsLateTotal(rows, instance, direction, p.batch, q.batch);
    AsLateTotal(rows, instance, direction, p.batch, p.batch);
    TextLessTotal(p.id, q.id);
    TextLessTotal(p.id, p.id);
    if RowBefore(rows, instance, direction, p, q) && RowBefore(rows, instance, direction, q, r) {
      AsLateTransitive(rows, instance, direction, p.batch, q.batch, r.batch);
      if AsLate(rows, instance, direction, r.batch, p.batch) {
        AsLateTransitive(rows, instance, direction, r.batch, p.batch, q.batch);
        AsLateTransitive(rows, instance, direction, q.batch, r.batch, p.batch);
        TextLessTransitive(p.id, q.id, r.id);
      }
    }
  }

  lemma RowsAreOrdered(rows: Rows, instance: string, direction: string, rs: set<Record>)
    requires forall p, q :: p in rs && q in rs && p.id == q.id ==> p == q
    ensures Orders(RowOrder(rows, instance, direction), rs)
  {
    var before := RowOrder(rows, instance, direction);
    forall p, q, r
      ensures !before(p, p) && (before(p, q) && before(q, r) ==> before(p, r))
      ensures p.id != q.id ==> before(p, q) || before(q, p)
    {
      RowBeforeOrder(rows, instance, direction, p, q, r);
    }
  }

  // The query has an answer on every table.
  lemma ListingExists(rows: Rows, instance: string, direction: string, limit: nat) returns (out: seq<Record>)
    requires WellKeyed(rows)
    ensures IsListing(rows, instance, direction, limit, out)
  {
    var rs := set k | k in rows && Matches(rows[k], instance, direction)
                      && Recent(rows, instance, direction, limit, rows[k].batch) :: rows[k];
    RowsAreOrdered(rows, instance, direction, rs);
    out := Arrange(RowOrder(rows, instance, direction), rs);
    forall r
      ensures r in rs <==> InTable(rows, instance, direction, r) && Recent(rows, instance, direction, limit, r.batch)
    {
    }
  }

  // And only one.
  lemma ListingIsUnique(rows: Rows, instance: string, direction: string, limit: nat,
                        xs: seq<Record>, ys: seq<Record>)
    requires IsListing(rows, instance, direction, limit, xs) && IsListing(rows, instance, direction, limit, ys)
    ensures xs == ys
  {
    RowsAreOrdered(rows, instance, direction, {});
    ArrangementIsUnique(RowOrder(rows, instance, direction), xs, ys);
  }

  // ---- Restoring a listing ----

  // What is restored at startup has at most one entry per batch of the limit, each of them finished.
  lemma RestoredLedgerIsSmall(rows: Rows, instance: string, direction: string, limit: nat,
                              out: seq<Record>, parse: Parser)
    requires IsListing(rows, instance, direction, limit, out)
    ensures |GroupBy(out, parse)| <= CappedLimit(limit)
    ensures forall i :: 0 <= i < |GroupBy(out, parse)| ==>
              GroupBy(out, parse)[i].status in {Completed, Failed}
  {
    BatchesAreDistinct(out, parse);
    var bs := Batches(out, parse);
    var ids := set b | b in bs;
    DistinctSize(bs, ids);
    forall b | b in ids
      ensures Recent(rows, instance, direction, limit, b)
    {
      var r :| r in out && r.batch == b;
    }
    RecentIsLimited(rows, instance, direction, limit, ids);
  }

  lemma {:induction false} DistinctSize(xs: seq<string>, s: set<string>)
    requires forall i, j :: 0 <= i < j < |xs| ==> xs[i] != xs[j]
    requires s == set x | x in xs
    ensures |s| == |xs|
  {
    if xs != [] {
      var before := xs[..|xs| - 1];
      var t := set x | x in before;
      DistinctSize(before, t);
      assert xs == before + [xs[|xs| - 1]];
      assert s == t + {xs[|xs| - 1]};
    }
  }
}
