/** Lexicographic order on texts, and stable sorting by a priority and a text. */
module Ordering {
  import opened Seqs

  // `str` order: the byte order of UTF-8 is the order of code points.
  predicate TextLess(a: string, b: string) {
    b != [] && (a == [] || a[0] < b[0] || (a[0] == b[0] && TextLess(a[1..], b[1..])))
  }

  lemma {:induction false} TextLessTotal(a: string, b: string)
    ensures a == b || TextLess(a, b) || TextLess(b, a)
    ensures !(TextLess(a, b) && TextLess(b, a))
    ensures !TextLess(a, a)
  {
    if a != [] && b != [] && a[0] == b[0] {
      TextLessTotal(a[1..], b[1..]);
      assert a == [a[0]] + a[1..] && b == [b[0]] + b[1..];
    }
    if a != [] {
      TextLessTotal(a[1..], a[1..]);
    }
  }

  lemma {:induction false} TextLessTransitive(a: string, b: string, c: string)
    requires TextLess(a, b) && TextLess(b, c)
    ensures TextLess(a, c)
  {
    if a != [] && a[0] == b[0] && b[0] == c[0] {
      TextLessTransitive(a[1..], b[1..], c[1..]);
    }
  }

  datatype Rank = Rank(priority: nat, text: string)

  predicate RankLess(a: Rank, b: Rank) {
    a.priority < b.priority || (a.priority == b.priority && TextLess(a.text, b.text))
  }

  lemma RankLessTotal(a: Rank, b: Rank)
    ensures a == b || RankLess(a, b) || RankLess(b, a)
    ensures !(RankLess(a, b) && RankLess(b, a))
    ensures !RankLess(a, a)
  {
    TextLessTotal(a.text, b.text);
    TextLessTotal(a.text, a.text);
  }

  lemma RankLessTransitive(a: Rank, b: Rank, c: Rank)
    requires RankLess(a, b) && RankLess(b, c)
    ensures RankLess(a, c)
  {
    if a.priority == b.priority && b.priority == c.priority {
      TextLessTransitive(a.text, b.text, c.text);
    }
  }

  // ---- Stable sort ----

  // Before the first element that is not smaller, so that equal elements keep their order.
  function Insert<T>(x: T, ys: seq<T>, key: T -> Rank): seq<T> {
    if ys == [] || !RankLess(key(ys[0]), key(x)) then [x] + ys
    else [ys[0]] + Insert(x, ys[1..], key)
  }

  function SortByKey<T>(xs: seq<T>, key: T -> Rank): seq<T> {
    if xs == [] then [] else Insert(xs[0], SortByKey(xs[1..], key), key)
  }

  ghost predicate Ascending<T>(xs: seq<T>, key: T -> Rank) {
    forall i, j :: 0 <= i < j < |xs| ==> !RankLess(key(xs[j]), key(xs[i]))
  }

  ghost predicate StrictlyAscending<T>(xs: seq<T>, key: T -> Rank) {
    forall i, j :: 0 <= i < j < |xs| ==> RankLess(key(xs[i]), key(xs[j]))
  }

  lemma {:induction false} InsertElements<T>(x: T, ys: seq<T>, key: T -> Rank)
    ensures multiset(Insert(x, ys, key)) == multiset(ys) + multiset{x}
  {
    if ys != [] && RankLess(key(ys[0]), key(x)) {
      InsertElements(x, ys[1..], key);
      assert ys == [ys[0]] + ys[1..];
    }
  }

  lemma {:induction false} InsertAscends<T>(x: T, ys: seq<T>, key: T -> Rank)
    requires Ascending(ys, key)
    ensures Ascending(Insert(x, ys, key), key)
  {
    if ys == [] || !RankLess(key(ys[0]), key(x)) {
      forall j | 0 <= j < |ys|
        ensures !RankLess(key(ys[j]), key(x))
      {
        HeadIsLeast(x, ys, key, j);
      }
      PrependAscends(x, ys, key);
    } else {
      var rest := Insert(x, ys[1..], key);
      InsertAscends(x, ys[1..], key);
      InsertElements(x, ys[1..], key);
      RankLessTotal(key(ys[0]), key(x));
      forall j | 0 <= j < |rest|
        ensures !RankLess(key(rest[j]), key(ys[0]))
      {
        assert rest[j] in multiset(rest);
        if rest[j] != x {
          assert rest[j] in multiset(ys[1..]);
          var k :| 0 <= k < |ys[1..]| && ys[1..][k] == rest[j];
          assert ys[k + 1] == rest[j];
        }
      }
      PrependAscends(ys[0], rest, key);
    }
  }

  lemma PrependAscends<T>(x: T, ys: seq<T>, key: T -> Rank)
    requires Ascending(ys, key) && forall j :: 0 <= j < |ys| ==> !RankLess(key(ys[j]), key(x))
    ensures Ascending([x] + ys, key)
  {
    assert forall j :: 1 <= j < |[x] + ys| ==> ([x] + ys)[j] == ys[j - 1];
  }

  lemma HeadIsLeast<T>(x: T, ys: seq<T>, key: T -> Rank, j: nat)
    requires Ascending(ys, key) && j < |ys| && !RankLess(key(ys[0]), key(x))
    ensures !RankLess(key(ys[j]), key(x))
  {
    RankLessTotal(key(ys[0]), key(x));
    RankLessTotal(key(ys[0]), key(ys[j]));
    if RankLess(key(ys[j]), key(x)) && j > 0 {
      if RankLess(key(ys[0]), key(ys[j])) {
        RankLessTransitive(key(ys[0]), key(ys[j]), key(x));
      }
    }
  }

  lemma {:induction false} SortElements<T>(xs: seq<T>, key: T -> Rank)
    ensures multiset(SortByKey(xs, key)) == multiset(xs)
  {
    if xs != [] {
      SortElements(xs[1..], key);
      InsertElements(xs[0], SortByKey(xs[1..], key), key);
      assert xs == [xs[0]] + xs[1..];
    }
  }

  lemma {:induction false} SortAscends<T>(xs: seq<T>, key: T -> Rank)
    ensures Ascending(SortByKey(xs, key), key)
  {
    if xs != [] {
      SortAscends(xs[1..], key);
      InsertAscends(xs[0], SortByKey(xs[1..], key), key);
    }
  }

  lemma SortKeeps<T>(xs: seq<T>, key: T -> Rank)
    ensures multiset(SortByKey(xs, key)) == multiset(xs)
    ensures Ascending(SortByKey(xs, key), key)
    ensures |SortByKey(xs, key)| == |xs|
  {
    SortElements(xs, key);
    SortAscends(xs, key);
    assert |multiset(xs)| == |xs| && |multiset(SortByKey(xs, key))| == |SortByKey(xs, key)|;
  }

  // A strictly ascending sequence is determined by its elements.
  lemma {:induction false} SortedIsCanonical<T>(xs: seq<T>, ys: seq<T>, key: T -> Rank)
    requires StrictlyAscending(xs, key) && StrictlyAscending(ys, key)
    requires forall z :: z in xs <==> z in ys
    ensures xs == ys
  {
    if xs == [] {
      if ys != [] {
        HasMember(ys);
      }
    } else {
      assert xs[0] in ys;
      assert ys[0] in xs;
      var i :| 0 <= i < |ys| && ys[i] == xs[0];
      var j :| 0 <= j < |xs| && xs[j] == ys[0];
      RankLessTotal(key(xs[0]), key(ys[0]));
      assert xs[0] == ys[0];
      forall z
        ensures z in xs[1..] <==> z in ys[1..]
      {
        TailMembership(xs, key, z);
        TailMembership(ys, key, z);
      }
      SortedIsCanonical(xs[1..], ys[1..], key);
    }
  }

  lemma TailMembership<T>(xs: seq<T>, key: T -> Rank, z: T)
    requires StrictlyAscending(xs, key) && xs != []
    ensures z in xs[1..] <==> z in xs && z != xs[0]
  {
    RankLessTotal(key(xs[0]), key(xs[0]));
    if z in xs[1..] {
      var i :| 0 <= i < |xs[1..]| && xs[1..][i] == z;
      assert RankLess(key(xs[0]), key(xs[i + 1]));
    }
  }

  // Drops repeats that stand next to each other.
  function Dedup<T(==)>(xs: seq<T>): seq<T> {
    if |xs| < 2 then xs
    else if xs[0] == xs[1] then Dedup(xs[1..])
    else [xs[0]] + Dedup(xs[1..])
  }

  // When equal keys mean equal elements, sorting and deduplicating gives a strictly ascending sequence.
  lemma {:induction false} DedupIsStrict<T>(xs: seq<T>, key: T -> Rank)
    requires Ascending(xs, key)
    requires forall x, y :: x in xs && y in xs && key(x) == key(y) ==> x == y
    ensures StrictlyAscending(Dedup(xs), key)
    ensures forall z :: z in Dedup(xs) <==> z in xs
    ensures xs != [] ==> Dedup(xs) != [] && Dedup(xs)[0] == xs[0]
  {
    if |xs| >= 2 {
      var rest := xs[1..];
      assert xs == [xs[0]] + rest;
      DedupIsStrict(rest, key);
      if xs[0] != xs[1] {
        RankLessTotal(key(xs[0]), key(xs[1]));
        assert key(xs[0]) != key(xs[1]);
        var d := Dedup(rest);
        forall j | 0 <= j < |d|
          ensures RankLess(key(xs[0]), key(d[j]))
        {
          if j > 0 {
            RankLessTransitive(key(xs[0]), key(d[0]), key(d[j]));
          }
        }
      }
    }
  }

  // Distinct keys make the sorted order strict.
  lemma SortIsStrict<T>(xs: seq<T>, key: T -> Rank)
    requires forall i, j :: 0 <= i < j < |xs| ==> key(xs[i]) != key(xs[j])
    ensures StrictlyAscending(SortByKey(xs, key), key)
  {
    SortKeeps(xs, key);
    var s := SortByKey(xs, key);
    forall i, j | 0 <= i < j < |s|
      ensures RankLess(key(s[i]), key(s[j]))
    {
      RankLessTotal(key(s[i]), key(s[j]));
      if key(s[i]) == key(s[j]) {
        KeysAreDistinct(xs, s, key, i, j);
      }
    }
  }

  lemma KeysAreDistinct<T>(xs: seq<T>, s: seq<T>, key: T -> Rank, i: nat, j: nat)
    requires forall p, q :: 0 <= p < q < |xs| ==> key(xs[p]) != key(xs[q])
    requires multiset(s) == multiset(xs) && i < j < |s|
    ensures key(s[i]) != key(s[j])
  {
    assert s[i] in multiset(s) && s[j] in multiset(s);
    var p :| 0 <= p < |xs| && xs[p] == s[i];
    var q :| 0 <= q < |xs| && xs[q] == s[j];
    CountsOnce(xs, p);
    if p == q {
      RepeatCounts(s, i, j);
    }
  }

  // ---- Arranging a finite set by any strict total order ----

  ghost predicate Orders<T(!new)>(before: (T, T) -> bool, xs: set<T>) {
    && (forall x :: !before(x, x))
    && (forall x, y, z :: before(x, y) && before(y, z) ==> before(x, z))
    && (forall x, y :: x in xs && y in xs && x != y ==> before(x, y) || before(y, x))
  }

  ghost predicate InOrder<T>(before: (T, T) -> bool, xs: seq<T>) {
    forall i, j :: 0 <= i < j < |xs| ==> before(xs[i], xs[j])
  }

  lemma {:induction false} First<T(!new)>(before: (T, T) -> bool, xs: set<T>) returns (first: T)
    requires xs != {} && Orders(before, xs)
    ensures first in xs && forall x :: x in xs && x != first ==> before(first, x)
  {
    var x :| x in xs;
    var rest := xs - {x};
    if rest == {} {
      assert xs == {x};
      first := x;
    } else {
      var least := First(before, rest);
      first := if before(least, x) then least else x;
    }
  }

  lemma {:induction false} Arrange<T(!new)>(before: (T, T) -> bool, xs: set<T>) returns (out: seq<T>)
    requires Orders(before, xs)
    ensures InOrder(before, out) && NoRepeats(out) && forall x :: x in out <==> x in xs
    decreases |xs|
  {
    if xs == {} {
      out := [];
    } else {
      var first := First(before, xs);
      var rest := Arrange(before, xs - {first});
      Prepend(before, first, rest);
      out := [first] + rest;
    }
  }

  lemma Prepend<T>(before: (T, T) -> bool, first: T, rest: seq<T>)
    requires InOrder(before, rest) && NoRepeats(rest) && first !in rest
    requires forall x :: x in rest ==> before(first, x)
    ensures InOrder(before, [first] + rest) && NoRepeats([first] + rest)
    ensures forall x :: x in [first] + rest <==> x == first || x in rest
  {
    var out := [first] + rest;
    forall j | 1 <= j < |out|
      ensures out[j] == rest[j - 1] && out[j] in rest
    {
    }
  }

  lemma {:induction false} ArrangementIsUnique<T(!new)>(before: (T, T) -> bool, xs: seq<T>, ys: seq<T>)
    requires NoRepeats(xs) && NoRepeats(ys) && forall x :: x in xs <==> x in ys
    requires InOrder(before, xs) && InOrder(before, ys)
    requires (forall x :: !before(x, x)) && forall x, y, z :: before(x, y) && before(y, z) ==> before(x, z)
    ensures xs == ys
  {
    SameElementsPermute(xs, ys);
    assert |xs| == |multiset(xs)| == |multiset(ys)| == |ys|;
    if xs != [] {
      SameHead(before, xs, ys);
      TailOf(xs);
      TailOf(ys);
      ArrangementIsUnique(before, xs[1..], ys[1..]);
    }
  }

  lemma SameHead<T(!new)>(before: (T, T) -> bool, xs: seq<T>, ys: seq<T>)
    requires xs != [] && ys != [] && InOrder(before, xs) && InOrder(before, ys)
    requires forall x :: x in xs <==> x in ys
    requires (forall x :: !before(x, x)) && forall x, y, z :: before(x, y) && before(y, z) ==> before(x, z)
    ensures xs[0] == ys[0]
  {
    assert xs[0] in xs && ys[0] in ys;
    HeadIsFirst(before, xs, ys[0]);
    HeadIsFirst(before, ys, xs[0]);
  }

  lemma HeadIsFirst<T>(before: (T, T) -> bool, xs: seq<T>, x: T)
    requires x in xs && InOrder(before, xs)
    ensures x == xs[0] || before(xs[0], x)
  {
    var i :| 0 <= i < |xs| && xs[i] == x;
  }

  lemma TailOf<T>(xs: seq<T>)
    requires xs != [] && NoRepeats(xs)
    ensures NoRepeats(xs[1..]) && xs == [xs[0]] + xs[1..]
    ensures forall x :: x in xs[1..] <==> x in xs && x != xs[0]
  {
    forall x
      ensures x in xs[1..] <==> x in xs && x != xs[0]
    {
      if x in xs && x != xs[0] {
        var i :| 0 <= i < |xs| && xs[i] == x;
        assert xs[1..][i - 1] == x;
      }
    }
  }
}
