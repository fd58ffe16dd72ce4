/** Small facts about sequences and their multisets. */
module Seqs {
  lemma HasMember<T>(xs: seq<T>)
    requires xs != []
    ensures exists z :: z in xs
  {
    assert xs[0] in xs;
  }

  lemma RepeatCounts<T>(s: seq<T>, i: nat, j: nat)
    requires i < j < |s| && s[i] == s[j]
    ensures multiset(s)[s[i]] >= 2
  {
    assert s == s[..i] + [s[i]] + s[i + 1..j] + [s[j]] + s[j + 1..];
  }

  lemma CountsOnce<T>(xs: seq<T>, p: nat)
    requires p < |xs| && forall q :: 0 <= q < |xs| && q != p ==> xs[q] != xs[p]
    ensures multiset(xs)[xs[p]] == 1
  {
    assert xs == xs[..p] + [xs[p]] + xs[p + 1..];
    assert xs[p] !in xs[..p] && xs[p] !in xs[p + 1..];
  }

  ghost predicate NoRepeats<T>(xs: seq<T>) {
    forall i, j :: 0 <= i < j < |xs| ==> xs[i] != xs[j]
  }

  lemma CountIsOne<T>(xs: seq<T>, z: T)
    requires NoRepeats(xs)
    ensures multiset(xs)[z] == if z in xs then 1 else 0
  {
    if z in xs {
      var p :| 0 <= p < |xs| && xs[p] == z;
      CountsOnce(xs, p);
    }
  }

  // Sequences without repeats and with the same elements are permutations of each other.
  lemma SameElementsPermute<T>(xs: seq<T>, ys: seq<T>)
    requires NoRepeats(xs) && NoRepeats(ys) && forall z :: z in xs <==> z in ys
    ensures multiset(xs) == multiset(ys)
  {
    forall z
      ensures multiset(xs)[z] == multiset(ys)[z]
    {
      CountIsOne(xs, z);
      CountIsOne(ys, z);
    }
  }
}
