/**
 Moving finished uploads into the destination directory: a hard link that fails if the name is taken, tried
 under numbered names until one is free.
 */
module Finalize {
  import opened Wrappers
  import opened Text

  const U32_RANGE := 0x1_0000_0000

  // ---- File names ----

  // The last component of a path, if it is a plain name.
  function LastName(pieces: seq<string>): Option<string> {
    if pieces == [] then None
    else
      var last := pieces[|pieces| - 1];
      if last == "" || last == "." then LastName(pieces[..|pieces| - 1])
      else if last == ".." then None
      else Some(last)
  }

  function FileName(path: string): Option<string> {
    LastName(Split(path, '/'))
  }

  function SafeName(requested: string): string {
    match FileName(requested)
    case Some(name) => name
    case None => "file"
  }

  // Position of the last dot, or -1.
  function LastDot(s: string): (k: int)
    ensures -1 <= k < |s|
    ensures k >= 0 ==> s[k] == '.'
    ensures forall i :: k < i < |s| ==> s[i] != '.'
  {
    if s == [] then -1
    else if s[|s| - 1] == '.' then |s| - 1
    else LastDot(s[..|s| - 1])
  }

  // A leading dot alone makes no extension.
  function Stem(name: string): string {
    if LastDot(name) <= 0 then name else name[..LastDot(name)]
  }

  function Extension(name: string): string {
    if LastDot(name) <= 0 then "" else name[LastDot(name)..]
  }

  function NumberedName(requested: string, index: nat): string {
    var safe := SafeName(requested);
    if index == 0 then safe
    else Stem(safe) + " (" + Decimal(index) + ")" + Extension(safe)
  }

  lemma StemAndExtension(name: string)
    ensures Stem(name) + Extension(name) == name
  {
  }

  lemma {:induction false} LastNameIsPlain(pieces: seq<string>)
    requires forall i :: 0 <= i < |pieces| ==> '/' !in pieces[i]
    ensures LastName(pieces).Some? ==> IsPlainName(LastName(pieces).value)
  {
    if pieces != [] {
      LastNameIsPlain(pieces[..|pieces| - 1]);
    }
  }

  // Whatever name the sender asks for, the file lands directly in the destination directory.
  lemma NumberedNameStaysInDirectory(requested: string, index: nat)
    ensures IsPlainName(NumberedName(requested, index))
  {
    LastNameIsPlain(Split(requested, '/'));
    var safe := SafeName(requested);
    assert IsPlainName(safe);
    StemAndExtension(safe);
    var name := NumberedName(requested, index);
    if index > 0 {
      assert |name| >= |safe| + 4 && |safe| >= 1;
      assert forall c :: c in Stem(safe) || c in Extension(safe) ==> c in safe;
    }
  }

  lemma NumberedNameInjective(requested: string, i: nat, j: nat)
    requires NumberedName(requested, i) == NumberedName(requested, j)
    ensures i == j
  {
    var safe := SafeName(requested);
    StemAndExtension(safe);
    if i > 0 && j > 0 {
      Reassociate(Stem(safe), " (", Decimal(i), ")", Extension(safe));
      Reassociate(Stem(safe), " (", Decimal(j), ")", Extension(safe));
      SameMiddle(Stem(safe) + " (", Decimal(i), Decimal(j), ")" + Extension(safe));
      DecimalInjective(i, j);
    }
  }

  lemma Reassociate(a: string, b: string, c: string, d: string, e: string)
    ensures a + b + c + d + e == (a + b) + c + (d + e)
  {
  }

  lemma SameMiddle(a: string, x: string, y: string, b: string)
    requires a + x + b == a + y + b
    ensures x == y
  {
    var s, t := a + x + b, a + y + b;
    assert |x| == |y|;
    assert x == s[|a|..|a| + |x|] && y == t[|a|..|a| + |y|];
  }

  // The candidates for one requested name, in order.
  function Numbered(requested: string): nat -> string {
    (index: nat) => NumberedName(requested, index)
  }

  ghost predicate Injective(name: nat -> string) {
    forall i, j :: name(i) == name(j) ==> i == j
  }

  lemma NumberedIsInjective(requested: string)
    ensures Injective(Numbered(requested))
  {
    forall i: nat, j: nat | Numbered(requested)(i) == Numbered(requested)(j)
      ensures i == j
    {
      NumberedNameInjective(requested, i, j);
    }
  }

  ghost function NamesBelow(name: nat -> string, n: nat): set<string> {
    set i: nat | i < n :: name(i)
  }

  lemma {:induction false} NamesBelowSize(name: nat -> string, n: nat)
    requires Injective(name)
    ensures |NamesBelow(name, n)| == n
  {
    if n > 0 {
      NamesBelowSize(name, n - 1);
      assert NamesBelow(name, n) == NamesBelow(name, n - 1) + {name(n - 1)};
    }
  }

  // Pigeonhole: if the first n candidates are all taken, at least n names are.
  lemma TakenBound(name: nat -> string, n: nat, names: set<string>)
    requires Injective(name) && forall i: nat :: i < n ==> name(i) in names
    ensures n <= |names|
  {
    NamesBelowSize(name, n);
    SubsetSize(NamesBelow(name, n), names);
  }

  lemma TakenNamesBound(requested: string, n: nat, names: set<string>)
    requires forall i :: 0 <= i < n ==> NumberedName(requested, i) in names
    ensures n <= |names|
  {
    NumberedIsInjective(requested);
    TakenBound(Numbered(requested), n, names);
  }

  // ---- One finalizer on its own ----

  type Content = int

  ghost predicate FirstFree(names: set<string>, name: nat -> string, index: nat) {
    name(index) !in names && forall i: nat :: i < index ==> name(i) in names
  }

  class Directory {
    var entries: map<string, Content>

    constructor (entries: map<string, Content>)
      ensures this.entries == entries
    {
      this.entries := entries;
    }

    // `fault` is the attempt, if any, that fails for another reason than a taken name; `stuck` says that the
    // temporary file cannot be unlinked afterwards.
    method FinalizeUpload(temporary: string, requested: string, fault: Option<nat>, stuck: bool)
      returns (result: Option<string>, ghost index: nat)
      requires temporary in entries
      modifies this
      ensures FirstFree(old(entries).Keys, Numbered(requested), index)
      ensures index <= |old(entries)|
      ensures |old(entries)| < U32_RANGE ==> index < U32_RANGE
      ensures fault.Some? && fault.value <= index ==> result == None && entries == old(entries)
      ensures !(fault.Some? && fault.value <= index) ==>
                var name := NumberedName(requested, index);
                && name != temporary
                && result == (if stuck then None else Some(name))
                && entries == (if stuck then old(entries)[name := old(entries)[temporary]]
                               else old(entries)[name := old(entries)[temporary]] - {temporary})
    {
      NumberedIsInjective(requested);
      result, index := LinkFirstFree(temporary, Numbered(requested), fault, stuck);
    }

    // The search over any candidates that never repeat.
    method LinkFirstFree(temporary: string, name: nat -> string, fault: Option<nat>, stuck: bool)
      returns (result: Option<string>, ghost index: nat)
      requires temporary in entries && Injective(name)
      modifies this
      ensures FirstFree(old(entries).Keys, name, index) && index <= |old(entries)|
      ensures if fault.Some? && fault.value <= index then result == None && entries == old(entries)
              else
                && result == (if stuck then None else Some(name(index)))
                && entries == (if stuck then old(entries)[name(index) := old(entries)[temporary]]
                               else old(entries)[name(index) := old(entries)[temporary]] - {temporary})
    {
      var i := 0;
      ghost var names := entries.Keys;
      while fault != Some(i) && name(i) in entries
        invariant entries == old(entries) && i <= |names|
        invariant forall k: nat :: k < i ==> name(k) in names
        invariant fault.Some? ==> fault.value >= i
        decreases |names| + 1 - i
      {
        TakenBound(name, i + 1, names);
        i := i + 1;
      }
      index := FindFree(name, i, names);
      if fault == Some(i) {
        return None, index;
      }
      entries := entries[name(i) := entries[temporary]];
      if stuck {
        return None, index;
      }
      entries := entries - {temporary};
      return Some(name(i)), index;
    }
  }

  // Some candidate is free.
  ghost method FindFree(name: nat -> string, from: nat, names: set<string>) returns (index: nat)
    requires Injective(name) && forall i: nat :: i < from ==> name(i) in names
    ensures from <= index <= |names| && FirstFree(names, name, index)
    ensures name(from) !in names ==> index == from
  {
    index := from;
    TakenBound(name, from, names);
    while name(index) in names
      invariant from <= index <= |names|
      invariant forall i: nat :: i < index ==> name(i) in names
      invariant name(from) !in names ==> index == from
      decreases |names| - index
    {
      TakenBound(name, index + 1, names);
      index := index + 1;
    }
  }
}
