/** What becomes of "." pieces in a save directory, and of white space at its end. */
module SavePathDots {
  import opened Wrappers
  import opened Text
  import opened SavePaths

  // ---- Dots ----

  // The pieces but for single dots.
  function NoDots(pieces: seq<string>): seq<string> {
    if pieces == [] then []
    else
      var rest := NoDots(pieces[1..]);
      if pieces[0] == "." then rest else [pieces[0]] + rest
  }

  function WithoutDots(text: string): string {
    Join(NoDots(Split(text, '/')), '/')
  }

  lemma {:induction false} NoDotsKeeps(pieces: seq<string>)
    ensures forall p :: p in NoDots(pieces) <==> p in pieces && p != "."
    ensures Named(NoDots(pieces)) == Named(pieces)
    ensures pieces != [] && pieces[0] != "." ==> NoDots(pieces) != [] && NoDots(pieces)[0] == pieces[0]
  {
    if pieces != [] {
      NoDotsKeeps(pieces[1..]);
      assert pieces == [pieces[0]] + pieces[1..];
      if pieces[0] != "." {
        assert ([pieces[0]] + NoDots(pieces[1..]))[1..] == NoDots(pieces[1..]);
      }
    }
  }

  lemma {:induction false} NoDotsIsShorter(pieces: seq<string>)
    ensures ByteLength(Join(NoDots(pieces), '/')) <= ByteLength(Join(pieces, '/'))
    ensures forall c :: c in Join(NoDots(pieces), '/') ==> c in Join(pieces, '/')
  {
    if pieces != [] {
      var first, rest := pieces[0], pieces[1..];
      NoDotsIsShorter(rest);
      JoinFirst(first, rest);
      assert pieces == [first] + rest;
      if first != "." {
        JoinFirst(first, NoDots(rest));
        NoDotsNeedPieces(rest);
      }
    }
  }

  lemma NoDotsNeedPieces(pieces: seq<string>)
    ensures pieces == [] ==> NoDots(pieces) == []
  {
  }

  lemma WithoutDotsSplits(text: string)
    requires Split(text, '/')[0] != "."
    ensures Split(WithoutDots(text), '/') == NoDots(Split(text, '/'))
    ensures ByteLength(WithoutDots(text)) <= ByteLength(text) && forall c :: c in WithoutDots(text) ==> c in text
  {
    var pieces := Split(text, '/');
    NoDotsKeeps(pieces);
    forall i | 0 <= i < |NoDots(pieces)|
      ensures '/' !in NoDots(pieces)[i]
    {
      assert NoDots(pieces)[i] in NoDots(pieces);
    }
    SplitJoin(NoDots(pieces), '/');
    NoDotsIsShorter(pieces);
    JoinSplit(text, '/');
  }

  // What a text begins with shows in its first piece.
  lemma StartsAlike(text: string, other: string)
    requires Split(text, '/')[0] == Split(other, '/')[0] && text != "" && text[0] != '/'
    ensures other != "" && other[0] == text[0]
  {
    SplitChars(text, '/');
    SplitChars(other, '/');
  }

  // A text that may be a path and has no ".." is refused exactly when its first piece is ".". Otherwise it parses
  // to the same names as the text without its "." pieces.
  lemma DotsAreDropped(text: string)
    requires !HasControl(text) && ByteLength(text) <= MAX_PATH_BYTES && (text != "" ==> text[0] != '/')
    requires ".." !in Split(text, '/')
    ensures Components(text).Err? <==> Split(text, '/')[0] == "."
    ensures Components(text).Err? ==> Components(text) == Err(Dots)
    ensures Components(text).Ok? ==> Components(text) == Components(WithoutDots(text))
  {
    var pieces, other := Split(text, '/'), WithoutDots(text);
    if pieces[0] != "." {
      NoDotsKeeps(pieces);
      WithoutDotsSplits(text);
      if text == "" {
        assert NoDots([""]) == [""];
      } else {
        StartsAlike(text, other);
      }
      forall i | 0 <= i < |other|
        ensures !IsControl(other[i])
      {
        assert other[i] in text;
      }
    }
  }

  // ---- White space at the end ----

  lemma {:induction false} TrimEndDropsSpace(s: string)
    ensures forall i :: |TrimEnd(s)| <= i < |s| ==> IsWhitespace(s[i])
  {
    if s != [] && IsWhitespace(s[|s| - 1]) {
      TrimEndDropsSpace(s[..|s| - 1]);
    }
  }

  // The pieces with more text at the end of the last one.
  function ExtendLast(pieces: seq<string>, w: string): seq<string>
    requires pieces != []
  {
    pieces[..|pieces| - 1] + [pieces[|pieces| - 1] + w]
  }

  lemma ExtendAfter(x: string, rest: seq<string>, w: string)
    requires rest != []
    ensures ExtendLast([x] + rest, w) == [x] + ExtendLast(rest, w)
  {
  }

  lemma ExtendPrefixed(x: string, rest: seq<string>, w: string)
    requires rest != []
    ensures ExtendLast([x + rest[0]] + rest[1..], w) == [x + ExtendLast(rest, w)[0]] + ExtendLast(rest, w)[1..]
  {
    if |rest| == 1 {
      assert x + rest[0] + w == x + (rest[0] + w);
    }
  }

  lemma {:induction false} SplitTail(s: string, w: string, c: char)
    requires c !in w
    ensures Split(s + w, c) == ExtendLast(Split(s, c), w)
  {
    if s == [] {
      SplitPlain(w, c);
      assert [] + w == w;
    } else {
      SplitTail(s[1..], w, c);
      assert (s + w)[1..] == s[1..] + w;
      if s[0] == c {
        ExtendAfter([], Split(s[1..], c), w);
      } else {
        ExtendPrefixed([s[0]], Split(s[1..], c), w);
      }
    }
  }

  lemma {:induction false} NamedSnoc(pieces: seq<string>, p: string)
    ensures Named(pieces + [p]) == if p == "" || p == "." then Named(pieces) else Named(pieces) + [p]
  {
    if pieces != [] {
      NamedSnoc(pieces[1..], p);
      assert (pieces + [p])[1..] == pieces[1..] + [p];
    }
  }

  lemma LongerLastPiece(front: seq<string>, p: string, q: string)
    requires |p| < |q| && IsWhitespace(LastChar(q))
    ensures Named(front + [q]) != Named(front + [p])
  {
    NamedSnoc(front, p);
    NamedSnoc(front, q);
    assert Named(front + [q])[|Named(front)|] == q;
  }

  // White space at the end belongs to the last name.
  lemma LastNameDiffers(s: string, w: string, whole: string)
    requires whole == s + w && w != "" && IsWhitespace(LastChar(w)) && '/' !in w
    ensures Named(Split(whole, '/')) != Named(Split(s, '/'))
  {
    SplitTail(s, w, '/');
    ExtendedDiffers(Split(s, '/'), w);
  }

  lemma ExtendedDiffers(pieces: seq<string>, w: string)
    requires pieces != [] && w != "" && IsWhitespace(LastChar(w))
    ensures Named(ExtendLast(pieces, w)) != Named(pieces)
  {
    var front, p := pieces[..|pieces| - 1], pieces[|pieces| - 1];
    assert front + [p] == pieces;
    LongerLastPiece(front, p, p + w);
  }

  lemma TrimTail(other: string) returns (w: string)
    requires other != "" && !IsWhitespace(other[0]) && IsWhitespace(LastChar(other))
    ensures other == Trim(other) + w && w != "" && IsWhitespace(LastChar(w)) && '/' !in w
  {
    StartStays(other);
    TrimEndDropsSpace(other);
    var n := |TrimEnd(other)|;
    w := other[n..];
    assert other == other[..n] + w;
    SpaceIsNoSlash(w);
  }

  lemma StartStays(s: string)
    requires s != "" && !IsWhitespace(s[0])
    ensures Trim(s) == TrimEnd(s)
  {
  }

  lemma SpaceIsNoSlash(w: string)
    requires forall i :: 0 <= i < |w| ==> IsWhitespace(w[i])
    ensures '/' !in w
  {
  }

  lemma NamesDecide(s: string, other: string)
    requires Components(other).Ok? && Named(Split(s, '/')) != Named(Split(other, '/'))
    ensures Components(s) != Components(other)
  {
  }

  // Typed again without its "." pieces, a path keeps its names, exactly when dropping them leaves no white space at
  // the end.
  lemma TypedWithoutDots(value: string)
    requires NormalizeRelative(value).Ok?
    ensures var other := WithoutDots(Slashes(Trim(value)));
            NormalizeRelative(other) == NormalizeRelative(value) <==> other == "" || !IsWhitespace(LastChar(other))
  {
    var text := Slashes(Trim(value));
    var other := WithoutDots(text);
    DotsAreDropped(text);
    WithoutDotsSplits(text);
    NoDotsKeeps(Split(text, '/'));
    if other != "" {
      TypedStart(text, other);
      EndDecides(other);
    } else {
      assert Slashes(Trim(other)) == other;
    }
  }

  lemma TypedStart(text: string, other: string)
    requires other != "" && Split(text, '/')[0] == Split(other, '/')[0]
    requires text == "" || (text[0] != '/' && !IsWhitespace(text[0]))
    ensures !IsWhitespace(other[0])
  {
    SplitChars(text, '/');
    SplitChars(other, '/');
  }

  // A text without backslashes that starts plainly is read as it is exactly when it ends plainly.
  lemma EndDecides(other: string)
    requires other != "" && !IsWhitespace(other[0]) && '\\' !in other && Components(other).Ok?
    ensures NormalizeRelative(other) == Components(other) <==> !IsWhitespace(LastChar(other))
  {
    if IsWhitespace(LastChar(other)) {
      var w := TrimTail(other);
      LastNameDiffers(Trim(other), w, other);
      NoBackslash(Trim(other));
      NamesDecide(Trim(other), other);
    } else {
      TrimIsIdentity(other);
      NoBackslash(other);
    }
  }

  lemma NoBackslash(s: string)
    requires '\\' !in s
    ensures Slashes(s) == s
  {
  }

  lemma CleanText(s: string)
    requires forall c :: c in s ==> c != '\\' && !IsControl(c)
    ensures Slashes(s) == s && !HasControl(s)
  {
    forall i | 0 <= i < |s|
      ensures s[i] != '\\' && !IsControl(s[i])
    {
      assert s[i] in s;
    }
  }

  lemma DotPieces(a: string, b: string, text: string)
    requires '/' !in a && '/' !in b && text == a + ['/'] + (['.'] + ['/'] + b)
    ensures Split(text, '/') == [a, ['.'], b]
  {
    SplitPlain(b, '/');
    SplitFirst(['.'], '/', b);
    SplitFirst(a, '/', ['.'] + ['/'] + b);
    assert [a] + ([['.']] + [b]) == [a, ['.'], b];
  }

  lemma DotText(a: string, b: string, text: string)
    requires IsPlain(a) && IsPlain(b) && !IsWhitespace(a[0]) && !IsWhitespace(LastChar(b))
    requires text == a + ['/'] + (['.'] + ['/'] + b) && ByteLength(a) + ByteLength(b) <= MAX_PATH_BYTES - 3
    ensures text[0] == a[0] && Slashes(Trim(text)) == text && !HasControl(text) && ByteLength(text) <= MAX_PATH_BYTES
  {
    DotChars(a, b, text);
    DotBytes(a, b);
    TrimIsIdentity(text);
  }

  lemma DotChars(a: string, b: string, text: string)
    requires IsPlain(a) && IsPlain(b) && text == a + ['/'] + (['.'] + ['/'] + b)
    ensures text != "" && text[0] == a[0] && LastChar(text) == LastChar(b) && Slashes(text) == text && !HasControl(text)
  {
    NoControlIn(a);
    NoControlIn(b);
    DotMembers(a, b, text);
    CleanText(text);
  }

  lemma DotMembers(a: string, b: string, text: string)
    requires text == a + ['/'] + (['.'] + ['/'] + b)
    ensures forall c :: c in text ==> c in a || c in b || c == '/' || c == '.'
  {
  }

  lemma DotBytes(a: string, b: string)
    ensures ByteLength(a + ['/'] + (['.'] + ['/'] + b)) == ByteLength(a) + ByteLength(b) + 3
  {
    ByteLengthConcat(a + ['/'], ['.'] + ['/'] + b);
    ByteLengthConcat(a, ['/']);
    ByteLengthConcat(['.'] + ['/'], b);
    ByteLengthConcat(['.'], ['/']);
    assert ['/'][1..] == [] && ['.'][1..] == [];
  }

  lemma NoControlIn(s: string)
    requires !HasControl(s)
    ensures forall c :: c in s ==> !IsControl(c)
  {
  }

  // A "." between two names is accepted and dropped.
  lemma DotInside(a: string, b: string, text: string)
    requires IsPlain(a) && IsPlain(b) && !IsWhitespace(a[0]) && !IsWhitespace(LastChar(b))
    requires text == a + ['/'] + (['.'] + ['/'] + b) && ByteLength(a) + ByteLength(b) <= MAX_PATH_BYTES - 3
    ensures NormalizeRelative(text) == Ok([a, b])
  {
    DotText(a, b, text);
    DotPieces(a, b, text);
    NamedOfThree(a, b);
    PlainComponents(text, [a, b]);
  }

  lemma NamedOfThree(a: string, b: string)
    requires a != "" && a != "." && b != "" && b != "."
    ensures Named([a, ['.'], b]) == [a, b]
  {
    NamedCons(b, []);
    NamedCons(['.'], [b]);
    NamedCons(a, [['.'], b]);
    assert [a] + [['.'], b] == [a, ['.'], b] && [['.']] + [b] == [['.'], b] && [b] + [] == [b];
  }

  lemma NamedCons(p: string, rest: seq<string>)
    ensures Named([p] + rest) == if p == "" || p == "." then Named(rest) else [p] + Named(rest)
  {
    assert ([p] + rest)[1..] == rest;
  }

  // "a/./b" is such a path.
  lemma ADotIsAccepted()
    ensures NormalizeRelative(['a', '/', '.', '/', 'b']) == Ok([['a'], ['b']])
  {
    var a, b := ['a'], ['b'];
    assert a[1..] == [] && b[1..] == [];
    assert ['a', '/', '.', '/', 'b'] == a + ['/'] + (['.'] + ['/'] + b);
    DotInside(a, b, ['a', '/', '.', '/', 'b']);
  }
}
