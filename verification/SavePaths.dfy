/** Save directories: parsing a relative path, walking it without following links, and creating a directory. */
module SavePaths {
  import opened Wrappers
  import opened Text

  const MAX_PATH_BYTES := 1024
  const MAX_NAME_CHARS := 128

  datatype PathError = Invalid | Absolute | Dots | Missing | NotRealDirectory | BadName | NotCreated

  // ---- Parsing ----

  function Slashes(s: string): (t: string)
    ensures |t| == |s| && forall i :: 0 <= i < |s| ==> t[i] == if s[i] == '\\' then '/' else s[i]
  {
    seq(|s|, i requires 0 <= i < |s| => if s[i] == '\\' then '/' else s[i])
  }

  predicate HasControl(s: string) {
    exists i :: 0 <= i < |s| && IsControl(s[i])
  }

  // The pieces between slashes that name something: empty ones and single dots are dropped.
  function Named(pieces: seq<string>): seq<string> {
    if pieces == [] then []
    else
      var rest := Named(pieces[1..]);
      if pieces[0] == "" || pieces[0] == "." then rest else [pieces[0]] + rest
  }

  function NormalizeRelative(value: string): Result<seq<string>, PathError> {
    Components(Slashes(Trim(value)))
  }

  // A dot is dropped except at the very start.
  function Components(text: string): Result<seq<string>, PathError> {
    var pieces := Split(text, '/');
    if HasControl(text) || ByteLength(text) > MAX_PATH_BYTES then Err(Invalid)
    else if text != "" && text[0] == '/' then Err(Absolute)
    else if pieces[0] == "." || ".." in pieces then Err(Dots)
    else Ok(Named(pieces))
  }

  function RelativeToString(names: seq<string>): string {
    Join(names, '/')
  }

  function ValidateDirectoryName(value: string): Result<string, PathError> {
    var name := Trim(value);
    if name == "" || HasControl(name) || |name| > MAX_NAME_CHARS || '/' in name || '\\' in name
       || name == "." || name == ".."
    then Err(BadName) else Ok(name)
  }

  // A component that survives being printed and parsed again.
  predicate IsPlain(name: string) {
    IsPlainName(name) && '\\' !in name && !HasControl(name)
  }

  predicate AllPlain(names: seq<string>) {
    forall i :: 0 <= i < |names| ==> IsPlain(names[i])
  }

  predicate StartsPlain(names: seq<string>) {
    names != [] ==> names[0] != "" && !IsWhitespace(names[0][0])
  }

  function LastChar(s: string): char
    requires s != ""
  {
    s[|s| - 1]
  }

  predicate EndsPlain(names: seq<string>) {
    names != [] ==> names[|names| - 1] != "" && !IsWhitespace(LastChar(names[|names| - 1]))
  }

  lemma {:induction false} NamedPieces(pieces: seq<string>)
    ensures forall p :: p in Named(pieces) <==> p in pieces && p != "" && p != "."
    ensures pieces != [] && pieces[0] != "" && pieces[0] != "." ==> Named(pieces) != [] && Named(pieces)[0] == pieces[0]
    ensures (forall p :: p in pieces ==> p != "" && p != ".") ==> Named(pieces) == pieces
  {
    if pieces != [] {
      NamedPieces(pieces[1..]);
      assert pieces == [pieces[0]] + pieces[1..];
      assert forall p :: p in pieces[1..] ==> p in pieces;
      assert pieces[0] in pieces;
    }
  }

  // Pieces hold no characters but those of the text.
  lemma {:induction false} SplitChars(s: string, c: char)
    ensures forall i, k :: 0 <= i < |Split(s, c)| && 0 <= k < |Split(s, c)[i]| ==> Split(s, c)[i][k] in s
    ensures s != "" && s[0] != c ==> Split(s, c)[0] != "" && Split(s, c)[0][0] == s[0]
    ensures s == "" || s[0] == c ==> Split(s, c)[0] == ""
  {
    if s != "" {
      SplitChars(s[1..], c);
      assert forall x :: x in s[1..] ==> x in s;
    }
  }

  // Dropping pieces only makes the text shorter.
  lemma {:induction false} NamedIsShorter(pieces: seq<string>)
    ensures |Join(Named(pieces), '/')| <= |Join(pieces, '/')|
    ensures ByteLength(Join(Named(pieces), '/')) <= ByteLength(Join(pieces, '/'))
  {
    if pieces != [] {
      var first, rest := pieces[0], pieces[1..];
      NamedIsShorter(rest);
      JoinFirst(first, rest);
      assert pieces == [first] + rest;
      if first != "" && first != "." {
        JoinFirst(first, Named(rest));
        NamedNeedsPieces(rest);
      }
    }
  }

  lemma NamedNeedsPieces(pieces: seq<string>)
    ensures pieces == [] ==> Named(pieces) == []
  {
  }

  lemma JoinFirst(first: string, rest: seq<string>)
    ensures Join([first] + rest, '/') == if rest == [] then first else first + "/" + Join(rest, '/')
    ensures ByteLength(Join([first] + rest, '/')) ==
            if rest == [] then ByteLength(first) else ByteLength(first) + 1 + ByteLength(Join(rest, '/'))
  {
    JoinCons(first, rest, '/');
    if rest != [] {
      ByteLengthConcat(first + "/", Join(rest, '/'));
      ByteLengthConcat(first, "/");
    }
  }

  // What parsing yields can be printed: plain components, the first one not starting with white space, and
  // no longer than what was typed.
  lemma NormalizedIsPlain(value: string)
    requires NormalizeRelative(value).Ok?
    ensures var names := NormalizeRelative(value).value;
            && AllPlain(names) && StartsPlain(names)
            && ByteLength(RelativeToString(names)) <= MAX_PATH_BYTES
            && |RelativeToString(names)| <= |Trim(value)|
  {
    var text := Slashes(Trim(value));
    PiecesArePlain(text);
    FirstPiece(text);
    JoinSplit(text, '/');
    NamedIsShorter(Split(text, '/'));
  }

  lemma PiecesArePlain(text: string)
    requires '\\' !in text && !HasControl(text) && ".." !in Split(text, '/')
    ensures AllPlain(Named(Split(text, '/')))
  {
    var pieces := Split(text, '/');
    NamedPieces(pieces);
    SplitChars(text, '/');
    forall j | 0 <= j < |Named(pieces)|
      ensures IsPlain(Named(pieces)[j])
    {
      var n := Named(pieces)[j];
      assert n in Named(pieces);
      var i :| 0 <= i < |pieces| && pieces[i] == n;
      assert forall k :: 0 <= k < |n| ==> pieces[i][k] in text;
    }
  }

  lemma FirstPiece(text: string)
    requires text != "" ==> text[0] != '/' && !IsWhitespace(text[0])
    requires Split(text, '/')[0] != "."
    ensures StartsPlain(Named(Split(text, '/')))
  {
    var pieces := Split(text, '/');
    NamedPieces(pieces);
    SplitChars(text, '/');
    if text == "" {
      assert pieces == [""] && Named(pieces[1..]) == [];
    }
  }

  // Printed plain components parse back to themselves, exactly when the text keeps its ends and is not too long.
  lemma PrintedParses(names: seq<string>)
    requires AllPlain(names) && StartsPlain(names) && EndsPlain(names)
    ensures NormalizeRelative(RelativeToString(names)) ==
            if ByteLength(RelativeToString(names)) <= MAX_PATH_BYTES then Ok(names) else Err(Invalid)
  {
    PrintedIsTrimmed(names);
    PrintedSplits(names);
    PlainComponents(RelativeToString(names), names);
  }

  // A text that trimming and slashes leave alone is judged by its pieces.
  lemma PlainComponents(text: string, names: seq<string>)
    requires Slashes(Trim(text)) == text && !HasControl(text) && (text != "" ==> text[0] != '/')
    requires Named(Split(text, '/')) == names && Split(text, '/')[0] != "." && ".." !in Split(text, '/')
    ensures NormalizeRelative(text) == if ByteLength(text) <= MAX_PATH_BYTES then Ok(names) else Err(Invalid)
  {
  }

  lemma PrintedIsTrimmed(names: seq<string>)
    requires AllPlain(names) && StartsPlain(names) && EndsPlain(names)
    ensures var text := RelativeToString(names);
            Slashes(Trim(text)) == text && !HasControl(text) && (text != "" ==> text[0] != '/')
  {
    var text := RelativeToString(names);
    if names != [] {
      JoinedText(names);
    }
    TrimIsIdentity(text);
    assert Slashes(text) == text;
  }

  lemma PrintedSplits(names: seq<string>)
    requires AllPlain(names)
    ensures var pieces := Split(RelativeToString(names), '/');
            Named(pieces) == names && pieces[0] != "." && ".." !in pieces
  {
    if names == [] {
      assert Split([], '/') == [[]];
    } else {
      SplitJoin(names, '/');
      NamedPieces(names);
    }
  }

  lemma {:induction false} JoinedText(names: seq<string>)
    requires names != [] && AllPlain(names)
    ensures names[0] != "" && names[|names| - 1] != ""
    ensures var text := RelativeToString(names);
            && text != "" && text[0] == names[0][0] && LastChar(text) == LastChar(names[|names| - 1])
            && '\\' !in text && !HasControl(text)
  {
    assert IsPlain(names[0]) && IsPlain(names[|names| - 1]);
    if |names| > 1 {
      JoinedText(names[1..]);
      JoinFirst(names[0], names[1..]);
      assert names == [names[0]] + names[1..];
    }
  }

  // ---- The tree ----

  // Where a path leads when links are followed: to an entry beneath the root, or somewhere else.
  datatype Place = Inside(path: seq<string>) | Elsewhere

  datatype Kind = Directory | Plain | Link(target: Place)

  // Entries by their path beneath the root, which itself is a directory.
  type Tree = map<seq<string>, Kind>

  predicate IsDirectory(tree: Tree, path: seq<string>) {
    path == [] || (path in tree && tree[path] == Directory)
  }

  predicate AllDirectories(tree: Tree, names: seq<string>) {
    forall k :: 1 <= k <= |names| ==> IsDirectory(tree, names[..k])
  }

  // Some prefix is there, but is no real directory.
  ghost predicate Blocked(tree: Tree, names: seq<string>) {
    exists k :: 1 <= k <= |names| && names[..k] in tree && tree[names[..k]] != Directory
  }

  // What the operating system opens for a path.
  function Locate(tree: Tree, from: Place, names: seq<string>): Place
    decreases |names|
  {
    if names == [] || from.Elsewhere? then from
    else
      var path := from.path + [names[0]];
      var next := if path !in tree then Inside(path)
                  else match tree[path]
                       case Link(target) => target
                       case _ => Inside(path);
      Locate(tree, next, names[1..])
  }

  ghost predicate Resolves(tree: Tree, value: string, relative: string, path: seq<string>) {
    && NormalizeRelative(value) == Ok(path) && relative == RelativeToString(path)
    && AllDirectories(tree, path)
  }

  class SaveRoot {
    var tree: Tree

    constructor (tree: Tree)
      ensures this.tree == tree
    {
      this.tree := tree;
    }

    // Accepts exactly the paths all of whose prefixes are real directories.
    method ResolveSubdirectory(value: string) returns (r: Result<(string, seq<string>), PathError>)
      ensures r.Ok? <==> NormalizeRelative(value).Ok? && AllDirectories(tree, NormalizeRelative(value).value)
      ensures r.Ok? ==> Resolves(tree, value, r.value.0, r.value.1)
      ensures r == Err(NotRealDirectory) ==>
                NormalizeRelative(value).Ok? && Blocked(tree, NormalizeRelative(value).value)
    {
      var normalized := NormalizeRelative(value);
      if normalized.Err? {
        return Err(normalized.error);
      }
      var names := normalized.value;
      var current, failure := Walk(names);
      if failure.Some? {
        return Err(failure.value);
      }
      return Ok((RelativeToString(names), current));
    }

    // Steps into one component after the other, following no links.
    method Walk(names: seq<string>) returns (current: seq<string>, failure: Option<PathError>)
      ensures failure.None? <==> AllDirectories(tree, names)
      ensures failure.None? ==> current == names
      ensures failure == Some(NotRealDirectory) ==> Blocked(tree, names)
    {
      current := [];
      for i := 0 to |names|
        invariant current == names[..i]
        invariant forall k :: 1 <= k <= i ==> IsDirectory(tree, names[..k])
      {
        current := names[..i + 1];
        if current !in tree {
          return current, Some(Missing);
        }
        if tree[current] != Directory {
          return current, Some(NotRealDirectory);
        }
      }
      assert names[..|names|] == names;
      failure := None;
    }

    // Creates one directory beneath a real one; `works` is the disk's consent.
    method CreateSubdirectory(parent: string, name: string, works: bool)
      returns (r: Result<(string, seq<string>), PathError>)
      modifies this
      ensures r.Ok? <==>
                && NormalizeRelative(parent).Ok? && AllDirectories(old(tree), NormalizeRelative(parent).value)
                && ValidateDirectoryName(name).Ok? && works
                && NormalizeRelative(parent).value + [ValidateDirectoryName(name).value] !in old(tree)
      ensures r.Ok? ==>
                && r.value.1 == NormalizeRelative(parent).value + [ValidateDirectoryName(name).value]
                && r.value.0 == RelativeToString(r.value.1)
                && tree == old(tree)[r.value.1 := Directory]
      ensures r.Err? ==> tree == old(tree)
    {
      var resolved := ResolveSubdirectory(parent);
      if resolved.Err? {
        return Err(resolved.error);
      }
      var (parentRelative, parentPath) := resolved.value;
      var validated := ValidateDirectoryName(name);
      if validated.Err? {
        return Err(validated.error);
      }
      var path := parentPath + [validated.value];
      if path in tree || !works {
        return Err(NotCreated);
      }
      tree := tree[path := Directory];
      NormalizedIsPlain(parent);
      PrintedNames(parentPath, validated.value);
      return Ok((if parentRelative == "" then validated.value else parentRelative + "/" + validated.value, path));
    }
  }

  lemma {:induction false} PrintedNames(names: seq<string>, name: string)
    requires AllPlain(names)
    ensures RelativeToString(names + [name]) ==
            if RelativeToString(names) == "" then name else RelativeToString(names) + "/" + name
    ensures RelativeToString(names) == "" <==> names == []
  {
    if names == [] {
      assert names + [name] == [name];
    } else {
      JoinedText(names);
      PrintedMore(names, name);
    }
  }

  lemma {:induction false} PrintedMore(names: seq<string>, name: string)
    requires names != []
    ensures RelativeToString(names + [name]) == RelativeToString(names) + "/" + name
  {
    FirstApart(names, name);
    JoinFirst(names[0], names[1..]);
    JoinFirst(names[0], names[1..] + [name]);
    if |names| == 1 {
      assert names[1..] + [name] == [name];
    } else {
      PrintedMore(names[1..], name);
      Regroup(names[0] + "/", RelativeToString(names[1..]), "/", name);
    }
  }

  lemma Regroup(a: string, b: string, c: string, d: string)
    ensures a + (b + c + d) == a + b + c + d
  {
  }

  lemma FirstApart<T>(xs: seq<T>, x: T)
    requires xs != []
    ensures xs == [xs[0]] + xs[1..] && xs + [x] == [xs[0]] + (xs[1..] + [x])
  {
  }

  // ---- What the walk guarantees ----

  lemma {:induction false} LocateDirectories(tree: Tree, names: seq<string>, k: nat)
    requires AllDirectories(tree, names) && k <= |names|
    ensures Locate(tree, Inside(names[..k]), names[k..]) == Inside(names)
    decreases |names| - k
  {
    if k == |names| {
      assert names[..k] == names;
    } else {
      assert names[..k] + [names[k..][0]] == names[..k + 1];
      assert names[k..][1..] == names[k + 1..];
      assert IsDirectory(tree, names[..k + 1]);
      LocateDirectories(tree, names, k + 1);
    }
  }

  // Whatever was typed and whatever links the tree holds, a resolved path has only normal components and leads,
  // links followed, to the entry it spells beneath the root.
  lemma ResolvedStaysInside(tree: Tree, value: string, relative: string, path: seq<string>)
    requires Resolves(tree, value, relative, path)
    ensures AllPlain(path)
    ensures Locate(tree, Inside([]), path) == Inside(path) && IsDirectory(tree, path)
  {
    NormalizedIsPlain(value);
    LocateDirectories(tree, path, 0);
    assert path[0..] == path && path[..0] == [];
    assert path[..|path|] == path;
  }

  // The relative path of a created directory resolves to that directory, exactly when it has at most 1024 bytes.
  lemma CreatedResolvesAgain(tree: Tree, parent: string, name: string)
    requires NormalizeRelative(parent).Ok? && AllDirectories(tree, NormalizeRelative(parent).value)
    requires ValidateDirectoryName(name).Ok?
    ensures var path := NormalizeRelative(parent).value + [ValidateDirectoryName(name).value];
            var relative := RelativeToString(path);
            && (Resolves(tree[path := Directory], relative, relative, path) <==> ByteLength(relative) <= MAX_PATH_BYTES)
            && (ByteLength(relative) > MAX_PATH_BYTES ==> NormalizeRelative(relative).Err?)
  {
    var names, last := NormalizeRelative(parent).value, ValidateDirectoryName(name).value;
    var path := names + [last];
    NormalizedIsPlain(parent);
    CreatedIsPlain(names, last);
    CreatedIsReal(tree, names, last);
    PlainResolves(tree[path := Directory], path);
  }

  lemma CreatedIsPlain(names: seq<string>, last: string)
    requires AllPlain(names) && StartsPlain(names) && IsPlain(last)
    requires !IsWhitespace(last[0]) && !IsWhitespace(LastChar(last))
    ensures AllPlain(names + [last]) && StartsPlain(names + [last]) && EndsPlain(names + [last])
  {
  }

  // Real directories with plain names resolve by their printed path, when it is not too long.
  lemma PlainResolves(tree: Tree, path: seq<string>)
    requires AllPlain(path) && StartsPlain(path) && EndsPlain(path) && AllDirectories(tree, path)
    ensures var relative := RelativeToString(path);
            && (Resolves(tree, relative, relative, path) <==> ByteLength(relative) <= MAX_PATH_BYTES)
            && (ByteLength(relative) > MAX_PATH_BYTES ==> NormalizeRelative(relative).Err?)
  {
    PrintedParses(path);
  }

  lemma CreatedIsReal(tree: Tree, names: seq<string>, last: string)
    requires AllDirectories(tree, names)
    ensures AllDirectories(tree[names + [last] := Directory], names + [last])
  {
    var path := names + [last];
    forall k | 1 <= k <= |path|
      ensures IsDirectory(tree[path := Directory], path[..k])
    {
      assert path[..k] == if k <= |names| then names[..k] else path;
    }
  }

  // The relative path of a resolved directory resolves to it again, exactly when it does not end in white space.
  lemma ResolvesAgain(tree: Tree, value: string, relative: string, path: seq<string>)
    requires Resolves(tree, value, relative, path)
    ensures Resolves(tree, relative, relative, path) <==> relative == "" || !IsWhitespace(LastChar(relative))
  {
    NormalizedIsPlain(value);
    if path == [] {
      PrintedParses(path);
    } else {
      JoinedText(path);
      if IsWhitespace(LastChar(relative)) {
        TrimIsIdentity(relative);
        if NormalizeRelative(relative).Ok? {
          NormalizedIsPlain(relative);
          assert |RelativeToString(NormalizeRelative(relative).value)| <= |Trim(relative)| < |relative|;
        }
      } else {
        PrintedParses(path);
      }
    }
  }

  // A directory whose name ends in a space can be chosen by typing a slash after it, but the relative path kept
  // for the next start names the directory without the space.
  lemma TrailingSpaceIsLost(name: string, spaced: string, typed: string)
    requires IsPlain(name) && ByteLength(name) <= MAX_PATH_BYTES - 2
    requires !IsWhitespace(name[0]) && !IsWhitespace(LastChar(name))
    requires spaced == name + [' '] && typed == spaced + ['/']
    ensures NormalizeRelative(typed) == Ok([spaced])
    ensures RelativeToString([spaced]) == spaced && NormalizeRelative(spaced) == Ok([name])
  {
    SlashIsDropped(spaced, typed, name);
    SpaceIsDropped(spaced, name);
  }

  lemma SlashIsDropped(spaced: string, typed: string, name: string)
    requires spaced == name + [' '] && typed == spaced + ['/']
    requires IsPlain(name) && !IsWhitespace(name[0]) && ByteLength(name) <= MAX_PATH_BYTES - 2
    ensures NormalizeRelative(typed) == Ok([spaced])
  {
    ByteLengthConcat(name, [' ']);
    SpacedIsPlain(name);
    TrailingSlash(spaced, typed);
  }

  lemma SpaceIsDropped(spaced: string, name: string)
    requires spaced == name + [' '] && IsPlain(name) && ByteLength(name) <= MAX_PATH_BYTES
    requires !IsWhitespace(name[0]) && !IsWhitespace(LastChar(name))
    ensures NormalizeRelative(spaced) == Ok([name])
  {
    SpaceIsTrimmed(name);
    TrimIsIdentity(name);
    SameAfterTrim(spaced, name);
    OneNameParses(name);
  }

  lemma OneNameParses(name: string)
    requires IsPlain(name) && ByteLength(name) <= MAX_PATH_BYTES
    requires !IsWhitespace(name[0]) && !IsWhitespace(LastChar(name))
    ensures NormalizeRelative(name) == Ok([name])
  {
    PrintedParses([name]);
  }

  lemma SpacedIsPlain(name: string)
    requires IsPlain(name)
    ensures IsPlain(name + [' ']) && (name + [' '])[0] == name[0]
  {
    forall c | c in name + [' ']
      ensures c in name || c == ' '
    {
    }
    assert LastChar(name + [' ']) == ' ';
    forall i | 0 <= i < |name + [' ']|
      ensures !IsControl((name + [' '])[i])
    {
      assert i < |name| ==> (name + [' '])[i] == name[i] && !IsControl(name[i]);
    }
  }

  lemma SameAfterTrim(a: string, b: string)
    requires Trim(a) == Trim(b)
    ensures NormalizeRelative(a) == NormalizeRelative(b)
  {
  }

  // One name for which this happens.
  lemma ANameLosesItsSpace()
    ensures IsPlain(['a']) && ByteLength(['a']) <= MAX_PATH_BYTES - 2
    ensures !IsWhitespace(['a'][0]) && !IsWhitespace(LastChar(['a']))
  {
    assert ['a'][1..] == [];
  }

  lemma TrailingSlash(name: string, typed: string)
    requires typed == name + ['/'] && IsPlain(name) && !IsWhitespace(name[0]) && ByteLength(name) < MAX_PATH_BYTES
    ensures NormalizeRelative(typed) == Ok([name])
  {
    SlashedText(name, typed);
    ByteLengthConcat(name, ['/']);
    SlashedPieces(typed, name);
    NamedOfOne(name);
    PlainComponents(typed, [name]);
  }

  lemma SlashedPieces(typed: string, name: string)
    requires typed == name + ['/'] && IsPlain(name)
    ensures Split(typed, '/') == [name, []] && typed[0] == name[0] && ".." !in [name, []]
  {
    SplitFirst(name, '/', []);
    assert name + ['/'] + [] == typed;
    assert Split([], '/') == [[]];
  }

  lemma SlashedText(name: string, typed: string)
    requires typed == name + ['/'] && IsPlain(name) && !IsWhitespace(name[0])
    ensures Trim(typed) == Slashes(typed) == typed && !HasControl(typed)
  {
    TrimIsIdentity(typed);
    SlashedChars(name, typed);
  }

  lemma SlashedChars(name: string, typed: string)
    requires typed == name + ['/'] && '\\' !in name && !HasControl(name)
    ensures Slashes(typed) == typed && !HasControl(typed)
  {
    forall i | 0 <= i < |typed|
      ensures typed[i] != '\\' && !IsControl(typed[i])
    {
      if i < |name| {
        assert typed[i] == name[i] && name[i] in name;
      }
    }
  }

  lemma NamedOfOne(name: string)
    requires name != "" && name != "."
    ensures Named([name, []]) == [name]
  {
    var empty: string := [];
    assert [name, empty][1..] == [empty];
    assert Named([empty]) == [];
  }

  lemma SpaceIsTrimmed(name: string)
    requires name != "" && !IsWhitespace(name[0]) && !IsWhitespace(LastChar(name))
    ensures Trim(name + [' ']) == name
  {
    var spaced := name + [' '];
    assert TrimStart(spaced) == spaced;
    assert spaced[..|name|] == name;
    assert TrimEnd(spaced) == TrimEnd(name) == name;
  }
}
