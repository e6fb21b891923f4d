/** Path strings as the formatter reads them: which components a string has for the walk from the
    root, and which entry it would create. For strings made of well-formed components the two agree. */
module XfsPath {
  import opened Basics
  import opened XfsCodec
  import opened XfsTree

  const SLASH: byte := 47
  const PARENT_MAX := 512

  // ---- Reading a string from the front ----

  /** The component that s begins with, of which i bytes are known: up to a slash, and no more than
      fit into the name buffer. */
  function ComponentLen(s: Bytes, i: nat): (n: nat)
    requires i <= |s| && i <= NAME_MAX - 1
    ensures i <= n <= |s| && n <= NAME_MAX - 1
    ensures forall j :: i <= j < n ==> s[j] != SLASH
    ensures n == |s| || n == NAME_MAX - 1 || s[n] == SLASH
    decreases |s| - i
  {
    if i < |s| && s[i] != SLASH && i < NAME_MAX - 1 then ComponentLen(s, i + 1) else i
  }

  /** What is left of s behind its first component and one slash. */
  function Behind(s: Bytes): (r: Bytes)
    ensures |r| < |s| || r == []
  {
    var r := s[ComponentLen(s, 0)..];
    if r != [] && r[0] == SLASH then r[1..] else r
  }

  function Split(s: Bytes): Path
    decreases |s|
  {
    [s[..ComponentLen(s, 0)]] + if Behind(s) == [] then [] else Split(Behind(s))
  }

  /** The components of an absolute path. */
  function Components(path: Bytes): Path
    requires path != []
  {
    if |path| == 1 then [] else Split(path[1..])
  }

  // ---- Taking a string apart at its last slash ----

  /** Where the last slash is; the start of a string that has none. */
  function LastSlashAt(path: Bytes): (at: nat)
    requires path != []
    ensures at < |path| && (at > 0 ==> path[at] == SLASH) && forall j :: at < j < |path| ==> path[j] != SLASH
  {
    if |path| == 1 || path[|path| - 1] == SLASH then |path| - 1 else LastSlashAt(path[..|path| - 1])
  }

  function BaseName(path: Bytes): Bytes
    requires path != []
  {
    path[LastSlashAt(path) + 1..]
  }

  /** What strncpy keeps of a name. */
  function Cut(n: Bytes): (r: Name)
    ensures |r| <= NAME_MAX - 1 && (n != [] ==> r != []) && (0 !in n ==> 0 !in r)
  {
    if |n| <= NAME_MAX - 1 then n else n[..NAME_MAX - 1]
  }

  /** The string that is looked up for the parent, as far as it fits into its buffer. */
  function ParentString(path: Bytes): Bytes
    requires path != []
  {
    path[..Min(LastSlashAt(path), PARENT_MAX - 1)]
  }

  ghost function ParentPath(path: Bytes): Path
    requires path != []
  {
    if LastSlashAt(path) == 0 then [] else Components(ParentString(path))
  }

  /** The path of the entry that is created for a string nothing is found at. */
  ghost function Target(path: Bytes): (q: Path)
    requires path != []
    ensures q != [] && q[..|q| - 1] == ParentPath(path) && q[|q| - 1] == Cut(BaseName(path))
  {
    ParentPath(path) + [Cut(BaseName(path))]
  }

  // ---- Well-formed strings ----

  ghost predicate GoodComponent(n: Name) { GoodName(n) && SLASH !in n }

  ghost predicate GoodPath(q: Path) { forall k :: 0 <= k < |q| ==> GoodComponent(q[k]) }

  ghost function Render(q: Path): Bytes { if q == [] then [] else [SLASH] + q[0] + Render(q[1..]) }

  ghost function Tail(slash: bool): Bytes { if slash then [SLASH] else [] }

  /** The string for a path: "/" for the root; other paths may carry a trailing slash. */
  ghost function PathString(q: Path, slash: bool): (r: Bytes)
    ensures r != [] && r[0] == SLASH
  {
    if q == [] then [SLASH] else Render(q) + Tail(slash)
  }

  lemma {:induction false} FirstComponent(n: Name, rest: Bytes, i: nat)
    requires GoodComponent(n) && i <= |n| && (rest == [] || rest[0] == SLASH)
    ensures ComponentLen(n + rest, i) == |n|
    decreases |n| - i
  {
    if i < |n| {
      assert (n + rest)[i] == n[i] && n[i] in n;
      FirstComponent(n, rest, i + 1);
    } else if rest != [] {
      assert (n + rest)[i] == rest[0];
    }
  }

  lemma {:induction false} SplitOne(n: Name, rest: Bytes)
    requires GoodComponent(n) && (rest == [] || rest[0] == SLASH)
    ensures Split(n + rest) == [n] + if |rest| <= 1 then [] else Split(rest[1..])
  {
    FirstComponent(n, rest, 0);
    assert (n + rest)[..|n|] == n && (n + rest)[|n|..] == rest;
  }

  lemma {:induction false} SplitRender(q: Path, e: Bytes)
    requires q != [] && GoodPath(q) && (e == [] || e[0] == SLASH)
    ensures Render(q) != [] && Split(Render(q)[1..] + e) == q + if |e| <= 1 then [] else Split(e[1..])
  {
    hide Split;
    var n, t := q[0], q[1..];
    assert GoodComponent(n) && q == [n] + t;
    RenderFirst(q);
    var rest := Render(t) + e;
    assert Render(q)[1..] + e == n + rest;
    if t == [] {
      SplitOne(n, e);
      assert rest == e;
    } else {
      RenderFirst(t);
      SplitOne(n, rest);
      SplitRender(t, e);
      assert GoodComponent(t[0]) && rest[1..] == Render(t)[1..] + e;
    }
  }

  lemma {:induction false} RenderFirst(q: Path)
    requires q != []
    ensures Render(q) == [SLASH] + q[0] + Render(q[1..]) && Render(q)[0] == SLASH
  {
  }

  /** Writing a path out and reading its components gives the path back. */
  lemma {:induction false} ComponentsOfString(q: Path, slash: bool)
    requires GoodPath(q)
    ensures Components(PathString(q, slash)) == q
  {
    hide Split;
    if q != [] {
      SplitRender(q, Tail(slash));
      RenderFirst(q);
      assert PathString(q, slash)[1..] == Render(q)[1..] + Tail(slash);
      assert GoodComponent(q[0]);
    }
  }

  lemma {:induction false} RenderSplit(p: Path, n: Name)
    ensures Render(p + [n]) == Render(p) + [SLASH] + n
  {
    if p == [] {
      assert p + [n] == [n];
      assert [n][1..] == [];
    } else {
      RenderSplit(p[1..], n);
      assert (p + [n])[1..] == p[1..] + [n];
    }
  }

  lemma {:induction false} SlashBefore(r: Bytes, n: Bytes)
    requires SLASH !in n
    ensures var s := r + [SLASH] + n; LastSlashAt(s) == |r| && BaseName(s) == n && s[..|r|] == r
  {
    hide LastSlashAt;
    var s := r + [SLASH] + n;
    assert s[|r|] == SLASH;
    assert forall j :: |r| < j < |s| ==> s[j] == n[j - |r| - 1];
  }

  /** For a string of well-formed components, without a trailing slash, whose parent fits the buffer,
      the entry created is the one looked for. */
  lemma {:induction false} TargetOfString(q: Path)
    requires q != [] && GoodPath(q) && |PathString(q[..|q| - 1], false)| < PARENT_MAX
    ensures Target(PathString(q, false)) == q == Components(PathString(q, false))
  {
    hide Components, Render, LastSlashAt, BaseName, GoodComponent;
    var p, n := q[..|q| - 1], q[|q| - 1];
    assert q == p + [n] && GoodComponent(n);
    ComponentsOfString(q, false);
    RenderSplit(p, n);
    assert PathString(q, false) == Render(p) + [SLASH] + n;
    TargetIs(p, Render(p), n);
  }

  lemma {:induction false} TargetIs(p: Path, r: Bytes, n: Name)
    requires GoodPath(p) && GoodComponent(n) && r == Render(p) && |PathString(p, false)| < PARENT_MAX
    ensures Target(r + [SLASH] + n) == p + [n]
  {
    hide Components, LastSlashAt, BaseName;
    SlashBefore(r, n);
    if p != [] {
      ComponentsOfString(p, false);
      RenderFirst(p);
      assert r == PathString(p, false);
    }
  }

  // ---- Strings for which they differ ----

  /** A component of a doubled slash is empty. */
  lemma {:induction false} DoubledSlash(p: Path, n: Name)
    requires GoodPath(p) && GoodComponent(n) && |PathString(p, true)| < PARENT_MAX
    ensures Components(PathString(p, true) + [SLASH] + n) == p + [[], n]
    ensures Target(PathString(p, true) + [SLASH] + n) == p + [n]
  {
    hide Split, LastSlashAt, BaseName;
    var r := PathString(p, true);
    SlashBefore(r, n);
    ComponentsOfString(p, true);
    SplitEmptyFirst(n);
    if p == [] {
      assert (r + [SLASH] + n)[1..] == [SLASH] + n;
    } else {
      RenderFirst(p);
      SplitRender(p, [SLASH, SLASH] + n);
      assert (r + [SLASH] + n)[1..] == Render(p)[1..] + ([SLASH, SLASH] + n);
      assert ([SLASH, SLASH] + n)[1..] == [SLASH] + n;
    }
  }

  lemma {:induction false} SplitEmptyFirst(n: Name)
    requires GoodComponent(n)
    ensures Split([SLASH] + n) == [[], n]
  {
    assert ([SLASH] + n)[..0] == [] && ([SLASH] + n)[0..] == [SLASH] + n;
    assert Behind([SLASH] + n) == n;
    FirstComponent(n, [], 0);
    assert n + [] == n && n[..|n|] == n && Behind(n) == [];
  }

  /** A name that is too long is looked for in pieces, and created cut off. */
  lemma {:induction false} LongName(n: Bytes)
    requires |n| > NAME_MAX - 1 && SLASH !in n
    ensures Components([SLASH] + n) == [Cut(n)] + Split(n[NAME_MAX - 1..]) && Target([SLASH] + n) == [Cut(n)]
  {
    SlashBefore([], n);
    assert [] + [SLASH] + n == [SLASH] + n;
    assert ([SLASH] + n)[1..] == n;
    var k := ComponentLen(n, 0);
    assert n[k] in n;
  }
}
