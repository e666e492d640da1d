/**
  Path algebra. A character stands for one byte of a `std::string`; reading one past the end of a string gives
  the terminating NUL, reading further is undefined.
*/
module Paths {

  const NPOS := -1

  /** The last position below `n` holding `c`. */
  function RFind(s: string, c: char, n: int): (r: int)
    requires n <= |s|
    ensures r == NPOS || (0 <= r < n && s[r] == c)
    ensures forall i :: r < i < n && 0 <= i ==> s[i] != c
  {
    if n <= 0 then NPOS else if s[n - 1] == c then n - 1 else RFind(s, c, n - 1)
  }

  /** The first position from `n` on holding `c`. */
  function Find(s: string, c: char, n: nat): (r: int)
    ensures r == NPOS || (n <= r < |s| && s[r] == c)
    ensures forall i :: n <= i < (if r == NPOS then |s| else r) ==> s[i] != c
    decreases |s| - n
  {
    if n >= |s| then NPOS else if s[n] == c then n else Find(s, c, n + 1)
  }

  datatype Path = Path(share: string, path: string)

  function Pieces(s: string, pieces: seq<string>): string
    decreases |pieces|
  {
    if pieces == [] then s else Pieces(s + "/" + pieces[0], pieces[1..])
  }

  function Join(parent: Path, pieces: seq<string>): Path {
    Path(parent.share, Pieces(if parent.path == "/" then "" else parent.path, pieces))
  }

  function Slash(p: Path, name: string): Path { Join(p, [name]) }

  function Parent(p: Path): Path {
    var i := RFind(p.path, '/', |p.path|);
    if i == 0 then Path(p.share, "/")
    else if i != NPOS then Path(p.share, p.path[..i])
    else p
  }

  function Name(p: Path): string {
    var i := RFind(p.path, '/', |p.path|);
    if i == NPOS then p.path else p.path[i + 1..]
  }

  function WithExtension(p: Path, extension: string): Path {
    var slash := RFind(p.path, '/', |p.path|);
    var pos := Find(p.path, '.', if slash == NPOS then 0 else slash);
    Path(p.share, if pos == NPOS then p.path + "." + extension else p.path[..pos] + extension)
  }

  predicate IsRelative(p: Path) { p.path == "" || p.path[0] != '/' }

  predicate SlashFree(s: string) { '/' !in s }

  // ---------------------------------------------------------------- one component down and up again

  lemma SlashShape(p: Path, n: string)
    ensures Slash(p, n).share == p.share
    ensures Slash(p, n).path == (if p.path == "/" then "" else p.path) + "/" + n
  {
    assert [n][1..] == [];
    assert Pieces(if p.path == "/" then "" else p.path, [n])
        == Pieces((if p.path == "/" then "" else p.path) + "/" + n, []);
  }

  lemma LastSlash(s: string, n: string)
    requires SlashFree(n)
    ensures RFind(s + "/" + n, '/', |s| + 1 + |n|) == |s|
  {
    var t := s + "/" + n;
    assert t[|s|] == '/';
    forall i | |s| < i < |t| ensures t[i] != '/' { assert t[i] == n[i - |s| - 1]; }
  }

  lemma NameOfChild(p: Path, n: string)
    requires SlashFree(n)
    ensures Name(Slash(p, n)) == n
  {
    SlashShape(p, n);
    var s := if p.path == "/" then "" else p.path;
    LastSlash(s, n);
    assert (s + "/" + n)[|s| + 1..] == n;
  }

  /** The parent of a child is the path itself; the empty path comes back as the root. */
  lemma ParentOfChild(p: Path, n: string)
    requires SlashFree(n)
    ensures Parent(Slash(p, n)) == if p.path == "" then Path(p.share, "/") else p
  {
    SlashShape(p, n);
    var s := if p.path == "/" then "" else p.path;
    LastSlash(s, n);
    assert (s + "/" + n)[..|s|] == s;
  }

  /** Going up and down again gives the path back exactly when it has a slash and is not of the form `//n`. */
  lemma UpAndDown(p: Path)
    ensures Slash(Parent(p), Name(p)) == p <==>
              '/' in p.path && !(RFind(p.path, '/', |p.path|) == 1 && p.path[0] == '/')
  {
    var i := RFind(p.path, '/', |p.path|);
    SlashShape(Parent(p), Name(p));
    if i == NPOS {
      assert |Slash(p, p.path).path| > |p.path|;
    } else {
      assert p.path == p.path[..i] + "/" + p.path[i + 1..];
      if i == 1 && p.path[0] == '/' {
        assert p.path[..i] == "/";
        assert |Slash(Parent(p), Name(p)).path| < |p.path|;
      }
    }
  }

  // ---------------------------------------------------------------- relativeTo

  /** `s[i]`, where the position after the last character reads as NUL. */
  function At(s: string, i: nat): char
    requires i <= |s|
  {
    if i < |s| then s[i] else '\0'
  }

  /** Length of the longest common prefix. */
  function Common(b: string, p: string): (n: nat)
    ensures n <= |b| && n <= |p| && b[..n] == p[..n]
    ensures n < |b| && n < |p| ==> b[n] != p[n]
  {
    if b == "" || p == "" || b[0] != p[0] then 0 else 1 + Common(b[1..], p[1..])
  }

  lemma CommonIs(b: string, p: string, n: nat)
    requires n <= |b| && n <= |p| && b[..n] == p[..n]
    requires n < |b| && n < |p| ==> b[n] != p[n]
    ensures Common(b, p) == n
  {
    var m := Common(b, p);
    forall i | 0 <= i < n ensures b[i] == p[i] { assert b[..n][i] == p[..n][i]; }
    forall i | 0 <= i < m ensures b[i] == p[i] { assert b[..m][i] == p[..m][i]; }
  }

  /** The scan passes a terminating NUL. */
  predicate Overrun(b: string, p: string) {
    b + "\0" <= p + "\0" || p + "\0" <= b + "\0"
  }

  function Slashes(s: string, n: nat): nat
    requires n <= |s|
    decreases |s| - n
  {
    if n == |s| then 0 else (if s[n] == '/' then 1 else 0) + Slashes(s, n + 1)
  }

  function Ups(n: nat): string { if n == 0 then "" else Ups(n - 1) + "../" }

  datatype Relative = Relative(path: Path) | Refused | OutOfBounds

  /** The last slash of the common part; a slash that follows `b` in `p` counts as well. */
  function Meeting(b: string, p: string): int {
    var n := Common(b, p);
    if n == |b| && n < |p| && p[n] == '/' then n else RFind(b, '/', n)
  }

  function RelativeTo(p: Path, other: Path): Relative {
    if IsRelative(p) || IsRelative(other) then Refused
    else if p.share != other.share then Relative(p)
    else if Overrun(other.path, p.path) then OutOfBounds
    else
      var m := Meeting(other.path, p.path);
      var from := if 0 <= m < |other.path| then m + 1 else |other.path|;
      Relative(Path("", Ups(Slashes(other.path, from)) + if 0 <= m < |p.path| then p.path[m + 1..] else ""))
  }

  lemma OverrunIs(b: string, p: string, i: nat)
    requires i <= |b| && i <= |p| && b[..i] == p[..i] && At(b, i) == At(p, i)
    requires i == |b| || i == |p|
    ensures Overrun(b, p)
  {
    var b0, p0 := b + "\0", p + "\0";
    if i == |b| {
      assert p0[..i + 1] == b0 by { assert p0[i] == '\0'; assert p0[..i] == p[..i] == b; }
    } else {
      assert b0[..i + 1] == p0 by { assert b0[i] == '\0'; assert b0[..i] == b[..i] == p; }
    }
  }

  lemma PrefixAt(a: string, b: string, i: nat)
    ensures a <= b && i < |a| ==> i < |b| && a[i] == b[i]
  {
  }

  lemma NoOverrunIs(b: string, p: string, i: nat)
    requires i <= |b| && i <= |p| && b[..i] == p[..i] && At(b, i) != At(p, i)
    ensures !Overrun(b, p) && Common(b, p) == i
  {
    CommonIs(b, p, i);
    var b0, p0 := b + "\0", p + "\0";
    assert b0[i] == At(b, i) && p0[i] == At(p, i);
    PrefixAt(b0, p0, i);
    PrefixAt(p0, b0, i);
  }

  /** The scan of `relativeTo`: the last slash of the common part, or nothing when it runs past the strings. */
  method Scan(b: string, q: string) returns (lastSlash: int)
    requires b != "" && b[0] == '/' && q != "" && q[0] == '/'
    ensures Overrun(b, q) <==> lastSlash == NPOS
    ensures lastSlash != NPOS ==> lastSlash == Meeting(b, q) && 0 <= lastSlash < |q| && lastSlash <= |b|
  {
    var i := 0;
    lastSlash := 0;
    while At(b, i) == At(q, i)
      invariant 0 <= i <= |b| && i <= |q| && b[..i] == q[..i]
      invariant lastSlash == if i == 0 then 0 else RFind(b, '/', i)
      invariant 0 <= lastSlash <= i
      decreases |b| - i
    {
      if i == |b| || i == |q| {
        OverrunIs(b, q, i);
        return NPOS;
      }
      if b[i] == '/' { lastSlash := i; }
      i := i + 1;
    }
    NoOverrunIs(b, q, i);
    if |b| == i && i < |q| && q[i] == '/' { lastSlash := i; }
  }

  /** One `../` for each slash from position `from` on. */
  method CountUps(b: string, from: nat) returns (text: string)
    ensures text == if from <= |b| then Ups(Slashes(b, from)) else ""
  {
    text := "";
    ghost var n := 0;
    var pos := Find(b, '/', from);
    if from > |b| { return; }
    SlashesSkip(b, from, pos);
    while pos != NPOS
      invariant pos == NPOS || (0 <= pos < |b| && b[pos] == '/')
      invariant text == Ups(n)
      invariant Slashes(b, from) == n + if pos == NPOS then 0 else Slashes(b, pos)
      decreases if pos == NPOS then 0 else |b| - pos
    {
      text := text + "../";
      n := n + 1;
      var next := Find(b, '/', pos + 1);
      SlashesSkip(b, pos + 1, next);
      pos := next;
    }
  }

  method RelativeToLoop(p: Path, other: Path) returns (r: Relative)
    ensures r == RelativeTo(p, other)
  {
    if IsRelative(p) || IsRelative(other) { return Refused; }
    if p.share != other.share { return Relative(p); }
    var lastSlash := Scan(other.path, p.path);
    if lastSlash == NPOS { return OutOfBounds; }
    var ups := CountUps(other.path, lastSlash + 1);
    assert Slashes(other.path, |other.path|) == 0;
    r := Relative(Path("", ups + p.path[lastSlash + 1..]));
  }

  lemma {:induction false} SlashesSkip(s: string, n: nat, pos: int)
    requires n <= |s| && pos == Find(s, '/', n)
    ensures Slashes(s, n) == if pos == NPOS then 0 else Slashes(s, pos)
    decreases |s| - n
  {
    if n < |s| && pos != n { SlashesSkip(s, n + 1, pos); }
  }

  // ---------------------------------------------------------------- what the result means

  /** What `base / r` is, seen from an absolute base: `r`, unless the base is the root and r is empty or starts with `/`. */
  lemma JoinThenRelative(base: Path, r: string)
    requires !IsRelative(base)
    ensures RelativeTo(Slash(base, r), base) == Relative(Path("", r)) <==>
              base.path != "/" || (r != "" && r[0] != '/' && r[0] != '\0')
  {
    SlashShape(base, r);
    var b, p := base.path, Slash(base, r).path;
    if b != "/" {
      assert p == b + ("/" + r) && p[|b|] == '/';
      NoOverrunIs(b, p, |b|);
      assert p[|b| + 1..] == r;
      assert Ups(0) + r == r;
    } else {
      assert p == b + r;
      if r != "" && r[0] != '\0' {
        NoOverrunIs(b, p, 1);
        assert p[1..] == r && Ups(0) + r == r;
        if r[0] == '/' { assert |p[2..]| == |r| - 1; }
      } else {
        assert p[..1] == b;
        OverrunIs(b, p, 1);
      }
    }
  }

  function UpN(p: Path, n: nat): Path
    decreases n
  {
    if n == 0 then p else UpN(Parent(p), n - 1)
  }

  lemma SlashesOfPrefix(s: string, n: nat, last: nat)
    requires n <= last < |s| && last == RFind(s, '/', |s|)
    ensures Slashes(s, n) == Slashes(s[..last], n) + 1
    decreases last - n
  {
    if n < last {
      SlashesOfPrefix(s, n + 1, last);
    } else {
      NoSlashes(s, last + 1);
    }
  }

  lemma {:induction false} NoSlashes(s: string, n: nat)
    requires n <= |s| && forall i :: n <= i < |s| ==> s[i] != '/'
    ensures Slashes(s, n) == 0
    decreases |s| - n
  {
    if n < |s| { NoSlashes(s, n + 1); }
  }

  lemma {:induction false} SomeSlashes(s: string, n: nat, i: nat)
    requires n <= i < |s| && s[i] == '/'
    ensures Slashes(s, n) > 0
    decreases |s| - n
  {
    if n < i { SomeSlashes(s, n + 1, i); }
  }

  /** One step up for each slash from position `cut` on leads to what precedes it. */
  lemma {:induction false} Climb(p: Path, cut: nat)
    requires cut < |p.path| && p.path[cut] == '/'
    ensures UpN(p, Slashes(p.path, cut + 1) + 1) == Path(p.share, if cut == 0 then "/" else p.path[..cut])
    decreases |p.path|
  {
    var s := p.path;
    var last := RFind(s, '/', |s|);
    if last == cut {
      NoSlashes(s, cut + 1);
      assert UpN(p, 1) == UpN(Parent(p), 0);
    } else {
      SomeSlashes(s, cut + 1, last);
      SlashesOfPrefix(s, cut + 1, last);
      assert s[..last][cut] == '/' && s[..last][..cut] == s[..cut];
      Climb(Parent(p), cut);
    }
  }

  predicate Below(b: string, p: string) { b != "/" && b + "/" <= p }

  lemma NotBelow(b: string, p: string)
    ensures Below(b, p) ==> Common(b, p) == |b| && |b| < |p| && p[|b|] == '/'
  {
    if Below(b, p) {
      assert p[..|b| + 1] == b + "/";
      assert p[..|b|] == p[..|b| + 1][..|b|] == b;
      CommonIs(b, p, |b|);
    }
  }

  predicate Leads(p: Path, base: Path, n: nat, tail: string) {
    if Below(base.path, p.path) then n == 0 && Slash(base, tail) == p
    else Slash(UpN(base, n + 1), tail) == p
  }

  lemma SlashTwice(b: string, p: string)
    ensures |b| < |p| && p[..|b|] == b && p[|b|] == '/' ==> b + "/" <= p && (b == "/" ==> "//" <= p)
  {
    if |b| < |p| && p[..|b|] == b && p[|b|] == '/' {
      assert p[..|b| + 1] == b + "/";
    }
  }

  lemma LeadsBelow(p: Path, base: Path)
    requires !IsRelative(base) && p.share == base.share && Below(base.path, p.path)
    ensures Leads(p, base, 0, p.path[|base.path| + 1..])
    ensures RelativeTo(p, base) == Relative(Path("", Ups(0) + p.path[|base.path| + 1..]))
  {
    var b, q := base.path, p.path;
    NotBelow(b, q);
    SlashShape(base, q[|b| + 1..]);
    assert q == b + "/" + q[|b| + 1..];
    NoOverrunIs(b, q, |b|);
    assert Ups(0) + q[|b| + 1..] == q[|b| + 1..];
  }

  lemma LeadsAcross(p: Path, base: Path, m: nat)
    requires !IsRelative(p) && !IsRelative(base) && p.share == base.share
    requires !Below(base.path, p.path) && !("//" <= base.path)
    requires m < |base.path| && m < |p.path| && base.path[..m + 1] == p.path[..m + 1] && p.path[m] == '/'
    ensures Leads(p, base, Slashes(base.path, m + 1), p.path[m + 1..])
  {
    var b, q := base.path, p.path;
    assert b[m] == b[..m + 1][m] == q[..m + 1][m];
    assert b[..m] == b[..m + 1][..m] == q[..m + 1][..m] == q[..m];
    Climb(base, m);
    assert q == q[..m] + "/" + q[m + 1..];
    SlashTwice(b[..m], b);
    SlashShape(UpN(base, Slashes(b, m + 1) + 1), q[m + 1..]);
  }

  lemma MeaningAcross(p: Path, base: Path, m: int)
    requires !IsRelative(p) && !IsRelative(base) && p.share == base.share && !Overrun(base.path, p.path)
    requires !("//" <= p.path) && !("//" <= base.path) && !Below(base.path, p.path) && m == Meeting(base.path, p.path)
    ensures 0 <= m < |base.path| && m < |p.path| && Leads(p, base, Slashes(base.path, m + 1), p.path[m + 1..])
    ensures RelativeTo(p, base) == Relative(Path("", Ups(Slashes(base.path, m + 1)) + p.path[m + 1..]))
  {
    var b, q, c := base.path, p.path, Common(base.path, p.path);
    assert b[..1] == q[..1] == "/";
    MeetsInside(b, q);
    assert b[..m + 1] == b[..c][..m + 1] == q[..c][..m + 1] == q[..m + 1];
    assert q[m] == q[..m + 1][m] == b[..m + 1][m];
    LeadsAcross(p, base, m);
  }

  /**
    The result leads back to the path: from the base itself when the path lies below it, and otherwise from the
    base's parent, as if the base were a file.
  */
  lemma RelativeMeaning(p: Path, base: Path)
    requires !IsRelative(p) && !IsRelative(base) && p.share == base.share && !Overrun(base.path, p.path)
    requires !("//" <= p.path) && !("//" <= base.path)
    ensures exists n, tail :: RelativeTo(p, base) == Relative(Path("", Ups(n) + tail)) && Leads(p, base, n, tail)
  {
    if Below(base.path, p.path) {
      LeadsBelow(p, base);
    } else {
      MeaningAcross(p, base, Meeting(base.path, p.path));
    }
  }

  /** A path that does not begin with a slash has no relation to others, and others none to it. */
  lemma RefusedIff(p: Path, base: Path)
    ensures RelativeTo(p, base) == Refused <==> !("/" <= p.path) || !("/" <= base.path)
  {
    assert forall s: string :: "/" <= s <==> s != "" && s[0] == '/';
  }

  lemma NulEnds(b: string, p: string)
    requires '\0' !in p && b + "\0" <= p + "\0"
    ensures b == p
  {
    var x, y := b + "\0", p + "\0";
    forall i | 0 <= i < |p| ensures y[i] != '\0' { assert y[i] == p[i] && p[i] in p; }
    assert x[|b|] == y[|b|] == '\0';
    assert b == x[..|b|] && p == y[..|p|];
  }

  lemma OverrunWithoutNul(b: string, p: string)
    requires '\0' !in b && '\0' !in p
    ensures Overrun(b, p) <==> b == p
  {
    if b + "\0" <= p + "\0" { NulEnds(b, p); }
    if p + "\0" <= b + "\0" { NulEnds(p, b); }
  }

  /** For absolute paths on one share without NUL bytes, exactly the path relative to itself reads past the strings. */
  lemma RelativeToItself(p: Path, base: Path)
    requires !IsRelative(p) && !IsRelative(base) && p.share == base.share
    requires '\0' !in p.path && '\0' !in base.path
    ensures RelativeTo(p, base) == OutOfBounds <==> p == base
  {
    OverrunWithoutNul(base.path, p.path);
  }

  lemma MeetsInside(b: string, p: string)
    requires b != "" && b[0] == '/' && !Below(b, p) && !("//" <= p) && Common(b, p) > 0
    ensures 0 <= Meeting(b, p) < Common(b, p) && b[Meeting(b, p)] == '/'
  {
    var c := Common(b, p);
    assert b[..c] == p[..c];
    SlashTwice(b, p);
  }

}
