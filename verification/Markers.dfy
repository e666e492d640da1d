/**
  Where a job lives, and the files in which its launchers and scripts keep its state.
*/
module Markers {
  import opened Paths

  type Byte = x: int | 0 <= x < 256

  predicate DotFree(s: string) { '.' !in s }

  // ---------------------------------------------------------------- names

  /** `Typename::localName`: what follows the last dot. */
  function LocalName(name: string): (r: string)
    ensures DotFree(r) && (SlashFree(name) ==> SlashFree(r))
  {
    var i := RFind(name, '.', |name|);
    if i == NPOS then name else name[i + 1..]
  }

  function Digit(n: int): (c: char)
    requires 0 <= n < 16
    ensures c != '/' && c != '.'
  {
    "0123456789abcdef"[n]
  }

  /** Two hexadecimal digits a byte. */
  function Hex(bytes: seq<Byte>): (r: string)
    ensures SlashFree(r) && DotFree(r) && |r| == 2 * |bytes|
    decreases |bytes|
  {
    if bytes == [] then "" else [Digit(bytes[0] / 16), Digit(bytes[0] % 16)] + Hex(bytes[1..])
  }

  lemma DigitIsInjective(m: int, n: int)
    requires 0 <= m < 16 && 0 <= n < 16 && Digit(m) == Digit(n)
    ensures m == n
  {
    var digits := "0123456789abcdef";
    assert forall i, j :: 0 <= i < 16 && 0 <= j < 16 && digits[i] == digits[j] ==> i == j;
  }

  /** The textual identifier determines the digest. */
  lemma {:induction false} HexIsInjective(a: seq<Byte>, b: seq<Byte>)
    requires Hex(a) == Hex(b)
    ensures a == b
    decreases |a|
  {
    if a != [] {
      var x, y := Hex(a), Hex(b);
      assert x[0] == Digit(a[0] / 16) && x[1] == Digit(a[0] % 16) && x[2..] == Hex(a[1..]);
      assert y[0] == Digit(b[0] / 16) && y[1] == Digit(b[0] % 16) && y[2..] == Hex(b[1..]);
      DigitIsInjective(a[0] / 16, b[0] / 16);
      DigitIsInjective(a[0] % 16, b[0] % 16);
      HexIsInjective(a[1..], b[1..]);
      assert a == [a[0]] + a[1..] && b == [b[0]] + b[1..];
    }
  }

  function DigitValue(c: char): int { if '0' <= c <= '9' then c as int - '0' as int else c as int - 'a' as int + 10 }

  /** Each byte is written as its high digit and then its low one. */
  lemma {:induction false} HexHasValue(bytes: seq<Byte>, i: nat)
    requires i < |bytes|
    ensures 16 * DigitValue(Hex(bytes)[2 * i]) + DigitValue(Hex(bytes)[2 * i + 1]) == bytes[i]
    ensures '0' <= Hex(bytes)[2 * i] <= '9' || 'a' <= Hex(bytes)[2 * i] <= 'f'
    ensures '0' <= Hex(bytes)[2 * i + 1] <= '9' || 'a' <= Hex(bytes)[2 * i + 1] <= 'f'
    decreases i
  {
    if i == 0 {
      DigitHasValue(bytes[0] / 16);
      DigitHasValue(bytes[0] % 16);
    } else {
      HexHasValue(bytes[1..], i - 1);
      assert Hex(bytes)[2..] == Hex(bytes[1..]);
      assert Hex(bytes)[2 * i] == Hex(bytes[1..])[2 * (i - 1)];
      assert Hex(bytes)[2 * i + 1] == Hex(bytes[1..])[2 * (i - 1) + 1];
    }
  }

  lemma DigitHasValue(n: int)
    requires 0 <= n < 16
    ensures DigitValue(Digit(n)) == n && ('0' <= Digit(n) <= '9' || 'a' <= Digit(n) <= 'f')
  {
    assert Digit(n) == if n < 10 then '0' + n as char else 'a' + (n - 10) as char;
  }

  /** The local name is what follows the namespace, or the whole name if there is none. */
  lemma LocalNameIs(space: string, name: string)
    requires DotFree(name)
    ensures LocalName(space + "." + name) == name && LocalName(name) == name
  {
    var s := space + "." + name;
    assert s[|space|] == '.';
    assert forall i :: |space| < i < |s| ==> s[i] == name[i - |space| - 1];
    assert s[|space| + 1..] == name;
  }

  // ---------------------------------------------------------------- extensions

  /** A last component with a dot keeps what is before it; the extension then follows without any dot. */
  lemma ExtensionReplaces(share: string, dir: string, a: string, b: string, extension: string)
    requires DotFree(a) && SlashFree(a) && SlashFree(b)
    ensures WithExtension(Path(share, dir + "/" + a + "." + b), extension) == Path(share, dir + "/" + a + extension)
  {
    var p := dir + "/" + a + "." + b;
    var dot := |dir| + 1 + |a|;
    assert p[|dir|] == '/' && p[dot] == '.';
    assert forall i :: |dir| < i < dot ==> p[i] == a[i - |dir| - 1];
    assert forall i :: dot < i < |p| ==> p[i] == b[i - dot - 1];
    assert p[..dot] == dir + "/" + a;
  }

  /** An extension is appended exactly when the last component has no dot; otherwise the end of the name is lost. */
  lemma ExtensionIsAppended(p: Path, extension: string)
    ensures WithExtension(p, extension).path == p.path + "." + extension <==> DotFree(Name(p))
  {
    var slash := RFind(p.path, '/', |p.path|);
    var from := if slash == NPOS then 0 else slash;
    var pos := Find(p.path, '.', from);
    if pos == NPOS {
      forall i | 0 <= i < |Name(p)| ensures Name(p)[i] != '.' {
        assert Name(p)[i] == p.path[if slash == NPOS then i else slash + 1 + i];
      }
    } else {
      assert Name(p)[if slash == NPOS then pos else pos - slash - 1] == '.';
      assert |WithExtension(p, extension).path| < |p.path + "." + extension|;
    }
  }

  // ---------------------------------------------------------------- locators and marker files

  function JobsDir(workspace: Path): (r: Path)
    ensures |r.path| > 1
  {
    SlashShape(workspace, "jobs");
    Slash(workspace, "jobs")
  }

  /** The path generator of a task: the jobs directory, the task, the identifier, and the task's local name if any. */
  function Locator(workspace: Path, task: string, identifier: string): Path {
    Named(Slash(Slash(JobsDir(workspace), task), identifier), LocalName(task))
  }

  function Named(dir: Path, name: string): Path { if name == "" then dir else Slash(dir, name) }

  function Marker(workspace: Path, task: string, digest: seq<Byte>, extension: string): Path {
    WithExtension(Locator(workspace, task, Hex(digest)), extension)
  }

  /** What follows the task in a marker's path: the identifier, a separator and the rest. */
  function Tail(task: string, identifier: string, extension: string): string {
    if LocalName(task) == "" then identifier + ['.'] + extension
    else identifier + ['/'] + (LocalName(task) + ['.'] + extension)
  }

  lemma MarkerShape(workspace: Path, task: string, digest: seq<Byte>, extension: string)
    requires SlashFree(task)
    ensures Marker(workspace, task, digest, extension).path
         == JobsDir(workspace).path + "/" + (task + ['/'] + Tail(task, Hex(digest), extension))
  {
    LocatorShape(workspace, task, Hex(digest));
    ExtensionIsAppended(Locator(workspace, task, Hex(digest)), extension);
    Regroup(JobsDir(workspace).path, task, Hex(digest), LocalName(task), extension);
  }

  lemma LocatorShape(workspace: Path, task: string, id: string)
    requires SlashFree(task) && SlashFree(id) && DotFree(id)
    ensures var r, d := Locator(workspace, task, id), JobsDir(workspace).path + "/" + task + "/" + id;
            DotFree(Name(r)) && r.path == if LocalName(task) == "" then d else d + "/" + LocalName(task)
  {
    NestedShape(JobsDir(workspace), task, id);
    NamedShape(Slash(JobsDir(workspace), task), id, LocalName(task));
  }

  lemma Regroup(d: string, task: string, id: string, l: string, extension: string)
    ensures (d + "/" + task + "/" + id) + "." + extension == d + "/" + (task + ['/'] + (id + ['.'] + extension))
    ensures (d + "/" + task + "/" + id + "/" + l) + "." + extension
         == d + "/" + (task + ['/'] + (id + ['/'] + (l + ['.'] + extension)))
  {
  }

  lemma NestedShape(jobs: Path, task: string, id: string)
    requires |jobs.path| > 1
    ensures Slash(Slash(jobs, task), id).path == jobs.path + "/" + task + "/" + id
  {
    SlashShape(jobs, task);
    SlashShape(Slash(jobs, task), id);
    assert |jobs.path + "/" + task| == |jobs.path| + 1 + |task|;
  }

  lemma NamedShape(taskDir: Path, id: string, name: string)
    requires SlashFree(id) && DotFree(id) && SlashFree(name) && DotFree(name)
    ensures var r := Named(Slash(taskDir, id), name);
            DotFree(Name(r))
            && (Slash(taskDir, id).path != "/" ==>
                  r.path == Slash(taskDir, id).path + if name == "" then "" else "/" + name)
  {
    NameOfChild(taskDir, id);
    SlashShape(Slash(taskDir, id), name);
    NameOfChild(Slash(taskDir, id), name);
  }

  lemma FirstAt(c: char, a: string, x: string)
    requires c !in a
    ensures Find(a + [c] + x, c, 0) == |a|
  {
    var s := a + [c] + x;
    assert s[|a|] == c;
    forall i | 0 <= i < |a| ensures s[i] != c { assert s[i] == a[i]; }
  }

  /** Texts split at the first occurrence of a separator that neither first part contains. */
  lemma SplitAtFirst(c: char, a: string, x: string, b: string, y: string)
    requires c !in a && c !in b && a + [c] + x == b + [c] + y
    ensures a == b && x == y
  {
    FirstAt(c, a, x);
    FirstAt(c, b, y);
    var s, t := a + [c] + x, b + [c] + y;
    assert s[..|a|] == a && t[..|b|] == b && s[|a| + 1..] == x && t[|b| + 1..] == y;
  }

  lemma TailIsInjective(task: string, d1: seq<Byte>, e1: string, d2: seq<Byte>, e2: string)
    requires Tail(task, Hex(d1), e1) == Tail(task, Hex(d2), e2)
    ensures d1 == d2 && e1 == e2
  {
    var l := LocalName(task);
    if l == "" {
      SplitAtFirst('.', Hex(d1), e1, Hex(d2), e2);
    } else {
      SplitAtFirst('/', Hex(d1), l + ['.'] + e1, Hex(d2), l + ['.'] + e2);
      SplitAtFirst('.', l, e1, l, e2);
    }
    HexIsInjective(d1, d2);
  }

  lemma SamePrefix(prefix: string, x: string, y: string)
    requires prefix + x == prefix + y
    ensures x == y
  {
    assert x == (prefix + x)[|prefix|..] && y == (prefix + y)[|prefix|..];
  }

  /** Different jobs never share a marker file, and neither do different markers of one job. */
  lemma MarkersAreDistinct(workspace: Path, t1: string, d1: seq<Byte>, e1: string, t2: string, d2: seq<Byte>, e2: string)
    requires SlashFree(t1) && SlashFree(t2)
    requires Marker(workspace, t1, d1, e1) == Marker(workspace, t2, d2, e2)
    ensures t1 == t2 && d1 == d2 && e1 == e2
  {
    MarkerShape(workspace, t1, d1, e1);
    MarkerShape(workspace, t2, d2, e2);
    SamePrefix(JobsDir(workspace).path + "/", t1 + ['/'] + Tail(t1, Hex(d1), e1), t2 + ['/'] + Tail(t2, Hex(d2), e2));
    SplitAtFirst('/', t1, Tail(t1, Hex(d1), e1), t2, Tail(t2, Hex(d2), e2));
    TailIsInjective(t1, d1, e1, d2, e2);
  }
}
