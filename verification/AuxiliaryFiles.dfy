/**
  Fresh names for the auxiliary files of one command.
*/
module AuxiliaryFiles {
  import opened Paths
  import opened Markers

  // ---------------------------------------------------------------- zero-padded decimals

  function DecimalDigit(n: int): (c: char)
    requires 0 <= n < 10
    ensures c != '.'
  {
    '0' + n as char
  }

  function Decimal(n: nat): (r: string)
    ensures DotFree(r) && r != ""
  {
    if n < 10 then [DecimalDigit(n)] else Decimal(n / 10) + [DecimalDigit(n % 10)]
  }

  /** At least two digits. */
  function Padded(n: nat): (r: string)
    ensures DotFree(r)
  {
    if n < 10 then "0" + Decimal(n) else Decimal(n)
  }

  function ValueOf(s: string): int
    decreases |s|
  {
    if s == "" then 0 else 10 * ValueOf(s[..|s| - 1]) + (s[|s| - 1] as int - '0' as int)
  }

  lemma {:induction false} DecimalHasValue(n: nat)
    ensures ValueOf(Decimal(n)) == n
  {
    var s := Decimal(n);
    if n < 10 {
      assert s[..0] == "";
    } else {
      DecimalHasValue(n / 10);
      assert s[..|s| - 1] == Decimal(n / 10);
    }
  }

  lemma PaddedHasValue(n: nat)
    ensures ValueOf(Padded(n)) == n
  {
    DecimalHasValue(n);
    if n < 10 {
      var s := "0" + Decimal(n);
      assert s == ['0', DecimalDigit(n)] && s[..1] == "0" && s[..1][..0] == "";
      assert ValueOf(s[..1]) == 10 * ValueOf("") + 0;
    }
  }

  // ---------------------------------------------------------------- names

  function FileName(name: string, count: nat, rest: string): string { name + "_" + (Padded(count) + ['.'] + rest) }

  lemma FileNameIsInjective(name: string, c1: nat, r1: string, c2: nat, r2: string)
    requires FileName(name, c1, r1) == FileName(name, c2, r2)
    ensures c1 == c2 && r1 == r2
  {
    SamePrefix(name + "_", Padded(c1) + ['.'] + r1, Padded(c2) + ['.'] + r2);
    SplitAtFirst('.', Padded(c1), r1, Padded(c2), r2);
    PaddedHasValue(c1);
    PaddedHasValue(c2);
  }

  type Counts = map<string, nat>

  function CountOf(counts: Counts, reference: string): nat { if reference in counts then counts[reference] else 0 }

  function Reference(name: string, prefix: string, suffix: string): string { name + "." + prefix + suffix }

  function Bump(counts: Counts, reference: string): Counts { counts[reference := CountOf(counts, reference) + 1] }

  function AuxiliaryFile(folder: Path, name: string, counts: Counts, prefix: string, suffix: string): Path {
    Slash(folder, FileName(name, CountOf(counts, Reference(name, prefix, suffix)) + 1, prefix + suffix))
  }

  /** The first file of a kind is number 01, in the folder, named after the context, prefix and suffix. */
  lemma FirstAuxiliaryFile(folder: Path, name: string, counts: Counts, prefix: string, suffix: string)
    requires Reference(name, prefix, suffix) !in counts
    ensures AuxiliaryFile(folder, name, counts, prefix, suffix)
         == Path(folder.share, (if folder.path == "/" then "" else folder.path) + "/" + (name + "_01." + prefix + suffix))
  {
    assert Decimal(1) == "1" && Padded(1) == "01";
    assert name + "_" + ("01" + ['.'] + (prefix + suffix)) == name + "_01." + prefix + suffix;
    SlashShape(folder, FileName(name, 1, prefix + suffix));
  }

  /** The paths returned by a sequence of calls on one context. */
  function Issued(folder: Path, name: string, counts: Counts, calls: seq<(string, string)>): (r: seq<Path>)
    ensures |r| == |calls|
    decreases |calls|
  {
    if calls == [] then []
    else
      [AuxiliaryFile(folder, name, counts, calls[0].0, calls[0].1)]
      + Issued(folder, name, Bump(counts, Reference(name, calls[0].0, calls[0].1)), calls[1..])
  }

  lemma SameFile(folder: Path, a: string, b: string)
    requires Slash(folder, a) == Slash(folder, b)
    ensures a == b
  {
    SlashShape(folder, a);
    SlashShape(folder, b);
    SamePrefix((if folder.path == "/" then "" else folder.path) + "/", a, b);
  }

  /** The first path, and the paths of the calls after it. */
  lemma IssuedIs(folder: Path, name: string, counts: Counts, calls: seq<(string, string)>, k: nat)
    requires k < |calls|
    ensures var (prefix, suffix) := calls[0];
            Issued(folder, name, counts, calls)[k] ==
              if k == 0 then AuxiliaryFile(folder, name, counts, prefix, suffix)
              else Issued(folder, name, Bump(counts, Reference(name, prefix, suffix)), calls[1..])[k - 1]
  {
  }

  lemma IssuedSplits(folder: Path, name: string, counts: Counts, calls: seq<(string, string)>)
    requires calls != []
    ensures var (prefix, suffix) := calls[0];
            Issued(folder, name, counts, calls) ==
              [AuxiliaryFile(folder, name, counts, prefix, suffix)]
              + Issued(folder, name, Bump(counts, Reference(name, prefix, suffix)), calls[1..])
  {
  }

  /** A later call with counts at least as high for a reference never returns a name numbered below them. */
  lemma {:induction false} LaterIsHigher(folder: Path, name: string, counts: Counts, calls: seq<(string, string)>, k: nat,
                                         rest: string, count: nat)
    requires k < |calls| && count <= CountOf(counts, name + "." + rest)
    ensures Issued(folder, name, counts, calls)[k] != Slash(folder, FileName(name, count, rest))
    decreases |calls|
  {
    var (prefix, suffix) := calls[0];
    var reference := Reference(name, prefix, suffix);
    IssuedIs(folder, name, counts, calls, k);
    if k > 0 {
      LaterIsHigher(folder, name, Bump(counts, reference), calls[1..], k - 1, rest, count);
    } else {
      assert reference == name + "." + (prefix + suffix);
      var n := CountOf(counts, reference) + 1;
      if Slash(folder, FileName(name, n, prefix + suffix)) == Slash(folder, FileName(name, count, rest)) {
        SameFile(folder, FileName(name, n, prefix + suffix), FileName(name, count, rest));
        FileNameIsInjective(name, n, prefix + suffix, count, rest);
        assert false;
      }
    }
  }

  /** No path is returned twice, whatever the mix of prefixes and suffixes. */
  lemma {:induction false} AuxiliaryFilesAreFresh(folder: Path, name: string, counts: Counts, calls: seq<(string, string)>,
                                                  i: nat, j: nat)
    requires i < j < |calls|
    ensures Issued(folder, name, counts, calls)[i] != Issued(folder, name, counts, calls)[j]
    decreases |calls|
  {
    var (prefix, suffix) := calls[0];
    var reference := Reference(name, prefix, suffix);
    var after := Bump(counts, reference);
    IssuedIs(folder, name, counts, calls, i);
    IssuedIs(folder, name, counts, calls, j);
    if i > 0 {
      AuxiliaryFilesAreFresh(folder, name, after, calls[1..], i - 1, j - 1);
    } else {
      assert reference == name + "." + (prefix + suffix);
      LaterIsHigher(folder, name, after, calls[1..], j - 1, prefix + suffix, CountOf(counts, reference) + 1);
    }
  }

  // ---------------------------------------------------------------- the context

  class CommandContext {
    const folder: Path
    const name: string
    var counts: Counts

    constructor (folder: Path, name: string)
      ensures this.folder == folder && this.name == name && counts == map[]
    {
      this.folder, this.name, this.counts := folder, name, map[];
    }

    method GetAuxiliaryFile(prefix: string, suffix: string) returns (r: Path)
      modifies this
      ensures counts == Bump(old(counts), Reference(name, prefix, suffix))
      ensures r == AuxiliaryFile(folder, name, old(counts), prefix, suffix)
    {
      var reference := name + "." + prefix + suffix;
      if reference !in counts { counts := counts[reference := 0]; }
      counts := counts[reference := counts[reference] + 1];
      r := Slash(folder, FileName(name, counts[reference], prefix + suffix));
      assert counts == Bump(old(counts), reference);
    }

    /** A caller that needs a file for each of several streams. */
    method GetAll(calls: seq<(string, string)>) returns (r: seq<Path>)
      modifies this
      ensures r == Issued(folder, name, old(counts), calls)
      ensures forall i, j :: 0 <= i < j < |r| ==> r[i] != r[j]
    {
      r := [];
      var n := 0;
      assert calls[0..] == calls;
      while n < |calls|
        invariant 0 <= n <= |calls|
        invariant r + Issued(folder, name, counts, calls[n..]) == Issued(folder, name, old(counts), calls)
      {
        assert calls[n..][0] == calls[n] && calls[n..][1..] == calls[n + 1..];
        ghost var before := counts;
        var p := GetAuxiliaryFile(calls[n].0, calls[n].1);
        IssuedSplits(folder, name, before, calls[n..]);
        r := r + [p];
        n := n + 1;
      }
      forall i, j | 0 <= i < j < |r| ensures r[i] != r[j] {
        AuxiliaryFilesAreFresh(folder, name, old(counts), calls, i, j);
      }
    }
  }
}
