/**
  Variables of a workspace: a dotted key is looked up in its enclosing namespaces, innermost first.
*/
module ScopedLookup {
  import opened Paths
  import opened Markers

  type Variables = map<string, string>

  /** The key found, or nothing, or a search that never ends. */
  datatype Lookup = Found(key: string) | NotFound | Endless

  function LastDot(key: string): int { RFind(key, '.', |key|) }

  /** The next value of the scan: from position 0 it wraps around to the end of the key. */
  function NextDot(key: string, dot: nat): int
    requires dot <= |key|
  {
    if dot == 0 then LastDot(key) else RFind(key, '.', dot)
  }

  function BareName(key: string): (r: string)
    ensures DotFree(r)
  {
    key[LastDot(key) + 1..]
  }

  function Candidate(key: string, dot: nat): string
    requires dot <= |key|
  {
    key[..dot] + "." + BareName(key)
  }

  function Bare(vars: Variables, name: string): Lookup { if name in vars then Found(name) else NotFound }

  /** The scan from one dot down. */
  function Search(vars: Variables, key: string, dot: int): Lookup
    requires NPOS <= dot <= |key|
    decreases dot
  {
    if dot == NPOS then Bare(vars, BareName(key))
    else if Candidate(key, dot) in vars then Found(Candidate(key, dot))
    else if dot == 0 then Endless
    else Search(vars, key, RFind(key, '.', dot))
  }

  function FindVariable(vars: Variables, key: string): Lookup { Search(vars, key, LastDot(key)) }

  // ---------------------------------------------------------------- when the scan ends

  /** The dot looked at in round n, as long as nothing is found. */
  function DotInRound(key: string, n: nat): (d: int)
    ensures NPOS <= d < |key| || d == NPOS
  {
    if n == 0 then LastDot(key)
    else if DotInRound(key, n - 1) == NPOS then NPOS
    else NextDot(key, DotInRound(key, n - 1))
  }

  ghost predicate Bound(vars: Variables, key: string) {
    exists d :: 0 <= d < |key| && key[d] == '.' && Candidate(key, d) in vars
  }

  lemma {:induction false} SearchIsEndless(vars: Variables, key: string, dot: int)
    requires dot == NPOS || (0 <= dot < |key| && key[dot] == '.')
    ensures Search(vars, key, dot).Endless? <==>
              && (dot != NPOS && key[0] == '.')
              && forall d :: 0 <= d <= dot && key[d] == '.' ==> Candidate(key, d) !in vars
    decreases dot
  {
    if dot > 0 {
      var next := RFind(key, '.', dot);
      SearchIsEndless(vars, key, next);
      assert forall d :: next < d < dot ==> key[d] != '.';
    }
  }

  /** The search never ends exactly for keys with a leading dot that no enclosing namespace binds. */
  lemma FindIsEndless(vars: Variables, key: string)
    ensures FindVariable(vars, key).Endless? <==> key != "" && key[0] == '.' && !Bound(vars, key)
  {
    SearchIsEndless(vars, key, LastDot(key));
  }

  /** And then every single round finds a dot and no binding. */
  lemma {:induction false} EndlessNeverStops(vars: Variables, key: string, n: nat)
    requires FindVariable(vars, key).Endless?
    ensures DotInRound(key, n) != NPOS && key[DotInRound(key, n)] == '.' && Candidate(key, DotInRound(key, n)) !in vars
  {
    FindIsEndless(vars, key);
    if n > 0 { EndlessNeverStops(vars, key, n - 1); }
  }

  // ---------------------------------------------------------------- namespaces as lists of components

  function Joined(ns: seq<string>): string
    requires ns != []
    decreases |ns|
  {
    if |ns| == 1 then ns[0] else Joined(ns[..|ns| - 1]) + "." + ns[|ns| - 1]
  }

  function Qualified(ns: seq<string>, name: string): string { if ns == [] then name else Joined(ns) + "." + name }

  predicate AllDotFree(ns: seq<string>) { forall i :: 0 <= i < |ns| ==> DotFree(ns[i]) }

  /** The binding of the name in the longest enclosing namespace that has one, else the bare name. */
  function Resolve(vars: Variables, ns: seq<string>, name: string): Lookup
    decreases |ns|
  {
    if ns == [] then Bare(vars, name)
    else if Qualified(ns, name) in vars then Found(Qualified(ns, name))
    else Resolve(vars, ns[..|ns| - 1], name)
  }

  lemma LastDotOf(s: string, name: string)
    requires DotFree(name)
    ensures LastDot(s + "." + name) == |s|
  {
    var t := s + "." + name;
    assert t[|s|] == '.';
    forall i | |s| < i < |t| ensures t[i] != '.' { assert t[i] == name[i - |s| - 1]; }
  }

  lemma NoDot(s: string)
    requires DotFree(s)
    ensures LastDot(s) == NPOS
  {
    assert forall i :: 0 <= i < |s| ==> s[i] != '.';
  }

  lemma RFindInPrefix(s: string, n: nat)
    requires n <= |s|
    ensures RFind(s, '.', n) == LastDot(s[..n])
  {
    var a, b := RFind(s, '.', n), LastDot(s[..n]);
    assert forall i :: 0 <= i < n ==> s[..n][i] == s[i];
    assert a != NPOS ==> s[..n][a] == '.';
    assert b != NPOS ==> s[b] == '.';
  }

  /** The dot before the end of a namespace is where the namespace around it ends. */
  lemma DotBefore(key: string, ns: seq<string>)
    requires AllDotFree(ns) && ns != [] && |Joined(ns)| < |key| && key[..|Joined(ns)|] == Joined(ns)
    ensures |ns| == 1 ==> RFind(key, '.', |Joined(ns)|) == NPOS
    ensures |ns| > 1 ==> var up := Joined(ns[..|ns| - 1]);
              RFind(key, '.', |Joined(ns)|) == |up| < |Joined(ns)| && key[..|up|] == up
  {
    var dot := |Joined(ns)|;
    RFindInPrefix(key, dot);
    if |ns| == 1 {
      NoDot(ns[0]);
    } else {
      var up := Joined(ns[..|ns| - 1]);
      LastDotOf(up, ns[|ns| - 1]);
      assert key[..|up|] == key[..dot][..|up|] == up;
    }
  }

  /** The scan at the end of a namespace goes through the namespaces around it. */
  lemma {:induction false} SearchResolves(vars: Variables, key: string, ns: seq<string>)
    requires AllDotFree(ns) && ns != [] && ns[0] != ""
    requires |Joined(ns)| < |key| && key[..|Joined(ns)|] == Joined(ns)
    ensures Search(vars, key, |Joined(ns)|) == Resolve(vars, ns, BareName(key))
    decreases |ns|
  {
    JoinedIsNotEmpty(ns);
    DotBefore(key, ns);
    if |ns| > 1 { SearchResolves(vars, key, ns[..|ns| - 1]); }
    SearchOnce(vars, key, ns, RFind(key, '.', |Joined(ns)|));
  }

  /** One round of the scan is one namespace of the resolution, if the rest of both agrees. */
  lemma SearchOnce(vars: Variables, key: string, ns: seq<string>, next: int)
    requires ns != [] && 0 < |Joined(ns)| <= |key| && key[..|Joined(ns)|] == Joined(ns)
    requires next == RFind(key, '.', |Joined(ns)|)
    requires if |ns| == 1 then next == NPOS
             else NPOS <= next <= |key| && Search(vars, key, next) == Resolve(vars, ns[..|ns| - 1], BareName(key))
    ensures Search(vars, key, |Joined(ns)|) == Resolve(vars, ns, BareName(key))
  {
    assert Candidate(key, |Joined(ns)|) == Qualified(ns, BareName(key));
    if |ns| == 1 { assert ns[..0] == []; }
  }

  lemma {:induction false} JoinedIsNotEmpty(ns: seq<string>)
    requires ns != [] && ns[0] != ""
    ensures Joined(ns) != "" && Joined(ns)[0] == ns[0][0]
    decreases |ns|
  {
    if |ns| > 1 { JoinedIsNotEmpty(ns[..|ns| - 1]); }
  }

  /** For a key whose first component is not empty, the scan is resolution through the enclosing namespaces. */
  lemma FindResolves(vars: Variables, ns: seq<string>, name: string)
    requires AllDotFree(ns) && DotFree(name) && (ns != [] ==> ns[0] != "")
    ensures FindVariable(vars, Qualified(ns, name)) == Resolve(vars, ns, name)
  {
    var key := Qualified(ns, name);
    if ns == [] {
      NoDot(name);
      assert BareName(key) == name;
    } else {
      LastDotOf(Joined(ns), name);
      assert BareName(key) == name;
      SearchResolves(vars, key, ns);
    }
  }

  /** Every key is the qualified name of its components. */
  lemma {:induction false} KeyHasComponents(key: string)
    ensures exists ns, name :: AllDotFree(ns) && DotFree(name) && Qualified(ns, name) == key
    decreases |key|
  {
    var d := LastDot(key);
    var name := BareName(key);
    if d == NPOS {
      assert Qualified([], name) == key;
    } else {
      KeyHasComponents(key[..d]);
      var ms, last :| AllDotFree(ms) && DotFree(last) && Qualified(ms, last) == key[..d];
      var ns := ms + [last];
      assert ns[..|ns| - 1] == ms;
      assert Joined(ns) == key[..d];
      assert key == key[..d] + "." + name;
      assert Qualified(ns, name) == key;
    }
  }

  // ---------------------------------------------------------------- the workspace

  class Workspace {
    var variables: Variables

    constructor ()
      ensures variables == map[]
    {
      variables := map[];
    }

    method SetIn(ns: string, key: string, value: string)
      modifies this
      ensures variables == old(variables)[ns + "." + key := value]
    {
      variables := variables[ns + "." + key := value];
    }

    method FindKey(key: string) returns (r: Lookup)
      ensures r == FindVariable(variables, key)
    {
      var lastDot := LastDot(key);
      var name := key[lastDot + 1..];
      while lastDot != NPOS
        invariant NPOS <= lastDot <= |key| && name == BareName(key)
        invariant Search(variables, key, lastDot) == FindVariable(variables, key)
        decreases lastDot
      {
        var candidate := key[..lastDot] + "." + name;
        if candidate in variables { return Found(candidate); }
        if lastDot == 0 { return Endless; }
        lastDot := RFind(key, '.', lastDot);
      }
      r := if name in variables then Found(name) else NotFound;
    }

    /** A value set in a namespace is the one found there. */
    method SetThenFind(ns: string, key: string, value: string) returns (r: Lookup)
      requires DotFree(key)
      modifies this
      ensures r == Found(ns + "." + key) && r.key in variables && variables[r.key] == value
    {
      SetIn(ns, key, value);
      LastDotOf(ns, key);
      assert (ns + "." + key)[..|ns|] == ns;
      assert BareName(ns + "." + key) == key;
      r := FindKey(ns + "." + key);
    }
  }
}
