/**
  What holds of every explained run of the parser.
*/
module CommandParserTheorems {
  import opened CommandParser

  // ---------------------------------------------------------------- each use records in one place

  datatype Place = AtOption(app: nat, opt: nat) | AtMissing(app: nat)

  function PlaceOf(u: Use): Maybe<Place> {
    match u
    case Noted(a) => Just(AtMissing(a))
    case Missed(a, _) => Just(AtMissing(a))
    case NamedWith(a, o, _) => Just(AtOption(a, o))
    case Flag(a, o, _) => Just(AtOption(a, o))
    case ClusterFlag(a, o) => Just(AtOption(a, o))
    case Item(a, o) => Just(AtOption(a, o))
    case Positional(a, o) => Just(AtOption(a, o))
    case _ => Nothing
  }

  predicate Exists(tree: Tree, p: Place) {
    p.app < |tree| && (p.AtOption? ==> p.opt < |tree[p.app].options|)
  }

  function Texts(missing: seq<(Class, string)>): seq<string> {
    seq(|missing|, i requires 0 <= i < |missing| => missing[i].1)
  }

  function At(tree: Tree, st: State, p: Place): seq<string>
    requires Exists(tree, p) && |st.results| == |st.missing| == |tree|
    requires p.AtOption? ==> |st.results[p.app]| == |tree[p.app].options|
  {
    if p.AtOption? then st.results[p.app][p.opt] else Texts(st.missing[p.app])
  }

  /** What one use of token t records at a place. */
  function Extra(u: Use, t: string, p: Place): seq<string> {
    if PlaceOf(u) == Just(p) && Recorded(u, t).Just? then [Recorded(u, t).value] else []
  }

  /** What the uses record at a place, in order. */
  function RecordedAt(tree: Tree, st: State, log: seq<Use>, p: Place): seq<string>
    requires WellFormed(tree) && Fits(tree, st)
    decreases |log|
  {
    if log == [] || !Enabled(tree, st, log[0]) then []
    else
      Extra(log[0], st.args[|st.args| - 1], p) + RecordedAt(tree, Apply(tree, st, log[0]), log[1..], p)
  }

  lemma UseRecords(tree: Tree, st: State, u: Use, p: Place)
    requires WellFormed(tree) && Fits(tree, st) && Enabled(tree, st, u) && Exists(tree, p)
    ensures At(tree, Apply(tree, st, u), p) == At(tree, st, p)
              + Extra(u, st.args[|st.args| - 1], p)
    ensures PlaceOf(u).Just? <==> Recorded(u, st.args[|st.args| - 1]).Just?
    ensures PlaceOf(u).Just? ==> Exists(tree, PlaceOf(u).value)
  {
    var t := st.args[|st.args| - 1];
    var r := Apply(tree, st, u);
    if p.AtMissing? {
      if u.Noted? && u.app == p.app {
        assert r.missing[p.app] == st.missing[p.app] + [(Mark, t)];
      } else if u.Missed? && u.app == p.app {
        assert r.missing[p.app] == st.missing[p.app] + [(u.kind, t)];
      } else {
        assert r.missing[p.app] == st.missing[p.app];
      }
    }
  }

  /** Results and missing arguments are exactly what the uses recorded, in order. */
  lemma {:induction false} RunRecords(tree: Tree, s: State, log: seq<Use>, t: State, p: Place)
    requires WellFormed(tree) && Fits(tree, s) && Explained(tree, s, log, t) && Exists(tree, p)
    ensures Fits(tree, t) && At(tree, t, p) == At(tree, s, p) + RecordedAt(tree, s, log, p)
    decreases |log|
  {
    if log != [] {
      ExplainedHead(tree, s, log, t);
      var s1 := Apply(tree, s, log[0]);
      RunRecords(tree, s1, log[1..], t, p);
      var x, rest := Extra(log[0], s.args[|s.args| - 1], p), RecordedAt(tree, s1, log[1..], p);
      assert At(tree, s1, p) == At(tree, s, p) + x by { UseRecords(tree, s, log[0], p); }
      Associate(At(tree, s, p), x, rest);
    }
  }

  lemma Associate(a: seq<string>, b: seq<string>, c: seq<string>)
    ensures (a + b) + c == a + (b + c)
  {
  }

  // ---------------------------------------------------------------- no argument is lost or invented

  function Tokens(tree: Tree, st: State, log: seq<Use>): (r: seq<string>)
    requires WellFormed(tree) && Fits(tree, st)
    ensures |r| == |log|
    decreases |log|
  {
    if log == [] then []
    else if !Enabled(tree, st, log[0]) then seq(|log|, i => "")
    else [st.args[|st.args| - 1]] + Tokens(tree, Apply(tree, st, log[0]), log[1..])
  }

  /** The arguments before the uses, from what is left and the tokens used. */
  function Restored(log: seq<Use>, tokens: seq<string>, left: seq<string>): seq<string>
    requires |log| == |tokens|
    decreases |log|
  {
    if log == [] then left
    else
      var mid := Restored(log[1..], tokens[1..], left);
      (if log[0].ClusterFlag? && mid != [] then mid[..|mid| - 1] else mid) + [tokens[0]]
  }

  /** The tokens used, in order, are the arguments given: none is dropped, repeated or moved. */
  lemma {:induction false} ArgumentsAreRestored(tree: Tree, s: State, log: seq<Use>, t: State)
    requires WellFormed(tree) && Fits(tree, s) && Explained(tree, s, log, t)
    ensures Restored(log, Tokens(tree, s, log), t.args) == s.args
    decreases |log|
  {
    if log != [] {
      ExplainedHead(tree, s, log, t);
      ArgumentsAreRestored(tree, Apply(tree, s, log[0]), log[1..], t);
      assert Tokens(tree, s, log)[1..] == Tokens(tree, Apply(tree, s, log[0]), log[1..]);
      UseIsUndone(tree, s, log[0]);
    }
  }

  lemma UseIsUndone(tree: Tree, st: State, u: Use)
    requires WellFormed(tree) && Fits(tree, st) && Enabled(tree, st, u)
    ensures var mid := Apply(tree, st, u).args;
            (if u.ClusterFlag? && mid != [] then mid[..|mid| - 1] else mid) + [st.args[|st.args| - 1]] == st.args
  {
    var n := |st.args| - 1;
    assert st.args == st.args[..n] + [st.args[n]];
    if u.ClusterFlag? { assert Apply(tree, st, u).args[..n] == st.args[..n]; }
  }

  /** Uses that record nothing: subcommand names, option names without a value, and a `--` that ends a list. */
  predicate Silent(u: Use) { u.Entered? || u.Named? || u.Ended? }

  function SilentUses(log: seq<Use>): nat
    decreases |log|
  {
    if log == [] then 0 else (if Silent(log[0]) then 1 else 0) + SilentUses(log[1..])
  }

  function Clusters(log: seq<Use>): nat
    decreases |log|
  {
    if log == [] then 0 else (if log[0].ClusterFlag? then 1 else 0) + Clusters(log[1..])
  }

  function Lengths(rs: seq<seq<string>>): nat
    decreases |rs|
  {
    if rs == [] then 0 else |rs[0]| + Lengths(rs[1..])
  }

  function AllResults(rs: seq<seq<seq<string>>>): nat
    decreases |rs|
  {
    if rs == [] then 0 else Lengths(rs[0]) + AllResults(rs[1..])
  }

  function AllMissing(ms: seq<seq<(Class, string)>>): nat
    decreases |ms|
  {
    if ms == [] then 0 else |ms[0]| + AllMissing(ms[1..])
  }

  lemma {:induction false} OneLonger(rs: seq<seq<string>>, o: nat, v: string)
    requires o < |rs|
    ensures Lengths(rs[o := rs[o] + [v]]) == Lengths(rs) + 1
    decreases |rs|
  {
    if o == 0 {
      assert rs[0 := rs[0] + [v]][1..] == rs[1..];
    } else {
      assert rs[o := rs[o] + [v]][1..] == rs[1..][o - 1 := rs[1..][o - 1] + [v]];
      OneLonger(rs[1..], o - 1, v);
    }
  }

  lemma {:induction false} OneResult(rs: seq<seq<seq<string>>>, a: nat, r: seq<seq<string>>)
    requires a < |rs| && Lengths(r) == Lengths(rs[a]) + 1
    ensures AllResults(rs[a := r]) == AllResults(rs) + 1
    decreases |rs|
  {
    if a == 0 {
      assert rs[0 := r][1..] == rs[1..];
    } else {
      assert rs[a := r][1..] == rs[1..][a - 1 := r];
      OneResult(rs[1..], a - 1, r);
    }
  }

  lemma {:induction false} OneMissing(ms: seq<seq<(Class, string)>>, a: nat, m: (Class, string))
    requires a < |ms|
    ensures AllMissing(ms[a := ms[a] + [m]]) == AllMissing(ms) + 1
    decreases |ms|
  {
    if a == 0 {
      assert ms[0 := ms[0] + [m]][1..] == ms[1..];
    } else {
      assert ms[a := ms[a] + [m]][1..] == ms[1..][a - 1 := ms[1..][a - 1] + [m]];
      OneMissing(ms[1..], a - 1, m);
    }
  }

  function Total(st: State): nat { AllResults(st.results) + AllMissing(st.missing) }

  lemma UseCounts(tree: Tree, st: State, u: Use)
    requires WellFormed(tree) && Fits(tree, st) && Enabled(tree, st, u)
    ensures Total(Apply(tree, st, u)) == Total(st) + if Silent(u) then 0 else 1
  {
    var t := st.args[|st.args| - 1];
    if u.Noted? {
      OneMissing(st.missing, u.app, (Mark, t));
    } else if u.Missed? {
      OneMissing(st.missing, u.app, (u.kind, t));
    } else if !Silent(u) {
      var v := Recorded(u, t).value;
      OneLonger(st.results[u.app], u.opt, v);
      OneResult(st.results, u.app, st.results[u.app][u.opt := st.results[u.app][u.opt] + [v]]);
    }
  }

  /**
    Conservation: every argument that is not an option name, a subcommand name or an ending `--` adds exactly one
    result or one missing entry; each flag of a cluster adds one more.
  */
  lemma {:induction false} Conservation(tree: Tree, s: State, log: seq<Use>, t: State)
    requires WellFormed(tree) && Fits(tree, s) && Explained(tree, s, log, t)
    ensures Total(t) + SilentUses(log) == Total(s) + |s.args| - |t.args| + Clusters(log)
    decreases |log|
  {
    if log != [] {
      ExplainedHead(tree, s, log, t);
      UseCounts(tree, s, log[0]);
      Conservation(tree, Apply(tree, s, log[0]), log[1..], t);
    }
  }

  // ---------------------------------------------------------------- options of fixed size

  /** While a fixed-size option misses values, the next uses are its values, unless the arguments run out. */
  lemma {:induction false} MissingValuesFollow(tree: Tree, s: State, log: seq<Use>, t: State, a: nat, o: nat, left: nat)
    requires WellFormed(tree) && Fits(tree, s) && Explained(tree, s, log, t) && !Pending(t.filling)
    requires s.filling.Filling? && s.filling.app == a && s.filling.opt == o && s.filling.left == left
    ensures left <= |log| && forall k :: 0 <= k < left ==> log[k] == Item(a, o)
    decreases left
  {
    if left > 0 {
      assert log != [];
      ExplainedHead(tree, s, log, t);
      MissingValuesFollow(tree, Apply(tree, s, log[0]), log[1..], t, a, o, left - 1);
      forall k | 0 <= k < left ensures log[k] == Item(a, o) {
        if k > 0 { assert log[k] == log[1..][k - 1]; }
      }
    }
  }

  /** In a completed run, the name of an option that expects n values is followed by exactly that option's n values. */
  lemma {:induction false} FixedOptionsAreFilled(tree: Tree, s: State, log: seq<Use>, t: State, i: nat)
    requires WellFormed(tree) && Fits(tree, s) && Explained(tree, s, log, t) && !Pending(t.filling)
    requires i < |log| && log[i].Named?
    ensures var a, o := log[i].app, log[i].opt;
            && a < |tree| && o < |tree[a].options|
            && var n := Count(tree[a].options[o].expected);
               i + n < |log| && forall k :: i < k <= i + n ==> log[k] == Item(a, o)
    decreases |log|
  {
    ExplainedHead(tree, s, log, t);
    if i > 0 {
      assert log[1..][i - 1] == log[i];
      FixedOptionsAreFilled(tree, Apply(tree, s, log[0]), log[1..], t, i - 1);
      var a, o := log[i].app, log[i].opt;
      var n := Count(tree[a].options[o].expected);
      forall k | i < k <= i + n ensures log[k] == Item(a, o) { assert log[k] == log[1..][k - 1]; }
    } else {
      var a, o := log[0].app, log[0].opt;
      var n := Count(tree[a].options[o].expected);
      MissingValuesFollow(tree, Apply(tree, s, log[0]), log[1..], t, a, o, n);
      forall k | 0 < k <= n ensures log[k] == Item(a, o) { assert log[k] == log[1..][k - 1]; }
    }
  }
}
