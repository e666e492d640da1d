/**
  What the tokens of the command line mean: which text is an option's name and which its value, which option or
  positional gets it, and that an attached value is recorded as it was written.
*/
module CommandTokens {
  import opened CommandParser
  import opened CommandParserTheorems

  // ---------------------------------------------------------------- the forms of a token

  predicate LetterOrUnderscore(c: char) { 'a' <= c <= 'z' || 'A' <= c <= 'Z' || c == '_' }

  /** A name that can follow `--`: it begins with a letter or an underscore and has no `=`. */
  predicate LongName(n: string) { n != "" && LetterOrUnderscore(n[0]) && '=' !in n }

  lemma {:induction false} EqualsIsFirst(s: string, i: nat, e: nat)
    requires i <= e <= |s| && (e < |s| ==> s[e] == '=') && forall k :: i <= k < e ==> s[k] != '='
    ensures FindEquals(s, i) == e
    decreases e - i
  {
    if i < e { EqualsIsFirst(s, i + 1, e); }
  }

  lemma {:induction false} NoEqualsBefore(s: string, i: nat)
    requires i <= |s|
    ensures forall k :: i <= k < FindEquals(s, i) ==> s[k] != '='
    decreases |s| - i
  {
    if i < |s| && s[i] != '=' { NoEqualsBefore(s, i + 1); }
  }

  /** `--name=value` has that name and that value, and `--name` no value. */
  lemma LongTokenSplits(n: string, v: string)
    requires LongName(n)
    ensures SplitLong("--" + n + "=" + v) == Split(n, v)
    ensures SplitLong("--" + n) == Split(n, "")
  {
    var t, u := "--" + n + "=" + v, "--" + n;
    assert t[..2] == "--" && t[2] == n[0] && u[..2] == "--" && u[2] == n[0];
    assert t[2 + |n|] == '=' && forall k :: 2 <= k < 2 + |n| ==> t[k] == n[k - 2] && u[k] == n[k - 2];
    EqualsIsFirst(t, 2, 2 + |n|);
    EqualsIsFirst(u, 2, |u|);
    assert t[2..2 + |n|] == n && t[2 + |n| + 1..] == v && u[2..] == n;
  }

  /** No other token is a long option. */
  lemma LongTokenIs(t: string)
    ensures match SplitLong(t)
            case Split(n, v) => LongName(n) && (t == "--" + n + "=" + v || (t == "--" + n && v == ""))
            case NotAnOption => forall n: string, v: string :: LongName(n) ==> t != "--" + n + "=" + v && t != "--" + n
  {
    if SplitLong(t).Split? {
      var loc := FindEquals(t, 2);
      NoEqualsBefore(t, 2);
      assert t[2] != '=' && loc > 2;
      var n := t[2..loc];
      assert forall k :: 0 <= k < |n| ==> n[k] == t[k + 2];
      assert t == t[..2] + n + t[loc..];
      if loc < |t| { assert t[loc..] == "=" + t[loc + 1..]; }
    } else {
      forall n: string, v: string | LongName(n) ensures t != "--" + n + "=" + v && t != "--" + n {
        LongTokenSplits(n, v);
      }
    }
  }

  /** `-crest` has the name `c` and the rest; no other token is a short option. */
  lemma ShortTokenSplits(c: char, r: string)
    requires LetterOrUnderscore(c)
    ensures SplitShort("-" + [c] + r) == Split([c], r)
  {
    var t := "-" + [c] + r;
    assert t[0] == '-' && t[1..2] == [c] && t[2..] == r;
  }

  lemma ShortTokenIs(t: string)
    ensures match SplitShort(t)
            case Split(n, r) => |n| == 1 && LetterOrUnderscore(n[0]) && t == "-" + n + r
            case NotAnOption => forall c: char, r: string :: LetterOrUnderscore(c) ==> t != "-" + [c] + r
  {
    if SplitShort(t).Split? {
      assert t == t[..1] + t[1..2] + t[2..] && t[..1] == "-";
    } else {
      forall c: char, r: string | LetterOrUnderscore(c) ensures t != "-" + [c] + r { ShortTokenSplits(c, r); }
    }
  }

  /** The forms exclude each other. */
  lemma FormsAreExclusive(t: string)
    ensures !(SplitLong(t).Split? && SplitShort(t).Split?)
    ensures t == "--" ==> SplitLong(t).NotAnOption? && SplitShort(t).NotAnOption?
  {
    if SplitLong(t).Split? { assert t[1] == t[..2][1] == '-'; }
  }

  // ---------------------------------------------------------------- which option, which positional

  function Names(o: Opt, long: bool): seq<string> { if long then o.longNames else o.shortNames }

  /** The option found for a name is the first one that has it. */
  lemma {:induction false} OptionIsFirst(opts: seq<Opt>, long: bool, name: string, i: nat)
    requires i <= |opts|
    ensures match FindOption(opts, long, name, i)
            case Just(o) => i <= o < |opts| && name in Names(opts[o], long)
                         && forall k :: i <= k < o ==> name !in Names(opts[k], long)
            case Nothing => forall k :: i <= k < |opts| ==> name !in Names(opts[k], long)
    decreases |opts| - i
  {
    if i < |opts| { OptionIsFirst(opts, long, name, i + 1); }
  }

  /** A positional that has all its values. */
  predicate Full(o: Opt, count: nat) { o.positional ==> 0 <= o.expected <= count }

  lemma {:induction false} PositionalIsFirst(opts: seq<Opt>, results: seq<seq<string>>, i: nat)
    requires |opts| == |results| && i <= |opts|
    ensures match FirstOpen(opts, results, i)
            case Just(o) => i <= o < |opts| && opts[o].positional && !Full(opts[o], |results[o]|)
                         && forall k :: i <= k < o ==> Full(opts[k], |results[k]|)
            case Nothing => forall k :: i <= k < |opts| ==> Full(opts[k], |results[k]|)
    decreases |opts| - i
  {
    if i < |opts| { PositionalIsFirst(opts, results, i + 1); }
  }

  /** A positional takes a value only while it misses some, and only when those before it have all theirs. */
  lemma PositionalsAreFilledInOrder(tree: Tree, st: State, a: nat, o: nat)
    requires WellFormed(tree) && Fits(tree, st) && Enabled(tree, st, Positional(a, o))
    ensures o < |tree[a].options| && tree[a].options[o].positional
    ensures tree[a].options[o].expected < 0 || |st.results[a][o]| < tree[a].options[o].expected
    ensures forall k :: 0 <= k < o && tree[a].options[k].positional ==>
                          0 <= tree[a].options[k].expected <= |st.results[a][k]|
    ensures Apply(tree, st, Positional(a, o)).results[a][o] == st.results[a][o] + [st.args[|st.args| - 1]]
  {
    PositionalIsFirst(tree[a].options, st.results[a], 0);
  }

  // ---------------------------------------------------------------- what an option token does

  lemma ResultIsAdded(st: State, a: nat, o: nat, v: string)
    requires a < |st.results| && o < |st.results[a]|
    ensures var r := AddResult(st, a, o, v);
            && |r.results| == |st.results| && |r.results[a]| == |st.results[a]|
            && r.results[a][o] == st.results[a][o] + [v]
            && (forall b :: 0 <= b < |st.results| && b != a ==> r.results[b] == st.results[b])
            && forall k :: 0 <= k < |st.results[a]| && k != o ==> r.results[a][k] == st.results[a][k]
  {
  }

  /** The option `o` is the first of app `a` that has the name. */
  predicate FirstNamed(tree: Tree, a: nat, o: nat, long: bool, n: string) {
    && a < |tree| && o < |tree[a].options| && n in Names(tree[a].options[o], long)
    && forall k :: 0 <= k < o ==> n !in Names(tree[a].options[k], long)
  }

  lemma FirstNamedIsFound(tree: Tree, a: nat, o: nat, long: bool, n: string)
    requires FirstNamed(tree, a, o, long, n)
    ensures FindOption(tree[a].options, long, n, 0) == Just(o)
  {
    OptionIsFirst(tree[a].options, long, n, 0);
  }

  /** `--name=value` records the value, nothing more and nothing else, at the option of that name. */
  lemma AttachedLongValue(tree: Tree, st: State, a: nat, o: nat, n: string, v: string)
    requires WellFormed(tree) && Fits(tree, st) && FirstNamed(tree, a, o, true, n) && LongName(n) && v != ""
    requires st.args != [] && st.args[|st.args| - 1] == "--" + n + "=" + v && !Pending(st.filling)
    ensures OptionUse(tree, a, o, true, "--" + n + "=" + v) == NamedWith(a, o, true)
    ensures Enabled(tree, st, NamedWith(a, o, true))
    ensures var r := Apply(tree, st, NamedWith(a, o, true));
            && r.args == st.args[..|st.args| - 1]
            && r.results[a][o] == st.results[a][o] + [v]
            && (forall b :: 0 <= b < |tree| && b != a ==> r.results[b] == st.results[b])
            && forall k :: 0 <= k < |tree[a].options| && k != o ==> r.results[a][k] == st.results[a][k]
  {
    LongTokenSplits(n, v);
    FirstNamedIsFound(tree, a, o, true, n);
    ResultIsAdded(st, a, o, v);
  }

  /** `-cvalue` records the value at an option that takes values. */
  lemma AttachedShortValue(tree: Tree, st: State, a: nat, o: nat, c: char, v: string)
    requires WellFormed(tree) && Fits(tree, st) && FirstNamed(tree, a, o, false, [c]) && LetterOrUnderscore(c)
             && v != ""
    requires st.args != [] && st.args[|st.args| - 1] == "-" + [c] + v && !Pending(st.filling)
    requires tree[a].options[o].expected != 0
    ensures OptionUse(tree, a, o, false, "-" + [c] + v) == NamedWith(a, o, false)
    ensures Enabled(tree, st, NamedWith(a, o, false))
    ensures var r := Apply(tree, st, NamedWith(a, o, false));
            && r.args == st.args[..|st.args| - 1]
            && r.results[a][o] == st.results[a][o] + [v]
  {
    ShortTokenSplits(c, v);
    FirstNamedIsFound(tree, a, o, false, [c]);
    ResultIsAdded(st, a, o, v);
  }

  /** `-crest` at an option without values records the flag and leaves `-rest`. */
  lemma ClusterLeavesRest(tree: Tree, st: State, a: nat, o: nat, c: char, rest: string)
    requires WellFormed(tree) && Fits(tree, st) && FirstNamed(tree, a, o, false, [c]) && LetterOrUnderscore(c)
             && rest != ""
    requires st.args != [] && st.args[|st.args| - 1] == "-" + [c] + rest && !Pending(st.filling)
    requires tree[a].options[o].expected == 0
    ensures OptionUse(tree, a, o, false, "-" + [c] + rest) == ClusterFlag(a, o)
    ensures Enabled(tree, st, ClusterFlag(a, o))
    ensures var r := Apply(tree, st, ClusterFlag(a, o));
            && r.args == st.args[..|st.args| - 1] + ["-" + rest]
            && r.results[a][o] == st.results[a][o] + [""]
  {
    ShortTokenSplits(c, rest);
    FirstNamedIsFound(tree, a, o, false, [c]);
    ResultIsAdded(st, a, o, "");
  }

  /** In an explained run that begins with `--name=value` the value is the first thing recorded at the option. */
  lemma AttachedValueInRun(tree: Tree, s: State, log: seq<Use>, t: State, a: nat, o: nat, n: string, v: string)
    requires WellFormed(tree) && Fits(tree, s) && Explained(tree, s, log, t)
    requires FirstNamed(tree, a, o, true, n) && LongName(n) && v != ""
    requires log != [] && log[0] == NamedWith(a, o, true) && s.args != [] && s.args[|s.args| - 1] == "--" + n + "=" + v
    ensures Fits(tree, t) && s.results[a][o] + [v] <= t.results[a][o]
    ensures RecordedAt(tree, s, log, AtOption(a, o)) != [] && RecordedAt(tree, s, log, AtOption(a, o))[0] == v
  {
    ExplainedHead(tree, s, log, t);
    LongTokenSplits(n, v);
    RunRecords(tree, s, log, t, AtOption(a, o));
    var rest := RecordedAt(tree, Apply(tree, s, log[0]), log[1..], AtOption(a, o));
    assert RecordedAt(tree, s, log, AtOption(a, o)) == [v] + rest;
    assert t.results[a][o] == s.results[a][o] + ([v] + rest);
  }

  // ---------------------------------------------------------------- subcommands and classes

  /** The app and those above it. */
  function Upwards(tree: Tree, a: nat): seq<nat>
    requires WellFormed(tree) && a < |tree|
    ensures forall b :: b in Upwards(tree, a) ==> b < |tree|
    decreases a
  {
    [a] + if tree[a].parent.Just? then Upwards(tree, tree[a].parent.value) else []
  }

  /** The app may still take a subcommand, and has one of that name that was not parsed yet. */
  predicate Offers(tree: Tree, st: State, b: nat, t: string)
    requires WellFormed(tree) && Fits(tree, st) && b < |tree|
  {
    && (tree[b].maxSubcommands == 0 || |st.chosen[b]| < tree[b].maxSubcommands)
    && exists i :: 0 <= i < |tree[b].subcommands|
                && tree[tree[b].subcommands[i]].name == t && !st.parsed[tree[b].subcommands[i]]
  }

  /** A token is a subcommand exactly if the app or one above it offers it. */
  lemma {:induction false} SubcommandIff(tree: Tree, st: State, a: nat, t: string)
    requires WellFormed(tree) && Fits(tree, st) && a < |tree|
    ensures ValidSubcommand(tree, st, a, t) <==> exists b :: b in Upwards(tree, a) && Offers(tree, st, b, t)
    decreases a
  {
    if tree[a].parent.Just? { SubcommandIff(tree, st, tree[a].parent.value, t); }
    assert a in Upwards(tree, a);
    assert forall b :: b in Upwards(tree, a) <==>
             b == a || (tree[a].parent.Just? && b in Upwards(tree, tree[a].parent.value));
  }

  ghost predicate LongToken(t: string) {
    exists n: string, v: string :: LongName(n) && (t == "--" + n + "=" + v || t == "--" + n)
  }

  ghost predicate ShortToken(t: string) { exists c: char, r: string :: LetterOrUnderscore(c) && t == "-" + [c] + r }

  lemma LongIff(t: string)
    ensures SplitLong(t).Split? <==> LongToken(t)
  {
    LongTokenIs(t);
    if SplitLong(t).Split? {
      var x := SplitLong(t);
      assert LongName(x.name) && (t == "--" + x.name + "=" + x.rest || t == "--" + x.name);
    }
    if n: string, v: string :| LongName(n) && (t == "--" + n + "=" + v || t == "--" + n) { LongTokenSplits(n, v); }
  }

  lemma ShortIff(t: string)
    ensures SplitShort(t).Split? <==> ShortToken(t)
  {
    ShortTokenIs(t);
    if SplitShort(t).Split? {
      var x := SplitShort(t);
      assert [x.name[0]] == x.name;
      assert LetterOrUnderscore(x.name[0]) && t == "-" + [x.name[0]] + x.rest;
    }
    if c: char, r: string :| LetterOrUnderscore(c) && t == "-" + [c] + r { ShortTokenSplits(c, r); }
  }

  /** `--`, a subcommand on offer, a long option, a short option, or none of these, in this order. */
  lemma RecognizedAs(tree: Tree, st: State, a: nat, t: string)
    requires WellFormed(tree) && Fits(tree, st) && a < |tree|
    ensures var offered := exists b :: b in Upwards(tree, a) && Offers(tree, st, b, t);
            Recognize(tree, st, a, t) ==
              if t == "--" then Mark
              else if offered then Subcommand
              else if LongToken(t) then Long
              else if ShortToken(t) then Short
              else Plain
  {
    SubcommandIff(tree, st, a, t);
    LongIff(t);
    ShortIff(t);
  }
}
