/**
  The consuming loop of the command-line parser: an app tree, a stack of arguments (the next one is the last
  element), and the results, missing arguments and parsed subcommands the loop writes.
*/
module CommandParser {

  datatype Maybe<T> = Nothing | Just(value: T)

  datatype Opt = Opt(shortNames: seq<string>, longNames: seq<string>, positional: bool, required: bool, expected: int)
  datatype App = App(name: string, parent: Maybe<nat>, options: seq<Opt>, subcommands: seq<nat>,
                     fallthrough: bool, prefixCommand: bool, maxSubcommands: nat)
  type Tree = seq<App>

  /** Parents come before their children. */
  ghost predicate WellFormed(tree: Tree) {
    forall a :: 0 <= a < |tree| ==>
      && (tree[a].parent.Just? ==> tree[a].parent.value < a)
      && (forall i :: 0 <= i < |tree[a].subcommands| ==> a < tree[a].subcommands[i] < |tree|)
  }

  datatype Class = Mark | Subcommand | Long | Short | Plain

  /** The option whose values are being read, how many a fixed-size option still has to take, how many it took. */
  datatype Filling = Idle | Filling(app: nat, opt: nat, left: nat, taken: nat)

  datatype State = State(args: seq<string>, results: seq<seq<seq<string>>>, missing: seq<seq<(Class, string)>>,
                         parsed: seq<bool>, chosen: seq<seq<nat>>, filling: Filling)

  ghost predicate Fits(tree: Tree, st: State) {
    && |st.results| == |st.missing| == |st.parsed| == |st.chosen| == |tree|
    && forall a :: 0 <= a < |tree| ==> |st.results[a]| == |tree[a].options|
  }

  // ---------------------------------------------------------------- splitting and recognising

  predicate FirstChar(c: char) { 'a' <= c <= 'z' || 'A' <= c <= 'Z' || c == '_' }

  function FindEquals(s: string, i: nat): (r: nat)
    requires i <= |s|
    ensures i <= r <= |s| && (r < |s| ==> s[r] == '=')
    decreases |s| - i
  {
    if i == |s| || s[i] == '=' then i else FindEquals(s, i + 1)
  }

  datatype Split = Split(name: string, rest: string) | NotAnOption

  function SplitShort(t: string): Split {
    if |t| > 1 && t[0] == '-' && FirstChar(t[1]) then Split(t[1..2], t[2..]) else NotAnOption
  }

  function SplitLong(t: string): Split {
    if |t| > 2 && t[..2] == "--" && FirstChar(t[2]) then
      var loc := FindEquals(t, 2);
      Split(t[2..loc], if loc < |t| then t[loc + 1..] else "")
    else NotAnOption
  }

  function SplitAs(second: bool, t: string): Split { if second then SplitLong(t) else SplitShort(t) }

  /** The first option from `i` on that has the name. */
  function FindOption(opts: seq<Opt>, second: bool, name: string, i: nat): Maybe<nat>
    requires i <= |opts|
    ensures FindOption(opts, second, name, i).Just? ==> i <= FindOption(opts, second, name, i).value < |opts|
    decreases |opts| - i
  {
    if i == |opts| then Nothing
    else if name in (if second then opts[i].longNames else opts[i].shortNames) then Just(i)
    else FindOption(opts, second, name, i + 1)
  }

  predicate ValidSubcommand(tree: Tree, st: State, a: nat, t: string)
    requires WellFormed(tree) && Fits(tree, st) && a < |tree|
    decreases a
  {
    || (!(tree[a].maxSubcommands != 0 && |st.chosen[a]| >= tree[a].maxSubcommands)
        && exists i :: 0 <= i < |tree[a].subcommands|
             && tree[tree[a].subcommands[i]].name == t && !st.parsed[tree[a].subcommands[i]])
    || (tree[a].parent.Just? && ValidSubcommand(tree, st, tree[a].parent.value, t))
  }

  function Recognize(tree: Tree, st: State, a: nat, t: string): Class
    requires WellFormed(tree) && Fits(tree, st) && a < |tree|
  {
    if t == "--" then Mark
    else if ValidSubcommand(tree, st, a, t) then Subcommand
    else if SplitLong(t).Split? then Long
    else if SplitShort(t).Split? then Short
    else Plain
  }

  predicate Open(o: Opt, count: nat) { o.positional && (count < o.expected || o.expected < 0) }

  /** The first positional option of the app, from `i` on, that takes another value. */
  function FirstOpen(opts: seq<Opt>, results: seq<seq<string>>, i: nat): Maybe<nat>
    requires |opts| == |results| && i <= |opts|
    ensures FirstOpen(opts, results, i).Just? ==> i <= FirstOpen(opts, results, i).value < |opts|
    decreases |opts| - i
  {
    if i == |opts| then Nothing else if Open(opts[i], |results[i]|) then Just(i) else FirstOpen(opts, results, i + 1)
  }

  /** A positional option of fixed size (a required one, if asked for) still misses values. */
  predicate Wanting(opts: seq<Opt>, results: seq<seq<string>>, required: bool)
    requires |opts| == |results|
  {
    exists i :: 0 <= i < |opts| && Wants(opts[i], |results[i]|, required)
  }

  predicate Wants(o: Opt, count: nat, required: bool) {
    o.positional && (!required || o.required) && o.expected > 0 && count < o.expected
  }

  /** How many values the last wanting one of the first `n` options still misses; not the sum over all of them. */
  function LastMiss(opts: seq<Opt>, results: seq<seq<string>>, required: bool, n: nat): (r: nat)
    requires |opts| == |results| && n <= |opts|
  {
    if n == 0 then 0
    else if Wants(opts[n - 1], |results[n - 1]|, required) then opts[n - 1].expected - |results[n - 1]|
    else LastMiss(opts, results, required, n - 1)
  }

  /** A positional, required if that is asked, that has fewer values than it expects. */
  predicate Misses(o: Opt, count: nat, required: bool) {
    o.positional && (required ==> o.required) && count < o.expected
  }

  /** A positive count is what one wanting option misses, and no option after it is wanting; 0 means that none is. */
  lemma {:induction false} LastMissIs(opts: seq<Opt>, results: seq<seq<string>>, required: bool, n: nat)
    requires |opts| == |results| && n <= |opts|
    ensures var r := LastMiss(opts, results, required, n);
            if r == 0 then forall k :: 0 <= k < n ==> !Misses(opts[k], |results[k]|, required)
            else exists k :: 0 <= k < n && Misses(opts[k], |results[k]|, required)
                          && r == opts[k].expected - |results[k]|
                          && forall j :: k < j < n ==> !Misses(opts[j], |results[j]|, required)
  {
    if n != 0 && !Wants(opts[n - 1], |results[n - 1]|, required) { LastMissIs(opts, results, required, n - 1); }
  }

  lemma MissesIff(opts: seq<Opt>, results: seq<seq<string>>, required: bool)
    requires |opts| == |results|
    ensures LastMiss(opts, results, required, |opts|) > 0 <==> Wanting(opts, results, required)
  {
    LastMissIs(opts, results, required, |opts|);
  }

  /** The first subcommand of that name from `i` on. */
  function FindSubcommand(tree: Tree, a: nat, t: string, i: nat): Maybe<nat>
    requires WellFormed(tree) && a < |tree| && i <= |tree[a].subcommands|
    ensures FindSubcommand(tree, a, t, i).Just? ==> a < FindSubcommand(tree, a, t, i).value < |tree|
    ensures FindSubcommand(tree, a, t, i).Nothing? ==>
              forall k :: i <= k < |tree[a].subcommands| ==> tree[tree[a].subcommands[k]].name != t
    decreases |tree[a].subcommands| - i
  {
    if i == |tree[a].subcommands| then Nothing
    else if tree[tree[a].subcommands[i]].name == t then Just(tree[a].subcommands[i])
    else FindSubcommand(tree, a, t, i + 1)
  }

  // ---------------------------------------------------------------- what one argument is used for

  /** A use takes the next argument; only the first flag of a cluster leaves something of it. */
  datatype Use =
    | Noted(app: nat)                                // `--`, kept as missing
    | Missed(app: nat, kind: Class)                 // not for this app
    | Entered(app: nat, com: nat)                    // a subcommand name
    | Named(app: nat, opt: nat, long: bool)          // an option name, values follow
    | NamedWith(app: nat, opt: nat, long: bool)      // `--name=value` or `-nvalue`
    | Flag(app: nat, opt: nat, long: bool)           // an option without values
    | ClusterFlag(app: nat, opt: nat)                // `-abc`, leaving `-bc`
    | Item(app: nat, opt: nat)                       // a value of the option that was named
    | Positional(app: nat, opt: nat)
    | Ended                                          // `--` after an unlimited option

  predicate Pending(f: Filling) { f.Filling? && f.left > 0 }

  predicate Stays(tree: Tree, a: nat)
    requires a < |tree|
  {
    tree[a].parent.Nothing? || !tree[a].fallthrough
  }

  predicate NamesOption(tree: Tree, a: nat, o: nat, long: bool, t: string)
    requires a < |tree|
  {
    && o < |tree[a].options| && SplitAs(long, t).Split?
    && FindOption(tree[a].options, long, SplitAs(long, t).name, 0) == Just(o)
  }

  /** The use that a token naming option `o` is put to. */
  function OptionUse(tree: Tree, a: nat, o: nat, long: bool, t: string): Use
    requires a < |tree| && o < |tree[a].options| && SplitAs(long, t).Split?
  {
    var attached, flag := SplitAs(long, t).rest != "", tree[a].options[o].expected == 0;
    if attached && (long || !flag) then NamedWith(a, o, long)
    else if attached then ClusterFlag(a, o)
    else if flag then Flag(a, o, long)
    else Named(a, o, long)
  }

  predicate Enabled(tree: Tree, st: State, u: Use)
    requires WellFormed(tree) && Fits(tree, st)
  {
    st.args != [] && var t := st.args[|st.args| - 1];
    && (u.Ended? || u.app < |tree|)
    && (Pending(st.filling) ==> u.Item?)
    && match u
       case Noted(_) => t == "--"
       case Missed(a, c) =>
         if c.Long? || c.Short? then
           && SplitAs(c.Long?, t).Split? && Stays(tree, a)
           && FindOption(tree[a].options, c.Long?, SplitAs(c.Long?, t).name, 0).Nothing?
         else
           c.Plain? && ((FirstOpen(tree[a].options, st.results[a], 0).Nothing? && Stays(tree, a)) || tree[a].prefixCommand)
       case Entered(a, com) => FindSubcommand(tree, a, t, 0) == Just(com)
       case Named(a, o, long) =>
         NamesOption(tree, a, o, long, t) && SplitAs(long, t).rest == "" && tree[a].options[o].expected != 0
       case NamedWith(a, o, long) =>
         NamesOption(tree, a, o, long, t) && SplitAs(long, t).rest != "" && (long || tree[a].options[o].expected != 0)
       case Flag(a, o, long) =>
         NamesOption(tree, a, o, long, t) && SplitAs(long, t).rest == "" && tree[a].options[o].expected == 0
       case ClusterFlag(a, o) =>
         NamesOption(tree, a, o, false, t) && SplitShort(t).rest != "" && tree[a].options[o].expected == 0
       case Item(a, o) =>
         && o < |tree[a].options| && st.filling.Filling? && st.filling.app == a && st.filling.opt == o
         && (st.filling.left > 0
             || (tree[a].options[o].expected < 0 && Recognize(tree, st, a, t).Plain?
                 && !(st.filling.taken >= -tree[a].options[o].expected && Wanting(tree[a].options, st.results[a], false))))
       case Positional(a, o) => FirstOpen(tree[a].options, st.results[a], 0) == Just(o)
       case Ended =>
         && st.filling.Filling? && st.filling.app < |tree| && st.filling.opt < |tree[st.filling.app].options|
         && tree[st.filling.app].options[st.filling.opt].expected < 0 && t == "--"
  }

  /** The value the use records, if any. */
  function Recorded(u: Use, t: string): Maybe<string> {
    match u
    case Noted(_) => Just(t)
    case Missed(_, _) => Just(t)
    case NamedWith(_, _, long) => Just(if SplitAs(long, t).Split? then SplitAs(long, t).rest else "")
    case Flag(_, _, _) => Just("")
    case ClusterFlag(_, _) => Just("")
    case Item(_, _) => Just(t)
    case Positional(_, _) => Just(t)
    case _ => Nothing
  }

  function AddResult(st: State, a: nat, o: nat, v: string): State
    requires a < |st.results| && o < |st.results[a]|
  {
    st.(results := st.results[a := st.results[a][o := st.results[a][o] + [v]]])
  }

  function AddMissing(st: State, a: nat, c: Class, t: string): State
    requires a < |st.missing|
  {
    st.(missing := st.missing[a := st.missing[a] + [(c, t)]])
  }

  function Count(n: int): nat { if n > 0 then n else 0 }

  function Apply(tree: Tree, st: State, u: Use): (r: State)
    requires WellFormed(tree) && Fits(tree, st) && Enabled(tree, st, u)
    ensures Fits(tree, r)
  {
    var n := |st.args| - 1;
    var t := st.args[n];
    var popped := st.(args := st.args[..n], filling := Idle);
    match u
    case Noted(a) => AddMissing(popped, a, Mark, t)
    case Missed(a, c) => AddMissing(popped, a, c, t)
    case Entered(a, com) =>
      popped.(chosen := st.chosen[a := if com in st.chosen[a] then st.chosen[a] else st.chosen[a] + [com]],
              parsed := st.parsed[com := true])
    case Named(a, o, _) => popped.(filling := Filling(a, o, Count(tree[a].options[o].expected), 0))
    case NamedWith(a, o, long) =>
      AddResult(popped.(filling := Filling(a, o, Count(tree[a].options[o].expected - 1), 1)), a, o, SplitAs(long, t).rest)
    case Flag(a, o, _) => AddResult(popped, a, o, "")
    case ClusterFlag(a, o) => AddResult(popped.(args := st.args[..n] + ["-" + SplitShort(t).rest]), a, o, "")
    case Item(a, o) =>
      AddResult(popped.(filling := Filling(a, o, Count(st.filling.left - 1), st.filling.taken + 1)), a, o, t)
    case Positional(a, o) => AddResult(popped, a, o, t)
    case Ended => popped
  }

  ghost function Next(tree: Tree): (State, Use) -> Maybe<State> {
    (st, u) => if WellFormed(tree) && Fits(tree, st) && Enabled(tree, st, u) then Just(Apply(tree, st, u)) else Nothing
  }

  /** A partial step function leads from one state to the other along the labels. */
  ghost predicate Chain<S(!new), U(!new)>(next: (S, U) -> Maybe<S>, s: S, log: seq<U>, t: S)
    decreases |log|
  {
    if log == [] then s == t else next(s, log[0]).Just? && Chain(next, next(s, log[0]).value, log[1..], t)
  }

  lemma {:induction false} ChainAppend<S(!new), U(!new)>(next: (S, U) -> Maybe<S>,
                                                         s: S, l1: seq<U>, t: S, l2: seq<U>, u: S)
    requires Chain(next, s, l1, t) && Chain(next, t, l2, u)
    ensures Chain(next, s, l1 + l2, u)
    decreases |l1|
  {
    if l1 == [] {
      assert l1 + l2 == l2;
    } else {
      ChainAppend(next, next(s, l1[0]).value, l1[1..], t, l2, u);
      assert (l1 + l2)[1..] == l1[1..] + l2;
    }
  }

  /** The uses lead from one state to the other, each one justified where it happens. */
  ghost predicate Explained(tree: Tree, s: State, log: seq<Use>, t: State) { Chain(Next(tree), s, log, t) }

  lemma ExplainedAppend(tree: Tree, s: State, l1: seq<Use>, t: State, l2: seq<Use>, u: State)
    requires Explained(tree, s, l1, t) && Explained(tree, t, l2, u)
    ensures Explained(tree, s, l1 + l2, u)
  {
    ChainAppend(Next(tree), s, l1, t, l2, u);
  }

  lemma ExplainedOne(tree: Tree, s: State, u: Use)
    requires WellFormed(tree) && Fits(tree, s) && Enabled(tree, s, u)
    ensures Explained(tree, s, [u], Apply(tree, s, u))
  {
    assert [u][1..] == [];
    assert Next(tree)(s, u) == Just(Apply(tree, s, u));
  }

  lemma ExplainedSnoc(tree: Tree, s: State, log: seq<Use>, t: State, u: Use)
    requires Explained(tree, s, log, t) && WellFormed(tree) && Fits(tree, t) && Enabled(tree, t, u)
    ensures Explained(tree, s, log + [u], Apply(tree, t, u))
  {
    ExplainedOne(tree, t, u);
    ExplainedAppend(tree, s, log, t, [u], Apply(tree, t, u));
  }

  lemma ExplainedHead(tree: Tree, s: State, log: seq<Use>, t: State)
    requires Explained(tree, s, log, t) && log != []
    ensures WellFormed(tree) && Fits(tree, s) && Enabled(tree, s, log[0])
    ensures Fits(tree, Apply(tree, s, log[0])) && Explained(tree, Apply(tree, s, log[0]), log[1..], t)
  {
    assert Next(tree)(s, log[0]).Just?;
  }

  /** Every argument counts its length and one more. */
  function Measure(args: seq<string>): nat
    decreases |args|
  {
    if args == [] then 0 else Measure(args[..|args| - 1]) + |args[|args| - 1]| + 1
  }

  lemma UseShrinks(tree: Tree, st: State, u: Use)
    requires WellFormed(tree) && Fits(tree, st) && Enabled(tree, st, u)
    ensures Measure(Apply(tree, st, u).args) < Measure(st.args)
  {
    if u.ClusterFlag? {
      var n := |st.args| - 1;
      var after := Apply(tree, st, u).args;
      assert after[..n] == st.args[..n];
    }
  }
}
