/**
  The parser as it runs: mutually recursive methods over the argument stack. Each returns the uses it made of the
  arguments; together they explain its whole effect.
*/
module CommandParserLoop {
  import opened CommandParser

  class Parser {
    const tree: Tree
    var args: seq<string>
    var results: seq<seq<seq<string>>>
    var missing: seq<seq<(Class, string)>>
    var parsed: seq<bool>
    var chosen: seq<seq<nat>>
    ghost var filling: Filling

    ghost function Snapshot(): State
      reads this
    {
      State(args, results, missing, parsed, chosen, filling)
    }

    ghost predicate Valid()
      reads this
    {
      WellFormed(tree) && Fits(tree, Snapshot())
    }

    constructor (tree: Tree, args: seq<string>)
      requires WellFormed(tree)
      ensures Valid() && this.tree == tree && this.args == args && filling == Idle
      ensures forall a :: 0 <= a < |tree| ==> missing[a] == [] && chosen[a] == [] && !parsed[a]
      ensures forall a, o :: 0 <= a < |tree| && 0 <= o < |tree[a].options| ==> results[a][o] == []
    {
      this.tree, this.args := tree, args;
      results := seq(|tree|, a requires 0 <= a < |tree| => seq(|tree[a].options|, o => []));
      missing, chosen := seq(|tree|, a => []), seq(|tree|, a => []);
      parsed := seq(|tree|, a => false);
      filling := Idle;
    }

    // ---------------------------------------------------------------- elementary steps

    method Pop() returns (t: string)
      requires args != []
      modifies this`args
      ensures t == old(args[|args| - 1]) && args == old(args[..|args| - 1])
    {
      t := args[|args| - 1];
      args := args[..|args| - 1];
    }

    method AddResult(a: nat, o: nat, v: string)
      requires a < |results| && o < |results[a]|
      modifies this`results
      ensures results == old(results)[a := old(results)[a][o := old(results)[a][o] + [v]]]
    {
      results := results[a := results[a][o := results[a][o] + [v]]];
    }

    method CountRemaining(a: nat, required: bool) returns (n: nat)
      requires Valid() && a < |tree|
      ensures n > 0 <==> Wanting(tree[a].options, results[a], required)
      ensures n == LastMiss(tree[a].options, results[a], required, |tree[a].options|)
    {
      n := 0;
      var opts := tree[a].options;
      var i := 0;
      while i < |opts|
        invariant 0 <= i <= |opts|
        invariant n == LastMiss(opts, results[a], required, i)
      {
        if Wants(opts[i], |results[a][i]|, required) { n := opts[i].expected - |results[a][i]|; }
        i := i + 1;
      }
      MissesIff(opts, results[a], required);
    }

    function Recognized(a: nat, t: string): Class
      requires Valid() && a < |tree|
      reads this
    {
      Recognize(tree, State(args, results, missing, parsed, chosen, Idle), a, t)
    }

    // ---------------------------------------------------------------- positionals

    method ParsePositional(a: nat) returns (ghost log: seq<Use>)
      requires Valid() && a < |tree| && args != [] && !Pending(filling)
      modifies this
      ensures Valid() && Explained(tree, old(Snapshot()), log, Snapshot())
      ensures !Pending(filling) && Measure(args) < Measure(old(args))
      decreases a
    {
      ghost var s := Snapshot();
      var opts := tree[a].options;
      var i := 0;
      while i < |opts| && !Open(opts[i], |results[a][i]|)
        invariant 0 <= i <= |opts| && FirstOpen(opts, results[a], i) == FirstOpen(opts, results[a], 0)
      {
        i := i + 1;
      }
      if i < |opts| {
        ghost var u := Positional(a, i);
        ExplainedOne(tree, s, u);
        UseShrinks(tree, s, u);
        AddResult(a, i, args[|args| - 1]);
        var t := Pop();
        filling := Idle;
        log := [u];
      } else if tree[a].parent.Just? && tree[a].fallthrough {
        log := ParsePositional(tree[a].parent.value);
      } else {
        log := [Missed(a, Plain)];
        ExplainedOne(tree, s, Missed(a, Plain));
        UseShrinks(tree, s, Missed(a, Plain));
        Miss(a, Plain);
        ghost var s1 := Snapshot();
        if tree[a].prefixCommand {
          ghost var rest := MissRest(a);
          ExplainedAppend(tree, s, log, s1, rest, Snapshot());
          log := log + rest;
        }
      }
    }

    /** The next argument is nothing this app knows. */
    method Miss(a: nat, kind: Class)
      requires Valid() && a < |tree| && Enabled(tree, Snapshot(), Missed(a, kind))
      modifies this`args, this`missing, this`filling
      ensures Valid() && Snapshot() == Apply(tree, old(Snapshot()), Missed(a, kind))
    {
      var t := Pop();
      missing := missing[a := missing[a] + [(kind, t)]];
      filling := Idle;
    }

    /** Everything after a prefix command is kept as it is. */
    method MissRest(a: nat) returns (ghost log: seq<Use>)
      requires Valid() && a < |tree| && tree[a].prefixCommand && !Pending(filling)
      modifies this`args, this`missing, this`filling
      ensures Valid() && Explained(tree, old(Snapshot()), log, Snapshot())
      ensures !Pending(filling) && args == []
    {
      log := [];
      ghost var s := Snapshot();
      while args != []
        invariant Valid() && !Pending(filling) && Explained(tree, s, log, Snapshot())
        decreases |args|
      {
        ExplainedSnoc(tree, s, log, Snapshot(), Missed(a, Plain));
        Miss(a, Plain);
        log := log + [Missed(a, Plain)];
      }
    }

    // ---------------------------------------------------------------- options

    /** Takes the number of values a fixed-size option still needs; fails when the arguments run out. */
    method FillFixed(a: nat, o: nat, count: nat) returns (ok: bool, ghost log: seq<Use>)
      requires Valid() && a < |tree| && o < |tree[a].options|
      requires filling.Filling? && filling.app == a && filling.opt == o && filling.left == count
      modifies this`args, this`results, this`filling
      ensures Valid() && Explained(tree, old(Snapshot()), log, Snapshot())
      ensures Measure(args) <= Measure(old(args)) && ok == !Pending(filling) && (!ok ==> args == [])
    {
      log := [];
      ghost var s := Snapshot();
      var num := count;
      while num > 0 && args != []
        invariant Valid() && Explained(tree, s, log, Snapshot()) && Measure(args) <= Measure(s.args)
        invariant filling.Filling? && filling.app == a && filling.opt == o && filling.left == num
      {
        num := num - 1;
        ExplainedSnoc(tree, s, log, Snapshot(), Item(a, o));
        UseShrinks(tree, Snapshot(), Item(a, o));
        Take(a, o);
        log := log + [Item(a, o)];
      }
      ok := num == 0;
    }

    /** The next argument is a value of the option being read. */
    method Take(a: nat, o: nat)
      requires Valid() && a < |tree| && Enabled(tree, Snapshot(), Item(a, o))
      modifies this`args, this`results, this`filling
      ensures Valid() && Snapshot() == Apply(tree, old(Snapshot()), Item(a, o))
    {
      var t := Pop();
      AddResult(a, o, t);
      filling := Filling(a, o, Count(filling.left - 1), filling.taken + 1);
    }

    /** Takes plain arguments, at least the minimum, until a positional wants one; a final `--` is eaten. */
    method FillUnlimited(a: nat, o: nat, already: nat) returns (ghost log: seq<Use>)
      requires Valid() && a < |tree| && o < |tree[a].options| && tree[a].options[o].expected < 0
      requires filling == Filling(a, o, 0, already)
      modifies this`args, this`results, this`filling
      ensures Valid() && Explained(tree, old(Snapshot()), log, Snapshot())
      ensures Measure(args) <= Measure(old(args)) && !Pending(filling)
    {
      log := [];
      ghost var s := Snapshot();
      var collected: nat := already;
      var more := MoreValues(a, o, collected);
      while more
        invariant Valid() && Explained(tree, s, log, Snapshot()) && Measure(args) <= Measure(s.args)
        invariant filling == Filling(a, o, 0, collected) && more == Enabled(tree, Snapshot(), Item(a, o))
        decreases Measure(args)
      {
        ExplainedSnoc(tree, s, log, Snapshot(), Item(a, o));
        UseShrinks(tree, Snapshot(), Item(a, o));
        Take(a, o);
        log := log + [Item(a, o)];
        collected := collected + 1;
        more := MoreValues(a, o, collected);
      }
      ghost var s1 := Snapshot();
      ghost var end := EndUnlimited(a, o);
      ExplainedAppend(tree, s, log, s1, end, Snapshot());
      log := log + end;
    }

    /** A plain argument is next, and the minimum is not reached or no positional wants it. */
    method MoreValues(a: nat, o: nat, collected: nat) returns (more: bool)
      requires Valid() && a < |tree| && o < |tree[a].options| && tree[a].options[o].expected < 0
      requires filling == Filling(a, o, 0, collected)
      ensures more == Enabled(tree, Snapshot(), Item(a, o))
    {
      if args == [] { return false; }
      SameRecognition(a, args[|args| - 1]);
      if !Recognized(a, args[|args| - 1]).Plain? { return false; }
      if collected < -tree[a].options[o].expected { return true; }
      var wanted := CountRemaining(a, false);
      more := wanted == 0;
    }

    method EndUnlimited(a: nat, o: nat) returns (ghost log: seq<Use>)
      requires Valid() && a < |tree| && o < |tree[a].options| && tree[a].options[o].expected < 0
      requires filling.Filling? && filling.app == a && filling.opt == o && !Pending(filling)
      modifies this`args, this`filling
      ensures Valid() && Explained(tree, old(Snapshot()), log, Snapshot())
      ensures Measure(args) <= Measure(old(args)) && !Pending(filling)
    {
      log := [];
      ghost var s := Snapshot();
      if args != [] && Recognized(a, args[|args| - 1]).Mark? {
        ExplainedOne(tree, s, Ended);
        UseShrinks(tree, s, Ended);
        var t := Pop();
        filling := Idle;
        log := [Ended];
      }
    }

    lemma SameRecognition(a: nat, t: string)
      requires Valid() && a < |tree|
      ensures Recognized(a, t) == Recognize(tree, Snapshot(), a, t)
    {
      SameSubcommands(a, t, State(args, results, missing, parsed, chosen, Idle));
    }

    lemma {:induction false} SameSubcommands(a: nat, t: string, st: State)
      requires Valid() && a < |tree| && Fits(tree, st) && st.parsed == parsed && st.chosen == chosen
      ensures ValidSubcommand(tree, st, a, t) == ValidSubcommand(tree, Snapshot(), a, t)
      decreases a
    {
      if tree[a].parent.Just? { SameSubcommands(tree[a].parent.value, t, st); }
    }

    /** An option name on top: the option takes what is attached and what follows, or the parent is asked. */
    method ParseArg(a: nat, second: bool) returns (ok: bool, ghost log: seq<Use>)
      requires Valid() && a < |tree| && args != [] && !Pending(filling)
      requires SplitAs(second, args[|args| - 1]).Split?
      modifies this
      ensures Valid() && Explained(tree, old(Snapshot()), log, Snapshot())
      ensures ok == !Pending(filling) && (ok ==> Measure(args) < Measure(old(args)))
      ensures var t := old(args[|args| - 1]);
              var found := FindOption(tree[a].options, second, SplitAs(second, t).name, 0);
              found.Just? ==> log != [] && log[0] == OptionUse(tree, a, found.value, second, t)
      decreases a
    {
      ghost var s := Snapshot();
      var split := SplitAs(second, args[|args| - 1]);
      var found := FindOption(tree[a].options, second, split.name, 0);
      if found.Nothing? {
        if tree[a].parent.Just? && tree[a].fallthrough {
          ok, log := ParseArg(tree[a].parent.value, second);
        } else {
          var kind := if second then Long else Short;
          log := [Missed(a, kind)];
          ExplainedOne(tree, s, Missed(a, kind));
          UseShrinks(tree, s, Missed(a, kind));
          Miss(a, kind);
          ok := true;
        }
        return;
      }
      var o := found.value;
      ghost var u := TakeOption(a, o, second);
      ExplainedOne(tree, s, u);
      UseShrinks(tree, s, u);
      ghost var s1, rest := Snapshot(), [];
      var num, taken := tree[a].options[o].expected, if split.rest != "" then 1 else 0;
      if num < 0 {
        rest := FillUnlimited(a, o, taken);
        ok := true;
      } else if num > 0 {
        ok, rest := FillFixed(a, o, if num > taken then num - taken else 0);
      } else {
        ok := true;
      }
      ExplainedAppend(tree, s, [u], s1, rest, Snapshot());
      log := [u] + rest;
    }

    /** The option name itself, with an attached value, as a flag, or as the first flag of a cluster. */
    method TakeOption(a: nat, o: nat, second: bool) returns (ghost u: Use)
      requires Valid() && a < |tree| && args != [] && !Pending(filling)
      requires SplitAs(second, args[|args| - 1]).Split?
      requires FindOption(tree[a].options, second, SplitAs(second, args[|args| - 1]).name, 0) == Just(o)
      modifies this`args, this`results, this`filling
      ensures Valid() && Enabled(tree, old(Snapshot()), u) && Snapshot() == Apply(tree, old(Snapshot()), u)
      ensures u == OptionUse(tree, a, o, second, old(args[|args| - 1]))
      ensures var rest, n := SplitAs(second, old(args[|args| - 1])).rest, tree[a].options[o].expected;
              && (n == 0 ==> !Pending(filling))
              && (n != 0 ==> filling == Filling(a, o, Count(n - if rest != "" then 1 else 0), if rest != "" then 1 else 0))
    {
      var num := tree[a].options[o].expected;
      var t := Pop();
      var split := SplitAs(second, t);
      if second && split.rest != "" {
        AddResult(a, o, split.rest);
        u := NamedWith(a, o, second);
        filling := Filling(a, o, Count(num - 1), 1);
      } else if num == 0 {
        AddResult(a, o, "");
        filling := Idle;
        if split.rest != "" {
          args := args + ["-" + split.rest];
          u := ClusterFlag(a, o);
        } else {
          u := Flag(a, o, second);
        }
      } else if split.rest != "" {
        AddResult(a, o, split.rest);
        u := NamedWith(a, o, second);
        filling := Filling(a, o, Count(num - 1), 1);
      } else {
        u := Named(a, o, second);
        filling := Filling(a, o, Count(num), 0);
      }
    }

    // ---------------------------------------------------------------- the loop

    /** The state in which app `a` starts parsing. */
    ghost function Started(st: State, a: nat): State
      requires a < |st.parsed|
    {
      st.(parsed := st.parsed[a := true])
    }

    /** `App::_parse`, up to the end of its loop: every argument is used, or an option of fixed size ran short. */
    method Parse(a: nat) returns (ok: bool, ghost log: seq<Use>)
      requires Valid() && a < |tree| && !Pending(filling)
      modifies this
      ensures Valid() && Explained(tree, Started(old(Snapshot()), a), log, Snapshot())
      ensures ok == !Pending(filling) && (ok ==> args == [])
      decreases Measure(args), 3, 0
    {
      parsed := parsed[a := true];
      ghost var s := Snapshot();
      ok, log := true, [];
      var positionalOnly := false;
      while args != []
        invariant Valid() && !Pending(filling) && Explained(tree, s, log, Snapshot()) && Measure(args) <= Measure(s.args)
        decreases Measure(args)
      {
        ghost var s1, more := Snapshot(), [];
        ok, positionalOnly, more := ParseSingle(a, positionalOnly);
        ExplainedAppend(tree, s, log, s1, more, Snapshot());
        log := log + more;
        if !ok { return; }
      }
    }

    method ParseSingle(a: nat, positionalOnly: bool) returns (ok: bool, only: bool, ghost log: seq<Use>)
      requires Valid() && a < |tree| && args != [] && !Pending(filling)
      modifies this
      ensures Valid() && Explained(tree, old(Snapshot()), log, Snapshot())
      ensures ok == !Pending(filling) && (ok ==> Measure(args) < Measure(old(args)))
      decreases Measure(args), 2, 0
    {
      ghost var s := Snapshot();
      var t := args[|args| - 1];
      var kind := if positionalOnly then Plain else Recognized(a, t);
      SameRecognition(a, t);
      ok, only := true, positionalOnly;
      match kind
      case Mark =>
        log := [Noted(a)];
        ExplainedOne(tree, s, Noted(a));
        UseShrinks(tree, s, Noted(a));
        t := Pop();
        missing := missing[a := missing[a] + [(Mark, t)]];
        filling := Idle;
        only := true;
      case Subcommand => ok, log := ParseSubcommand(a);
      case Long => ok, log := ParseArg(a, true);
      case Short => ok, log := ParseArg(a, false);
      case Plain => log := ParsePositional(a);
    }

    /** The subcommand is found in the app or above it: the search cannot fail. */
    method ParseSubcommand(a: nat) returns (ok: bool, ghost log: seq<Use>)
      requires Valid() && a < |tree| && args != [] && !Pending(filling)
      requires ValidSubcommand(tree, Snapshot(), a, args[|args| - 1])
      modifies this
      ensures Valid() && Explained(tree, old(Snapshot()), log, Snapshot())
      ensures ok == !Pending(filling) && (ok ==> Measure(args) < Measure(old(args)))
      decreases Measure(args), 1, a
    {
      var wanted := CountRemaining(a, true);
      if wanted > 0 {
        log := ParsePositional(a);
        ok := true;
        return;
      }
      ghost var s := Snapshot();
      var found := FindSubcommand(tree, a, args[|args| - 1], 0);
      if found.Nothing? {
        ok, log := ParseSubcommand(tree[a].parent.value);
        return;
      }
      var com := found.value;
      ghost var u := Entered(a, com);
      ExplainedOne(tree, s, u);
      UseShrinks(tree, s, u);
      var t := Pop();
      filling := Idle;
      if com !in chosen[a] { chosen := chosen[a := chosen[a] + [com]]; }
      assert Started(Snapshot(), com) == Apply(tree, s, u);
      ghost var rest;
      ok, rest := Parse(com);
      ExplainedAppend(tree, s, [u], Apply(tree, s, u), rest, Snapshot());
      log := [u] + rest;
    }
  }
}
