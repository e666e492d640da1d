/**
  What generation fills in. Every key that is bound keeps its binding, up to the generation below it; every missing key
  that an argument supplies gets that argument's default, constant, path or null, with the flags it is due; no other
  key appears.
*/
module GenerationFills {
  import opened Markers
  import opened Paths
  import opened Values
  import opened Identity
  import opened GenerationTheorems
  import J = ValueJson

  // ---------------------------------------------------------------- the text of a generated path

  function GeneratedText(workspace: Path, task: Option<string>, identifier: string, name: string): string {
    (if workspace.share == "" then "" else workspace.share + ":")
    + (if workspace.path == "/" then "" else workspace.path) + "/jobs"
    + (match task case None => "" case Some(t) => "/" + t)
    + "/" + identifier + if name == "" then "" else "/" + name
  }

  lemma BelowDirectory(dir: Path, id: string, name: string)
    requires |dir.path| > 1
    ensures var r := Named(Slash(dir, id), name);
            r.share == dir.share && r.path == dir.path + "/" + id + if name == "" then "" else "/" + name
  {
    SlashShape(dir, id);
    assert |Slash(dir, id).path| > 1;
    if name != "" { SlashShape(Slash(dir, id), name); }
  }

  lemma TaskDirectory(workspace: Path, task: Option<string>)
    ensures var jobs := JobsDir(workspace);
            var dir := match task case None => jobs case Some(t) => Slash(jobs, t);
            && dir.share == workspace.share && |dir.path| > 1
            && dir.path == (if workspace.path == "/" then "" else workspace.path) + "/jobs"
                           + match task case None => "" case Some(t) => "/" + t
  {
    SlashShape(workspace, "jobs");
    if task.Some? { SlashShape(JobsDir(workspace), task.value); }
  }

  lemma Regrouped(prefix: string, up: string, below: string, id: string, last: string)
    ensures prefix + (up + "/jobs" + below + "/" + id + last) == prefix + up + "/jobs" + below + "/" + id + last
  {
  }

  /** The path a generator gives is the directory of the root value, with the generator's name below it. */
  lemma PathHasText(w: World, root: Value, name: string)
    requires root.MapValue?
    ensures PathValue(Directory(w, root).value, name) ==
              ScalarValue(PathText(GeneratedText(w.workspace, root.task, Identifier(w.h, root), name)), PLAIN)
  {
    var id := Identifier(w.h, root);
    TaskDirectory(w.workspace, root.task);
    var jobs := JobsDir(w.workspace);
    BelowDirectory(match root.task case None => jobs case Some(t) => Slash(jobs, t), id, name);
    TextIs(w.workspace, root.task, id, name, Named(Directory(w, root).value, name));
  }

  lemma TextIs(workspace: Path, task: Option<string>, id: string, name: string, p: Path)
    requires p.share == workspace.share
    requires p.path == ((if workspace.path == "/" then "" else workspace.path) + "/jobs"
                        + match task case None => "" case Some(t) => "/" + t)
                       + "/" + id + if name == "" then "" else "/" + name
    ensures TextOf(p) == GeneratedText(workspace, task, id, name)
  {
    var prefix := if workspace.share == "" then "" else workspace.share + ":";
    assert TextOf(p) == prefix + p.path;
    Regrouped(prefix, if workspace.path == "/" then "" else workspace.path,
              match task case None => "" case Some(t) => "/" + t, id, if name == "" then "" else "/" + name);
  }

  // ---------------------------------------------------------------- what a supplied key is bound to

  /** The argument of that name in the type itself, whose default and whose `ignored` decide about flags. */
  predicate OwnDefault(t: Type, name: string, v: Value) {
    match FindArgument(t.arguments, name)
    case None => false
    case Some(a) => a.provision.Default? && Equals(a.provision.value, v).Same?
  }

  predicate OwnIgnored(t: Type, name: string) {
    match FindArgument(t.arguments, name)
    case None => false
    case Some(a) => a.ignored
  }

  /** The value with these flags, and more of them if the type's own argument says so. */
  predicate BoundTo(t: Type, name: string, v: Value, isDefault: bool, ignore: bool, x: Value) {
    x == v.(flags := Flags(v.flags.sealed, isDefault || OwnDefault(t, name, v), ignore || OwnIgnored(t, name),
                           v.flags.generated))
  }

  /** What the argument gives to a missing key; `path` says which text a generator of that name may give. */
  ghost predicate Given(path: (string, string) -> bool, t: Type, a: Argument, x: Value) {
    if a.generator.Some? then
      exists text: string :: path(a.generator.value, text)
                          && BoundTo(t, a.name, ScalarValue(PathText(text), PLAIN), false, false, x)
    else match a.provision
      case Default(v) => BoundTo(t, a.name, v, true, a.ignored, x)
      case Constant(v) => BoundTo(t, a.name, v, false, false, x)
      case Nothing => !a.required && BoundTo(t, a.name, ScalarValue(Null, PLAIN), true, false, x)
  }

  lemma EqualsSeesNoFlags(a: Value, b: Value, f: Flags)
    ensures Equals(a, b.(flags := f)) == Equals(a, b)
  {
  }

  lemma SuppliedIsGiven(path: (string, string) -> bool, dir: Option<Path>, t: Type, a: Argument)
    requires Provides(a) && (a.generator.Some? ==> dir.Some?)
    requires a.generator.Some? ==> AllowsName(path, dir.value, a.generator.value)
    ensures Comparable(t, a.name, Supplied(dir, a)) ==> Given(path, t, a, Bound(t, a.name, Supplied(dir, a)))
  {
    match a.provision
    case Default(v) => EqualsOfOwn(t, a.name, v, v.flags.(isDefault := true, ignore := a.ignored));
    case Constant(v) => EqualsOfOwn(t, a.name, v, v.flags.(isDefault := false, ignore := false));
    case Nothing =>
  }

  lemma EqualsOfOwn(t: Type, name: string, v: Value, f: Flags)
    ensures OwnDefault(t, name, v.(flags := f)) == OwnDefault(t, name, v)
  {
    match FindArgument(t.arguments, name)
    case None =>
    case Some(a) => if a.provision.Default? { EqualsSeesNoFlags(a.provision.value, v, f); }
  }

  // ---------------------------------------------------------------- filling the arguments of one map

  /** Bound keys keep their bindings, and the missing ones get what their supplier gives. */
  ghost predicate FillsIn(path: (string, string) -> bool, m: Value, r: Value, args: Arguments, parent: Option<Type>)
    requires m.MapValue? && r.MapValue?
  {
    forall k :: if HasKey(m.entries, k) then Lookup(r.entries, k) == Lookup(m.entries, k)
                else match Supplier(args, parent, k)
                  case None => Lookup(r.entries, k) == Option.None
                  case Some(a) =>
                    a.name == k && Lookup(r.entries, k).Some? && Given(path, m.typ, a, Lookup(r.entries, k).value)
  }

  lemma {:induction false} SupplierIsNamed(args: Arguments, parent: Option<Type>, k: string)
    ensures Supplier(args, parent, k).Some? ==> Supplier(args, parent, k).value.name == k
    decreases parent, args
  {
    match args
    case More(a, others) => SupplierIsNamed(others, parent, k);
    case NoArguments => if parent.Some? { SupplierIsNamed(parent.value.arguments, parent.value.parent, k); }
  }

  /** The generators that `dir` stands for give texts that `path` allows. */
  ghost predicate Allows(path: (string, string) -> bool, dir: Option<Path>) {
    dir.Some? ==> forall name: string :: AllowsName(path, dir.value, name)
  }

  ghost predicate AllowsName(path: (string, string) -> bool, dir: Path, name: string) {
    exists text: string :: path(name, text) && PathValue(dir, name) == ScalarValue(PathText(text), PLAIN)
  }

  lemma OneFillsIn(path: (string, string) -> bool, dir: Option<Path>, m: Value, a: Argument)
    requires m.MapValue? && Allows(path, dir) && FillArgument(dir, m, a).error.None?
    ensures FillsIn(path, m, FillArgument(dir, m, a).value, More(a, NoArguments), Option.None)
  {
    var r := FillArgument(dir, m, a).value;
    if !HasKey(m.entries, a.name) && Provides(a) {
      var v := Supplied(dir, a);
      assert FillArgument(dir, m, a) == Set(m, a.name, v);
      SuppliedIsGiven(path, dir, m.typ, a);
      forall k ensures Lookup(r.entries, k) ==
                if k == a.name then Some(Bound(m.typ, a.name, v)) else Lookup(m.entries, k) {
        LookupInsert(m.entries, a.name, Bound(m.typ, a.name, v), k);
      }
    }
  }

  lemma {:induction false} SupplierSplits(args: Arguments, parent: Option<Type>, k: string)
    ensures Supplier(args, parent, k) ==
              if Supplier(args, Option.None, k).Some? then Supplier(args, Option.None, k)
              else Supplier(NoArguments, parent, k)
    decreases args
  {
    if args.More? { SupplierSplits(args.others, parent, k); }
  }

  lemma FirstSupplier(a: Argument, others: Arguments, k: string)
    ensures Supplier(More(a, others), Option.None, k) ==
              if Supplier(More(a, NoArguments), Option.None, k).Some? then Some(a) else Supplier(others, Option.None, k)
  {
    assert Supplier(NoArguments, Option.None, k) == Option.None;
  }

  lemma FillsInTwice(path: (string, string) -> bool, m: Value, s: Value, r: Value, x: Arguments, p: Option<Type>,
                     y: Arguments, q: Option<Type>, z: Arguments, o: Option<Type>)
    requires m.MapValue? && s.MapValue? && r.MapValue? && s.typ == m.typ
    requires FillsIn(path, m, s, x, p) && FillsIn(path, s, r, y, q)
    requires forall k :: Supplier(z, o, k) == if Supplier(x, p, k).Some? then Supplier(x, p, k) else Supplier(y, q, k)
    ensures FillsIn(path, m, r, z, o)
  {
    forall k
      ensures if HasKey(m.entries, k) then Lookup(r.entries, k) == Lookup(m.entries, k)
              else match Supplier(z, o, k)
                case None => Lookup(r.entries, k) == Option.None
                case Some(a) =>
                  a.name == k && Lookup(r.entries, k).Some? && Given(path, m.typ, a, Lookup(r.entries, k).value)
    {
      assert HasKey(s.entries, k) || Lookup(s.entries, k) == Option.None;
      SupplierIsNamed(z, o, k);
    }
  }

  lemma NothingFillsIn(path: (string, string) -> bool, m: Value)
    requires m.MapValue?
    ensures FillsIn(path, m, m, NoArguments, Option.None)
  {
    forall k | !HasKey(m.entries, k) ensures Supplier(NoArguments, Option.None, k) == Option.None {}
  }

  lemma ArgumentsFillIn(path: (string, string) -> bool, m: Value, s: Value, r: Value, a: Argument, others: Arguments)
    requires m.MapValue? && s.MapValue? && r.MapValue? && s.typ == m.typ
    requires FillsIn(path, m, s, More(a, NoArguments), Option.None) && FillsIn(path, s, r, others, Option.None)
    ensures FillsIn(path, m, r, More(a, others), Option.None)
  {
    forall k { FirstSupplier(a, others, k); }
    FillsInTwice(path, m, s, r, More(a, NoArguments), Option.None, others, Option.None, More(a, others), Option.None);
  }

  lemma TypeFillsIn(path: (string, string) -> bool, m: Value, s: Value, r: Value, t: Type)
    requires m.MapValue? && s.MapValue? && r.MapValue? && s.typ == m.typ
    requires FillsIn(path, m, s, t.arguments, Option.None) && FillsIn(path, s, r, NoArguments, t.parent)
    ensures FillsIn(path, m, r, NoArguments, Some(t))
  {
    forall k { SupplierSplits(t.arguments, t.parent, k); }
    FillsInTwice(path, m, s, r, t.arguments, Option.None, NoArguments, t.parent, NoArguments, Some(t));
  }

  /** Some tree, at the moment the path is generated, has this directory. */
  ghost predicate SomeText(w: World, name: string, text: string) {
    exists root: Value :: root.MapValue? && text == GeneratedText(w.workspace, root.task, Identifier(w.h, root), name)
  }

  ghost function AnyText(w: World): (string, string) -> bool { (name, text) => SomeText(w, name, text) }

  lemma AnyAllows(w: World, root: Value)
    ensures Allows(AnyText(w), Directory(w, root))
  {
    if root.MapValue? {
      forall name: string ensures AllowsName(AnyText(w), Directory(w, root).value, name) {
        PathHasText(w, root, name);
        var text := GeneratedText(w.workspace, root.task, Identifier(w.h, root), name);
        assert SomeText(w, name, text) && AnyText(w)(name, text);
      }
    }
  }

  lemma {:induction false} FillArgumentsFillIn(w: World, c: Context, m: Value, args: Arguments)
    requires m.MapValue? && FillArguments(w, c, m, args).error.None?
    ensures FillsIn(AnyText(w), m, FillArguments(w, c, m, args).value, args, Option.None)
    decreases args
  {
    if args.More? {
      var dir := Directory(w, Plug(c, m));
      AnyAllows(w, Plug(c, m));
      OneFillsIn(AnyText(w), dir, m, args.first);
      var s := FillArgument(dir, m, args.first).value;
      FillArgumentsFillIn(w, c, s, args.others);
      ArgumentsFillIn(AnyText(w), m, s, FillArguments(w, c, s, args.others).value, args.first, args.others);
    } else {
      NothingFillsIn(AnyText(w), m);
    }
  }

  lemma {:induction false} FillTypesFillIn(w: World, c: Context, m: Value, t: Option<Type>)
    requires m.MapValue? && FillTypes(w, c, m, t).error.None?
    ensures FillsIn(AnyText(w), m, FillTypes(w, c, m, t).value, NoArguments, t)
    decreases t
  {
    if t.Some? {
      FillArgumentsFillIn(w, c, m, t.value.arguments);
      var s := FillArguments(w, c, m, t.value.arguments).value;
      FillTypesFillIn(w, c, s, t.value.parent);
      TypeFillsIn(AnyText(w), m, s, FillTypes(w, c, s, t.value.parent).value, t.value);
    } else {
      NothingFillsIn(AnyText(w), m);
    }
  }

  lemma {:induction false} PureArgumentsFillIn(path: (string, string) -> bool, dir: Option<Path>,
                                            m: Value, args: Arguments)
    requires m.MapValue? && Allows(path, dir) && PureArguments(dir, m, args).error.None?
    ensures FillsIn(path, m, PureArguments(dir, m, args).value, args, Option.None)
    decreases args
  {
    if args.More? {
      OneFillsIn(path, dir, m, args.first);
      var s := FillArgument(dir, m, args.first).value;
      PureArgumentsFillIn(path, dir, s, args.others);
      ArgumentsFillIn(path, m, s, PureArguments(dir, s, args.others).value, args.first, args.others);
    } else {
      NothingFillsIn(path, m);
    }
  }

  lemma {:induction false} PureTypesFillIn(path: (string, string) -> bool, dir: Option<Path>, m: Value, t: Option<Type>)
    requires m.MapValue? && Allows(path, dir) && PureTypes(dir, m, t).error.None?
    ensures FillsIn(path, m, PureTypes(dir, m, t).value, NoArguments, t)
    decreases t
  {
    if t.Some? {
      PureArgumentsFillIn(path, dir, m, t.value.arguments);
      var s := PureArguments(dir, m, t.value.arguments).value;
      PureTypesFillIn(path, dir, s, t.value.parent);
      TypeFillsIn(path, m, s, PureTypes(dir, s, t.value.parent).value, t.value);
    } else {
      NothingFillsIn(path, m);
    }
  }

  // ---------------------------------------------------------------- the whole tree

  /** The binding of a key, which is part of the entries. */
  function Binding(es: Entries, k: string): (r: Option<Value>)
    ensures r == Lookup(es, k) && (r.Some? ==> r.value < es)
  {
    if es.End? then Option.None else if es.key == k then Some(es.value) else Binding(es.rest, k)
  }

  /**
    `r` is `v` with everything filled in: scalars as they were, elements and bound entries filled in one by one, every
    missing key as its supplier says, and every node flagged as generated.
  */
  ghost predicate Completed(path: (string, string) -> bool, v: Value, r: Value)
    decreases v, 1
  {
    if v.flags.generated then r == v
    else
      && r.flags == v.flags.(generated := true)
      && match v
         case ScalarValue(s, _) => r.ScalarValue? && r.scalar == s
         case ArrayValue(es, _) => r.ArrayValue? && CompletedElems(path, es, r.elems)
         case MapValue(t, task, es, _) =>
           && r.MapValue? && r.typ == t && r.task == task
           && forall k :: match Binding(es, k)
                case Some(x) => Lookup(r.entries, k).Some? && Completed(path, x, Lookup(r.entries, k).value)
                case None =>
                  match Supplier(t.arguments, t.parent, k)
                  case Some(a) =>
                    a.name == k && Lookup(r.entries, k).Some? && Given(path, t, a, Lookup(r.entries, k).value)
                  case None => Lookup(r.entries, k) == Option.None
  }

  ghost predicate CompletedElems(path: (string, string) -> bool, es: Elems, rs: Elems)
    decreases es, 0
  {
    if es.Nil? then rs.Nil?
    else rs.Cons? && Completed(path, es.head, rs.head) && CompletedElems(path, es.tail, rs.tail)
  }

  /** The same keys in order, each with its value filled in. */
  ghost predicate CompletedEntries(path: (string, string) -> bool, es: Entries, rs: Entries) {
    if es.End? then rs.End?
    else rs.Bind? && rs.key == es.key && Completed(path, es.value, rs.value) && CompletedEntries(path, es.rest, rs.rest)
  }

  lemma {:induction false} EntryIsCompleted(path: (string, string) -> bool, es: Entries, rs: Entries, k: string)
    requires CompletedEntries(path, es, rs)
    ensures HasKey(es, k) <==> HasKey(rs, k)
    ensures HasKey(es, k) ==> Completed(path, Lookup(es, k).value, Lookup(rs, k).value)
  {
    if es.Bind? && es.key != k { EntryIsCompleted(path, es.rest, rs.rest, k); }
  }

  lemma MapIsCompleted(path: (string, string) -> bool, v: Value, m: Value, r: Value)
    requires v.MapValue? && !v.flags.generated && m.MapValue? && m == v.(entries := m.entries)
    requires CompletedEntries(path, v.entries, m.entries)
    requires r.MapValue? && r == m.(entries := r.entries) && FillsIn(path, m, r, NoArguments, Some(v.typ))
    ensures Completed(path, v, r.(flags := r.flags.(generated := true)))
  {
    forall k
      ensures match Binding(v.entries, k)
              case Some(x) => Lookup(r.entries, k).Some? && Completed(path, x, Lookup(r.entries, k).value)
              case None =>
                match Supplier(v.typ.arguments, v.typ.parent, k)
                case Some(a) =>
                  a.name == k && Lookup(r.entries, k).Some? && Given(path, v.typ, a, Lookup(r.entries, k).value)
                case None => Lookup(r.entries, k) == Option.None
    {
      EntryIsCompleted(path, v.entries, m.entries, k);
      assert Supplier(NoArguments, Some(v.typ), k) == Supplier(v.typ.arguments, v.typ.parent, k);
    }
  }

  lemma {:induction false} GenerateCompletes(w: World, c: Context, v: Value)
    requires Generate(w, c, v).error.None?
    ensures Completed(AnyText(w), v, Generate(w, c, v).value)
    decreases v, 1
  {
    if !v.flags.generated {
      match v
      case ScalarValue(_, _) =>
      case ArrayValue(es, f) => var x := ElemsComplete(w, c, f, Nil, es);
      case MapValue(t, task, es, f) =>
        var x := EntriesComplete(w, c, t, task, f, End, es);
        var m := GenerateEntries(w, c, t, task, f, End, es).value;
        FillTypesFillIn(w, c, m, Some(t));
        MapIsCompleted(AnyText(w), v, m, FillTypes(w, c, m, Some(t)).value);
    }
  }

  lemma {:induction false} ElemsComplete(w: World, c: Context, f: Flags, left: Elems, rest: Elems) returns (x: Elems)
    requires GenerateElems(w, c, f, left, rest).error.None?
    ensures GenerateElems(w, c, f, left, rest).value == ArrayValue(AppendElems(left, x), f)
    ensures CompletedElems(AnyText(w), rest, x)
    decreases rest, 0
  {
    x := Nil;
    if rest.Cons? {
      var inner := InArray(c, left, rest.tail, f);
      var r := Generate(w, inner, rest.head).value;
      GenerateCompletes(w, inner, rest.head);
      var more := ElemsComplete(w, c, f, AppendElems(left, Cons(r, Nil)), rest.tail);
      AppendElemsTwice(left, r, more);
      x := Cons(r, more);
    } else {
      AppendNothing(left);
    }
  }

  lemma {:induction false} EntriesComplete(w: World, c: Context, t: Type, task: Option<string>, f: Flags,
                                           left: Entries, rest: Entries) returns (x: Entries)
    requires GenerateEntries(w, c, t, task, f, left, rest).error.None?
    ensures GenerateEntries(w, c, t, task, f, left, rest).value == MapValue(t, task, AppendEntries(left, x), f)
    ensures CompletedEntries(AnyText(w), rest, x)
    decreases rest, 0
  {
    x := End;
    if rest.Bind? {
      var inner := InMap(c, t, task, left, rest.key, rest.rest, f);
      var r := Generate(w, inner, rest.value).value;
      GenerateCompletes(w, inner, rest.value);
      var more := EntriesComplete(w, c, t, task, f, AppendEntries(left, Bind(rest.key, r, End)), rest.rest);
      AppendEntriesTwice(left, rest.key, r, more);
      x := Bind(rest.key, r, more);
    } else {
      AppendEnd(left);
    }
  }

  lemma {:induction false} PureCompletes(path: (string, string) -> bool, dir: Option<Path>, v: Value)
    requires Allows(path, dir) && PureGenerate(dir, v).error.None?
    ensures Completed(path, v, PureGenerate(dir, v).value)
    decreases v, 1
  {
    if !v.flags.generated {
      match v
      case ScalarValue(_, _) =>
      case ArrayValue(es, f) => PureElemsComplete(path, dir, es);
      case MapValue(t, task, es, f) =>
        PureEntriesComplete(path, dir, es);
        var m := MapValue(t, task, PureEntries(dir, es).0, f);
        PureTypesFillIn(path, dir, m, Some(t));
        MapIsCompleted(path, v, m, PureTypes(dir, m, Some(t)).value);
    }
  }

  lemma {:induction false} PureElemsComplete(path: (string, string) -> bool, dir: Option<Path>, es: Elems)
    requires Allows(path, dir) && PureElems(dir, es).1.None?
    ensures CompletedElems(path, es, PureElems(dir, es).0)
    decreases es, 0
  {
    if es.Cons? {
      PureCompletes(path, dir, es.head);
      PureElemsComplete(path, dir, es.tail);
    }
  }

  lemma {:induction false} PureEntriesComplete(path: (string, string) -> bool, dir: Option<Path>, es: Entries)
    requires Allows(path, dir) && PureEntries(dir, es).1.None?
    ensures CompletedEntries(path, es, PureEntries(dir, es).0)
    decreases es, 0
  {
    if es.Bind? {
      PureCompletes(path, dir, es.value);
      PureEntriesComplete(path, dir, es.rest);
    }
  }

  // ---------------------------------------------------------------- what this means

  /** The text for a generator of that name below the directory of this root. */
  ghost function TextUnder(w: World, root: Value): (string, string) -> bool
    requires root.MapValue?
  {
    (name, text) => text == GeneratedText(w.workspace, root.task, Identifier(w.h, root), name)
  }

  /** Where no visible constant is missing, all paths lie under the one directory of the root as it was at first. */
  lemma GenerateCompletesUnder(w: World, v: Value)
    requires v.MapValue? && Settled(v) && Generate(w, Root, v).error.None?
    ensures Completed(TextUnder(w, v), v, Generate(w, Root, v).value)
  {
    GenerationAgrees(w, Root, v);
    var dir := Directory(w, v);
    forall name: string ensures AllowsName(TextUnder(w, v), dir.value, name) {
      PathHasText(w, v, name);
      var text := GeneratedText(w.workspace, v.task, Identifier(w.h, v), name);
      assert TextUnder(w, v)(name, text);
    }
    PureCompletes(TextUnder(w, v), dir, v);
  }

  /** What a missing key gets from an argument with a default: its content, flagged as a default. */
  lemma DefaultIsFilledIn(path: (string, string) -> bool, v: Value, r: Value, a: Argument)
    requires v.MapValue? && !v.flags.generated && Completed(path, v, r) && !HasKey(v.entries, a.name)
    requires Supplier(v.typ.arguments, v.typ.parent, a.name) == Some(a) && a.generator.None? && a.provision.Default?
    ensures r.MapValue? && HasKey(r.entries, a.name)
    ensures var x := Lookup(r.entries, a.name).value;
            && J.Bare(x) == J.Bare(a.provision.value) && x.flags.isDefault
            && x.flags.ignore == (a.ignored || OwnIgnored(v.typ, a.name))
  {
    assert Binding(v.entries, a.name) == Option.None;
  }

  /** From an argument with a constant: its content, without flags unless the type's own argument asks for them. */
  lemma ConstantIsFilledIn(path: (string, string) -> bool, v: Value, r: Value, a: Argument)
    requires v.MapValue? && !v.flags.generated && Completed(path, v, r) && !HasKey(v.entries, a.name)
    requires Supplier(v.typ.arguments, v.typ.parent, a.name) == Some(a) && a.generator.None? && a.provision.Constant?
    ensures r.MapValue? && HasKey(r.entries, a.name)
    ensures var x := Lookup(r.entries, a.name).value;
            && J.Bare(x) == J.Bare(a.provision.value)
            && x.flags.isDefault == OwnDefault(v.typ, a.name, a.provision.value)
            && x.flags.ignore == OwnIgnored(v.typ, a.name)
  {
    assert Binding(v.entries, a.name) == Option.None;
  }

  /** A required argument with nothing to give supplies nothing, and a key that nobody supplies stays unbound. */
  lemma UnsuppliedStaysUnbound(path: (string, string) -> bool, v: Value, r: Value, k: string)
    requires v.MapValue? && !v.flags.generated && Completed(path, v, r) && !HasKey(v.entries, k)
    requires Supplier(v.typ.arguments, v.typ.parent, k).None?
    ensures r.MapValue? && !HasKey(r.entries, k)
  {
    assert Binding(v.entries, k) == Option.None;
  }

  /** The arguments of a type and of the types above it, in order. */
  function AllArguments(args: Arguments, parent: Option<Type>): seq<Argument>
    decreases parent, args
  {
    match args
    case More(a, others) => [a] + AllArguments(others, parent)
    case NoArguments => if parent.None? then [] else AllArguments(parent.value.arguments, parent.value.parent)
  }

  /** An argument of that name with a generator, a default or a constant, or one that is not required. */
  predicate CanSupply(a: Argument, k: string) {
    a.name == k && (a.generator.Some? || !a.provision.Nothing? || !a.required)
  }

  predicate FirstOf(all: seq<Argument>, k: string, i: nat) {
    i < |all| && CanSupply(all[i], k) && forall j :: 0 <= j < i ==> !CanSupply(all[j], k)
  }

  lemma FirstAfter(a: Argument, rest: seq<Argument>, k: string, i: nat)
    requires FirstOf(rest, k, i) && !CanSupply(a, k)
    ensures FirstOf([a] + rest, k, i + 1)
  {
  }

  /** The supplier is the first one, in the type and then the types above it; there is none if nobody can supply. */
  lemma {:induction false} SupplierIsFirst(args: Arguments, parent: Option<Type>, k: string) returns (i: nat)
    ensures Supplier(args, parent, k).Some? ==>
              FirstOf(AllArguments(args, parent), k, i) &&
                Supplier(args, parent, k).value == AllArguments(args, parent)[i]
    ensures Supplier(args, parent, k).None? ==>
              forall j :: 0 <= j < |AllArguments(args, parent)| ==> !CanSupply(AllArguments(args, parent)[j], k)
    decreases parent, args
  {
    i := 0;
    match args
    case More(a, others) =>
      if !CanSupply(a, k) {
        var n := SupplierIsFirst(others, parent, k);
        if Supplier(others, parent, k).Some? {
          FirstAfter(a, AllArguments(others, parent), k, n);
          i := n + 1;
        }
      }
    case NoArguments => if parent.Some? { i := SupplierIsFirst(parent.value.arguments, parent.value.parent, k); }
  }
}
