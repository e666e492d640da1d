/**
  Generation of missing values, and the identifier of a job.

  `generate` fills the tree in place, children first, and path generators read the digest of the whole tree
  while it is being filled. The tree around the value at hand is kept as a context.
*/
module Identity {
  import opened Markers
  import opened Paths
  import opened Values

  // ---------------------------------------------------------------- a value inside its tree

  datatype Context =
    | Root
    | InArray(up: Context, before: Elems, after: Elems, flags: Flags)
    | InMap(up: Context, typ: Type, task: Option<string>, left: Entries, key: string, right: Entries, flags: Flags)

  function AppendElems(a: Elems, b: Elems): Elems {
    if a.Nil? then b else Cons(a.head, AppendElems(a.tail, b))
  }

  function AppendEntries(a: Entries, b: Entries): Entries {
    if a.End? then b else Bind(a.key, a.value, AppendEntries(a.rest, b))
  }

  /** The array or map directly around the value. */
  function Close(c: Context, v: Value): Value
    requires !c.Root?
  {
    match c
    case InArray(_, before, after, f) => ArrayValue(AppendElems(before, Cons(v, after)), f)
    case InMap(_, t, task, before, k, after, f) => MapValue(t, task, AppendEntries(before, Bind(k, v, after)), f)
  }

  function Plug(c: Context, v: Value): Value { if c.Root? then v else Plug(c.up, Close(c, v)) }

  // ---------------------------------------------------------------- generators and arguments

  datatype World = World(h: Hash, workspace: Path)

  function TextOf(p: Path): string { if p.share == "" then p.path else p.share + ":" + p.path }

  /** The directory that path generators use for a root value; the root has to be a map. */
  function Directory(w: World, root: Value): Option<Path> {
    if !root.MapValue? then None
    else
      var jobs := JobsDir(w.workspace);
      var dir := match root.task case None => jobs case Some(t) => Slash(jobs, t);
      Some(Slash(dir, Identifier(w.h, root)))
  }

  function PathValue(dir: Path, name: string): Value { ScalarValue(PathText(TextOf(Named(dir, name))), PLAIN) }

  function DefaultValue(a: Argument, v: Value): Value { v.(flags := v.flags.(isDefault := true, ignore := a.ignored)) }
  function ConstantValue(v: Value): Value { v.(flags := v.flags.(isDefault := false, ignore := false)) }
  function NullValue(): Value { ScalarValue(Null, PLAIN.(isDefault := true)) }

  /** What `_generate` does for one argument: generator, default, constant, or null if it is not required. */
  function FillArgument(dir: Option<Path>, m: Value, a: Argument): (r: Outcome)
    requires m.MapValue?
    ensures r.value.MapValue? && r.value == m.(entries := r.value.entries)
  {
    if HasKey(m.entries, a.name) then Outcome(m, Option.None)
    else if a.generator.Some? then
      if dir.None? then Outcome(m, Some(NotAMap)) else Set(m, a.name, PathValue(dir.value, a.generator.value))
    else
      match a.provision
      case Default(v) => Set(m, a.name, DefaultValue(a, v))
      case Constant(v) => Set(m, a.name, ConstantValue(v))
      case Nothing => if a.required then Outcome(m, Option.None) else Set(m, a.name, NullValue())
  }

  // ---------------------------------------------------------------- generate, reading the tree as it changes

  /** The value as generation leaves it, the exception if any, and the whole tree after each argument. */
  datatype Generation = Generation(value: Value, error: Option<Error>, roots: seq<Value>)

  predicate SameHead(v: Value, r: Value) {
    && r.flags.ignore == v.flags.ignore && r.flags.isDefault == v.flags.isDefault
    && (match v
        case ScalarValue(s, _) => r.ScalarValue? && r.scalar == s
        case ArrayValue(_, _) => r.ArrayValue?
        case MapValue(t, task, _, _) => r.MapValue? && r.typ == t && r.task == task)
  }

  function FillArguments(w: World, c: Context, m: Value, args: Arguments): (r: Generation)
    requires m.MapValue?
    ensures r.value.MapValue? && r.value == m.(entries := r.value.entries)
    decreases args
  {
    match args
    case NoArguments => Generation(m, Option.None, [])
    case More(a, others) =>
      var s := FillArgument(Directory(w, Plug(c, m)), m, a);
      if s.error.Some? then Generation(s.value, s.error, [Plug(c, s.value)])
      else
        var r := FillArguments(w, c, s.value, others);
        r.(roots := [Plug(c, s.value)] + r.roots)
  }

  /** From a type up its parents. */
  function FillTypes(w: World, c: Context, m: Value, t: Option<Type>): (r: Generation)
    requires m.MapValue?
    ensures r.value.MapValue? && r.value == m.(entries := r.value.entries)
    decreases t
  {
    match t
    case None => Generation(m, Option.None, [])
    case Some(ty) =>
      var s := FillArguments(w, c, m, ty.arguments);
      if s.error.Some? then s
      else
        var r := FillTypes(w, c, s.value, ty.parent);
        r.(roots := s.roots + r.roots)
  }

  function Done(r: Generation): Generation {
    if r.error.Some? then r else r.(value := r.value.(flags := r.value.flags.(generated := true)))
  }

  /** `Value::generate`. */
  function Generate(w: World, c: Context, v: Value): (r: Generation)
    ensures SameHead(v, r.value)
    decreases v, 1
  {
    if v.flags.generated then Generation(v, Option.None, [])
    else if v.flags.sealed then Generation(v, Some(SealedInside), [])
    else
      match v
      case ScalarValue(_, _) => Done(Generation(v, Option.None, []))
      case ArrayValue(es, f) => Done(GenerateElems(w, c, f, Nil, es))
      case MapValue(t, task, es, f) =>
        var s := GenerateEntries(w, c, t, task, f, End, es);
        if s.error.Some? then s
        else
          var r := FillTypes(w, c, s.value, Some(t));
          Done(r.(roots := s.roots + r.roots))
  }

  function GenerateElems(w: World, c: Context, f: Flags, before: Elems, rest: Elems): (r: Generation)
    ensures r.value.ArrayValue? && r.value.flags == f
    decreases rest, 0
  {
    match rest
    case Nil => Generation(ArrayValue(before, f), Option.None, [])
    case Cons(v, tail) =>
      var s := Generate(w, InArray(c, before, tail, f), v);
      if s.error.Some? then s.(value := ArrayValue(AppendElems(before, Cons(s.value, tail)), f))
      else
        var r := GenerateElems(w, c, f, AppendElems(before, Cons(s.value, Nil)), tail);
        r.(roots := s.roots + r.roots)
  }

  function GenerateEntries(w: World, c: Context, t: Type, task: Option<string>, f: Flags, before: Entries, rest: Entries)
    : (r: Generation)
    ensures r.value.MapValue? && r.value.flags == f && r.value.typ == t && r.value.task == task
    decreases rest, 0
  {
    match rest
    case End => Generation(MapValue(t, task, before, f), Option.None, [])
    case Bind(k, v, tail) =>
      var s := Generate(w, InMap(c, t, task, before, k, tail, f), v);
      if s.error.Some? then s.(value := MapValue(t, task, AppendEntries(before, Bind(k, s.value, tail)), f))
      else
        var r := GenerateEntries(w, c, t, task, f, AppendEntries(before, Bind(k, s.value, End)), tail);
        r.(roots := s.roots + r.roots)
  }

  // ---------------------------------------------------------------- which values keep their identifier

  predicate Provides(a: Argument) { a.generator.Some? || !a.provision.Nothing? || !a.required }

  /** The argument that supplies a missing key: the first one of that name, from the type up, with something to give. */
  function Supplier(args: Arguments, parent: Option<Type>, name: string): Option<Argument>
    decreases parent, args
  {
    match args
    case More(a, others) => if a.name == name && Provides(a) then Some(a) else Supplier(others, parent, name)
    case NoArguments =>
      match parent
      case None => Option.None
      case Some(t) => Supplier(t.arguments, t.parent, name)
  }

  /** A constant that would show in the digest of a map of type `t`. */
  predicate VisibleConstant(t: Type, a: Argument) {
    a.generator.None? && a.provision.Constant? && !CanIgnore(Bound(t, a.name, ConstantValue(a.provision.value)))
  }

  predicate SuppliesVisibly(t: Type, args: Arguments, parent: Option<Type>, name: string) {
    Supplier(args, parent, name).Some? && VisibleConstant(t, Supplier(args, parent, name).value)
  }

  ghost predicate NoConstantMissing(t: Type, es: Entries, args: Arguments, parent: Option<Type>) {
    forall name :: !HasKey(es, name) ==> !SuppliesVisibly(t, args, parent, name)
  }

  /** No map that counts in the digest, and is still to be generated, misses a visible constant. */
  ghost predicate Settled(v: Value)
    decreases v, 1
  {
    v.flags.generated || v.flags.sealed ||
    match v
    case ScalarValue(_, _) => true
    case ArrayValue(es, _) => SettledElems(es)
    case MapValue(t, _, es, _) => SettledEntries(es) && NoConstantMissing(t, es, t.arguments, t.parent)
  }

  ghost predicate SettledElems(es: Elems)
    decreases es, 0
  {
    es.Cons? ==> Settled(es.head) && SettledElems(es.tail)
  }

  ghost predicate SettledEntries(es: Entries)
    decreases es, 0
  {
    es.Bind? ==> (CanIgnore(es.value) || Settled(es.value)) && SettledEntries(es.rest)
  }

  /** The value lies in an ignorable entry. */
  predicate Hidden(c: Context, v: Value) {
    match c
    case Root => false
    case InArray(_, _, _, _) => Hidden(c.up, Close(c, v))
    case InMap(_, _, _, _, _, _, _) => CanIgnore(v) || Hidden(c.up, Close(c, v))
  }

  // ---------------------------------------------------------------- replacing a value in its tree

  lemma {:induction false} AppendElemsSame(a: Elems, b: Elems, d: Elems)
    requires CanonicalElems(b) == CanonicalElems(d)
    ensures CanonicalElems(AppendElems(a, b)) == CanonicalElems(AppendElems(a, d))
  {
    if a.Cons? { AppendElemsSame(a.tail, b, d); }
  }

  lemma {:induction false} AppendEntriesSame(a: Entries, b: Entries, d: Entries)
    requires CanonicalEntries(b) == CanonicalEntries(d)
    ensures CanonicalEntries(AppendEntries(a, b)) == CanonicalEntries(AppendEntries(a, d))
  {
    if a.Bind? { AppendEntriesSame(a.rest, b, d); }
  }

  lemma CloseSame(c: Context, x: Value, y: Value)
    requires !c.Root? && CanIgnore(x) == CanIgnore(y)
    requires Canonical(x) == Canonical(y) || (c.InMap? && CanIgnore(x))
    ensures Canonical(Close(c, x)) == Canonical(Close(c, y)) && SameHead(Close(c, x), Close(c, y))
  {
    match c
    case InArray(_, before, after, _) => AppendElemsSame(before, Cons(x, after), Cons(y, after));
    case InMap(_, _, _, before, k, after, _) => AppendEntriesSame(before, Bind(k, x, after), Bind(k, y, after));
  }

  lemma {:induction false} PlugSame(c: Context, x: Value, y: Value)
    requires Canonical(x) == Canonical(y) && CanIgnore(x) == CanIgnore(y)
    ensures Canonical(Plug(c, x)) == Canonical(Plug(c, y))
  {
    if !c.Root? {
      CloseSame(c, x, y);
      PlugSame(c.up, Close(c, x), Close(c, y));
    }
  }

  lemma {:induction false} PlugHidden(c: Context, x: Value, y: Value)
    requires Hidden(c, x) && SameHead(x, y)
    ensures Hidden(c, y) && Canonical(Plug(c, x)) == Canonical(Plug(c, y))
  {
    if c.InMap? && CanIgnore(x) {
      CloseSame(c, x, y);
      PlugSame(c.up, Close(c, x), Close(c, y));
    } else {
      PlugHidden(c.up, Close(c, x), Close(c, y));
    }
  }

  /** A replacement the root's content does not notice. */
  predicate Unseen(c: Context, x: Value, y: Value) {
    SameHead(x, y) && (Canonical(x) == Canonical(y) || Hidden(c, x))
  }

  lemma UnseenKeepsRoot(c: Context, x: Value, y: Value)
    requires Unseen(c, x, y)
    ensures Canonical(Plug(c, x)) == Canonical(Plug(c, y))
  {
    if Hidden(c, x) { PlugHidden(c, x, y); } else { PlugSame(c, x, y); }
  }

  lemma UnseenInside(c: Context, x: Value, y: Value)
    requires !c.Root? && Unseen(c, x, y)
    ensures Unseen(c.up, Close(c, x), Close(c, y))
  {
    if Canonical(x) == Canonical(y) || (c.InMap? && CanIgnore(x)) { CloseSame(c, x, y); }
  }

  // ---------------------------------------------------------------- generation keeps the content of the root

  predicate RootsAgree(roots: seq<Value>, content: Content) {
    forall i :: 0 <= i < |roots| ==> Canonical(roots[i]) == content
  }

  lemma {:induction false} InsertIgnorable(es: Entries, k: string, v: Value)
    requires !HasKey(es, k) && CanIgnore(v)
    ensures CanonicalEntries(Insert(es, k, v)) == CanonicalEntries(es)
  {
    if es.Bind? && !Less(k, es.key) { InsertIgnorable(es.rest, k, v); }
  }

  lemma FillArgumentSettled(dir: Option<Path>, m: Value, a: Argument, others: Arguments, parent: Option<Type>)
    requires m.MapValue? && NoConstantMissing(m.typ, m.entries, More(a, others), parent)
    ensures Canonical(FillArgument(dir, m, a).value) == Canonical(m)
    ensures FillArgument(dir, m, a).error.None? ==>
              NoConstantMissing(m.typ, FillArgument(dir, m, a).value.entries, others, parent)
  {
    var s := FillArgument(dir, m, a);
    forall name | !HasKey(m.entries, name) && !(name == a.name && Provides(a))
      ensures !SuppliesVisibly(m.typ, others, parent, name)
    {
      assert !SuppliesVisibly(m.typ, More(a, others), parent, name);
    }
    if s.value != m {
      assert !SuppliesVisibly(m.typ, More(a, others), parent, a.name);
      forall name ensures HasKey(s.value.entries, name) <==> name == a.name || HasKey(m.entries, name) {
        FilledBinding(dir, m, a, name);
      }
    }
    FilledBinding(dir, m, a, a.name);
  }

  /** A filled argument is one new binding, ignorable unless it is a visible constant. */
  lemma FilledBinding(dir: Option<Path>, m: Value, a: Argument, name: string)
    requires m.MapValue?
    ensures var s := FillArgument(dir, m, a);
            s.value != m ==>
              && !HasKey(m.entries, a.name) && Provides(a)
              && (HasKey(s.value.entries, name) <==> name == a.name || HasKey(m.entries, name))
              && (!VisibleConstant(m.typ, a) ==> Canonical(s.value) == Canonical(m))
    ensures FillArgument(dir, m, a).error.None? && FillArgument(dir, m, a).value == m ==>
              HasKey(m.entries, a.name) || !Provides(a)
  {
    var s := FillArgument(dir, m, a);
    if !HasKey(m.entries, a.name) && Provides(a) && (a.generator.None? || dir.Some?) {
      var v := Supplied(dir, a);
      assert s == Set(m, a.name, v);
      var b := Bound(m.typ, a.name, v);
      LookupInsert(m.entries, a.name, b, name);
      LookupInsert(m.entries, a.name, b, a.name);
      if CanIgnore(b) { InsertIgnorable(m.entries, a.name, b); }
    }
  }

  function Supplied(dir: Option<Path>, a: Argument): Value
    requires Provides(a) && (a.generator.None? || dir.Some?)
  {
    if a.generator.Some? then PathValue(dir.value, a.generator.value)
    else match a.provision
      case Default(v) => DefaultValue(a, v)
      case Constant(v) => ConstantValue(v)
      case Nothing => NullValue()
  }

  lemma {:induction false} FillArgumentsUnseen(w: World, c: Context, m: Value, args: Arguments, parent: Option<Type>)
    requires m.MapValue? && (Hidden(c, m) || NoConstantMissing(m.typ, m.entries, args, parent))
    ensures var r := FillArguments(w, c, m, args);
            && RootsAgree(r.roots, Canonical(Plug(c, m)))
            && (NoConstantMissing(m.typ, m.entries, args, parent) ==>
                  Canonical(r.value) == Canonical(m)
                  && (r.error.None? ==> NoConstantMissing(m.typ, r.value.entries, NoArguments, parent)))
    decreases args
  {
    if args.More? {
      var dir := Directory(w, Plug(c, m));
      var s := FillArgument(dir, m, args.first);
      if NoConstantMissing(m.typ, m.entries, args, parent) {
        FillArgumentSettled(dir, m, args.first, args.others, parent);
      }
      assert Unseen(c, m, s.value);
      UnseenKeepsRoot(c, m, s.value);
      if s.error.None? {
        if Hidden(c, m) { PlugHidden(c, m, s.value); }
        FillArgumentsUnseen(w, c, s.value, args.others, parent);
      }
    }
  }

  lemma {:induction false} FillTypesUnseen(w: World, c: Context, m: Value, t: Option<Type>)
    requires m.MapValue? && (Hidden(c, m) || NoConstantMissing(m.typ, m.entries, NoArguments, t))
    ensures var r := FillTypes(w, c, m, t);
            && RootsAgree(r.roots, Canonical(Plug(c, m)))
            && (NoConstantMissing(m.typ, m.entries, NoArguments, t) ==> Canonical(r.value) == Canonical(m))
    decreases t
  {
    if t.Some? {
      var args, parent := t.value.arguments, t.value.parent;
      if NoConstantMissing(m.typ, m.entries, NoArguments, t) {
        forall name | !HasKey(m.entries, name) ensures !SuppliesVisibly(m.typ, args, parent, name) {
          assert !SuppliesVisibly(m.typ, NoArguments, t, name);
        }
      }
      FillArgumentsUnseen(w, c, m, args, parent);
      var s := FillArguments(w, c, m, args);
      if s.error.None? {
        assert Unseen(c, m, s.value);
        UnseenKeepsRoot(c, m, s.value);
        if Hidden(c, m) { PlugHidden(c, m, s.value); }
        FillTypesUnseen(w, c, s.value, parent);
      }
    }
  }

  lemma {:induction false} AppendElemsTwice(a: Elems, v: Value, b: Elems)
    ensures AppendElems(AppendElems(a, Cons(v, Nil)), b) == AppendElems(a, Cons(v, b))
  {
    if a.Cons? { AppendElemsTwice(a.tail, v, b); }
  }

  lemma {:induction false} AppendEntriesTwice(a: Entries, k: string, v: Value, b: Entries)
    ensures AppendEntries(AppendEntries(a, Bind(k, v, End)), b) == AppendEntries(a, Bind(k, v, b))
  {
    if a.Bind? { AppendEntriesTwice(a.rest, k, v, b); }
  }

  lemma {:induction false} AppendNothing(a: Elems)
    ensures AppendElems(a, Nil) == a
  {
    if a.Cons? { AppendNothing(a.tail); }
  }

  lemma {:induction false} AppendEnd(a: Entries)
    ensures AppendEntries(a, End) == a
  {
    if a.Bind? { AppendEnd(a.rest); }
  }

  lemma {:induction false} HasKeyAppend(a: Entries, b: Entries, k: string)
    ensures HasKey(AppendEntries(a, b), k) <==> HasKey(a, k) || HasKey(b, k)
  {
    if a.Bind? && a.key != k { HasKeyAppend(a.rest, b, k); }
  }

  /** Generating children neither adds nor removes keys. */
  lemma {:induction false} GenerateKeepsKeys(w: World, c: Context, t: Type, task: Option<string>, f: Flags,
                                             left: Entries, rest: Entries, k: string)
    ensures HasKey(GenerateEntries(w, c, t, task, f, left, rest).value.entries, k) <==> HasKey(left, k) || HasKey(rest, k)
    decreases rest
  {
    if rest.Bind? {
      var s := Generate(w, InMap(c, t, task, left, rest.key, rest.rest, f), rest.value);
      HasKeyAppend(left, Bind(rest.key, s.value, rest.rest), k);
      HasKeyAppend(left, Bind(rest.key, s.value, End), k);
      assert HasKey(Bind(rest.key, s.value, End), k) <==> rest.key == k by { assert Lookup(End, k) == Option.None; }
      assert HasKey(Bind(rest.key, s.value, rest.rest), k) <==> HasKey(rest, k);
      if s.error.None? {
        GenerateKeepsKeys(w, c, t, task, f, AppendEntries(left, Bind(rest.key, s.value, End)), rest.rest, k);
      }
    }
  }

  lemma {:induction false} GenerateUnseen(w: World, c: Context, v: Value)
    requires Hidden(c, v) || Settled(v)
    ensures var r := Generate(w, c, v);
            RootsAgree(r.roots, Canonical(Plug(c, v))) && (Settled(v) ==> Canonical(r.value) == Canonical(v))
    decreases v, 1
  {
    if !v.flags.generated && !v.flags.sealed {
      match v
      case ScalarValue(_, _) =>
      case ArrayValue(es, f) => GenerateElemsUnseen(w, c, f, Nil, es);
      case MapValue(t, task, es, f) =>
        GenerateEntriesUnseen(w, c, t, task, f, End, es);
        var s := GenerateEntries(w, c, t, task, f, End, es);
        if s.error.None? {
          SettledMap(w, c, v, s.value);
          FillTypesUnseen(w, c, s.value, Some(t));
        }
    }
  }

  lemma SettledMap(w: World, c: Context, v: Value, m: Value)
    requires v.MapValue? && !v.flags.generated && !v.flags.sealed && (Hidden(c, v) || Settled(v))
    requires m == GenerateEntries(w, c, v.typ, v.task, v.flags, End, v.entries).value
    requires Settled(v) ==> Canonical(m) == Canonical(v)
    ensures Hidden(c, m) || NoConstantMissing(m.typ, m.entries, NoArguments, Some(m.typ))
    ensures Settled(v) ==> NoConstantMissing(m.typ, m.entries, NoArguments, Some(m.typ))
    ensures Canonical(Plug(c, m)) == Canonical(Plug(c, v))
  {
    assert Unseen(c, v, m);
    UnseenKeepsRoot(c, v, m);
    if Hidden(c, v) { PlugHidden(c, v, m); }
    if Settled(v) {
      var t := v.typ;
      forall name | !HasKey(m.entries, name) ensures !SuppliesVisibly(t, NoArguments, Some(t), name) {
        GenerateKeepsKeys(w, c, v.typ, v.task, v.flags, End, v.entries, name);
        assert !SuppliesVisibly(t, t.arguments, t.parent, name);
      }
    }
  }

  lemma {:induction false} GenerateElemsUnseen(w: World, c: Context, f: Flags, before: Elems, rest: Elems)
    requires Hidden(c, ArrayValue(AppendElems(before, rest), f)) || SettledElems(rest)
    ensures var r, whole := GenerateElems(w, c, f, before, rest), ArrayValue(AppendElems(before, rest), f);
            RootsAgree(r.roots, Canonical(Plug(c, whole))) && (SettledElems(rest) ==> Canonical(r.value) == Canonical(whole))
    decreases rest, 0
  {
    match rest
    case Nil => AppendNothing(before);
    case Cons(v, tail) =>
      var inner := InArray(c, before, tail, f);
      GenerateUnseen(w, inner, v);
      var s := Generate(w, inner, v);
      assert Unseen(inner, v, s.value);
      UnseenInside(inner, v, s.value);
      UnseenKeepsRoot(c, Close(inner, v), Close(inner, s.value));
      if Settled(v) { CloseSame(inner, v, s.value); }
      if s.error.None? {
        AppendElemsTwice(before, s.value, tail);
        if Hidden(c, Close(inner, v)) { PlugHidden(c, Close(inner, v), Close(inner, s.value)); }
        GenerateElemsUnseen(w, c, f, AppendElems(before, Cons(s.value, Nil)), tail);
      }
  }

  lemma {:induction false} GenerateEntriesUnseen(w: World, c: Context, t: Type, task: Option<string>, f: Flags,
                                                 left: Entries, rest: Entries)
    requires Hidden(c, MapValue(t, task, AppendEntries(left, rest), f)) || SettledEntries(rest)
    ensures var r, whole := GenerateEntries(w, c, t, task, f, left, rest), MapValue(t, task, AppendEntries(left, rest), f);
            && RootsAgree(r.roots, Canonical(Plug(c, whole)))
            && (SettledEntries(rest) ==> Canonical(r.value) == Canonical(whole))
    decreases rest, 0
  {
    match rest
    case End => AppendEnd(left);
    case Bind(k, v, tail) =>
      var inner := InMap(c, t, task, left, k, tail, f);
      GenerateUnseen(w, inner, v);
      var s := Generate(w, inner, v);
      assert Unseen(inner, v, s.value);
      UnseenInside(inner, v, s.value);
      UnseenKeepsRoot(c, Close(inner, v), Close(inner, s.value));
      if CanIgnore(v) || Settled(v) { CloseSame(inner, v, s.value); }
      if s.error.None? {
        AppendEntriesTwice(left, k, s.value, tail);
        if Hidden(c, Close(inner, v)) { PlugHidden(c, Close(inner, v), Close(inner, s.value)); }
        GenerateEntriesUnseen(w, c, t, task, f, AppendEntries(left, Bind(k, s.value, End)), tail);
      }
  }
}
