/**
  When generation keeps the identifier of the tree, and what it then computes.
*/
module GenerationTheorems {
  import opened Markers
  import opened Paths
  import opened Values
  import opened Identity

  // ---------------------------------------------------------------- a visible constant adds to the content

  /** The number of bindings that count, at every depth. */
  function Weight(c: Content): nat {
    match c
    case CScalar(_) => 0
    case CArray(es) => WeightElems(es)
    case CMap(_, _, es) => WeightEntries(es)
  }

  function WeightElems(es: CElems): nat { if es.CNil? then 0 else Weight(es.head) + WeightElems(es.tail) }

  function WeightEntries(es: CEntries): nat { if es.CEnd? then 0 else 1 + Weight(es.value) + WeightEntries(es.rest) }

  function Size(v: Value): nat { Weight(Canonical(v)) }
  function SizeElems(es: Elems): nat { WeightElems(CanonicalElems(es)) }
  function SizeEntries(es: Entries): nat { WeightEntries(CanonicalEntries(es)) }

  lemma {:induction false} SizeAppendElems(a: Elems, b: Elems)
    ensures SizeElems(AppendElems(a, b)) == SizeElems(a) + SizeElems(b)
  {
    if a.Cons? { SizeAppendElems(a.tail, b); }
  }

  lemma {:induction false} SizeAppendEntries(a: Entries, b: Entries)
    ensures SizeEntries(AppendEntries(a, b)) == SizeEntries(a) + SizeEntries(b)
  {
    if a.Bind? { SizeAppendEntries(a.rest, b); }
  }

  lemma {:induction false} SizeInsert(es: Entries, k: string, v: Value)
    requires !HasKey(es, k)
    ensures SizeEntries(Insert(es, k, v)) == SizeEntries(es) + if CanIgnore(v) then 0 else 1 + Size(v)
  {
    if es.Bind? && !Less(k, es.key) { SizeInsert(es.rest, k, v); }
  }

  lemma FillArgumentGrows(dir: Option<Path>, m: Value, a: Argument)
    requires m.MapValue? && FillArgument(dir, m, a).error.None?
    ensures var r := FillArgument(dir, m, a).value;
            && Size(r) >= Size(m)
            && (!HasKey(m.entries, a.name) && VisibleConstant(m.typ, a) ==> Size(r) > Size(m))
  {
    if !HasKey(m.entries, a.name) && Provides(a) {
      var v := Supplied(dir, a);
      assert FillArgument(dir, m, a) == Set(m, a.name, v);
      SizeInsert(m.entries, a.name, Bound(m.typ, a.name, v));
    }
  }

  lemma {:induction false} FillArgumentsGrow(w: World, c: Context, m: Value, args: Arguments, parent: Option<Type>)
    requires m.MapValue? && FillArguments(w, c, m, args).error.None?
    ensures var r := FillArguments(w, c, m, args).value;
            && Size(r) >= Size(m)
            && (!NoConstantMissing(m.typ, m.entries, args, parent) ==>
                  Size(r) > Size(m) || !NoConstantMissing(m.typ, r.entries, NoArguments, parent))
    decreases args
  {
    if args.More? {
      var a, dir := args.first, Directory(w, Plug(c, m));
      var s := FillArgument(dir, m, a).value;
      FillArgumentGrows(dir, m, a);
      FillArgumentsGrow(w, c, s, args.others, parent);
      if name :| !HasKey(m.entries, name) && SuppliesVisibly(m.typ, args, parent, name) {
        FilledBinding(dir, m, a, name);
        if !(name == a.name && Provides(a)) {
          assert SuppliesVisibly(m.typ, args.others, parent, name);
          assert !NoConstantMissing(m.typ, s.entries, args.others, parent);
        }
      }
    }
  }

  lemma {:induction false} FillTypesGrow(w: World, c: Context, m: Value, t: Option<Type>)
    requires m.MapValue? && FillTypes(w, c, m, t).error.None?
    ensures var r := FillTypes(w, c, m, t).value;
            Size(r) >= Size(m) && (!NoConstantMissing(m.typ, m.entries, NoArguments, t) ==> Size(r) > Size(m))
    decreases t
  {
    if t.Some? {
      var args, parent := t.value.arguments, t.value.parent;
      var s := FillArguments(w, c, m, args).value;
      FillArgumentsGrow(w, c, m, args, parent);
      FillTypesGrow(w, c, s, parent);
      if name :| !HasKey(m.entries, name) && SuppliesVisibly(m.typ, NoArguments, t, name) {
        assert SuppliesVisibly(m.typ, args, parent, name);
      }
    }
  }

  lemma {:induction false} GenerateGrows(w: World, c: Context, v: Value)
    requires Generate(w, c, v).error.None?
    ensures var r := Generate(w, c, v).value; Size(r) >= Size(v) && (!Settled(v) ==> Size(r) > Size(v))
    decreases v, 1
  {
    if !v.flags.generated {
      match v
      case ScalarValue(_, _) =>
      case ArrayValue(es, f) => GenerateElemsGrow(w, c, f, Nil, es);
      case MapValue(t, task, es, f) =>
        GenerateEntriesGrow(w, c, t, task, f, End, es);
        var m := GenerateEntries(w, c, t, task, f, End, es).value;
        FillTypesGrow(w, c, m, Some(t));
        if name :| !HasKey(es, name) && SuppliesVisibly(t, t.arguments, t.parent, name) {
          GenerateKeepsKeys(w, c, t, task, f, End, es, name);
          assert SuppliesVisibly(t, NoArguments, Some(t), name);
        }
    }
  }

  lemma {:induction false} GenerateElemsGrow(w: World, c: Context, f: Flags, before: Elems, rest: Elems)
    requires GenerateElems(w, c, f, before, rest).error.None?
    ensures var n := Size(GenerateElems(w, c, f, before, rest).value);
            n >= SizeElems(before) + SizeElems(rest) && (!SettledElems(rest) ==> n > SizeElems(before) + SizeElems(rest))
    decreases rest, 0
  {
    if rest.Cons? {
      var inner := InArray(c, before, rest.tail, f);
      GenerateGrows(w, inner, rest.head);
      var done := Cons(Generate(w, inner, rest.head).value, Nil);
      SizeAppendElems(before, done);
      assert SizeElems(done) == Size(done.head) by { assert SizeElems(Nil) == 0; }
      GenerateElemsGrow(w, c, f, AppendElems(before, done), rest.tail);
    }
  }

  lemma {:induction false} GenerateEntriesGrow(w: World, c: Context, t: Type, task: Option<string>, f: Flags,
                                               left: Entries, rest: Entries)
    requires GenerateEntries(w, c, t, task, f, left, rest).error.None?
    ensures var n := Size(GenerateEntries(w, c, t, task, f, left, rest).value);
            && n >= SizeEntries(left) + SizeEntries(rest)
            && (!SettledEntries(rest) ==> n > SizeEntries(left) + SizeEntries(rest))
    decreases rest, 0
  {
    if rest.Bind? {
      var inner := InMap(c, t, task, left, rest.key, rest.rest, f);
      GenerateGrows(w, inner, rest.value);
      var done := Bind(rest.key, Generate(w, inner, rest.value).value, End);
      SizeAppendEntries(left, done);
      assert SizeEntries(End) == 0;
      assert CanIgnore(done.value) == CanIgnore(rest.value);
      GenerateEntriesGrow(w, c, t, task, f, AppendEntries(left, done), rest.rest);
    }
  }

  // ---------------------------------------------------------------- the identifier during generation

  /**
    When generation succeeds it keeps the content exactly when no visible constant was missing; then the identifier
    of the whole tree is the same after every single argument it filled.
  */
  lemma ContentIsKeptIff(w: World, v: Value)
    requires Generate(w, Root, v).error.None?
    ensures Canonical(Generate(w, Root, v).value) == Canonical(v) <==> Settled(v)
  {
    if Settled(v) { GenerateUnseen(w, Root, v); } else { GenerateGrows(w, Root, v); }
  }

  /** Even when generation throws half-way. */
  lemma IdentifierIsStable(w: World, v: Value)
    requires Settled(v)
    ensures var r := Generate(w, Root, v);
            && Identifier(w.h, r.value) == Identifier(w.h, v)
            && forall i :: 0 <= i < |r.roots| ==> Identifier(w.h, r.roots[i]) == Identifier(w.h, v)
  {
    GenerateUnseen(w, Root, v);
    var r := Generate(w, Root, v);
    DigestOfContent(w.h, r.value, v);
    forall i | 0 <= i < |r.roots| ensures Identifier(w.h, r.roots[i]) == Identifier(w.h, v) {
      DigestOfContent(w.h, r.roots[i], v);
    }
  }

  // ---------------------------------------------------------------- generation with one fixed directory

  function PureArguments(dir: Option<Path>, m: Value, args: Arguments): (r: Outcome)
    requires m.MapValue?
    ensures r.value.MapValue? && r.value == m.(entries := r.value.entries)
    decreases args
  {
    match args
    case NoArguments => Outcome(m, Option.None)
    case More(a, others) =>
      var s := FillArgument(dir, m, a);
      if s.error.Some? then s else PureArguments(dir, s.value, others)
  }

  function PureTypes(dir: Option<Path>, m: Value, t: Option<Type>): (r: Outcome)
    requires m.MapValue?
    ensures r.value.MapValue? && r.value == m.(entries := r.value.entries)
    decreases t
  {
    match t
    case None => Outcome(m, Option.None)
    case Some(ty) =>
      var s := PureArguments(dir, m, ty.arguments);
      if s.error.Some? then s else PureTypes(dir, s.value, ty.parent)
  }

  /** Generation as a function of the value and of one directory for all the generated paths. */
  function PureGenerate(dir: Option<Path>, v: Value): (r: Outcome)
    ensures SameHead(v, r.value)
    decreases v, 1
  {
    if v.flags.generated then Outcome(v, Option.None)
    else if v.flags.sealed then Outcome(v, Some(SealedInside))
    else
      var r := match v
        case ScalarValue(_, _) => Outcome(v, Option.None)
        case ArrayValue(es, f) => var (xs, e) := PureElems(dir, es); Outcome(ArrayValue(xs, f), e)
        case MapValue(t, task, es, f) =>
          var (xs, e) := PureEntries(dir, es);
          if e.Some? then Outcome(MapValue(t, task, xs, f), e) else PureTypes(dir, MapValue(t, task, xs, f), Some(t));
      if r.error.Some? then r else r.(value := r.value.(flags := r.value.flags.(generated := true)))
  }

  function PureElems(dir: Option<Path>, es: Elems): (Elems, Option<Error>)
    decreases es, 0
  {
    match es
    case Nil => (Nil, Option.None)
    case Cons(v, tail) =>
      var s := PureGenerate(dir, v);
      if s.error.Some? then (Cons(s.value, tail), s.error)
      else var (xs, e) := PureElems(dir, tail); (Cons(s.value, xs), e)
  }

  function PureEntries(dir: Option<Path>, es: Entries): (Entries, Option<Error>)
    decreases es, 0
  {
    match es
    case End => (End, Option.None)
    case Bind(k, v, rest) =>
      var s := PureGenerate(dir, v);
      if s.error.Some? then (Bind(k, s.value, rest), s.error)
      else var (xs, e) := PureEntries(dir, rest); (Bind(k, s.value, xs), e)
  }

  lemma DirectoryOfContent(w: World, x: Value, y: Value)
    requires Canonical(x) == Canonical(y)
    ensures Directory(w, x) == Directory(w, y)
  {
    DigestOfContent(w.h, x, y);
  }

  predicate Agrees(r: Generation, p: Outcome) { r.value == p.value && r.error == p.error }

  lemma {:induction false} ArgumentsAgree(w: World, c: Context, m: Value, args: Arguments, parent: Option<Type>)
    requires m.MapValue? && (Hidden(c, m) || NoConstantMissing(m.typ, m.entries, args, parent))
    ensures Agrees(FillArguments(w, c, m, args), PureArguments(Directory(w, Plug(c, m)), m, args))
    decreases args
  {
    if args.More? {
      var dir := Directory(w, Plug(c, m));
      var s := FillArgument(dir, m, args.first);
      if NoConstantMissing(m.typ, m.entries, args, parent) {
        FillArgumentSettled(dir, m, args.first, args.others, parent);
      }
      if s.error.None? {
        assert Unseen(c, m, s.value);
        UnseenKeepsRoot(c, m, s.value);
        DirectoryOfContent(w, Plug(c, m), Plug(c, s.value));
        if Hidden(c, m) { PlugHidden(c, m, s.value); }
        ArgumentsAgree(w, c, s.value, args.others, parent);
      }
    }
  }

  lemma {:induction false} TypesAgree(w: World, c: Context, m: Value, t: Option<Type>)
    requires m.MapValue? && (Hidden(c, m) || NoConstantMissing(m.typ, m.entries, NoArguments, t))
    ensures Agrees(FillTypes(w, c, m, t), PureTypes(Directory(w, Plug(c, m)), m, t))
    decreases t
  {
    if t.Some? {
      var args, parent := t.value.arguments, t.value.parent;
      if NoConstantMissing(m.typ, m.entries, NoArguments, t) {
        forall name | !HasKey(m.entries, name) ensures !SuppliesVisibly(m.typ, args, parent, name) {
          assert !SuppliesVisibly(m.typ, NoArguments, t, name);
        }
      }
      ArgumentsAgree(w, c, m, args, parent);
      FillArgumentsUnseen(w, c, m, args, parent);
      var s := FillArguments(w, c, m, args);
      if s.error.None? {
        assert Unseen(c, m, s.value);
        UnseenKeepsRoot(c, m, s.value);
        DirectoryOfContent(w, Plug(c, m), Plug(c, s.value));
        if Hidden(c, m) { PlugHidden(c, m, s.value); }
        TypesAgree(w, c, s.value, parent);
      }
    }
  }

  /** Reading the digest of the changing tree gives what the one directory known at the start gives. */
  lemma {:induction false} GenerationAgrees(w: World, c: Context, v: Value)
    requires Hidden(c, v) || Settled(v)
    ensures Agrees(Generate(w, c, v), PureGenerate(Directory(w, Plug(c, v)), v))
    decreases v, 1
  {
    if !v.flags.generated && !v.flags.sealed {
      match v
      case ScalarValue(_, _) =>
      case ArrayValue(es, f) => ElemsAgree(w, c, f, Nil, es);
      case MapValue(t, task, es, f) =>
        EntriesAgree(w, c, t, task, f, End, es);
        var s := GenerateEntries(w, c, t, task, f, End, es);
        if s.error.None? {
          GenerateEntriesUnseen(w, c, t, task, f, End, es);
          SettledMap(w, c, v, s.value);
          DirectoryOfContent(w, Plug(c, v), Plug(c, s.value));
          TypesAgree(w, c, s.value, Some(t));
        }
    }
  }

  lemma {:induction false} ElemsAgree(w: World, c: Context, f: Flags, before: Elems, rest: Elems)
    requires Hidden(c, ArrayValue(AppendElems(before, rest), f)) || SettledElems(rest)
    ensures var (xs, e) := PureElems(Directory(w, Plug(c, ArrayValue(AppendElems(before, rest), f))), rest);
            Agrees(GenerateElems(w, c, f, before, rest), Outcome(ArrayValue(AppendElems(before, xs), f), e))
    decreases rest, 0
  {
    match rest
    case Nil => AppendNothing(before);
    case Cons(v, tail) =>
      var inner := InArray(c, before, tail, f);
      GenerationAgrees(w, inner, v);
      GenerateUnseen(w, inner, v);
      var s := Generate(w, inner, v);
      if s.error.None? {
        assert Unseen(inner, v, s.value);
        UnseenInside(inner, v, s.value);
        UnseenKeepsRoot(c, Close(inner, v), Close(inner, s.value));
        DirectoryOfContent(w, Plug(c, Close(inner, v)), Plug(c, Close(inner, s.value)));
        AppendElemsTwice(before, s.value, tail);
        if Hidden(c, Close(inner, v)) { PlugHidden(c, Close(inner, v), Close(inner, s.value)); }
        ElemsAgree(w, c, f, AppendElems(before, Cons(s.value, Nil)), tail);
        var (xs, _) := PureElems(Directory(w, Plug(c, Close(inner, v))), tail);
        AppendElemsTwice(before, s.value, xs);
      }
  }

  lemma {:induction false} EntriesAgree(w: World, c: Context, t: Type, task: Option<string>, f: Flags,
                                        left: Entries, rest: Entries)
    requires Hidden(c, MapValue(t, task, AppendEntries(left, rest), f)) || SettledEntries(rest)
    ensures var (xs, e) := PureEntries(Directory(w, Plug(c, MapValue(t, task, AppendEntries(left, rest), f))), rest);
            Agrees(GenerateEntries(w, c, t, task, f, left, rest), Outcome(MapValue(t, task, AppendEntries(left, xs), f), e))
    decreases rest, 0
  {
    match rest
    case End => AppendEnd(left);
    case Bind(k, v, tail) =>
      var inner := InMap(c, t, task, left, k, tail, f);
      GenerationAgrees(w, inner, v);
      GenerateUnseen(w, inner, v);
      var s := Generate(w, inner, v);
      if s.error.None? {
        assert Unseen(inner, v, s.value);
        UnseenInside(inner, v, s.value);
        UnseenKeepsRoot(c, Close(inner, v), Close(inner, s.value));
        DirectoryOfContent(w, Plug(c, Close(inner, v)), Plug(c, Close(inner, s.value)));
        AppendEntriesTwice(left, k, s.value, tail);
        if Hidden(c, Close(inner, v)) { PlugHidden(c, Close(inner, v), Close(inner, s.value)); }
        EntriesAgree(w, c, t, task, f, AppendEntries(left, Bind(k, s.value, End)), tail);
        var (xs, _) := PureEntries(Directory(w, Plug(c, Close(inner, v))), tail);
        AppendEntriesTwice(left, k, s.value, xs);
      }
  }

  // ---------------------------------------------------------------- submitting a task

  /** `Value::seal`: children first, values already sealed are left alone. */
  function Seal(v: Value): (r: Value)
    ensures CanIgnore(r) == CanIgnore(v)
    decreases v, 1
  {
    if v.flags.sealed then v
    else
      var f := v.flags.(sealed := true);
      match v
      case ScalarValue(s, _) => ScalarValue(s, f)
      case ArrayValue(es, _) => ArrayValue(SealElems(es), f)
      case MapValue(t, task, es, _) => MapValue(t, task, SealEntries(es), f)
  }

  function SealElems(es: Elems): Elems
    decreases es, 0
  {
    if es.Nil? then Nil else Cons(Seal(es.head), SealElems(es.tail))
  }

  function SealEntries(es: Entries): Entries
    decreases es, 0
  {
    if es.End? then End else Bind(es.key, Seal(es.value), SealEntries(es.rest))
  }

  lemma {:induction false} SealKeepsContent(v: Value)
    ensures Canonical(Seal(v)) == Canonical(v)
    decreases v, 1
  {
    match v
    case ScalarValue(_, _) =>
    case ArrayValue(es, _) => SealKeepsElems(es);
    case MapValue(_, _, es, _) => SealKeepsEntries(es);
  }

  lemma {:induction false} SealKeepsElems(es: Elems)
    ensures CanonicalElems(SealElems(es)) == CanonicalElems(es)
    decreases es, 0
  {
    if es.Cons? {
      SealKeepsContent(es.head);
      SealKeepsElems(es.tail);
    }
  }

  lemma {:induction false} SealKeepsEntries(es: Entries)
    ensures CanonicalEntries(SealEntries(es)) == CanonicalEntries(es)
    decreases es, 0
  {
    if es.Bind? {
      SealKeepsContent(es.value);
      SealKeepsEntries(es.rest);
    }
  }

  /** What `Task::submit` hands to the workspace, with the parameters it configured. */
  datatype Submission = Submission(jobId: string, locator: Path, parameters: Value, error: Option<Error>)

  function Submit(w: World, task: string, v: Value): Submission
    requires v.MapValue?
  {
    var sv := v.(task := Some(task));
    var jobId := Identifier(w.h, sv);
    var locator := Named(Directory(w, sv).value, LocalName(task));
    var r := Generate(w, Root, sv);
    Submission(jobId, locator, if r.error.None? then Seal(r.value) else r.value, r.error)
  }

  /**
    One identifier for a job: the identifier of the parameters it finally gets, the one its directory is named after,
    and the one in every path generated while the parameters were filled.
  */
  lemma SubmitUsesOneIdentifier(w: World, task: string, v: Value)
    requires v.MapValue? && Settled(v.(task := Some(task)))
    ensures var s, sv := Submit(w, task, v), v.(task := Some(task));
            var dir := Slash(Slash(JobsDir(w.workspace), task), s.jobId);
            && s.jobId == Identifier(w.h, s.parameters)
            && s.locator == Locator(w.workspace, task, s.jobId)
            && s.error == PureGenerate(Some(dir), sv).error
            && (s.error.None? ==> s.parameters == Seal(PureGenerate(Some(dir), sv).value))
  {
    var sv := v.(task := Some(task));
    IdentifierIsStable(w, sv);
    GenerationAgrees(w, Root, sv);
    var g := Generate(w, Root, sv).value;
    SealKeepsContent(g);
    DigestOfContent(w.h, Seal(g), g);
  }

  /** Job identifiers do not tell when a constant was missing: the content does not survive configuration. */
  lemma MissingConstantChangesContent(w: World, task: string, v: Value)
    requires v.MapValue? && !Settled(v.(task := Some(task))) && Submit(w, task, v).error.None?
    ensures Canonical(Submit(w, task, v).parameters) != Canonical(v.(task := Some(task)))
  {
    var sv := v.(task := Some(task));
    ContentIsKeptIff(w, sv);
    SealKeepsContent(Generate(w, Root, sv).value);
  }
}
