/**
  When generation changes the identifier. Generation only adds entries to maps, so a longer or different byte stream
  shows: with digests of one length, and no two of the hashed streams colliding, the identifier is kept if and only if
  no visible constant was missing.
*/
module IdentifierChanges {
  import opened Markers
  import opened Paths
  import opened Values
  import opened Identity
  import opened GenerationTheorems

  // ---------------------------------------------------------------- grown contents

  /** The second content is the first one with entries added to its maps, at any depth. */
  predicate Grown(c: Content, d: Content) {
    match c
    case CScalar(_) => d == c
    case CArray(es) => d.CArray? && GrownElems(es, d.elems)
    case CMap(name, task, es) => d.CMap? && d.typeName == name && d.task == task && GrownEntries(es, d.entries)
  }

  predicate GrownElems(a: CElems, b: CElems) {
    if a.CNil? then b.CNil? else b.CCons? && Grown(a.head, b.head) && GrownElems(a.tail, b.tail)
  }

  predicate GrownEntries(a: CEntries, b: CEntries)
    decreases a, b
  {
    || (a.CEnd? && b.CEnd?)
    || (b.CBind? && GrownEntries(a, b.rest))
    || (a.CBind? && b.CBind? && a.key == b.key && Grown(a.value, b.value) && GrownEntries(a.rest, b.rest))
  }

  /** All digests have the same, positive length. */
  ghost predicate FixedLength(h: Hash, n: nat) { n > 0 && forall s :: |h.sha1(s)| == n }

  /** The streams that are hashed for a content: its own and those of all values bound in its maps. */
  function Hashed(h: Hash, c: Content): set<seq<Byte>> {
    match c
    case CScalar(_) => {ContentStream(h, c)}
    case CArray(es) => {ContentStream(h, c)} + HashedElems(h, es)
    case CMap(_, _, es) => {ContentStream(h, c)} + HashedEntries(h, es)
  }

  function HashedElems(h: Hash, es: CElems): set<seq<Byte>> {
    if es.CNil? then {} else Hashed(h, es.head) + HashedElems(h, es.tail)
  }

  function HashedEntries(h: Hash, es: CEntries): set<seq<Byte>> {
    if es.CEnd? then {} else Hashed(h, es.value) + HashedEntries(h, es.rest)
  }

  /** No stream of the one collides with a different stream of the other. */
  ghost predicate NoCollision(h: Hash, x: set<seq<Byte>>, y: set<seq<Byte>>) {
    forall s, t :: s in x && t in y && h.sha1(s) == h.sha1(t) ==> s == t
  }

  lemma FewerCollisions(h: Hash, x: set<seq<Byte>>, y: set<seq<Byte>>, a: set<seq<Byte>>, b: set<seq<Byte>>)
    requires NoCollision(h, x, y) && a <= x && b <= y
    ensures NoCollision(h, a, b)
  {
  }

  lemma Aligned(a: seq<Byte>, b: seq<Byte>, c: seq<Byte>, d: seq<Byte>)
    requires |a| <= |c| && |b| <= |d|
    ensures |a + b| <= |c + d|
    ensures a + b == c + d ==> a == c && b == d
  {
    if a + b == c + d {
      assert |a + b| == |c + d| && |a| == |c|;
      assert a == (a + b)[..|a|] && c == (c + d)[..|a|];
      assert b == (a + b)[|a|..] && d == (c + d)[|a|..];
    }
  }

  /** A grown content has a stream that is not shorter, and equal only if the content is the same. */
  lemma {:induction false} GrownStream(h: Hash, n: nat, c: Content, d: Content)
    requires FixedLength(h, n) && Grown(c, d) && NoCollision(h, Hashed(h, c), Hashed(h, d))
    ensures |ContentStream(h, c)| <= |ContentStream(h, d)|
    ensures ContentStream(h, c) == ContentStream(h, d) ==> c == d
    decreases c, d
  {
    match c
    case CScalar(_) =>
    case CArray(es) =>
      FewerCollisions(h, Hashed(h, c), Hashed(h, d), HashedElems(h, es), HashedElems(h, d.elems));
      GrownElemsStream(h, n, es, d.elems);
      var head := [1] + LittleEndian(Count(es), 8);
      Aligned(head, CElemsStream(h, es), head, CElemsStream(h, d.elems));
    case CMap(name, task, es) =>
      FewerCollisions(h, Hashed(h, c), Hashed(h, d), HashedEntries(h, es), HashedEntries(h, d.entries));
      GrownEntriesStream(h, n, es, d.entries);
      var head := Bytes(name) + TaskStream(task);
      Aligned(head, CEntriesStream(h, es), head, CEntriesStream(h, d.entries));
  }

  lemma {:induction false} GrownElemsStream(h: Hash, n: nat, a: CElems, b: CElems)
    requires FixedLength(h, n) && GrownElems(a, b) && NoCollision(h, HashedElems(h, a), HashedElems(h, b))
    ensures |CElemsStream(h, a)| <= |CElemsStream(h, b)| && Count(a) == Count(b)
    ensures CElemsStream(h, a) == CElemsStream(h, b) ==> a == b
    decreases a, b
  {
    if a.CCons? {
      var x, y := HashedElems(h, a), HashedElems(h, b);
      FewerCollisions(h, x, y, Hashed(h, a.head), Hashed(h, b.head));
      FewerCollisions(h, x, y, HashedElems(h, a.tail), HashedElems(h, b.tail));
      GrownStream(h, n, a.head, b.head);
      GrownElemsStream(h, n, a.tail, b.tail);
      Aligned(ContentStream(h, a.head), CElemsStream(h, a.tail), ContentStream(h, b.head), CElemsStream(h, b.tail));
    }
  }

  lemma SelfHashed(h: Hash, c: Content)
    ensures ContentStream(h, c) in Hashed(h, c)
  {
  }

  lemma {:induction false} GrownEntriesStream(h: Hash, n: nat, a: CEntries, b: CEntries)
    requires FixedLength(h, n) && GrownEntries(a, b) && NoCollision(h, HashedEntries(h, a), HashedEntries(h, b))
    ensures |CEntriesStream(h, a)| <= |CEntriesStream(h, b)|
    ensures CEntriesStream(h, a) == CEntriesStream(h, b) ==> a == b
    decreases a, b
  {
    var x, y := HashedEntries(h, a), HashedEntries(h, b);
    if b.CBind? && GrownEntries(a, b.rest) {
      FewerCollisions(h, x, y, x, HashedEntries(h, b.rest));
      GrownEntriesStream(h, n, a, b.rest);
      assert |h.sha1(ContentStream(h, b.value))| == n;
    } else if a.CBind? {
      FewerCollisions(h, x, y, Hashed(h, a.value), Hashed(h, b.value));
      FewerCollisions(h, x, y, HashedEntries(h, a.rest), HashedEntries(h, b.rest));
      GrownStream(h, n, a.value, b.value);
      GrownEntriesStream(h, n, a.rest, b.rest);
      SelfHashed(h, a.value);
      SelfHashed(h, b.value);
      var s, t := h.sha1(ContentStream(h, a.value)), h.sha1(ContentStream(h, b.value));
      Aligned(Bytes(a.key) + s, CEntriesStream(h, a.rest), Bytes(b.key) + t, CEntriesStream(h, b.rest));
      Aligned(Bytes(a.key), s, Bytes(b.key), t);
    }
  }

  // ---------------------------------------------------------------- generation lets contents grow

  lemma {:induction false} GrownSame(c: Content)
    ensures Grown(c, c)
  {
    match c
    case CScalar(_) =>
    case CArray(es) => GrownElemsSame(es);
    case CMap(_, _, es) => GrownEntriesSame(es);
  }

  lemma {:induction false} GrownElemsSame(es: CElems)
    ensures GrownElems(es, es)
  {
    if es.CCons? {
      GrownSame(es.head);
      GrownElemsSame(es.tail);
    }
  }

  lemma {:induction false} GrownEntriesSame(es: CEntries)
    ensures GrownEntries(es, es)
  {
    if es.CBind? {
      GrownSame(es.value);
      GrownEntriesSame(es.rest);
    }
  }

  lemma {:induction false} InsertGrows(a: CEntries, es: Entries, k: string, v: Value)
    requires GrownEntries(a, CanonicalEntries(es)) && !HasKey(es, k)
    ensures GrownEntries(a, CanonicalEntries(Insert(es, k, v)))
    decreases es
  {
    if es.Bind? && !Less(k, es.key) {
      if CanIgnore(es.value) || GrownEntries(a, CanonicalEntries(es.rest)) {
        InsertGrows(a, es.rest, k, v);
      } else {
        InsertGrows(a.rest, es.rest, k, v);
      }
    }
  }

  lemma {:induction false} FillArgumentsGrown(w: World, c: Context, m: Value, args: Arguments, a: CEntries)
    requires m.MapValue? && GrownEntries(a, CanonicalEntries(m.entries))
    ensures GrownEntries(a, CanonicalEntries(FillArguments(w, c, m, args).value.entries))
    decreases args
  {
    if args.More? {
      var x, dir := args.first, Directory(w, Plug(c, m));
      FillArgumentGrown(dir, m, x, a);
      var s := FillArgument(dir, m, x);
      if s.error.None? { FillArgumentsGrown(w, c, s.value, args.others, a); }
    }
  }

  lemma FillArgumentGrown(dir: Option<Path>, m: Value, x: Argument, a: CEntries)
    requires m.MapValue? && GrownEntries(a, CanonicalEntries(m.entries))
    ensures GrownEntries(a, CanonicalEntries(FillArgument(dir, m, x).value.entries))
  {
    var r := FillArgument(dir, m, x).value;
    if r != m {
      var v := Supplied(dir, x);
      assert FillArgument(dir, m, x) == Set(m, x.name, v);
      InsertGrows(a, m.entries, x.name, Bound(m.typ, x.name, v));
    }
  }

  lemma {:induction false} FillTypesGrown(w: World, c: Context, m: Value, t: Option<Type>, a: CEntries)
    requires m.MapValue? && GrownEntries(a, CanonicalEntries(m.entries))
    ensures GrownEntries(a, CanonicalEntries(FillTypes(w, c, m, t).value.entries))
    decreases t
  {
    if t.Some? {
      var s := FillArguments(w, c, m, t.value.arguments);
      FillArgumentsGrown(w, c, m, t.value.arguments, a);
      if s.error.None? { FillTypesGrown(w, c, s.value, t.value.parent, a); }
    }
  }

  lemma {:induction false} GenerateIsGrown(w: World, c: Context, v: Value)
    requires Generate(w, c, v).error.None?
    ensures Grown(Canonical(v), Canonical(Generate(w, c, v).value))
    decreases v, 1
  {
    GrownSame(Canonical(v));
    if !v.flags.generated {
      match v
      case ScalarValue(_, _) =>
      case ArrayValue(es, f) => var x := GenerateElemsGrown(w, c, f, Nil, es);
      case MapValue(t, task, es, f) =>
        var x := GenerateEntriesGrown(w, c, t, task, f, End, es);
        var m := GenerateEntries(w, c, t, task, f, End, es).value;
        FillTypesGrown(w, c, m, Some(t), CanonicalEntries(es));
    }
  }

  lemma {:induction false} GenerateElemsGrown(w: World, c: Context, f: Flags, left: Elems, rest: Elems)
    returns (x: Elems)
    requires GenerateElems(w, c, f, left, rest).error.None?
    ensures GenerateElems(w, c, f, left, rest).value == ArrayValue(AppendElems(left, x), f)
    ensures GrownElems(CanonicalElems(rest), CanonicalElems(x))
    decreases rest, 0
  {
    x := Nil;
    if rest.Cons? {
      var inner := InArray(c, left, rest.tail, f);
      var r := Generate(w, inner, rest.head).value;
      GenerateIsGrown(w, inner, rest.head);
      var more := GenerateElemsGrown(w, c, f, AppendElems(left, Cons(r, Nil)), rest.tail);
      AppendElemsTwice(left, r, more);
      x := Cons(r, more);
    } else {
      AppendNothing(left);
    }
  }

  lemma {:induction false} GenerateEntriesGrown(w: World, c: Context, t: Type, task: Option<string>, f: Flags,
                                                left: Entries, rest: Entries) returns (x: Entries)
    requires GenerateEntries(w, c, t, task, f, left, rest).error.None?
    ensures GenerateEntries(w, c, t, task, f, left, rest).value == MapValue(t, task, AppendEntries(left, x), f)
    ensures GrownEntries(CanonicalEntries(rest), CanonicalEntries(x))
    decreases rest, 0
  {
    x := End;
    if rest.Bind? {
      var inner := InMap(c, t, task, left, rest.key, rest.rest, f);
      var r := Generate(w, inner, rest.value).value;
      GenerateIsGrown(w, inner, rest.value);
      var more := GenerateEntriesGrown(w, c, t, task, f, AppendEntries(left, Bind(rest.key, r, End)), rest.rest);
      AppendEntriesTwice(left, rest.key, r, more);
      assert CanIgnore(r) == CanIgnore(rest.value);
      x := Bind(rest.key, r, more);
    } else {
      AppendEnd(left);
    }
  }

  // ---------------------------------------------------------------- the identifier and missing constants

  /**
    When generation succeeds, digests have one length and no stream hashed before collides with a different one hashed
    after, generation keeps the identifier if and only if no map that counts missed a visible constant.
  */
  lemma IdentifierIsKeptIff(w: World, v: Value, n: nat)
    requires Generate(w, Root, v).error.None? && FixedLength(w.h, n)
    requires NoCollision(w.h, Hashed(w.h, Canonical(v)), Hashed(w.h, Canonical(Generate(w, Root, v).value)))
    ensures Identifier(w.h, Generate(w, Root, v).value) == Identifier(w.h, v) <==> Settled(v)
  {
    var r := Generate(w, Root, v).value;
    if Settled(v) {
      IdentifierIsStable(w, v);
    } else if Identifier(w.h, r) == Identifier(w.h, v) {
      HexIsInjective(Digest(w.h, r), Digest(w.h, v));
      StreamOfContent(w.h, v);
      StreamOfContent(w.h, r);
      SelfHashed(w.h, Canonical(v));
      SelfHashed(w.h, Canonical(r));
      GenerateIsGrown(w, Root, v);
      GrownStream(w.h, n, Canonical(v), Canonical(r));
      ContentIsKeptIff(w, v);
    }
  }

  /** So a job runs with the parameters it was named after if and only if no visible constant was missing. */
  lemma JobIsNamedRightIff(w: World, task: string, v: Value, n: nat)
    requires v.MapValue? && FixedLength(w.h, n) && Submit(w, task, v).error.None?
    requires NoCollision(w.h, Hashed(w.h, Canonical(v.(task := Some(task)))),
                         Hashed(w.h, Canonical(Submit(w, task, v).parameters)))
    ensures Submit(w, task, v).jobId == Identifier(w.h, Submit(w, task, v).parameters)
       <==> Settled(v.(task := Some(task)))
  {
    var sv := v.(task := Some(task));
    var g := Generate(w, Root, sv).value;
    SealKeepsContent(g);
    DigestOfContent(w.h, Seal(g), g);
    IdentifierIsKeptIff(w, sv, n);
  }

  /** One visible constant: a type whose argument `c` is the constant 1. */
  const COUNTED := Argument("c", true, false, Constant(ScalarValue(Integer(1), PLAIN)), None)

  lemma ConstantIsFilled(w: World, task: string, t: Type, v: Value)
    requires t == Type("t", None, More(COUNTED, NoArguments), false) && v == MapValue(t, Some(task), End, PLAIN)
    ensures Generate(w, Root, v).error.None?
    ensures Canonical(Generate(w, Root, v).value) == CMap("t", Some(task), CBind("c", CScalar(Integer(1)), CEnd))
  {
    var x := ConstantValue(COUNTED.provision.value);
    assert FindArgument(t.arguments, "c") == Some(COUNTED);
    assert Bound(t, "c", x) == x && !CanIgnore(x);
    var m := MapValue(t, Some(task), Bind("c", x, End), PLAIN);
    assert FillArgument(Directory(w, v), v, COUNTED) == Outcome(m, Option.None);
    assert FillArguments(w, Root, v, t.arguments).value == m;
    assert FillTypes(w, Root, v, Some(t)).value == m;
    assert Generate(w, Root, v).value ==
             MapValue(t, Some(task), Bind("c", x, End), Flags(false, false, false, true));
  }

  lemma ConstantIsAdded(w: World, task: string, t: Type, v: Value)
    requires t == Type("t", None, More(COUNTED, NoArguments), false) && v == MapValue(t, None, End, PLAIN)
    ensures Submit(w, task, v).error.None?
    ensures Canonical(Submit(w, task, v).parameters) == CMap("t", Some(task), CBind("c", CScalar(Integer(1)), CEnd))
  {
    var sv := MapValue(t, Some(task), End, PLAIN);
    ConstantIsFilled(w, task, t, sv);
    SealKeepsContent(Generate(w, Root, sv).value);
  }

  /** With such a parameter type submission succeeds and the job gets another content than it was named after. */
  lemma ConstantIsMissing(w: World, task: string)
    ensures exists v: Value :: v.MapValue? && Submit(w, task, v).error.None?
                            && Canonical(Submit(w, task, v).parameters) != Canonical(v.(task := Some(task)))
  {
    var t := Type("t", None, More(COUNTED, NoArguments), false);
    var v := MapValue(t, None, End, PLAIN);
    ConstantIsAdded(w, task, t, v);
    assert Canonical(v.(task := Some(task))) == CMap("t", Some(task), CEnd);
  }
}
