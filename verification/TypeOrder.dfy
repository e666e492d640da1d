/**
  Types as names with a chain of parents: acceptance, array types, and the least common ancestor.
*/
module TypeOrder {

  datatype Maybe<T> = Nothing | Just(value: T)
  datatype Type = Type(name: string, parent: Maybe<Type>)

  const ANY := Type("any", Nothing)

  /** The type and everything above it. */
  function Chain(t: Maybe<Type>): seq<Type> {
    match t
    case Nothing => []
    case Just(ty) => [ty] + Chain(ty.parent)
  }

  function Up(t: Type): seq<Type> { Chain(Just(t)) }

  predicate Named(ts: seq<Type>, name: string) { exists i :: 0 <= i < |ts| && ts[i].name == name }

  /** `a` is `b` or one of its ancestors, by name. */
  predicate Above(a: Type, b: Type) { Named(Up(b), a.name) }

  predicate Castable(a: Type, b: Type) { a.name == "real" && b.name == "integer" }

  predicate Accepts(a: Type, b: Type) { a.name == "any" || Above(a, b) || Castable(a, b) }

  /** Each name stands for one type: what a registry of types ensures. */
  ghost predicate Coherent(a: Type, b: Type) {
    forall s, t :: s in Up(a) && t in Up(b) && s.name == t.name ==> s == t
  }

  // ---------------------------------------------------------------- the order

  lemma {:induction false} ChainOfMember(t: Maybe<Type>, s: Type)
    requires s in Chain(t)
    ensures forall r :: r in Up(s) ==> r in Chain(t)
  {
    var ty := t.value;
    if s != ty {
      assert s in Chain(ty.parent);
      ChainOfMember(ty.parent, s);
    }
  }

  lemma SelfIsUp(t: Type)
    ensures t in Up(t) && Up(t)[0] == t
  {
  }

  lemma AboveIsReflexive(a: Type)
    ensures Above(a, a) && Accepts(a, a)
  {
    SelfIsUp(a);
  }

  lemma AboveIsTransitive(a: Type, b: Type, c: Type)
    requires Coherent(b, c) && Above(a, b) && Above(b, c)
    ensures Above(a, c)
  {
    SelfIsUp(b);
    var j :| 0 <= j < |Up(c)| && Up(c)[j].name == b.name;
    assert Up(c)[j] in Up(c);
    ChainOfMember(Just(c), b);
    var i :| 0 <= i < |Up(b)| && Up(b)[i].name == a.name;
    assert Up(b)[i] in Up(c);
  }

  /** Two types above each other are one. */
  lemma AboveIsAntisymmetric(a: Type, b: Type)
    requires Coherent(a, b) && Above(a, b) && Above(b, a)
    ensures a == b
  {
    SelfIsUp(a);
    SelfIsUp(b);
    var i :| 0 <= i < |Up(b)| && Up(b)[i].name == a.name;
    var j :| 0 <= j < |Up(a)| && Up(a)[j].name == b.name;
    assert Up(b)[i] in Up(b) && Up(a)[j] in Up(a);
    MemberIsNotLarger(Just(b), a);
    MemberIsNotLarger(Just(a), b);
  }

  lemma {:induction false} MemberIsNotLarger(t: Maybe<Type>, s: Type)
    requires s in Chain(t)
    ensures |Up(s)| <= |Chain(t)| && (|Up(s)| == |Chain(t)| ==> t == Just(s))
  {
    if s != t.value { MemberIsNotLarger(t.value.parent, s); }
  }

  /** With the cast from integers to reals, acceptance is no longer transitive. */
  lemma CastBreaksTransitivity()
    ensures exists a, b, c :: Coherent(b, c) && Accepts(a, b) && Accepts(b, c) && !Accepts(a, c)
  {
    var real_ := Type("real", Just(ANY));
    var integer := Type("integer", Just(ANY));
    var count := Type("count", Just(integer));
    assert Chain(Just(ANY)) == [ANY] by { assert Chain(Nothing) == []; }
    assert Chain(Just(integer)) == [integer, ANY];
    assert Chain(Just(count)) == [count, integer, ANY];
    assert Up(count)[1].name == "integer";
    assert !Above(real_, count);
    assert Accepts(real_, integer) && Accepts(integer, count) && !Accepts(real_, count);
  }

  const BASE: set<string> := {"boolean", "integer", "real", "string", "path"}

  /** Among the base types each accepts itself, and besides that only real accepts integer, and not the other way. */
  lemma BaseTypesAccept(a: string, b: string)
    requires a in BASE && b in BASE
    ensures Accepts(Type(a, Just(ANY)), Type(b, Just(ANY))) <==> a == b || (a == "real" && b == "integer")
  {
    assert Chain(Just(ANY)) == [ANY] by { assert Chain(Nothing) == []; }
    var t := Type(b, Just(ANY));
    assert Up(t) == [t, ANY];
    assert Named(Up(t), a) <==> Up(t)[0].name == a || Up(t)[1].name == a;
  }

  /** And any accepts every type, but is accepted by those named any only. */
  lemma AnyIsTop(t: Type)
    ensures Accepts(ANY, t)
    ensures Accepts(t, ANY) <==> t.name == "any"
  {
    assert Chain(Just(ANY)) == [ANY] by { assert Chain(Nothing) == []; }
    assert Up(ANY)[0].name == "any";
  }

  // ---------------------------------------------------------------- arrays

  function ArrayOf(t: Type): Type {
    Type(t.name + "[]", if t.parent.Just? then Just(ArrayOf(t.parent.value)) else Nothing)
  }

  lemma {:induction false} ArrayChain(t: Type)
    ensures |Up(ArrayOf(t))| == |Up(t)| && forall i :: 0 <= i < |Up(t)| ==> Up(ArrayOf(t))[i] == ArrayOf(Up(t)[i])
  {
    if t.parent.Just? {
      ArrayChain(t.parent.value);
      assert Up(t) == [t] + Up(t.parent.value);
      assert Up(ArrayOf(t)) == [ArrayOf(t)] + Up(ArrayOf(t.parent.value));
    } else {
      assert Chain(Nothing) == [];
      assert t.parent == Nothing && ArrayOf(t).parent == Nothing;
      assert Up(t) == [t] && Up(ArrayOf(t)) == [ArrayOf(t)];
    }
  }

  lemma SuffixIsInjective(a: string, b: string)
    ensures a + "[]" == b + "[]" <==> a == b
  {
    if a + "[]" == b + "[]" { assert a == (a + "[]")[..|a|] == (b + "[]")[..|b|] == b; }
  }

  lemma SuffixShows(a: string)
    ensures a + "[]" != "any" && a + "[]" != "real"
  {
    assert (a + "[]")[|a| + 1] == ']';
  }

  /** Arrays are covariant along the parents of their components, and only there: neither any nor the cast carries over. */
  lemma ArraysAreCovariant(a: Type, b: Type)
    ensures Accepts(ArrayOf(a), ArrayOf(b)) <==> Above(a, b)
  {
    ArrayChain(b);
    SuffixShows(a.name);
    if Above(a, b) {
      var i :| 0 <= i < |Up(b)| && Up(b)[i].name == a.name;
      assert Up(ArrayOf(b))[i].name == ArrayOf(a).name;
    }
    if Above(ArrayOf(a), ArrayOf(b)) {
      var i :| 0 <= i < |Up(ArrayOf(b))| && Up(ArrayOf(b))[i].name == ArrayOf(a).name;
      SuffixIsInjective(Up(b)[i].name, a.name);
    }
  }

  // ---------------------------------------------------------------- loops

  method AcceptsLoop(a: Type, b: Type) returns (r: bool)
    ensures r == Accepts(a, b)
  {
    if a.name == "any" { return true; }
    var current := Just(b);
    ghost var seen: seq<Type> := [];
    while current.Just?
      invariant Up(b) == seen + Chain(current) && !Named(seen, a.name)
      decreases |Chain(current)|
    {
      if current.value.name == a.name {
        assert Up(b)[|seen|].name == a.name;
        return true;
      }
      seen := seen + [current.value];
      current := current.value.parent;
    }
    assert Up(b) == seen;
    r := Castable(a, b);
  }

  /** The first type up from `b` whose name is among those of `a`'s chain. */
  function FirstCommon(a: Type, b: Maybe<Type>): Type {
    match b
    case Nothing => ANY
    case Just(t) => if Named(Up(a), t.name) then t else FirstCommon(a, t.parent)
  }

  function Lca(a: Type, b: Type): Type { if Above(b, a) then a else FirstCommon(a, Just(b)) }

  method LcaLoop(a: Type, b: Type) returns (r: Type)
    ensures r == Lca(a, b)
  {
    var names: set<string> := {};
    var current := Just(a);
    ghost var seen: seq<Type> := [];
    while current.Just?
      invariant Up(a) == seen + Chain(current) && !Named(seen, b.name)
      invariant forall n :: n in names <==> Named(seen, n)
      decreases |Chain(current)|
    {
      if current.value.name == b.name {
        assert Up(a)[|seen|].name == b.name;
        return a;
      }
      names := names + {current.value.name};
      NamedSnoc(seen, current.value);
      seen := seen + [current.value];
      current := current.value.parent;
    }
    assert seen == Up(a);
    current := Just(b);
    while current.Just?
      invariant FirstCommon(a, current) == FirstCommon(a, Just(b))
      decreases |Chain(current)|
    {
      if current.value.name in names { return current.value; }
      current := current.value.parent;
    }
    r := ANY;
  }

  lemma NamedSnoc(ts: seq<Type>, t: Type)
    ensures forall n :: Named(ts + [t], n) <==> Named(ts, n) || n == t.name
  {
    var us := ts + [t];
    assert us[|ts|] == t;
    forall n ensures Named(us, n) <==> Named(ts, n) || n == t.name {
      if Named(ts, n) { var i :| 0 <= i < |ts| && ts[i].name == n; assert us[i].name == n; }
    }
  }

  // ---------------------------------------------------------------- what lca returns

  lemma {:induction false} FirstCommonIsLeast(a: Type, b: Maybe<Type>, c: Type)
    requires c in Chain(b) && Named(Up(a), c.name)
    ensures FirstCommon(a, b) in Chain(b) && Named(Up(a), FirstCommon(a, b).name)
    ensures c in Up(FirstCommon(a, b))
  {
    if !Named(Up(a), b.value.name) {
      assert c in Chain(b.value.parent);
      FirstCommonIsLeast(a, b.value.parent, c);
    } else {
      assert Up(b.value) == Chain(b);
    }
  }

  /** A common ancestor of both types, below every other one. */
  ghost predicate IsLeastCommon(r: Type, a: Type, b: Type) {
    Above(r, a) && Above(r, b) && forall c :: Above(c, a) && Above(c, b) ==> Above(c, r)
  }

  /** With a common ancestor, `lca` is the least one exactly when b is not a proper ancestor of a. */
  lemma LcaIsLeastIff(a: Type, b: Type, common: Type)
    requires Coherent(a, b) && Coherent(b, a) && Above(common, a) && Above(common, b)
    ensures IsLeastCommon(Lca(a, b), a, b) <==> !(Above(b, a) && a != b)
  {
    SelfIsUp(a);
    SelfIsUp(b);
    if Above(b, a) {
      if a != b {
        if Above(a, b) { AboveIsAntisymmetric(a, b); assert false; }
      } else {
        AboveIsReflexive(a);
      }
    } else {
      var r := FirstCommon(a, Just(b));
      var i :| 0 <= i < |Up(b)| && Up(b)[i].name == common.name;
      assert Up(b)[i] in Up(b);
      FirstCommonIsLeast(a, Just(b), Up(b)[i]);
      forall c | Above(c, a) && Above(c, b) ensures Above(c, r) {
        var j :| 0 <= j < |Up(b)| && Up(b)[j].name == c.name;
        assert Up(b)[j] in Up(b);
        FirstCommonIsLeast(a, Just(b), Up(b)[j]);
        MemberIsNamed(Up(r), Up(b)[j]);
      }
      MemberIsNamed(Up(b), r);
    }
  }

  lemma MemberIsNamed(ts: seq<Type>, t: Type)
    requires t in ts
    ensures Named(ts, t.name)
  {
  }

  lemma {:induction false} NothingInCommon(a: Type, b: Maybe<Type>)
    requires forall t :: t in Chain(b) ==> !Named(Up(a), t.name)
    ensures FirstCommon(a, b) == ANY
  {
    if b.Just? {
      assert b.value in Chain(b);
      NothingInCommon(a, b.value.parent);
    }
  }

  /** Without a common ancestor the result is any. */
  lemma LcaIsAny(a: Type, b: Type)
    requires !exists c :: Above(c, a) && Above(c, b)
    ensures Lca(a, b) == ANY
  {
    AboveIsReflexive(b);
    forall t | t in Up(b) ensures !Named(Up(a), t.name) { MemberIsNamed(Up(b), t); assert !(Above(t, a) && Above(t, b)); }
    NothingInCommon(a, Just(b));
  }

  /**
    `push_back` gives an array of component type a, when it gets a value of type b, the component type `lca(a, b)`;
    the array then accepts its new element exactly when b is not a proper ancestor of a.
  */
  lemma ElementIsAcceptedIff(a: Type, b: Type, common: Type)
    requires Coherent(a, b) && Coherent(b, a) && Above(common, a) && Above(common, b)
    ensures Above(Lca(a, b), b) <==> !(Above(b, a) && a != b)
  {
    LcaIsLeastIff(a, b, common);
    if Above(b, a) && a != b && Above(a, b) { AboveIsAntisymmetric(a, b); assert false; }
  }
}
