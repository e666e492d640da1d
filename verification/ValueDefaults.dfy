/**
  When `set` takes a value for a default: exactly when it has the content of the argument's default, flags aside.
*/
module ValueDefaults {
  import opened Values
  import J = ValueJson

  /** Scalars that are set, and arrays of such: what can be compared. */
  predicate Regular(v: Value) {
    match v
    case ScalarValue(s, _) => !s.Unset?
    case ArrayValue(es, _) => RegularElems(es)
    case MapValue(_, _, _, _) => false
  }

  predicate RegularElems(es: Elems) { es.Cons? ==> Regular(es.head) && RegularElems(es.tail) }

  /** A comparison with such a value says whether the contents are the same, and never throws. */
  lemma {:induction false} EqualsIffSameContent(a: Value, b: Value)
    requires Regular(a)
    ensures Equals(a, b) == if J.Bare(a) == J.Bare(b) then Same else Different
    decreases a, 1
  {
    if a.ArrayValue? && b.ArrayValue? {
      SameLength(a.elems, b.elems);
      if Length(a.elems) == Length(b.elems) { EqualElemsIffSameContent(a.elems, b.elems); }
    }
  }

  lemma {:induction false} SameLength(a: Elems, b: Elems)
    ensures J.BareElems(a) == J.BareElems(b) ==> Length(a) == Length(b)
  {
    if a.Cons? && b.Cons? { SameLength(a.tail, b.tail); }
  }

  lemma {:induction false} EqualElemsIffSameContent(a: Elems, b: Elems)
    requires RegularElems(a) && Length(a) == Length(b)
    ensures EqualElems(a, b) == if J.BareElems(a) == J.BareElems(b) then Same else Different
    decreases a, 0
  {
    if a.Cons? {
      EqualsIffSameContent(a.head, b.head);
      EqualElemsIffSameContent(a.tail, b.tail);
    }
  }

  /** Maps, and arrays up to their first map, cannot be compared at all. */
  lemma MapsAreNotCompared(t: Type, task: Option<string>, es: Entries, f: Flags, b: Value)
    ensures Equals(MapValue(t, task, es, f), b) == Throws
  {
  }

  /**
    After a sequence of `set` calls a key has the content of its last value. It is flagged as default exactly if it was
    before or has the content of the default of the type's argument, and as ignored exactly if it was before or the
    argument is.
  */
  lemma SetFlagsByContent(m: Value, ops: seq<(string, Value)>, key: string, v: Value)
    requires m.MapValue? && Sorted(m.entries) && SetAll(m, ops).error.None? && Last(ops, key) == Some(v)
    requires FindArgument(m.typ.arguments, key).Some? && FindArgument(m.typ.arguments, key).value.provision.Default? ==>
               Regular(FindArgument(m.typ.arguments, key).value.provision.value)
    ensures var x := Lookup(SetAll(m, ops).value.entries, key);
            var a := FindArgument(m.typ.arguments, key);
            && x.Some? && J.Bare(x.value) == J.Bare(v)
            && (x.value.flags.isDefault <==>
                  || v.flags.isDefault
                  || (a.Some? && a.value.provision.Default? && J.Bare(a.value.provision.value) == J.Bare(v)))
            && (x.value.flags.ignore <==> v.flags.ignore || (a.Some? && a.value.ignored))
            && x.value.flags.sealed == v.flags.sealed && x.value.flags.generated == v.flags.generated
  {
    SetAllBinds(m, ops, key);
    match FindArgument(m.typ.arguments, key)
    case None =>
    case Some(a) => if a.provision.Default? { EqualsIffSameContent(a.provision.value, v); }
  }

  /** The argument found is the first one of that name. */
  function List(args: Arguments): seq<Argument> { if args.NoArguments? then [] else [args.first] + List(args.others) }

  lemma {:induction false} ArgumentIsFirst(args: Arguments, name: string)
    ensures match FindArgument(args, name)
            case None => forall i :: 0 <= i < |List(args)| ==> List(args)[i].name != name
            case Some(a) => exists i :: 0 <= i < |List(args)| && List(args)[i] == a && a.name == name
                                     && forall j :: 0 <= j < i ==> List(args)[j].name != name
  {
    if args.More? && args.first.name != name {
      ArgumentIsFirst(args.others, name);
      if FindArgument(args, name).Some? {
        var i :| 0 <= i < |List(args.others)| && List(args.others)[i] == FindArgument(args, name).value
                 && forall j :: 0 <= j < i ==> List(args.others)[j].name != name;
        assert List(args)[i + 1] == FindArgument(args, name).value;
      }
    } else if args.More? {
      assert List(args)[0] == args.first;
    }
  }
}
