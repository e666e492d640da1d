/**
  What reading JSON gives, for any document and not only for written values: an object binds exactly its own fields,
  each to what its value reads as; a declared scalar has the declared kind; casts keep what a scalar stands for.
*/
module ValueReading {
  import opened Values
  import opened ValueJson
  import R = ValueRoundTrip

  // ---------------------------------------------------------------- objects

  /** The fields of a JSON object, as a `std::map` keeps them. */
  predicate JSorted(fs: JFields) {
    fs.JField? ==> (fs.rest.JField? ==> Less(fs.key, fs.rest.key)) && JSorted(fs.rest)
  }

  lemma {:induction false} JAbsent(fs: JFields, k: string)
    requires JSorted(fs) && (fs.JField? ==> Less(k, fs.key))
    ensures JLookup(fs, k) == None
  {
    if fs.JField? {
      LessIsTotal(k, fs.key);
      if fs.rest.JField? { LessIsTransitive(k, fs.key, fs.rest.key); }
      JAbsent(fs.rest, k);
    }
  }

  predicate Reserved(k: string) { k == "$type" || k == "$task" || k == "$value" || k == "$job" }

  lemma OneFieldBinds(reg: Registry, t: Resolved, v: Value, key: string, j: Json, k: string)
    requires v.MapValue? && CreateFields(reg, t, v, JField(key, j, JEnd)).Some?
    ensures var r := CreateFields(reg, t, v, JField(key, j, JEnd)).value;
            && r.MapValue? && r.typ == v.typ
            && (if key != k || Reserved(k) then Lookup(r.entries, k) == Lookup(v.entries, k)
                else Create(reg, j).Some? && Lookup(r.entries, k) == Some(Marked(v.typ, k, Create(reg, j).value)))
  {
    var r := CreateFields(reg, t, v, JField(key, j, JEnd)).value;
    assert CreateFields(reg, t, r, JEnd) == Some(r);
    if !Reserved(key) {
      var x := Create(reg, j).value;
      assert r == Set(v, key, x).value;
      LookupInsert(v.entries, key, Marked(v.typ, key, x), k);
    }
  }

  lemma {:induction false} FieldsBind(reg: Registry, t: Resolved, v: Value, fs: JFields, k: string)
    requires v.MapValue? && JSorted(fs) && CreateFields(reg, t, v, fs).Some?
    ensures var r := CreateFields(reg, t, v, fs).value;
            && r.MapValue? && r.typ == v.typ
            && (if Reserved(k) || JLookup(fs, k).None? then Lookup(r.entries, k) == Lookup(v.entries, k)
                else var c := Create(reg, JLookup(fs, k).value);
                  c.Some? && Lookup(r.entries, k) == Some(Marked(v.typ, k, c.value)))
    decreases fs
  {
    if fs.JField? {
      R.FirstField(reg, t, v, fs.key, fs.value, fs.rest);
      OneFieldBinds(reg, t, v, fs.key, fs.value, k);
      var next := CreateFields(reg, t, v, JField(fs.key, fs.value, JEnd)).value;
      FieldsBind(reg, t, next, fs.rest, k);
      JAbsent(fs.rest, fs.key);
    }
  }

  /** The type an object declares, a placeholder of that name if it is unknown, or any. */
  function DeclaredType(reg: Registry, fs: JFields): Resolved {
    match JLookup(fs, "$type")
    case Some(JText(name)) => Resolve(reg, name)
    case _ => MapType(ANY)
  }

  /**
    An object is read as a scalar if its type is one or it has a `$value`, as an array if its type is one, and otherwise
    as a map of its type.
  */
  lemma ObjectHasKind(reg: Registry, fs: JFields)
    requires Create(reg, JObject(fs)).Some?
    ensures var r, t := Create(reg, JObject(fs)).value, DeclaredType(reg, fs);
            if t.ScalarType? || JLookup(fs, "$value").Some? then r.ScalarValue?
            else if t.ArrayType? then r.ArrayValue?
            else r.MapValue? && r.typ == t.typ
  {
    var t := DeclaredType(reg, fs);
    R.KindIsKept(reg, t, Empty(t, JLookup(fs, "$value").Some?), fs);
  }

  /** A map that is read binds exactly the fields that are not reserved, each to what its value reads as, with flags. */
  lemma ObjectBinds(reg: Registry, fs: JFields, k: string)
    requires JSorted(fs) && Create(reg, JObject(fs)).Some? && Create(reg, JObject(fs)).value.MapValue?
    ensures var r := Create(reg, JObject(fs)).value;
            if Reserved(k) || JLookup(fs, k).None? then Lookup(r.entries, k) == None
            else var c := Create(reg, JLookup(fs, k).value);
              c.Some? && Lookup(r.entries, k) == Some(Marked(r.typ, k, c.value))
  {
    ObjectHasKind(reg, fs);
    var t := DeclaredType(reg, fs);
    FieldsBind(reg, t, Empty(t, JLookup(fs, "$value").Some?), fs, k);
  }

  // ---------------------------------------------------------------- arrays

  function Items(js: JElems): seq<Json> { if js.JNil? then [] else [js.head] + Items(js.tail) }
  function Elements(es: Elems): seq<Value> { if es.Nil? then [] else [es.head] + Elements(es.tail) }

  /** An array is read element by element, and fails if and only if some element does. */
  lemma {:induction false} ElementsAreRead(reg: Registry, js: JElems)
    ensures CreateElems(reg, js).Some? <==> forall i :: 0 <= i < |Items(js)| ==> Create(reg, Items(js)[i]).Some?
    ensures CreateElems(reg, js).Some? ==>
              var vs := Elements(CreateElems(reg, js).value);
              |vs| == |Items(js)| && forall i :: 0 <= i < |vs| ==> Create(reg, Items(js)[i]) == Some(vs[i])
  {
    if js.JCons? {
      ElementsAreRead(reg, js.tail);
      assert Items(js)[0] == js.head && Items(js)[1..] == Items(js.tail);
      assert forall i :: 0 <= i < |Items(js.tail)| ==> Items(js)[i + 1] == Items(js.tail)[i];
    }
  }

  // ---------------------------------------------------------------- scalars

  predicate HasKind(s: Scalar, k: ScalarKind) {
    match k
    case BooleanKind => s.Boolean?
    case IntegerKind => s.Integer?
    case RealKind => s.Real?
    case TextKind => s.Text?
    case PathKind => s.PathText?
  }

  /** What number a scalar stands for; a truth value stands for 1 or 0. */
  function Number(s: Scalar): Option<real> {
    match s
    case Integer(i) => Some(i as real)
    case Real(r) => Some(r)
    case Boolean(b) => Some(if b then 1.0 else 0.0)
    case _ => None
  }

  /** Whether a scalar counts as true: a number other than 0, a text other than the empty one. */
  function Truth(s: Scalar): bool {
    match s
    case Text(x) => x != ""
    case PathText(x) => x != ""
    case _ => Number(s).Some? && Number(s).value != 0.0
  }

  /** A cast gives the declared kind and keeps the number, the truth value or the text. */
  lemma CastKeeps(reg: Registry, k: ScalarKind, s: Scalar)
    requires Cast(reg, ScalarType(k), s).Some?
    ensures var r := Cast(reg, ScalarType(k), s).value;
            && HasKind(r, k)
            && (k.IntegerKind? ==> Number(s).Some? && Number(r) == Number(s))
            && (k.RealKind? && Number(s).Some? ==> Number(r) == Number(s))
            && (k.RealKind? && Number(s).None? ==> r == Real(if Truth(s) then 1.0 else 0.0))
            && (k.BooleanKind? ==> r == Boolean(Truth(s)))
            && (k.PathKind? || (k.TextKind? && (s.Text? || s.PathText?)) ==> (s.Text? || s.PathText?) && r.s == s.s)
  {
  }

  /** The scalar under `$value` has the declared kind, except that null stays null and an integer is a real already. */
  lemma DeclaredHasKind(reg: Registry, k: ScalarKind, j: Json)
    requires Declared(reg, ScalarType(k), j).Some?
    ensures var s := Declared(reg, ScalarType(k), j).value;
            HasKind(s, k) || (j.JNull? && s.Null?) || (k.RealKind? && s.Integer?)
  {
    var s := ScalarOfJson(j).value;
    if !s.Null? && !Accepts(ScalarType(k), s) { CastKeeps(reg, k, s); }
  }

  /** A document that is a plain scalar is read as that scalar; integral numbers as integers. */
  lemma ScalarIsRead(reg: Registry, j: Json)
    requires !j.JArray? && !j.JObject?
    ensures Create(reg, j).Some? && Create(reg, j).value.ScalarValue? && Create(reg, j).value.flags == PLAIN
    ensures var s := Create(reg, j).value.scalar;
            match j
            case JNull => s == Null
            case JBool(b) => s == Boolean(b)
            case JInt(i) => s == Integer(i)
            case JReal(r) => Number(s) == Some(r) && (s.Integer? <==> r == r.Floor as real)
            case JText(x) => s == Text(x)
  {
  }
}
