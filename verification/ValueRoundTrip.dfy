/**
  Reading a written value gives the value back, up to flags, exactly when it meets a condition that can be checked
  before writing.
*/
module ValueRoundTrip {
  import opened Values
  import opened ValueJson
  import I = Identity

  // ---------------------------------------------------------------- fields

  lemma {:induction false} JLookupInsert(fs: JFields, k: string, j: Json, key: string)
    ensures JLookup(JInsert(fs, k, j), key) == if key == k then Some(j) else JLookup(fs, key)
  {
    if fs.JField? { JLookupInsert(fs.rest, k, j, key); }
  }

  /** Keys of entries, and possibly the type. */
  predicate Plain(fs: JFields) {
    fs.JField? ==> (!Restricted(fs.key) || fs.key == "$type") && Plain(fs.rest)
  }

  lemma {:induction false} PlainEntries(es: Entries, k: string)
    requires ProperEntries(es) && EntriesToJson(es).Some? && Restricted(k)
    ensures Plain(EntriesToJson(es).value) && JLookup(EntriesToJson(es).value, k) == None
  {
    if es.Bind? { PlainEntries(es.rest, k); }
  }

  lemma {:induction false} PlainInsert(fs: JFields, j: Json)
    requires Plain(fs)
    ensures Plain(JInsert(fs, "$type", j))
  {
    if fs.JField? { PlainInsert(fs.rest, j); }
  }

  /** The type is not a field of the value. */
  lemma {:induction false} TypeIsSkipped(reg: Registry, t: Resolved, v: Value, fs: JFields, j: Json)
    requires JLookup(fs, "$type") == None
    ensures CreateFields(reg, t, v, JInsert(fs, "$type", j)) == CreateFields(reg, t, v, fs)
    decreases fs
  {
    if fs.JField? && !Less("$type", fs.key) {
      var head := JField(fs.key, fs.value, JEnd);
      var next := CreateFields(reg, t, v, head);
      FirstField(reg, t, v, fs.key, fs.value, fs.rest);
      FirstField(reg, t, v, fs.key, fs.value, JInsert(fs.rest, "$type", j));
      if next.Some? { TypeIsSkipped(reg, t, next.value, fs.rest, j); }
    }
  }

  lemma FirstField(reg: Registry, t: Resolved, v: Value, k: string, j: Json, rest: JFields)
    ensures CreateFields(reg, t, v, JField(k, j, rest))
         == match CreateFields(reg, t, v, JField(k, j, JEnd))
            case None => None
            case Some(next) => CreateFields(reg, t, next, rest)
  {
  }

  function TaskIn(reg: Registry, task: string): Option<string> { if task in reg.tasks then Some(task) else None }

  /** The task can be set before or after the entries. */
  lemma {:induction false} TaskIsSet(reg: Registry, t: Resolved, v: Value, fs: JFields, task: string)
    requires v.MapValue? && Plain(fs)
    ensures CreateFields(reg, t, v, JInsert(fs, "$task", JText(task)))
         == CreateFields(reg, t, v.(task := TaskIn(reg, task)), fs)
    decreases fs
  {
    if fs.JField? && !Less("$task", fs.key) {
      FirstField(reg, t, v, fs.key, fs.value, JInsert(fs.rest, "$task", JText(task)));
      var next := CreateFields(reg, t, v, JField(fs.key, fs.value, JEnd));
      OneField(reg, t, v, fs.key, fs.value, TaskIn(reg, task));
      FirstField(reg, t, v.(task := TaskIn(reg, task)), fs.key, fs.value, fs.rest);
      if next.Some? { TaskIsSet(reg, t, next.value, fs.rest, task); }
    }
  }

  lemma OneField(reg: Registry, t: Resolved, v: Value, k: string, j: Json, task: Option<string>)
    requires v.MapValue? && (!Restricted(k) || k == "$type")
    ensures var a := CreateFields(reg, t, v, JField(k, j, JEnd));
            var b := CreateFields(reg, t, v.(task := task), JField(k, j, JEnd));
            (a.None? && b.None?) || (a.Some? && b.Some? && a.value.MapValue? && b.value == a.value.(task := task))
  {
    assert CreateFields(reg, t, v, JEnd) == Some(v);
  }

  /** Fields change neither the kind of the value nor, for a map, its type. */
  lemma {:induction false} KindIsKept(reg: Registry, t: Resolved, v: Value, fs: JFields)
    requires CreateFields(reg, t, v, fs).Some?
    ensures var r := CreateFields(reg, t, v, fs).value;
            && (r.ScalarValue? <==> v.ScalarValue?) && (r.ArrayValue? <==> v.ArrayValue?)
            && (v.MapValue? ==> r.MapValue? && r.typ == v.typ)
    decreases fs
  {
    if fs.JField? {
      FirstField(reg, t, v, fs.key, fs.value, fs.rest);
      var next := CreateFields(reg, t, v, JField(fs.key, fs.value, JEnd)).value;
      assert CreateFields(reg, t, next, JEnd) == Some(next);
      KindIsKept(reg, t, next, fs.rest);
    }
  }

  // ---------------------------------------------------------------- rebuilding the entries

  predicate AllLess(es: Entries, k: string) { es.Bind? ==> Less(es.key, k) && AllLess(es.rest, k) }

  lemma {:induction false} InsertLast(es: Entries, k: string, v: Value)
    requires AllLess(es, k)
    ensures Insert(es, k, v) == I.AppendEntries(es, Bind(k, v, End))
  {
    if es.Bind? {
      LessIsTotal(es.key, k);
      InsertLast(es.rest, k, v);
    }
  }

  lemma {:induction false} AllLessAppend(es: Entries, k: string, v: Value, next: string)
    requires AllLess(es, k) && Less(k, next)
    ensures AllLess(I.AppendEntries(es, Bind(k, v, End)), next)
  {
    if es.Bind? {
      LessIsTransitive(es.key, k, next);
      AllLessAppend(es.rest, k, v, next);
    }
  }

  /** The entries as they come back. */
  function Rebuilt(reg: Registry, t: Type, es: Entries): Option<Entries> {
    match es
    case End => Some(End)
    case Bind(k, v, rest) =>
      if ToJson(v).None? || Create(reg, ToJson(v).value).None? then None
      else
        var x := Create(reg, ToJson(v).value).value;
        if !Comparable(t, k, x) || Rebuilt(reg, t, rest).None? then None
        else Some(Bind(k, Bound(t, k, x), Rebuilt(reg, t, rest).value))
  }

  lemma {:induction false} FieldsRebuild(reg: Registry, t: Resolved, m: Value, es: Entries)
    requires m.MapValue? && !m.flags.sealed && Sorted(es) && ProperEntries(es) && EntriesToJson(es).Some?
    requires es.Bind? ==> AllLess(m.entries, es.key)
    ensures CreateFields(reg, t, m, EntriesToJson(es).value)
         == match Rebuilt(reg, m.typ, es)
            case None => None
            case Some(xs) => Some(m.(entries := I.AppendEntries(m.entries, xs)))
    decreases es
  {
    if es.End? {
      I.AppendEnd(m.entries);
    } else {
      var c := Create(reg, ToJson(es.value).value);
      if c.Some? && Comparable(m.typ, es.key, c.value) {
        var b := Bound(m.typ, es.key, c.value);
        InsertLast(m.entries, es.key, b);
        if es.rest.Bind? { AllLessAppend(m.entries, es.key, b, es.rest.key); }
        FieldsRebuild(reg, t, m.(entries := Insert(m.entries, es.key, b)), es.rest);
        if Rebuilt(reg, m.typ, es.rest).Some? {
          I.AppendEntriesTwice(m.entries, es.key, b, Rebuilt(reg, m.typ, es.rest).value);
        }
      }
    }
  }

  /** Comparing with a default does not look at flags. */
  lemma {:induction false} EqualsBare(a: Value, b: Value)
    ensures Equals(a, b) == Equals(a, Bare(b))
    decreases a, 1
  {
    if a.ArrayValue? && b.ArrayValue? {
      BareLength(b.elems);
      if Length(a.elems) == Length(b.elems) { EqualElemsBare(a.elems, b.elems); }
    }
  }

  lemma {:induction false} BareLength(es: Elems)
    ensures Length(BareElems(es)) == Length(es)
  {
    if es.Cons? { BareLength(es.tail); }
  }

  lemma {:induction false} EqualElemsBare(a: Elems, b: Elems)
    requires Length(a) == Length(b)
    ensures Length(BareElems(b)) == Length(b) && EqualElems(a, b) == EqualElems(a, BareElems(b))
    decreases a, 0
  {
    BareLength(b);
    if a.Cons? {
      EqualsBare(a.head, b.head);
      EqualElemsBare(a.tail, b.tail);
    }
  }

  lemma ComparableBare(t: Type, k: string, x: Value, y: Value)
    requires Bare(x) == Bare(y)
    ensures Comparable(t, k, x) == Comparable(t, k, y)
  {
    var a := FindArgument(t.arguments, k);
    if a.Some? && a.value.provision.Default? {
      EqualsBare(a.value.provision.value, x);
      EqualsBare(a.value.provision.value, y);
    }
  }

  // ---------------------------------------------------------------- the round trip

  lemma TypeBeforeValue()
    ensures Less("$type", "$value") && !Less("$value", "$type")
  {
    assert "$type"[1..] == "type" && "$value"[1..] == "value";
    LessIsTotal("$type", "$value");
  }

  lemma PathComesBack(reg: Registry, text: string, f: Flags)
    ensures ToJson(ScalarValue(PathText(text), f)).Some?
    ensures Create(reg, ToJson(ScalarValue(PathText(text), f)).value) == Some(ScalarValue(PathText(text), PLAIN))
  {
    TypeBeforeValue();
    var value := JField("$value", JText(text), JEnd);
    var fs := JField("$type", JText("path"), value);
    assert JInsert(JInsert(JEnd, "$value", JText(text)), "$type", JText("path")) == fs;
    assert JLookup(fs, "$value") == JLookup(value, "$value") == Some(JText(text));
    assert GetType(reg, "path") == Some(ScalarType(PathKind)) by { assert "path"[2..] == "th"; }
    var t, v := Resolve(reg, "path"), ScalarValue(Unset, PLAIN);
    assert Declared(reg, t, JText(text)) == Some(PathText(text));
    FirstField(reg, t, v, "$type", JText("path"), value);
    assert CreateFields(reg, t, v, JField("$type", JText("path"), JEnd)) == Some(v);
    assert CreateFields(reg, t, v, value) == Some(ScalarValue(PathText(text), PLAIN));
  }

  lemma ScalarComesBack(reg: Registry, s: Scalar, f: Flags)
    ensures ComesBack(reg, ScalarValue(s, f)) <==> ScalarSurvives(s)
  {
    match s
    case PathText(p) => PathComesBack(reg, p, f);
    case Unset =>
    case _ =>
      var j := ScalarToJson(s).value;
      assert Create(reg, j) == Some(ScalarValue(ScalarOfJson(j).value, PLAIN));
  }

  lemma {:induction false} RoundTrip(reg: Registry, v: Value)
    requires Proper(v)
    ensures ComesBack(reg, v) <==> Survives(reg, v)
    decreases v, 1
  {
    match v
    case ScalarValue(s, f) => ScalarComesBack(reg, s, f);
    case ArrayValue(es, _) => ElemsRoundTrip(reg, es);
    case MapValue(t, task, es, _) =>
      EntriesRoundTrip(reg, t, es);
      if EntriesToJson(es).Some? { MapComesBack(reg, v); }
  }

  lemma {:induction false} ElemsRoundTrip(reg: Registry, es: Elems)
    requires ProperElems(es)
    ensures ElemsSurvive(reg, es) <==>
              && ElemsToJson(es).Some? && CreateElems(reg, ElemsToJson(es).value).Some?
              && BareElems(CreateElems(reg, ElemsToJson(es).value).value) == BareElems(es)
    decreases es, 0
  {
    if es.Cons? {
      RoundTrip(reg, es.head);
      ElemsRoundTrip(reg, es.tail);
    }
  }

  lemma {:induction false} EntriesRoundTrip(reg: Registry, t: Type, es: Entries)
    requires ProperEntries(es)
    ensures EntriesSurvive(reg, t, es) <==>
              Rebuilt(reg, t, es).Some? && BareEntries(Rebuilt(reg, t, es).value) == BareEntries(es)
    ensures Rebuilt(reg, t, es).Some? ==> EntriesToJson(es).Some?
    decreases es, 0
  {
    if es.Bind? {
      RoundTrip(reg, es.value);
      EntriesRoundTrip(reg, t, es.rest);
      if ComesBack(reg, es.value) {
        ComparableBare(t, es.key, Create(reg, ToJson(es.value).value).value, es.value);
      }
    }
  }

  lemma MapComesBack(reg: Registry, v: Value)
    requires v.MapValue? && Proper(v) && EntriesToJson(v.entries).Some?
    ensures ComesBack(reg, v) <==>
              && Resolve(reg, v.typ.name) == MapType(v.typ) && (v.task.Some? ==> v.task.value in reg.tasks)
              && Rebuilt(reg, v.typ, v.entries).Some?
              && BareEntries(Rebuilt(reg, v.typ, v.entries).value) == BareEntries(v.entries)
  {
    var fs, r := EntriesToJson(v.entries).value, Resolve(reg, v.typ.name);
    var all := Described(v.typ, v.task, fs);
    var x := Empty(r, false);
    DescribedFields(reg, v, r);
    assert Create(reg, JObject(all)) == CreateFields(reg, r, x, all);
    if r == MapType(v.typ) {
      var m := MapValue(v.typ, if v.task.Some? then TaskIn(reg, v.task.value) else None, End, PLAIN);
      FieldsRebuild(reg, r, m, v.entries);
    } else if CreateFields(reg, r, x, all).Some? {
      KindIsKept(reg, r, x, all);
    }
  }

  lemma DescribedFields(reg: Registry, v: Value, r: Resolved)
    requires v.MapValue? && Proper(v) && EntriesToJson(v.entries).Some?
    ensures var all := Described(v.typ, v.task, EntriesToJson(v.entries).value);
            && JLookup(all, "$type") == Some(JText(v.typ.name)) && JLookup(all, "$value") == None
            && (r == MapType(v.typ) ==>
                  CreateFields(reg, r, Empty(r, false), all)
                  == CreateFields(reg, r,
                                  MapValue(v.typ, if v.task.Some? then TaskIn(reg, v.task.value) else None, End, PLAIN),
                                  EntriesToJson(v.entries).value))
  {
    var fs := EntriesToJson(v.entries).value;
    var typed := JInsert(fs, "$type", JText(v.typ.name));
    PlainEntries(v.entries, "$type");
    PlainEntries(v.entries, "$value");
    PlainInsert(fs, JText(v.typ.name));
    JLookupInsert(fs, "$type", JText(v.typ.name), "$type");
    JLookupInsert(fs, "$type", JText(v.typ.name), "$value");
    var x := Empty(r, false);
    if v.task.Some? {
      JLookupInsert(typed, "$task", JText(v.task.value), "$type");
      JLookupInsert(typed, "$task", JText(v.task.value), "$value");
      if r == MapType(v.typ) {
        TaskIsSet(reg, r, x, typed, v.task.value);
        TypeIsSkipped(reg, r, x.(task := TaskIn(reg, v.task.value)), fs, JText(v.typ.name));
      }
    } else {
      TypeIsSkipped(reg, r, x, fs, JText(v.typ.name));
    }
  }
}
