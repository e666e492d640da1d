/**
  Values to JSON and back.
*/
module ValueJson {
  import opened Values
  import I = Identity

  datatype Json =
    | JNull | JBool(b: bool) | JInt(i: int) | JReal(r: real) | JText(s: string)
    | JArray(elems: JElems) | JObject(fields: JFields)
  datatype JElems = JNil | JCons(head: Json, tail: JElems)
  /** Sorted by key. */
  datatype JFields = JEnd | JField(key: string, value: Json, rest: JFields)

  function JInsert(fs: JFields, k: string, j: Json): JFields {
    if fs.JEnd? || Less(k, fs.key) then JField(k, j, fs)
    else if fs.key == k then JField(k, j, fs.rest)
    else JField(fs.key, fs.value, JInsert(fs.rest, k, j))
  }

  function JLookup(fs: JFields, k: string): Option<Json> {
    if fs.JEnd? then None else if fs.key == k then Some(fs.value) else JLookup(fs.rest, k)
  }

  // ---------------------------------------------------------------- toJson

  /** No text for an unset scalar: `toJson` throws. */
  function ScalarToJson(s: Scalar): Option<Json> {
    match s
    case Unset => None
    case Null => Some(JNull)
    case Integer(i) => Some(JInt(i))
    case Real(r) => Some(JReal(r))
    case Text(t) => Some(JText(t))
    case Boolean(b) => Some(JBool(b))
    case PathText(p) => Some(JObject(JInsert(JInsert(JEnd, "$value", JText(p)), "$type", JText("path"))))
  }

  function ToJson(v: Value): Option<Json>
    decreases v, 1
  {
    match v
    case ScalarValue(s, _) => ScalarToJson(s)
    case ArrayValue(es, _) =>
      var xs := ElemsToJson(es);
      if xs.None? then None else Some(JArray(xs.value))
    case MapValue(t, task, es, _) =>
      var fs := EntriesToJson(es);
      if fs.None? then None else Some(JObject(Described(t, task, fs.value)))
  }

  /** The entries, then type and task, written over whatever is there. */
  function Described(t: Type, task: Option<string>, fs: JFields): JFields {
    var typed := JInsert(fs, "$type", JText(t.name));
    if task.None? then typed else JInsert(typed, "$task", JText(task.value))
  }

  function ElemsToJson(es: Elems): Option<JElems>
    decreases es, 0
  {
    match es
    case Nil => Some(JNil)
    case Cons(v, tail) =>
      var (j, js) := (ToJson(v), ElemsToJson(tail));
      if j.None? || js.None? then None else Some(JCons(j.value, js.value))
  }

  function EntriesToJson(es: Entries): Option<JFields>
    decreases es, 0
  {
    match es
    case End => Some(JEnd)
    case Bind(k, v, rest) =>
      var (j, js) := (ToJson(v), EntriesToJson(rest));
      if j.None? || js.None? then None else Some(JField(k, j.value, js.value))
  }

  // ---------------------------------------------------------------- create

  datatype ScalarKind = BooleanKind | IntegerKind | RealKind | TextKind | PathKind
  datatype Resolved = ScalarType(kind: ScalarKind) | ArrayType | MapType(typ: Type)

  /** Registered types and tasks; `printed` is how numbers are written when they are cast to text. */
  datatype Registry = Registry(types: map<string, Type>, tasks: set<string>, printed: Scalar -> string)

  const ANY := Type("any", None, NoArguments, false)

  function GetType(reg: Registry, name: string): Option<Resolved>
    decreases |name|
  {
    if |name| > 2 && name[|name| - 2..] == "[]" then
      if GetType(reg, name[..|name| - 2]).Some? then Some(ArrayType) else None
    else if name == "boolean" then Some(ScalarType(BooleanKind))
    else if name == "integer" then Some(ScalarType(IntegerKind))
    else if name == "real" then Some(ScalarType(RealKind))
    else if name == "string" then Some(ScalarType(TextKind))
    else if name == "path" then Some(ScalarType(PathKind))
    else if name == "any" then Some(MapType(ANY))
    else if name in reg.types then Some(MapType(reg.types[name]))
    else None
  }

  /** An unknown type is replaced by a placeholder of that name. */
  function Resolve(reg: Registry, name: string): Resolved {
    match GetType(reg, name)
    case Some(r) => r
    case None => MapType(Type(name, None, NoArguments, false))
  }

  /** Integral numbers become integers. */
  function ScalarOfJson(j: Json): Option<Scalar> {
    match j
    case JNull => Some(Null)
    case JBool(b) => Some(Boolean(b))
    case JInt(i) => Some(Integer(i))
    case JReal(r) => Some(if r == r.Floor as real then Integer(r.Floor) else Real(r))
    case JText(s) => Some(Text(s))
    case JArray(_) => None
    case JObject(_) => None
  }

  /** Whether the declared type accepts the scalar's own type. */
  predicate Accepts(t: Resolved, s: Scalar) {
    match t
    case ArrayType => false
    case MapType(ty) => ty.name == "any"
    case ScalarType(k) =>
      match s
      case Boolean(_) => k.BooleanKind?
      case Integer(_) => k.IntegerKind? || k.RealKind?
      case Real(_) => k.RealKind?
      case Text(_) => k.TextKind?
      case PathText(_) => k.PathKind?
      case _ => false
  }

  function Cast(reg: Registry, t: Resolved, s: Scalar): Option<Scalar> {
    if !t.ScalarType? then None
    else match t.kind
      case PathKind => if s.Text? || s.PathText? then Some(PathText(s.s)) else None
      case TextKind => if s.Text? || s.PathText? then Some(Text(s.s)) else Some(Text(reg.printed(s)))
      case IntegerKind =>
        (match s
         case Integer(i) => Some(s)
         case Boolean(b) => Some(Integer(if b then 1 else 0))
         case Real(r) => if r == r.Floor as real then Some(Integer(r.Floor)) else None
         case _ => None)
      case BooleanKind =>
        (match s
         case Integer(i) => Some(Boolean(i != 0))
         case Boolean(b) => Some(s)
         case Real(r) => Some(Boolean(r != 0.0))
         case Text(x) => Some(Boolean(x != ""))
         case PathText(x) => Some(Boolean(x != ""))
         case _ => None)
      case RealKind =>
        (match s
         case Integer(i) => Some(Real(i as real))
         case Boolean(b) => Some(Real(if b then 1.0 else 0.0))
         case Real(r) => Some(s)
         case Text(x) => Some(Real(if x != "" then 1.0 else 0.0))
         case PathText(x) => Some(Real(if x != "" then 1.0 else 0.0))
         case _ => None)
  }

  /** The scalar under `$value`, accepted or cast; a null is taken as it is. */
  function Declared(reg: Registry, t: Resolved, j: Json): Option<Scalar> {
    match ScalarOfJson(j)
    case None => None
    case Some(s) => if s.Null? || Accepts(t, s) then Some(s) else Cast(reg, t, s)
  }

  function Empty(t: Resolved, hasValue: bool): Value {
    if t.ScalarType? || hasValue then ScalarValue(Unset, PLAIN)
    else if t.ArrayType? then ArrayValue(Nil, PLAIN)
    else MapValue(t.typ, None, End, PLAIN)
  }

  /** `Value::create`; None: an exception. */
  function Create(reg: Registry, j: Json): Option<Value>
    decreases j, 1
  {
    match j
    case JObject(fs) =>
      var name := JLookup(fs, "$type");
      if name.Some? && !name.value.JText? then None
      else
        var t := if name.None? then MapType(ANY) else Resolve(reg, name.value.s);
        CreateFields(reg, t, Empty(t, JLookup(fs, "$value").Some?), fs)
    case JArray(js) =>
      var es := CreateElems(reg, js);
      if es.None? then None else Some(ArrayValue(es.value, PLAIN))
    case _ => Some(ScalarValue(ScalarOfJson(j).value, PLAIN))
  }

  function CreateElems(reg: Registry, js: JElems): Option<Elems>
    decreases js, 0
  {
    match js
    case JNil => Some(Nil)
    case JCons(j, tail) =>
      var (v, es) := (Create(reg, j), CreateElems(reg, tail));
      if v.None? || es.None? then None else Some(Cons(v.value, es.value))
  }

  /** One field after the other, in key order, into the value being built. */
  function CreateFields(reg: Registry, t: Resolved, v: Value, fs: JFields): Option<Value>
    decreases fs, 0
  {
    match fs
    case JEnd => Some(v)
    case JField(k, j, rest) =>
      var next :=
        if k == "$value" then
          if !v.ScalarValue? then None
          else
            var s := Declared(reg, t, j);
            if s.None? then None else Some(v.(scalar := s.value))
        else if k == "$type" then Some(v)
        else if !v.MapValue? then None
        else if k == "$job" then Some(v)
        else if k == "$task" then
          if !j.JText? then None else Some(v.(task := if j.s in reg.tasks then Some(j.s) else None))
        else
          var x := Create(reg, j);
          if x.None? then None
          else
            var r := Set(v, k, x.value);
            if r.error.Some? then None else Some(r.value);
      if next.None? then None else CreateFields(reg, t, next.value, rest)
  }

  // ---------------------------------------------------------------- what survives

  /** Everything but the flags. */
  function Bare(v: Value): Value {
    match v
    case ScalarValue(s, _) => ScalarValue(s, PLAIN)
    case ArrayValue(es, _) => ArrayValue(BareElems(es), PLAIN)
    case MapValue(t, task, es, _) => MapValue(t, task, BareEntries(es), PLAIN)
  }

  function BareElems(es: Elems): Elems {
    if es.Nil? then Nil else Cons(Bare(es.head), BareElems(es.tail))
  }

  function BareEntries(es: Entries): Entries {
    if es.End? then End else Bind(es.key, Bare(es.value), BareEntries(es.rest))
  }

  /** What `std::map` and `set` guarantee: keys in order, none of the reserved ones. */
  predicate Proper(v: Value) {
    match v
    case ScalarValue(_, _) => true
    case ArrayValue(es, _) => ProperElems(es)
    case MapValue(_, _, es, _) => Sorted(es) && ProperEntries(es)
  }

  predicate ProperElems(es: Elems) { es.Cons? ==> Proper(es.head) && ProperElems(es.tail) }

  predicate ProperEntries(es: Entries) {
    es.Bind? ==> !Restricted(es.key) && Proper(es.value) && ProperEntries(es.rest)
  }

  predicate ScalarSurvives(s: Scalar) { !s.Unset? && (s.Real? ==> s.r != s.r.Floor as real) }

  /** What can be checked before writing: no unset and no integral real, types and tasks registered, defaults comparable. */
  predicate Survives(reg: Registry, v: Value)
    decreases v, 1
  {
    match v
    case ScalarValue(s, _) => ScalarSurvives(s)
    case ArrayValue(es, _) => ElemsSurvive(reg, es)
    case MapValue(t, task, es, _) =>
      Resolve(reg, t.name) == MapType(t) && (task.Some? ==> task.value in reg.tasks) && EntriesSurvive(reg, t, es)
  }

  predicate ElemsSurvive(reg: Registry, es: Elems)
    decreases es, 0
  {
    es.Cons? ==> Survives(reg, es.head) && ElemsSurvive(reg, es.tail)
  }

  predicate EntriesSurvive(reg: Registry, t: Type, es: Entries)
    decreases es, 0
  {
    es.Bind? ==> Survives(reg, es.value) && Comparable(t, es.key, es.value) && EntriesSurvive(reg, t, es.rest)
  }

  predicate ComesBack(reg: Registry, v: Value) {
    ToJson(v).Some? && Create(reg, ToJson(v).value).Some? && Bare(Create(reg, ToJson(v).value).value) == Bare(v)
  }
}
