/**
  Parameter values: trees of scalars, arrays and typed maps, the byte stream their identifier is computed from,
  and `set`. A character stands for one byte of a `std::string`.
*/
module Values {
  import opened Markers

  datatype Option<T> = None | Some(value: T)

  datatype Scalar =
    | Unset | Null | Integer(i: int) | Real(r: real) | Text(s: string) | PathText(s: string) | Boolean(b: bool)

  /** SEALED, DEFAULT, IGNORE and GENERATED. */
  datatype Flags = Flags(sealed: bool, isDefault: bool, ignore: bool, generated: bool)

  const PLAIN := Flags(false, false, false, false)

  datatype Value =
    | ScalarValue(scalar: Scalar, flags: Flags)
    | ArrayValue(elems: Elems, flags: Flags)
    | MapValue(typ: Type, task: Option<string>, entries: Entries, flags: Flags)
  datatype Elems = Nil | Cons(head: Value, tail: Elems)
  /** A `std::map`: sorted by key. */
  datatype Entries = End | Bind(key: string, value: Value, rest: Entries)

  datatype Type = Type(name: string, parent: Option<Type>, arguments: Arguments, ignorable: bool)
  /** The arguments in the order in which the unordered map enumerates them. */
  datatype Arguments = NoArguments | More(first: Argument, others: Arguments)
  datatype Argument = Argument(name: string, required: bool, ignored: bool, provision: Provision, generator: Option<string>)
  datatype Provision = Nothing | Default(value: Value) | Constant(value: Value)

  // ---------------------------------------------------------------- canIgnore

  predicate TypeIgnorable(v: Value) {
    (v.ScalarValue? && v.scalar.PathText?) || (v.MapValue? && v.typ.ignorable)
  }

  predicate CanIgnore(v: Value) { v.flags.ignore || TypeIgnorable(v) || v.flags.isDefault }

  // ---------------------------------------------------------------- the digest

  /** SHA-1 and the memory representation of a double, as functions of their argument. */
  datatype Hash = Hash(sha1: seq<Byte> -> seq<Byte>, ieee: real -> seq<Byte>)

  function Bytes(s: string): seq<Byte> { seq(|s|, i requires 0 <= i < |s| => s[i] as int % 256) }

  /** Two's complement, least significant byte first. */
  function LittleEndian(n: int, width: nat): seq<Byte>
    decreases width
  {
    if width == 0 then [] else [n % 256] + LittleEndian(n / 256, width - 1)
  }

  function ScalarStream(h: Hash, s: Scalar): seq<Byte> {
    match s
    case Unset => [0]
    case Null => [1]
    case Integer(i) => [2] + LittleEndian(i, 8)
    case Real(r) => [3] + h.ieee(r)
    case Text(t) => [4] + Bytes(t)
    case PathText(t) => [5] + Bytes(t)
    case Boolean(b) => [6, if b then 1 else 0]
  }

  function Length(es: Elems): nat { if es.Nil? then 0 else 1 + Length(es.tail) }

  function TaskStream(task: Option<string>): seq<Byte> {
    match task
    case Some(id) => Bytes(id)
    case None => LittleEndian(0, 4)
  }

  /** `updateDigest`: array elements inline and in full, map entries as key and child digest, ignorable ones skipped. */
  function Stream(h: Hash, v: Value): seq<Byte> {
    match v
    case ScalarValue(s, _) => ScalarStream(h, s)
    case ArrayValue(es, _) => [1] + LittleEndian(Length(es), 8) + ElemsStream(h, es)
    case MapValue(t, task, es, _) => Bytes(t.name) + TaskStream(task) + EntriesStream(h, es)
  }

  function ElemsStream(h: Hash, es: Elems): seq<Byte> {
    match es
    case Nil => []
    case Cons(v, tail) => Stream(h, v) + ElemsStream(h, tail)
  }

  function EntriesStream(h: Hash, es: Entries): seq<Byte> {
    match es
    case End => []
    case Bind(k, v, rest) =>
      (if CanIgnore(v) then [] else Bytes(k) + h.sha1(Stream(h, v))) + EntriesStream(h, rest)
  }

  function Digest(h: Hash, v: Value): seq<Byte> { h.sha1(Stream(h, v)) }
  function Identifier(h: Hash, v: Value): string { Hex(Digest(h, v)) }

  // ---------------------------------------------------------------- what the digest depends on

  /** The content that counts: no flags, type names instead of types, no ignorable entries. */
  datatype Content =
    | CScalar(scalar: Scalar)
    | CArray(elems: CElems)
    | CMap(typeName: string, task: Option<string>, entries: CEntries)
  datatype CElems = CNil | CCons(head: Content, tail: CElems)
  datatype CEntries = CEnd | CBind(key: string, value: Content, rest: CEntries)

  function Canonical(v: Value): Content {
    match v
    case ScalarValue(s, _) => CScalar(s)
    case ArrayValue(es, _) => CArray(CanonicalElems(es))
    case MapValue(t, task, es, _) => CMap(t.name, task, CanonicalEntries(es))
  }

  function CanonicalElems(es: Elems): CElems {
    match es
    case Nil => CNil
    case Cons(v, tail) => CCons(Canonical(v), CanonicalElems(tail))
  }

  function CanonicalEntries(es: Entries): CEntries {
    match es
    case End => CEnd
    case Bind(k, v, rest) =>
      if CanIgnore(v) then CanonicalEntries(rest) else CBind(k, Canonical(v), CanonicalEntries(rest))
  }

  /** The same bytes, from the content alone. */
  function ContentStream(h: Hash, c: Content): seq<Byte> {
    match c
    case CScalar(s) => ScalarStream(h, s)
    case CArray(es) => [1] + LittleEndian(Count(es), 8) + CElemsStream(h, es)
    case CMap(name, task, es) => Bytes(name) + TaskStream(task) + CEntriesStream(h, es)
  }

  function Count(es: CElems): nat { if es.CNil? then 0 else 1 + Count(es.tail) }

  function CElemsStream(h: Hash, es: CElems): seq<Byte> {
    if es.CNil? then [] else ContentStream(h, es.head) + CElemsStream(h, es.tail)
  }

  function CEntriesStream(h: Hash, es: CEntries): seq<Byte> {
    if es.CEnd? then [] else Bytes(es.key) + h.sha1(ContentStream(h, es.value)) + CEntriesStream(h, es.rest)
  }

  lemma {:induction false} StreamOfContent(h: Hash, v: Value)
    ensures Stream(h, v) == ContentStream(h, Canonical(v))
  {
    match v
    case ScalarValue(_, _) =>
    case ArrayValue(es, _) => StreamOfElems(h, es);
    case MapValue(_, _, es, _) => StreamOfEntries(h, es);
  }

  lemma {:induction false} StreamOfElems(h: Hash, es: Elems)
    ensures ElemsStream(h, es) == CElemsStream(h, CanonicalElems(es)) && Length(es) == Count(CanonicalElems(es))
  {
    if es.Cons? {
      StreamOfContent(h, es.head);
      StreamOfElems(h, es.tail);
    }
  }

  lemma {:induction false} StreamOfEntries(h: Hash, es: Entries)
    ensures EntriesStream(h, es) == CEntriesStream(h, CanonicalEntries(es))
  {
    if es.Bind? {
      StreamOfContent(h, es.value);
      StreamOfEntries(h, es.rest);
    }
  }

  /** Equal canonical content, equal digest: flags, types beyond their name and ignorable entries do not matter. */
  lemma DigestOfContent(h: Hash, v: Value, w: Value)
    requires Canonical(v) == Canonical(w)
    ensures Stream(h, v) == Stream(h, w)
  {
    StreamOfContent(h, v);
    StreamOfContent(h, w);
  }

  /** Removes every ignorable entry, at every depth. */
  function Pruned(v: Value): Value {
    match v
    case ScalarValue(_, _) => v
    case ArrayValue(es, f) => ArrayValue(PrunedElems(es), f)
    case MapValue(t, task, es, f) => MapValue(t, task, PrunedEntries(es), f)
  }

  function PrunedElems(es: Elems): Elems {
    match es
    case Nil => Nil
    case Cons(v, tail) => Cons(Pruned(v), PrunedElems(tail))
  }

  function PrunedEntries(es: Entries): Entries {
    match es
    case End => End
    case Bind(k, v, rest) => if CanIgnore(v) then PrunedEntries(rest) else Bind(k, Pruned(v), PrunedEntries(rest))
  }

  lemma {:induction false} PruningKeepsContent(v: Value)
    ensures Canonical(Pruned(v)) == Canonical(v) && CanIgnore(Pruned(v)) == CanIgnore(v)
  {
    match v
    case ScalarValue(_, _) =>
    case ArrayValue(es, _) => PruningKeepsElems(es);
    case MapValue(_, _, es, _) => PruningKeepsEntries(es);
  }

  lemma {:induction false} PruningKeepsElems(es: Elems)
    ensures CanonicalElems(PrunedElems(es)) == CanonicalElems(es)
  {
    if es.Cons? {
      PruningKeepsContent(es.head);
      PruningKeepsElems(es.tail);
    }
  }

  lemma {:induction false} PruningKeepsEntries(es: Entries)
    ensures CanonicalEntries(PrunedEntries(es)) == CanonicalEntries(es)
  {
    if es.Bind? {
      PruningKeepsContent(es.value);
      PruningKeepsEntries(es.rest);
    }
  }

  lemma PruningKeepsIdentifier(h: Hash, v: Value)
    ensures Identifier(h, Pruned(v)) == Identifier(h, v)
  {
    PruningKeepsContent(v);
    DigestOfContent(h, Pruned(v), v);
  }

  /** The stream has no length prefixes: two different contents with one identifier, whatever the hash function. */
  lemma IdentifiersCollide(h: Hash)
    ensures exists v, w :: Canonical(v) != Canonical(w) && Identifier(h, v) == Identifier(h, w)
  {
    var v := MapValue(Type("a", None, NoArguments, false), Some("bc"), End, PLAIN);
    var w := MapValue(Type("ab", None, NoArguments, false), Some("c"), End, PLAIN);
    assert Canonical(v) == CMap("a", Some("bc"), CEnd) && Canonical(w) == CMap("ab", Some("c"), CEnd);
    assert |"a"| != |"ab"|;
    assert Bytes("a") + Bytes("bc") == Bytes("ab") + Bytes("c");
    assert Stream(h, v) == Stream(h, w);
  }

  // ---------------------------------------------------------------- sorted entries

  /** Byte-wise lexicographic order, as `std::string` compares. */
  predicate Less(a: string, b: string)
    decreases |a|
  {
    b != "" && (a == "" || a[0] < b[0] || (a[0] == b[0] && Less(a[1..], b[1..])))
  }

  lemma {:induction false} LessIsTotal(a: string, b: string)
    ensures a == b || Less(a, b) || Less(b, a)
    ensures !(Less(a, b) && Less(b, a)) && !Less(a, a)
    decreases |a|
  {
    if a != "" && b != "" && a[0] == b[0] {
      LessIsTotal(a[1..], b[1..]);
      assert a == [a[0]] + a[1..] && b == [b[0]] + b[1..];
      LessIsTotal(a[1..], a[1..]);
    } else if a != "" {
      LessIsTotal(a[1..], a[1..]);
    }
  }

  /** The first place where the texts differ decides, and a proper prefix comes first. */
  lemma {:induction false} LessIsLexicographic(a: string, b: string)
    ensures Less(a, b) <==> exists k :: 0 <= k <= |a| && k < |b| && a[..k] == b[..k] && (k == |a| || a[k] < b[k])
    decreases |a|
  {
    if a == "" {
      assert b != "" ==> a[..0] == b[..0];
    } else if b != "" {
      LessIsLexicographic(a[1..], b[1..]);
      if Less(a, b) && a[0] == b[0] {
        var k :| 0 <= k <= |a[1..]| && k < |b[1..]| && a[1..][..k] == b[1..][..k] && (k == |a[1..]| || a[1..][k] < b[1..][k]);
        assert a[..k + 1] == [a[0]] + a[1..][..k] && b[..k + 1] == [b[0]] + b[1..][..k];
      } else if Less(a, b) {
        assert a[..0] == b[..0];
      }
      if k :| 0 <= k <= |a| && k < |b| && a[..k] == b[..k] && (k == |a| || a[k] < b[k]) {
        if k > 0 {
          assert a[0] == a[..k][0] == b[..k][0] == b[0];
          assert a[1..][..k - 1] == a[..k][1..] && b[1..][..k - 1] == b[..k][1..];
        }
      }
    }
  }

  lemma {:induction false} LessIsTransitive(a: string, b: string, c: string)
    requires Less(a, b) && Less(b, c)
    ensures Less(a, c)
    decreases |a|
  {
    if a != "" && a[0] == b[0] == c[0] { LessIsTransitive(a[1..], b[1..], c[1..]); }
  }

  predicate Before(k: string, es: Entries) { es.Bind? ==> Less(k, es.key) }

  predicate Sorted(es: Entries) { es.Bind? ==> Before(es.key, es.rest) && Sorted(es.rest) }

  function Lookup(es: Entries, k: string): Option<Value> {
    if es.End? then None else if es.key == k then Some(es.value) else Lookup(es.rest, k)
  }

  predicate HasKey(es: Entries, k: string) { Lookup(es, k).Some? }

  function Insert(es: Entries, k: string, v: Value): Entries {
    if es.End? || Less(k, es.key) then Bind(k, v, es)
    else if es.key == k then Bind(k, v, es.rest)
    else Bind(es.key, es.value, Insert(es.rest, k, v))
  }

  lemma {:induction false} InsertKeepsSorted(es: Entries, k: string, v: Value)
    requires Sorted(es)
    ensures Sorted(Insert(es, k, v))
    ensures forall j :: Before(j, es) && Less(j, k) ==> Before(j, Insert(es, k, v))
  {
    if es.Bind? {
      LessIsTotal(k, es.key);
      if Less(es.key, k) { InsertKeepsSorted(es.rest, k, v); }
    }
  }

  lemma {:induction false} AbsentBefore(k: string, es: Entries)
    requires Sorted(es) && Before(k, es)
    ensures Lookup(es, k) == None
  {
    if es.Bind? {
      LessIsTotal(k, es.key);
      if es.rest.Bind? { LessIsTransitive(k, es.key, es.rest.key); }
      AbsentBefore(k, es.rest);
    }
  }

  lemma {:induction false} LookupInsert(es: Entries, k: string, v: Value, j: string)
    ensures Lookup(Insert(es, k, v), j) == if j == k then Some(v) else Lookup(es, j)
  {
    if es.Bind? { LookupInsert(es.rest, k, v, j); }
  }

  /** Sorted entries are determined by their bindings. */
  lemma {:induction false} SortedUnique(a: Entries, b: Entries)
    requires Sorted(a) && Sorted(b) && forall k :: Lookup(a, k) == Lookup(b, k)
    ensures a == b
    decreases a, b
  {
    FirstIsBound(a);
    FirstIsBound(b);
    if a.Bind? && b.Bind? {
      assert Lookup(b, a.key).Some? && Lookup(a, b.key).Some?;
      FirstKey(a, b.key);
      FirstKey(b, a.key);
      LessIsTotal(a.key, b.key);
      forall k ensures Lookup(a.rest, k) == Lookup(b.rest, k) {
        AbsentBefore(a.key, a.rest);
        AbsentBefore(b.key, b.rest);
        assert Lookup(a, k) == Lookup(b, k);
      }
      SortedUnique(a.rest, b.rest);
    }
  }

  lemma FirstIsBound(es: Entries)
    ensures es.Bind? ==> Lookup(es, es.key) == Some(es.value)
  {
  }

  lemma {:induction false} FirstKey(es: Entries, k: string)
    requires es.Bind? && Sorted(es) && HasKey(es, k)
    ensures es.key == k || Less(es.key, k)
  {
    if es.key != k {
      assert HasKey(es.rest, k);
      FirstKey(es.rest, k);
      if es.rest.key != k { LessIsTransitive(es.key, es.rest.key, k); }
    }
  }

  // ---------------------------------------------------------------- equals and set

  datatype Comparison = Same | Different | Throws

  /** `a.equals(b)`: not implemented for maps, undefined for two unset scalars, elements compared in order. */
  function Equals(a: Value, b: Value): Comparison {
    match a
    case ScalarValue(s, _) =>
      if !b.ScalarValue? then Different
      else if s.Unset? && b.scalar.Unset? then Throws
      else if s == b.scalar then Same else Different
    case ArrayValue(es, _) =>
      if !b.ArrayValue? || Length(es) != Length(b.elems) then Different else EqualElems(es, b.elems)
    case MapValue(_, _, _, _) => Throws
  }

  function EqualElems(a: Elems, b: Elems): Comparison
    requires Length(a) == Length(b)
  {
    match a
    case Nil => Same
    case Cons(v, tail) =>
      match Equals(v, b.head)
      case Same => EqualElems(tail, b.tail)
      case Different => Different
      case Throws => Throws
  }

  function FindArgument(args: Arguments, name: string): Option<Argument> {
    match args
    case NoArguments => None
    case More(a, others) => if a.name == name then Some(a) else FindArgument(others, name)
  }

  predicate Restricted(key: string) { key in {"$type", "$task", "$value", "$job"} }

  datatype Error = Sealed | RestrictedKey | NotComparable | NotAMap | SealedInside

  /** The value as `set` leaves it, and the exception it threw, if any. */
  datatype Outcome = Outcome(value: Value, error: Option<Error>)

  function Mark(v: Value, isDefault: bool, ignore: bool): Value {
    v.(flags := v.flags.(isDefault := v.flags.isDefault || isDefault, ignore := v.flags.ignore || ignore))
  }

  function DefaultComparison(a: Argument, v: Value): Comparison {
    if a.provision.Default? then Equals(a.provision.value, v) else Different
  }

  /** The flags a value gets when it is bound in a map of this type; only the type's own arguments are consulted. */
  function Marked(t: Type, key: string, v: Value): Value {
    match FindArgument(t.arguments, key)
    case None => v
    case Some(a) => Mark(v, DefaultComparison(a, v).Same?, a.ignored)
  }

  predicate Comparable(t: Type, key: string, v: Value) {
    FindArgument(t.arguments, key).Some? ==> !DefaultComparison(FindArgument(t.arguments, key).value, v).Throws?
  }

  /** The value as it ends up in the map; when the comparison throws, it is already bound, without new flags. */
  function Bound(t: Type, key: string, v: Value): Value { if Comparable(t, key, v) then Marked(t, key, v) else v }

  /** `MapValue::set`. */
  function Set(m: Value, key: string, v: Value): (r: Outcome)
    requires m.MapValue?
    ensures r.value.MapValue? && r.value == m.(entries := r.value.entries)
  {
    if m.flags.sealed then Outcome(m, Some(Sealed))
    else if Restricted(key) then Outcome(m, Some(RestrictedKey))
    else Outcome(m.(entries := Insert(m.entries, key, Bound(m.typ, key, v))),
                 if Comparable(m.typ, key, v) then None else Some(NotComparable))
  }

  function SetAll(m: Value, ops: seq<(string, Value)>): (r: Outcome)
    requires m.MapValue?
    ensures r.value.MapValue? && r.value == m.(entries := r.value.entries)
    decreases |ops|
  {
    if ops == [] then Outcome(m, None)
    else
      var r := Set(m, ops[0].0, ops[0].1);
      if r.error.Some? then r else SetAll(r.value, ops[1..])
  }

  /** The last value bound to a key. */
  function Last(ops: seq<(string, Value)>, key: string): Option<Value>
    decreases |ops|
  {
    if ops == [] then None
    else if Last(ops[1..], key).Some? then Last(ops[1..], key)
    else if ops[0].0 == key then Some(ops[0].1)
    else None
  }

  lemma {:induction false} SetAllBinds(m: Value, ops: seq<(string, Value)>, key: string)
    requires m.MapValue? && Sorted(m.entries) && SetAll(m, ops).error.None?
    ensures Sorted(SetAll(m, ops).value.entries)
    ensures Lookup(SetAll(m, ops).value.entries, key) == match Last(ops, key)
              case None => Lookup(m.entries, key)
              case Some(v) => Some(Marked(m.typ, key, v))
    decreases |ops|
  {
    if ops != [] {
      var (k, v) := ops[0];
      var r := Set(m, k, v).value;
      InsertKeepsSorted(m.entries, k, Marked(m.typ, k, v));
      LookupInsert(m.entries, k, Marked(m.typ, k, v), key);
      SetAllBinds(r, ops[1..], key);
    }
  }

  /** Any two orders of `set` calls that leave the same last bindings build the same value. */
  lemma SetOrderDoesNotMatter(h: Hash, m: Value, a: seq<(string, Value)>, b: seq<(string, Value)>)
    requires m.MapValue? && Sorted(m.entries) && SetAll(m, a).error.None? && SetAll(m, b).error.None?
    requires forall k :: Last(a, k) == Last(b, k)
    ensures SetAll(m, a).value == SetAll(m, b).value
    ensures Identifier(h, SetAll(m, a).value) == Identifier(h, SetAll(m, b).value)
  {
    var x, y := SetAll(m, a).value, SetAll(m, b).value;
    forall k ensures Lookup(x.entries, k) == Lookup(y.entries, k) {
      SetAllBinds(m, a, k);
      SetAllBinds(m, b, k);
    }
    SetAllBinds(m, a, "");
    SetAllBinds(m, b, "");
    SortedUnique(x.entries, y.entries);
  }
}
