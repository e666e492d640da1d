/**
  What the identifier tells apart. Scalars that fit their encoding have different byte streams, and two contents built
  alike (the same keys and lengths up to encodable differences) have different identifiers unless they are equal, if
  digests have one length and no two of the hashed streams collide.
*/
module IdentifierTells {
  import opened Markers
  import opened Values
  import opened IdentifierChanges

  // ---------------------------------------------------------------- scalars

  const MIN64 := -0x8000_0000_0000_0000
  const MAX64 := 0x7FFF_FFFF_FFFF_FFFF

  predicate ByteText(s: string) { forall i :: 0 <= i < |s| ==> s[i] as int < 256 }

  /** A 64-bit integer, or a text of bytes. */
  predicate Encodable(s: Scalar) {
    match s
    case Integer(i) => MIN64 <= i <= MAX64
    case Text(t) => ByteText(t)
    case PathText(t) => ByteText(t)
    case _ => true
  }

  function Power(n: nat): nat { if n == 0 then 1 else 256 * Power(n - 1) }

  /** Numbers with the same first bytes differ by a multiple of the next power. */
  lemma {:induction false} LittleEndianTells(a: int, b: int, w: nat) returns (k: int)
    requires LittleEndian(a, w) == LittleEndian(b, w)
    ensures a - b == k * Power(w)
    decreases w
  {
    if w == 0 {
      k := a - b;
    } else {
      assert LittleEndian(a, w)[0] == a % 256 && LittleEndian(b, w)[0] == b % 256;
      assert LittleEndian(a, w)[1..] == LittleEndian(a / 256, w - 1);
      assert LittleEndian(b, w)[1..] == LittleEndian(b / 256, w - 1);
      k := LittleEndianTells(a / 256, b / 256, w - 1);
      MultiplyOut(a / 256 - b / 256, k, Power(w - 1));
    }
  }

  lemma MultiplyOut(x: int, k: int, p: int)
    requires x == k * p
    ensures 256 * x == k * (256 * p)
  {
  }

  lemma {:induction false} LengthOfLittleEndian(n: int, w: nat)
    ensures |LittleEndian(n, w)| == w
    decreases w
  {
    if w > 0 { LengthOfLittleEndian(n / 256, w - 1); }
  }

  lemma EightBytes()
    ensures Power(8) == 0x1_0000_0000_0000_0000
  {
    assert Power(2) == 0x1_0000 && Power(4) == 0x1_0000_0000 && Power(6) == 0x1_0000_0000_0000;
  }

  lemma SmallMultiple(k: int, p: int)
    requires p > 0 && -p < k * p < p
    ensures k == 0
  {
    MultipleGrows(k, p);
  }

  lemma MultipleGrows(k: int, p: int)
    requires p > 0
    ensures k >= 1 ==> k * p >= p
    ensures k <= -1 ==> k * p <= -p
  {
    assert k >= 1 ==> (k - 1) * p >= 0;
    assert k <= -1 ==> (k + 1) * p <= 0;
  }

  lemma IntegersAreTold(a: int, b: int)
    requires LittleEndian(a, 8) == LittleEndian(b, 8) && -0x1_0000_0000_0000_0000 < a - b < 0x1_0000_0000_0000_0000
    ensures a == b
  {
    var k := LittleEndianTells(a, b, 8);
    EightBytes();
    SmallMultiple(k, Power(8));
  }

  lemma TextsAreTold(a: string, b: string)
    requires ByteText(a) && ByteText(b) && Bytes(a) == Bytes(b)
    ensures a == b
  {
    assert |Bytes(a)| == |a| && |Bytes(b)| == |b|;
    forall i | 0 <= i < |a| ensures a[i] == b[i] {
      assert Bytes(a)[i] == a[i] as int % 256 && Bytes(b)[i] == b[i] as int % 256;
    }
  }

  /** The memory representation tells the two apart if they are different reals. */
  predicate RealsTold(h: Hash, a: Scalar, b: Scalar) { a.Real? && b.Real? && h.ieee(a.r) == h.ieee(b.r) ==> a.r == b.r }

  /** Scalars that can be encoded have the same stream only if they are the same, kind included. */
  lemma ScalarsAreTold(h: Hash, a: Scalar, b: Scalar)
    requires Encodable(a) && Encodable(b) && RealsTold(h, a, b)
    requires ScalarStream(h, a) == ScalarStream(h, b)
    ensures a == b
  {
    var x, y := ScalarStream(h, a), ScalarStream(h, b);
    assert x[0] == y[0] && x[1..] == y[1..];
    match a
    case Integer(i) =>
      assert x[1..] == LittleEndian(i, 8) && y[1..] == LittleEndian(b.i, 8);
      IntegersAreTold(i, b.i);
    case Real(r) => assert x[1..] == h.ieee(r) && y[1..] == h.ieee(b.r);
    case Text(t) =>
      assert x[1..] == Bytes(t) && y[1..] == Bytes(b.s);
      TextsAreTold(t, b.s);
    case PathText(t) =>
      assert x[1..] == Bytes(t) && y[1..] == Bytes(b.s);
      TextsAreTold(t, b.s);
    case _ =>
  }

  // ---------------------------------------------------------------- contents built alike

  predicate AlikeKey(a: string, b: string) { a == b || (|a| == |b| && ByteText(a) && ByteText(b)) }

  /** The same type and tasks of bytes, or the same task and type names of bytes. */
  predicate AlikeHead(n: string, t: Option<string>, m: string, u: Option<string>) {
    || (n == m && (t == u || (t.Some? && u.Some? && ByteText(t.value) && ByteText(u.value))))
    || (t == u && ByteText(n) && ByteText(m))
  }

  /**
    Keys, types and tasks may differ within their length, scalars and arrays freely in a map, and within the length of
    their stream as elements of an array, where they are not hashed one by one.
  */
  predicate Alike(h: Hash, c: Content, d: Content)
    decreases c
  {
    match c
    case CScalar(a) =>
      d.CArray? || (d.CScalar? && (a == d.scalar || (Encodable(a) && Encodable(d.scalar) && RealsTold(h, a, d.scalar))))
    case CArray(es) =>
      d.CScalar? || (d.CArray? && if Count(es) == Count(d.elems) then AlikeElems(h, es, d.elems)
                                  else Count(es) <= MAX64 && Count(d.elems) <= MAX64)
    case CMap(name, task, es) =>
      d.CMap? && AlikeHead(name, task, d.typeName, d.task) && AlikeEntries(h, es, d.entries)
  }

  predicate AlikeElems(h: Hash, a: CElems, b: CElems)
    decreases a
  {
    || (a.CNil? && b.CNil?)
    || (a.CCons? && b.CCons? && Alike(h, a.head, b.head) && AlikeElems(h, a.tail, b.tail)
        && |ContentStream(h, a.head)| == |ContentStream(h, b.head)|)
  }

  predicate AlikeEntries(h: Hash, a: CEntries, b: CEntries)
    decreases a
  {
    || (a.CEnd? && b.CEnd?)
    || (a.CBind? && b.CBind? && AlikeKey(a.key, b.key) && Alike(h, a.value, b.value) && AlikeEntries(h, a.rest, b.rest))
  }

  lemma ScalarIsNoArray(h: Hash, s: Scalar, es: CElems)
    ensures ScalarStream(h, s) != ContentStream(h, CArray(es))
  {
    LengthOfLittleEndian(Count(es), 8);
    var x, y := ScalarStream(h, s), [1] + LittleEndian(Count(es), 8) + CElemsStream(h, es);
    assert y[0] == 1 && |y| >= 9;
    assert s.Null? ==> |x| == 1;
    assert !s.Null? ==> x[0] != 1;
  }

  lemma {:induction false} AlikeEntriesLength(h: Hash, n: nat, a: CEntries, b: CEntries)
    requires FixedLength(h, n) && AlikeEntries(h, a, b)
    ensures |CEntriesStream(h, a)| == |CEntriesStream(h, b)|
    decreases a
  {
    if a.CBind? { AlikeEntriesLength(h, n, a.rest, b.rest); }
  }

  lemma HeadIsTold(n: string, t: Option<string>, m: string, u: Option<string>)
    requires AlikeHead(n, t, m, u) && Bytes(n) + TaskStream(t) == Bytes(m) + TaskStream(u)
    ensures n == m && t == u
  {
    var x, y := Bytes(n) + TaskStream(t), Bytes(m) + TaskStream(u);
    if n == m && t != u {
      assert x[|n|..] == TaskStream(t) && y[|n|..] == TaskStream(u);
      TextsAreTold(t.value, u.value);
    } else if t == u {
      assert |n| == |m| && x[..|n|] == Bytes(n) && y[..|n|] == Bytes(m);
      if n != m { TextsAreTold(n, m); }
    }
  }

  /** Contents built alike have the same stream only if they are the same. */
  lemma {:induction false} AlikeAreTold(h: Hash, n: nat, c: Content, d: Content)
    requires FixedLength(h, n) && Alike(h, c, d) && NoCollision(h, Hashed(h, c), Hashed(h, d))
    requires ContentStream(h, c) == ContentStream(h, d)
    ensures c == d
    decreases c
  {
    match c
    case CScalar(a) =>
      if d.CArray? { ScalarIsNoArray(h, a, d.elems); } else if a != d.scalar { ScalarsAreTold(h, a, d.scalar); }
    case CArray(es) => ArraysAreTold(h, n, es, d);
    case CMap(name, task, es) =>
      FewerCollisions(h, Hashed(h, c), Hashed(h, d), HashedEntries(h, es), HashedEntries(h, d.entries));
      AlikeEntriesLength(h, n, es, d.entries);
      Aligned(Bytes(name) + TaskStream(task), CEntriesStream(h, es),
              Bytes(d.typeName) + TaskStream(d.task), CEntriesStream(h, d.entries));
      HeadIsTold(name, task, d.typeName, d.task);
      EntriesAreTold(h, n, es, d.entries);
  }

  lemma {:induction false} ArraysAreTold(h: Hash, n: nat, es: CElems, d: Content)
    requires FixedLength(h, n) && Alike(h, CArray(es), d) && NoCollision(h, Hashed(h, CArray(es)), Hashed(h, d))
    requires ContentStream(h, CArray(es)) == ContentStream(h, d)
    ensures CArray(es) == d
    decreases es, 1
  {
    if d.CScalar? {
      ScalarIsNoArray(h, d.scalar, es);
    } else {
      FewerCollisions(h, Hashed(h, CArray(es)), Hashed(h, d), HashedElems(h, es), HashedElems(h, d.elems));
      CountIsTold(h, es, d.elems);
      ElemsAreTold(h, n, es, d.elems);
    }
  }

  lemma CountIsTold(h: Hash, a: CElems, b: CElems)
    requires ContentStream(h, CArray(a)) == ContentStream(h, CArray(b))
    requires Count(a) == Count(b) || (Count(a) <= MAX64 && Count(b) <= MAX64)
    ensures Count(a) == Count(b) && CElemsStream(h, a) == CElemsStream(h, b)
  {
    LengthOfLittleEndian(Count(a), 8);
    LengthOfLittleEndian(Count(b), 8);
    var x, y := ContentStream(h, CArray(a)), ContentStream(h, CArray(b));
    assert x[1..9] == LittleEndian(Count(a), 8) && y[1..9] == LittleEndian(Count(b), 8);
    if Count(a) != Count(b) { IntegersAreTold(Count(a), Count(b)); }
    assert x[9..] == CElemsStream(h, a) && y[9..] == CElemsStream(h, b);
  }

  lemma {:induction false} ElemsAreTold(h: Hash, n: nat, a: CElems, b: CElems)
    requires FixedLength(h, n) && AlikeElems(h, a, b) && NoCollision(h, HashedElems(h, a), HashedElems(h, b))
    requires CElemsStream(h, a) == CElemsStream(h, b)
    ensures a == b
    decreases a, 0
  {
    if a.CCons? {
      var x, y := HashedElems(h, a), HashedElems(h, b);
      FewerCollisions(h, x, y, Hashed(h, a.head), Hashed(h, b.head));
      FewerCollisions(h, x, y, HashedElems(h, a.tail), HashedElems(h, b.tail));
      var s, t := ContentStream(h, a.head), ContentStream(h, b.head);
      assert (s + CElemsStream(h, a.tail))[..|s|] == s && (t + CElemsStream(h, b.tail))[..|s|] == t;
      assert (s + CElemsStream(h, a.tail))[|s|..] == CElemsStream(h, a.tail);
      assert (t + CElemsStream(h, b.tail))[|s|..] == CElemsStream(h, b.tail);
      AlikeAreTold(h, n, a.head, b.head);
      ElemsAreTold(h, n, a.tail, b.tail);
    }
  }

  lemma {:induction false} EntriesAreTold(h: Hash, n: nat, a: CEntries, b: CEntries)
    requires FixedLength(h, n) && AlikeEntries(h, a, b) && NoCollision(h, HashedEntries(h, a), HashedEntries(h, b))
    requires CEntriesStream(h, a) == CEntriesStream(h, b)
    ensures a == b
    decreases a
  {
    if a.CBind? {
      var x, y := HashedEntries(h, a), HashedEntries(h, b);
      FewerCollisions(h, x, y, Hashed(h, a.value), Hashed(h, b.value));
      FewerCollisions(h, x, y, HashedEntries(h, a.rest), HashedEntries(h, b.rest));
      AlikeEntriesLength(h, n, a.rest, b.rest);
      SelfHashed(h, a.value);
      SelfHashed(h, b.value);
      var s, t := h.sha1(ContentStream(h, a.value)), h.sha1(ContentStream(h, b.value));
      Aligned(Bytes(a.key) + s, CEntriesStream(h, a.rest), Bytes(b.key) + t, CEntriesStream(h, b.rest));
      Aligned(Bytes(a.key), s, Bytes(b.key), t);
      if a.key != b.key { TextsAreTold(a.key, b.key); }
      AlikeAreTold(h, n, a.value, b.value);
      EntriesAreTold(h, n, a.rest, b.rest);
    }
  }

  // ---------------------------------------------------------------- values

  /** Values built alike have one identifier if and only if they have one content. */
  lemma IdentifierTellsContent(h: Hash, n: nat, v: Value, w: Value)
    requires FixedLength(h, n) && Alike(h, Canonical(v), Canonical(w))
    requires NoCollision(h, Hashed(h, Canonical(v)), Hashed(h, Canonical(w)))
    ensures Identifier(h, v) == Identifier(h, w) <==> Canonical(v) == Canonical(w)
  {
    if Identifier(h, v) == Identifier(h, w) {
      HexIsInjective(Digest(h, v), Digest(h, w));
      StreamOfContent(h, v);
      StreamOfContent(h, w);
      SelfHashed(h, Canonical(v));
      SelfHashed(h, Canonical(w));
      AlikeAreTold(h, n, Canonical(v), Canonical(w));
    } else if Canonical(v) == Canonical(w) {
      DigestOfContent(h, v, w);
    }
  }

  lemma {:induction false} AlikeSame(h: Hash, c: Content)
    ensures Alike(h, c, c)
  {
    match c
    case CScalar(_) =>
    case CArray(es) => AlikeElemsSame(h, es);
    case CMap(_, _, es) => AlikeEntriesSame(h, es);
  }

  lemma {:induction false} AlikeElemsSame(h: Hash, es: CElems)
    ensures AlikeElems(h, es, es)
  {
    if es.CCons? {
      AlikeSame(h, es.head);
      AlikeElemsSame(h, es.tail);
    }
  }

  lemma {:induction false} AlikeEntriesSame(h: Hash, es: CEntries)
    ensures AlikeEntries(h, es, es)
  {
    if es.CBind? {
      AlikeSame(h, es.value);
      AlikeEntriesSame(h, es.rest);
    }
  }

  /** The entry is left out of the digest: flagged so, a default, a path, or of a type that is ignored. */
  predicate LeftOut(v: Value) {
    || v.flags.ignore || v.flags.isDefault
    || (v.ScalarValue? && v.scalar.PathText?) || (v.MapValue? && v.typ.ignorable)
  }

  lemma {:induction false} InsertVisible(h: Hash, es: Entries, k: string, x: Value, y: Value)
    requires !LeftOut(x) && !LeftOut(y) && Alike(h, Canonical(x), Canonical(y))
    ensures var a, b := CanonicalEntries(Insert(es, k, x)), CanonicalEntries(Insert(es, k, y));
            AlikeEntries(h, a, b) && (a == b <==> Canonical(x) == Canonical(y))
  {
    if es.Bind? && !Less(k, es.key) {
      AlikeEntriesSame(h, CanonicalEntries(es.rest));
      AlikeSame(h, Canonical(es.value));
      if es.key != k { InsertVisible(h, es.rest, k, x, y); }
    } else {
      AlikeEntriesSame(h, CanonicalEntries(es));
    }
  }

  lemma {:induction false} InsertLeftOut(es: Entries, k: string, x: Value, y: Value)
    requires LeftOut(x) && LeftOut(y)
    ensures CanonicalEntries(Insert(es, k, x)) == CanonicalEntries(Insert(es, k, y))
  {
    if es.Bind? && !Less(k, es.key) && es.key != k { InsertLeftOut(es.rest, k, x, y); }
  }

  /** A map in which `k` is bound to `x`. */
  function With(m: Value, k: string, x: Value): Value
    requires m.MapValue?
  {
    m.(entries := Insert(m.entries, k, x))
  }

  /** Two maps that differ in one binding that counts have one identifier if and only if its contents are the same. */
  lemma VisibleBindingShows(h: Hash, n: nat, m: Value, k: string, x: Value, y: Value)
    requires m.MapValue? && FixedLength(h, n) && !LeftOut(x) && !LeftOut(y) && Alike(h, Canonical(x), Canonical(y))
    requires NoCollision(h, Hashed(h, Canonical(With(m, k, x))), Hashed(h, Canonical(With(m, k, y))))
    ensures Identifier(h, With(m, k, x)) == Identifier(h, With(m, k, y)) <==> Canonical(x) == Canonical(y)
  {
    InsertVisible(h, m.entries, k, x, y);
    IdentifierTellsContent(h, n, With(m, k, x), With(m, k, y));
  }

  /** In particular two different scalars that can be encoded. */
  lemma VisibleScalarShows(h: Hash, n: nat, m: Value, k: string, a: Scalar, b: Scalar)
    requires m.MapValue? && FixedLength(h, n) && a != b && !a.PathText? && !b.PathText?
    requires Encodable(a) && Encodable(b) && RealsTold(h, a, b)
    requires NoCollision(h, Hashed(h, Canonical(With(m, k, ScalarValue(a, PLAIN)))),
                         Hashed(h, Canonical(With(m, k, ScalarValue(b, PLAIN)))))
    ensures Identifier(h, With(m, k, ScalarValue(a, PLAIN))) != Identifier(h, With(m, k, ScalarValue(b, PLAIN)))
  {
    VisibleBindingShows(h, n, m, k, ScalarValue(a, PLAIN), ScalarValue(b, PLAIN));
  }

  /** A binding that is left out does not show, whatever it is. */
  lemma LeftOutBindingIsUnseen(h: Hash, m: Value, k: string, x: Value, y: Value)
    requires m.MapValue? && LeftOut(x) && LeftOut(y)
    ensures Identifier(h, With(m, k, x)) == Identifier(h, With(m, k, y))
  {
    InsertLeftOut(m.entries, k, x, y);
    DigestOfContent(h, With(m, k, x), With(m, k, y));
  }
}
