/**
  Values as the objects they are: nodes that refer to their children and are updated in place. The content of a
  node is the tree of module Values below it; copies are fresh, arrays keep the very object they are given.
*/
module ValueObjects {
  import V = Values
  import M = Markers
  import G = GenerationTheorems
  import I = Identity

  datatype Kind = Scalar | Array | Map

  function ToElems(vs: seq<V.Value>): V.Elems
    decreases |vs|
  {
    if vs == [] then V.Nil else V.Cons(vs[0], ToElems(vs[1..]))
  }

  function ToEntries(keys: seq<string>, vs: seq<V.Value>): V.Entries
    requires |keys| == |vs|
    decreases |vs|
  {
    if vs == [] then V.End else V.Bind(keys[0], vs[0], ToEntries(keys[1..], vs[1..]))
  }

  /** Where `std::map` puts a key: before the first one that is not less. */
  predicate IsPlace(keys: seq<string>, key: string, i: nat) {
    i <= |keys| && (forall j :: 0 <= j < i ==> V.Less(keys[j], key)) && (i < |keys| ==> !V.Less(keys[i], key))
  }

  function InsertedKeys(keys: seq<string>, key: string, i: nat): seq<string>
    requires i <= |keys|
  {
    keys[..i] + [key] + keys[if i < |keys| && keys[i] == key then i + 1 else i..]
  }

  lemma {:induction false} EntriesAppend(k1: seq<string>, v1: seq<V.Value>, k2: seq<string>, v2: seq<V.Value>)
    requires |k1| == |v1| && |k2| == |v2|
    ensures ToEntries(k1 + k2, v1 + v2) == I.AppendEntries(ToEntries(k1, v1), ToEntries(k2, v2))
    decreases |k1|
  {
    if k1 == [] {
      assert k1 + k2 == k2 && v1 + v2 == v2;
    } else {
      assert (k1 + k2)[1..] == k1[1..] + k2 && (v1 + v2)[1..] == v1[1..] + v2;
      EntriesAppend(k1[1..], v1[1..], k2, v2);
    }
  }

  lemma {:induction false} InsertAfter(keys: seq<string>, vs: seq<V.Value>, b: V.Entries, key: string, v: V.Value)
    requires |keys| == |vs| && forall j :: 0 <= j < |keys| ==> V.Less(keys[j], key)
    ensures V.Insert(I.AppendEntries(ToEntries(keys, vs), b), key, v)
         == I.AppendEntries(ToEntries(keys, vs), V.Insert(b, key, v))
    decreases |keys|
  {
    if keys != [] {
      V.LessIsTotal(keys[0], key);
      InsertAfter(keys[1..], vs[1..], b, key, v);
    }
  }

  lemma InsertAtPlace(keys: seq<string>, vs: seq<V.Value>, key: string, v: V.Value, i: nat)
    requires |keys| == |vs| && IsPlace(keys, key, i)
    ensures var after := if i < |keys| && keys[i] == key then i + 1 else i;
            |InsertedKeys(keys, key, i)| == |vs[..i] + [v] + vs[after..]|
            && ToEntries(InsertedKeys(keys, key, i), vs[..i] + [v] + vs[after..]) == V.Insert(ToEntries(keys, vs), key, v)
  {
    var after := if i < |keys| && keys[i] == key then i + 1 else i;
    InsertBetween(keys[..i], vs[..i], keys[i..], vs[i..], key, v);
    assert keys == keys[..i] + keys[i..] && vs == vs[..i] + vs[i..];
    var n := after - i;
    assert keys[after..] == keys[i..][n..] && vs[after..] == vs[i..][n..];
    assert InsertedKeys(keys, key, i) == keys[..i] + ([key] + keys[i..][n..]);
    assert vs[..i] + [v] + vs[after..] == vs[..i] + ([v] + vs[i..][n..]);
  }

  lemma InsertBetween(k1: seq<string>, v1: seq<V.Value>, k2: seq<string>, v2: seq<V.Value>, key: string, v: V.Value)
    requires |k1| == |v1| && |k2| == |v2|
    requires (forall j :: 0 <= j < |k1| ==> V.Less(k1[j], key)) && (k2 != [] ==> !V.Less(k2[0], key))
    ensures var n := if k2 != [] && k2[0] == key then 1 else 0;
            ToEntries(k1 + ([key] + k2[n..]), v1 + ([v] + v2[n..])) == V.Insert(ToEntries(k1 + k2, v1 + v2), key, v)
  {
    var n := if k2 != [] && k2[0] == key then 1 else 0;
    EntriesAppend(k1, v1, k2, v2);
    InsertAfter(k1, v1, ToEntries(k2, v2), key, v);
    InsertFirst(k2, v2, key, v);
    EntriesAppend(k1, v1, [key] + k2[n..], [v] + v2[n..]);
  }

  lemma InsertFirst(keys: seq<string>, vs: seq<V.Value>, key: string, v: V.Value)
    requires |keys| == |vs| && (keys != [] ==> !V.Less(keys[0], key))
    ensures var n := if keys != [] && keys[0] == key then 1 else 0;
            V.Insert(ToEntries(keys, vs), key, v) == ToEntries([key] + keys[n..], [v] + vs[n..])
  {
    var n := if keys != [] && keys[0] == key then 1 else 0;
    assert ([key] + keys[n..])[1..] == keys[n..] && ([v] + vs[n..])[1..] == vs[n..];
    if keys != [] { V.LessIsTotal(keys[0], key); }
  }

  lemma {:induction false} SealedElems(a: seq<V.Value>, b: seq<V.Value>)
    requires |a| == |b| && forall i :: 0 <= i < |a| ==> b[i] == G.Seal(a[i])
    ensures ToElems(b) == G.SealElems(ToElems(a))
    decreases |a|
  {
    if a != [] { SealedElems(a[1..], b[1..]); }
  }

  lemma {:induction false} SealedEntries(keys: seq<string>, a: seq<V.Value>, b: seq<V.Value>)
    requires |keys| == |a| == |b| && forall i :: 0 <= i < |a| ==> b[i] == G.Seal(a[i])
    ensures ToEntries(keys, b) == G.SealEntries(ToEntries(keys, a))
    decreases |a|
  {
    if a != [] { SealedEntries(keys[1..], a[1..], b[1..]); }
  }

  lemma {:induction false} AppendedElems(vs: seq<V.Value>, v: V.Value)
    ensures ToElems(vs + [v]) == Snoc(ToElems(vs), v)
    decreases |vs|
  {
    if vs != [] {
      assert (vs + [v])[1..] == vs[1..] + [v];
      AppendedElems(vs[1..], v);
    } else {
      assert (vs + [v])[1..] == [];
    }
  }

  lemma SetIs(m: V.Value, key: string, v: V.Value)
    requires m.MapValue? && !m.flags.sealed && !V.Restricted(key)
    ensures V.Set(m, key, v) == V.Outcome(WithBinding(m, key, V.Bound(m.typ, key, v)),
                                          if V.Comparable(m.typ, key, v) then V.None else V.Some(V.NotComparable))
  {
  }

  function Assemble(kind: Kind, scalar: V.Scalar, typ: V.Type, task: V.Option<string>, keys: seq<string>,
                    vs: seq<V.Value>, flags: V.Flags): V.Value
    requires kind.Map? ==> |keys| == |vs|
  {
    match kind
    case Scalar => V.ScalarValue(scalar, flags)
    case Array => V.ArrayValue(ToElems(vs), flags)
    case Map => V.MapValue(typ, task, ToEntries(keys, vs), flags)
  }

  /** The effect of binding, appending and assigning, on contents. */
  function WithBinding(m: V.Value, key: string, v: V.Value): V.Value {
    if m.MapValue? then m.(entries := V.Insert(m.entries, key, v)) else m
  }

  function WithElement(a: V.Value, v: V.Value): V.Value {
    if a.ArrayValue? then a.(elems := Snoc(a.elems, v)) else a
  }

  function WithScalar(v: V.Value, s: V.Scalar): V.Value { if v.ScalarValue? then v.(scalar := s) else v }

  function Snoc(es: V.Elems, v: V.Value): V.Elems { if es.Nil? then V.Cons(v, V.Nil) else V.Cons(es.head, Snoc(es.tail, v)) }

  lemma LengthOf(vs: seq<V.Value>)
    ensures V.Length(ToElems(vs)) == |vs|
    decreases |vs|
  {
    if vs != [] { LengthOf(vs[1..]); }
  }

  lemma FeedElem(h: V.Hash, r: seq<M.Byte>, vs: seq<V.Value>, i: nat)
    requires i < |vs|
    ensures r + V.ElemsStream(h, ToElems(vs[i..])) == (r + V.Stream(h, vs[i])) + V.ElemsStream(h, ToElems(vs[i + 1..]))
  {
    assert vs[i..][1..] == vs[i + 1..];
  }

  lemma FeedEntry(h: V.Hash, r: seq<M.Byte>, keys: seq<string>, vs: seq<V.Value>, i: nat)
    requires i < |vs| == |keys|
    ensures r + V.EntriesStream(h, ToEntries(keys[i..], vs[i..]))
         == (if V.CanIgnore(vs[i]) then r else r + (V.Bytes(keys[i]) + h.sha1(V.Stream(h, vs[i]))))
            + V.EntriesStream(h, ToEntries(keys[i + 1..], vs[i + 1..]))
  {
    assert vs[i..][1..] == vs[i + 1..] && keys[i..][1..] == keys[i + 1..];
  }

  lemma CompareElem(es: V.Elems, vs: seq<V.Value>, i: nat)
    requires i < |vs| && V.Length(es) == |vs| - i
    ensures V.Length(es) == V.Length(ToElems(vs[i..])) && V.Length(es.tail) == V.Length(ToElems(vs[i + 1..]))
    ensures V.EqualElems(es, ToElems(vs[i..])) == match V.Equals(es.head, vs[i])
              case Same => V.EqualElems(es.tail, ToElems(vs[i + 1..]))
              case Different => V.Different
              case Throws => V.Throws
  {
    LengthOf(vs[i..]);
    assert vs[i..][1..] == vs[i + 1..];
  }

  /** Valid nodes with disjoint footprints inside `repr`. */
  ghost predicate Forest(nodes: seq<Node>, repr: set<Node>)
    reads repr
    decreases repr, 1
  {
    && (forall i :: 0 <= i < |nodes| ==> nodes[i] in repr && nodes[i].Repr <= repr && nodes[i].Valid())
    && (forall i, j :: 0 <= i < j < |nodes| ==> nodes[i].Repr !! nodes[j].Repr)
  }

  ghost function Contents(nodes: seq<Node>, repr: set<Node>): (r: seq<V.Value>)
    requires Forest(nodes, repr)
    reads repr
    ensures |r| == |nodes| && forall i :: 0 <= i < |nodes| ==> r[i] == nodes[i].Content()
    decreases repr, 1
  {
    seq(|nodes|, i requires 0 <= i < |nodes| reads repr requires Forest(nodes, repr) => nodes[i].Content())
  }

  lemma ForestSnoc(nodes: seq<Node>, repr: set<Node>, n: Node)
    requires Forest(nodes, repr) && n.Valid() && n in n.Repr && n.Repr !! repr
    ensures Forest(nodes + [n], repr + n.Repr)
    ensures Contents(nodes + [n], repr + n.Repr) == Contents(nodes, repr) + [n.Content()]
  {
  }

  /** Replaces node `i`, or inserts before it. */
  lemma ForestSplice(nodes: seq<Node>, repr: set<Node>, i: nat, replace: bool, n: Node)
    requires Forest(nodes, repr) && n.Valid() && n.Repr !! repr && i <= |nodes| && (replace ==> i < |nodes|)
    ensures var after := if replace then i + 1 else i;
            var rest := if replace then repr - nodes[i].Repr else repr;
            && Forest(nodes[..i] + [n] + nodes[after..], rest + n.Repr)
            && Contents(nodes[..i] + [n] + nodes[after..], rest + n.Repr)
               == Contents(nodes, repr)[..i] + [n.Content()] + Contents(nodes, repr)[after..]
  {
    var after := if replace then i + 1 else i;
    var rest := if replace then repr - nodes[i].Repr else repr;
    var ns := nodes[..i] + [n] + nodes[after..];
    forall k | 0 <= k < |ns| ensures ns[k] in rest + n.Repr && ns[k].Repr <= rest + n.Repr && ns[k].Valid() {
      if k != i { assert ns[k] == nodes[if k < i then k else k - 1 + after - i]; }
    }
    forall j, k | 0 <= j < k < |ns| ensures ns[j].Repr !! ns[k].Repr {
      if j != i { assert ns[j] == nodes[if j < i then j else j - 1 + after - i]; }
      if k != i { assert ns[k] == nodes[if k < i then k else k - 1 + after - i]; }
    }
    assert Forest(ns, rest + n.Repr);
  }

  class Node {
    const kind: Kind
    var scalar: V.Scalar
    var typ: V.Type
    var task: V.Option<string>
    var keys: seq<string>
    var children: seq<Node>
    var flags: V.Flags
    ghost var Repr: set<Node>

    /** The nodes below form a tree, and the footprint covers it. */
    ghost predicate Valid()
      reads this, Repr
      decreases Repr, 0
    {
      && this in Repr
      && (kind.Map? ==> |keys| == |children|)
      && (kind.Scalar? ==> children == [])
      && Forest(children, Repr - {this})
    }

    ghost function Content(): (r: V.Value)
      requires Valid()
      reads this, Repr
      ensures (kind.Scalar? <==> r.ScalarValue?) && (kind.Array? <==> r.ArrayValue?) && (kind.Map? <==> r.MapValue?)
      decreases Repr, 0
    {
      Assemble(kind, scalar, typ, task, keys, Contents(children, Repr - {this}), flags)
    }

    /** A node over given children. */
    constructor Over(kind: Kind, scalar: V.Scalar, typ: V.Type, task: V.Option<string>, keys: seq<string>,
                     children: seq<Node>, flags: V.Flags, ghost repr: set<Node>)
      requires Forest(children, repr) && (kind.Map? ==> |keys| == |children|) && (kind.Scalar? ==> children == [])
      ensures Valid() && Repr == {this} + repr && this !in repr && fresh(this) && this.kind == kind
      ensures Content() == Assemble(kind, scalar, typ, task, keys, Contents(children, repr), flags)
    {
      this.kind, this.scalar, this.typ, this.task := kind, scalar, typ, task;
      this.keys, this.children, this.flags := keys, children, flags;
      this.Repr := {this} + repr;
      new;
      assert Repr - {this} == repr;
    }

    /** A copy has the same content and shares no node. */
    method Copy() returns (r: Node)
      requires Valid()
      ensures r.Valid() && fresh(r.Repr) && r.Content() == Content() && r.kind == kind
      decreases Repr, 0
    {
      var copies;
      ghost var repr;
      copies, repr := CopyAll(children, Repr - {this});
      r := new Node.Over(kind, scalar, typ, task, keys, copies, flags, repr);
    }

    static method CopyAll(nodes: seq<Node>, ghost within: set<Node>) returns (copies: seq<Node>, ghost repr: set<Node>)
      requires Forest(nodes, within)
      ensures fresh(repr) && Forest(copies, repr) && Contents(copies, repr) == Contents(nodes, within)
      decreases within, 1
    {
      ghost var vs := Contents(nodes, within);
      copies, repr := [], {};
      var i := 0;
      while i < |nodes|
        invariant 0 <= i <= |nodes| && fresh(repr)
        invariant Forest(nodes, within) && Contents(nodes, within) == vs
        invariant Forest(copies, repr) && Contents(copies, repr) == vs[..i]
      {
        var c := nodes[i].Copy();
        ForestSnoc(copies, repr, c);
        copies := copies + [c];
        repr := repr + c.Repr;
        i := i + 1;
      }
    }

    /** `d.equals(*this)` for a default value d. */
    method EqualTo(d: V.Value) returns (r: V.Comparison)
      requires Valid()
      ensures r == V.Equals(d, Content())
      decreases Repr, 0
    {
      match d
      case ScalarValue(s, _) =>
        if !kind.Scalar? { return V.Different; }
        if s.Unset? && scalar.Unset? { return V.Throws; }
        r := if s == scalar then V.Same else V.Different;
      case MapValue(_, _, _, _) => r := V.Throws;
      case ArrayValue(es, _) =>
        if !kind.Array? { return V.Different; }
        LengthOf(Contents(children, Repr - {this}));
        if V.Length(es) != |children| { return V.Different; }
        r := EqualElems(es, children, Repr - {this});
    }

    static method EqualElems(es: V.Elems, nodes: seq<Node>, ghost within: set<Node>) returns (r: V.Comparison)
      requires Forest(nodes, within) && V.Length(es) == |nodes|
      ensures V.Length(ToElems(Contents(nodes, within))) == V.Length(es)
      ensures r == V.EqualElems(es, ToElems(Contents(nodes, within)))
      decreases within, 1
    {
      ghost var vs := Contents(nodes, within);
      LengthOf(vs);
      var rest, i := es, 0;
      assert vs[0..] == vs;
      while i < |nodes|
        invariant 0 <= i <= |nodes| && V.Length(rest) == |nodes| - i == V.Length(ToElems(vs[i..]))
        invariant V.EqualElems(rest, ToElems(vs[i..])) == V.EqualElems(es, ToElems(vs))
      {
        CompareElem(rest, vs, i);
        var c := nodes[i].EqualTo(rest.head);
        if !c.Same? { return c; }
        rest, i := rest.tail, i + 1;
      }
      r := V.Same;
    }

    method Place(key: string) returns (i: nat)
      ensures IsPlace(keys, key, i)
    {
      i := 0;
      while i < |keys| && V.Less(keys[i], key)
        invariant i <= |keys| && forall j :: 0 <= j < i ==> V.Less(keys[j], key)
      {
        i := i + 1;
      }
    }

    /** `MapValue::set`: binds a fresh copy, so that the value passed in stays apart from the map. */
    method Set(key: string, v: Node) returns (error: V.Option<V.Error>)
      requires Valid() && kind.Map? && v.Valid()
      modifies this
      ensures Valid() && fresh(Repr - old(Repr))
      ensures V.Outcome(Content(), error) == V.Set(old(Content()), key, old(v.Content()))
    {
      if flags.sealed { return V.Some(V.Sealed); }
      var value := v.Copy();
      if V.Restricted(key) { return V.Some(V.RestrictedKey); }
      SetIs(Content(), key, value.Content());
      error := MarkAndBind(key, value);
    }

    method MarkAndBind(key: string, value: Node) returns (error: V.Option<V.Error>)
      requires Valid() && kind.Map? && value.Valid() && value.Repr !! Repr
      modifies this, value
      ensures Valid() && Repr <= old(Repr) + old(value.Repr)
      ensures Content() == WithBinding(old(Content()), key, V.Bound(old(typ), key, old(value.Content())))
      ensures error == if V.Comparable(old(typ), key, old(value.Content())) then V.None else V.Some(V.NotComparable)
    {
      ghost var before, bound := Content(), V.Bound(typ, key, value.Content());
      assert value !in Repr;
      error := value.MarkFor(typ, key);
      assert Valid() && Content() == before && value.Content() == bound;
      var i := Place(key);
      Bind(i, key, value);
    }

    /** The flags that an argument of the map's type gives to the value. */
    method MarkFor(t: V.Type, key: string) returns (error: V.Option<V.Error>)
      requires Valid()
      modifies this`flags
      ensures Valid() && Content() == V.Bound(t, key, old(Content()))
      ensures error == if V.Comparable(t, key, old(Content())) then V.None else V.Some(V.NotComparable)
    {
      error := V.None;
      match V.FindArgument(t.arguments, key)
      case None =>
      case Some(a) =>
        var c := V.Different;
        if a.provision.Default? { c := EqualTo(a.provision.value); }
        if c.Throws? { return V.Some(V.NotComparable); }
        flags := flags.(isDefault := flags.isDefault || c.Same?, ignore := flags.ignore || a.ignored);
    }

    method Bind(i: nat, key: string, value: Node)
      requires Valid() && kind.Map? && IsPlace(keys, key, i) && value.Valid() && value.Repr !! Repr
      modifies this
      ensures Valid() && Repr <= old(Repr) + value.Repr
      ensures Content() == WithBinding(old(Content()), key, value.Content())
    {
      ghost var others := Repr - {this};
      ghost var replace := i < |keys| && keys[i] == key;
      ForestSplice(children, others, i, replace, value);
      InsertAtPlace(keys, Contents(children, others), key, value.Content(), i);
      var after := if i < |keys| && keys[i] == key then i + 1 else i;
      Rebuild(InsertedKeys(keys, key, i), children[..i] + [value] + children[after..],
              (if replace then others - children[i].Repr else others) + value.Repr);
    }

    /** Gives the node new children. */
    method Rebuild(ks: seq<string>, ns: seq<Node>, ghost repr: set<Node>)
      requires Forest(ns, repr) && this !in repr && !kind.Scalar? && (kind.Map? ==> |ks| == |ns|)
      modifies this
      ensures Valid() && Repr == {this} + repr && children == ns
      ensures Content() == Assemble(kind, old(scalar), old(typ), old(task), ks, old(Contents(ns, repr)), old(flags))
    {
      keys, children := ks, ns;
      Repr := {this} + repr;
      assert Repr - {this} == repr;
    }

    /** `ArrayValue::push_back`: the array refers to the very value it is given. */
    method PushBack(v: Node)
      requires Valid() && kind.Array? && v.Valid() && v.Repr !! Repr
      modifies this
      ensures Valid() && Repr == old(Repr) + v.Repr && children == old(children) + [v]
      ensures Content() == WithElement(old(Content()), v.Content())
    {
      ghost var others := Repr - {this};
      ForestSnoc(children, others, v);
      AppendedElems(Contents(children, others), v.Content());
      Rebuild(keys, children + [v], others + v.Repr);
    }

    predicate CanIgnore()
      reads this
    {
      flags.ignore || (kind.Scalar? && scalar.PathText?) || (kind.Map? && typ.ignorable) || flags.isDefault
    }

    /** `updateDigest`: feeds the node's stream to a digest context. */
    method UpdateDigest(h: V.Hash, context: seq<M.Byte>) returns (r: seq<M.Byte>)
      requires Valid()
      ensures r == context + V.Stream(h, Content())
      decreases Repr, 0
    {
      match kind
      case Scalar => r := context + V.ScalarStream(h, scalar);
      case Array =>
        LengthOf(Contents(children, Repr - {this}));
        r := UpdateElems(h, context + ([1] + V.LittleEndian(|children|, 8)), children, Repr - {this});
      case Map =>
        r := UpdateEntries(h, context + (V.Bytes(typ.name) + V.TaskStream(task)), keys, children, Repr - {this});
    }

    static method UpdateElems(h: V.Hash, context: seq<M.Byte>, nodes: seq<Node>, ghost within: set<Node>)
      returns (r: seq<M.Byte>)
      requires Forest(nodes, within)
      ensures r == context + V.ElemsStream(h, ToElems(Contents(nodes, within)))
      decreases within, 1
    {
      ghost var vs := Contents(nodes, within);
      r := context;
      var i := 0;
      assert vs[0..] == vs;
      while i < |nodes|
        invariant 0 <= i <= |nodes|
        invariant r + V.ElemsStream(h, ToElems(vs[i..])) == context + V.ElemsStream(h, ToElems(vs))
      {
        FeedElem(h, r, vs, i);
        r := nodes[i].UpdateDigest(h, r);
        i := i + 1;
      }
    }

    /** Entries in key order: the key and the child's own digest, unless the child can be ignored. */
    static method UpdateEntries(h: V.Hash, context: seq<M.Byte>, keys: seq<string>, nodes: seq<Node>,
                                ghost within: set<Node>)
      returns (r: seq<M.Byte>)
      requires Forest(nodes, within) && |keys| == |nodes|
      ensures r == context + V.EntriesStream(h, ToEntries(keys, Contents(nodes, within)))
      decreases within, 1
    {
      ghost var vs := Contents(nodes, within);
      r := context;
      var i := 0;
      assert vs[0..] == vs && keys[0..] == keys;
      while i < |nodes|
        invariant 0 <= i <= |nodes|
        invariant r + V.EntriesStream(h, ToEntries(keys[i..], vs[i..])) == context + V.EntriesStream(h, ToEntries(keys, vs))
      {
        FeedEntry(h, r, keys, vs, i);
        if !nodes[i].CanIgnore() {
          var child := nodes[i].UpdateDigest(h, []);
          assert child == V.Stream(h, vs[i]);
          r := r + (V.Bytes(keys[i]) + h.sha1(child));
        }
        i := i + 1;
      }
    }

    method SetScalar(s: V.Scalar)
      requires Valid() && kind.Scalar?
      modifies this
      ensures Valid() && Repr == old(Repr) && Content() == WithScalar(old(Content()), s)
    {
      scalar := s;
    }

    /** `Value::seal`: children first; what is sealed already is left alone. */
    method Seal()
      requires Valid()
      modifies Repr
      ensures Valid() && Repr == old(Repr) && Content() == G.Seal(old(Content()))
      decreases Repr, 0
    {
      if flags.sealed { return; }
      ghost var vs := Contents(children, Repr - {this});
      SealAll(children, Repr - {this});
      flags := flags.(sealed := true);
      match kind
      case Scalar =>
      case Array => SealedElems(vs, Contents(children, Repr - {this}));
      case Map => SealedEntries(keys, vs, Contents(children, Repr - {this}));
    }

    static method SealAll(nodes: seq<Node>, ghost within: set<Node>)
      requires Forest(nodes, within)
      modifies within
      ensures Forest(nodes, within)
      ensures forall k :: 0 <= k < |nodes| ==> Contents(nodes, within)[k] == G.Seal(old(Contents(nodes, within))[k])
      decreases within, 2
    {
      var i := 0;
      while i < |nodes|
        invariant 0 <= i <= |nodes| && Forest(nodes, within)
        invariant forall k :: 0 <= k < i ==> Contents(nodes, within)[k] == G.Seal(old(Contents(nodes, within))[k])
        invariant forall k :: i <= k < |nodes| ==> Contents(nodes, within)[k] == old(Contents(nodes, within))[k]
      {
        SealAt(nodes, within, i);
        i := i + 1;
      }
    }

    static method SealAt(nodes: seq<Node>, ghost within: set<Node>, i: nat)
      requires Forest(nodes, within) && i < |nodes|
      modifies nodes[i].Repr
      ensures Forest(nodes, within)
      ensures Contents(nodes, within) == old(Contents(nodes, within))[i := G.Seal(old(Contents(nodes, within))[i])]
      decreases within, 1
    {
      ghost var vs := Contents(nodes, within);
      nodes[i].Seal();
      forall k | 0 <= k < |nodes| && k != i
        ensures nodes[k].Repr == old(nodes[k].Repr) && nodes[k].Valid() && nodes[k].Content() == vs[k]
      {
        assert nodes[k] in old(nodes[k].Repr) && old(nodes[k].Repr) !! old(nodes[i].Repr);
      }
      assert Forest(nodes, within);
      assert Contents(nodes, within) == vs[i := G.Seal(vs[i])];
    }
  }

  // ---------------------------------------------------------------- isolation and sharing

  /** After `set`, nothing done to the value that was passed shows in the map: here it is extended, then sealed. */
  method SetThenChange(m: Node, key: string, v: Node, inner: string, x: Node)
    requires m.Valid() && m.kind.Map? && v.Valid() && v.kind.Map? && x.Valid() && m.Repr !! v.Repr && m.Repr !! x.Repr
    modifies m, v.Repr
    ensures m.Valid() && m.Content() == V.Set(old(m.Content()), key, old(v.Content())).value
    ensures v.Valid() && v.Content() == G.Seal(V.Set(old(v.Content()), inner, old(x.Content())).value)
    ensures m.Repr !! v.Repr
  {
    var e := m.Set(key, v);
    ExtendAndSeal(v, inner, x);
  }

  method ExtendAndSeal(v: Node, inner: string, x: Node)
    requires v.Valid() && v.kind.Map? && x.Valid()
    modifies v.Repr
    ensures v.Valid() && fresh(v.Repr - old(v.Repr))
    ensures v.Content() == G.Seal(V.Set(old(v.Content()), inner, old(x.Content())).value)
  {
    var e := v.Set(inner, x);
    v.Seal();
  }

  /** Nor does anything else: whatever becomes of the nodes below the value that was passed, the map stays as it is. */
  method SetThenAnything(m: Node, key: string, v: Node) returns (error: V.Option<V.Error>)
    requires m.Valid() && m.kind.Map? && v.Valid() && m.Repr !! v.Repr
    modifies m, v.Repr
    ensures m.Valid() && V.Outcome(m.Content(), error) == V.Set(old(m.Content()), key, old(v.Content()))
  {
    ghost var below := v.Repr;
    error := m.Set(key, v);
    modify below;
  }

  /** The same for a copy and its original, in both directions. */
  method CopyThenAnything(v: Node, changeCopy: bool) returns (r: Node)
    requires v.Valid()
    modifies v.Repr
    ensures changeCopy ==> v.Valid() && v.Content() == old(v.Content())
    ensures !changeCopy ==> r.Valid() && r.Content() == old(v.Content())
  {
    ghost var below := v.Repr;
    r := v.Copy();
    ghost var copied := r.Repr;
    if changeCopy {
      modify copied;
    } else {
      modify below;
    }
  }

  /** After `push_back`, a change of the value that was passed does show in the array. */
  method PushThenChange(a: Node, v: Node, s: V.Scalar)
    requires a.Valid() && a.kind.Array? && v.Valid() && v.kind.Scalar? && a.Repr !! v.Repr
    modifies a, v
    ensures a.Valid() && a.Content() == WithElement(old(a.Content()), WithScalar(old(v.Content()), s))
  {
    ghost var others := a.Repr - {a};
    ghost var nodes, vs := a.children, Contents(a.children, others);
    a.PushBack(v);
    v.SetScalar(s);
    assert a.children == nodes + [v] && a.Repr - {a} == others + v.Repr;
    ForestSnoc(nodes, others, v);
    AppendedElems(vs, v.Content());
  }
}
