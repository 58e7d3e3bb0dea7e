/** The value tree of a record (anyenc objects), and the writes `setNested`
    and `unsetNested` make in it. Strings, arrays and the other scalars are
    opaque atoms; numbers are told apart because `$inc` adds to them. */
module Values {
  import opened Basics

  datatype Value = Atom(atom: int) | Number(number: int) | Object(fields: map<Key, Value>)

  /** What a path holds: nothing, a scalar, or an object. */
  datatype Kind = Nothing | Leaf(scalar: Value) | Branch

  /** `Value.Get(key)`: only an object has children. */
  function Child(o: Option<Value>, k: Key): Option<Value> {
    if o.Some? && o.value.Object? && k in o.value.fields then Some(o.value.fields[k]) else None
  }

  /** `Value.Get(path...)`. */
  function At(o: Option<Value>, q: Path): Option<Value>
    decreases |q|
  {
    if q == [] then o else At(Child(o, q[0]), q[1..])
  }

  function KindOf(o: Option<Value>): Kind {
    match o
    case None => Nothing
    case Some(Object(_)) => Branch
    case Some(x) => Leaf(x)
  }

  function KindAt(o: Option<Value>, q: Path): Kind {
    KindOf(At(o, q))
  }

  /** The object `setNested` and `unsetNested` descend into below key k; a
      missing or non-object child counts as an empty one. */
  function Below(fields: map<Key, Value>, k: Key): map<Key, Value> {
    if k in fields && fields[k].Object? then fields[k].fields else map[]
  }

  function SetNested(fields: map<Key, Value>, path: Path, value: Value): map<Key, Value>
    requires path != []
    decreases |path|
  {
    if |path| == 1 then fields[path[0] := value]
    else fields[path[0] := Object(SetNested(Below(fields, path[0]), path[1..], value))]
  }

  function UnsetNested(fields: map<Key, Value>, path: Path): map<Key, Value>
    requires path != []
    decreases |path|
  {
    if |path| == 1 then fields - {path[0]}
    else if path[0] in fields && fields[path[0]].Object? then
      fields[path[0] := Object(UnsetNested(fields[path[0]].fields, path[1..]))]
    else fields
  }

  lemma AtAppend(o: Option<Value>, p: Path, q: Path)
    ensures At(o, p + q) == At(At(o, p), q)
    decreases |p|
  {
    if p == [] {
      assert p + q == q;
    } else {
      assert (p + q)[0] == p[0] && (p + q)[1..] == p[1..] + q;
      AtAppend(Child(o, p[0]), p[1..], q);
    }
  }

  lemma AtKey(o: Option<Value>, k: Key)
    ensures At(o, [k]) == Child(o, k)
  {
    assert At(Child(o, k), [k][1..]) == Child(o, k);
  }

  lemma AtNothing(q: Path)
    ensures At(None, q) == None
    decreases |q|
  {
    if q != [] { AtNothing(q[1..]); }
  }

  /** Below something that is not an object there is nothing. */
  lemma NothingBelow(o: Option<Value>, p: Path, q: Path)
    requires p < q && KindAt(o, p) != Branch
    ensures At(o, q) == None
  {
    var r := q[|p|..];
    assert q == p + r;
    AtAppend(o, p, r);
    assert Child(At(o, p), r[0]) == None;
    AtNothing(r[1..]);
  }

  /** `setNested` puts the value at the path, turns every proper prefix into
      an object and leaves every other path alone. */
  lemma {:induction false} SetNestedAt(fields: map<Key, Value>, p: Path, x: Value, q: Path)
    requires p != [] && q != []
    ensures p <= q ==> At(Some(Object(SetNested(fields, p, x))), q) == At(Some(x), q[|p|..])
    ensures q < p ==> KindAt(Some(Object(SetNested(fields, p, x))), q) == Branch
    ensures Incomparable(p, q) ==> At(Some(Object(SetNested(fields, p, x))), q) == At(Some(Object(fields)), q)
    decreases |p|
  {
    var before, after := Some(Object(fields)), Some(Object(SetNested(fields, p, x)));
    var k := p[0];
    if q[0] != k {
      assert Child(after, q[0]) == Child(before, q[0]);
    } else if |p| > 1 {
      assert Child(after, k) == Some(Object(SetNested(Below(fields, k), p[1..], x)));
      if |q| == 1 {
        assert q == [k];
        AtKey(after, k);
      } else {
        SetNestedAt(Below(fields, k), p[1..], x, q[1..]);
        PrefixTail(p, q);
        if Incomparable(p, q) {
          assert Child(Some(Object(Below(fields, k))), q[1]) == Child(Child(before, k), q[1]);
        }
      }
    }
  }

  /** `unsetNested` removes the path and leaves every other path alone. */
  lemma {:induction false} UnsetNestedAt(fields: map<Key, Value>, p: Path, q: Path)
    requires p != [] && q != []
    ensures p <= q ==> At(Some(Object(UnsetNested(fields, p))), q) == None
    ensures q < p ==> KindAt(Some(Object(UnsetNested(fields, p))), q) == KindAt(Some(Object(fields)), q)
    ensures Incomparable(p, q) ==> At(Some(Object(UnsetNested(fields, p))), q) == At(Some(Object(fields)), q)
    decreases |p|
  {
    var before, after := Some(Object(fields)), Some(Object(UnsetNested(fields, p)));
    var k := p[0];
    if q[0] != k {
      assert Child(after, q[0]) == Child(before, q[0]);
    } else if |p| == 1 {
      AtNothing(q[1..]);
    } else if k in fields && fields[k].Object? {
      assert Child(after, k) == Some(Object(UnsetNested(fields[k].fields, p[1..])));
      AtKey(before, k);
      AtKey(after, k);
      if |q| == 1 {
        assert q == [k];
      } else {
        UnsetNestedAt(fields[k].fields, p[1..], q[1..]);
        PrefixTail(p, q);
      }
    } else if p <= q {
      AtKey(before, k);
      NothingBelow(before, [k], q);
    }
  }

  lemma PrefixTail(p: Path, q: Path)
    requires p != [] && q != [] && p[0] == q[0]
    ensures p <= q <==> p[1..] <= q[1..]
    ensures q <= p <==> q[1..] <= p[1..]
    ensures p <= q ==> q[|p|..] == q[1..][|p[1..]|..]
  {
    assert p == [p[0]] + p[1..] && q == [q[0]] + q[1..];
  }

  /** A tree is determined by what its paths hold. */
  lemma SameKinds(a: Option<Value>, b: Option<Value>)
    requires forall q :: KindAt(a, q) == KindAt(b, q)
    ensures a == b
  {
    assert KindAt(a, []) == KindAt(b, []);
    if a.Some? { SameKindsValue(a.value, b.value); }
  }

  lemma {:induction false} SameKindsValue(a: Value, b: Value)
    requires forall q :: KindAt(Some(a), q) == KindAt(Some(b), q)
    ensures a == b
    decreases a
  {
    assert KindAt(Some(a), []) == KindAt(Some(b), []);
    if a.Object? {
      forall k: Key
        ensures Child(Some(a), k) == Child(Some(b), k)
      {
        forall q: Path
          ensures KindAt(Child(Some(a), k), q) == KindAt(Child(Some(b), k), q)
        {
          assert KindAt(Some(a), [k] + q) == KindAt(Some(b), [k] + q);
          assert ([k] + q)[1..] == q;
        }
        assert KindAt(Child(Some(a), k), []) == KindAt(Child(Some(b), k), []);
        if k in a.fields { SameKindsValue(a.fields[k], b.fields[k]); }
      }
      assert forall k :: k in a.fields <==> Child(Some(a), k).Some?;
      assert forall k :: k in b.fields <==> Child(Some(b), k).Some?;
      assert forall k :: k in a.fields ==> Child(Some(a), k) == Some(a.fields[k]);
      assert forall k :: k in b.fields ==> Child(Some(b), k) == Some(b.fields[k]);
      assert a.fields == b.fields;
    }
  }
}
