/** Gated `$set` and `$unset` on one record, and the `_ver` compaction that
    ends every change. */
module Gated {
  import opened Basics
  import opened Values
  import opened Versions
  import opened Merge

  /** A record's user fields and its `_ver` tree (the creation marker
      `_ver.id` is kept apart: no path may name it). */
  datatype Doc = Doc(fields: map<Key, Value>, ver: Ver)

  const EMPTY: Doc := Doc(map[], Split(0, map[]))

  /** A record's `_ver` root is an object without a default; its entries are
      named by paths. */
  ghost predicate Valid(d: Doc) {
    d.ver.Split? && d.ver.def == 0 && Layered(d.ver) && NoStar(d.ver)
  }

  function Tree(d: Doc): Option<Value> {
    Some(Object(d.fields))
  }

  /** Writes or removes a whole position. */
  function Place(fields: map<Key, Value>, path: Path, val: Option<Value>): map<Key, Value>
    requires path != []
  {
    match val
    case Some(x) => SetNested(fields, path, x)
    case None => UnsetNested(fields, path)
  }

  /** A gated write: of `val`, or of nothing for an unset. */
  function Put(d: Doc, path: Path, val: Option<Value>, v: Version): Doc
    requires d.ver.Split? && path != [] && v > 0
  {
    match Gate(d.ver, path)
    case Single(gate) =>
      if gate >= v then d
      else Doc(Place(d.fields, path, val), PutNode(d.ver, path, One(v)))
    case Subtree(node) =>
      var m := MergeReplace(At(Tree(d), path), node, val, v);
      if !m.changed then d
      else Doc(Place(d.fields, path, m.val), PutNode(d.ver, path, m.ver))
  }

  /** The record as the apply path holds it: the two trees are fields that the
      operations overwrite. */
  class Record {
    var fields: map<Key, Value>
    var ver: Ver

    ghost function Contents(): Doc
      reads this
    {
      Doc(fields, ver)
    }

    constructor (d: Doc)
      ensures Contents() == d
    {
      fields, ver := d.fields, d.ver;
    }

    /** `gatedSet`. */
    method GatedSet(version: Version, path: Path, value: Value)
      requires ver.Split? && path != [] && version > 0
      modifies this
      ensures Contents() == Put(old(Contents()), path, Some(value), version)
      ensures ver.Split?
    {
      var gate := GateVersion(ver, path);
      match gate {
        case Single(g) =>
          if g >= version { return; }
          fields := SetNested(fields, path, value);
          ver := PutNode(ver, path, One(version));
        case Subtree(node) =>
          var m := MergeReplace(At(Some(Object(fields)), path), node, Some(value), version);
          if !m.changed { return; }
          match m.val {
            case None => fields := UnsetNested(fields, path);
            case Some(x) => fields := SetNested(fields, path, x);
          }
          ver := PutNode(ver, path, m.ver);
      }
    }

    /** `gatedUnset`. */
    method GatedUnset(version: Version, path: Path)
      requires ver.Split? && path != [] && version > 0
      modifies this
      ensures Contents() == Put(old(Contents()), path, None, version)
      ensures ver.Split?
    {
      var gate := GateVersion(ver, path);
      match gate {
        case Single(g) =>
          if g >= version { return; }
          fields := UnsetNested(fields, path);
          ver := PutNode(ver, path, One(version));
        case Subtree(node) =>
          var m := MergeReplace(At(Some(Object(fields)), path), node, None, version);
          if !m.changed { return; }
          match m.val {
            case None => fields := UnsetNested(fields, path);
            case Some(x) => fields := SetNested(fields, path, x);
          }
          ver := PutNode(ver, path, m.ver);
      }
    }

    /** `applyInc`: the counter path reads the gate and leaves `_ver` alone. */
    method Inc(version: Version, path: Path, delta: int)
      requires ver.Split? && path != [] && version > 0
      modifies this
      ensures Contents() == Increment(old(Contents()), path, delta, version)
      ensures ver.Split?
    {
      var gate := GetVersion(ver, path);
      if gate >= version { return; }
      var existing := At(Some(Object(fields)), path);
      if existing.Some? && !existing.value.Number? { return; }
      var cur := if existing.Some? then existing.value.number else 0;
      fields := SetNested(fields, path, Number(cur + delta));
    }

    /** `applyIncGated`: as `applyInc`, but the version is recorded as well. */
    method IncGated(version: Version, path: Path, delta: int)
      requires ver.Split? && path != [] && version > 0
      modifies this
      ensures Contents() == IncrementGated(old(Contents()), path, delta, version)
      ensures ver.Split?
    {
      var gate := GetVersion(ver, path);
      if gate >= version { return; }
      var existing := At(Some(Object(fields)), path);
      if existing.Some? && !existing.value.Number? { return; }
      var cur := if existing.Some? then existing.value.number else 0;
      fields := SetNested(fields, path, Number(cur + delta));
      ver := PutNode(ver, path, One(version));
    }
  }

  /** What a counter path takes an increment as: the current number, 0 when
      absent; None when the path is gated or holds something else. */
  ghost function Counter(d: Doc, path: Path, v: Version): Option<int> {
    var existing := At(Tree(d), path);
    if Sub(d.ver, path) >= v then None
    else if existing.None? then Some(0)
    else if existing.value.Number? then Some(existing.value.number)
    else None
  }

  ghost function IncrementGated(d: Doc, path: Path, delta: int, v: Version): Doc
    requires d.ver.Split? && path != []
  {
    match Counter(d, path, v)
    case None => d
    case Some(cur) => Doc(SetNested(d.fields, path, Number(cur + delta)), PutNode(d.ver, path, One(v)))
  }

  ghost function Increment(d: Doc, path: Path, delta: int, v: Version): Doc
    requires path != []
  {
    match Counter(d, path, v)
    case None => d
    case Some(cur) => d.(fields := SetNested(d.fields, path, Number(cur + delta)))
  }

  /** A gated write raises the effective version of its path and of everything
      below it to its own, and changes no other: a pointwise maximum. */
  lemma {:induction false} PutEv(d: Doc, p: Path, val: Option<Value>, v: Version, q: Path)
    requires Valid(d) && p != [] && v > 0
    ensures Ev(Put(d, p, val, v).ver, q) == if p <= q then Max(Ev(d.ver, q), v) else Ev(d.ver, q)
  {
    var r := if p <= q then q[|p|..] else [];
    assert p <= q ==> q == p + r;
    GateMeaning(d.ver, p, r);
    GateMeaning(d.ver, p, []);
    GateLayered(d.ver, p);
    match Gate(d.ver, p) {
      case Single(g) =>
        PutNodeEv(d.ver, p, One(v), q);
      case Subtree(node) =>
        var m := MergeReplace(At(Tree(d), p), node, val, v);
        PutNodeEv(d.ver, p, m.ver, q);
        MergeEv(At(Tree(d), p), node, val, v, r);
    }
  }

  lemma {:induction false} PutValid(d: Doc, p: Path, val: Option<Value>, v: Version)
    requires Valid(d) && Nameable(p) && v > 0
    ensures Valid(Put(d, p, val, v))
  {
    GateMeaning(d.ver, p, []);
    GateLayered(d.ver, p);
    GateNoStar(d.ver, p);
    assert p + [] == p;
    match Gate(d.ver, p) {
      case Single(g) =>
        if g < v {
          PutNodeLayered(d.ver, p, One(v));
          PutNodeNoStar(d.ver, p, One(v));
        }
      case Subtree(node) =>
        var m := MergeReplace(At(Tree(d), p), node, val, v);
        MergeLayered(At(Tree(d), p), node, val, v);
        MergeNoStar(At(Tree(d), p), node, val, v);
        if node.def < v {
          PutNodeLayered(d.ver, p, m.ver);
          PutNodeNoStar(d.ver, p, m.ver);
        }
    }
  }

  /** A write at a version not found at or below its path keeps levels split
      only where something below is newer. */
  lemma {:induction false} PutTight(d: Doc, p: Path, val: Option<Value>, v: Version)
    requires Valid(d) && Nameable(p) && v > 0 && Tight(d.ver)
    requires forall r :: p <= r ==> Ev(d.ver, r) != v
    ensures Tight(Put(d, p, val, v).ver)
  {
    GateMeaning(d.ver, p, []);
    GateLayered(d.ver, p);
    GateTight(d.ver, p);
    assert p + [] == p;
    match Gate(d.ver, p) {
      case Single(g) =>
        if g < v { PutNodeTight(d.ver, p, One(v)); }
      case Subtree(node) =>
        var was := At(Tree(d), p);
        var m := MergeReplace(was, node, val, v);
        if node.def < v {
          forall q: Path
            ensures Ev(node, q) != v
          {
            GateMeaning(d.ver, p, q);
          }
          MergeTight(was, node, val, v);
          MergeEv(was, node, val, v, []);
          SubAtRoot(m.ver);
          SubBounds(m.ver, [], []);
          PutNodeTight(d.ver, p, m.ver);
        }
    }
  }

  /** A write gated at its own path is a complete no-op. */
  lemma {:induction false} PutGated(d: Doc, p: Path, val: Option<Value>, v: Version)
    requires Valid(d) && p != [] && v > 0
    requires Ev(d.ver, p) >= v
    ensures Put(d, p, val, v) == d
  {
    assert p + [] == p;
    GateMeaning(d.ver, p, []);
  }

  /** What a path holds after a gated write, from what it held, the effective
      versions around it, and whether the merge drops the written value there. */
  function KindAfter(was: Kind, atQ: Version, belowQ: Version, belowP: Version, dropped: bool,
                     p: Path, q: Path, val: Option<Value>, v: Version): Kind
  {
    if p <= q then
      if atQ >= v then was
      else if belowQ >= v then Branch
      else if dropped then Nothing
      else KindAt(val, q[|p|..])
    else if q < p && (val.Some? || belowP >= v) then Branch
    else was
  }

  lemma {:induction false} PutKindSingle(d: Doc, p: Path, val: Option<Value>, v: Version, q: Path)
    requires Valid(d) && Nameable(p) && q != [] && v > 0
    requires Ev(d.ver, p) < v && Gate(d.ver, p).Single?
    ensures KindAt(Tree(Put(d, p, val, v)), q) ==
            KindAfter(KindAt(Tree(d), q), Ev(d.ver, q), Sub(d.ver, q), Sub(d.ver, p), Dropped(d.ver, q), p, q, val, v)
  {
    var r := if p <= q then q[|p|..] else [];
    assert p <= q ==> q == p + r;
    assert p + [] == p;
    GateMeaning(d.ver, p, r);
    GateMeaning(d.ver, p, []);
    GateDropped(d.ver, p, r);
    PlaceKind(d.fields, p, val, q);
  }

  /** What the merge leaves at and below the path written. */
  lemma {:induction false} MergedKind(d: Doc, p: Path, val: Option<Value>, v: Version, r: Path)
    requires Valid(d) && Nameable(p) && v > 0 && Gate(d.ver, p).Subtree?
    ensures var q, m := p + r, MergeReplace(At(Tree(d), p), Gate(d.ver, p).node, val, v);
            KindAt(m.val, r) ==
            if Ev(d.ver, q) >= v then KindAt(Tree(d), q)
            else if Sub(d.ver, q) >= v then Branch
            else if Dropped(d.ver, q) then Nothing
            else KindAt(val, r)
  {
    GateMeaning(d.ver, p, r);
    GateLayered(d.ver, p);
    GateDropped(d.ver, p, r);
    AtAppend(Tree(d), p, r);
    MergeKind(At(Tree(d), p), Gate(d.ver, p).node, val, v, r);
  }

  lemma {:induction false} PutKindMerged(d: Doc, p: Path, val: Option<Value>, v: Version, q: Path)
    requires Valid(d) && Nameable(p) && q != [] && v > 0
    requires Ev(d.ver, p) < v && Gate(d.ver, p).Subtree?
    ensures KindAt(Tree(Put(d, p, val, v)), q) ==
            KindAfter(KindAt(Tree(d), q), Ev(d.ver, q), Sub(d.ver, q), Sub(d.ver, p), Dropped(d.ver, q), p, q, val, v)
  {
    var r := if p <= q then q[|p|..] else [];
    assert p <= q ==> q == p + r;
    assert p + [] == p;
    var m := MergeReplace(At(Tree(d), p), Gate(d.ver, p).node, val, v);
    GateMeaning(d.ver, p, []);
    MergedKind(d, p, val, v, r);
    MergedKind(d, p, val, v, []);
    GateDropped(d.ver, p, []);
    PlaceKind(d.fields, p, m.val, q);
  }

  /** What every path holds after a write that lands. */
  lemma {:induction false} PutKind(d: Doc, p: Path, val: Option<Value>, v: Version, q: Path)
    requires Valid(d) && Nameable(p) && q != [] && v > 0
    requires Ev(d.ver, p) < v
    ensures KindAt(Tree(Put(d, p, val, v)), q) ==
            KindAfter(KindAt(Tree(d), q), Ev(d.ver, q), Sub(d.ver, q), Sub(d.ver, p), Dropped(d.ver, q), p, q, val, v)
  {
    if Gate(d.ver, p).Single? {
      PutKindSingle(d, p, val, v, q);
    } else {
      PutKindMerged(d, p, val, v, q);
    }
  }

  lemma {:induction false} PlaceKind(fields: map<Key, Value>, p: Path, val: Option<Value>, q: Path)
    requires p != [] && q != []
    ensures KindAt(Some(Object(Place(fields, p, val))), q) ==
            if p <= q then KindAt(val, q[|p|..])
            else if q < p && val.Some? then Branch
            else KindAt(Some(Object(fields)), q)
  {
    match val {
      case Some(x) => SetNestedAt(fields, p, x, q);
      case None =>
        UnsetNestedAt(fields, p, q);
        if p <= q { AtNothing(q[|p|..]); }
    }
  }

  /** The merge drops nothing the value holds. */
  ghost predicate LandsWhole(n: Ver, p: Path, x: Value) {
    forall r: Path :: Dropped(n, p + r) ==> KindAt(Some(x), r) == Nothing
  }

  /** A write newer than everything around it is a plain overwrite exactly when
      the merge drops nothing its value holds. */
  lemma {:induction false} PutNewest(d: Doc, p: Path, x: Value, v: Version)
    requires Valid(d) && Nameable(p) && Sub(d.ver, p) < v
    ensures Put(d, p, Some(x), v).fields == SetNested(d.fields, p, x) <==> LandsWhole(d.ver, p, x)
  {
    var u := Put(d, p, Some(x), v).fields;
    var w := SetNested(d.fields, p, x);
    forall q: Path | q != []
      ensures KindAt(Some(Object(u)), q) == KindAt(Some(Object(w)), q) ||
              (p <= q && Dropped(d.ver, q) && KindAt(Some(Object(u)), q) == Nothing)
    {
      NewestKind(d, p, x, v, q);
    }
    if LandsWhole(d.ver, p, x) {
      forall q: Path
        ensures KindAt(Some(Object(u)), q) == KindAt(Some(Object(w)), q)
      {
        if q != [] {
          NewestKind(d, p, x, v, q);
          if p <= q { assert q == p + q[|p|..]; }
        }
      }
      SameKinds(Some(Object(u)), Some(Object(w)));
    } else {
      var r: Path :| Dropped(d.ver, p + r) && KindAt(Some(x), r) != Nothing;
      NewestKind(d, p, x, v, p + r);
      assert (p + r)[|p|..] == r;
    }
  }

  lemma {:induction false} NewestKind(d: Doc, p: Path, x: Value, v: Version, q: Path)
    requires Valid(d) && Nameable(p) && Sub(d.ver, p) < v && q != []
    ensures KindAt(Some(Object(SetNested(d.fields, p, x))), q) ==
            if p <= q then KindAt(Some(x), q[|p|..]) else if q < p then Branch else KindAt(Tree(d), q)
    ensures KindAt(Tree(Put(d, p, Some(x), v)), q) ==
            if p <= q && Dropped(d.ver, q) then Nothing else KindAt(Some(Object(SetNested(d.fields, p, x))), q)
  {
    SetNestedAt(d.fields, p, x, q);
    SubBounds(d.ver, p, p);
    PutKind(d, p, Some(x), v, q);
    if p <= q {
      SubBounds(d.ver, p, q);
      var r := SubAttained(d.ver, q);
      SubBounds(d.ver, p, r);
    }
  }

  /** The path takes increments at v: nothing at or below it is as new, and it
      holds nothing or a number. */
  ghost predicate Countable(d: Doc, p: Path, v: Version) {
    Sub(d.ver, p) < v && (At(Tree(d), p).None? || At(Tree(d), p).value.Number?)
  }

  /** The number at a path, 0 where there is nothing. */
  function Count(d: Doc, p: Path): int {
    var x := At(Tree(d), p);
    if x.Some? && x.value.Number? then x.value.number else 0
  }

  /** What an increment leaves at every path: the sum at its own, objects above
      it, everything else as it was; plain increments move no version, and one
      that is not taken changes nothing. */
  lemma {:induction false} IncrementMeans(d: Doc, p: Path, delta: int, v: Version, q: Path)
    requires Nameable(p) && q != []
    ensures Increment(d, p, delta, v).ver == d.ver
    ensures !Countable(d, p, v) ==> Increment(d, p, delta, v) == d
    ensures Countable(d, p, v) ==> At(Tree(Increment(d, p, delta, v)), p) == Some(Number(Count(d, p) + delta))
    ensures Incomparable(p, q) ==> At(Tree(Increment(d, p, delta, v)), q) == At(Tree(d), q)
    ensures Countable(d, p, v) && q < p ==> KindAt(Tree(Increment(d, p, delta, v)), q) == Branch
  {
    if Countable(d, p, v) {
      SetNestedAt(d.fields, p, Number(Count(d, p) + delta), p);
      SetNestedAt(d.fields, p, Number(Count(d, p) + delta), q);
    }
  }

  /** A versioned increment leaves the same fields and puts its version on the
      path. */
  lemma {:induction false} IncrementGatedMeans(d: Doc, p: Path, delta: int, v: Version, q: Path)
    requires Valid(d) && Nameable(p) && v > 0
    ensures IncrementGated(d, p, delta, v).fields == Increment(d, p, delta, v).fields
    ensures Ev(IncrementGated(d, p, delta, v).ver, q) == if Countable(d, p, v) && p <= q then v else Ev(d.ver, q)
  {
    if Countable(d, p, v) { PutNodeEv(d.ver, p, One(v), q); }
  }

  /** Some increments of one path, in order. */
  ghost function Incremented(d: Doc, p: Path, incs: seq<(int, Version)>): Doc
    requires p != []
  {
    if incs == [] then d
    else Increment(Incremented(d, p, incs[..|incs| - 1]), p, incs[|incs| - 1].0, incs[|incs| - 1].1)
  }

  ghost function Total(incs: seq<(int, Version)>, gate: Version): int {
    if incs == [] then 0
    else Total(incs[..|incs| - 1], gate) + if gate < incs[|incs| - 1].1 then incs[|incs| - 1].0 else 0
  }

  /** Plain increments add up in any order: what the path counts is what it
      counted and the deltas newer than its version. */
  lemma {:induction false} IncrementsAddUp(d: Doc, p: Path, incs: seq<(int, Version)>)
    requires Nameable(p) && (At(Tree(d), p).None? || At(Tree(d), p).value.Number?)
    ensures Incremented(d, p, incs).ver == d.ver
    ensures At(Tree(Incremented(d, p, incs)), p).None? || At(Tree(Incremented(d, p, incs)), p).value.Number?
    ensures Count(Incremented(d, p, incs), p) == Count(d, p) + Total(incs, Sub(d.ver, p))
    decreases |incs|
  {
    if incs != [] {
      var init, last := incs[..|incs| - 1], incs[|incs| - 1];
      IncrementsAddUp(d, p, init);
      IncrementMeans(Incremented(d, p, init), p, last.0, last.1, p);
    }
  }

  /** A versioned increment is a gated set of the sum. */
  lemma {:induction false} IncrementGatedIsASet(d: Doc, p: Path, delta: int, v: Version)
    requires Valid(d) && Nameable(p) && v > 0
    ensures IncrementGated(d, p, delta, v) ==
            match Counter(d, p, v)
            case None => d
            case Some(cur) => Put(d, p, Some(Number(cur + delta)), v)
  {
    if Counter(d, p, v).Some? {
      var x := Number(Counter(d, p, v).value + delta);
      forall r: Path | Dropped(d.ver, p + r)
        ensures KindAt(Some(x), r) == Nothing
      {
        NumberBelow(d.ver, p, r, x);
      }
      PutNewest(d, p, x, v);
      NewestIsSingle(d, p, Some(x), v);
    }
  }

  /** A number holds nothing a merge could drop. */
  lemma {:induction false} NumberBelow(n: Ver, p: Path, r: Path, x: Value)
    requires STAR !in p && Dropped(n, p + r) && x.Number?
    ensures KindAt(Some(x), r) == Nothing
  {
    GateDropped(n, p, r);
    AtNothing(r[1..]);
  }

  lemma {:induction false} NewestIsSingle(d: Doc, p: Path, val: Option<Value>, v: Version)
    requires Valid(d) && p != [] && Sub(d.ver, p) < v
    ensures Put(d, p, val, v).ver == PutNode(d.ver, p, One(v))
  {
    assert p + [] == p;
    GateMeaning(d.ver, p, []);
    GateLayered(d.ver, p);
    if Gate(d.ver, p).Subtree? {
      var node := Gate(d.ver, p).node;
      MergeCollapses(At(Tree(d), p), node, val, v);
      EvMonotone(node, [], []);
    }
  }

  /** `opTook` reads a write back as taken when its path's version is its own:
      exactly when nothing at or below the path was newer. A set that lands
      around a newer finer entry is therefore not reported. */
  lemma {:induction false} ReportedIff(d: Doc, p: Path, val: Option<Value>, v: Version)
    requires Valid(d) && p != [] && v > 0
    ensures Sub(Put(d, p, val, v).ver, p) == Max(Sub(d.ver, p), v)
    ensures Sub(Put(d, p, val, v).ver, p) == v <==> Sub(d.ver, p) <= v
    ensures Ev(d.ver, p) < v && Sub(Put(d, p, val, v).ver, p) != v <==> Ev(d.ver, p) < v < Sub(d.ver, p)
  {
    var u := Put(d, p, val, v).ver;
    PutEv(d, p, val, v, p);
    SubBounds(u, p, p);
    var x := SubAttained(u, p);
    PutEv(d, p, val, v, x);
    SubBounds(d.ver, p, x);
    var y := SubAttained(d.ver, p);
    PutEv(d, p, val, v, y);
    SubBounds(u, p, y);
  }

  /** Compaction is invisible: it changes no field and no version lookup. */
  lemma {:induction false} CompactInvisible(d: Doc)
    requires Valid(d)
    ensures Valid(d.(ver := Compact(d.ver)))
    ensures forall q :: Ev(Compact(d.ver), q) == Ev(d.ver, q)
    ensures forall q :: Sub(Compact(d.ver), q) == Sub(d.ver, q)
  {
    CompactLayered(d.ver);
    CompactNoStar(d.ver);
    forall q: Path
      ensures Ev(Compact(d.ver), q) == Ev(d.ver, q)
    {
      CompactEv(d.ver, q);
    }
    forall q: Path
      ensures Sub(Compact(d.ver), q) == Sub(d.ver, q)
    {
      SameEvSameSub(Compact(d.ver), d.ver, q);
    }
  }
}
