/** What the operations of an edit do to a record, path by path: what every path
    holds after them and at which version, and what a handler's refusals leave
    as it was. */
module OpEffects {
  import opened Basics
  import opened Values
  import opened Versions
  import opened Merge
  import opened Gated
  import opened Histories
  import opened Lifecycle
  import opened Deletion
  import opened LiveRecords

  // ------------------------------------------------------------- one gated write

  /** r is d after a write of val at p and version v, at p and everything below:
      what is as new stays, a position above something as new is an object, and
      the rest takes the value, but for what the merge drops. */
  ghost predicate Takes(d: Doc, r: Doc, p: Path, val: Option<Value>, v: Version) {
    forall s: Path :: TakesAt(d, r, p, val, v, s)
  }

  ghost predicate TakesAt(d: Doc, r: Doc, p: Path, val: Option<Value>, v: Version, s: Path) {
    && Ev(r.ver, p + s) == Max(Ev(d.ver, p + s), v)
    && KindAt(Tree(r), p + s) ==
       if Ev(d.ver, p + s) >= v then KindAt(Tree(d), p + s)
       else if Sub(d.ver, p + s) >= v then Branch
       else if Dropped(d.ver, p + s) then Nothing
       else KindAt(val, s)
  }

  /** a and b hold the same at p and below, at the same versions. */
  ghost predicate Same(a: Doc, b: Doc, p: Path) {
    forall s: Path :: KindAt(Tree(a), p + s) == KindAt(Tree(b), p + s) && Ev(a.ver, p + s) == Ev(b.ver, p + s)
  }

  /** And a merge drops the same there. */
  ghost predicate SameGround(a: Doc, b: Doc, p: Path) {
    Same(a, b, p) && forall s: Path :: Dropped(a.ver, p + s) <==> Dropped(b.ver, p + s)
  }

  lemma {:induction false} PutTakes(d: Doc, p: Path, val: Option<Value>, v: Version, s: Path)
    requires Valid(d) && Nameable(p) && v > 0
    ensures TakesAt(d, Put(d, p, val, v), p, val, v, s)
  {
    PutEv(d, p, val, v, p + s);
    EvMonotone(d.ver, p, p + s);
    if Ev(d.ver, p) >= v {
      PutGated(d, p, val, v);
    } else {
      PutKind(d, p, val, v, p + s);
      assert (p + s)[|p|..] == s;
    }
  }

  lemma SameSub(a: Doc, b: Doc, p: Path, s: Path)
    requires Same(a, b, p)
    ensures Sub(a.ver, p + s) == Sub(b.ver, p + s)
  {
    forall r | p + s <= r
      ensures Ev(a.ver, r) == Ev(b.ver, r)
    {
      assert r == p + r[|p|..];
    }
    SameEvSameSub(a.ver, b.ver, p + s);
  }

  /** Updating the version tree elsewhere changes nothing a merge drops here. */
  lemma {:induction false} DroppedElsewhere(n: Ver, p: Path, node: Ver, q: Path, s: Path)
    requires n.Split? && p != [] && Incomparable(p, q) && STAR !in q
    ensures Dropped(PutNode(n, p, node), q + s) <==> Dropped(n, q + s)
    decreases |p|
  {
    assert (q + s)[0] == q[0] && (q + s)[1..] == q[1..] + s;
    if q[0] == p[0] {
      assert p == [p[0]] + p[1..] && q == [q[0]] + q[1..];
      assert q[1..] != [] && p[1..] != [];
      DroppedElsewhere(Opened(n, p[0]), p[1..], node, q[1..], s);
      OpenedDrops(n, p[0], q[1..] + s);
    }
  }

  lemma OpenedDrops(n: Ver, k: Key, q: Path)
    requires n.Split? && k != STAR && q != [] && q[0] != STAR
    ensures Dropped(Opened(n, k), q) <==> Dropped(n, [k] + q)
  {
    assert ([k] + q)[1..] == q;
  }

  /** A write leaves a path that neither covers the other as it was. */
  lemma {:induction false} PutSame(d: Doc, p: Path, val: Option<Value>, v: Version, q: Path)
    requires Valid(d) && Nameable(p) && v > 0 && Incomparable(p, q) && STAR !in q
    ensures SameGround(Put(d, p, val, v), d, q)
  {
    if Ev(d.ver, p) >= v {
      PutGated(d, p, val, v);
    } else {
      forall s: Path
        ensures KindAt(Tree(Put(d, p, val, v)), q + s) == KindAt(Tree(d), q + s)
        ensures Ev(Put(d, p, val, v).ver, q + s) == Ev(d.ver, q + s)
        ensures Dropped(Put(d, p, val, v).ver, q + s) <==> Dropped(d.ver, q + s)
      {
        PutSameAt(d, p, val, v, q, s);
      }
    }
  }

  lemma {:induction false} PutSameAt(d: Doc, p: Path, val: Option<Value>, v: Version, q: Path, s: Path)
    requires Valid(d) && Nameable(p) && v > 0 && Incomparable(p, q) && STAR !in q && Ev(d.ver, p) < v
    ensures KindAt(Tree(Put(d, p, val, v)), q + s) == KindAt(Tree(d), q + s)
    ensures Ev(Put(d, p, val, v).ver, q + s) == Ev(d.ver, q + s)
    ensures Dropped(Put(d, p, val, v).ver, q + s) <==> Dropped(d.ver, q + s)
  {
    if p <= q + s { PrefixesOf(p, q, q + s); }
    assert q <= q + s;
    PutKind(d, p, val, v, q + s);
    PutEv(d, p, val, v, q + s);
    DroppedElsewhere(d.ver, p, One(v), q, s);
    if Gate(d.ver, p).Subtree? {
      DroppedElsewhere(d.ver, p, MergeReplace(At(Tree(d), p), Gate(d.ver, p).node, val, v).ver, q, s);
    }
  }

  // ------------------------------------------------------ many writes, one version

  /** Writes at one version to paths of which none covers another. */
  ghost predicate Apart(ws: seq<Write>, v: Version) {
    && ProperSeq(ws) && (forall w :: w in ws ==> w.ver == v)
    && (forall i, j :: 0 <= i < j < |ws| ==> Incomparable(ws[i].path, ws[j].path))
  }

  lemma {:induction false} PutAllValid(d: Doc, ws: seq<Write>)
    requires Valid(d) && ProperSeq(ws)
    ensures Valid(PutAll(d, ws))
    decreases |ws|
  {
    if ws != [] {
      var w := ws[|ws| - 1];
      assert w in ws;
      PutAllValid(d, ws[..|ws| - 1]);
      PutValid(PutAll(d, ws[..|ws| - 1]), w.path, w.val, w.ver);
    }
  }

  lemma {:induction false} PutAllSame(d: Doc, ws: seq<Write>, q: Path)
    requires Valid(d) && ProperSeq(ws) && STAR !in q && forall w :: w in ws ==> Incomparable(w.path, q)
    ensures Valid(PutAll(d, ws)) && SameGround(PutAll(d, ws), d, q)
    decreases |ws|
  {
    PutAllValid(d, ws);
    if ws != [] {
      var init, w := ws[..|ws| - 1], ws[|ws| - 1];
      assert w in ws && forall x :: x in init ==> x in ws;
      PutAllSame(d, init, q);
      PutSame(PutAll(d, init), w.path, w.val, w.ver, q);
    }
  }

  /** Each of the writes does at its path what it would do alone. */
  lemma {:induction false} PutAllTakes(d: Doc, ws: seq<Write>, v: Version, i: nat)
    requires Valid(d) && v > 0 && Apart(ws, v) && i < |ws|
    ensures Takes(d, PutAll(d, ws), ws[i].path, ws[i].val, v)
    decreases |ws|
  {
    var n := |ws| - 1;
    var init, w := ws[..n], ws[n];
    assert ws == init + [w] && w in ws && ws[i] in ws;
    ApartInit(ws, v);
    if i == n {
      LastTakes(d, init, w);
    } else {
      PutAllTakes(d, init, v, i);
      PutAllValid(d, init);
      var u := PutAll(d, init);
      PutSame(u, w.path, w.val, v, ws[i].path);
      TakesStays(d, u, PutAll(d, ws), ws[i].path, ws[i].val, v);
    }
  }

  lemma {:induction false} LastTakes(d: Doc, init: seq<Write>, w: Write)
    requires Valid(d) && ProperSeq(init + [w])
    requires forall x :: x in init ==> Incomparable(x.path, w.path)
    ensures (init + [w])[..|init|] == init
    ensures Takes(d, PutAll(d, init + [w]), w.path, w.val, w.ver)
  {
    assert (init + [w])[..|init|] == init && w in init + [w];
    assert forall x :: x in init ==> x in init + [w];
    PutAllSame(d, init, w.path);
    var u := PutAll(d, init);
    forall s: Path
      ensures TakesAt(d, Put(u, w.path, w.val, w.ver), w.path, w.val, w.ver, s)
    {
      PutTakes(u, w.path, w.val, w.ver, s);
      SameSub(u, d, w.path, s);
    }
  }

  lemma TakesStays(d: Doc, u: Doc, r: Doc, p: Path, val: Option<Value>, v: Version)
    requires Takes(d, u, p, val, v) && Same(r, u, p)
    ensures Takes(d, r, p, val, v)
  {
    forall s: Path
      ensures TakesAt(d, r, p, val, v, s)
    {
      assert TakesAt(d, u, p, val, v, s);
    }
  }

  /** What a proper prefix of written paths holds: an object once a value has
      landed below it, or something newer has outlived an unset; else what it
      held. */
  ghost predicate Lifts(d: Doc, ws: seq<Write>, q: Path) {
    exists w :: w in ws && LiftsBy(d, w, q)
  }

  ghost predicate LiftsBy(d: Doc, w: Write, q: Path) {
    q < w.path && Ev(d.ver, w.path) < w.ver && (w.val.Some? || Sub(d.ver, w.path) >= w.ver)
  }

  lemma LiftsLast(d: Doc, init: seq<Write>, w: Write, q: Path)
    ensures Lifts(d, init + [w], q) <==> Lifts(d, init, q) || LiftsBy(d, w, q)
  {
    assert forall x :: x in init + [w] <==> x in init || x == w;
  }

  lemma {:induction false} PutAllAbove(d: Doc, ws: seq<Write>, v: Version, q: Path)
    requires Valid(d) && v > 0 && Apart(ws, v) && q != [] && forall w :: w in ws ==> !(w.path <= q)
    ensures Ev(PutAll(d, ws).ver, q) == Ev(d.ver, q)
    ensures KindAt(Tree(PutAll(d, ws)), q) == if Lifts(d, ws, q) then Branch else KindAt(Tree(d), q)
    decreases |ws|
  {
    if ws != [] {
      var init, w := ws[..|ws| - 1], ws[|ws| - 1];
      assert ws == init + [w] && w in ws;
      ApartInit(ws, v);
      PutAllAbove(d, init, v, q);
      LiftsLast(d, init, w, q);
      LiftsStays(d, init, w, q);
      AboveLast(PutAll(d, init), w, q);
    }
  }

  lemma ApartInit(ws: seq<Write>, v: Version)
    requires Apart(ws, v) && ws != []
    ensures Apart(ws[..|ws| - 1], v)
    ensures forall x :: x in ws[..|ws| - 1] ==> x in ws && Incomparable(x.path, ws[|ws| - 1].path)
  {
    var init := ws[..|ws| - 1];
    forall x | x in init
      ensures x in ws && Incomparable(x.path, ws[|ws| - 1].path)
    {
      var k :| 0 <= k < |init| && init[k] == x;
      assert ws[k] == x;
    }
  }

  lemma LiftsStays(d: Doc, init: seq<Write>, w: Write, q: Path)
    requires Valid(d) && ProperSeq(init) && Nameable(w.path) && forall x :: x in init ==> Incomparable(x.path, w.path)
    ensures Valid(PutAll(d, init)) && (LiftsBy(PutAll(d, init), w, q) <==> LiftsBy(d, w, q))
  {
    PutAllSame(d, init, w.path);
    SameSub(PutAll(d, init), d, w.path, []);
    assert w.path + [] == w.path;
    assert Ev(PutAll(d, init).ver, w.path + []) == Ev(d.ver, w.path + []);
  }

  lemma {:induction false} AboveLast(d: Doc, w: Write, q: Path)
    requires Valid(d) && Nameable(w.path) && w.ver > 0 && q != [] && !(w.path <= q)
    ensures Ev(Put(d, w.path, w.val, w.ver).ver, q) == Ev(d.ver, q)
    ensures KindAt(Tree(Put(d, w.path, w.val, w.ver)), q) ==
            if LiftsBy(d, w, q) then Branch else KindAt(Tree(d), q)
  {
    PutEv(d, w.path, w.val, w.ver, q);
    if Ev(d.ver, w.path) >= w.ver {
      PutGated(d, w.path, w.val, w.ver);
    } else {
      PutKind(d, w.path, w.val, w.ver, q);
    }
  }

  // ------------------------------------------------------------------- operations

  /** The paths an op names. */
  predicate Targets(op: Op, p: Path) {
    match op
    case Set(t, _) => p == t
    case SetMany(es) => exists e :: e in es && e.0 == p
    case Unset(t) => p == t
    case UnsetMany(ts) => p in ts
    case Inc(t, _) => p == t
    case IncGated(t, _) => p == t
    case Delete => false
  }

  /** The keys of one payload do not overlap. */
  ghost predicate Disjoint(op: Op) {
    && (op.SetMany? ==> forall i, j :: 0 <= i < j < |op.entries| ==> Incomparable(op.entries[i].0, op.entries[j].0))
    && (op.UnsetMany? ==> forall i, j :: 0 <= i < j < |op.paths| ==> Incomparable(op.paths[i], op.paths[j]))
  }

  /** What a write newer than everything at and below its path leaves: nothing
      there after an unset; after a set its value, exactly when the merge drops
      nothing the value holds. */
  ghost predicate Lands(d: Doc, r: Doc, p: Path, val: Option<Value>, v: Version) {
    && (forall s: Path :: Ev(r.ver, p + s) == v)
    && (val.None? ==> At(Tree(r), p) == None)
    && (val.Some? ==> (At(Tree(r), p) == val <==> LandsWhole(d.ver, p, val.value)))
  }

  lemma {:induction false} NewestLands(d: Doc, r: Doc, p: Path, val: Option<Value>, v: Version)
    requires Takes(d, r, p, val, v) && Sub(d.ver, p) < v
    ensures Lands(d, r, p, val, v)
  {
    forall s: Path
      ensures Ev(r.ver, p + s) == v
      ensures KindAt(At(Tree(r), p), s) == if Dropped(d.ver, p + s) then Nothing else KindAt(val, s)
    {
      assert TakesAt(d, r, p, val, v, s);
      SubBounds(d.ver, p, p + s);
      var x := SubAttained(d.ver, p + s);
      SubBounds(d.ver, p, x);
      AtAppend(Tree(r), p, s);
    }
    if val.None? {
      AtNothing([]);
      assert KindAt(At(Tree(r), p), []) == Nothing;
    } else if LandsWhole(d.ver, p, val.value) {
      SameKinds(At(Tree(r), p), val);
    } else {
      var s: Path :| Dropped(d.ver, p + s) && KindAt(val, s) != Nothing;
      assert KindAt(At(Tree(r), p), s) == Nothing;
    }
  }

  /** What a write of val at p leaves, whatever lay there. */
  ghost predicate Written(d: Doc, r: Doc, p: Path, val: Option<Value>, v: Version) {
    Takes(d, r, p, val, v) && (Sub(d.ver, p) < v ==> Lands(d, r, p, val, v))
  }

  lemma {:induction false} OneWrite(d: Doc, p: Path, val: Option<Value>, v: Version)
    requires Valid(d) && Nameable(p) && v > 0
    ensures ProperSeq([Write(p, val, v)]) && Written(d, PutAll(d, [Write(p, val, v)]), p, val, v)
  {
    PutAllTakes(d, [Write(p, val, v)], v, 0);
    if Sub(d.ver, p) < v { NewestLands(d, PutAll(d, [Write(p, val, v)]), p, val, v); }
  }

  /** `$set` of one path. */
  lemma SetWrites(d: Doc, p: Path, x: Value, v: Version)
    requires Valid(d) && Nameable(p) && v > 0
    ensures Written(d, ApplyOp(d, Set(p, x), v), p, Some(x), v)
  {
    OneWrite(d, p, Some(x), v);
  }

  /** `$unset` of one path. */
  lemma UnsetWrites(d: Doc, p: Path, v: Version)
    requires Valid(d) && Nameable(p) && v > 0
    ensures Written(d, ApplyOp(d, Unset(p), v), p, None, v)
  {
    OneWrite(d, p, None, v);
  }

  /** Every entry of a multi-field `$set`, as if it were alone. */
  lemma SetManyWrites(d: Doc, es: seq<(Path, Value)>, v: Version, i: nat)
    requires Valid(d) && Named(SetMany(es)) && Disjoint(SetMany(es)) && v > 0 && i < |es|
    ensures Written(d, ApplyOp(d, SetMany(es), v), es[i].0, Some(es[i].1), v)
  {
    var ws := WritesOf(SetMany(es), v);
    assert ws[i] == Write(es[i].0, Some(es[i].1), v);
    PutAllTakes(d, ws, v, i);
    if Sub(d.ver, es[i].0) < v { NewestLands(d, PutAll(d, ws), es[i].0, Some(es[i].1), v); }
  }

  /** Every entry of a multi-field `$unset`. */
  lemma UnsetManyWrites(d: Doc, ps: seq<Path>, v: Version, i: nat)
    requires Valid(d) && Named(UnsetMany(ps)) && Disjoint(UnsetMany(ps)) && v > 0 && i < |ps|
    ensures Written(d, ApplyOp(d, UnsetMany(ps), v), ps[i], None, v)
  {
    var ws := WritesOf(UnsetMany(ps), v);
    assert ws[i] == Write(ps[i], None, v);
    PutAllTakes(d, ws, v, i);
    if Sub(d.ver, ps[i]) < v { NewestLands(d, PutAll(d, ws), ps[i], None, v); }
  }

  lemma WritesTarget(op: Op, v: Version, p: Path)
    requires PlainOp(op)
    ensures Targets(op, p) <==> exists w :: w in WritesOf(op, v) && w.path == p
    ensures forall w :: w in WritesOf(op, v) ==> w.ver == v && (w.val.Some? <==> op.Set? || op.SetMany?)
  {
    match op {
      case Set(t, x) => assert Write(t, Some(x), v) in WritesOf(op, v);
      case Unset(t) => assert Write(t, None, v) in WritesOf(op, v);
      case SetMany(es) =>
        if Targets(op, p) {
          var i :| 0 <= i < |es| && es[i].0 == p;
          assert WritesOf(op, v)[i].path == p;
        }
      case UnsetMany(ps) =>
        if Targets(op, p) {
          var i :| 0 <= i < |ps| && ps[i] == p;
          assert WritesOf(op, v)[i].path == p;
        }
    }
  }

  lemma WritesApart(op: Op, v: Version)
    requires PlainOp(op) && Named(op) && Disjoint(op) && v > 0
    ensures Apart(WritesOf(op, v), v)
  {}

  ghost predicate Covers(op: Op, q: Path) {
    exists p :: Targets(op, p) && p <= q
  }

  /** An op turns a proper prefix of a path it names into an object: a set that
      is not gated, or an unset that something newer outlives. */
  ghost predicate Lifted(d: Doc, op: Op, q: Path, v: Version) {
    exists p :: Targets(op, p) && q < p && Ev(d.ver, p) < v && (op.Set? || op.SetMany? || Sub(d.ver, p) >= v)
  }

  /** Paths an op neither names nor covers. */
  lemma {:induction false} OtherPaths(d: Doc, op: Op, v: Version, q: Path)
    requires Valid(d) && PlainOp(op) && Named(op) && Disjoint(op) && v > 0 && q != [] && !Covers(op, q)
    ensures Ev(ApplyOp(d, op, v).ver, q) == Ev(d.ver, q)
    ensures KindAt(Tree(ApplyOp(d, op, v)), q) == if Lifted(d, op, q, v) then Branch else KindAt(Tree(d), q)
  {
    var ws := WritesOf(op, v);
    WritesApart(op, v);
    forall p: Path
      ensures Targets(op, p) <==> exists w :: w in ws && w.path == p
    {
      WritesTarget(op, v, p);
    }
    WritesTarget(op, v, q);
    forall w | w in ws
      ensures !(w.path <= q)
    {
      assert Targets(op, w.path);
    }
    PutAllAbove(d, ws, v, q);
    if Lifts(d, ws, q) {
      var w :| w in ws && LiftsBy(d, w, q);
      assert Targets(op, w.path);
    }
    if Lifted(d, op, q, v) {
      var p :| Targets(op, p) && q < p && Ev(d.ver, p) < v && (op.Set? || op.SetMany? || Sub(d.ver, p) >= v);
      var w :| w in ws && w.path == p;
    }
  }

  /** `$inc`, plain and versioned: the path counts on from what it counted, and
      only the versioned form records its version. One that is not taken changes
      nothing. */
  lemma {:induction false} IncWrites(d: Doc, p: Path, delta: int, v: Version, q: Path)
    requires Valid(d) && Nameable(p) && v > 0
    ensures Countable(d, p, v) ==>
              && At(Tree(ApplyOp(d, Inc(p, delta), v)), p) == Some(Number(Count(d, p) + delta))
              && At(Tree(ApplyOp(d, IncGated(p, delta), v)), p) == Some(Number(Count(d, p) + delta))
    ensures !Countable(d, p, v) ==> ApplyOp(d, Inc(p, delta), v) == d == ApplyOp(d, IncGated(p, delta), v)
    ensures Ev(ApplyOp(d, Inc(p, delta), v).ver, q) == Ev(d.ver, q)
    ensures Ev(ApplyOp(d, IncGated(p, delta), v).ver, q) ==
            if Countable(d, p, v) && p <= q then v else Ev(d.ver, q)
  {
    IncrementMeans(d, p, delta, v, p);
    IncrementGatedMeans(d, p, delta, v, q);
  }

  // ---------------------------------------------------------- the ops of an edit

  lemma {:induction false} PutAllEv(d: Doc, ws: seq<Write>, v: Version, q: Path)
    requires Valid(d) && v > 0 && ProperSeq(ws) && forall w :: w in ws ==> w.ver == v
    ensures Ev(PutAll(d, ws).ver, q) ==
            if exists w :: w in ws && w.path <= q then Max(Ev(d.ver, q), v) else Ev(d.ver, q)
    decreases |ws|
  {
    if ws != [] {
      var init, w := ws[..|ws| - 1], ws[|ws| - 1];
      assert ws == init + [w] && w in ws && forall x :: x in ws <==> x in init || x == w;
      PutAllValid(d, init);
      PutAllEv(d, init, v, q);
      PutEv(PutAll(d, init), w.path, w.val, v, q);
    }
  }

  lemma {:induction false} OpVersions(d: Doc, op: Op, v: Version, q: Path)
    requires Valid(d) && PlainOp(op) && Named(op) && v > 0
    ensures Valid(ApplyOp(d, op, v))
    ensures Ev(ApplyOp(d, op, v).ver, q) == if Covers(op, q) then Max(Ev(d.ver, q), v) else Ev(d.ver, q)
  {
    var ws := WritesOf(op, v);
    WritesTarget(op, v, q);
    PutAllValid(d, ws);
    PutAllEv(d, ws, v, q);
    if Covers(op, q) {
      var p :| Targets(op, p) && p <= q;
      WritesTarget(op, v, p);
    }
    if w :| w in ws && w.path <= q { WritesTarget(op, v, w.path); }
  }

  ghost predicate SomeCovers(ops: seq<Op>, q: Path) {
    exists op :: op in ops && Covers(op, q)
  }

  lemma SomeCoversLast(init: seq<Op>, op: Op, q: Path)
    ensures SomeCovers(init + [op], q) <==> SomeCovers(init, q) || Covers(op, q)
  {
    assert forall o :: o in init + [op] <==> o in init || o == op;
  }

  /** After the ops of an edit a path is at the edit's version, or a newer one,
      exactly when one of them covers it; otherwise it stays where it was. */
  lemma {:induction false} EditVersions(d: Doc, ops: seq<Op>, v: Version, q: Path)
    requires Valid(d) && Plain(ops) && NamedAll(ops) && v > 0
    ensures Valid(ApplyOps(d, ops, v))
    ensures Ev(ApplyOps(d, ops, v).ver, q) == if SomeCovers(ops, q) then Max(Ev(d.ver, q), v) else Ev(d.ver, q)
    decreases |ops|
  {
    if ops != [] {
      var init, op := ops[..|ops| - 1], ops[|ops| - 1];
      assert ops == init + [op] && op in ops && forall o :: o in init ==> o in ops;
      EditVersions(d, init, v, q);
      OpVersions(ApplyOps(d, init, v), op, v, q);
      SomeCoversLast(init, op, q);
    }
  }

  /** Of two ops of one edit the first stands: a later one on a path it covers
      changes nothing. */
  lemma {:induction false} FirstOpStands(d: Doc, ops: seq<Op>, op: Op, v: Version)
    requires Valid(d) && Plain(ops) && NamedAll(ops + [op]) && v > 0
    requires (op.Set? || op.Unset?) && SomeCovers(ops, op.path)
    ensures NamedAll(ops) && ApplyOps(d, ops + [op], v) == ApplyOps(d, ops, v)
  {
    assert forall o :: o in ops + [op] <==> o in ops || o == op;
    assert (ops + [op])[..|ops|] == ops;
    EditVersions(d, ops, v, op.path);
    var u := ApplyOps(d, ops, v);
    if op.Set? { PutGated(u, op.path, Some(op.value), v); } else { PutGated(u, op.path, None, v); }
    LastWrite(u, op, v);
  }

  lemma LastWrite(u: Doc, op: Op, v: Version)
    requires u.ver.Split? && Named(op) && v > 0 && (op.Set? || op.Unset?)
    ensures ApplyOp(u, op, v) == Put(u, op.path, if op.Set? then Some(op.value) else None, v)
  {
    var ws := WritesOf(op, v);
    assert ws[..0] == [];
    assert PutAll(u, ws[..0]) == u;
  }

  // ------------------------------------------------------------------- refusals

  /** The handler lets an op write a path it names: the op as a whole, or, where
      it refused a multi-field op, the key by itself. */
  ghost predicate Admits(h: Handler, op: Op, p: Path) {
    || (h.onModify(op) && Targets(op, p))
    || (op.SetMany? && exists e :: e in op.entries && e.0 == p && h.onModify(Set(e.0, e.1)))
    || (op.UnsetMany? && p in op.paths && h.onModify(Unset(p)))
  }

  ghost predicate SomeAdmits(h: Handler, ops: seq<Op>, p: Path) {
    exists op :: op in ops && Admits(h, op, p)
  }

  ghost predicate Passes(h: Handler, op: Op) {
    h.onModify(op) || exists p :: Admits(h, op, p)
  }

  ghost predicate SomePasses(h: Handler, ops: seq<Op>) {
    exists op :: op in ops && Passes(h, op)
  }

  ghost predicate SomeTargets(ops: seq<Op>, p: Path) {
    exists op :: op in ops && Targets(op, p)
  }

  lemma OneTargets(op: Op, p: Path)
    ensures SomeTargets([op], p) <==> Targets(op, p)
  {
    assert op in [op];
  }

  lemma AdmittedSets(h: Handler, op: Op, p: Path)
    requires op.SetMany? && !h.onModify(op)
    ensures SomeTargets(Admitted(h, op), p) <==> Admits(h, op, p)
    ensures Admitted(h, op) != [] <==> Passes(h, op)
  {
    var kept := Filter(op.entries, (e: (Path, Value)) => h.onModify(Set(e.0, e.1)));
    OneTargets(SetMany(kept), p);
    if kept != [] {
      var e := kept[0];
      assert e in kept;
      assert Admits(h, op, e.0);
    }
  }

  lemma AdmittedUnsets(h: Handler, op: Op, p: Path)
    requires op.UnsetMany? && !h.onModify(op)
    ensures SomeTargets(Admitted(h, op), p) <==> Admits(h, op, p)
    ensures Admitted(h, op) != [] <==> Passes(h, op)
  {
    var kept := Filter(op.paths, p => h.onModify(Unset(p)));
    OneTargets(UnsetMany(kept), p);
    if kept != [] {
      assert kept[0] in kept;
      assert Admits(h, op, kept[0]);
    }
  }

  lemma AdmittedTargets(h: Handler, op: Op, p: Path)
    ensures SomeTargets(Admitted(h, op), p) <==> Admits(h, op, p)
    ensures Admitted(h, op) != [] <==> Passes(h, op)
    ensures PlainOp(op) ==> Plain(Admitted(h, op))
  {
    if h.onModify(op) {
      OneTargets(op, p);
    } else if op.SetMany? {
      AdmittedSets(h, op, p);
    } else if op.UnsetMany? {
      AdmittedUnsets(h, op, p);
    }
  }

  lemma {:induction false} AllTargets(h: Handler, ops: seq<Op>, p: Path)
    ensures SomeTargets(AdmittedAll(h, ops), p) <==> SomeAdmits(h, ops, p)
    ensures AdmittedAll(h, ops) != [] <==> SomePasses(h, ops)
    ensures Plain(ops) ==> Plain(AdmittedAll(h, ops))
    decreases |ops|
  {
    if ops != [] {
      var init, op := ops[..|ops| - 1], ops[|ops| - 1];
      assert forall o :: o in ops <==> o in init || o == op;
      AllTargets(h, init, p);
      AdmittedTargets(h, op, p);
      JoinTargets(AdmittedAll(h, init), Admitted(h, op), p);
    }
  }

  lemma JoinTargets(a: seq<Op>, b: seq<Op>, p: Path)
    ensures SomeTargets(a + b, p) <==> SomeTargets(a, p) || SomeTargets(b, p)
    ensures Plain(a + b) <==> Plain(a) && Plain(b)
  {
    assert forall o :: o in a + b <==> o in a || o in b;
  }

  /** The handler lets the edit cover q. */
  ghost predicate Lets(h: Handler, ops: seq<Op>, q: Path) {
    exists p :: p <= q && SomeAdmits(h, ops, p)
  }

  lemma AdmittedCover(h: Handler, ops: seq<Op>, q: Path)
    ensures SomeCovers(AdmittedAll(h, ops), q) <==> Lets(h, ops, q)
  {
    if op :| op in AdmittedAll(h, ops) && Covers(op, q) {
      var p :| Targets(op, p) && p <= q;
      AllTargets(h, ops, p);
    }
    if p :| p <= q && SomeAdmits(h, ops, p) {
      AllTargets(h, ops, p);
      var op :| op in AdmittedAll(h, ops) && Targets(op, p);
      assert Covers(op, q);
    }
  }

  /** An edit of a live record, for any handler: a path is at the edit's
      version, or a newer one, exactly when the handler let an op or a key cover
      it; and the edit counts as having written exactly when the handler let
      anything through. */
  lemma {:induction false} LiveEditVersions(h: Handler, row: Row, e: Edit, q: Path)
    requires Sound(e) && Plain(e.ops) && row.Live? && Valid(row.doc)
    ensures var o := Modify(h, row, e);
            && o.row.Live? && Valid(o.row.doc) && o.rejection == None
            && (o.wrote <==> SomePasses(h, e.ops))
            && Ev(o.row.doc.ver, q) ==
               if Lets(h, e.ops, q) then Max(Ev(row.doc.ver, q), e.ver) else Ev(row.doc.ver, q)
  {
    var admitted := AdmittedAll(h, e.ops);
    AllTargets(h, e.ops, q);
    AdmittedCover(h, e.ops, q);
    EditVersions(row.doc, admitted, e.ver, q);
    CompactInvisible(ApplyOps(row.doc, admitted, e.ver));
    assert forall op :: op in e.ops ==> !op.Delete?;
  }

  // ------------------------------------------------------- what is left alone

  lemma {:induction false} CounterSame(d: Doc, op: Op, v: Version, q: Path)
    requires Valid(d) && Named(op) && (op.Inc? || op.IncGated?) && v > 0 && Incomparable(op.path, q) && STAR !in q
    ensures Valid(ApplyOp(d, op, v)) && SameGround(ApplyOp(d, op, v), d, q)
  {
    var cur := Counter(d, op.path, v);
    if op.IncGated? {
      IncrementGatedIsASet(d, op.path, op.delta, v);
      if cur.Some? {
        PutValid(d, op.path, Some(Number(cur.value + op.delta)), v);
        PutSame(d, op.path, Some(Number(cur.value + op.delta)), v, q);
      }
    } else if cur.Some? {
      forall s: Path
        ensures KindAt(Tree(ApplyOp(d, op, v)), q + s) == KindAt(Tree(d), q + s)
      {
        if op.path <= q + s { PrefixesOf(op.path, q, q + s); }
        assert q <= q + s;
        SetNestedAt(d.fields, op.path, Number(cur.value + op.delta), q + s);
      }
    }
  }

  /** An op leaves alone what lies apart from every path it names. */
  lemma {:induction false} OpSame(d: Doc, op: Op, v: Version, q: Path)
    requires Valid(d) && Named(op) && v > 0 && STAR !in q && forall p :: Targets(op, p) ==> Incomparable(p, q)
    ensures Valid(ApplyOp(d, op, v)) && SameGround(ApplyOp(d, op, v), d, q)
  {
    if op.Inc? || op.IncGated? {
      assert Targets(op, op.path);
      CounterSame(d, op, v, q);
    } else {
      var ws := WritesOf(op, v);
      forall w | w in ws
        ensures Incomparable(w.path, q)
      {
        WritesTarget(op, v, w.path);
      }
      PutAllSame(d, ws, q);
    }
  }

  lemma {:induction false} OpsSame(d: Doc, ops: seq<Op>, v: Version, q: Path)
    requires Valid(d) && NamedAll(ops) && v > 0 && STAR !in q
    requires forall p :: SomeTargets(ops, p) ==> Incomparable(p, q)
    ensures Valid(ApplyOps(d, ops, v)) && SameGround(ApplyOps(d, ops, v), d, q)
    decreases |ops|
  {
    if ops != [] {
      var init, op := ops[..|ops| - 1], ops[|ops| - 1];
      assert op in ops && forall o :: o in init ==> o in ops;
      assert forall p :: SomeTargets(init, p) || Targets(op, p) ==> SomeTargets(ops, p);
      OpsSame(d, init, v, q);
      OpSame(ApplyOps(d, init, v), op, v, q);
    }
  }

  lemma SameValue(a: Doc, b: Doc, q: Path)
    requires Same(a, b, q)
    ensures At(Tree(a), q) == At(Tree(b), q)
  {
    forall s: Path
      ensures KindAt(At(Tree(a), q), s) == KindAt(At(Tree(b), q), s)
    {
      AtAppend(Tree(a), q, s);
      AtAppend(Tree(b), q, s);
      assert KindAt(Tree(a), q + s) == KindAt(Tree(b), q + s);
    }
    SameKinds(At(Tree(a), q), At(Tree(b), q));
  }

  /** What the handler refused keeps its value and version, counters included:
      a path apart from everything it let through. */
  lemma {:induction false} RefusedPathKept(h: Handler, row: Row, e: Edit, q: Path)
    requires Sound(e) && !HasDelete(e.ops) && row.Live? && Valid(row.doc) && STAR !in q
    requires forall p :: SomeAdmits(h, e.ops, p) ==> Incomparable(p, q)
    ensures var r := Modify(h, row, e).row;
            && r.Live? && Same(r.doc, row.doc, q)
            && At(Tree(r.doc), q) == At(Tree(row.doc), q) && Sub(r.doc.ver, q) == Sub(row.doc.ver, q)
  {
    var admitted := AdmittedAll(h, e.ops);
    forall p | SomeTargets(admitted, p)
      ensures Incomparable(p, q)
    {
      AllTargets(h, e.ops, p);
    }
    OpsSame(row.doc, admitted, e.ver, q);
    CompactInvisible(ApplyOps(row.doc, admitted, e.ver));
    var r := Modify(h, row, e).row;
    assert Same(r.doc, row.doc, q);
    SameValue(r.doc, row.doc, q);
    SameSub(r.doc, row.doc, q, []);
    assert q + [] == q;
  }

  /** An edit refused in every op and every key leaves the record's fields and
      versions as they were and has not written. */
  lemma {:induction false} RefusedEditKeepsRecord(h: Handler, row: Row, e: Edit)
    requires Sound(e) && !HasDelete(e.ops) && row.Live? && Valid(row.doc) && !SomePasses(h, e.ops)
    ensures var o := Modify(h, row, e);
            && o.row.Live? && !o.wrote && o.row.doc.fields == row.doc.fields
            && (forall q :: Ev(o.row.doc.ver, q) == Ev(row.doc.ver, q))
            && (forall q :: Sub(o.row.doc.ver, q) == Sub(row.doc.ver, q))
  {
    AllTargets(h, e.ops, []);
    CompactInvisible(row.doc);
  }

  /** Which edits are rejected, and that a rejected one leaves the row as it
      was, but that a tombstone still takes the marker of an older upsert. */
  lemma RejectedRowStays(h: Handler, row: Row, e: Edit)
    requires Sound(e) && RowSound(row)
    ensures var o, delete := Modify(h, row, e), HasDelete(e.ops);
            && (o.rejection == Some(DeleteRefused) <==> delete && !row.Tomb? && !h.onDelete(e))
            && (o.rejection == Some(RecordDeleted) <==> !delete && row.Tomb?)
            && (o.rejection == Some(StrictSkipAbsent) <==> !delete && row.Absent? && !e.upsert)
            && (o.rejection == Some(CreateRefused) <==> !delete && row.Absent? && e.upsert && !h.onCreate(e))
            && (o.rejection.Some? && !(row.Tomb? && e.upsert && e.ver < row.marker) ==> o.row == row)
            && (o.rejection.Some? ==> o.row.Live? == row.Live? && o.row.Tomb? == row.Tomb?)
  {}

  /** An edit has written exactly when it created, deleted, or changed a live
      record by something the handler let through. */
  lemma WroteIff(h: Handler, row: Row, e: Edit)
    requires Sound(e) && RowSound(row)
    ensures Modify(h, row, e).wrote <==>
            if HasDelete(e.ops) then !row.Tomb? && h.onDelete(e)
            else if row.Live? then SomePasses(h, e.ops)
            else row.Absent? && e.upsert && h.onCreate(e)
    ensures Modify(h, row, e).wrote ==>
              Modify(h, row, e).rejection == None && !Modify(h, row, e).row.Absent? &&
              (Modify(h, row, e).row.Tomb? <==> HasDelete(e.ops))
  {
    AllTargets(h, e.ops, []);
  }

  // ---------------------------------------------------- one op, key by key

  lemma OnlyOp(h: Handler, op: Op)
    ensures AdmittedAll(h, [op]) == Admitted(h, op)
  {
    assert [op][..0] == [];
  }

  lemma ApplyOnly(d: Doc, op: Op, v: Version)
    requires d.ver.Split? && Named(op) && v > 0
    ensures NamedAll([op]) && ApplyOps(d, [op], v) == ApplyOp(d, op, v)
  {
    assert [op][..0] == [];
  }

  lemma {:induction false} FilterApart<T(!new)>(xs: seq<T>, keep: T -> bool, path: T -> Path)
    requires forall i, j :: 0 <= i < j < |xs| ==> Incomparable(path(xs[i]), path(xs[j]))
    ensures forall i, j :: 0 <= i < j < |Filter(xs, keep)| ==>
              Incomparable(path(Filter(xs, keep)[i]), path(Filter(xs, keep)[j]))
    decreases |xs|
  {
    if xs != [] {
      var init, last := xs[..|xs| - 1], xs[|xs| - 1];
      FilterApart(init, keep, path);
      var ys := Filter(init, keep);
      forall i | 0 <= i < |ys|
        ensures Incomparable(path(ys[i]), path(last))
      {
        assert ys[i] in init;
        var k :| 0 <= k < |init| && init[k] == ys[i];
        assert xs[k] == ys[i];
      }
    }
  }

  lemma TidiedWritten(d: Doc, r: Doc, p: Path, val: Option<Value>, v: Version)
    requires Written(d, r, p, val, v) && Valid(r)
    ensures Written(d, Tidied(r), p, val, v)
  {
    CompactInvisible(r);
    forall s: Path
      ensures TakesAt(d, Tidied(r), p, val, v, s)
    {
      assert TakesAt(d, r, p, val, v, s);
    }
  }

  /** A multi-field `$set` on a live record: every key the handler lets through,
      with the op or by itself, is written; every other keeps its value and
      version. */
  lemma {:induction false} SetKeys(h: Handler, row: Row, e: Edit, es: seq<(Path, Value)>, i: nat)
    requires Sound(e) && e.ops == [SetMany(es)] && Disjoint(SetMany(es)) && row.Live? && Valid(row.doc) && i < |es|
    ensures var r := Modify(h, row, e).row;
            && r.Live?
            && if h.onModify(SetMany(es)) || h.onModify(Set(es[i].0, es[i].1)) then
                 Written(row.doc, r.doc, es[i].0, Some(es[i].1), e.ver)
               else
                 Same(r.doc, row.doc, es[i].0) && At(Tree(r.doc), es[i].0) == At(Tree(row.doc), es[i].0)
  {
    var op := SetMany(es);
    assert op in e.ops && es[i] in es;
    OnlyOp(h, op);
    if h.onModify(op) {
      SetKeysAll(row.doc, es, e.ver, i);
    } else if h.onModify(Set(es[i].0, es[i].1)) {
      SetKeyKept(row.doc, h, es, e.ver, i);
    } else {
      SetKeyShed(h, es, i);
      RefusedPathKept(h, row, e, es[i].0);
    }
  }

  lemma {:induction false} SetKeyKept(d: Doc, h: Handler, es: seq<(Path, Value)>, v: Version, i: nat)
    requires Valid(d) && Named(SetMany(es)) && Disjoint(SetMany(es)) && v > 0 && i < |es|
    requires !h.onModify(SetMany(es)) && h.onModify(Set(es[i].0, es[i].1))
    ensures Written(d, Tidied(ApplyOps(d, Admitted(h, SetMany(es)), v)), es[i].0, Some(es[i].1), v)
  {
    var keep := (e: (Path, Value)) => h.onModify(Set(e.0, e.1));
    var kept := Filter(es, keep);
    assert es[i] in kept;
    FilterApart(es, keep, (e: (Path, Value)) => e.0);
    var k :| 0 <= k < |kept| && kept[k] == es[i];
    SetKeysAll(d, kept, v, k);
  }

  lemma SetKeyShed(h: Handler, es: seq<(Path, Value)>, i: nat)
    requires Disjoint(SetMany(es)) && i < |es| && !h.onModify(SetMany(es)) && !h.onModify(Set(es[i].0, es[i].1))
    ensures forall p :: SomeAdmits(h, [SetMany(es)], p) ==> Incomparable(p, es[i].0)
  {
    forall p | SomeAdmits(h, [SetMany(es)], p)
      ensures Incomparable(p, es[i].0)
    {
      var j :| 0 <= j < |es| && es[j].0 == p && h.onModify(Set(es[j].0, es[j].1));
    }
  }

  lemma {:induction false} SetKeysAll(d: Doc, es: seq<(Path, Value)>, v: Version, i: nat)
    requires Valid(d) && Named(SetMany(es)) && Disjoint(SetMany(es)) && v > 0 && i < |es|
    ensures NamedAll([SetMany(es)])
    ensures Written(d, Tidied(ApplyOps(d, [SetMany(es)], v)), es[i].0, Some(es[i].1), v)
  {
    ApplyOnly(d, SetMany(es), v);
    SetManyWrites(d, es, v, i);
    OpVersions(d, SetMany(es), v, []);
    TidiedWritten(d, ApplyOp(d, SetMany(es), v), es[i].0, Some(es[i].1), v);
  }

  /** And a multi-field `$unset`. */
  lemma {:induction false} UnsetKeys(h: Handler, row: Row, e: Edit, ps: seq<Path>, i: nat)
    requires Sound(e) && e.ops == [UnsetMany(ps)] && Disjoint(UnsetMany(ps)) && row.Live? && Valid(row.doc) && i < |ps|
    ensures var r := Modify(h, row, e).row;
            && r.Live?
            && if h.onModify(UnsetMany(ps)) || h.onModify(Unset(ps[i])) then
                 Written(row.doc, r.doc, ps[i], None, e.ver)
               else
                 Same(r.doc, row.doc, ps[i]) && At(Tree(r.doc), ps[i]) == At(Tree(row.doc), ps[i])
  {
    var op := UnsetMany(ps);
    assert op in e.ops && ps[i] in ps;
    OnlyOp(h, op);
    if h.onModify(op) {
      UnsetKeysAll(row.doc, ps, e.ver, i);
    } else if h.onModify(Unset(ps[i])) {
      UnsetKeyKept(row.doc, h, ps, e.ver, i);
    } else {
      UnsetKeyShed(h, ps, i);
      RefusedPathKept(h, row, e, ps[i]);
    }
  }

  lemma {:induction false} UnsetKeyKept(d: Doc, h: Handler, ps: seq<Path>, v: Version, i: nat)
    requires Valid(d) && Named(UnsetMany(ps)) && Disjoint(UnsetMany(ps)) && v > 0 && i < |ps|
    requires !h.onModify(UnsetMany(ps)) && h.onModify(Unset(ps[i]))
    ensures Written(d, Tidied(ApplyOps(d, Admitted(h, UnsetMany(ps)), v)), ps[i], None, v)
  {
    var keep := (p: Path) => h.onModify(Unset(p));
    var kept := Filter(ps, keep);
    assert ps[i] in kept;
    FilterApart(ps, keep, (p: Path) => p);
    var k :| 0 <= k < |kept| && kept[k] == ps[i];
    UnsetKeysAll(d, kept, v, k);
  }

  lemma UnsetKeyShed(h: Handler, ps: seq<Path>, i: nat)
    requires Disjoint(UnsetMany(ps)) && i < |ps| && !h.onModify(UnsetMany(ps)) && !h.onModify(Unset(ps[i]))
    ensures forall p :: SomeAdmits(h, [UnsetMany(ps)], p) ==> Incomparable(p, ps[i])
  {
    forall p | SomeAdmits(h, [UnsetMany(ps)], p)
      ensures Incomparable(p, ps[i])
    {
      var j :| 0 <= j < |ps| && ps[j] == p && h.onModify(Unset(ps[j]));
    }
  }

  lemma {:induction false} UnsetKeysAll(d: Doc, ps: seq<Path>, v: Version, i: nat)
    requires Valid(d) && Named(UnsetMany(ps)) && Disjoint(UnsetMany(ps)) && v > 0 && i < |ps|
    ensures NamedAll([UnsetMany(ps)])
    ensures Written(d, Tidied(ApplyOps(d, [UnsetMany(ps)], v)), ps[i], None, v)
  {
    ApplyOnly(d, UnsetMany(ps), v);
    UnsetManyWrites(d, ps, v, i);
    OpVersions(d, UnsetMany(ps), v, []);
    TidiedWritten(d, ApplyOp(d, UnsetMany(ps), v), ps[i], None, v);
  }
}
