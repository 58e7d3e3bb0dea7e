/** Convergence of gated writes: what every delivery order agrees on, and
    exactly when all of them agree on the whole value tree. */
module Convergence {
  import opened Basics
  import opened Values
  import opened Versions
  import opened Gated
  import opened Histories

  // --------------------------------------------------------- effective versions

  /** Orders, repeats and compactions do not matter to any version lookup. */
  lemma VersionsConverge(a: seq<Event>, b: seq<Event>, q: Path)
    requires Proper(a) && Proper(b) && Writes(a) == Writes(b)
    ensures Ev(Run(a).ver, q) == Ev(Run(b).ver, q) == Cover(Writes(a), q)
    ensures Sub(Run(a).ver, q) == Sub(Run(b).ver, q)
  {
    RunTracks(a);
    RunTracks(b);
    SameEvSameSub(Run(a).ver, Run(b).ver, q);
  }

  /** A write delivered again, at any later point, changes nothing. */
  lemma RepeatIsNoOp(es: seq<Event>, w: Write)
    requires Proper(es) && w in Writes(es)
    ensures Nameable(w.path) && w.ver > 0 && Step(Run(es), Apply(w)) == Run(es)
  {
    assert Apply(w) in es;
    RunTracks(es);
    CoverFacts(Writes(es), w.path);
    CoveredWrite(Run(es), Writes(es), w);
  }

  // -------------------------------------------------------- exact agreement

  /** The newest covering write holds something at q that some order drops. */
  ghost predicate StarLost(ws: set<Write>, q: Path) {
    Lossy(ws, q) && TopKind(ws, q) != Nothing
  }

  /** The writes leave no choice about q's shape: no newer finer write, a live
      newer set below it, an object on top, or nothing but unsets of which none
      is older than a finer one. */
  ghost predicate Shaped(ws: set<Write>, q: Path) {
    NoFiner(ws, q) || LiveBelow(ws, q) || TopKind(ws, q) == Branch || BareUnsets(ws, q)
  }

  /** Nor is there anything at q that a merge may drop. */
  ghost predicate Settled(ws: set<Write>, q: Path) {
    Shaped(ws, q) && !StarLost(ws, q)
  }

  /** What a settled path holds. */
  ghost function SettledKind(ws: set<Write>, q: Path): Kind {
    if LiveBelow(ws, q) then Branch else TopKind(ws, q)
  }

  lemma SettledRun(es: seq<Event>, q: Path)
    requires Proper(es) && Separated(Writes(es)) && q != [] && Settled(Writes(es), q)
    ensures KindAt(Tree(Run(es)), q) == SettledKind(Writes(es), q)
  {
    RunKind(es, q);
    if BareUnsets(Writes(es), q) { TopNone(Writes(es), q); }
    if Lossy(Writes(es), q) {
      LossyHasStar(Writes(es), q);
      ProperWrites(es);
      StarHasNoFiner(Writes(es), q);
    }
  }

  lemma ProperWrites(es: seq<Event>)
    requires Proper(es)
    ensures ProperSet(Writes(es))
  {}

  /** Runs that settle every path leave the same tree. */
  lemma SettledConverge(a: seq<Event>, b: seq<Event>)
    requires Proper(a) && Proper(b) && Writes(a) == Writes(b) && Separated(Writes(a))
    requires forall q: Path :: q != [] ==> Settled(Writes(a), q)
    ensures Run(a).fields == Run(b).fields
  {
    forall q: Path
      ensures KindAt(Tree(Run(a)), q) == KindAt(Tree(Run(b)), q)
    {
      if q != [] {
        SettledRun(a, q);
        SettledRun(b, q);
      }
    }
    SameKinds(Tree(Run(a)), Tree(Run(b)));
  }

  /** In every case two orders differ at a path only in that one has an object,
      or has dropped a key `*`, where the other holds what the newest covering
      write says. */
  lemma DifferAtShellsOnly(a: seq<Event>, b: seq<Event>, q: Path)
    requires Proper(a) && Proper(b) && Writes(a) == Writes(b) && Separated(Writes(a)) && q != []
    ensures KindAt(Tree(Run(a)), q) == KindAt(Tree(Run(b)), q) ||
            {KindAt(Tree(Run(a)), q), KindAt(Tree(Run(b)), q)} == {Branch, TopKind(Writes(a), q)} ||
            (StarLost(Writes(a), q) &&
             {KindAt(Tree(Run(a)), q), KindAt(Tree(Run(b)), q)} == {Nothing, TopKind(Writes(a), q)})
  {
    RunKind(a, q);
    RunKind(b, q);
    if Lossy(Writes(a), q) {
      LossyHasStar(Writes(a), q);
      ProperWrites(a);
      StarHasNoFiner(Writes(a), q);
    }
  }

  // -------------------------------------------------------------- sets alone

  ghost predicate OnlySets(ws: set<Write>) {
    forall w :: w in ws ==> w.val.Some?
  }

  /** The newest of the finer writes is undominated. */
  lemma NewestFiner(ws: set<Write>, q: Path) returns (s: Write)
    requires !NoFiner(ws, q)
    ensures Finer(ws, q, s) && Undominated(ws, s)
  {
    var finer := set w | w in ws && Finer(ws, q, w);
    var vers := set w | w in finer :: w.ver;
    var f :| Finer(ws, q, f);
    assert f in finer && f.ver in vers;
    s :| s in finer && s.ver == SetMax(vers);
    CoverFacts(ws, q);
    assert s.ver > Cover(ws, q);
    forall u | u in ws && u.path <= s.path
      ensures u.ver <= s.ver
    {
      PrefixesOf(u.path, q, s.path);
      if q < u.path && u.ver > Cover(ws, q) {
        assert u in finer && u.ver in vers;
        assert u.ver <= SetMax(vers);
      }
    }
  }

  /** No payload value holds the default's key, at any depth. */
  ghost predicate PlainPayloads(ws: set<Write>) {
    forall w, r: Path :: w in ws && STAR in r ==> KindAt(w.val, r) == Nothing
  }

  /** No order drops anything. */
  ghost predicate NothingLost(ws: set<Write>) {
    forall q: Path :: !StarLost(ws, q)
  }

  /** Payloads without the key `*` are never dropped from. */
  lemma PlainPayloadsLoseNothing(ws: set<Write>)
    requires ProperSet(ws) && PlainPayloads(ws)
    ensures NothingLost(ws)
  {
    forall q: Path
      ensures !StarLost(ws, q)
    {
      if Lossy(ws, q) {
        LossyHasStar(ws, q);
        StarUnderTop(ws, q);
      }
    }
  }

  lemma StarUnderTop(ws: set<Write>, q: Path)
    requires ProperSet(ws) && PlainPayloads(ws) && STAR in q
    ensures TopKind(ws, q) == Nothing
  {
    forall t | IsTop(ws, q, t)
      ensures KindAt(t.val, q[|t.path|..]) == Nothing
    {
      assert t in ws;
      assert q == t.path + q[|t.path|..];
      assert STAR in q[|t.path|..];
    }
  }

  lemma SetsSettle(ws: set<Write>, q: Path)
    requires OnlySets(ws)
    ensures Settled(ws, q) <==> !StarLost(ws, q)
  {
    if !NoFiner(ws, q) {
      var s := NewestFiner(ws, q);
    }
  }

  /** A `$set`-only history that loses nothing has one outcome, whatever the
      delivery order. */
  lemma SetsConverge(a: seq<Event>, b: seq<Event>)
    requires Proper(a) && Proper(b) && Writes(a) == Writes(b)
    requires Separated(Writes(a)) && OnlySets(Writes(a)) && NothingLost(Writes(a))
    ensures Run(a).fields == Run(b).fields
  {
    forall q: Path | q != []
      ensures Settled(Writes(a), q)
    {
      SetsSettle(Writes(a), q);
    }
    SettledConverge(a, b);
  }

  /** Overwriting without gates, in the order given. */
  function Overwrite(ws: seq<Write>): map<Key, Value>
    requires forall w :: w in ws ==> Nameable(w.path) && w.val.Some?
  {
    if ws == [] then map[]
    else
      var w := ws[|ws| - 1];
      assert Nameable(w.path);
      SetNested(Overwrite(ws[..|ws| - 1]), w.path, w.val.value)
  }

  ghost function Elements(ws: seq<Write>): set<Write> {
    set w | w in ws
  }

  /** The delivery of a sequence of writes. */
  function Deliver(ws: seq<Write>): (es: seq<Event>)
    ensures |es| == |ws| && forall i :: 0 <= i < |ws| ==> es[i] == Apply(ws[i])
  {
    seq(|ws|, i requires 0 <= i < |ws| => Apply(ws[i]))
  }

  lemma DeliverWrites(ws: seq<Write>)
    ensures Writes(Deliver(ws)) == Elements(ws)
  {
    forall w | w in ws
      ensures w in Writes(Deliver(ws))
    {
      var i :| 0 <= i < |ws| && ws[i] == w;
      assert Deliver(ws)[i] == Apply(w);
      assert Apply(w) in Deliver(ws);
    }
  }

  ghost predicate Distinct(ws: seq<Write>) {
    forall i, j :: 0 <= i < j < |ws| ==> ws[i] != ws[j]
  }

  /** From older to newer. */
  ghost predicate Ascending(ws: seq<Write>) {
    forall i, j :: 0 <= i < j < |ws| ==> ws[i].ver <= ws[j].ver
  }

  lemma LastIsLatest(ws: seq<Write>) returns (before: seq<Write>, w: Write)
    requires ws != [] && Distinct(ws) && Ascending(ws)
    ensures ws == before + [w] && Distinct(before) && Ascending(before)
    ensures Elements(ws) == Elements(before) + {w} && w !in Elements(before)
    ensures forall u :: u in Elements(before) ==> u.ver <= w.ver
  {
    var n := |ws| - 1;
    before, w := ws[..n], ws[n];
    forall u | u in Elements(before)
      ensures u.ver <= w.ver && u != w
    {
      var i :| 0 <= i < n && ws[i] == u;
    }
  }

  /** A write at least as new as all before it meets nothing as new around it,
      and is the newest wherever it covers. */
  lemma LatestIsNewest(d: Doc, ws: set<Write>, w: Write)
    requires Tracks(d, ws) && w.ver > 0 && w !in ws && Separated(ws + {w})
    requires forall u :: u in ws ==> u.ver <= w.ver
    ensures Sub(d.ver, w.path) < w.ver
  {
    TracksSub(d, ws, w.path, w.ver);
    assert forall u :: u in ws && u.ver == w.ver ==> Incomparable(u.path, w.path);
  }

  lemma LatestCovers(d: Doc, ws: set<Write>, w: Write, q: Path)
    requires Tracks(d, ws) && w.ver > 0 && w.path <= q && Sub(d.ver, w.path) < w.ver
    ensures Cover(ws, q) < w.ver
  {
    SubBounds(d.ver, w.path, q);
  }

  /** Overwriting from oldest to newest leaves at every path what in-order
      delivery leaves, and below a key `*` what the newest covering write
      says. */
  ghost predicate OverwritesAt(ws: seq<Write>, q: Path)
    requires forall w :: w in ws ==> Nameable(w.path) && w.ver > 0 && w.val.Some?
  {
    var kind := KindAt(Some(Object(Overwrite(ws))), q);
    && (STAR !in q ==> Proper(Deliver(ws)) && kind == KindAt(Tree(Run(Deliver(ws))), q))
    && (STAR in q ==> kind == TopKind(Elements(ws), q))
  }

  lemma {:induction false} InOrderOverwrites(ws: seq<Write>, q: Path)
    requires forall w :: w in ws ==> Nameable(w.path) && w.ver > 0 && w.val.Some?
    requires Distinct(ws) && Ascending(ws) && Separated(Elements(ws)) && q != []
    ensures OverwritesAt(ws, q)
    decreases |ws|
  {
    if ws == [] {
      EmptyRun(q);
      assert Elements(ws) == {};
      assert Deliver(ws) == [];
    } else {
      var before, w := LastIsLatest(ws);
      assert w in ws;
      InOrderOverwrites(before, q);
      InOrderStep(before, w, q);
      assert ws[..|ws| - 1] == before;
    }
  }

  lemma {:induction false} InOrderStep(before: seq<Write>, w: Write, q: Path)
    requires forall x :: x in before ==> Nameable(x.path) && x.ver > 0 && x.val.Some?
    requires Nameable(w.path) && w.ver > 0 && w.val.Some? && q != []
    requires Separated(Elements(before) + {w}) && w !in Elements(before)
    requires forall u :: u in Elements(before) ==> u.ver <= w.ver
    requires OverwritesAt(before, q)
    ensures (before + [w])[..|before|] == before
    ensures OverwritesAt(before + [w], q)
  {
    var es := Deliver(before);
    assert (before + [w])[..|before|] == before;
    DeliverWrites(before);
    assert Deliver(before + [w]) == es + [Apply(w)];
    assert Proper(es);
    assert Elements(before + [w]) == Elements(before) + {w};
    RunTracks(es);
    LatestIsNewest(Run(es), Elements(before), w);
    RunAppend(es, Apply(w));
    LatestKind(Run(es), Elements(before), w, Overwrite(before), q);
    TopStep(Elements(before), w, q);
    if STAR in q && q < w.path { StarBelow(q, w.path); }
    if w.path <= q { LatestCovers(Run(es), Elements(before), w, q); }
  }

  /** One newest write, as a gated write and as a plain overwrite. */
  lemma {:induction false} LatestKind(d: Doc, ws: set<Write>, w: Write, fields: map<Key, Value>, q: Path)
    requires Valid(d) && Nameable(w.path) && w.val.Some? && Sub(d.ver, w.path) < w.ver && q != []
    ensures KindAt(Some(Object(SetNested(fields, w.path, w.val.value))), q) ==
            if w.path <= q then KindAt(w.val, q[|w.path|..])
            else if q < w.path then Branch else KindAt(Some(Object(fields)), q)
    ensures STAR !in q ==>
            KindAt(Tree(Step(d, Apply(w))), q) ==
            if w.path <= q then KindAt(w.val, q[|w.path|..]) else if q < w.path then Branch else KindAt(Tree(d), q)
  {
    SetNestedAt(fields, w.path, w.val.value, q);
    NewestKind(d, w.path, w.val.value, w.ver, q);
    if Dropped(d.ver, q) { DroppedHasStar(d.ver, q); }
  }

  lemma RunAppend(es: seq<Event>, e: Event)
    requires Proper(es) && (e.Apply? ==> Nameable(e.w.path) && e.w.ver > 0)
    ensures Proper(es + [e]) && Run(es + [e]) == Step(Run(es), e)
    ensures Writes(es + [e]) == Writes(es) + (if e.Apply? then {e.w} else {})
  {
    assert (es + [e])[..|es|] == es;
    assert forall x :: x in es + [e] <==> x in es || x == e;
  }

  /** Any delivery of a `$set`-only history that loses nothing, compactions
      included, ends with the tree that plain overwriting from oldest to newest
      would leave. */
  lemma SetsAreLastWriterWins(es: seq<Event>, ordered: seq<Write>)
    requires Proper(es) && Writes(es) == Elements(ordered)
    requires Separated(Writes(es)) && OnlySets(Writes(es)) && NothingLost(Writes(es))
    requires Distinct(ordered) && Ascending(ordered)
    ensures forall w :: w in ordered ==> Nameable(w.path) && w.val.Some?
    ensures Run(es).fields == Overwrite(ordered)
  {
    forall w | w in ordered
      ensures Nameable(w.path) && w.ver > 0 && w.val.Some?
    {
      assert w in Writes(es);
    }
    forall q: Path
      ensures KindAt(Tree(Run(es)), q) == KindAt(Some(Object(Overwrite(ordered))), q)
    {
      if q != [] { OverwrittenKind(es, ordered, q); }
    }
    SameKinds(Tree(Run(es)), Some(Object(Overwrite(ordered))));
  }

  lemma OverwrittenKind(es: seq<Event>, ordered: seq<Write>, q: Path)
    requires Proper(es) && Writes(es) == Elements(ordered) && q != []
    requires Separated(Writes(es)) && OnlySets(Writes(es)) && !StarLost(Writes(es), q)
    requires Distinct(ordered) && Ascending(ordered)
    requires forall w :: w in ordered ==> Nameable(w.path) && w.ver > 0 && w.val.Some?
    ensures KindAt(Tree(Run(es)), q) == KindAt(Some(Object(Overwrite(ordered))), q)
  {
    InOrderOverwrites(ordered, q);
    SetsSettle(Writes(es), q);
    SettledRun(es, q);
    if STAR in q {
      ProperWrites(es);
      StarHasNoFiner(Writes(es), q);
    } else {
      DeliverWrites(ordered);
      SettledRun(Deliver(ordered), q);
    }
  }

  // ------------------------------------------------------- sets and unsets

  /** No write puts a scalar at a proper prefix of a path another one names. */
  ghost predicate NoScalarAbove(ws: set<Write>) {
    forall u, w, q: Path ::
      u in ws && w in ws && u.path <= q < w.path ==> !KindAt(u.val, q[|u.path|..]).Leaf?
  }

  /** Then every scalar is exactly the one the newest covering write put
      there: present with its value, or absent if that write unset it. */
  lemma LeavesAreLastWriterWins(es: seq<Event>, q: Path, x: Value)
    requires Proper(es) && Separated(Writes(es)) && NoScalarAbove(Writes(es)) && q != []
    requires Lossy(Writes(es), q) ==> !TopKind(Writes(es), q).Leaf?
    ensures KindAt(Tree(Run(es)), q) == Leaf(x) <==> TopKind(Writes(es), q) == Leaf(x)
  {
    RunKind(es, q);
    if TopKind(Writes(es), q).Leaf? { LeafHasNoFiner(Writes(es), q); }
  }

  lemma LeafHasNoFiner(ws: set<Write>, q: Path)
    requires Separated(ws) && NoScalarAbove(ws) && TopKind(ws, q).Leaf?
    ensures NoFiner(ws, q)
  {
    var t :| IsTop(ws, q, t);
    TopUnique(ws, q, t);
    assert t.path <= q && KindAt(t.val, q[|t.path|..]).Leaf?;
  }

  /** A tree without its empty objects; None when nothing is left. */
  function Pruned(x: Value): Option<Value> {
    match x
    case Object(fields) =>
      var kept := map k | k in fields && Pruned(fields[k]).Some? :: Pruned(fields[k]).value;
      if kept == map[] then None else Some(Object(kept))
    case _ => Some(x)
  }

  /** Pruning keeps the scalars, and the objects that hold one. */
  lemma {:induction false} PrunedKind(x: Value, q: Path)
    ensures forall s :: KindAt(Pruned(x), q) == Leaf(s) <==> KindAt(Some(x), q) == Leaf(s)
    ensures KindAt(Pruned(x), q) == Branch <==> exists r :: q < r && KindAt(Some(x), r).Leaf?
    decreases x
  {
    if x.Object? {
      forall k: Key
        ensures Child(Pruned(x), k) == if k in x.fields then Pruned(x.fields[k]) else None
      {
        var kept := map j | j in x.fields && Pruned(x.fields[j]).Some? :: Pruned(x.fields[j]).value;
        assert k in kept <==> k in x.fields && Pruned(x.fields[k]).Some?;
      }
      if q == [] {
        PrunedRoot(x);
      } else {
        var k := q[0];
        if k in x.fields {
          PrunedKind(x.fields[k], q[1..]);
          if r :| q[1..] < r && KindAt(Some(x.fields[k]), r).Leaf? {
            assert q < [k] + r && KindAt(Some(x), [k] + r).Leaf?;
          }
          if r :| q < r && KindAt(Some(x), r).Leaf? {
            assert q[1..] < r[1..] && KindAt(Some(x.fields[k]), r[1..]).Leaf?;
          }
        } else {
          AtNothing(q[1..]);
          if r :| q < r && KindAt(Some(x), r).Leaf? { AtNothing(r[1..]); }
        }
      }
    } else {
      if q != [] { AtNothing(q[1..]); }
      if r :| q < r && KindAt(Some(x), r).Leaf? { AtNothing(r[1..]); }
    }
  }

  lemma {:induction false} PrunedRoot(x: Value)
    requires x.Object?
    ensures KindOf(Pruned(x)) == Branch <==> exists r :: [] < r && KindAt(Some(x), r).Leaf?
    ensures KindOf(Pruned(x)) in {Branch, Nothing}
    decreases x, 0
  {
    var kept := map j | j in x.fields && Pruned(x.fields[j]).Some? :: Pruned(x.fields[j]).value;
    if kept != map[] {
      var k :| k in kept;
      var y := x.fields[k];
      if y.Object? {
        PrunedRoot(y);
        var r :| [] < r && KindAt(Some(y), r).Leaf?;
        assert KindAt(Some(x), [k] + r).Leaf?;
      } else {
        AtKey(Some(x), k);
        assert KindAt(Some(x), [k]).Leaf?;
      }
    }
    if r :| [] < r && KindAt(Some(x), r).Leaf? {
      if r[0] in x.fields {
        var y := x.fields[r[0]];
        if y.Object? {
          assert KindAt(Some(y), r[1..]).Leaf?;
          PrunedRoot(y);
        }
        assert r[0] in kept;
      } else {
        AtNothing(r[1..]);
      }
    }
  }

  /** Trees with the same scalars are the same once pruned. */
  lemma SameLeavesSamePruned(a: Value, b: Value)
    requires forall q, s :: KindAt(Some(a), q) == Leaf(s) <==> KindAt(Some(b), q) == Leaf(s)
    ensures Pruned(a) == Pruned(b)
  {
    forall q: Path
      ensures KindAt(Pruned(a), q) == KindAt(Pruned(b), q)
    {
      PrunedKind(a, q);
      PrunedKind(b, q);
      forall r: Path
        ensures KindAt(Some(a), r).Leaf? <==> KindAt(Some(b), r).Leaf?
      {
        if KindAt(Some(a), r).Leaf? { assert KindAt(Some(b), r) == Leaf(KindAt(Some(a), r).scalar); }
        if KindAt(Some(b), r).Leaf? { assert KindAt(Some(a), r) == Leaf(KindAt(Some(b), r).scalar); }
      }
      if KindAt(Pruned(a), q).Leaf? { assert KindAt(Pruned(b), q) == Leaf(KindAt(Pruned(a), q).scalar); }
      if KindAt(Pruned(b), q).Leaf? { assert KindAt(Pruned(a), q) == Leaf(KindAt(Pruned(b), q).scalar); }
    }
    SameKinds(Pruned(a), Pruned(b));
  }

  /** No order drops a scalar. */
  ghost predicate NoLeafLost(ws: set<Write>) {
    forall q: Path :: Lossy(ws, q) ==> !TopKind(ws, q).Leaf?
  }

  /** Sets and unsets that lose no scalar converge up to empty objects. */
  lemma PrunedConverge(a: seq<Event>, b: seq<Event>)
    requires Proper(a) && Proper(b) && Writes(a) == Writes(b)
    requires Separated(Writes(a)) && NoScalarAbove(Writes(a)) && NoLeafLost(Writes(a))
    ensures Pruned(Object(Run(a).fields)) == Pruned(Object(Run(b).fields))
  {
    var x, y := Object(Run(a).fields), Object(Run(b).fields);
    forall q: Path, s: Value
      ensures KindAt(Some(x), q) == Leaf(s) <==> KindAt(Some(y), q) == Leaf(s)
    {
      if q != [] {
        LeavesAreLastWriterWins(a, q, s);
        LeavesAreLastWriterWins(b, q, s);
      }
    }
    SameLeavesSamePruned(x, y);
  }
}
