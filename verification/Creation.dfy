/** Edits that reach a record before it exists: they are skipped for good, so
    where the creation stands in a delivery decides what the record holds. */
module Creation {
  import opened Basics
  import opened Values
  import opened Versions
  import opened Gated
  import opened Histories
  import opened Convergence
  import opened Lifecycle
  import opened Deletion
  import opened LiveRecords

  /** The edits from the first upsert on. */
  function Created(es: seq<Edit>): (r: seq<Edit>)
    ensures r != [] ==> r[0].upsert
  {
    if es == [] || es[0].upsert then es else Created(es[1..])
  }

  predicate NoUpsert(es: seq<Edit>) {
    forall e :: e in es ==> !e.upsert
  }

  lemma {:induction false} CreatedSplits(es: seq<Edit>) returns (early: seq<Edit>)
    ensures es == early + Created(es) && NoUpsert(early)
    decreases |es|
  {
    if es == [] || es[0].upsert {
      early := [];
    } else {
      var rest := CreatedSplits(es[1..]);
      early := [es[0]] + rest;
      assert es == [es[0]] + es[1..];
      NoUpsertJoins(es[0], rest);
    }
  }

  lemma NoUpsertJoins(e: Edit, es: seq<Edit>)
    requires !e.upsert && NoUpsert(es)
    ensures NoUpsert([e] + es)
  {}

  /** Edits of one plain, accepted delivery. */
  ghost predicate Delivery(h: Handler, es: seq<Edit>) {
    SoundAll(es) && PlainEdits(es) && AcceptsAll(h, es)
  }

  lemma DeliveryParts(h: Handler, es: seq<Edit>, part: seq<Edit>)
    requires Delivery(h, es) && forall e :: e in part ==> e in es
    ensures Delivery(h, part)
  {}

  lemma {:induction false} AbsentUntilCreated(h: Handler, es: seq<Edit>)
    requires Delivery(h, es) && NoUpsert(es)
    ensures After(h, Absent, es) == Absent
    decreases |es|
  {
    if es != [] {
      var e := es[|es| - 1];
      assert e in es;
      AbsentUntilCreated(h, es[..|es| - 1]);
    }
  }

  /** A record holds what the history from its creation on leaves. */
  lemma {:induction false} RecordFromCreation(h: Handler, es: seq<Edit>)
    requires Delivery(h, es)
    ensures Delivery(h, Created(es)) && forall e :: e in Created(es) ==> e in es
    ensures Created(es) == [] ==> After(h, Absent, es).Absent?
    ensures Created(es) != [] ==>
              After(h, Absent, es).Live? && After(h, Absent, es).doc == Run(History(Created(es)))
  {
    var early := CreatedSplits(es);
    var seen := Created(es);
    DeliveryParts(h, es, early);
    DeliveryParts(h, es, seen);
    AbsentUntilCreated(h, early);
    AfterAppend(h, Absent, early, seen);
    if seen != [] { LiveRecordIsARun(h, seen); }
  }

  // ------------------------------------------------------ what the early edits cost

  ghost function Written(es: seq<Edit>): (ws: set<Write>)
    requires SoundAll(es)
  {
    Writes(History(es))
  }

  lemma WrittenBy(es: seq<Edit>, w: Write)
    requires SoundAll(es)
    ensures w in Written(es) <==> SomeWrote(es, w)
  {
    HistoryWrites(es, w);
    assert w in Written(es) <==> Apply(w) in History(es);
  }

  lemma WrittenGrows(part: seq<Edit>, es: seq<Edit>)
    requires SoundAll(es) && SoundAll(part) && forall e :: e in part ==> e in es
    ensures Written(part) <= Written(es)
  {
    forall w | w in Written(part)
      ensures w in Written(es)
    {
      WrittenBy(part, w);
      WrittenBy(es, w);
    }
  }

  /** Every write of `all` is covered, at its path, by one in `seen` at least as
      new. */
  ghost predicate Covers(seen: set<Write>, all: set<Write>) {
    forall w :: w in all ==> w.ver <= Cover(seen, w.path)
  }

  lemma CoversMeans(seen: set<Write>, all: set<Write>)
    requires seen <= all
    ensures Covers(seen, all) <==> forall q :: Cover(seen, q) == Cover(all, q)
  {
    forall w | w in all
      ensures w.ver <= Cover(all, w.path)
    {
      CoverFacts(all, w.path);
    }
    if Covers(seen, all) {
      forall q: Path
        ensures Cover(seen, q) == Cover(all, q)
      {
        CoverOfMore(seen, all, q);
      }
    }
  }

  lemma CoverOfMore(seen: set<Write>, all: set<Write>, q: Path)
    requires seen <= all && Covers(seen, all)
    ensures Cover(seen, q) == Cover(all, q)
  {
    CoverFacts(seen, q);
    CoverFacts(all, q);
    if Cover(all, q) > 0 {
      var t :| IsTop(all, q, t) && t.ver == Cover(all, q);
      CoverMonotone(seen, t.path, q);
    }
  }

  /** The versions a delivery leaves. */
  lemma {:induction false} VersionsFromCreation(h: Handler, es: seq<Edit>)
    requires Delivery(h, es) && Created(es) != []
    ensures SoundAll(Created(es)) && After(h, Absent, es).Live?
    ensures forall q :: Ev(After(h, Absent, es).doc.ver, q) == Cover(Written(Created(es)), q)
    ensures Written(Created(es)) <= Written(es)
  {
    RecordFromCreation(h, es);
    RunTracks(History(Created(es)));
    WrittenGrows(Created(es), es);
  }

  /** A delivery leaves the record at the versions a creation-first delivery of
      the same edits leaves exactly when what it wrote from the creation on
      covers everything the edits write. */
  lemma {:induction false} EarlyEditsIff(h: Handler, a: seq<Edit>, b: seq<Edit>)
    requires Delivery(h, a) && Delivery(h, b) && SameEdits(a, b) && Creating(b)
    ensures Created(a) != [] && SoundAll(Created(a))
    ensures After(h, Absent, a).Live? && After(h, Absent, b).Live?
    ensures SameVersions(After(h, Absent, a), After(h, Absent, b)) <==> Covers(Written(Created(a)), Written(a))
  {
    CreatedHasUpserts(a, b[0]);
    VersionsFromCreation(h, a);
    VersionsFromCreation(h, b);
    assert Created(b) == b;
    SameEditsSameWrites(a, b);
    CoversMeans(Written(Created(a)), Written(a));
    SameCovers(After(h, Absent, a), After(h, Absent, b), Written(Created(a)), Written(a));
  }

  lemma SameCovers(a: Row, b: Row, seen: set<Write>, all: set<Write>)
    requires a.Live? && b.Live?
    requires forall q :: Ev(a.doc.ver, q) == Cover(seen, q)
    requires forall q :: Ev(b.doc.ver, q) == Cover(all, q)
    ensures SameVersions(a, b) <==> forall q :: Cover(seen, q) == Cover(all, q)
  {
    if SameVersions(a, b) {
      forall q: Path
        ensures Cover(seen, q) == Cover(all, q)
      {
        assert Ev(a.doc.ver, q) == Ev(b.doc.ver, q);
      }
    }
  }

  ghost predicate SameVersions(a: Row, b: Row) {
    a.Live? && b.Live? && forall q :: Ev(a.doc.ver, q) == Ev(b.doc.ver, q)
  }

  /** No upsert is skipped. */
  lemma {:induction false} CreatedHasUpserts(es: seq<Edit>, u: Edit)
    requires u in es && u.upsert
    ensures u in Created(es)
    decreases |es|
  {
    if !es[0].upsert {
      assert es == [es[0]] + es[1..];
      CreatedHasUpserts(es[1..], u);
    }
  }

  // ------------------------------------------------------------- all orders

  function Upserts(es: seq<Edit>): seq<Edit> {
    Filter(es, (e: Edit) => e.upsert)
  }

  function Others(es: seq<Edit>): seq<Edit> {
    Filter(es, (e: Edit) => !e.upsert)
  }

  /** All deliveries of the edits leave the record at the same versions. */
  ghost predicate VersionsOrderFree(h: Handler, es: seq<Edit>) {
    forall a, b :: Delivery(h, a) && Delivery(h, b) && SameEdits(a, es) && SameEdits(b, es) ==>
      SameVersions(After(h, Absent, a), After(h, Absent, b))
  }

  lemma {:induction false} CreatedOfLate(early: seq<Edit>, late: seq<Edit>)
    requires late != [] && late[0].upsert && NoUpsert(early)
    ensures Created(early + late) == late
    decreases |early|
  {
    if early == [] {
      assert early + late == late;
    } else {
      assert (early + late)[1..] == early[1..] + late && early[0] in early;
      CreatedOfLate(early[1..], late);
    }
  }

  /** Wherever the creation stands, all deliveries agree on the versions exactly
      when what the upserts write covers what the other edits write. */
  lemma {:induction false} VersionsOrderFreeIff(h: Handler, es: seq<Edit>)
    requires Delivery(h, es) && Upserts(es) != []
    ensures SoundAll(Upserts(es))
    ensures VersionsOrderFree(h, es) <==> Covers(Written(Upserts(es)), Written(es))
  {
    DeliveryParts(h, es, Upserts(es));
    if Covers(Written(Upserts(es)), Written(es)) {
      forall a, b | Delivery(h, a) && Delivery(h, b) && SameEdits(a, es) && SameEdits(b, es)
        ensures SameVersions(After(h, Absent, a), After(h, Absent, b))
      {
        CoveredOrder(h, es, a);
        CoveredOrder(h, es, b);
      }
    } else {
      LateCreation(h, es);
    }
  }

  /** Under that condition every delivery tracks all the writes. */
  lemma {:induction false} CoveredOrder(h: Handler, es: seq<Edit>, a: seq<Edit>)
    requires Delivery(h, es) && Delivery(h, a) && SameEdits(a, es) && Upserts(es) != []
    requires SoundAll(Upserts(es)) && Covers(Written(Upserts(es)), Written(es))
    ensures Created(a) != [] && Delivery(h, Created(a)) && After(h, Absent, a).Live?
    ensures After(h, Absent, a).doc == Run(History(Created(a)))
    ensures Written(Created(a)) <= Written(es) && Covers(Written(Created(a)), Written(es))
    ensures forall q :: Ev(After(h, Absent, a).doc.ver, q) == Cover(Written(es), q)
  {
    assert Upserts(es)[0] in Upserts(es);
    CreatedHasUpserts(a, Upserts(es)[0]);
    RecordFromCreation(h, a);
    forall u | u in Upserts(es)
      ensures u in Created(a)
    {
      CreatedHasUpserts(a, u);
    }
    WrittenGrows(Upserts(es), Created(a));
    WrittenGrows(Created(a), es);
    CoversOn(Written(Upserts(es)), Written(Created(a)), Written(es));
    CoversMeans(Written(Created(a)), Written(es));
    RunTracks(History(Created(a)));
  }

  lemma CoversOn(few: set<Write>, more: set<Write>, all: set<Write>)
    requires few <= more && Covers(few, all)
    ensures Covers(more, all)
  {
    forall w | w in all
      ensures w.ver <= Cover(more, w.path)
    {
      CoverFacts(few, w.path);
      CoverFacts(more, w.path);
    }
  }

  /** The other edits first, then the upserts, against the creation first. */
  lemma {:induction false} LateCreation(h: Handler, es: seq<Edit>)
    requires Delivery(h, es) && Upserts(es) != [] && SoundAll(Upserts(es))
    requires !Covers(Written(Upserts(es)), Written(es))
    ensures !VersionsOrderFree(h, es)
  {
    var late, first := Others(es) + Upserts(es), Upserts(es) + Others(es);
    TwoOrders(h, es);
    CreatedOfLate(Others(es), Upserts(es));
    assert Created(late) == Upserts(es);
    EarlyEditsIff(h, late, first);
    SameEditsSameWrites(late, es);
    OneDiffers(h, es, late, first);
  }

  lemma OneDiffers(h: Handler, es: seq<Edit>, a: seq<Edit>, b: seq<Edit>)
    requires Delivery(h, a) && Delivery(h, b) && SameEdits(a, es) && SameEdits(b, es)
    requires !SameVersions(After(h, Absent, a), After(h, Absent, b))
    ensures !VersionsOrderFree(h, es)
  {}

  lemma TwoOrders(h: Handler, es: seq<Edit>)
    requires Delivery(h, es) && Upserts(es) != []
    ensures var late, first := Others(es) + Upserts(es), Upserts(es) + Others(es);
            && Delivery(h, late) && SameEdits(late, es) && Delivery(h, first) && SameEdits(first, es)
            && SameEdits(late, first) && Creating(first) && Upserts(es)[0].upsert && NoUpsert(Others(es))
  {
    var late, first := Others(es) + Upserts(es), Upserts(es) + Others(es);
    assert Upserts(es)[0] in Upserts(es);
    assert SameEdits(late, es) && SameEdits(first, es);
    DeliveryParts(h, es, late);
    DeliveryParts(h, es, first);
  }

  // ---------------------------------------------------------------- content

  lemma SameVersionSameWrite(all: set<Write>, s: Write, t: Write)
    requires Separated(all) && s in all && t in all && s.ver == t.ver && s.path <= t.path
    ensures s == t
  {}

  /** A write not covered by a newer one is among those that cover. */
  lemma NewestIsSeen(seen: set<Write>, all: set<Write>, t: Write)
    requires seen <= all && t.ver <= Cover(seen, t.path) && Separated(all) && Undominated(all, t) && t.ver > 0
    ensures t in seen
  {
    var s := CoveredBy(seen, t.path, t.ver);
    assert s in all;
    SameVersionSameWrite(all, s, t);
  }

  lemma CoveredBy(ws: set<Write>, q: Path, v: Version) returns (s: Write)
    requires 0 < v <= Cover(ws, q)
    ensures s in ws && s.path <= q && v <= s.ver
  {
    CoverFacts(ws, q);
    s :| IsTop(ws, q, s) && s.ver == Cover(ws, q);
  }

  lemma TopIsUndominated(all: set<Write>, q: Path, t: Write)
    requires IsTop(all, q, t)
    ensures Undominated(all, t)
  {
    forall u | u in all && u.path <= t.path
      ensures u.ver <= t.ver
    {
      assert u.path <= q;
    }
  }

  lemma TopIsSeen(seen: set<Write>, all: set<Write>, q: Path, t: Write)
    requires seen <= all && Covers(seen, all) && Separated(all) && t.ver > 0 && IsTop(all, q, t)
    ensures IsTop(seen, q, t)
  {
    TopIsUndominated(all, q, t);
    NewestIsSeen(seen, all, t);
  }

  lemma FewerSeparated(seen: set<Write>, all: set<Write>)
    requires seen <= all && Separated(all)
    ensures Separated(seen)
  {}

  lemma SameTops(seen: set<Write>, all: set<Write>, q: Path)
    requires seen <= all && Covers(seen, all) && Separated(all) && ProperSet(all)
    ensures TopKind(seen, q) == TopKind(all, q)
  {
    if w :| w in all && w.path <= q {
      var t := TopExists(all, q, w);
      TopIsSeen(seen, all, q, t);
      FewerSeparated(seen, all);
      TopUnique(all, q, t);
      TopUnique(seen, q, t);
    } else {
      TopNone(all, q);
      TopNone(seen, q);
    }
  }

  lemma LiveIsSeen(seen: set<Write>, all: set<Write>, q: Path)
    requires seen <= all && Covers(seen, all) && Separated(all) && LiveBelow(all, q)
    ensures LiveBelow(seen, q)
  {
    var s :| Finer(all, q, s) && s.val.Some? && Undominated(all, s);
    CoverOfMore(seen, all, q);
    NewestIsSeen(seen, all, s);
    assert Finer(seen, q, s) && Undominated(seen, s);
  }

  lemma SeenIsLive(seen: set<Write>, all: set<Write>, q: Path)
    requires seen <= all && Covers(seen, all) && LiveBelow(seen, q)
    ensures LiveBelow(all, q)
  {
    var s :| Finer(seen, q, s) && s.val.Some? && Undominated(seen, s);
    CoverOfMore(seen, all, q);
    CoverOfMore(seen, all, s.path);
    StillUndominated(seen, all, s);
    assert Finer(all, q, s);
  }

  lemma StillUndominated(seen: set<Write>, all: set<Write>, s: Write)
    requires seen <= all && Undominated(seen, s) && Cover(seen, s.path) == Cover(all, s.path)
    ensures Undominated(all, s)
  {
    CoverFacts(seen, s.path);
    CoverFacts(all, s.path);
  }

  lemma LossyOfMore(seen: set<Write>, all: set<Write>, q: Path)
    requires seen <= all && Covers(seen, all) && Lossy(seen, q)
    ensures Lossy(all, q)
  {
    var i, u, f :| Squeezed(seen, q, i, u, f);
    CoverOfMore(seen, all, q);
    assert Squeezed(all, q, i, u, f);
  }

  lemma SettledSame(seen: set<Write>, all: set<Write>, q: Path)
    requires seen <= all && Covers(seen, all) && Separated(all) && ProperSet(all)
    ensures SettledKind(seen, q) == SettledKind(all, q)
  {
    SameTops(seen, all, q);
    if LiveBelow(all, q) { LiveIsSeen(seen, all, q); }
    if LiveBelow(seen, q) { SeenIsLive(seen, all, q); }
  }

  lemma StillKept(seen: set<Write>, all: set<Write>, q: Path)
    requires seen <= all && Covers(seen, all) && Separated(all) && ProperSet(all) && !StarLost(all, q)
    ensures !StarLost(seen, q)
  {
    SameTops(seen, all, q);
    if Lossy(seen, q) { LossyOfMore(seen, all, q); }
  }

  lemma FewerSets(seen: set<Write>, all: set<Write>)
    requires seen <= all && OnlySets(all)
    ensures OnlySets(seen)
  {}

  /** What a path holds after a delivery that only sets and loses nothing. */
  lemma {:induction false} SettledLate(es: seq<Event>, all: set<Write>, q: Path)
    requires Proper(es) && Writes(es) <= all && Covers(Writes(es), all) && Separated(all) && ProperSet(all)
    requires OnlySets(all) && !StarLost(all, q) && q != []
    ensures KindAt(Tree(Run(es)), q) == SettledKind(all, q)
  {
    SettledSame(Writes(es), all, q);
    StillKept(Writes(es), all, q);
    FewerSets(Writes(es), all);
    SetsSettle(Writes(es), q);
    FewerSeparated(Writes(es), all);
    SettledRun(es, q);
  }

  /** And where they agree on the versions they agree on the content, as
      creation-first deliveries do: whole for `$set`s that lose nothing, up to
      empty objects with unsets. */
  lemma {:induction false} ContentOrderFree(h: Handler, es: seq<Edit>, a: seq<Edit>, b: seq<Edit>)
    requires Delivery(h, es) && Upserts(es) != [] && Separated(Written(es)) && VersionsOrderFree(h, es)
    requires Delivery(h, a) && Delivery(h, b) && SameEdits(a, es) && SameEdits(b, es)
    ensures SameVersions(After(h, Absent, a), After(h, Absent, b))
    ensures OnlySets(Written(es)) && NothingLost(Written(es)) ==>
              After(h, Absent, a).doc.fields == After(h, Absent, b).doc.fields
    ensures NoScalarAbove(Written(es)) && NoLeafLost(Written(es)) ==>
              Pruned(Object(After(h, Absent, a).doc.fields)) == Pruned(Object(After(h, Absent, b).doc.fields))
  {
    VersionsOrderFreeIff(h, es);
    CoveredOrder(h, es, a);
    CoveredOrder(h, es, b);
    ProperWrites(History(es));
    var x, y := History(Created(a)), History(Created(b));
    if OnlySets(Written(es)) && NothingLost(Written(es)) { SameFields(x, y, Written(es)); }
    if NoScalarAbove(Written(es)) && NoLeafLost(Written(es)) { SamePruned(x, y, Written(es)); }
  }

  lemma {:induction false} SameFields(x: seq<Event>, y: seq<Event>, all: set<Write>)
    requires Proper(x) && Writes(x) <= all && Covers(Writes(x), all)
    requires Proper(y) && Writes(y) <= all && Covers(Writes(y), all)
    requires Separated(all) && ProperSet(all) && OnlySets(all) && NothingLost(all)
    ensures Run(x).fields == Run(y).fields
  {
    forall q: Path
      ensures KindAt(Tree(Run(x)), q) == KindAt(Tree(Run(y)), q)
    {
      if q != [] {
        SettledLate(x, all, q);
        SettledLate(y, all, q);
      }
    }
    SameKinds(Tree(Run(x)), Tree(Run(y)));
  }

  lemma LeavesSame(seen: set<Write>, all: set<Write>, q: Path)
    requires seen <= all && Covers(seen, all) && Separated(all) && ProperSet(all)
    requires NoScalarAbove(all) && (Lossy(all, q) ==> !TopKind(all, q).Leaf?)
    ensures Separated(seen) && NoScalarAbove(seen) && TopKind(seen, q) == TopKind(all, q)
    ensures Lossy(seen, q) ==> !TopKind(seen, q).Leaf?
  {
    SameTops(seen, all, q);
    FewerSeparated(seen, all);
    if Lossy(seen, q) { LossyOfMore(seen, all, q); }
  }

  lemma {:induction false} LateLeaf(es: seq<Event>, all: set<Write>, q: Path, s: Value)
    requires Proper(es) && Writes(es) <= all && Covers(Writes(es), all) && Separated(all) && ProperSet(all)
    requires NoScalarAbove(all) && (Lossy(all, q) ==> !TopKind(all, q).Leaf?) && q != []
    ensures KindAt(Tree(Run(es)), q) == Leaf(s) <==> TopKind(all, q) == Leaf(s)
  {
    LeavesSame(Writes(es), all, q);
    LeavesAreLastWriterWins(es, q, s);
  }

  lemma {:induction false} SamePruned(x: seq<Event>, y: seq<Event>, all: set<Write>)
    requires Proper(x) && Writes(x) <= all && Covers(Writes(x), all)
    requires Proper(y) && Writes(y) <= all && Covers(Writes(y), all)
    requires Separated(all) && ProperSet(all) && NoScalarAbove(all) && NoLeafLost(all)
    ensures Pruned(Object(Run(x).fields)) == Pruned(Object(Run(y).fields))
  {
    var a, b := Object(Run(x).fields), Object(Run(y).fields);
    forall q: Path, s: Value
      ensures KindAt(Some(a), q) == Leaf(s) <==> KindAt(Some(b), q) == Leaf(s)
    {
      if q != [] {
        LateLeaf(x, all, q, s);
        LateLeaf(y, all, q, s);
      }
    }
    SameLeavesSamePruned(a, b);
  }

  /** An edit delivered before the creation, and after it. */
  lemma {:induction false} EarlyEditIsLost(h: Handler, k: Key, x: Value) returns (edit: Edit, create: Edit)
    requires k != STAR && (forall e :: h.onCreate(e) && h.onDelete(e)) && forall op :: h.onModify(op)
    ensures Delivery(h, [edit, create]) && Delivery(h, [create, edit])
    ensures After(h, Absent, [edit, create]).Live? && Ev(After(h, Absent, [edit, create]).doc.ver, [k]) == 0
    ensures After(h, Absent, [create, edit]).Live? && Ev(After(h, Absent, [create, edit]).doc.ver, [k]) == 2
  {
    edit, create := Edit(2, 1, 1, false, [Set([k], x)]), Edit(1, 2, 2, true, []);
    assert Created([edit, create]) == [create] && Created([create, edit]) == [create, edit];
    VersionsFromCreation(h, [edit, create]);
    VersionsFromCreation(h, [create, edit]);
    OnlyEdit(create, edit, [create, edit], [k], x);
    CoverFacts(Written([create, edit]), [k]);
    CoverFacts(Written([create]), [k]);
  }

  lemma OnlyEdit(create: Edit, edit: Edit, es: seq<Edit>, q: Path, x: Value)
    requires create.ops == [] && edit.ops == [Set(q, x)] && edit.ver > 0 && Nameable(q) && es == [create, edit]
    requires SoundAll(es) && SoundAll([create])
    ensures Written([create]) == {}
    ensures Written(es) == {Write(q, Some(x), edit.ver)}
  {
    forall w: Write
      ensures w in Written([create]) <==> false
      ensures w in Written(es) <==> w == Write(q, Some(x), edit.ver)
    {
      WrittenBy([create], w);
      WrittenBy(es, w);
      OpWrites(edit, q, x, w);
    }
  }

  lemma OpWrites(e: Edit, q: Path, x: Value, w: Write)
    requires e.ops == [Set(q, x)]
    ensures Wrote(e, w) <==> w == Write(q, Some(x), e.ver)
  {
    assert Set(q, x) in e.ops;
  }
}
