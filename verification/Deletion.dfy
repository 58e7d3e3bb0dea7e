/** Whole runs of record edits: sticky deletion, the creation marker, and
    convergence of live records. */
module Deletion {
  import opened Basics
  import opened Values
  import opened Versions
  import opened Gated
  import opened Histories
  import opened Convergence
  import opened Lifecycle

  ghost predicate SoundAll(es: seq<Edit>) {
    forall e :: e in es ==> Sound(e)
  }

  ghost predicate RowSound(row: Row) {
    row.Live? ==> row.doc.ver.Split?
  }

  /** A row after a run of edits. */
  ghost function After(h: Handler, row: Row, es: seq<Edit>): (r: Row)
    requires SoundAll(es) && RowSound(row)
    ensures RowSound(r)
    decreases |es|
  {
    if es == [] then row else Modify(h, After(h, row, es[..|es| - 1]), es[|es| - 1]).row
  }

  // ---------------------------------------------------------------- deletion

  /** A tombstone never regains content: under any edits and any handler only
      its marker and stamps move, the marker downwards. */
  lemma {:induction false} TombstoneIsSticky(h: Handler, row: Row, es: seq<Edit>)
    requires SoundAll(es) && row.Tomb?
    ensures After(h, row, es).Tomb? && After(h, row, es).deletedBy == row.deletedBy
    ensures After(h, row, es).marker <= row.marker
    ensures forall e :: e in es && e.upsert ==> After(h, row, es).marker <= e.ver
    decreases |es|
  {
    if es != [] { TombstoneIsSticky(h, row, es[..|es| - 1]); }
  }

  /** The handler lets through the deletes among some edits. */
  ghost predicate AcceptsDeletes(h: Handler, es: seq<Edit>) {
    forall e :: e in es && HasDelete(e.ops) ==> h.onDelete(e)
  }

  /** The handler lets through the creations among some edits. */
  ghost predicate AcceptsCreates(h: Handler, es: seq<Edit>) {
    forall e :: e in es && e.upsert && !HasDelete(e.ops) ==> h.onCreate(e)
  }

  /** Whether a record is deleted depends only on whether some edit deletes it
      and the handler lets it, not on the order. */
  lemma {:induction false} DeletedIffSomeDelete(h: Handler, es: seq<Edit>)
    requires SoundAll(es)
    ensures After(h, Absent, es).Tomb? <==> exists e :: e in es && HasDelete(e.ops) && h.onDelete(e)
    decreases |es|
  {
    if es != [] {
      var n := |es| - 1;
      DeletedIffSomeDelete(h, es[..n]);
      assert forall e :: e in es <==> e in es[..n] || e == es[n];
    }
  }

  // ---------------------------------------------------------- creation marker

  predicate PlainUpsert(e: Edit) {
    e.upsert && !HasDelete(e.ops)
  }

  predicate Creates(e: Edit) {
    e.upsert || HasDelete(e.ops)
  }

  /** The marker is the version of some creating edit, and no plain upsert is
      older. */
  lemma {:induction false} MarkerBounds(h: Handler, es: seq<Edit>)
    requires SoundAll(es) && AcceptsCreates(h, es) && AcceptsDeletes(h, es)
    ensures After(h, Absent, es).Absent? <==> forall e :: e in es ==> !Creates(e)
    ensures !After(h, Absent, es).Absent? ==> exists e :: e in es && Creates(e) && e.ver == After(h, Absent, es).marker
    ensures !After(h, Absent, es).Absent? ==>
              forall e :: e in es && PlainUpsert(e) ==> After(h, Absent, es).marker <= e.ver
    decreases |es|
  {
    if es != [] {
      var n := |es| - 1;
      MarkerBounds(h, es[..n]);
      assert forall e :: e in es <==> e in es[..n] || e == es[n];
      var was, now := After(h, Absent, es[..n]), After(h, Absent, es);
      if !now.Absent? {
        if was.Absent? || now.marker != was.marker {
          assert es[n] in es && Creates(es[n]) && es[n].ver == now.marker;
        } else {
          var e :| e in es[..n] && Creates(e) && e.ver == was.marker;
          assert e in es;
        }
      }
    }
  }

  /** The oldest plain upsert among some edits. */
  ghost predicate OldestUpsert(es: seq<Edit>, u: Edit) {
    u in es && PlainUpsert(u) && forall e :: e in es && PlainUpsert(e) ==> u.ver <= e.ver
  }

  /** An upsert older than every delete fixes the marker in every order. */
  lemma MarkerIsOldestUpsert(h: Handler, es: seq<Edit>, u: Edit)
    requires SoundAll(es) && AcceptsCreates(h, es) && AcceptsDeletes(h, es) && OldestUpsert(es, u)
    requires forall e :: e in es && HasDelete(e.ops) ==> u.ver < e.ver
    ensures !After(h, Absent, es).Absent? && After(h, Absent, es).marker == u.ver
  {
    MarkerBounds(h, es);
    assert Creates(u);
  }

  /** Deliveries of the same edits, in any order and with repeats. */
  ghost predicate SameEdits(a: seq<Edit>, b: seq<Edit>) {
    forall e :: e in a <==> e in b
  }

  ghost predicate OneEditPerVersion(es: seq<Edit>) {
    forall d, e :: d in es && e in es && d.ver == e.ver ==> d == e
  }

  ghost predicate MarkerOrderFree(h: Handler, es: seq<Edit>)
    requires SoundAll(es)
  {
    forall a, b :: SameEdits(a, es) && SameEdits(b, es) && SoundAll(a) && SoundAll(b) ==>
      SameMarker(After(h, Absent, a), After(h, Absent, b))
  }

  ghost predicate SameMarker(a: Row, b: Row) {
    !a.Absent? && !b.Absent? && a.marker == b.marker
  }

  /** All deliveries agree on the marker exactly when the oldest plain upsert
      is older than every delete. */
  lemma {:induction false} MarkerOrderFreeIff(h: Handler, es: seq<Edit>, u: Edit)
    requires SoundAll(es) && AcceptsCreates(h, es) && AcceptsDeletes(h, es)
    requires OldestUpsert(es, u) && OneEditPerVersion(es)
    ensures MarkerOrderFree(h, es) <==> forall e :: e in es && HasDelete(e.ops) ==> u.ver < e.ver
  {
    if forall e :: e in es && HasDelete(e.ops) ==> u.ver < e.ver {
      forall a, b | SameEdits(a, es) && SameEdits(b, es) && SoundAll(a) && SoundAll(b)
        ensures SameMarker(After(h, Absent, a), After(h, Absent, b))
      {
        MarkerIsOldestUpsert(h, a, u);
        MarkerIsOldestUpsert(h, b, u);
      }
    } else {
      var d := OldestDelete(es);
      assert d.ver < u.ver;
      MarkerDependsOnOrder(h, es, u, d);
    }
  }

  lemma {:induction false} OldestDelete(es: seq<Edit>) returns (d: Edit)
    requires exists e :: e in es && HasDelete(e.ops)
    ensures d in es && HasDelete(d.ops) && forall e :: e in es && HasDelete(e.ops) ==> d.ver <= e.ver
    decreases |es|
  {
    var n := |es| - 1;
    assert forall e :: e in es <==> e in es[..n] || e == es[n];
    if exists e :: e in es[..n] && HasDelete(e.ops) {
      d := OldestDelete(es[..n]);
      if HasDelete(es[n].ops) && es[n].ver < d.ver { d := es[n]; }
    } else {
      d := es[n];
    }
  }

  /** Delete first, and the marker is the delete's version; upsert first, and
      the delete leaves the upsert's. */
  lemma {:induction false} MarkerDependsOnOrder(h: Handler, es: seq<Edit>, u: Edit, d: Edit)
    requires SoundAll(es) && AcceptsCreates(h, es) && AcceptsDeletes(h, es)
    requires OldestUpsert(es, u) && OneEditPerVersion(es)
    requires d in es && HasDelete(d.ops) && d.ver < u.ver
    requires forall e :: e in es && HasDelete(e.ops) ==> d.ver <= e.ver
    ensures !MarkerOrderFree(h, es)
  {
    var rest := Filter(es, e => e != d);
    var a, b := [d] + rest, [u, d] + rest;
    assert SoundAll(rest);
    DeleteFirst(h, d, rest);
    UpsertThenDelete(h, u, d, rest);
    assert forall e :: e in rest && e.upsert ==> e.ver > d.ver;
    assert SameEdits(a, es) && SameEdits(b, es);
    assert !SameMarker(After(h, Absent, a), After(h, Absent, b));
  }

  lemma {:induction false} DeleteFirst(h: Handler, d: Edit, rest: seq<Edit>)
    requires SoundAll(rest) && Sound(d) && h.onDelete(d) && HasDelete(d.ops)
    ensures SoundAll([d] + rest) && After(h, Absent, [d] + rest).Tomb?
    ensures After(h, Absent, [d] + rest).marker <= d.ver
  {
    AfterOne(h, Absent, d);
    AfterAppend(h, Absent, [d], rest);
    TombstoneIsSticky(h, After(h, Absent, [d]), rest);
  }

  lemma {:induction false} UpsertThenDelete(h: Handler, u: Edit, d: Edit, rest: seq<Edit>)
    requires SoundAll(rest) && Sound(d) && Sound(u) && h.onCreate(u) && h.onDelete(d)
    requires HasDelete(d.ops) && PlainUpsert(u)
    ensures SoundAll([u, d] + rest) && After(h, Absent, [u, d] + rest).Tomb?
    ensures After(h, Absent, [u, d] + rest).marker == u.ver ||
            exists e :: e in rest && e.upsert && e.ver == After(h, Absent, [u, d] + rest).marker
  {
    AfterOne(h, Absent, u);
    assert [u] + [d] == [u, d];
    AfterAppend(h, Absent, [u], [d]);
    AfterOne(h, After(h, Absent, [u]), d);
    AfterAppend(h, Absent, [u, d], rest);
    TombstoneMarker(h, After(h, Absent, [u, d]), rest);
  }

  lemma {:induction false} AfterAppend(h: Handler, row: Row, a: seq<Edit>, b: seq<Edit>)
    requires SoundAll(a + b) && SoundAll(a) && SoundAll(b) && RowSound(row)
    ensures After(h, row, a + b) == After(h, After(h, row, a), b)
    decreases |b|
  {
    if b == [] {
      assert a + b == a;
    } else {
      AfterAppend(h, row, a, b[..|b| - 1]);
      assert (a + b)[..|a + b| - 1] == a + b[..|b| - 1];
    }
  }

  lemma AfterOne(h: Handler, row: Row, e: Edit)
    requires Sound(e) && RowSound(row)
    ensures After(h, row, [e]) == Modify(h, row, e).row
  {
    assert [e][..0] == [];
  }

  /** A tombstone's marker stays, or becomes the version of an upsert seen. */
  lemma {:induction false} TombstoneMarker(h: Handler, row: Row, es: seq<Edit>)
    requires SoundAll(es) && row.Tomb?
    ensures After(h, row, es).Tomb?
    ensures After(h, row, es).marker == row.marker ||
            exists e :: e in es && e.upsert && e.ver == After(h, row, es).marker
    decreases |es|
  {
    if es != [] {
      var n := |es| - 1;
      TombstoneMarker(h, row, es[..n]);
      assert forall e :: e in es <==> e in es[..n] || e == es[n];
    }
  }

  /** Only deletes create the record. */
  ghost predicate NoPlainUpsert(es: seq<Edit>) {
    forall e :: e in es ==> !PlainUpsert(e)
  }

  ghost predicate OldestDeleteOf(es: seq<Edit>, d: Edit) {
    d in es && HasDelete(d.ops) && forall e :: e in es && HasDelete(e.ops) ==> d.ver <= e.ver
  }

  /** The oldest delete upserts too, or is the only one. */
  ghost predicate OldestDeleteDecides(es: seq<Edit>) {
    exists d :: OldestDeleteOf(es, d) && (d.upsert || forall e :: e in es && HasDelete(e.ops) ==> e == d)
  }

  /** Without plain upserts all deliveries agree on the marker exactly when the
      oldest delete decides it. */
  lemma {:induction false} MarkerOfDeletesOrderFreeIff(h: Handler, es: seq<Edit>)
    requires SoundAll(es) && AcceptsDeletes(h, es) && NoPlainUpsert(es) && OneEditPerVersion(es)
    ensures MarkerOrderFree(h, es) <==> OldestDeleteDecides(es)
  {
    if OldestDeleteDecides(es) {
      var d :| OldestDeleteOf(es, d) && (d.upsert || forall e :: e in es && HasDelete(e.ops) ==> e == d);
      forall a, b | SameEdits(a, es) && SameEdits(b, es) && SoundAll(a) && SoundAll(b)
        ensures SameMarker(After(h, Absent, a), After(h, Absent, b))
      {
        DeletesFixMarker(h, a, d);
        DeletesFixMarker(h, b, d);
      }
    } else {
      DeletesDisagree(h, es);
    }
  }

  lemma {:induction false} DeletesFixMarker(h: Handler, es: seq<Edit>, d: Edit)
    requires SoundAll(es) && AcceptsDeletes(h, es) && NoPlainUpsert(es) && OldestDeleteOf(es, d)
    requires d.upsert || forall e :: e in es && HasDelete(e.ops) ==> e == d
    ensures !After(h, Absent, es).Absent? && After(h, Absent, es).marker == d.ver
  {
    MarkerBounds(h, es);
    assert Creates(d);
    var e :| e in es && Creates(e) && e.ver == After(h, Absent, es).marker;
    assert HasDelete(e.ops);
    if d.upsert { UpsertingDeleteCounts(h, es, d); }
  }

  lemma {:induction false} UpsertingDeleteCounts(h: Handler, es: seq<Edit>, d: Edit)
    requires SoundAll(es) && AcceptsDeletes(h, es) && NoPlainUpsert(es)
    requires d in es && HasDelete(d.ops) && d.upsert
    ensures !After(h, Absent, es).Live?
    ensures !After(h, Absent, es).Absent? && After(h, Absent, es).marker <= d.ver
    decreases |es|
  {
    var n := |es| - 1;
    assert forall e :: e in es <==> e in es[..n] || e == es[n];
    NeverLive(h, es[..n]);
    if d in es[..n] { UpsertingDeleteCounts(h, es[..n], d); }
  }

  lemma {:induction false} NeverLive(h: Handler, es: seq<Edit>)
    requires SoundAll(es) && NoPlainUpsert(es)
    ensures !After(h, Absent, es).Live?
    decreases |es|
  {
    if es != [] {
      assert es[|es| - 1] in es;
      NeverLive(h, es[..|es| - 1]);
    }
  }

  lemma {:induction false} DeletesDisagree(h: Handler, es: seq<Edit>)
    requires SoundAll(es) && AcceptsDeletes(h, es) && NoPlainUpsert(es) && OneEditPerVersion(es)
    requires !OldestDeleteDecides(es)
    ensures !MarkerOrderFree(h, es)
  {
    if exists e :: e in es && HasDelete(e.ops) {
      var d := OldestDelete(es);
      assert OldestDeleteOf(es, d);
      var e :| e in es && HasDelete(e.ops) && e != d;
      PlainDeleteDependsOnOrder(h, es, d, e);
    } else {
      MarkerBounds(h, es);
      assert SameEdits(es, es) && !SameMarker(After(h, Absent, es), After(h, Absent, es));
    }
  }

  /** The older delete first fixes the marker at its version; after the newer
      one it leaves the marker alone. */
  lemma {:induction false} PlainDeleteDependsOnOrder(h: Handler, es: seq<Edit>, d: Edit, e: Edit)
    requires SoundAll(es) && AcceptsDeletes(h, es) && NoPlainUpsert(es) && OneEditPerVersion(es)
    requires OldestDeleteOf(es, d) && !d.upsert && e in es && HasDelete(e.ops) && e != d
    ensures !MarkerOrderFree(h, es)
  {
    var rest := Filter(es, x => x != d);
    var a, b := [d] + rest, [e, d] + rest;
    assert SoundAll(rest);
    DeleteFirst(h, d, rest);
    DeleteTwice(h, e, d, rest);
    assert SameEdits(a, es) && SameEdits(b, es);
    assert forall x :: x in rest && x.upsert ==> x.ver > d.ver;
    assert !SameMarker(After(h, Absent, a), After(h, Absent, b));
  }

  lemma {:induction false} DeleteTwice(h: Handler, e: Edit, d: Edit, rest: seq<Edit>)
    requires SoundAll(rest) && Sound(e) && Sound(d) && h.onDelete(e)
    requires HasDelete(e.ops) && HasDelete(d.ops) && !d.upsert
    ensures SoundAll([e, d] + rest) && After(h, Absent, [e, d] + rest).Tomb?
    ensures After(h, Absent, [e, d] + rest).marker == e.ver ||
            exists x :: x in rest && x.upsert && x.ver == After(h, Absent, [e, d] + rest).marker
  {
    AfterOne(h, Absent, e);
    assert [e] + [d] == [e, d];
    AfterAppend(h, Absent, [e], [d]);
    AfterOne(h, After(h, Absent, [e]), d);
    AfterAppend(h, Absent, [e, d], rest);
    TombstoneMarker(h, After(h, Absent, [e, d]), rest);
  }
}
