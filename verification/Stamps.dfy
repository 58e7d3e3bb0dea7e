/** The stamps of a record over whole runs of edits: when `_addSeq` falls, and
    when a change leaves no new `_applySeq`. */
module Stamps {
  import opened Basics
  import opened Versions
  import opened Lifecycle
  import opened Deletion

  // ---------------------------------------------------------------- one step

  /** Exactly one step lowers `_addSeq`: a live record replaced by the tombstone
      of a delete that carries an older AddSeq. */
  lemma AddSeqRegressesIff(h: Handler, row: Row, e: Edit)
    requires Sound(e) && RowSound(row) && !row.Absent?
    ensures Modify(h, row, e).row.addSeq < row.addSeq <==>
            row.Live? && HasDelete(e.ops) && h.onDelete(e) && e.addSeq < row.addSeq
  {}

  /** Exactly one step changes a record without giving it the change's
      `_applySeq`: a tombstone that absorbs an older upsert. */
  lemma ChangeWithoutApplySeqIff(h: Handler, row: Row, e: Edit)
    requires Sound(e) && RowSound(row)
    requires !row.Absent? ==> row.applySeq < e.applySeq
    ensures Modify(h, row, e).row != row && Modify(h, row, e).row.applySeq != e.applySeq <==>
            row.Tomb? && PlainUpsert(e) && e.ver < row.marker
  {}

  // -------------------------------------------------------------------- runs

  ghost predicate Accepts(h: Handler, es: seq<Edit>) {
    SoundAll(es) && AcceptsCreates(h, es) && AcceptsDeletes(h, es)
  }

  /** The row after the first n edits. */
  ghost function RowAfter(h: Handler, es: seq<Edit>, n: nat): (r: Row)
    requires SoundAll(es) && n <= |es|
    ensures RowSound(r)
  {
    After(h, Absent, es[..n])
  }

  lemma RowAfterNext(h: Handler, es: seq<Edit>, n: nat)
    requires Accepts(h, es) && n < |es|
    ensures Sound(es[n]) && RowAfter(h, es, n + 1) == Modify(h, RowAfter(h, es, n), es[n]).row
    ensures es[n].upsert && !HasDelete(es[n].ops) ==> h.onCreate(es[n])
    ensures HasDelete(es[n].ops) ==> h.onDelete(es[n])
  {
    assert es[n] in es;
    assert es[..n + 1][..n] == es[..n];
  }

  predicate FirstDelete(es: seq<Edit>, k: nat) {
    k < |es| && HasDelete(es[k].ops) && forall j :: 0 <= j < k ==> !HasDelete(es[j].ops)
  }

  predicate DeletedBefore(es: seq<Edit>, n: nat) {
    exists k :: 0 <= k < n && k < |es| && HasDelete(es[k].ops)
  }

  /** The edit at j meets a record: an upsert precedes it, or it is one. */
  predicate Seen(es: seq<Edit>, j: nat) {
    exists i :: 0 <= i <= j && i < |es| && es[i].upsert
  }

  lemma {:induction false} DeletedIffBefore(h: Handler, es: seq<Edit>, n: nat)
    requires Accepts(h, es) && n <= |es|
    ensures RowAfter(h, es, n).Tomb? <==> DeletedBefore(es, n)
    decreases n
  {
    if n > 0 {
      DeletedIffBefore(h, es, n - 1);
      RowAfterNext(h, es, n - 1);
      DeletedNext(es, n - 1);
    }
  }

  lemma DeletedNext(es: seq<Edit>, n: nat)
    requires n < |es|
    ensures DeletedBefore(es, n + 1) <==> DeletedBefore(es, n) || HasDelete(es[n].ops)
  {
    if DeletedBefore(es, n) {
      var k :| 0 <= k < n && k < |es| && HasDelete(es[k].ops);
      assert 0 <= k < n + 1;
    }
  }

  // ----------------------------------------------------------------- _addSeq

  lemma {:induction false} LiveIffSeen(h: Handler, es: seq<Edit>, n: nat)
    requires Accepts(h, es) && n <= |es| && !DeletedBefore(es, n)
    ensures RowAfter(h, es, n).Live? <==> n > 0 && Seen(es, n - 1)
    decreases n
  {
    if n > 0 {
      LiveIffSeen(h, es, n - 1);
      RowAfterNext(h, es, n - 1);
      DeletedIffBefore(h, es, n);
      assert Seen(es, n - 1) <==> (n > 1 && Seen(es, n - 2)) || es[n - 1].upsert;
    }
  }

  predicate SeenWith(es: seq<Edit>, n: nat, j: nat, addSeq: nat) {
    j < n <= |es| && Seen(es, j) && es[j].addSeq == addSeq
  }

  /** What one edit before the first delete does to the stamp. */
  lemma {:induction false} StampNext(h: Handler, es: seq<Edit>, n: nat)
    requires Accepts(h, es) && n < |es| && RowAfter(h, es, n + 1).Live?
    ensures var was, now := RowAfter(h, es, n), RowAfter(h, es, n + 1);
            && !was.Tomb?
            && now.addSeq == if was.Live? then Max(was.addSeq, es[n].addSeq) else es[n].addSeq
  {
    RowAfterNext(h, es, n);
  }

  /** Until the first delete the stamp is the greatest the record has seen. */
  lemma {:induction false} StampIsGreatest(h: Handler, es: seq<Edit>, n: nat) returns (j: nat)
    requires Accepts(h, es) && n <= |es| && !DeletedBefore(es, n) && RowAfter(h, es, n).Live?
    ensures SeenWith(es, n, j, RowAfter(h, es, n).addSeq)
    ensures forall i :: 0 <= i < n && Seen(es, i) ==> es[i].addSeq <= RowAfter(h, es, n).addSeq
    decreases n
  {
    LiveIffSeen(h, es, n);
    LiveIffSeen(h, es, n - 1);
    StampNext(h, es, n - 1);
    if RowAfter(h, es, n - 1).Live? {
      j := StampIsGreatest(h, es, n - 1);
      if es[n - 1].addSeq > RowAfter(h, es, n - 1).addSeq { j := n - 1; }
    } else {
      j := n - 1;
      SeenUpTo(es, n - 1);
    }
  }

  lemma SeenUpTo(es: seq<Edit>, n: nat)
    requires n <= |es|
    ensures forall i :: 0 <= i < n && Seen(es, i) ==> Seen(es, n - 1)
  {
    forall i | 0 <= i < n && Seen(es, i)
      ensures Seen(es, n - 1)
    {
      SeenStays(es, i, n - 1);
    }
  }

  /** `_addSeq` falls somewhere in a run. */
  ghost predicate AddSeqFalls(h: Handler, es: seq<Edit>)
    requires SoundAll(es)
  {
    exists n :: 0 <= n < |es| && FallsAt(h, es, n)
  }

  ghost predicate FallsAt(h: Handler, es: seq<Edit>, n: nat)
    requires SoundAll(es) && n < |es|
  {
    var was, now := RowAfter(h, es, n), RowAfter(h, es, n + 1);
    !was.Absent? && !now.Absent? && now.addSeq < was.addSeq
  }

  /** The first delete of a run carries an older AddSeq than an edit the record
      saw before it. */
  predicate LateDelete(es: seq<Edit>, j: nat, k: nat) {
    j < k < |es| && FirstDelete(es, k) && Seen(es, j) && es[k].addSeq < es[j].addSeq
  }

  /** Over any run `_addSeq` falls exactly when the first delete is such a one. */
  lemma {:induction false} AddSeqFallsIff(h: Handler, es: seq<Edit>)
    requires Accepts(h, es)
    ensures AddSeqFalls(h, es) <==> exists j, k :: LateDelete(es, j, k)
  {
    if AddSeqFalls(h, es) {
      var n :| 0 <= n < |es| && FallsAt(h, es, n);
      var j := FallIsLate(h, es, n);
    }
    if j, k :| LateDelete(es, j, k) { LateFalls(h, es, j, k); }
  }

  lemma {:induction false} FallIsLate(h: Handler, es: seq<Edit>, n: nat) returns (j: nat)
    requires Accepts(h, es) && n < |es| && FallsAt(h, es, n)
    ensures LateDelete(es, j, n)
  {
    RowAfterNext(h, es, n);
    AddSeqRegressesIff(h, RowAfter(h, es, n), es[n]);
    DeletedIffBefore(h, es, n);
    j := StampIsGreatest(h, es, n);
  }

  lemma {:induction false} LateFalls(h: Handler, es: seq<Edit>, j: nat, k: nat)
    requires Accepts(h, es) && LateDelete(es, j, k)
    ensures AddSeqFalls(h, es)
  {
    assert !DeletedBefore(es, k);
    SeenStays(es, j, k - 1);
    LiveIffSeen(h, es, k);
    var i := StampIsGreatest(h, es, k);
    RowAfterNext(h, es, k);
    AddSeqRegressesIff(h, RowAfter(h, es, k), es[k]);
    assert FallsAt(h, es, k);
  }

  lemma SeenStays(es: seq<Edit>, j: nat, k: nat)
    requires Seen(es, j) && j <= k
    ensures Seen(es, k)
  {
    var i :| 0 <= i <= j && i < |es| && es[i].upsert;
    assert 0 <= i <= k;
  }

  /** A record created under AddSeq 2 and deleted under AddSeq 1, the versions
      in order: the stamp goes from 2 to 1. */
  lemma {:induction false} AddSeqFallsExample(h: Handler)
    returns (create: Edit, delete: Edit)
    requires forall e :: h.onCreate(e) && h.onDelete(e)
    ensures create.ver < delete.ver && Accepts(h, [create, delete])
    ensures var a, b := After(h, Absent, [create]), After(h, Absent, [create, delete]);
            a.Live? && b.Tomb? && a.addSeq == 2 && b.addSeq == 1
  {
    create, delete := Edit(1, 2, 1, true, []), Edit(2, 1, 2, false, [Delete]);
    assert Delete in delete.ops;
    AfterOne(h, Absent, create);
    AfterAppend(h, Absent, [create], [delete]);
    AfterOne(h, After(h, Absent, [create]), delete);
    assert [create] + [delete] == [create, delete];
  }

  // --------------------------------------------------------------- _applySeq

  /** Whether the edit at j has a say in the marker: an upsert, but a first
      delete only where no upsert precedes it. */
  predicate Counts(es: seq<Edit>, j: nat) {
    j < |es| && if FirstDelete(es, j) then forall i :: 0 <= i < j ==> !es[i].upsert else es[j].upsert
  }

  lemma {:induction false} CountsHere(h: Handler, es: seq<Edit>, n: nat)
    requires Accepts(h, es) && n < |es|
    ensures Counts(es, n) <==>
            match RowAfter(h, es, n)
            case Absent => Creates(es[n])
            case Live(_, _, _, _) => PlainUpsert(es[n])
            case Tomb(_, _, _, _) => es[n].upsert
  {
    DeletedIffBefore(h, es, n);
    if !DeletedBefore(es, n) {
      UpsertedBefore(h, es, n);
      assert HasDelete(es[n].ops) ==> FirstDelete(es, n);
    } else {
      var k :| 0 <= k < n && k < |es| && HasDelete(es[k].ops);
      assert !FirstDelete(es, n);
    }
  }

  /** What one edit does to the marker. */
  lemma {:induction false} MarkerNext(h: Handler, es: seq<Edit>, n: nat)
    requires Accepts(h, es) && n < |es|
    ensures var was, now := RowAfter(h, es, n), RowAfter(h, es, n + 1);
            && (now.Absent? <==> was.Absent? && !Counts(es, n))
            && (!now.Absent? ==>
                  now.marker == (if was.Absent? then es[n].ver
                                 else if Counts(es, n) then Min(was.marker, es[n].ver) else was.marker))
  {
    RowAfterNext(h, es, n);
    CountsHere(h, es, n);
  }

  /** The marker is the least version that counts. */
  lemma {:induction false} MarkerIsLeast(h: Handler, es: seq<Edit>, n: nat)
    requires Accepts(h, es) && n <= |es|
    ensures RowAfter(h, es, n).Absent? <==> forall j :: 0 <= j < n ==> !Counts(es, j)
    ensures !RowAfter(h, es, n).Absent? ==>
              forall j :: 0 <= j < n && Counts(es, j) ==> RowAfter(h, es, n).marker <= es[j].ver
    ensures !RowAfter(h, es, n).Absent? ==>
              exists j :: 0 <= j < n && Counts(es, j) && es[j].ver == RowAfter(h, es, n).marker
    decreases n
  {
    if n > 0 {
      MarkerIsLeast(h, es, n - 1);
      MarkerNext(h, es, n - 1);
      var was, now := RowAfter(h, es, n - 1), RowAfter(h, es, n);
      if !was.Absent? && now.marker == was.marker {
        var j :| 0 <= j < n - 1 && Counts(es, j) && es[j].ver == was.marker;
        assert 0 <= j < n;
      }
    }
  }

  lemma {:induction false} UpsertedBefore(h: Handler, es: seq<Edit>, n: nat)
    requires Accepts(h, es) && n <= |es| && !DeletedBefore(es, n)
    ensures RowAfter(h, es, n).Absent? <==> forall i :: 0 <= i < n ==> !es[i].upsert
  {
    DeletedIffBefore(h, es, n);
    LiveIffSeen(h, es, n);
    if n > 0 { NoneSeenIff(es, n); }
  }

  lemma NoneSeenIff(es: seq<Edit>, n: nat)
    requires 0 < n <= |es|
    ensures Seen(es, n - 1) <==> exists i :: 0 <= i < n && es[i].upsert
  {}

  /** An upsert older than every edit that counted before it. */
  predicate Lowers(es: seq<Edit>, n: nat) {
    n < |es| && es[n].upsert && forall j :: 0 <= j < n && Counts(es, j) ==> es[n].ver < es[j].ver
  }

  /** What one edit after the first delete does to the tombstone. */
  lemma {:induction false} TombNext(h: Handler, es: seq<Edit>, n: nat)
    requires Accepts(h, es) && n < |es| && RowAfter(h, es, n).Tomb?
    ensures var was, now := RowAfter(h, es, n), RowAfter(h, es, n + 1);
            && now.Tomb? && now.deletedBy == was.deletedBy
            && now.addSeq == if Lowers(es, n) then Max(was.addSeq, es[n].addSeq) else was.addSeq
  {
    RowAfterNext(h, es, n);
    MarkerIsLeast(h, es, n);
  }

  lemma {:induction false} FirstDeleteRow(h: Handler, es: seq<Edit>, k: nat)
    requires Accepts(h, es) && FirstDelete(es, k)
    ensures var now := RowAfter(h, es, k + 1);
            now.Tomb? && now.deletedBy == es[k].ver && now.addSeq == es[k].addSeq
  {
    RowAfterNext(h, es, k);
    DeletedIffBefore(h, es, k);
  }

  /** The first delete stands: the tombstone names its version whatever follows,
      and carries the greatest AddSeq among it and the upserts that lowered the
      marker since. */
  lemma {:induction false} FirstDeleteStands(h: Handler, es: seq<Edit>, k: nat, n: nat) returns (j: nat)
    requires Accepts(h, es) && FirstDelete(es, k) && k < n <= |es|
    ensures RowAfter(h, es, n).Tomb? && RowAfter(h, es, n).deletedBy == es[k].ver
    ensures k <= j < n && (j == k || Lowers(es, j)) && es[j].addSeq == RowAfter(h, es, n).addSeq
    ensures forall i :: k <= i < n && (i == k || Lowers(es, i)) ==> es[i].addSeq <= RowAfter(h, es, n).addSeq
    decreases n
  {
    if n == k + 1 {
      FirstDeleteRow(h, es, k);
      j := k;
    } else {
      j := FirstDeleteStands(h, es, k, n - 1);
      TombNext(h, es, n - 1);
      var before := RowAfter(h, es, n - 1).addSeq;
      if Lowers(es, n - 1) && es[n - 1].addSeq > before { j := n - 1; }
    }
  }

  /** Apply sequences as the allocator hands them out. */
  predicate FreshApplySeqs(es: seq<Edit>) {
    forall i, j :: 0 <= i < j < |es| ==> es[i].applySeq < es[j].applySeq
  }

  lemma {:induction false} ApplySeqOfRow(h: Handler, es: seq<Edit>, n: nat)
    requires Accepts(h, es) && FreshApplySeqs(es) && n <= |es|
    ensures !RowAfter(h, es, n).Absent? ==> n > 0 && RowAfter(h, es, n).applySeq <= es[n - 1].applySeq
    decreases n
  {
    if n > 0 {
      ApplySeqOfRow(h, es, n - 1);
      RowAfterNext(h, es, n - 1);
    }
  }

  /** The edit at n changes the row and leaves it another `_applySeq`. */
  ghost predicate SilentAt(h: Handler, es: seq<Edit>, n: nat)
    requires SoundAll(es) && n < |es|
  {
    var was, now := RowAfter(h, es, n), RowAfter(h, es, n + 1);
    now != was && !now.Absent? && now.applySeq != es[n].applySeq
  }

  /** Over any run, an edit changes the record silently exactly when it is a
      plain upsert after a delete, older than everything that counted. */
  lemma {:induction false} SilentIff(h: Handler, es: seq<Edit>, n: nat)
    requires Accepts(h, es) && FreshApplySeqs(es) && n < |es|
    ensures SilentAt(h, es, n) <==>
            && PlainUpsert(es[n]) && DeletedBefore(es, n)
            && forall j :: 0 <= j < n && Counts(es, j) ==> es[n].ver < es[j].ver
  {
    RowAfterNext(h, es, n);
    ApplySeqOfRow(h, es, n);
    ChangeWithoutApplySeqIff(h, RowAfter(h, es, n), es[n]);
    DeletedIffBefore(h, es, n);
    MarkerIsLeast(h, es, n);
  }

  /** A delete, then an older upsert: the marker moves, the apply sequence does
      not. */
  lemma {:induction false} SilentExample(h: Handler)
    returns (delete: Edit, upsert: Edit)
    requires forall e :: h.onCreate(e) && h.onDelete(e)
    ensures Accepts(h, [delete, upsert]) && delete.applySeq < upsert.applySeq
    ensures var a, b := After(h, Absent, [delete]), After(h, Absent, [delete, upsert]);
            a.Tomb? && b.Tomb? && a.marker == 2 && b.marker == 1 && b.applySeq == a.applySeq != upsert.applySeq
  {
    delete, upsert := Edit(2, 1, 1, false, [Delete]), Edit(1, 2, 2, true, []);
    assert Delete in delete.ops;
    AfterOne(h, Absent, delete);
    AfterAppend(h, Absent, [delete], [upsert]);
    AfterOne(h, After(h, Absent, [delete]), upsert);
    assert [delete] + [upsert] == [delete, upsert];
  }
}
