/** Live records: the edits delivered to one are a history of gated writes, so
    what the histories converge to is what the records converge to. */
module LiveRecords {
  import opened Basics
  import opened Values
  import opened Versions
  import opened Gated
  import opened Histories
  import opened Convergence
  import opened Lifecycle
  import opened Deletion

  /** The handler lets an edit through whole. */
  ghost predicate Accepting(h: Handler, e: Edit) {
    h.onCreate(e) && h.onDelete(e) && forall op :: op in e.ops ==> h.onModify(op)
  }

  ghost predicate AcceptsAll(h: Handler, es: seq<Edit>) {
    forall e :: e in es ==> Accepting(h, e)
  }

  /** A set or an unset. */
  predicate PlainOp(op: Op) {
    op.Set? || op.SetMany? || op.Unset? || op.UnsetMany?
  }

  predicate Plain(ops: seq<Op>) {
    forall op :: op in ops ==> PlainOp(op)
  }

  ghost predicate PlainEdits(es: seq<Edit>) {
    forall e :: e in es ==> Plain(e.ops)
  }

  /** The gated writes of some ops, in the order they are applied. */
  function OpEvents(ops: seq<Op>, v: Version): (r: seq<Event>)
    requires NamedAll(ops) && v > 0
    ensures Proper(r)
    decreases |ops|
  {
    if ops == [] then []
    else
      var ws := WritesOf(ops[|ops| - 1], v);
      assert ops[|ops| - 1] in ops;
      OpEvents(ops[..|ops| - 1], v) + Deliver(ws)
  }

  /** The history a run of edits delivers. */
  function History(es: seq<Edit>): (r: seq<Event>)
    requires SoundAll(es)
    ensures Proper(r)
    decreases |es|
  {
    if es == [] then []
    else
      var e := es[|es| - 1];
      assert e in es;
      History(es[..|es| - 1]) + OpEvents(e.ops, e.ver) + [Tidy]
  }

  lemma DeliverLast(es: seq<Event>, ws: seq<Write>)
    requires ws != []
    ensures es + Deliver(ws) == es + Deliver(ws[..|ws| - 1]) + [Apply(ws[|ws| - 1])]
  {}

  lemma {:induction false} RunDeliver(es: seq<Event>, ws: seq<Write>)
    requires Proper(es) && ProperSeq(ws)
    ensures Proper(es + Deliver(ws)) && Run(es + Deliver(ws)) == PutAll(Run(es), ws)
    decreases |ws|
  {
    if ws == [] {
      assert es + Deliver(ws) == es;
    } else {
      var n := |ws| - 1;
      RunDeliver(es, ws[..n]);
      assert ws[n] in ws;
      DeliverLast(es, ws);
      RunAppend(es + Deliver(ws[..n]), Apply(ws[n]));
    }
  }

  lemma {:induction false} RunLast(es: seq<Event>, before: seq<Event>, ws: seq<Write>)
    requires Proper(es) && Proper(before) && ProperSeq(ws)
    ensures Proper(es + before) && Proper(es + (before + Deliver(ws)))
    ensures Run(es + (before + Deliver(ws))) == PutAll(Run(es + before), ws)
  {
    ProperJoin(es, before);
    Regroup(es, before, Deliver(ws));
    RunDeliver(es + before, ws);
  }

  lemma Regroup(a: seq<Event>, b: seq<Event>, c: seq<Event>)
    ensures a + (b + c) == a + b + c
  {}

  lemma ProperJoin(a: seq<Event>, b: seq<Event>)
    requires Proper(a) && Proper(b)
    ensures Proper(a + b)
  {}

  lemma {:induction false} RunOpEvents(es: seq<Event>, ops: seq<Op>, v: Version)
    requires Proper(es) && NamedAll(ops) && Plain(ops) && v > 0
    ensures Run(es + OpEvents(ops, v)) == ApplyOps(Run(es), ops, v)
    decreases |ops|
  {
    if ops == [] {
      assert es + OpEvents(ops, v) == es;
    } else {
      var init, op := ops[..|ops| - 1], ops[|ops| - 1];
      assert op in ops;
      RunOpEvents(es, init, v);
      RunLast(es, OpEvents(init, v), WritesOf(op, v));
    }
  }

  lemma AdmittedWhole(h: Handler, op: Op)
    requires h.onModify(op)
    ensures Admitted(h, op) == [op]
  {}

  /** A handler that accepts every op of an edit leaves the edit as it is. */
  lemma {:induction false} AllAdmitted(h: Handler, ops: seq<Op>)
    requires forall op :: op in ops ==> h.onModify(op)
    ensures AdmittedAll(h, ops) == ops
    decreases |ops|
  {
    if ops != [] {
      var init, op := ops[..|ops| - 1], ops[|ops| - 1];
      assert ops == init + [op] && op in ops;
      assert forall o :: o in init ==> o in ops;
      AllAdmitted(h, init);
      AdmittedWhole(h, op);
    }
  }

  lemma {:induction false} RunEdit(es: seq<Event>, e: Edit)
    requires Proper(es) && Sound(e) && Plain(e.ops)
    ensures Proper(es + OpEvents(e.ops, e.ver) + [Tidy])
    ensures Run(es + OpEvents(e.ops, e.ver) + [Tidy]) == Tidied(ApplyOps(Run(es), e.ops, e.ver))
  {
    RunOpEvents(es, e.ops, e.ver);
    RunAppend(es + OpEvents(e.ops, e.ver), Tidy);
  }

  lemma {:induction false} LastEdit(h: Handler, row: Row, es: seq<Event>, e: Edit)
    requires Proper(es) && Sound(e) && Plain(e.ops) && Accepting(h, e)
    requires (row.Live? && row.doc == Run(es)) || (row.Absent? && e.upsert && es == [])
    ensures RowSound(row) && Modify(h, row, e).row.Live?
    ensures Modify(h, row, e).row.doc == Run(es + OpEvents(e.ops, e.ver) + [Tidy])
  {
    RunEdit(es, e);
    if row.Live? { AllAdmitted(h, e.ops); }
  }

  /** Created first and never deleted, a record holds exactly what its history
      of writes leaves. */
  lemma {:induction false} LiveRecordIsARun(h: Handler, es: seq<Edit>)
    requires SoundAll(es) && PlainEdits(es) && AcceptsAll(h, es) && es != [] && es[0].upsert
    ensures After(h, Absent, es).Live? && After(h, Absent, es).doc == Run(History(es))
    decreases |es|
  {
    var init, e := es[..|es| - 1], es[|es| - 1];
    assert e in es;
    if init != [] {
      LiveRecordIsARun(h, init);
    } else {
      assert History(init) == [];
    }
    LastEdit(h, After(h, Absent, init), History(init), e);
  }

  // ------------------------------------------------- the writes of some edits

  ghost predicate Makes(ops: seq<Op>, v: Version, w: Write) {
    exists op :: op in ops && w in WritesOf(op, v)
  }

  ghost predicate Wrote(e: Edit, w: Write) {
    Makes(e.ops, e.ver, w)
  }

  lemma InConcat<T>(xs: seq<T>, ys: seq<T>, x: T)
    ensures x in xs + ys <==> x in xs || x in ys
  {}

  lemma InDelivered(ws: seq<Write>, w: Write)
    ensures Apply(w) in Deliver(ws) <==> w in ws
  {
    DeliverWrites(ws);
    assert Apply(w) in Deliver(ws) <==> w in Writes(Deliver(ws));
  }

  lemma MakesLast(init: seq<Op>, op: Op, v: Version, w: Write)
    ensures Makes(init + [op], v, w) <==> Makes(init, v, w) || w in WritesOf(op, v)
  {
    assert forall o :: o in init + [op] <==> o in init || o == op;
  }

  lemma {:induction false} OpEventsLast(init: seq<Op>, op: Op, v: Version)
    requires NamedAll(init + [op]) && v > 0
    ensures Named(op) && NamedAll(init)
    ensures OpEvents(init + [op], v) == OpEvents(init, v) + Deliver(WritesOf(op, v))
  {
    assert forall o :: o in init + [op] <==> o in init || o == op;
    assert (init + [op])[..|init|] == init;
  }

  lemma {:induction false} OpEventsWrites(ops: seq<Op>, v: Version, w: Write)
    requires NamedAll(ops) && v > 0
    ensures Apply(w) in OpEvents(ops, v) <==> Makes(ops, v, w)
    decreases |ops|
  {
    if ops != [] {
      var init, op := ops[..|ops| - 1], ops[|ops| - 1];
      assert ops == init + [op];
      OpEventsLast(init, op, v);
      MakesLast(init, op, v, w);
      OpEventsWrites(init, v, w);
      InConcat(OpEvents(init, v), Deliver(WritesOf(op, v)), Apply(w));
      InDelivered(WritesOf(op, v), w);
    }
  }

  ghost predicate SomeWrote(es: seq<Edit>, w: Write) {
    exists e :: e in es && Wrote(e, w)
  }

  lemma SomeWroteLast(init: seq<Edit>, e: Edit, w: Write)
    ensures SomeWrote(init + [e], w) <==> SomeWrote(init, w) || Wrote(e, w)
  {
    assert forall f :: f in init + [e] <==> f in init || f == e;
  }

  lemma {:induction false} HistoryLast(init: seq<Edit>, e: Edit)
    requires SoundAll(init + [e])
    ensures SoundAll(init) && Sound(e)
    ensures History(init + [e]) == History(init) + OpEvents(e.ops, e.ver) + [Tidy]
  {
    assert forall f :: f in init + [e] <==> f in init || f == e;
    assert (init + [e])[..|init|] == init;
  }

  lemma {:induction false} HistoryWrites(es: seq<Edit>, w: Write)
    requires SoundAll(es)
    ensures Apply(w) in History(es) <==> SomeWrote(es, w)
    decreases |es|
  {
    if es != [] {
      var init, e := es[..|es| - 1], es[|es| - 1];
      assert es == init + [e];
      HistoryLast(init, e);
      SomeWroteLast(init, e, w);
      HistoryWrites(init, w);
      OpEventsWrites(e.ops, e.ver, w);
      InConcat(History(init), OpEvents(e.ops, e.ver), Apply(w));
      InConcat(History(init) + OpEvents(e.ops, e.ver), [Tidy], Apply(w));
    }
  }

  lemma SameEditsSameWrites(a: seq<Edit>, b: seq<Edit>)
    requires SoundAll(a) && SoundAll(b) && SameEdits(a, b)
    ensures Writes(History(a)) == Writes(History(b))
  {
    forall w: Write
      ensures w in Writes(History(a)) <==> w in Writes(History(b))
    {
      HistoryWrites(a, w);
      HistoryWrites(b, w);
      assert w in Writes(History(a)) <==> Apply(w) in History(a);
      assert w in Writes(History(b)) <==> Apply(w) in History(b);
    }
  }

  // --------------------------------------------------------------- convergence

  ghost predicate Creating(es: seq<Edit>) {
    es != [] && es[0].upsert
  }

  /** Live records that received the same edits agree on every version lookup,
      on the marker, and, when the edits only set and no order drops a key `*`,
      on the whole content. With unsets they agree up to empty objects, unless a
      write puts a scalar above a path another one names or some order drops
      one. */
  lemma LiveRecordsConverge(h: Handler, a: seq<Edit>, b: seq<Edit>)
    requires SoundAll(a) && SoundAll(b) && PlainEdits(a) && PlainEdits(b) && AcceptsAll(h, a) && AcceptsAll(h, b)
    requires Creating(a) && Creating(b) && SameEdits(a, b) && Separated(Writes(History(a)))
    ensures After(h, Absent, a).Live? && After(h, Absent, b).Live?
    ensures After(h, Absent, a).marker == After(h, Absent, b).marker
    ensures forall q :: Ev(After(h, Absent, a).doc.ver, q) == Ev(After(h, Absent, b).doc.ver, q)
    ensures OnlySets(Writes(History(a))) && NothingLost(Writes(History(a))) ==>
              After(h, Absent, a).doc.fields == After(h, Absent, b).doc.fields
    ensures NoScalarAbove(Writes(History(a))) && NoLeafLost(Writes(History(a))) ==>
              Pruned(Object(After(h, Absent, a).doc.fields)) == Pruned(Object(After(h, Absent, b).doc.fields))
  {
    LiveRecordIsARun(h, a);
    LiveRecordIsARun(h, b);
    SameEditsSameWrites(a, b);
    MarkersAgree(h, a, b);
    var x, y := History(a), History(b);
    forall q: Path
      ensures Ev(Run(x).ver, q) == Ev(Run(y).ver, q)
    {
      VersionsConverge(x, y, q);
    }
    if OnlySets(Writes(x)) && NothingLost(Writes(x)) { SetsConverge(x, y); }
    if NoScalarAbove(Writes(x)) && NoLeafLost(Writes(x)) { PrunedConverge(x, y); }
  }

  lemma MarkersAgree(h: Handler, a: seq<Edit>, b: seq<Edit>)
    requires SoundAll(a) && SoundAll(b) && PlainEdits(a) && PlainEdits(b) && AcceptsAll(h, a) && AcceptsAll(h, b)
    requires Creating(a) && Creating(b) && SameEdits(a, b)
    ensures !After(h, Absent, a).Absent? && !After(h, Absent, b).Absent?
    ensures After(h, Absent, a).marker == After(h, Absent, b).marker
  {
    MarkerBounds(h, a);
    MarkerBounds(h, b);
    assert Creates(a[0]) && a[0] in a && Creates(b[0]) && b[0] in b;
    assert forall e :: e in a ==> !HasDelete(e.ops);
  }
}
