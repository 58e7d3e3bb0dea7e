/** One record through `recordModifier.Modify`: creation, modification,
    sticky deletion and the creation marker. */
module Lifecycle {
  import opened Basics
  import opened Values
  import opened Versions
  import opened Gated
  import opened Histories

  /** The operations the apply path dispatches. The multi-field forms carry
      their payload's entries in visiting order. */
  datatype Op =
    | Set(path: Path, value: Value)
    | SetMany(entries: seq<(Path, Value)>)
    | Unset(path: Path)
    | UnsetMany(paths: seq<Path>)
    | Inc(path: Path, delta: int)
    | IncGated(path: Path, delta: int)
    | Delete

  /** One record edit of one change. */
  datatype Edit = Edit(ver: Version, addSeq: nat, applySeq: nat, upsert: bool, ops: seq<Op>)

  /** The stored record. A tombstone keeps no content: its `_ver` is the
      creation marker and the delete's version as the default. */
  datatype Row =
    | Absent
    | Live(doc: Doc, marker: Version, addSeq: nat, applySeq: nat)
    | Tomb(deletedBy: Version, marker: Version, addSeq: nat, applySeq: nat)

  datatype Rejection = StrictSkipAbsent | RecordDeleted | CreateRefused | DeleteRefused

  datatype Outcome = Outcome(row: Row, wrote: bool, rejection: Option<Rejection>)

  /** The dataset's hooks, as what they accept. */
  datatype Handler = Handler(onCreate: Edit -> bool, onModify: Op -> bool, onDelete: Edit -> bool)

  predicate HasDelete(ops: seq<Op>) {
    exists op :: op in ops && op.Delete?
  }

  /** Every path an op names is one an op may name. */
  predicate Named(op: Op) {
    match op
    case Set(p, _) => Nameable(p)
    case SetMany(es) => forall e :: e in es ==> Nameable(e.0)
    case Unset(p) => Nameable(p)
    case UnsetMany(ps) => forall p :: p in ps ==> Nameable(p)
    case Inc(p, _) => Nameable(p)
    case IncGated(p, _) => Nameable(p)
    case Delete => true
  }

  predicate NamedAll(ops: seq<Op>) {
    forall op :: op in ops ==> Named(op)
  }

  /** An edit as the content gate lets it through, at a real version. */
  predicate Sound(e: Edit) {
    e.ver > 0 && NamedAll(e.ops)
  }

  // ---------------------------------------------------------- applying ops

  predicate ProperSeq(ws: seq<Write>) {
    forall w :: w in ws ==> Nameable(w.path) && w.ver > 0
  }

  /** The gated writes a `$set` or `$unset` stands for; a counter makes none. */
  function WritesOf(op: Op, v: Version): (r: seq<Write>)
    ensures Named(op) && v > 0 ==> ProperSeq(r)
  {
    match op
    case Set(p, x) => [Write(p, Some(x), v)]
    case SetMany(es) => seq(|es|, i requires 0 <= i < |es| => Write(es[i].0, Some(es[i].1), v))
    case Unset(p) => [Write(p, None, v)]
    case UnsetMany(ps) =>
      assert forall i :: 0 <= i < |ps| ==> ps[i] in ps;
      seq(|ps|, i requires 0 <= i < |ps| => Write(ps[i], None, v))
    case Inc(_, _) => []
    case IncGated(_, _) => []
    case Delete => []
  }

  function PutAll(d: Doc, ws: seq<Write>): (r: Doc)
    requires d.ver.Split? && ProperSeq(ws)
    ensures r.ver.Split?
    decreases |ws|
  {
    if ws == [] then d
    else
      var r := PutAll(d, ws[..|ws| - 1]);
      Put(r, ws[|ws| - 1].path, ws[|ws| - 1].val, ws[|ws| - 1].ver)
  }

  ghost function ApplyOp(d: Doc, op: Op, v: Version): (r: Doc)
    requires d.ver.Split? && Named(op) && v > 0
    ensures r.ver.Split?
  {
    match op
    case Inc(p, delta) => Increment(d, p, delta, v)
    case IncGated(p, delta) => IncrementGated(d, p, delta, v)
    case _ => PutAll(d, WritesOf(op, v))
  }

  ghost function ApplyOps(d: Doc, ops: seq<Op>, v: Version): (r: Doc)
    requires d.ver.Split? && NamedAll(ops) && v > 0
    ensures r.ver.Split?
    decreases |ops|
  {
    if ops == [] then d
    else ApplyOp(ApplyOps(d, ops[..|ops| - 1], v), ops[|ops| - 1], v)
  }

  /** What a handler lets through of one op on an existing record: the whole
      op, or the keys of a multi-field op it accepts one by one. */
  function Admitted(h: Handler, op: Op): (r: seq<Op>)
    ensures Named(op) ==> NamedAll(r)
  {
    if h.onModify(op) then [op]
    else match op
      case SetMany(es) =>
        var kept := Filter(es, (e: (Path, Value)) => h.onModify(Set(e.0, e.1)));
        if kept == [] then [] else [SetMany(kept)]
      case UnsetMany(ps) =>
        var kept := Filter(ps, p => h.onModify(Unset(p)));
        if kept == [] then [] else [UnsetMany(kept)]
      case _ => []
  }

  function Filter<T(!new)>(xs: seq<T>, keep: T -> bool): (ys: seq<T>)
    ensures forall y :: y in ys <==> y in xs && keep(y)
  {
    if xs == [] then []
    else
      var ys := Filter(xs[..|xs| - 1], keep);
      if keep(xs[|xs| - 1]) then ys + [xs[|xs| - 1]] else ys
  }

  function AdmittedAll(h: Handler, ops: seq<Op>): (r: seq<Op>)
    ensures NamedAll(ops) ==> NamedAll(r)
  {
    if ops == [] then []
    else
      var before := AdmittedAll(h, ops[..|ops| - 1]);
      var last := Admitted(h, ops[|ops| - 1]);
      assert forall op :: op in before + last <==> op in before || op in last;
      before + last
  }

  // ------------------------------------------------------------- the modifier

  /** `compactVersions`, run once at the end of an edit. */
  function Tidied(d: Doc): (r: Doc)
    requires d.ver.Split?
    ensures r.ver.Split?
  {
    d.(ver := Compact(d.ver))
  }

  /** `stampAddSeq` and `stampApplySeq`: zero stamps nothing, a stamp only
      rises. */
  function Stamped(cur: nat, stamp: nat): nat {
    Max(cur, stamp)
  }

  function Lowered(marker: Version, v: Version): Version {
    Min(marker, v)
  }

  function MarkerOf(row: Row, v: Version): Version {
    if row.Absent? then v else row.marker
  }

  /** What one edit does to a row. */
  ghost function Modify(h: Handler, row: Row, e: Edit): Outcome
    requires Sound(e) && (row.Live? ==> row.doc.ver.Split?)
  {
    if HasDelete(e.ops) then
      if row.Tomb? then
        if e.upsert && e.ver < row.marker then
          Outcome(Tomb(row.deletedBy, e.ver, Stamped(row.addSeq, e.addSeq), Stamped(row.applySeq, e.applySeq)),
                  false, None)
        else Outcome(row, false, None)
      else if !h.onDelete(e) then Outcome(row, false, Some(DeleteRefused))
      else Outcome(Tomb(e.ver, MarkerOf(row, e.ver), e.addSeq, e.applySeq), true, None)
    else match row
      case Absent =>
        if !e.upsert then Outcome(row, false, Some(StrictSkipAbsent))
        else if !h.onCreate(e) then Outcome(row, false, Some(CreateRefused))
        else
          Outcome(Live(Tidied(ApplyOps(EMPTY, e.ops, e.ver)), e.ver, e.addSeq, e.applySeq), true, None)
      case Tomb(_, _, _, _) =>
        // The marker may still be lowered, and then only _addSeq is stamped.
        if e.upsert && e.ver < row.marker then
          Outcome(Tomb(row.deletedBy, e.ver, Stamped(row.addSeq, e.addSeq), row.applySeq), false, Some(RecordDeleted))
        else Outcome(row, false, Some(RecordDeleted))
      case Live(doc, marker, addSeq, applySeq) =>
        var admitted := AdmittedAll(h, e.ops);
        Outcome(Live(Tidied(ApplyOps(doc, admitted, e.ver)), if e.upsert then Lowered(marker, e.ver) else marker,
                     Stamped(addSeq, e.addSeq), Stamped(applySeq, e.applySeq)), admitted != [], None)
  }

  /** A run of gated writes on the record held, one after the other. */
  method RunWrites(rec: Record, ws: seq<Write>)
    requires rec.ver.Split? && ProperSeq(ws)
    modifies rec
    ensures rec.ver.Split? && rec.Contents() == PutAll(old(rec.Contents()), ws)
  {
    for i := 0 to |ws|
      invariant rec.ver.Split?
      invariant rec.Contents() == PutAll(old(rec.Contents()), ws[..i])
    {
      var w := ws[i];
      assert ws[..i + 1][..i] == ws[..i] && w in ws;
      match w.val {
        case Some(x) => rec.GatedSet(w.ver, w.path, x);
        case None => rec.GatedUnset(w.ver, w.path);
      }
    }
    assert ws[..|ws|] == ws;
  }

  /** `applyOp`. */
  method RunOp(rec: Record, op: Op, v: Version)
    requires rec.ver.Split? && Named(op) && v > 0
    modifies rec
    ensures rec.ver.Split? && rec.Contents() == ApplyOp(old(rec.Contents()), op, v)
  {
    match op {
      case Inc(p, delta) => rec.Inc(v, p, delta);
      case IncGated(p, delta) => rec.IncGated(v, p, delta);
      case _ => RunWrites(rec, WritesOf(op, v));
    }
  }

  /** The ops of one edit, applied in place and compacted once at the end. */
  method RunOps(d: Doc, ops: seq<Op>, v: Version) returns (r: Doc)
    requires d.ver.Split? && NamedAll(ops) && v > 0
    ensures r == Tidied(ApplyOps(d, ops, v))
    ensures r.ver.Split?
  {
    var rec := new Record(d);
    for i := 0 to |ops|
      invariant rec.ver.Split?
      invariant rec.Contents() == ApplyOps(d, ops[..i], v)
    {
      assert ops[..i + 1][..i] == ops[..i] && ops[i] in ops;
      RunOp(rec, ops[i], v);
    }
    assert ops[..|ops|] == ops;
    r := Doc(rec.fields, Compact(rec.ver));
  }

  /** A dataset's collection: one row per record id. */
  class Collection {
    var rows: map<string, Row>

    ghost predicate Valid()
      reads this
    {
      forall id :: id in rows ==> !rows[id].Absent? && (rows[id].Live? ==> rows[id].doc.ver.Split?)
    }

    ghost function RowAt(id: string): Row
      reads this
    {
      if id in rows then rows[id] else Absent
    }

    constructor ()
      ensures Valid() && rows == map[]
    {
      rows := map[];
    }

    /** `applyRecordChange`: upserts and deletes go through UpsertId, anything
        else through UpdateId, which fails on an absent record. */
    method ApplyRecordChange(h: Handler, id: string, e: Edit) returns (wrote: bool, rejection: Option<Rejection>)
      requires Valid() && Sound(e)
      modifies this
      ensures Valid()
      ensures RowAt(id) == Modify(h, old(RowAt(id)), e).row
      ensures wrote == Modify(h, old(RowAt(id)), e).wrote
      ensures rejection == Modify(h, old(RowAt(id)), e).rejection
      ensures forall other :: other != id ==> RowAt(other) == old(RowAt(other))
    {
      var existing := if id in rows then rows[id] else Absent;
      var row := existing;
      wrote, rejection := false, None;
      if HasDelete(e.ops) {
        if existing.Tomb? {
          if e.upsert && e.ver < existing.marker {
            row := Tomb(existing.deletedBy, e.ver, Stamped(existing.addSeq, e.addSeq),
                        Stamped(existing.applySeq, e.applySeq));
          }
        } else if !h.onDelete(e) {
          rejection := Some(DeleteRefused);
        } else {
          row, wrote := Tomb(e.ver, MarkerOf(existing, e.ver), e.addSeq, e.applySeq), true;
        }
      } else {
        match existing {
          case Absent =>
            if !e.upsert {
              rejection := Some(StrictSkipAbsent);
            } else if !h.onCreate(e) {
              rejection := Some(CreateRefused);
            } else {
              var d := RunOps(EMPTY, e.ops, e.ver);
              row, wrote := Live(d, e.ver, e.addSeq, e.applySeq), true;
            }
          case Tomb(deletedBy, marker, addSeq, applySeq) =>
            rejection := Some(RecordDeleted);
            if e.upsert && e.ver < marker {
              row := Tomb(deletedBy, e.ver, Stamped(addSeq, e.addSeq), applySeq);
            }
          case Live(doc, marker, addSeq, applySeq) =>
            var admitted := AdmittedAll(h, e.ops);
            var d := RunOps(doc, admitted, e.ver);
            row := Live(d, if e.upsert then Lowered(marker, e.ver) else marker,
                        Stamped(addSeq, e.addSeq), Stamped(applySeq, e.applySeq));
            wrote := admitted != [];
        }
      }
      if !row.Absent? { rows := rows[id := row]; }
    }
  }
}
