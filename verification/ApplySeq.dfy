/** The per-space apply sequence: allocation inside the write transaction,
    per-object watermarks, purges, re-index resets, crashes, and the consumer
    that pages the change index. The database is a set of persisted maps with
    atomic transactions; the allocator and the controllers are volatile. */
module ApplySeq {
  import opened Basics

  type ObjectId = string

  /** A record of one object in one of its datasets. */
  datatype RecordKey = RecordKey(owner: ObjectId, dataset: string, id: string)

  /** The space-wide collection that holds one row per object. */
  const OBJECTS := "objects"

  /** An object's `_meta` row. */
  datatype Meta = Meta(addSeq: nat, applySeq: nat, deleted: bool)

  /** A controller's in-memory mirrors. */
  datatype Mirrors = Mirrors(maxAddSeq: nat, maxApplySeq: nat)

  /** `marks` are the sequences the objects' read-state rows carry. */
  datatype Space = Space(
    meta: map<ObjectId, Meta>, stamps: map<RecordKey, nat>, marks: map<ObjectId, nat>,
    last: nat, seeded: bool, ctrls: map<ObjectId, Mirrors>)

  const EMPTY_SPACE := Space(map[], map[], map[], 0, false, map[])

  datatype Event =
    | Load(o: ObjectId)
    | Evict(o: ObjectId)
    | Commit(o: ObjectId, addSeq: nat, wrote: set<RecordKey>)
    | Rollback
    | MarkRead(o: ObjectId)
    | SeedNow
    | Purge(o: ObjectId)
    | Drop(gone: set<RecordKey>)
    | Reset(o: ObjectId)
    | Finish(o: ObjectId)
    | Crash

  // ------------------------------------------------------------- the allocator

  ghost function PersistedSeqs(s: Space): set<nat> {
    (set o | o in s.meta :: s.meta[o].applySeq) + (set id | id in s.marks :: s.marks[id])
  }

  /** `seedApplySeq`: the greatest apply sequence on disk. */
  ghost function SeedOf(s: Space): nat {
    SetMax(PersistedSeqs(s))
  }

  /** `Seed`. */
  ghost function Primed(s: Space): Space {
    if s.seeded then s else s.(last := SeedOf(s), seeded := true)
  }

  /** The sequence `Next` hands out. */
  ghost function NextSeq(s: Space): nat {
    Primed(s).last + 1
  }

  ghost function Allocated(s: Space): Space {
    Primed(s).(last := NextSeq(s))
  }

  // ------------------------------------------------------------- the meta rows

  function MetaOf(s: Space, o: ObjectId): Meta {
    if o in s.meta then s.meta[o] else Meta(0, 0, false)
  }

  /** `persistMeta`: the AddSeq watermark is set, the apply sequence only moves
      up, and the purge mark is left alone. */
  function Persisted(s: Space, o: ObjectId, addSeq: nat, applySeq: nat): Space {
    var row := MetaOf(s, o);
    s.(meta := s.meta[o := Meta(addSeq, Max(row.applySeq, applySeq), row.deleted)])
  }

  function Stamp(s: Space, wrote: set<RecordKey>, seqNo: nat): map<RecordKey, nat> {
    map k | k in s.stamps.Keys + wrote ::
      if k in wrote then Max(if k in s.stamps then s.stamps[k] else 0, seqNo) else s.stamps[k]
  }

  predicate OwnedBy(ks: set<RecordKey>, o: ObjectId) {
    forall k :: k in ks ==> k.owner == o
  }

  /** One atomic step. An event that does not apply leaves the space as it is. */
  ghost function Step(s: Space, e: Event): Space {
    match e
    case Load(o) =>
      if o in s.ctrls then s
      else s.(ctrls := s.ctrls[o := Mirrors(MetaOf(s, o).addSeq, MetaOf(s, o).applySeq)])
    case Evict(o) => s.(ctrls := s.ctrls - {o})
    case Commit(o, addSeq, wrote) =>
      if o !in s.ctrls || !OwnedBy(wrote, o) then s
      else
        var q := Max(s.ctrls[o].maxAddSeq, addSeq);
        var n := Max(s.ctrls[o].maxApplySeq, NextSeq(s));
        var t := Persisted(Allocated(s), o, q, n);
        t.(stamps := Stamp(s, wrote, NextSeq(s)), ctrls := t.ctrls[o := Mirrors(q, n)])
    case Rollback => Allocated(s)
    case MarkRead(o) => Allocated(s).(marks := s.marks[o := NextSeq(s)])
    case SeedNow => Primed(s)
    case Purge(o) =>
      var u := Unmarked(s, o);
      if Announces(s, o) then
        Allocated(u).(stamps := s.stamps - {RecordKey(o, OBJECTS, o)},
                      meta := s.meta[o := MetaOf(s, o).(applySeq := NextSeq(u), deleted := true)])
      else u
    case Drop(gone) => s.(stamps := s.stamps - gone)
    case Reset(o) =>
      if o !in s.ctrls then s
      else
        var t := Persisted(s, o, 0, s.ctrls[o].maxApplySeq);
        t.(ctrls := t.ctrls[o := s.ctrls[o].(maxAddSeq := 0)])
    case Finish(o) =>
      if o !in s.ctrls then s
      else Persisted(s, o, s.ctrls[o].maxAddSeq, s.ctrls[o].maxApplySeq)
    case Crash => s.(last := 0, seeded := false, ctrls := map[])
  }

  /** A purge takes the object's read-state row first, announced or not. */
  function Unmarked(s: Space, o: ObjectId): Space {
    s.(marks := s.marks - {o})
  }

  /** A purge is announced for an object that was ever materialized here. */
  predicate Announces(s: Space, o: ObjectId) {
    RecordKey(o, OBJECTS, o) in s.stamps || o in s.meta
  }

  // --------------------------------------------------------------- invariants

  ghost predicate AllocatorAhead(s: Space) {
    s.seeded ==> forall n :: n in PersistedSeqs(s) ==> n <= s.last
  }

  ghost predicate StampsCovered(s: Space) {
    forall k :: k in s.stamps ==> k.owner in s.meta && s.stamps[k] <= s.meta[k.owner].applySeq
  }

  ghost predicate MirrorsCover(s: Space) {
    && (forall o :: o in s.ctrls ==> s.ctrls[o].maxApplySeq <= MetaOf(s, o).applySeq)
    && (forall k :: k in s.stamps && k.owner in s.ctrls ==> s.stamps[k] <= s.ctrls[k.owner].maxApplySeq)
  }

  ghost predicate DistinctSeqs(s: Space) {
    forall o, p :: o in s.meta && p in s.meta && o != p && s.meta[o].applySeq > 0 ==>
                     s.meta[o].applySeq != s.meta[p].applySeq
  }

  ghost predicate Inv(s: Space) {
    AllocatorAhead(s) && StampsCovered(s) && MirrorsCover(s) && DistinctSeqs(s)
  }

  lemma SeedBounds(s: Space)
    ensures forall n :: n in PersistedSeqs(s) ==> n <= SeedOf(s)
  {}

  /** A sequence handed out exceeds every one on disk: watermarks, read marks
      and record stamps. */
  lemma FreshSeq(s: Space)
    requires Inv(s)
    ensures forall o :: o in s.meta ==> s.meta[o].applySeq < NextSeq(s)
    ensures forall id :: id in s.marks ==> s.marks[id] < NextSeq(s)
    ensures forall k :: k in s.stamps ==> s.stamps[k] < NextSeq(s)
    ensures forall o :: o in s.ctrls ==> s.ctrls[o].maxApplySeq < NextSeq(s)
  {
    SeedBounds(s);
    forall o | o in s.meta
      ensures s.meta[o].applySeq < NextSeq(s)
    {
      assert s.meta[o].applySeq in PersistedSeqs(s);
    }
    forall id | id in s.marks
      ensures s.marks[id] < NextSeq(s)
    {
      assert s.marks[id] in PersistedSeqs(s);
    }
  }

  lemma AheadAfter(s: Space, t: Space)
    requires Inv(s) && t.seeded && t.last == NextSeq(s)
    requires forall o :: o in t.meta ==> t.meta[o].applySeq <= NextSeq(s)
    requires forall id :: id in t.marks ==> t.marks[id] <= NextSeq(s)
    ensures AllocatorAhead(t)
  {}

  lemma CommitRows(s: Space, o: ObjectId, addSeq: nat, wrote: set<RecordKey>)
    requires Inv(s) && o in s.ctrls && OwnedBy(wrote, o)
    ensures var t := Step(s, Commit(o, addSeq, wrote));
            && t.meta == s.meta[o := Meta(Max(s.ctrls[o].maxAddSeq, addSeq), NextSeq(s), MetaOf(s, o).deleted)]
            && t.ctrls == s.ctrls[o := Mirrors(Max(s.ctrls[o].maxAddSeq, addSeq), NextSeq(s))]
            && t.marks == s.marks && t.seeded && t.last == NextSeq(s)
  {
    FreshSeq(s);
  }

  lemma CommitStamps(s: Space, wrote: set<RecordKey>, k: RecordKey)
    requires Inv(s) && k in Stamp(s, wrote, NextSeq(s))
    ensures k in wrote ==> Stamp(s, wrote, NextSeq(s))[k] == NextSeq(s)
    ensures k !in wrote ==> k in s.stamps && Stamp(s, wrote, NextSeq(s))[k] == s.stamps[k] < NextSeq(s)
  {
    FreshSeq(s);
  }

  lemma CommitKeeps(s: Space, o: ObjectId, addSeq: nat, wrote: set<RecordKey>)
    requires Inv(s) && o in s.ctrls && OwnedBy(wrote, o)
    ensures Inv(Step(s, Commit(o, addSeq, wrote)))
  {
    var t := Step(s, Commit(o, addSeq, wrote));
    CommitRows(s, o, addSeq, wrote);
    FreshSeq(s);
    AheadAfter(s, t);
    forall k | k in t.stamps
      ensures k.owner in t.meta && t.stamps[k] <= t.meta[k.owner].applySeq
      ensures k.owner in t.ctrls ==> t.stamps[k] <= t.ctrls[k.owner].maxApplySeq
    {
      CommitStamps(s, wrote, k);
    }
  }

  lemma UnmarkedKeeps(s: Space, o: ObjectId)
    requires Inv(s)
    ensures Inv(Unmarked(s, o)) && NextSeq(Unmarked(s, o)) <= NextSeq(s)
    ensures s.seeded ==> NextSeq(Unmarked(s, o)) == NextSeq(s)
  {
    assert PersistedSeqs(Unmarked(s, o)) <= PersistedSeqs(s);
    SeedBounds(s);
  }

  lemma PurgeRows(s: Space, o: ObjectId)
    requires Inv(s) && Announces(s, o)
    ensures var u, t := Unmarked(s, o), Step(s, Purge(o));
            && t.meta == s.meta[o := Meta(MetaOf(s, o).addSeq, NextSeq(u), true)]
            && t.stamps == s.stamps - {RecordKey(o, OBJECTS, o)} && t.marks == u.marks && t.ctrls == s.ctrls
            && t.seeded && t.last == NextSeq(u)
  {}

  lemma PurgeKeeps(s: Space, o: ObjectId)
    requires Inv(s)
    ensures Inv(Step(s, Purge(o)))
  {
    UnmarkedKeeps(s, o);
    if Announces(s, o) {
      PurgeRows(s, o);
      AnnouncedKeeps(Unmarked(s, o), o, Step(s, Purge(o)));
    }
  }

  lemma AnnouncedKeeps(u: Space, o: ObjectId, t: Space)
    requires Inv(u) && t.ctrls == u.ctrls && t.marks == u.marks && t.seeded && t.last == NextSeq(u)
    requires t.meta == u.meta[o := Meta(MetaOf(u, o).addSeq, NextSeq(u), true)]
    requires t.stamps == u.stamps - {RecordKey(o, OBJECTS, o)}
    ensures Inv(t)
  {
    FreshSeq(u);
    AheadAfter(u, t);
  }

  lemma ReindexKeeps(s: Space, o: ObjectId, e: Event)
    requires Inv(s) && o in s.ctrls && e in {Reset(o), Finish(o)}
    ensures Inv(Step(s, e))
    ensures MetaOf(Step(s, e), o).applySeq == MetaOf(s, o).applySeq
  {
    var t := Step(s, e);
    assert MetaOf(t, o).applySeq == MetaOf(s, o).applySeq;
    if s.seeded {
      forall n | n in PersistedSeqs(t)
        ensures n <= s.last
      {
        if p :| p in t.meta && n == t.meta[p].applySeq {
          assert p in s.meta ==> s.meta[p].applySeq in PersistedSeqs(s);
        } else {
          assert n in PersistedSeqs(s);
        }
      }
    }
  }

  lemma AllocationKeeps(s: Space, e: Event)
    requires Inv(s) && (e.Rollback? || e.MarkRead?)
    ensures Inv(Step(s, e))
  {
    FreshSeq(s);
    AheadAfter(s, Step(s, e));
  }

  lemma ControllersKeep(s: Space, e: Event)
    requires Inv(s) && (e.Load? || e.Evict?)
    ensures Inv(Step(s, e))
  {
    assert PersistedSeqs(Step(s, e)) == PersistedSeqs(s);
  }

  lemma DropKeeps(s: Space, gone: set<RecordKey>)
    requires Inv(s)
    ensures Inv(Step(s, Drop(gone)))
  {
    assert PersistedSeqs(Step(s, Drop(gone))) == PersistedSeqs(s);
  }

  lemma CrashKeeps(s: Space)
    requires Inv(s)
    ensures Inv(Step(s, Crash))
  {}

  lemma SeedKeeps(s: Space)
    requires Inv(s)
    ensures Inv(Primed(s))
  {
    SeedBounds(s);
    assert PersistedSeqs(Primed(s)) == PersistedSeqs(s);
  }

  lemma InvStep(s: Space, e: Event)
    requires Inv(s)
    ensures Inv(Step(s, e))
  {
    if Step(s, e) != s {
      match e {
        case Commit(o, addSeq, wrote) => CommitKeeps(s, o, addSeq, wrote);
        case Purge(o) => PurgeKeeps(s, o);
        case Reset(o) => ReindexKeeps(s, o, e);
        case Finish(o) => ReindexKeeps(s, o, e);
        case Rollback => AllocationKeeps(s, e);
        case MarkRead(_) => AllocationKeeps(s, e);
        case SeedNow => SeedKeeps(s);
        case Drop(gone) => DropKeeps(s, gone);
        case Crash => CrashKeeps(s);
        case _ => ControllersKeep(s, e);
      }
    }
  }

  // --------------------------------------------------------------- whole runs

  ghost function Run(s: Space, es: seq<Event>): Space
    decreases |es|
  {
    if es == [] then s else Step(Run(s, es[..|es| - 1]), es[|es| - 1])
  }

  ghost function Reached(es: seq<Event>): Space {
    Run(EMPTY_SPACE, es)
  }

  lemma {:induction false} InvRun(s: Space, es: seq<Event>)
    requires Inv(s)
    ensures Inv(Run(s, es))
    decreases |es|
  {
    if es != [] {
      InvRun(s, es[..|es| - 1]);
      InvStep(Run(s, es[..|es| - 1]), es[|es| - 1]);
    }
  }

  /** No watermark is ever rewound and no purge mark taken back. */
  ghost predicate Follows(s: Space, t: Space) {
    forall o :: o in s.meta ==>
      o in t.meta && s.meta[o].applySeq <= t.meta[o].applySeq && (s.meta[o].deleted ==> t.meta[o].deleted)
  }

  lemma StepFollows(s: Space, e: Event)
    requires Inv(s)
    ensures Follows(s, Step(s, e))
  {
    if e.Purge? {
      PurgeFollows(s, e.o);
    } else {
      FreshSeq(s);
    }
  }

  lemma PurgeFollows(s: Space, o: ObjectId)
    requires Inv(s)
    ensures Follows(s, Step(s, Purge(o)))
  {
    UnmarkedKeeps(s, o);
    FreshSeq(Unmarked(s, o));
    if Announces(s, o) { PurgeRows(s, o); }
  }

  lemma FollowsOn(s: Space, t: Space, u: Space)
    requires Follows(s, t) && Follows(t, u)
    ensures Follows(s, u)
  {}

  lemma {:induction false} WatermarksOnlyRise(s: Space, es: seq<Event>)
    requires Inv(s)
    ensures Follows(s, Run(s, es))
    decreases |es|
  {
    if es != [] {
      var m := Run(s, es[..|es| - 1]);
      WatermarksOnlyRise(s, es[..|es| - 1]);
      InvRun(s, es[..|es| - 1]);
      StepFollows(m, es[|es| - 1]);
      FollowsOn(s, m, Run(s, es));
    }
  }

  /** What a commit leaves: the object's watermark, its mirror and the stamps of
      the records it wrote are at one fresh sequence, above everything before;
      no other object, stamp or read mark moves. */
  lemma CommitShows(s: Space, o: ObjectId, addSeq: nat, wrote: set<RecordKey>, k: RecordKey)
    requires Inv(s) && o in s.ctrls && OwnedBy(wrote, o)
    ensures var t := Step(s, Commit(o, addSeq, wrote));
            && o in t.meta && o in t.ctrls && t.ctrls[o].maxApplySeq == t.meta[o].applySeq == t.last
            && (forall p :: p in s.meta ==>
                  p in t.meta && s.meta[p].applySeq < t.last && (p != o ==> t.meta[p] == s.meta[p]))
            && (k in wrote ==> k in t.stamps && t.stamps[k] == t.last)
            && (k !in wrote ==> (k in t.stamps <==> k in s.stamps) && (k in s.stamps ==> t.stamps[k] == s.stamps[k]))
            && t.marks == s.marks
  {
    CommitRows(s, o, addSeq, wrote);
    FreshSeq(s);
    if k in Stamp(s, wrote, NextSeq(s)) { CommitStamps(s, wrote, k); }
  }

  /** What the other draws leave: a rolled-back transaction spends its sequence
      and nothing else; a read mark carries the one drawn for it. */
  lemma DrawsShow(s: Space, o: ObjectId)
    requires Inv(s)
    ensures var t := Step(s, Rollback);
            && t.meta == s.meta && t.stamps == s.stamps && t.marks == s.marks && t.ctrls == s.ctrls
            && t.seeded && NextSeq(t) == NextSeq(s) + 1
    ensures var t := Step(s, MarkRead(o));
            && t.marks == s.marks[o := NextSeq(s)] && t.seeded && NextSeq(t) == NextSeq(s) + 1
            && t.meta == s.meta && t.stamps == s.stamps && t.ctrls == s.ctrls
  {}

  predicate SameDisk(s: Space, t: Space) {
    t.meta == s.meta && t.stamps == s.stamps && t.marks == s.marks
  }

  /** Seeding, loading and evicting touch no disk, and a crash takes what is not
      on it. */
  lemma MemoryStepsShow(s: Space, o: ObjectId)
    requires Inv(s)
    ensures SameDisk(s, Step(s, SeedNow)) && Step(s, SeedNow).seeded && NextSeq(Step(s, SeedNow)) == NextSeq(s)
    ensures var t := Step(s, Load(o));
            && SameDisk(s, t) && o in t.ctrls && t.ctrls == s.ctrls[o := t.ctrls[o]]
            && t.ctrls[o] == if o in s.ctrls then s.ctrls[o] else Mirrors(MetaOf(s, o).addSeq, MetaOf(s, o).applySeq)
    ensures SameDisk(s, Step(s, Evict(o))) && Step(s, Evict(o)).ctrls.Keys == s.ctrls.Keys - {o}
    ensures SameDisk(s, Step(s, Crash)) && Step(s, Crash).ctrls == map[] && !Step(s, Crash).seeded
  {}

  /** Dropped records lose their stamps, and a finished re-index has its row. */
  lemma DropsShow(s: Space, o: ObjectId, gone: set<RecordKey>)
    ensures var t := Step(s, Drop(gone));
            && t.stamps.Keys == s.stamps.Keys - gone && (forall k :: k in t.stamps ==> t.stamps[k] == s.stamps[k])
            && t.meta == s.meta && t.marks == s.marks && t.ctrls == s.ctrls && t.last == s.last
    ensures o in s.ctrls ==> o in Step(s, Finish(o)).meta
  {}

  /** A purge is announced exactly for an object that has a `_meta` row, as every
      object a change was ever applied to has. */
  lemma PurgeAnnouncesIff(s: Space, o: ObjectId)
    requires Inv(s)
    ensures Step(s, Purge(o)).meta != s.meta <==> o in s.meta
    ensures o !in s.meta ==> Step(s, Purge(o)) == s.(marks := s.marks - {o})
  {
    if Announces(s, o) {
      UnmarkedKeeps(s, o);
      FreshSeq(Unmarked(s, o));
      PurgeRows(s, o);
      var row := RecordKey(o, OBJECTS, o);
      assert row in s.stamps ==> row.owner in s.meta;
    }
  }

  /** A loaded controller's AddSeq mirror is the watermark on the row. */
  ghost predicate MirrorsAgree(s: Space) {
    forall o :: o in s.ctrls ==> s.ctrls[o].maxAddSeq == MetaOf(s, o).addSeq
  }

  lemma {:induction false} MirrorsAgreeRun(es: seq<Event>)
    ensures MirrorsAgree(Reached(es))
    decreases |es|
  {
    if es != [] {
      MirrorsAgreeRun(es[..|es| - 1]);
      MirrorsAgreeStep(Reached(es[..|es| - 1]), es[|es| - 1]);
    }
  }

  lemma {:induction false} MirrorsAgreeStep(s: Space, e: Event)
    requires MirrorsAgree(s)
    ensures MirrorsAgree(Step(s, e))
  {}

  /** After any run the next event moves the AddSeq watermark of an object only
      so: a re-index takes it, and its mirror, back to 0; a commit raises it to
      the change's; finishing a re-index, purging, reloading and crashing leave
      it. A re-index and its end leave the apply sequence and the purge mark. */
  lemma AddSeqMoves(es: seq<Event>, e: Event, o: ObjectId)
    ensures var s, t := Reached(es), Step(Reached(es), e);
            && MetaOf(t, o).addSeq ==
               (if e == Reset(o) && o in s.ctrls then 0
                else if e.Commit? && e.o == o && o in s.ctrls && OwnedBy(e.wrote, o) then
                  Max(MetaOf(s, o).addSeq, e.addSeq)
                else MetaOf(s, o).addSeq)
            && (o in t.ctrls ==> t.ctrls[o].maxAddSeq == MetaOf(t, o).addSeq)
            && (e == Reset(o) || e == Finish(o) ==>
                  && MetaOf(t, o).applySeq == MetaOf(s, o).applySeq && MetaOf(t, o).deleted == MetaOf(s, o).deleted
                  && t.stamps == s.stamps && t.marks == s.marks && t.last == s.last)
  {
    var s := Reached(es);
    MirrorsAgreeRun(es);
    InvRun(EMPTY_SPACE, es);
    MirrorsAgreeStep(s, e);
    AddSeqStep(s, e, o);
    if e == Reset(o) || e == Finish(o) { ReindexShows(s, o, e); }
  }

  lemma AddSeqStep(s: Space, e: Event, o: ObjectId)
    requires MirrorsAgree(s)
    ensures MetaOf(Step(s, e), o).addSeq ==
            if e == Reset(o) && o in s.ctrls then 0
            else if e.Commit? && e.o == o && o in s.ctrls && OwnedBy(e.wrote, o) then Max(MetaOf(s, o).addSeq, e.addSeq)
            else MetaOf(s, o).addSeq
  {}

  lemma ReindexShows(s: Space, o: ObjectId, e: Event)
    requires Inv(s) && e in {Reset(o), Finish(o)}
    ensures var t := Step(s, e);
            && MetaOf(t, o).applySeq == MetaOf(s, o).applySeq && MetaOf(t, o).deleted == MetaOf(s, o).deleted
            && t.stamps == s.stamps && t.marks == s.marks && t.last == s.last
  {
    if o in s.ctrls { ReindexKeeps(s, o, e); }
  }

  /** No step of the run takes the object's read-state row without leaving a
      sequence as high on its `_meta` row. */
  ghost predicate KeepsMark(s: Space, es: seq<Event>, o: ObjectId)
    decreases |es|
  {
    es == [] ||
    var m := Run(s, es[..|es| - 1]);
    KeepsMark(s, es[..|es| - 1], o) && (es[|es| - 1] == Purge(o) ==> m.seeded && Announces(m, o))
  }

  ghost predicate HoldsSeq(s: Space, o: ObjectId, n: nat) {
    (o in s.marks && n <= s.marks[o]) || (o in s.meta && n <= s.meta[o].applySeq)
  }

  lemma HeldStep(s: Space, e: Event, o: ObjectId, n: nat)
    requires Inv(s) && HoldsSeq(s, o, n) && (e == Purge(o) ==> s.seeded && Announces(s, o))
    ensures HoldsSeq(Step(s, e), o, n)
  {
    StepFollows(s, e);
    if o in s.marks && n <= s.marks[o] {
      assert s.marks[o] in PersistedSeqs(s);
      if e == Purge(o) {
        UnmarkedKeeps(s, o);
        PurgeRows(s, o);
      } else {
        MarkStays(s, e, o);
      }
    }
  }

  lemma MarkStays(s: Space, e: Event, o: ObjectId)
    requires Inv(s) && o in s.marks && e != Purge(o)
    ensures o in Step(s, e).marks && s.marks[o] <= Step(s, e).marks[o]
  {
    if e.MarkRead? { FreshSeq(s); }
  }

  lemma {:induction false} MarkHeld(s: Space, es: seq<Event>, o: ObjectId)
    requires Inv(s) && o in s.marks && KeepsMark(s, es, o)
    ensures HoldsSeq(Run(s, es), o, s.marks[o])
    decreases |es|
  {
    if es != [] {
      MarkHeld(s, es[..|es| - 1], o);
      InvRun(s, es[..|es| - 1]);
      HeldStep(Run(s, es[..|es| - 1]), es[|es| - 1], o, s.marks[o]);
    }
  }

  /** A change committed after a run carries a sequence above every watermark
      and stamp that was on disk at any point of it, crashes and reseeding
      included, and above every read mark no purge took unrecorded. */
  lemma {:induction false} CommitExceedsHistory(s: Space, es: seq<Event>)
    requires Inv(s)
    ensures forall o :: o in s.meta ==> s.meta[o].applySeq < NextSeq(Run(s, es))
    ensures forall k :: k in s.stamps ==> s.stamps[k] < NextSeq(Run(s, es))
    ensures forall o :: o in s.marks && KeepsMark(s, es, o) ==> s.marks[o] < NextSeq(Run(s, es))
  {
    InvRun(s, es);
    WatermarksOnlyRise(s, es);
    FreshSeq(Run(s, es));
    forall o | o in s.marks && KeepsMark(s, es, o)
      ensures s.marks[o] < NextSeq(Run(s, es))
    {
      MarkHeld(s, es, o);
    }
  }

  /** A purge and a crash let a read mark's sequence be handed out again exactly
      when nothing else on disk reached it and the purge was not announced, or
      was announced by an allocator not seeded before. */
  lemma {:induction false} PurgeForgetsIff(s: Space, o: ObjectId)
    requires Inv(s) && o in s.marks
    ensures var next, rest := NextSeq(Step(Step(s, Purge(o)), Crash)), SeedOf(Unmarked(s, o));
            next <= s.marks[o] <==>
            if !Announces(s, o) then rest < s.marks[o] else !s.seeded && rest + 1 < s.marks[o]
  {
    var t := Step(s, Purge(o));
    var u := Step(t, Crash);
    assert PersistedSeqs(u) == PersistedSeqs(t);
    if Announces(s, o) {
      PurgeKeeps(s, o);
      UnmarkedKeeps(s, o);
      FreshSeq(s);
      FreshSeq(Unmarked(s, o));
      assert t.meta[o].applySeq == NextSeq(Unmarked(s, o)) && t.meta[o].applySeq in PersistedSeqs(t);
      SeedIs(t, t.meta[o].applySeq);
    } else {
      assert t == Unmarked(s, o);
    }
  }

  lemma SeedIs(s: Space, n: nat)
    requires n in PersistedSeqs(s) && forall x :: x in PersistedSeqs(s) ==> x <= n
    ensures SeedOf(s) == n
  {
    SeedBounds(s);
  }

  /** The read mark of an object never materialized here, purged before a
      crash: the next mark gets the same sequence. */
  lemma {:induction false} MarkSeqHandedOutTwice(o: ObjectId)
    ensures var s := Reached([MarkRead(o)]); o in s.marks && s.marks[o] == 1
    ensures NextSeq(Reached([MarkRead(o), Purge(o), Crash])) == 1
  {
    var a, b, c := [MarkRead(o)], [MarkRead(o), Purge(o)], [MarkRead(o), Purge(o), Crash];
    assert a[..0] == [] && b[..1] == a && c[..2] == b;
    assert PersistedSeqs(EMPTY_SPACE) == {};
    assert Run(EMPTY_SPACE, a[..0]) == EMPTY_SPACE;
    assert Reached(a) == Step(EMPTY_SPACE, MarkRead(o));
    assert Reached(b) == Step(Reached(a), Purge(o));
    var s := Reached(c);
    assert s.meta == map[] && s.marks == map[] && PersistedSeqs(s) == {};
  }

  // ------------------------------------------------------ sequences handed out

  /** The step hands out a sequence. */
  predicate Draws(s: Space, e: Event) {
    match e
    case Commit(o, _, wrote) => o in s.ctrls && OwnedBy(wrote, o)
    case Rollback => true
    case MarkRead(_) => true
    case Purge(o) => Announces(s, o)
    case _ => false
  }

  /** The disk a step finds when it seeds the allocator. */
  function Found(s: Space, e: Event): Space {
    if e.Purge? then Unmarked(s, e.o) else s
  }

  ghost function Drawn(s: Space, e: Event): nat {
    NextSeq(Found(s, e))
  }

  ghost predicate Below(s: Space, n: nat) {
    forall x :: x in PersistedSeqs(s) ==> x < n
  }

  /** The step seeds the allocator from a disk on which nothing reaches n. */
  ghost predicate SeedsBelow(s: Space, e: Event, n: nat) {
    !s.seeded && (Draws(s, e) || e.SeedNow?) && Below(Found(s, e), n)
  }

  /** Step k of the run hands out n or an older sequence. */
  ghost predicate DrawsBelow(s: Space, es: seq<Event>, k: nat, n: nat)
    requires k < |es|
  {
    Draws(Run(s, es[..k]), es[k]) && Drawn(Run(s, es[..k]), es[k]) <= n
  }

  /** Step j seeds below n, and step k is a draw at or after it. */
  ghost predicate ForgetsAt(s: Space, es: seq<Event>, j: nat, k: nat, n: nat)
    requires j <= k < |es|
  {
    SeedsBelow(Run(s, es[..j]), es[j], n) && Draws(Run(s, es[..k]), es[k])
  }

  lemma RunNext(s: Space, es: seq<Event>, k: nat)
    requires k < |es|
    ensures Run(s, es[..k + 1]) == Step(Run(s, es[..k]), es[k])
  {
    assert es[..k + 1][..k] == es[..k];
  }

  lemma SeedBelow(s: Space, n: nat)
    requires n > 0
    ensures SeedOf(s) < n <==> Below(s, n)
  {
    SeedBounds(s);
  }

  /** A seeded allocator that stands below n was seeded below n. */
  lemma {:induction false} LowStep(s: Space, e: Event, n: nat)
    requires n > 0 && (s.seeded ==> n <= s.last)
    ensures Step(s, e).seeded && Step(s, e).last < n ==> SeedsBelow(s, e, n)
  {
    SeedBelow(Found(s, e), n);
  }

  ghost predicate SeededBelow(s: Space, es: seq<Event>, k: nat, n: nat)
    requires k <= |es|
  {
    exists j :: 0 <= j < k && SeedsBelow(Run(s, es[..j]), es[j], n)
  }

  lemma {:induction false} LowWasSeeded(s: Space, es: seq<Event>, k: nat, n: nat)
    requires n > 0 && k <= |es| && (s.seeded ==> n <= s.last)
    ensures Run(s, es[..k]).seeded && Run(s, es[..k]).last < n ==> SeededBelow(s, es, k, n)
    decreases k
  {
    if k > 0 {
      LowWasSeeded(s, es, k - 1, n);
      RunNext(s, es, k - 1);
      var t := Run(s, es[..k - 1]);
      if !t.seeded || n <= t.last { LowStep(t, es[k - 1], n); }
    } else {
      assert es[..0] == [];
    }
  }

  /** Nothing on disk reaches n, nor does the allocator. */
  ghost predicate Low(s: Space, n: nat) {
    Below(s, n) && (s.seeded ==> s.last < n)
  }

  /** Only a draw brings anything up to n. */
  lemma {:induction false} LowStays(s: Space, e: Event, n: nat)
    requires Inv(s) && n > 0 && Low(s, n) && !Draws(s, e)
    ensures Low(Step(s, e), n)
  {
    if e.Reset? || e.Finish? {
      LowReindex(s, e.o, e, n);
    } else {
      SeedBelow(s, n);
      assert PersistedSeqs(Step(s, e)) <= PersistedSeqs(s);
    }
  }

  lemma LowReindex(s: Space, o: ObjectId, e: Event, n: nat)
    requires Inv(s) && n > 0 && Low(s, n) && e in {Reset(o), Finish(o)}
    ensures Low(Step(s, e), n)
  {
    if o in s.ctrls {
      ReindexKeeps(s, o, e);
      var t := Step(s, e);
      forall x | x in PersistedSeqs(t)
        ensures x < n
      {
        if p :| p in t.meta && x == t.meta[p].applySeq {
          if p in s.meta { assert s.meta[p].applySeq in PersistedSeqs(s); }
        } else {
          assert x in PersistedSeqs(s);
        }
      }
    }
  }

  /** The first draw of a low space hands out n or an older sequence. */
  lemma LowDraws(s: Space, e: Event, n: nat)
    requires n > 0 && Low(s, n)
    ensures Drawn(s, e) <= n
  {
    assert PersistedSeqs(Found(s, e)) <= PersistedSeqs(s);
    SeedBelow(Found(s, e), n);
  }

  lemma {:induction false} LowRunDraws(s: Space, es: seq<Event>, j: nat, k: nat, n: nat)
    requires Inv(s) && n > 0 && j <= k < |es| && Low(Run(s, es[..j]), n) && Draws(Run(s, es[..k]), es[k])
    ensures exists i :: j <= i <= k && DrawsBelow(s, es, i, n)
    decreases k - j
  {
    var t := Run(s, es[..j]);
    if Draws(t, es[j]) {
      LowDraws(t, es[j], n);
      assert DrawsBelow(s, es, j, n);
    } else {
      InvRun(s, es[..j]);
      LowStays(t, es[j], n);
      RunNext(s, es, j);
      LowRunDraws(s, es, j + 1, k, n);
    }
  }

  lemma {:induction false} ForgetsDraws(s: Space, es: seq<Event>, j: nat, k: nat, n: nat)
    requires Inv(s) && n > 0 && j <= k < |es| && ForgetsAt(s, es, j, k, n)
    ensures exists i :: j <= i <= k && DrawsBelow(s, es, i, n)
  {
    var t := Run(s, es[..j]);
    if Draws(t, es[j]) {
      SeedBelow(Found(t, es[j]), n);
      assert DrawsBelow(s, es, j, n);
    } else {
      LowRunDraws(s, es, j, k, n);
    }
  }

  lemma {:induction false} DrawsForgets(s: Space, es: seq<Event>, k: nat, n: nat) returns (j: nat)
    requires Inv(s) && n > 0 && n < NextSeq(s) && k < |es| && DrawsBelow(s, es, k, n)
    ensures j <= k && ForgetsAt(s, es, j, k, n)
  {
    var t := Run(s, es[..k]);
    SeedBelow(Found(t, es[k]), n);
    if t.seeded {
      LowWasSeeded(s, es, k, n);
      j :| 0 <= j < k && SeedsBelow(Run(s, es[..j]), es[j], n);
    } else {
      j := k;
    }
  }

  ghost predicate HandedOutAgain(s: Space, es: seq<Event>, n: nat) {
    exists k :: 0 <= k < |es| && DrawsBelow(s, es, k, n)
  }

  ghost predicate Forgotten(s: Space, es: seq<Event>, n: nat) {
    exists j, k :: 0 <= j <= k < |es| && ForgetsAt(s, es, j, k, n)
  }

  /** Over any run, a sequence given to a read mark, or an older one, is handed
      out again exactly when a step seeds the allocator from a disk on which
      nothing reaches it any more and a sequence is drawn then or later. */
  lemma {:induction false} MarkHandedOutAgainIff(s: Space, es: seq<Event>, o: ObjectId)
    requires Inv(s) && o in s.marks && s.marks[o] > 0
    ensures HandedOutAgain(s, es, s.marks[o]) <==> Forgotten(s, es, s.marks[o])
  {
    var n := s.marks[o];
    FreshSeq(s);
    if HandedOutAgain(s, es, n) {
      var k :| 0 <= k < |es| && DrawsBelow(s, es, k, n);
      var j := DrawsForgets(s, es, k, n);
    }
    if Forgotten(s, es, n) {
      var j, k :| 0 <= j <= k < |es| && ForgetsAt(s, es, j, k, n);
      ForgetsDraws(s, es, j, k, n);
    }
  }

  /** A purge of a materialized object surfaces above everything announced so
      far and stays deleted under whatever follows. */
  lemma PurgeSurfacesAndSticks(s: Space, o: ObjectId, es: seq<Event>)
    requires Inv(s) && Announces(s, o)
    ensures var t := Step(s, Purge(o));
            && o in t.meta && t.meta[o].deleted && o !in t.marks
            && (forall p :: p in s.meta ==> s.meta[p].applySeq < t.meta[o].applySeq)
            && RecordKey(o, OBJECTS, o) !in t.stamps
            && MetaOf(Run(t, es), o).deleted
  {
    UnmarkedKeeps(s, o);
    FreshSeq(Unmarked(s, o));
    PurgeKeeps(s, o);
    WatermarksOnlyRise(Step(s, Purge(o)), es);
  }

  // -------------------------------------------------------------- the consumer

  datatype Entry = Entry(o: ObjectId, applySeq: nat, deleted: bool)

  /** An answer of `QueryChangedObjects`: rows above `since`, ascending, at most
      `limit` of them when limit > 0, the lowest ones first. */
  ghost predicate IsPage(meta: map<ObjectId, Meta>, since: nat, limit: int, page: seq<Entry>) {
    && (forall i :: 0 <= i < |page| ==>
          && page[i].o in meta && since < page[i].applySeq
          && page[i] == Entry(page[i].o, meta[page[i].o].applySeq, meta[page[i].o].deleted))
    && (forall i, j :: 0 <= i < j < |page| ==> page[i].applySeq <= page[j].applySeq)
    && (limit > 0 ==> |page| <= limit)
    && (forall o :: o in meta && since < meta[o].applySeq ==>
          (exists i :: 0 <= i < |page| && page[i].o == o) ||
          (limit > 0 && |page| == limit && page[|page| - 1].applySeq <= meta[o].applySeq))
  }

  /** What a consumer knows: the cursor it passes next, and the newest entry it
      saw of each object. */
  datatype Consumer = Consumer(cursor: nat, view: map<ObjectId, Entry>)

  function Absorb(c: Consumer, page: seq<Entry>): (d: Consumer)
    ensures page != [] ==> d.cursor == page[|page| - 1].applySeq
    ensures page == [] ==> d == c
    decreases |page|
  {
    if page == [] then c
    else
      var e := page[|page| - 1];
      Consumer(e.applySeq, Absorb(c, page[..|page| - 1]).view[e.o := e])
  }

  /** Everything announced up to the cursor has been seen as it is now. */
  ghost predicate CaughtUpTo(s: Space, c: Consumer) {
    && (c.cursor == 0 || exists o :: o in s.meta && c.cursor <= s.meta[o].applySeq)
    && (forall o :: o in s.meta && 0 < s.meta[o].applySeq <= c.cursor ==>
          o in c.view && c.view[o] == Entry(o, s.meta[o].applySeq, s.meta[o].deleted))
  }

  lemma {:induction false} AbsorbView(c: Consumer, page: seq<Entry>, o: ObjectId)
    ensures (exists i :: 0 <= i < |page| && page[i].o == o) ==>
              o in Absorb(c, page).view && Absorb(c, page).view[o] in page && Absorb(c, page).view[o].o == o
    ensures !(exists i :: 0 <= i < |page| && page[i].o == o) ==>
              (o in Absorb(c, page).view <==> o in c.view) &&
              (o in c.view ==> Absorb(c, page).view[o] == c.view[o])
    decreases |page|
  {
    if page != [] {
      var n := |page| - 1;
      AbsorbView(c, page[..n], o);
      assert forall i :: 0 <= i < n ==> page[..n][i] == page[i];
    }
  }

  /** Distinct sequences are what makes a capped page safe to continue from. */
  lemma PollKeeps(s: Space, c: Consumer, limit: int, page: seq<Entry>)
    requires Inv(s) && CaughtUpTo(s, c) && IsPage(s.meta, c.cursor, limit, page)
    ensures CaughtUpTo(s, Absorb(c, page))
    ensures page != [] ==> c.cursor < Absorb(c, page).cursor
  {
    if page != [] {
      var n := |page| - 1;
      var d := Absorb(c, page);
      assert page[n].o in s.meta && d.cursor == s.meta[page[n].o].applySeq;
      forall o | o in s.meta && 0 < s.meta[o].applySeq <= d.cursor
        ensures o in d.view && d.view[o] == Entry(o, s.meta[o].applySeq, s.meta[o].deleted)
      {
        AbsorbView(c, page, o);
        if c.cursor < s.meta[o].applySeq {
          assert o == page[n].o || s.meta[o].applySeq != s.meta[page[n].o].applySeq;
          assert exists i :: 0 <= i < |page| && page[i].o == o;
        }
      }
    }
  }

  lemma StepKeepsConsumer(s: Space, c: Consumer, e: Event)
    requires Inv(s) && CaughtUpTo(s, c)
    ensures CaughtUpTo(Step(s, e), c)
  {
    var t := Step(s, e);
    StepFollows(s, e);
    CursorBelow(s, c);
    if e.Purge? {
      UnmarkedKeeps(s, e.o);
      CursorBelow(Unmarked(s, e.o), c);
    }
    if c.cursor > 0 {
      var o :| o in s.meta && c.cursor <= s.meta[o].applySeq;
      assert o in t.meta && c.cursor <= t.meta[o].applySeq;
    }
    forall o | o in t.meta && 0 < t.meta[o].applySeq <= c.cursor
      ensures o in c.view && c.view[o] == Entry(o, t.meta[o].applySeq, t.meta[o].deleted)
    {
      UnchangedBelow(s, e, o);
    }
  }

  lemma CursorBelow(s: Space, c: Consumer)
    requires Inv(s) && CaughtUpTo(s, c)
    ensures c.cursor < NextSeq(s)
  {
    FreshSeq(s);
  }

  /** A step moves a watermark only to a fresh sequence. */
  lemma UnchangedBelow(s: Space, e: Event, o: ObjectId)
    requires Inv(s) && o in Step(s, e).meta
    requires 0 < Step(s, e).meta[o].applySeq
    requires Step(s, e).meta[o].applySeq < if e.Purge? then NextSeq(Unmarked(s, e.o)) else NextSeq(s)
    ensures o in s.meta && s.meta[o].applySeq == Step(s, e).meta[o].applySeq
    ensures s.meta[o].deleted == Step(s, e).meta[o].deleted
  {
    if !e.Purge? { FreshSeq(s); }
  }

  /** A space and a consumer side by side: either an event, or a poll. */
  ghost predicate Moves(s: Space, c: Consumer, t: Space, d: Consumer) {
    || (c == d && exists e :: t == Step(s, e))
    || (s == t && exists limit, page :: IsPage(s.meta, c.cursor, limit, page) && d == Absorb(c, page))
  }

  ghost predicate Trace(ss: seq<Space>, cs: seq<Consumer>) {
    && |ss| == |cs| > 0
    && ss[0] == EMPTY_SPACE && cs[0] == Consumer(0, map[])
    && forall i :: 0 <= i < |ss| - 1 ==> Moves(ss[i], cs[i], ss[i + 1], cs[i + 1])
  }

  lemma {:induction false} TraceKeeps(ss: seq<Space>, cs: seq<Consumer>, n: nat)
    requires Trace(ss, cs) && n < |ss|
    ensures Inv(ss[n]) && CaughtUpTo(ss[n], cs[n])
  {
    if n > 0 {
      TraceKeeps(ss, cs, n - 1);
      var s, c := ss[n - 1], cs[n - 1];
      assert Moves(s, c, ss[n - 1 + 1], cs[n - 1 + 1]);
      if c == cs[n] && exists e :: ss[n] == Step(s, e) {
        var e :| ss[n] == Step(s, e);
        InvStep(s, e);
        StepKeepsConsumer(s, c, e);
      } else {
        var limit, page :| IsPage(s.meta, c.cursor, limit, page) && cs[n] == Absorb(c, page);
        PollKeeps(s, c, limit, page);
      }
    }
  }

  /** However events, crashes and polls under any limits interleave, a consumer
      whose next page is empty knows every announced object as it is. */
  lemma NothingIsMissed(ss: seq<Space>, cs: seq<Consumer>, n: nat, limit: int)
    requires Trace(ss, cs) && n < |ss| && IsPage(ss[n].meta, cs[n].cursor, limit, [])
    ensures forall o :: o in ss[n].meta && ss[n].meta[o].applySeq > 0 ==>
              o in cs[n].view && cs[n].view[o] == Entry(o, ss[n].meta[o].applySeq, ss[n].meta[o].deleted)
  {
    TraceKeeps(ss, cs, n);
  }

  // ---------------------------------------------------------- the code's shape

  /** One space store: the persisted maps, the allocator's two fields and the
      mirrors of the loaded controllers. */
  class Store {
    var meta: map<ObjectId, Meta>
    var stamps: map<RecordKey, nat>
    var marks: map<ObjectId, nat>
    var last: nat
    var seeded: bool
    var ctrls: map<ObjectId, Mirrors>

    ghost function Contents(): Space
      reads this
    {
      Space(meta, stamps, marks, last, seeded, ctrls)
    }

    constructor ()
      ensures Contents() == EMPTY_SPACE
    {
      meta, stamps, marks, last, seeded, ctrls := map[], map[], map[], 0, false, map[];
    }

    /** `Next`, given the seed query's answer. */
    method Next(seed: nat) returns (n: nat)
      requires !seeded ==> seed == SeedOf(Contents())
      modifies this`last, this`seeded
      ensures n == NextSeq(old(Contents())) && Contents() == Allocated(old(Contents()))
    {
      if !seeded {
        last := seed;
        seeded := true;
      }
      last := last + 1;
      n := last;
    }

    /** `persistMeta`. */
    method PersistMeta(o: ObjectId, addSeq: nat, applySeq: nat)
      modifies this`meta
      ensures Contents() == Persisted(old(Contents()), o, addSeq, applySeq)
    {
      var row := if o in meta then meta[o] else Meta(0, 0, false);
      var newApply := row.applySeq;
      if applySeq > newApply { newApply := applySeq; }
      meta := meta[o := Meta(addSeq, newApply, row.deleted)];
    }

    /** The transaction of `ApplyChangeWithResult`: the records it stamps, the
        watermarks and, after the commit, the mirrors. A failure inside the
        transaction rolls the maps back and leaves the allocator ahead. */
    method ApplyChange(o: ObjectId, addSeq: nat, wrote: set<RecordKey>, seed: nat, fails: bool)
      requires o in ctrls && OwnedBy(wrote, o)
      requires !seeded ==> seed == SeedOf(Contents())
      modifies this
      ensures Contents() == Step(old(Contents()), if fails then Rollback else Commit(o, addSeq, wrote))
    {
      var n := Next(seed);
      if fails { return; }
      stamps := map k | k in stamps.Keys + wrote ::
        if k in wrote then Max(if k in stamps then stamps[k] else 0, n) else stamps[k];
      var newAdd, newApply := ctrls[o].maxAddSeq, ctrls[o].maxApplySeq;
      if addSeq > newAdd { newAdd := addSeq; }
      if n > newApply { newApply := n; }
      PersistMeta(o, newAdd, newApply);
      ctrls := ctrls[o := Mirrors(newAdd, newApply)];
    }

    /** `purgeRowInTx` with `PersistDeletionMark`: the read-state row goes first,
        so a seed query finds it gone. */
    method PurgeObject(o: ObjectId, seed: nat) returns (stamped: bool)
      requires !seeded ==> seed == SeedOf(Unmarked(Contents(), o))
      modifies this
      ensures Contents() == Step(old(Contents()), Purge(o))
      ensures stamped == Announces(old(Contents()), o)
    {
      marks := marks - {o};
      var row := RecordKey(o, OBJECTS, o);
      var removed := row in stamps;
      stamps := stamps - {row};
      stamped := removed || o in meta;
      if stamped {
        var n := Next(seed);
        var was := if o in meta then meta[o] else Meta(0, 0, false);
        meta := meta[o := Meta(was.addSeq, n, true)];
      }
    }

    /** `ResetForReindex`. */
    method ResetForReindex(o: ObjectId)
      requires o in ctrls
      modifies this
      ensures Contents() == Step(old(Contents()), Reset(o))
    {
      ctrls := ctrls[o := ctrls[o].(maxAddSeq := 0)];
      PersistMeta(o, 0, ctrls[o].maxApplySeq);
    }

    /** Whether a record of the dataset carries a stamp above n. */
    ghost predicate Touched(o: ObjectId, dataset: string, n: nat)
      reads this
    {
      exists k :: k in stamps && k.owner == o && k.dataset == dataset && stamps[k] > n
    }

    /** `ChangedSince`: refused for the shared collection; the watermark answers
        without a scan, and never differently from the scan. */
    method ChangedSince(o: ObjectId, dataset: string, n: nat) returns (answer: Option<bool>)
      requires Inv(Contents()) && o in ctrls
      ensures answer.None? <==> dataset == OBJECTS
      ensures answer.Some? ==> (answer.value <==> Touched(o, dataset, n))
    {
      if dataset == OBJECTS { return None; }
      if ctrls[o].maxApplySeq <= n {
        assert MirrorsCover(Contents());
        return Some(false);
      }
      var changed := exists k :: k in stamps && k.owner == o && k.dataset == dataset && stamps[k] > n;
      answer := Some(changed);
    }
  }
}
