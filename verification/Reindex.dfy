/** Rebuilding one object after a handler change: reset, wipe, replay, restore,
    finish, with a crash possible between any two steps. */
module Reindex {
  import opened Basics

  /** Handler versions by dataset. */
  type Versions = map<string, int>

  /** A device-local field of one record. `perSpace` when the record's rows lie
      in a collection of the space rather than of the object. */
  datatype Leaf = Leaf(dataset: string, record: string, field: string, perSpace: bool)

  type Leaves = map<Leaf, string>

  /** What survives a crash. `built` counts, for each change of the tree, how
      often its effects are in the materialized rows. */
  datatype Disk = Disk(built: multiset<nat>, leaves: Leaves, mark: nat, applySeq: nat,
                       stored: Versions, captured: Option<Leaves>)

  datatype Phase = Checked | MustWipe | Replaying | Restoring(todo: set<Leaf>) | Ready

  /** What one load failed at, which the code only logs: leaves its capture did
      not read, leaves its restore did not write, and leaves in collections its
      wipe did not drop. */
  datatype Lapses = Lapses(missed: set<Leaf>, refused: set<Leaf>, stuck: set<Leaf>)

  const NONE := Lapses({}, {}, {})

  /** The loading or loaded object. `held` are the leaves a rebuild restores. */
  datatype Mem =
    | Down
    | Up(registered: Versions, mark: nat, maxApplySeq: nat, held: Option<Leaves>, phase: Phase, lapses: Lapses)

  /** `log` are the AddSeqs of the tree's changes, `wants` the device-local
      value each leaf was last given, `lost` the leaves whose value is gone. */
  datatype State = State(disk: Disk, mem: Mem, log: set<nat>, wants: Leaves, lost: set<Leaf>)

  datatype Event =
    | Arrive(change: nat)
    | Boot(registered: Versions)
    | Prepare(missed: set<Leaf>)
    | Proceed
    | WipePart(kept: multiset<nat>, gone: set<Leaf>)
    | WipeDone(kept: multiset<nat>, stuck: set<string>)
    | Apply(change: nat, applySeq: nat)
    | Replayed
    | Restore(leaf: Leaf, applySeq: nat)
    | Refuse(leaf: Leaf)
    | Finish
    | FinishFails
    | LocalSet(leaf: Leaf, value: string, applySeq: nat)
    | Crash

  /** `staleDatasets`: written by another version of a handler still
      registered. */
  function StaleDatasets(stored: Versions, registered: Versions): set<string> {
    set d | d in stored && d in registered && stored[d] != registered[d]
  }

  predicate Stale(stored: Versions, registered: Versions) {
    StaleDatasets(stored, registered) != {}
  }

  /** `captureLocalLeaves` reads the registered datasets only, up to a cap and
      past read failures. */
  function Capture(leaves: Leaves, registered: Versions, missed: set<Leaf>): Leaves {
    map l | l in leaves && l.dataset in registered && l !in missed :: leaves[l]
  }

  /** The wipe drops every collection of the object, and its rows in the
      space's collections of registered datasets. */
  predicate Wiped(registered: Versions, l: Leaf) {
    !l.perSpace || l.dataset in registered
  }

  /** A drop that fails leaves a collection of the object behind. */
  function Stuck(leaves: Leaves, datasets: set<string>): set<Leaf> {
    set l | l in leaves && !l.perSpace && l.dataset in datasets
  }

  function Wipe(leaves: Leaves, registered: Versions, stuck: set<Leaf>): Leaves {
    map l | l in leaves && (!Wiped(registered, l) || l in stuck) :: leaves[l]
  }

  function PartWipe(leaves: Leaves, registered: Versions, gone: set<Leaf>): Leaves {
    map l | l in leaves && !(l in gone && Wiped(registered, l)) :: leaves[l]
  }

  /** The next change `IterateAfterAddSeq` yields. */
  predicate IsNext(log: set<nat>, mark: nat, a: nat) {
    a in log && mark < a && forall b :: b in log && mark < b ==> a <= b
  }

  predicate Drained(log: set<nat>, mark: nat) {
    forall b :: b in log ==> b <= mark
  }

  /** `persistMeta` inside an apply: watermarks and current versions. */
  function Persist(d: Disk, mark: nat, applySeq: nat, registered: Versions): Disk {
    d.(mark := mark, applySeq := Max(d.applySeq, applySeq),
       stored := if registered == map[] then d.stored else registered)
  }

  /** `ResetForReindex`: the AddSeq watermark rewinds, the leaves go on the
      row, versions and apply sequence stay. */
  function ResetDisk(d: Disk, maxApplySeq: nat, leaves: Leaves): Disk {
    d.(mark := 0, applySeq := Max(d.applySeq, maxApplySeq), captured := Some(leaves))
  }

  /** The rows hold the value l was last given. */
  predicate InRows(s: State, l: Leaf) {
    l in s.wants && l in s.disk.leaves && s.disk.leaves[l] == s.wants[l]
  }

  /** The leaves recorded on the `_meta` row hold it. */
  predicate OnRow(s: State, l: Leaf) {
    l in s.wants && s.disk.captured.Some? && l in s.disk.captured.value && s.disk.captured.value[l] == s.wants[l]
  }

  /** The leaves a wipe to `left` takes that are recorded nowhere else. */
  function WipedAway(s: State, left: Leaves): set<Leaf> {
    set l | l in s.wants && l in s.disk.leaves && l !in left && !OnRow(s, l)
  }

  /** The leaves held by the `_meta` row alone. */
  function OnlyOnRow(s: State): set<Leaf> {
    set l | l in s.wants && OnRow(s, l) && !InRows(s, l)
  }

  function Step(s: State, e: Event): State {
    var d, m := s.disk, s.mem;
    match e
    case Arrive(a) => if a > 0 && (forall b :: b in s.log ==> b < a) then s.(log := s.log + {a}) else s
    case Crash => s.(mem := Down)
    case Boot(registered) =>
      if m.Up? then s else s.(mem := Up(registered, d.mark, d.applySeq, None, Checked, NONE))
    case Prepare(missed) =>
      if m.Up? && m.phase.Checked? && Stale(d.stored, m.registered) then
        var leaves := if d.captured.Some? then d.captured.value else Capture(d.leaves, m.registered, missed);
        s.(disk := ResetDisk(d, m.maxApplySeq, leaves),
           mem := m.(mark := 0, held := Some(leaves), phase := MustWipe, lapses := m.lapses.(missed := missed)))
      else s
    case Proceed =>
      if m.Up? && m.phase.Checked? && !Stale(d.stored, m.registered) then
        s.(mem := m.(held := d.captured, phase := Replaying))
      else s
    case WipePart(kept, gone) =>
      if m.Up? && m.phase.MustWipe? && kept <= d.built then
        var left := PartWipe(d.leaves, m.registered, gone);
        s.(disk := d.(built := kept, leaves := left), lost := s.lost + WipedAway(s, left))
      else s
    case WipeDone(kept, datasets) =>
      if m.Up? && m.phase.MustWipe? && kept <= d.built && (datasets == {} ==> kept == multiset{}) then
        var stuck := Stuck(d.leaves, datasets);
        var left := Wipe(d.leaves, m.registered, stuck);
        s.(disk := d.(built := kept, leaves := left),
           mem := m.(phase := Replaying, lapses := m.lapses.(stuck := stuck)),
           lost := s.lost + WipedAway(s, left))
      else s
    case Apply(a, n) =>
      if m.Up? && (m.phase.Replaying? || m.phase.Ready?) && IsNext(s.log, m.mark, a) then
        s.(disk := Persist(d.(built := d.built + multiset{a}), a, n, m.registered),
           mem := m.(mark := a, maxApplySeq := Max(m.maxApplySeq, n)))
      else s
    case Replayed =>
      if m.Up? && m.phase.Replaying? && Drained(s.log, m.mark) then
        s.(mem := m.(phase := if m.held.Some? then Restoring(m.held.value.Keys) else Ready))
      else s
    case Restore(l, n) =>
      if m.Up? && m.phase.Restoring? && l in m.phase.todo && m.held.Some? && l in m.held.value then
        s.(disk := Persist(d.(leaves := d.leaves[l := m.held.value[l]]), m.mark, n, m.registered),
           mem := m.(maxApplySeq := Max(m.maxApplySeq, n), phase := Restoring(m.phase.todo - {l})),
           lost := if l in s.wants && m.held.value[l] != s.wants[l] then s.lost + {l} else s.lost)
      else s
    case Refuse(l) =>
      if m.Up? && m.phase.Restoring? && l in m.phase.todo then
        s.(mem := m.(phase := Restoring(m.phase.todo - {l}), lapses := m.lapses.(refused := m.lapses.refused + {l})))
      else s
    case Finish =>
      if m.Up? && m.phase.Restoring? && m.phase.todo == {} then
        s.(disk := Persist(d, m.mark, m.maxApplySeq, m.registered).(captured := None),
           mem := m.(held := None, phase := Ready), lost := s.lost + OnlyOnRow(s))
      else s
    case FinishFails =>
      if m.Up? && m.phase.Restoring? && m.phase.todo == {} then s.(mem := m.(held := None, phase := Ready))
      else s
    case LocalSet(l, v, n) =>
      if m.Up? && m.phase.Ready? && l.dataset in m.registered then
        s.(disk := Persist(d.(leaves := d.leaves[l := v]), m.mark, n, m.registered),
           mem := m.(maxApplySeq := Max(m.maxApplySeq, n)), wants := s.wants[l := v], lost := s.lost - {l})
      else s
  }

  const FRESH := State(Disk(multiset{}, map[], 0, 0, map[], None), Down, {}, map[], {})

  function Run(s: State, es: seq<Event>): State
    decreases |es|
  {
    if es == [] then s else Step(Run(s, es[..|es| - 1]), es[|es| - 1])
  }

  // ---------------------------------------------------------------- invariants

  /** Every change up to the watermark is in the rows, each exactly once. */
  predicate RowsExact(s: State) {
    s.disk.built == multiset(Below(s.log, s.disk.mark))
  }

  function Below(log: set<nat>, mark: nat): set<nat> {
    set a | a in log && a <= mark
  }

  /** Rows of an unfinished wipe, over watermark 0, with the rebuild recorded. */
  predicate Torn(s: State) {
    && s.disk.mark == 0 && s.disk.captured.Some?
    && (s.mem.Down? || s.mem.phase.MustWipe? ||
        (s.mem.phase.Checked? && Stale(s.disk.stored, s.mem.registered)))
  }

  /** The mirrors agree with the row, and every rebuild on the way is recorded
      on the row. */
  predicate InStep(s: State) {
    && (forall a :: a in s.log ==> a > 0)
    && (s.disk.mark == 0 || s.disk.mark in s.log)
    && (s.mem.Up? ==> s.mem.mark == s.disk.mark && s.mem.maxApplySeq <= s.disk.applySeq)
    && (s.mem.Up? && s.mem.held.Some? ==> s.disk.captured == s.mem.held)
    && (s.mem.Up? && s.mem.phase.MustWipe? ==> s.mem.held.Some? && s.disk.mark == 0)
    && (s.mem.Up? && s.mem.phase.Restoring? ==> s.mem.held.Some? && s.mem.phase.todo <= s.mem.held.value.Keys)
  }

  predicate Sound(s: State) {
    InStep(s) && (RowsExact(s) || Torn(s))
  }

  /** A load that finds the rows of an unfinished wipe must find them stale. */
  predicate BootSafe(s: State, e: Event) {
    e.Boot? && s.mem.Down? && !RowsExact(s) ==> Stale(s.disk.stored, e.registered)
  }

  /** No drop of a wipe fails over rows. */
  predicate DropSafe(e: Event) {
    e.WipeDone? ==> e.kept == multiset{}
  }

  predicate Guarded(s: State, es: seq<Event>)
    decreases |es|
  {
    es == [] ||
    var init := es[..|es| - 1];
    Guarded(s, init) && BootSafe(Run(s, init), es[|es| - 1]) && DropSafe(es[|es| - 1])
  }

  /** A device-local value is lost exactly when neither the rows nor the `_meta`
      row hold it. */
  predicate LostExact(s: State) {
    forall l :: l in s.wants ==> (l in s.lost <==> !InRows(s, l) && !OnRow(s, l))
  }

  lemma BelowArrive(log: set<nat>, mark: nat, a: nat)
    requires mark < a
    ensures Below(log + {a}, mark) == Below(log, mark)
  {}

  lemma BelowNext(log: set<nat>, mark: nat, a: nat)
    requires IsNext(log, mark, a)
    ensures multiset(Below(log, a)) == multiset(Below(log, mark)) + multiset{a}
  {
    assert Below(log, a) == Below(log, mark) + {a};
    assert a !in Below(log, mark);
  }

  lemma {:induction false} InStepStep(s: State, e: Event)
    requires InStep(s)
    ensures InStep(Step(s, e))
  {}

  lemma {:induction false} SoundStep(s: State, e: Event)
    requires Sound(s) && BootSafe(s, e) && DropSafe(e)
    ensures Sound(Step(s, e))
  {
    InStepStep(s, e);
    if Step(s, e) != s {
      match e {
        case Arrive(a) => BelowArrive(s.log, s.disk.mark, a);
        case Apply(a, _) => BelowNext(s.log, s.disk.mark, a);
        case WipeDone(_, _) => assert Below(s.log, 0) == {};
        case _ =>
      }
    }
  }

  lemma {:induction false} LostStep(s: State, e: Event)
    requires InStep(s) && LostExact(s)
    ensures LostExact(Step(s, e))
  {
    if e.WipePart? || e.WipeDone? {
      LostWipe(s, e);
    } else if e.Restore? || e.Finish? || e.LocalSet? {
      LostWrite(s, e);
    }
  }

  lemma {:induction false} LostWipe(s: State, e: Event)
    requires InStep(s) && LostExact(s) && (e.WipePart? || e.WipeDone?)
    ensures LostExact(Step(s, e))
  {}

  lemma {:induction false} LostWrite(s: State, e: Event)
    requires InStep(s) && LostExact(s) && (e.Restore? || e.Finish? || e.LocalSet?)
    ensures LostExact(Step(s, e))
  {}

  /** Through any run of loads, crashes and writes that keeps the guards, the
      rows carry every change up to the watermark exactly once or are marked for
      wiping. */
  lemma {:induction false} RebuildsAreSafe(es: seq<Event>)
    requires Guarded(FRESH, es)
    ensures Sound(Run(FRESH, es))
    decreases |es|
  {
    if es == [] {
      assert Below({}, 0) == {};
    } else {
      var init := es[..|es| - 1];
      RebuildsAreSafe(init);
      SoundStep(Run(FRESH, init), es[|es| - 1]);
    }
  }

  /** Through any run at all, guarded or not, every device-local value is in the
      rows or on the `_meta` row unless it is accounted as lost. */
  lemma {:induction false} LossesAreAccounted(es: seq<Event>)
    ensures InStep(Run(FRESH, es)) && LostExact(Run(FRESH, es))
    decreases |es|
  {
    if es != [] {
      var init := es[..|es| - 1];
      LossesAreAccounted(init);
      InStepStep(Run(FRESH, init), es[|es| - 1]);
      LostStep(Run(FRESH, init), es[|es| - 1]);
    }
  }

  /** The load is over. */
  predicate Open(s: State) {
    s.mem.Up? && s.mem.phase.Ready?
  }

  /** What a user of a loaded object sees: each change of the tree up to the
      watermark once, and every device-local value but the lost ones. */
  lemma LoadedObjectIsWhole(es: seq<Event>)
    requires Guarded(FRESH, es)
    requires Open(Run(FRESH, es)) && Run(FRESH, es).disk.captured.None?
    ensures RowsExact(Run(FRESH, es))
    ensures forall l :: l in Run(FRESH, es).wants ==> (InRows(Run(FRESH, es), l) <==> l !in Run(FRESH, es).lost)
  {
    RebuildsAreSafe(es);
    LossesAreAccounted(es);
  }

  /** Wiped rows sit under watermark 0 until a change is re-applied. */
  lemma WipedUnderZero(es: seq<Event>)
    requires Guarded(FRESH, es) && Run(FRESH, es).disk.built == multiset{}
    ensures Run(FRESH, es).disk.mark == 0
  {
    RebuildsAreSafe(es);
    var s := Run(FRESH, es);
    if s.disk.mark in s.log { assert s.disk.mark in Below(s.log, s.disk.mark); }
  }

  /** The apply-sequence watermark is never rewound, guarded or not. */
  lemma {:induction false} ApplySeqNeverRewinds(s: State, es: seq<Event>)
    ensures s.disk.applySeq <= Run(s, es).disk.applySeq
    decreases |es|
  {
    if es != [] {
      ApplySeqNeverRewinds(s, es[..|es| - 1]);
      ApplySeqStep(Run(s, es[..|es| - 1]), es[|es| - 1]);
    }
  }

  lemma {:induction false} ApplySeqStep(s: State, e: Event)
    ensures s.disk.applySeq <= Step(s, e).disk.applySeq
  {}

  /** A load wipes exactly when some dataset it registers was written by another
      version, older or newer; otherwise it replays over the rows. */
  lemma LoadWipesIff(s: State, registered: Versions, missed: set<Leaf>)
    requires s.mem.Down?
    ensures var booted := Step(s, Boot(registered));
            var stale := exists d :: d in s.disk.stored && d in registered && s.disk.stored[d] != registered[d];
            && (stale ==>
                  && Step(booted, Prepare(missed)).mem.phase.MustWipe?
                  && Step(booted, Prepare(missed)).disk.mark == 0 && Step(booted, Proceed) == booted)
            && (!stale ==> Step(booted, Proceed).mem.phase.Replaying? && Step(booted, Prepare(missed)) == booted)
  {
    var booted := Step(s, Boot(registered));
    if d :| d in s.disk.stored && d in registered && s.disk.stored[d] != registered[d] {
      assert d in StaleDatasets(booted.disk.stored, registered);
    }
    if d :| d in StaleDatasets(booted.disk.stored, registered) {
      assert s.disk.stored[d] != registered[d];
    }
  }

  /** What a wipe takes: all rows, and every leaf but those in the space's
      collections of datasets no longer registered; one that dies half-way takes
      some of them. */
  lemma WipeTakes(s: State, l: Leaf, kept: multiset<nat>, gone: set<Leaf>)
    requires s.mem.Up? && s.mem.phase.MustWipe? && kept <= s.disk.built
    ensures var u := Step(s, WipeDone(multiset{}, {})).disk;
            && u.built == multiset{}
            && (l in u.leaves <==> l in s.disk.leaves && l.perSpace && l.dataset !in s.mem.registered)
            && (l in u.leaves ==> u.leaves[l] == s.disk.leaves[l])
    ensures var u := Step(s, WipePart(kept, gone)).disk;
            && u.built == kept
            && (l in u.leaves <==> l in s.disk.leaves && (l !in gone || (l.perSpace && l.dataset !in s.mem.registered)))
            && (l in u.leaves ==> u.leaves[l] == s.disk.leaves[l])
  {}

  /** A replaying or loaded object takes the next change of the tree: its effects
      once, its AddSeq, and the apply sequence when it is the greatest; and a
      loaded one takes a local value of a dataset it registers, no other. */
  lemma LoadedTakes(s: State, a: nat, n: nat, l: Leaf, v: string)
    requires s.mem.Up?
    ensures (s.mem.phase.Replaying? || s.mem.phase.Ready?) && IsNext(s.log, s.mem.mark, a) ==>
              var u := Step(s, Apply(a, n));
              && u.disk.built == s.disk.built + multiset{a} && u.disk.mark == a == u.mem.mark
              && u.disk.applySeq == Max(s.disk.applySeq, n) && u.mem.maxApplySeq == Max(s.mem.maxApplySeq, n)
    ensures s.mem.phase.Ready? && l.dataset in s.mem.registered ==>
              var u := Step(s, LocalSet(l, v, n));
              && u.disk.leaves == s.disk.leaves[l := v] && u.wants == s.wants[l := v]
              && u.disk.applySeq == Max(s.disk.applySeq, n) && u.mem.maxApplySeq == Max(s.mem.maxApplySeq, n)
    ensures l.dataset !in s.mem.registered ==> Step(s, LocalSet(l, v, n)) == s
  {}

  // ------------------------------------------------- what a load does to a leaf

  /** The steps of one load, and changes that arrive meanwhile. */
  predicate InLoad(e: Event) {
    !e.Crash? && !e.LocalSet?
  }

  /** The leaves a load restores: those a rebuild recorded before, or else those
      a new rebuild captures. */
  function Taken(d: Disk, registered: Versions, missed: set<Leaf>): Option<Leaves> {
    if d.captured.None? && Stale(d.stored, registered) then Some(Capture(d.leaves, registered, missed))
    else d.captured
  }

  function Spared(d: Disk, registered: Versions, stuck: set<Leaf>): Leaves {
    if Stale(d.stored, registered) then Wipe(d.leaves, registered, stuck) else d.leaves
  }

  /** The rows' leaves once all but those of `undone` are restored. */
  function Outcome(d: Disk, registered: Versions, lapses: Lapses, undone: set<Leaf>): Leaves {
    match Taken(d, registered, lapses.missed)
    case None => Spared(d, registered, lapses.stuck)
    case Some(c) => Spared(d, registered, lapses.stuck) + (c - undone)
  }

  /** What is left of the rows in the middle of the wipe. */
  predicate Between(least: Leaves, rows: Leaves, most: Leaves) {
    && (forall l :: l in least ==> l in rows && rows[l] == least[l])
    && (forall l :: l in rows ==> l in most && most[l] == rows[l])
  }

  /** How far the load of t has come. */
  predicate Loading(t: State, registered: Versions, u: State) {
    && u.mem.Up? && u.mem.registered == registered && u.wants == t.wants
    && var m, lapses, taken := u.mem, u.mem.lapses, Taken(t.disk, registered, u.mem.lapses.missed);
    match m.phase
    case Checked =>
      u.disk.leaves == t.disk.leaves && u.disk.captured == t.disk.captured && u.disk.stored == t.disk.stored &&
      m.held.None? && lapses.refused == {} == lapses.stuck
    case MustWipe =>
      Stale(t.disk.stored, registered) && m.held == taken && lapses.refused == {} &&
      Between(Wipe(t.disk.leaves, registered, {}), u.disk.leaves, t.disk.leaves)
    case Replaying =>
      m.held == taken && lapses.refused == {} && u.disk.leaves == Spared(t.disk, registered, lapses.stuck)
    case Restoring(todo) =>
      taken.Some? && m.held == taken && todo !! lapses.refused &&
      u.disk.leaves == Outcome(t.disk, registered, lapses, todo + lapses.refused)
    case Ready => u.disk.leaves == Outcome(t.disk, registered, lapses, lapses.refused)
  }

  lemma {:induction false} LoadingStep(t: State, registered: Versions, u: State, e: Event)
    requires Loading(t, registered, u) && InLoad(e)
    ensures Loading(t, registered, Step(u, e))
  {
    if e.Restore? || e.Refuse? {
      LoadingRestore(t, registered, u, e);
    } else if e.WipePart? || e.WipeDone? {
      LoadingWipe(t, registered, u, e);
    } else if e.Replayed? || e.Finish? || e.FinishFails? {
      LoadingEnd(t, registered, u, e);
    }
  }

  lemma {:induction false} LoadingWipe(t: State, registered: Versions, u: State, e: Event)
    requires Loading(t, registered, u) && (e.WipePart? || e.WipeDone?)
    ensures Loading(t, registered, Step(u, e))
  {
    if Step(u, e) != u && e.WipeDone? {
      WipedTwice(t.disk.leaves, u.disk.leaves, registered, Stuck(u.disk.leaves, e.stuck));
    }
  }

  /** A wipe that goes on where a part of it stopped. */
  lemma WipedTwice(most: Leaves, rows: Leaves, registered: Versions, stuck: set<Leaf>)
    requires Between(Wipe(most, registered, {}), rows, most) && stuck <= rows.Keys
    ensures Wipe(rows, registered, stuck) == Wipe(most, registered, stuck)
  {}

  lemma {:induction false} LoadingRestore(t: State, registered: Versions, u: State, e: Event)
    requires Loading(t, registered, u) && (e.Restore? || e.Refuse?)
    ensures Loading(t, registered, Step(u, e))
  {
    var w := Step(u, e);
    if w != u {
      var m, c, refused := u.mem, u.mem.held.value, u.mem.lapses.refused;
      if e.Refuse? {
        assert m.phase.todo - {e.leaf} + (refused + {e.leaf}) == m.phase.todo + refused;
      } else {
        var base := Spared(t.disk, registered, m.lapses.stuck);
        var undone := m.phase.todo + refused;
        assert m.phase.todo - {e.leaf} + refused == undone - {e.leaf};
        assert (base + (c - undone))[e.leaf := c[e.leaf]] == base + (c - (undone - {e.leaf}));
      }
    }
  }

  lemma {:induction false} LoadingEnd(t: State, registered: Versions, u: State, e: Event)
    requires Loading(t, registered, u) && (e.Replayed? || e.Finish? || e.FinishFails?)
    ensures Loading(t, registered, Step(u, e))
  {
    var m := u.mem;
    if Step(u, e) != u {
      if e.Replayed? {
        if m.held.Some? {
          var base := Spared(t.disk, registered, m.lapses.stuck);
          assert base + (m.held.value - (m.held.value.Keys + {})) == base;
        }
      } else {
        assert {} + m.lapses.refused == m.lapses.refused;
      }
    }
  }

  lemma {:induction false} LoadOutcome(t: State, registered: Versions, es: seq<Event>)
    requires t.mem.Down? && forall e :: e in es ==> InLoad(e)
    ensures Loading(t, registered, Run(Step(t, Boot(registered)), es))
    decreases |es|
  {
    if es != [] {
      LoadOutcome(t, registered, es[..|es| - 1]);
      LoadingStep(t, registered, Run(Step(t, Boot(registered)), es[..|es| - 1]), es[|es| - 1]);
    }
  }

  /** Whether a leaf comes through a load, from what the load finds on disk and
      what it fails at. */
  predicate ComesThrough(t: State, registered: Versions, lapses: Lapses, l: Leaf) {
    var taken := Stale(t.disk.stored, registered) && Wiped(registered, l) && l !in lapses.stuck;
    if t.disk.captured.Some? then
      if l in t.disk.captured.value && l !in lapses.refused then OnRow(t, l) else InRows(t, l) && !taken
    else
      InRows(t, l) && (taken ==> l.dataset in registered && l !in lapses.missed && l !in lapses.refused)
  }

  /** A load that runs to its end leaves a device-local value in the rows
      exactly when the value comes through; once no rebuild is recorded any
      more, every other one is lost. */
  lemma {:induction false} LoadKeepsIff(before: seq<Event>, registered: Versions, es: seq<Event>, l: Leaf)
    requires forall e :: e in es ==> InLoad(e)
    requires var t := Run(FRESH, before); t.mem.Down? && l in t.wants
    requires Open(Run(Step(Run(FRESH, before), Boot(registered)), es))
    ensures var t := Run(FRESH, before);
            var u := Run(Step(t, Boot(registered)), es);
            && u.wants == t.wants
            && (InRows(u, l) <==> ComesThrough(t, registered, u.mem.lapses, l))
            && (u.disk.captured.None? ==> (l in u.lost <==> !ComesThrough(t, registered, u.mem.lapses, l)))
  {
    var t := Run(FRESH, before);
    LoadOutcome(t, registered, es);
    Then(FRESH, before, Boot(registered));
    RunJoin(FRESH, before + [Boot(registered)], es);
    LossesAreAccounted(before + [Boot(registered)] + es);
    OutcomeKeeps(t, registered, Run(Step(t, Boot(registered)), es), l);
  }

  /** What the rows hold after a load, leaf by leaf. */
  lemma {:induction false} OutcomeKeeps(t: State, registered: Versions, u: State, l: Leaf)
    requires Loading(t, registered, u) && Open(u) && l in t.wants
    ensures InRows(u, l) <==> ComesThrough(t, registered, u.mem.lapses, l)
  {}

  lemma {:induction false} RunJoin(s: State, a: seq<Event>, b: seq<Event>)
    ensures Run(s, a + b) == Run(Run(s, a), b)
    decreases |b|
  {
    if b == [] {
      assert a + b == a;
    } else {
      RunJoin(s, a, b[..|b| - 1]);
      assert (a + b)[..|a + b| - 1] == a + b[..|b| - 1];
    }
  }

  // -------------------------------------------- what the guards shut out

  /** Some change is in the rows more often than the watermark accounts for. */
  predicate Overcounted(s: State) {
    exists a :: a in s.disk.built && s.disk.built[a] > multiset(Below(s.log, s.disk.mark))[a]
  }

  lemma {:induction false} OvercountStays(s: State, e: Event)
    requires InStep(s) && Overcounted(s) && !e.WipePart? && !e.WipeDone?
    ensures Overcounted(Step(s, e))
  {
    var a :| a in s.disk.built && s.disk.built[a] > multiset(Below(s.log, s.disk.mark))[a];
    if Step(s, e) != s {
      match e {
        case Arrive(b) => BelowArrive(s.log, s.disk.mark, b);
        case Apply(b, _) => BelowNext(s.log, s.disk.mark, b);
        case _ =>
      }
    }
    assert a in Step(s, e).disk.built;
  }

  lemma {:induction false} OvercountRun(s: State, es: seq<Event>)
    requires InStep(s) && Overcounted(s) && forall e :: e in es ==> !e.WipePart? && !e.WipeDone?
    ensures InStep(Run(s, es)) && Overcounted(Run(s, es))
    decreases |es|
  {
    if es != [] {
      OvercountRun(s, es[..|es| - 1]);
      InStepStep(Run(s, es[..|es| - 1]), es[|es| - 1]);
      OvercountStays(Run(s, es[..|es| - 1]), es[|es| - 1]);
    }
  }

  /** A load up to its replay, with what a failed drop of its wipe keeps. */
  function Opening(s: State, registered: Versions, kept: multiset<nat>, stuck: set<string>): State {
    var t := Step(s, Boot(registered));
    if Stale(s.disk.stored, registered) then Step(Step(t, Prepare({})), WipeDone(kept, stuck))
    else Step(t, Proceed)
  }

  /** A load starts its replay over exact rows exactly when it finds a stale
      version and its wipe leaves no row behind, or finds none and exact rows;
      otherwise no replay repairs them. */
  lemma {:induction false} UnwipedRowsIff(s: State, registered: Versions, kept: multiset<nat>, stuck: set<string>,
                                          es: seq<Event>)
    requires Sound(s) && s.mem.Down? && kept <= s.disk.built && (stuck == {} ==> kept == multiset{})
    requires forall e :: e in es ==> !e.WipePart? && !e.WipeDone?
    ensures var repaired := if Stale(s.disk.stored, registered) then kept == multiset{} else RowsExact(s);
            var t := Opening(s, registered, kept, stuck);
            && (RowsExact(t) <==> repaired)
            && (!repaired ==> !RowsExact(Run(t, es)))
  {
    assert Below(s.log, 0) == {};
    var t := Opening(s, registered, kept, stuck);
    OpeningRows(s, registered, kept, stuck);
    if !RowsExact(t) {
      assert t.disk.built != multiset{};
      var a :| a in t.disk.built;
      assert Overcounted(t);
      OvercountRun(t, es);
    }
  }

  lemma {:induction false} OpeningRows(s: State, registered: Versions, kept: multiset<nat>, stuck: set<string>)
    requires Sound(s) && s.mem.Down? && kept <= s.disk.built && (stuck == {} ==> kept == multiset{})
    ensures var t := Opening(s, registered, kept, stuck);
            && InStep(t) && t.log == s.log
            && (if Stale(s.disk.stored, registered) then t.disk.built == kept && t.disk.mark == 0
                else t.disk == s.disk)
  {
    InStepStep(s, Boot(registered));
    var t := Step(s, Boot(registered));
    if Stale(s.disk.stored, registered) {
      InStepStep(t, Prepare({}));
      InStepStep(Step(t, Prepare({})), WipeDone(kept, stuck));
    } else {
      InStepStep(t, Proceed);
    }
  }

  lemma Then(s: State, es: seq<Event>, e: Event)
    ensures Run(s, es + [e]) == Step(Run(s, es), e)
  {
    assert (es + [e])[..|es|] == es;
  }

  lemma {:induction false} AppliesOne(v: Versions) returns (es: seq<Event>)
    requires v != map[]
    ensures var s := Run(FRESH, es);
            && s.disk.built == multiset{1} && s.disk.stored == v && s.log == {1} && s.mem.Up?
            && s.disk.leaves == map[] && s.disk.captured.None?
  {
    assert !Stale(map[], v);
    es := [];
    Then(FRESH, es, Arrive(1));
    Then(FRESH, es + [Arrive(1)], Boot(v));
    Then(FRESH, es + [Arrive(1)] + [Boot(v)], Proceed);
    Then(FRESH, es + [Arrive(1)] + [Boot(v)] + [Proceed], Apply(1, 1));
    es := es + [Arrive(1)] + [Boot(v)] + [Proceed] + [Apply(1, 1)];
  }

  /** A change applied by one handler version, then a newer version's load that
      dies between reset and wipe. */
  lemma {:induction false} DiesBeforeWipe(v1: Versions, v2: Versions) returns (es: seq<Event>)
    requires Stale(v1, v2)
    ensures var s := Run(FRESH, es);
            && s.disk.built == multiset{1} && s.disk.stored == v1 && s.disk.mark == 0 && s.log == {1}
            && s.disk.captured.Some? && s.mem.Down?
  {
    assert v1 != map[];
    es := AppliesOne(v1);
    Then(FRESH, es, Crash);
    Then(FRESH, es + [Crash], Boot(v2));
    Then(FRESH, es + [Crash] + [Boot(v2)], Prepare({}));
    Then(FRESH, es + [Crash] + [Boot(v2)] + [Prepare({})], Crash);
    es := es + [Crash] + [Boot(v2)] + [Prepare({})] + [Crash];
  }

  /** The older version loading then: the change counts twice. */
  lemma {:induction false} RollbackReplaysTwice(v1: Versions, v2: Versions) returns (es: seq<Event>)
    requires Stale(v1, v2)
    ensures Run(FRESH, es).disk.built == multiset{1, 1}
  {
    es := DiesBeforeWipe(v1, v2);
    assert !Stale(v1, v1);
    Then(FRESH, es, Boot(v1));
    Then(FRESH, es + [Boot(v1)], Proceed);
    Then(FRESH, es + [Boot(v1)] + [Proceed], Apply(1, 2));
    es := es + [Boot(v1)] + [Proceed] + [Apply(1, 2)];
  }

  /** A load that finds a stale version, but whose wipe fails to drop the
      collection of the change's rows: the change counts twice as well, and the
      finish declares the rows current. */
  lemma {:induction false} FailedDropReplaysTwice(v1: Versions, v2: Versions, dataset: string) returns (es: seq<Event>)
    requires Stale(v1, v2)
    ensures var s := Run(FRESH, es);
            && Open(s) && s.disk.built == multiset{1, 1} && s.disk.mark == 1 && s.log == {1}
            && s.disk.captured.None? && !Stale(s.disk.stored, v2)
  {
    var failed := DropFails(v1, v2, dataset);
    assert v2 != map[];
    Then2(FRESH, failed, Apply(1, 2), Replayed);
    es := failed + [Apply(1, 2), Replayed] + [Finish];
    Then(FRESH, failed + [Apply(1, 2), Replayed], Finish);
  }

  lemma {:induction false} DropFails(v1: Versions, v2: Versions, dataset: string) returns (es: seq<Event>)
    requires Stale(v1, v2)
    ensures var s := Run(FRESH, es);
            && s.disk.built == multiset{1} && s.disk.mark == 0 && s.log == {1} && s.disk.captured == Some(map[])
            && s.mem.Up? && s.mem.phase.Replaying? && s.mem.registered == v2 && s.mem.mark == 0
            && s.mem.held == Some(map[])
  {
    assert v1 != map[];
    var applied := AppliesOne(v1);
    Then4(FRESH, applied, Crash, Boot(v2), Prepare({}), WipeDone(multiset{1}, {dataset}));
    es := applied + [Crash, Boot(v2), Prepare({}), WipeDone(multiset{1}, {dataset})];
    WipesAround(Run(FRESH, applied), v1, v2, dataset);
  }

  lemma {:induction false} WipesAround(s: State, v1: Versions, v2: Versions, dataset: string)
    requires s.disk.built == multiset{1} && s.disk.stored == v1 && s.disk.leaves == map[] && s.disk.captured.None?
    requires Stale(v1, v2)
    ensures var t := Step(Step(Step(Step(s, Crash), Boot(v2)), Prepare({})), WipeDone(multiset{1}, {dataset}));
            && t.disk.built == multiset{1} && t.disk.mark == 0 && t.log == s.log && t.disk.captured == Some(map[])
            && t.mem.Up? && t.mem.phase.Replaying? && t.mem.registered == v2 && t.mem.mark == 0
            && t.mem.held == Some(map[])
  {
    var t := Step(Step(Step(s, Crash), Boot(v2)), Prepare({}));
    assert Capture(map[], v2, {}) == map[];
    assert t.mem.phase.MustWipe? && t.disk.captured == Some(map[]) && t.disk.built == multiset{1};
  }

  // ------------------------------------------------------ device-local losses

  lemma Pairs(es: seq<Event>, a: Event, b: Event)
    ensures es + [a, b] == es + [a] + [b]
  {}

  lemma {:induction false} Then2(s: State, es: seq<Event>, a: Event, b: Event)
    ensures Run(s, es + [a, b]) == Step(Step(Run(s, es), a), b)
  {
    Pairs(es, a, b);
    Then(s, es, a);
    Then(s, es + [a], b);
  }

  lemma Quads(es: seq<Event>, a: Event, b: Event, c: Event, d: Event)
    ensures es + [a, b, c, d] == es + [a, b] + [c, d]
  {}

  lemma {:induction false} Then4(s: State, es: seq<Event>, a: Event, b: Event, c: Event, d: Event)
    ensures Run(s, es + [a, b, c, d]) == Step(Step(Step(Step(Run(s, es), a), b), c), d)
  {
    Quads(es, a, b, c, d);
    Then2(s, es, a, b);
    Then2(s, es + [a, b], c, d);
  }

  /** A loaded object of an empty tree. */
  predicate Loaded(s: State, v: Versions, leaves: Leaves, captured: Option<Leaves>) {
    && Open(s) && s.mem.registered == v && s.mem.mark == 0
    && s.disk.stored == v && s.disk.leaves == leaves && s.disk.captured == captured && s.disk.mark == 0 && s.log == {}
  }

  /** A leaf written on a fresh object. */
  lemma {:induction false} WritesOne(v: Versions, l: Leaf, x: string) returns (es: seq<Event>)
    requires l.dataset in v
    ensures Loaded(Run(FRESH, es), v, map[l := x], None)
    ensures Run(FRESH, es).wants == map[l := x] && Run(FRESH, es).lost == {}
  {
    assert !Stale(map[], v);
    es := [] + [Boot(v), Proceed, Replayed, LocalSet(l, x, 1)];
    Then4(FRESH, [], Boot(v), Proceed, Replayed, LocalSet(l, x, 1));
  }

  /** An object of an empty tree, rebuilt up to the restore of c. */
  predicate Rebuilt(s: State, v: Versions, rows: Leaves, c: Leaves) {
    && s.mem.Up? && s.mem.phase == Restoring(c.Keys) && s.mem.registered == v && s.mem.held == Some(c)
    && s.mem.lapses.refused == {} && s.mem.mark == 0
    && s.disk.leaves == rows && s.disk.captured == Some(c) && s.disk.mark == 0 && s.log == {}
  }

  lemma {:induction false} ResetsAndWipes(s: State, v: Versions, w: Versions, leaves: Leaves, captured: Option<Leaves>)
      returns (t: State)
    requires Loaded(s, v, leaves, captured) && Stale(v, w)
    ensures t == Step(Step(Step(Step(s, Crash), Boot(w)), Prepare({})), WipeDone(multiset{}, {})) && t.wants == s.wants
    ensures var c := if captured.Some? then captured.value else Capture(leaves, w, {});
            && t.mem.Up? && t.mem.phase.Replaying? && t.mem.registered == w && t.mem.held == Some(c)
            && t.mem.lapses.refused == {} && t.mem.mark == 0
            && t.disk.leaves == Wipe(leaves, w, {}) && t.disk.captured == Some(c) && t.disk.mark == 0 && t.log == {}
  {
    t := Step(Step(s, Crash), Boot(w));
    assert t.disk == s.disk && t.mem == Up(w, 0, s.disk.applySeq, None, Checked, NONE);
    t := Step(Step(t, Prepare({})), WipeDone(multiset{}, {}));
  }

  /** A rebuild of a loaded object, up to the restore. */
  lemma {:induction false} Rebuilds(es: seq<Event>, v: Versions, w: Versions, leaves: Leaves, captured: Option<Leaves>)
      returns (more: seq<Event>)
    requires Loaded(Run(FRESH, es), v, leaves, captured) && Stale(v, w)
    ensures Rebuilt(Run(FRESH, more), w, Wipe(leaves, w, {}),
                    if captured.Some? then captured.value else Capture(leaves, w, {}))
    ensures Run(FRESH, more).wants == Run(FRESH, es).wants
  {
    var t := ResetsAndWipes(Run(FRESH, es), v, w, leaves, captured);
    Then4(FRESH, es, Crash, Boot(w), Prepare({}), WipeDone(multiset{}, {}));
    more := es + [Crash, Boot(w), Prepare({}), WipeDone(multiset{}, {})] + [Replayed];
    Then(FRESH, es + [Crash, Boot(w), Prepare({}), WipeDone(multiset{}, {})], Replayed);
  }

  /** The rebuild of an object that lost a type: the values of the dataset no
      longer registered are gone for good. */
  lemma {:induction false} UnregisteredLeafIsLost(v: Versions, w: Versions, l: Leaf, x: string)
      returns (es: seq<Event>)
    requires l.dataset in v && l.dataset !in w && !l.perSpace && Stale(v, w)
    ensures var s := Run(FRESH, es);
            && Open(s) && s.disk.captured.None?
            && s.wants == map[l := x] && s.disk.leaves == map[] && l in s.lost
  {
    var first := WritesOne(v, l, x);
    var rebuilt := Rebuilds(first, v, w, map[l := x], None);
    assert Capture(map[l := x], w, {}) == map[] && Wipe(map[l := x], w, {}) == map[];
    es := rebuilt + [Finish];
    Then(FRESH, rebuilt, Finish);
    LossesAreAccounted(es);
  }

  /** And so is a captured value whose restore is refused. */
  lemma {:induction false} RefusedLeafIsLost(v: Versions, w: Versions, l: Leaf, x: string) returns (es: seq<Event>)
    requires l.dataset in v && l.dataset in w && Stale(v, w)
    ensures var s := Run(FRESH, es);
            && Open(s) && s.disk.captured.None? && s.mem.lapses.refused == {l}
            && s.wants == map[l := x] && s.disk.leaves == map[] && l in s.lost
  {
    var first := WritesOne(v, l, x);
    var rebuilt := Rebuilds(first, v, w, map[l := x], None);
    assert Capture(map[l := x], w, {}) == map[l := x] && Wipe(map[l := x], w, {}) == map[];
    es := rebuilt + [Refuse(l), Finish];
    Then2(FRESH, rebuilt, Refuse(l), Finish);
    LossesAreAccounted(es);
  }

  // ------------------------------------------------------------ a failed finish

  /** A rebuild whose finish fails leaves the object loaded and the captured
      value on the row. */
  lemma {:induction false} FinishFailing(v: Versions, w: Versions, l: Leaf, x: string) returns (es: seq<Event>)
    requires l.dataset in v && l.dataset in w && Stale(v, w)
    ensures Loaded(Run(FRESH, es), w, map[l := x], Some(map[l := x])) && Run(FRESH, es).wants == map[l := x]
  {
    var first := WritesOne(v, l, x);
    var rebuilt := Rebuilds(first, v, w, map[l := x], None);
    assert Capture(map[l := x], w, {}) == map[l := x] && Wipe(map[l := x], w, {}) == map[];
    es := rebuilt + [Restore(l, 2), FinishFails];
    Then2(FRESH, rebuilt, Restore(l, 2), FinishFails);
  }

  /** A value written while a rebuild is recorded on the row comes through the
      next load exactly when the load restores the same value to that leaf, or
      restores none and takes none away. */
  lemma {:induction false} WriteAfterFailedFinishIff(before: seq<Event>, l: Leaf, x: string, n: nat, w: Versions,
                                                     es: seq<Event>)
    requires forall e :: e in es ==> InLoad(e)
    requires var s := Run(FRESH, before);
             Open(s) && l.dataset in s.mem.registered && s.disk.captured.Some?
    requires var t := Run(FRESH, before + [LocalSet(l, x, n), Crash]);
             Open(Run(Step(t, Boot(w)), es))
    ensures var s := Run(FRESH, before);
            var u := Run(Step(Run(FRESH, before + [LocalSet(l, x, n), Crash]), Boot(w)), es);
            var c := s.disk.captured.value;
            && u.wants == s.wants[l := x]
            && (InRows(u, l) <==>
                  if l in c && l !in u.mem.lapses.refused then c[l] == x
                  else !(Stale(s.mem.registered, w) && Wiped(w, l)) || l in u.mem.lapses.stuck)
  {
    var s := Run(FRESH, before);
    Then2(FRESH, before, LocalSet(l, x, n), Crash);
    assert s.mem.registered != map[];
    LoadKeepsIff(before + [LocalSet(l, x, n), Crash], w, es, l);
  }

  /** After a failed finish the next load puts the captured value back over a
      newer one. */
  lemma {:induction false} FailedFinishUndoesAWrite(v: Versions, w: Versions, l: Leaf, x: string, y: string)
      returns (es: seq<Event>)
    requires l.dataset in v && l.dataset in w && Stale(v, w) && x != y
    ensures var s := Run(FRESH, es);
            && Open(s) && s.disk.captured.None?
            && s.wants == map[l := y] && s.disk.leaves == map[l := x] && l in s.lost
  {
    var failed := FinishFailing(v, w, l, x);
    Then(FRESH, failed, LocalSet(l, y, 3));
    var written := failed + [LocalSet(l, y, 3)];
    assert map[l := x][l := y] == map[l := y];
    var resumed := Resumes(written, w, map[l := y], map[l := x]);
    es := resumed + [Restore(l, 4), Finish];
    Then2(FRESH, resumed, Restore(l, 4), Finish);
    RestoresOver(Run(FRESH, resumed), w, l, x, y);
    LossesAreAccounted(es);
  }

  lemma {:induction false} RestoresOver(s: State, w: Versions, l: Leaf, x: string, y: string)
    requires Rebuilt(s, w, map[l := y], map[l := x])
    ensures var t := Step(Step(s, Restore(l, 4)), Finish);
            Open(t) && t.disk.captured.None? && t.wants == s.wants && t.disk.leaves == map[l := x]
  {
    assert map[l := y][l := x] == map[l := x];
  }

  /** A load that resumes a recorded rebuild, up to the restore. */
  lemma {:induction false} Resumes(es: seq<Event>, v: Versions, leaves: Leaves, c: Leaves) returns (more: seq<Event>)
    requires Loaded(Run(FRESH, es), v, leaves, Some(c))
    ensures Rebuilt(Run(FRESH, more), v, leaves, c) && Run(FRESH, more).wants == Run(FRESH, es).wants
  {
    assert !Stale(v, v);
    Then4(FRESH, es, Crash, Boot(v), Proceed, Replayed);
    more := es + [Crash, Boot(v), Proceed, Replayed];
  }

  /** And when that load finds a stale version, it re-uses the old capture and
      wipes what was written to any other leaf. */
  lemma {:induction false} FailedFinishLosesAWrite(v: Versions, w: Versions, next: Versions, l: Leaf, x: string,
                                                   k: Leaf, y: string) returns (es: seq<Event>)
    requires l.dataset in v && l.dataset in w && k.dataset in w && k.dataset in next && k != l
    requires Stale(v, w) && Stale(w, next)
    ensures var s := Run(FRESH, es);
            && Open(s) && s.disk.captured.None? && s.mem.lapses.refused == {}
            && k in s.wants && s.wants[k] == y && s.disk.leaves.Keys <= {l} && k in s.lost
  {
    var failed := FinishFailing(v, w, l, x);
    Then(FRESH, failed, LocalSet(k, y, 3));
    var written := failed + [LocalSet(k, y, 3)];
    var rebuilt := Rebuilds(written, w, next, map[l := x][k := y], Some(map[l := x]));
    es := rebuilt + [Restore(l, 4), Finish];
    Then2(FRESH, rebuilt, Restore(l, 4), Finish);
    LossesAreAccounted(es);
  }

  // ---------------------------------------------------------- the code's shape

  /** The controller of one object over its `_meta` row and rows. */
  class Controller {
    const registered: Versions
    var row: Disk
    var maxAddSeq: nat
    var maxApplySeq: nat
    var staleDatasets: set<string>
    var reindexPending: bool
    var reindexLocal: Leaves

    ghost function View(held: Option<Leaves>, phase: Phase, lapses: Lapses): Mem
      reads this
    {
      Up(registered, maxAddSeq, maxApplySeq, held, phase, lapses)
    }

    /** What loading reads off the row. */
    ghost predicate Seeded()
      reads this
    {
      && staleDatasets == StaleDatasets(row.stored, registered)
      && reindexPending == row.captured.Some?
      && (reindexPending ==> reindexLocal == row.captured.value)
    }

    /** `LoadAndSeedMeta`. */
    constructor (registered: Versions, row: Disk)
      ensures Seeded() && this.row == row
      ensures forall s: State :: s.disk == row && s.mem.Down? ==>
                Step(s, Boot(registered)).mem == View(None, Checked, NONE)
    {
      this.registered, this.row := registered, row;
      maxAddSeq, maxApplySeq := row.mark, row.applySeq;
      staleDatasets := StaleDatasets(row.stored, registered);
      reindexPending := row.captured.Some?;
      reindexLocal := if row.captured.Some? then row.captured.value else map[];
    }

    /** `ResetForReindex`. */
    method ResetForReindex(leaves: Leaves)
      modifies this
      ensures row == ResetDisk(old(row), old(maxApplySeq), leaves)
      ensures maxAddSeq == 0 && maxApplySeq == old(maxApplySeq)
      ensures staleDatasets == {} && reindexPending
    {
      maxAddSeq := 0;
      staleDatasets := {};
      reindexPending := true;
      reindexLocal := map[];
      row := row.(mark := 0, applySeq := Max(row.applySeq, maxApplySeq), captured := Some(leaves));
    }

    /** The part of `reindexPrepare` before the wipe; a capture may miss leaves. */
    method ReindexPrepare(missed: set<Leaf>) returns (leaves: Leaves)
      requires Seeded() && staleDatasets != {}
      modifies this
      ensures forall s: State :: s.disk == old(row) && s.mem == old(View(None, Checked, NONE)) ==>
                Step(s, Prepare(missed)).disk == row &&
                Step(s, Prepare(missed)).mem == View(Some(leaves), MustWipe, Lapses(missed, {}, {}))
    {
      leaves := if reindexPending then reindexLocal else Capture(row.leaves, registered, missed);
      ResetForReindex(leaves);
    }

    /** `PersistVersions`. */
    method PersistVersions(ghost held: Option<Leaves>, ghost lapses: Lapses)
      modifies this
      ensures forall s: State :: s.disk == old(row) && s.mem == old(View(held, Restoring({}), lapses)) ==>
                Step(s, Finish).disk == row && Step(s, Finish).mem == View(None, Ready, lapses)
      ensures row.captured == None && !reindexPending && !Stale(row.stored, registered)
    {
      reindexPending := false;
      reindexLocal := map[];
      row := row.(mark := maxAddSeq, applySeq := Max(row.applySeq, maxApplySeq),
                  stored := if registered == map[] then row.stored else registered, captured := None);
    }
  }
}
