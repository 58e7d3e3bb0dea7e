/** The reference-counted space stores: opening, sharing, releasing, claiming
    for deletion and shutting down. Every section the provider runs under its
    mutex, and every open, close and file removal between two sections, is one
    atomic step of one of any number of goroutines. */
module SpaceStore {
  import opened Basics

  type SpaceId = string
  type Tid = nat

  /** The database behind an entry: nil, open, or closed. */
  datatype Db = Unopened | Open | Shut

  /** `storeEntry`. `pending` is the channel waiters block on, told apart by the
      goroutine that closes it; `dbClosed` the flag, by the one that set it;
      `draining` says that the `drained` channel is there. */
  datatype Entry = Entry(space: SpaceId, db: Db, refs: int, pending: Option<Tid>,
                         deleting: bool, draining: bool, dbClosed: Option<Tid>)

  /** `storeRef`. */
  datatype Handle = Handle(e: nat, released: bool)

  /** Where a goroutine stands between two sections. */
  datatype Proc =
    | Opening(e: nat)
    | Closing(e: nat)
    | Unmapping(e: nat)
    | Claimed(e: nat)
    | Draining(e: nat)
    | Drained(e: nat, timedOut: bool)
    | DeleteClosing(e: nat, timedOut: bool)
    | FileDue(e: nat)
    | DropDue(e: nat)
    | Letting(e: nat)
    | LetClosing(e: nat)
    | Sweeping(todo: set<nat>)
    | SweepAt(e: nat, todo: set<nat>)
    | SweepClosing(e: nat, todo: set<nat>)

  datatype Sys = Sys(entries: seq<Entry>, stores: map<SpaceId, nat>, closed: bool,
                     handles: seq<Handle>, procs: map<Tid, Proc>, files: set<SpaceId>)

  const START := Sys([], map[], false, [], map[], {})

  datatype Event =
    | Acquire(t: Tid, space: SpaceId, create: bool)
    | Opened(t: Tid, ok: bool)
    | CloseHandle(t: Tid, h: nat)
    | DbClose(t: Tid)
    | Unmap(t: Tid)
    | Claim(t: Tid, space: SpaceId)
    | BeginDelete(t: Tid)
    | DrainEnds(t: Tid, timeout: bool)
    | MarkClosed(t: Tid)
    | RemoveFile(t: Tid, ok: bool)
    | DropEntry(t: Tid)
    | BeginRelease(t: Tid)
    | LetGo(t: Tid)
    | CloseAll(t: Tid)
    | SweepPick(t: Tid, e: nat)
    | SweepMark(t: Tid)
    | SweepEnd(t: Tid)

  predicate Attached(s: Sys, i: nat)
    requires i < |s.entries|
  {
    s.entries[i].space in s.stores && s.stores[s.entries[i].space] == i
  }

  /** `if s.stores[e.id] == e { delete(s.stores, e.id) }`. */
  function Detach(s: Sys, i: nat): map<SpaceId, nat>
    requires i < |s.entries|
  {
    if Attached(s, i) then s.stores - {s.entries[i].space} else s.stores
  }

  predicate At(s: Sys, t: Tid) {
    t in s.procs && (s.procs[t].Sweeping? || s.procs[t].e < |s.entries|)
  }

  function Idle(s: Sys, t: Tid): map<Tid, Proc> {
    s.procs - {t}
  }

  function Acquired(s: Sys, t: Tid, space: SpaceId, create: bool): Sys {
    if s.closed || t in s.procs then s
    else if space !in s.stores then
      s.(entries := s.entries + [Entry(space, Unopened, 0, Some(t), false, false, None)],
         stores := s.stores[space := |s.entries|], procs := s.procs[t := Opening(|s.entries|)])
    else
      var i := s.stores[space];
      if i >= |s.entries| || s.entries[i].deleting || s.entries[i].pending.Some? || create then s
      else s.(entries := s.entries[i := s.entries[i].(refs := s.entries[i].refs + 1)],
              handles := s.handles + [Handle(i, false)])
  }

  function OpenEnds(s: Sys, t: Tid, ok: bool): Sys {
    if !(At(s, t) && s.procs[t].Opening?) then s
    else
      var i := s.procs[t].e;
      var e := s.entries[i];
      if ok then
        s.(entries := s.entries[i := e.(pending := None, db := Open, refs := 1)], procs := Idle(s, t),
           handles := s.handles + [Handle(i, false)], files := s.files + {e.space})
      else
        s.(entries := s.entries[i := e.(pending := None)], procs := Idle(s, t), stores := s.stores - {e.space})
  }

  function Released(s: Sys, t: Tid, h: nat): Sys {
    if t in s.procs || h >= |s.handles| || s.handles[h].released || s.handles[h].e >= |s.entries| then s
    else
      var i := s.handles[h].e;
      var e := s.entries[i].(refs := s.entries[i].refs - 1);
      var after := s.(handles := s.handles[h := s.handles[h].(released := true)]);
      if e.refs > 0 || e.dbClosed.Some? then after.(entries := s.entries[i := e])
      else if e.deleting then after.(entries := s.entries[i := e.(draining := false)])
      else after.(entries := s.entries[i := e.(pending := Some(t), dbClosed := Some(t))],
                  procs := s.procs[t := Closing(i)])
  }

  function DbCloses(s: Sys, t: Tid): Sys {
    if !At(s, t) || s.procs[t].Sweeping? then s
    else
      var i := s.procs[t].e;
      var shut := s.entries[i := s.entries[i].(db := Shut)];
      match s.procs[t]
      case Closing(_) => s.(entries := shut, procs := s.procs[t := Unmapping(i)])
      case DeleteClosing(_, _) => s.(entries := shut, procs := s.procs[t := FileDue(i)])
      case LetClosing(_) => s.(entries := shut, procs := s.procs[t := Letting(i)])
      case SweepClosing(_, todo) => s.(entries := shut, procs := s.procs[t := Sweeping(todo)])
      case _ => s
  }

  function Unmapped(s: Sys, t: Tid): Sys {
    if At(s, t) && (s.procs[t].Unmapping? || s.procs[t].DropDue?) then
      var i := s.procs[t].e;
      s.(stores := Detach(s, i), entries := s.entries[i := s.entries[i].(pending := None)], procs := Idle(s, t))
    else s
  }

  function ClaimedBy(s: Sys, t: Tid, space: SpaceId): Sys {
    if s.closed || t in s.procs then s
    else if space !in s.stores then
      s.(entries := s.entries + [Entry(space, Unopened, 0, Some(t), true, false, Some(t))],
         stores := s.stores[space := |s.entries|], procs := s.procs[t := Claimed(|s.entries|)])
    else
      var i := s.stores[space];
      if i >= |s.entries| || s.entries[i].deleting || s.entries[i].pending.Some? then s
      else
        var e := s.entries[i];
        s.(entries := s.entries[i := e.(deleting := true, pending := Some(t), draining := e.refs > 0)],
           procs := s.procs[t := Claimed(i)])
  }

  function Drains(s: Sys, t: Tid, timeout: bool): Sys {
    if At(s, t) && s.procs[t].Draining? && s.entries[s.procs[t].e].draining == timeout then
      s.(procs := s.procs[t := Drained(s.procs[t].e, timeout)])
    else s
  }

  function Marked(s: Sys, t: Tid): Sys {
    if !(At(s, t) && s.procs[t].Drained?) then s
    else
      var i, timedOut := s.procs[t].e, s.procs[t].timedOut;
      var e := s.entries[i];
      if !e.db.Unopened? && e.dbClosed.None? then
        s.(entries := s.entries[i := e.(dbClosed := Some(t))], procs := s.procs[t := DeleteClosing(i, timedOut)])
      else s.(procs := s.procs[t := FileDue(i)])
  }

  function Removed(s: Sys, t: Tid, ok: bool): Sys {
    if At(s, t) && s.procs[t].FileDue? then
      var i := s.procs[t].e;
      s.(files := if ok then s.files - {s.entries[i].space} else s.files, procs := s.procs[t := DropDue(i)])
    else s
  }

  function LetsGo(s: Sys, t: Tid): Sys {
    if !(At(s, t) && s.procs[t].Letting?) then s
    else
      var i := s.procs[t].e;
      var e := s.entries[i];
      if e.refs > 0 || e.dbClosed.Some? then
        s.(entries := s.entries[i := e.(deleting := false, draining := false, pending := None)], procs := Idle(s, t),
           stores := if e.dbClosed.Some? then Detach(s, i) else s.stores)
      else s.(entries := s.entries[i := e.(dbClosed := Some(t))], procs := s.procs[t := LetClosing(i)])
  }

  function SweepMarks(s: Sys, t: Tid): Sys {
    if !(At(s, t) && s.procs[t].SweepAt?) then s
    else
      var i, todo := s.procs[t].e, s.procs[t].todo;
      var e := s.entries[i];
      if e.dbClosed.Some? || e.db.Unopened? then s.(procs := s.procs[t := Sweeping(todo)])
      else s.(entries := s.entries[i := e.(dbClosed := Some(t))], stores := Detach(s, i),
              procs := s.procs[t := SweepClosing(i, todo)])
  }

  function Step(s: Sys, e: Event): Sys {
    match e
    case Acquire(t, space, create) => Acquired(s, t, space, create)
    case Opened(t, ok) => OpenEnds(s, t, ok)
    case CloseHandle(t, h) => Released(s, t, h)
    case DbClose(t) => DbCloses(s, t)
    case Unmap(t) => if t in s.procs && s.procs[t].Unmapping? then Unmapped(s, t) else s
    case Claim(t, space) => ClaimedBy(s, t, space)
    case BeginDelete(t) =>
      if t in s.procs && s.procs[t].Claimed? then s.(procs := s.procs[t := Draining(s.procs[t].e)]) else s
    case DrainEnds(t, timeout) => Drains(s, t, timeout)
    case MarkClosed(t) => Marked(s, t)
    case RemoveFile(t, ok) => Removed(s, t, ok)
    case DropEntry(t) => if t in s.procs && s.procs[t].DropDue? then Unmapped(s, t) else s
    case BeginRelease(t) =>
      if t in s.procs && s.procs[t].Claimed? then s.(procs := s.procs[t := Letting(s.procs[t].e)]) else s
    case LetGo(t) => LetsGo(s, t)
    case CloseAll(t) =>
      if t in s.procs then s else s.(closed := true, procs := s.procs[t := Sweeping(s.stores.Values)])
    case SweepPick(t, i) =>
      if t in s.procs && s.procs[t].Sweeping? && i in s.procs[t].todo && i < |s.entries| && s.entries[i].pending.None?
      then s.(procs := s.procs[t := SweepAt(i, s.procs[t].todo - {i})])
      else s
    case SweepMark(t) => SweepMarks(s, t)
    case SweepEnd(t) => if t in s.procs && s.procs[t] == Sweeping({}) then s.(procs := Idle(s, t)) else s
  }

  function Run(s: Sys, es: seq<Event>): Sys
    decreases |es|
  {
    if es == [] then s else Step(Run(s, es[..|es| - 1]), es[|es| - 1])
  }

  // ---------------------------------------------------------------- invariants

  /** The goroutine that will close the entry's pending channel. */
  predicate Owns(p: Proc, i: nat) {
    !p.Sweeping? && !p.SweepAt? && !p.SweepClosing? && p.e == i
  }

  /** The goroutine about to close the entry's database. */
  predicate WillClose(p: Proc, i: nat) {
    (p.Closing? || p.DeleteClosing? || p.LetClosing? || p.SweepClosing?) && p.e == i
  }

  predicate InClaim(p: Proc) {
    || p.Claimed? || p.Draining? || p.Drained? || p.DeleteClosing? || p.FileDue? || p.DropDue?
    || p.Letting? || p.LetClosing?
  }

  ghost predicate StoresOk(s: Sys) {
    forall space :: space in s.stores ==> s.stores[space] < |s.entries| && s.entries[s.stores[space]].space == space
  }

  ghost predicate EntryOk(s: Sys, i: nat)
    requires i < |s.entries|
  {
    var e := s.entries[i];
    && (e.pending.Some? ==> e.pending.value in s.procs && Owns(s.procs[e.pending.value], i) && Attached(s, i))
    && (e.db.Open? && e.dbClosed.None? ==> Attached(s, i))
    && (e.db.Open? && e.dbClosed.Some? ==>
          e.dbClosed.value in s.procs && WillClose(s.procs[e.dbClosed.value], i))
    && (e.db.Shut? ==> e.dbClosed.Some?)
    && (e.refs > 0 ==> !e.db.Unopened?)
    && (e.draining ==> e.deleting)
    && (Attached(s, i) && e.pending.None? ==> e.db.Open? && e.dbClosed.None? && !e.deleting && e.refs > 0)
  }

  predicate ProcOk(s: Sys, t: Tid)
    requires t in s.procs
  {
    var p := s.procs[t];
    if p.Sweeping? then s.closed && forall i :: i in p.todo ==> i < |s.entries|
    else
      p.e < |s.entries| &&
      var e := s.entries[p.e];
      match p
      case Opening(_) => e.pending == Some(t) && e.db.Unopened? && e.dbClosed.None? && !e.deleting && e.refs == 0
      case Closing(_) => e.pending == e.dbClosed == Some(t) && e.db.Open? && e.refs == 0 && !e.deleting
      case Unmapping(_) => e.pending == Some(t) && e.db.Shut? && e.refs == 0
      case Claimed(_) => Claims(e, t) && Waits(e)
      case Draining(_) => Claims(e, t) && Waits(e)
      case Drained(_, timedOut) => Claims(e, t) && (!timedOut ==> e.refs == 0)
      case DeleteClosing(_, timedOut) =>
        e.pending == e.dbClosed == Some(t) && e.deleting && e.db.Open? && (!timedOut ==> e.refs == 0)
      case FileDue(_) => e.pending == Some(t) && e.deleting && !e.db.Open? && e.dbClosed.Some?
      case DropDue(_) => e.pending == Some(t) && e.deleting && !e.db.Open? && e.dbClosed.Some?
      case Letting(_) => Claims(e, t)
      case LetClosing(_) => e.pending == e.dbClosed == Some(t) && e.deleting && e.db.Open? && e.refs == 0
      case SweepAt(_, todo) =>
        s.closed && (forall i :: i in todo ==> i < |s.entries|) && (e.pending.Some? ==> e.dbClosed.Some?)
      case SweepClosing(_, todo) =>
        && s.closed && (forall i :: i in todo ==> i < |s.entries|)
        && e.dbClosed == Some(t) && e.db.Open? && e.pending.None? && e.space !in s.stores
  }

  predicate Claims(e: Entry, t: Tid) {
    e.pending == Some(t) && e.deleting && (e.dbClosed.None? <==> e.db.Open?)
  }

  /** The channel a delete waits on is there exactly while references are. */
  predicate Waits(e: Entry) {
    (e.draining <==> e.refs > 0) && !e.db.Shut?
  }

  /** At most one open database per space. */
  ghost predicate OneOpen(s: Sys) {
    forall i, j :: 0 <= i < j < |s.entries| && s.entries[i].db.Open? && s.entries[j].db.Open? ==>
                     s.entries[i].space != s.entries[j].space
  }

  ghost function Live(s: Sys, i: nat): set<nat> {
    set h | 0 <= h < |s.handles| && s.handles[h].e == i && !s.handles[h].released
  }

  /** The reference count is the number of unreleased handles. */
  ghost predicate RefsOk(s: Sys) {
    && (forall i :: 0 <= i < |s.entries| ==> s.entries[i].refs == |Live(s, i)|)
    && (forall h :: 0 <= h < |s.handles| ==> s.handles[h].e < |s.entries|)
  }

  ghost predicate Inv(s: Sys) {
    && StoresOk(s) && OneOpen(s) && RefsOk(s)
    && (forall i :: 0 <= i < |s.entries| ==> EntryOk(s, i))
    && (forall t :: t in s.procs ==> ProcOk(s, t))
  }

  // ------------------------------------------------------------ reference counts

  lemma LiveAdd(s: Sys, h: Handle, i: nat)
    requires !h.released
    ensures |Live(s.(handles := s.handles + [h]), i)| == |Live(s, i)| + (if h.e == i then 1 else 0)
  {
    var t := s.(handles := s.handles + [h]);
    if h.e == i {
      assert Live(t, i) == Live(s, i) + {|s.handles|};
    } else {
      assert Live(t, i) == Live(s, i);
    }
  }

  lemma LiveDrop(s: Sys, h: nat, i: nat)
    requires h < |s.handles| && !s.handles[h].released
    ensures var t := s.(handles := s.handles[h := s.handles[h].(released := true)]);
            |Live(t, i)| == |Live(s, i)| - (if s.handles[h].e == i then 1 else 0)
  {
    var t := s.(handles := s.handles[h := s.handles[h].(released := true)]);
    if s.handles[h].e == i {
      assert Live(t, i) == Live(s, i) - {h} && h in Live(s, i);
    } else {
      assert Live(t, i) == Live(s, i);
    }
  }

  lemma LiveNone(s: Sys, i: nat)
    requires forall h :: 0 <= h < |s.handles| ==> s.handles[h].e != i
    ensures Live(s, i) == {}
  {}

  lemma LiveSame(s: Sys, t: Sys)
    requires s.handles == t.handles
    ensures forall i :: Live(s, i) == Live(t, i)
  {}

  // -------------------------------------------------------------- preservation

  /** u differs from s at most in entry i, goroutine t, the handles and the map
      slot of entry i's space. */
  ghost predicate Local(s: Sys, u: Sys, i: nat, t: Tid) {
    && i < |s.entries| == |u.entries|
    && (forall j :: 0 <= j < |s.entries| && j != i ==> u.entries[j] == s.entries[j])
    && u.entries[i].space == s.entries[i].space
    && u.procs - {t} == s.procs - {t}
    && (t in s.procs && !s.procs[t].Sweeping? ==> s.procs[t].e == i)
    && (u.stores == s.stores || u.stores == Detach(s, i))
    && (s.closed ==> u.closed)
  }

  lemma SameElsewhere(s: Sys, u: Sys, t: Tid, k: Tid)
    requires u.procs - {t} == s.procs - {t} && k != t
    ensures k in u.procs <==> k in s.procs
    ensures k in s.procs ==> u.procs[k] == s.procs[k]
  {
    assert k in u.procs <==> k in u.procs - {t};
    assert k in s.procs <==> k in s.procs - {t};
    if k in s.procs { assert (u.procs - {t})[k] == (s.procs - {t})[k]; }
  }

  lemma {:induction false} OtherEntry(s: Sys, u: Sys, i: nat, t: Tid, j: nat)
    requires Inv(s) && Local(s, u, i, t) && j < |s.entries| && j != i
    ensures EntryOk(u, j)
  {
    assert EntryOk(s, j);
    var e := s.entries[j];
    assert Attached(u, j) <==> Attached(s, j);
    if e.pending.Some? {
      assert ProcOk(s, e.pending.value);
      if e.pending.value != t { SameElsewhere(s, u, t, e.pending.value); }
    }
    if e.dbClosed.Some? && e.dbClosed.value != t { SameElsewhere(s, u, t, e.dbClosed.value); }
  }

  lemma {:induction false} OtherProc(s: Sys, u: Sys, i: nat, t: Tid, k: Tid)
    requires Inv(s) && Local(s, u, i, t) && k != t && k in u.procs
    requires u.procs[k].Sweeping? || u.procs[k].e != i
    ensures ProcOk(u, k)
  {
    SameElsewhere(s, u, t, k);
    assert ProcOk(s, k);
  }

  /** What is left to show after a local step. */
  lemma {:induction false} LocalKeeps(s: Sys, u: Sys, i: nat, t: Tid)
    requires Inv(s) && Local(s, u, i, t) && RefsOk(u)
    requires EntryOk(u, i) && (t in u.procs ==> ProcOk(u, t))
    requires forall k :: k in s.procs && k != t && !s.procs[k].Sweeping? && s.procs[k].e == i && k in u.procs ==>
                           ProcOk(u, k)
    requires u.entries[i].db.Open? ==> s.entries[i].db.Open? || Attached(s, i)
    ensures Inv(u)
  {
    forall j | 0 <= j < |u.entries|
      ensures EntryOk(u, j)
    {
      if j != i { OtherEntry(s, u, i, t, j); }
    }
    forall k | k in u.procs
      ensures ProcOk(u, k)
    {
      if k != t {
        SameElsewhere(s, u, t, k);
        if u.procs[k].Sweeping? || u.procs[k].e != i { OtherProc(s, u, i, t, k); }
      }
    }
    OneOpenKept(s, u, i, t);
  }

  lemma {:induction false} OneOpenKept(s: Sys, u: Sys, i: nat, t: Tid)
    requires Inv(s) && Local(s, u, i, t)
    requires u.entries[i].db.Open? ==> s.entries[i].db.Open? || Attached(s, i)
    ensures OneOpen(u)
  {
    forall a, b | 0 <= a < b < |u.entries| && u.entries[a].db.Open? && u.entries[b].db.Open?
      ensures u.entries[a].space != u.entries[b].space
    {
      if a == i && !s.entries[i].db.Open? { OpenElsewhere(s, i, b); }
      if b == i && !s.entries[i].db.Open? { OpenElsewhere(s, i, a); }
    }
  }

  /** No other database of an attached entry's space is open. */
  lemma {:induction false} OpenElsewhere(s: Sys, i: nat, j: nat)
    requires Inv(s) && i < |s.entries| && j < |s.entries| && i != j
    requires Attached(s, i) && s.entries[j].db.Open?
    ensures s.entries[i].space != s.entries[j].space
  {
    assert EntryOk(s, j);
    if s.entries[j].dbClosed.Some? {
      var t := s.entries[j].dbClosed.value;
      assert ProcOk(s, t) && WillClose(s.procs[t], j);
    }
  }

  lemma RefsSame(s: Sys, u: Sys)
    requires RefsOk(s) && u.handles == s.handles && |u.entries| == |s.entries|
    requires forall j :: 0 <= j < |s.entries| ==> u.entries[j].refs == s.entries[j].refs
    ensures RefsOk(u)
  {
    LiveSame(s, u);
  }

  /** Another goroutine that stands at entry i. */
  predicate Beside(s: Sys, i: nat, t: Tid, k: Tid) {
    k in s.procs && k != t && !s.procs[k].Sweeping? && s.procs[k].e == i
  }

  /** A step of the owner of an entry: only shutdowns can stand beside it. */
  lemma {:induction false} BesideOwner(s: Sys, i: nat, t: Tid, k: Tid)
    requires Inv(s) && t in s.procs && Owns(s.procs[t], i) && Beside(s, i, t, k)
    ensures s.procs[k].SweepAt? && ProcOk(s, k)
  {
    assert ProcOk(s, t) && ProcOk(s, k);
  }

  lemma {:induction false} OwnerKeeps(s: Sys, u: Sys, i: nat, t: Tid)
    requires Inv(s) && t in s.procs && Owns(s.procs[t], i) && Local(s, u, i, t)
    requires u.handles == s.handles && u.entries[i].refs == s.entries[i].refs
    requires EntryOk(u, i) && (t in u.procs ==> ProcOk(u, t))
    requires u.entries[i].pending.Some? ==> u.entries[i].dbClosed.Some? || s.entries[i].dbClosed.None?
    requires u.entries[i].db.Open? ==> s.entries[i].db.Open?
    ensures Inv(u)
  {
    RefsSame(s, u);
    forall k | Beside(s, i, t, k) && k in u.procs
      ensures ProcOk(u, k)
    {
      BesideOwner(s, i, t, k);
      SameElsewhere(s, u, t, k);
    }
    LocalKeeps(s, u, i, t);
  }

  lemma {:induction false} UnmapLocal(s: Sys, t: Tid)
    requires Inv(s) && Unmapped(s, t) != s
    ensures var u, i := Unmapped(s, t), s.procs[t].e;
            Owns(s.procs[t], i) && Local(s, u, i, t) && EntryOk(u, i) && !u.entries[i].db.Open?
  {
    assert ProcOk(s, t) && EntryOk(s, s.procs[t].e);
    assert !Attached(Unmapped(s, t), s.procs[t].e);
  }

  lemma {:induction false} UnmapKeeps(s: Sys, t: Tid)
    requires Inv(s)
    ensures Inv(Unmapped(s, t))
  {
    var u := Unmapped(s, t);
    if u != s {
      UnmapLocal(s, t);
      OwnerKeeps(s, u, s.procs[t].e, t);
    }
  }

  /** An owner moving on without touching its entry. */
  lemma {:induction false} PhaseKeeps(s: Sys, t: Tid, p: Proc, files: set<SpaceId>)
    requires Inv(s) && t in s.procs && !s.procs[t].Sweeping? && Owns(s.procs[t], s.procs[t].e) && Owns(p, s.procs[t].e)
    requires !WillClose(s.procs[t], s.procs[t].e)
    requires ProcOk(s.(procs := s.procs[t := p], files := files), t)
    ensures Inv(s.(procs := s.procs[t := p], files := files))
  {
    var i := s.procs[t].e;
    var u := s.(procs := s.procs[t := p], files := files);
    assert ProcOk(s, t) && EntryOk(s, i);
    PhaseEntry(s, t, p, files);
    OwnerKeeps(s, u, i, t);
  }

  lemma {:induction false} PhaseEntry(s: Sys, t: Tid, p: Proc, files: set<SpaceId>)
    requires t in s.procs && !s.procs[t].Sweeping? && s.procs[t].e < |s.entries| && EntryOk(s, s.procs[t].e)
    requires Owns(p, s.procs[t].e) && !WillClose(s.procs[t], s.procs[t].e)
    ensures var u, i := s.(procs := s.procs[t := p], files := files), s.procs[t].e;
            Local(s, u, i, t) && EntryOk(u, i)
  {
    var u, i := s.(procs := s.procs[t := p], files := files), s.procs[t].e;
    assert Attached(u, i) <==> Attached(s, i);
  }

  lemma {:induction false} MarkKeeps(s: Sys, t: Tid)
    requires Inv(s)
    ensures Inv(Marked(s, t))
  {
    var u := Marked(s, t);
    if u != s {
      assert ProcOk(s, t);
      if u.entries == s.entries {
        PhaseKeeps(s, t, u.procs[t], u.files);
      } else {
        OwnerMarks(s, t, u.procs[t]);
      }
    }
  }

  /** The owner of an open entry taking the right to close its database. */
  lemma {:induction false} OwnerMarks(s: Sys, t: Tid, p: Proc)
    requires Inv(s) && At(s, t) && !s.procs[t].Sweeping? && Owns(s.procs[t], s.procs[t].e)
    requires Owns(p, s.procs[t].e) && WillClose(p, s.procs[t].e) && s.entries[s.procs[t].e].dbClosed.None?
    requires s.entries[s.procs[t].e].db.Open?
    requires var i := s.procs[t].e;
             ProcOk(s.(entries := s.entries[i := s.entries[i].(dbClosed := Some(t))], procs := s.procs[t := p]), t)
    ensures var i := s.procs[t].e;
            Inv(s.(entries := s.entries[i := s.entries[i].(dbClosed := Some(t))], procs := s.procs[t := p]))
  {
    var i := s.procs[t].e;
    var u := s.(entries := s.entries[i := s.entries[i].(dbClosed := Some(t))], procs := s.procs[t := p]);
    assert ProcOk(s, t) && EntryOk(s, i);
    assert Local(s, u, i, t);
    OwnerKeeps(s, u, i, t);
  }

  lemma {:induction false} LetGoKeeps(s: Sys, t: Tid)
    requires Inv(s)
    ensures Inv(LetsGo(s, t))
  {
    var u := LetsGo(s, t);
    if u != s {
      assert ProcOk(s, t);
      if t in u.procs {
        OwnerMarks(s, t, u.procs[t]);
      } else {
        LetGoLocal(s, t);
        OwnerKeeps(s, u, s.procs[t].e, t);
      }
    }
  }

  lemma {:induction false} LetGoLocal(s: Sys, t: Tid)
    requires Inv(s) && LetsGo(s, t) != s && t !in LetsGo(s, t).procs
    ensures var u, i := LetsGo(s, t), s.procs[t].e;
            Local(s, u, i, t) && EntryOk(u, i) && u.entries[i].db == s.entries[i].db
  {
    assert ProcOk(s, t) && EntryOk(s, s.procs[t].e);
  }

  /** The owner's entry with its database shut. */
  function Shuts(s: Sys, t: Tid, p: Proc): Sys
    requires At(s, t) && !s.procs[t].Sweeping?
  {
    var i := s.procs[t].e;
    s.(entries := s.entries[i := s.entries[i].(db := Shut)], procs := s.procs[t := p])
  }

  lemma {:induction false} ShutsLocal(s: Sys, t: Tid, p: Proc)
    requires Inv(s) && At(s, t) && !s.procs[t].Sweeping?
    requires Owns(s.procs[t], s.procs[t].e) && WillClose(s.procs[t], s.procs[t].e)
    requires Owns(p, s.procs[t].e) && !WillClose(p, s.procs[t].e) && ProcOk(Shuts(s, t, p), t)
    ensures var u, i := Shuts(s, t, p), s.procs[t].e; Local(s, u, i, t) && EntryOk(u, i)
  {
    var u, i := Shuts(s, t, p), s.procs[t].e;
    assert ProcOk(s, t) && EntryOk(s, i);
    ShutsElsewhere(s, t, p);
    assert u.entries[i] == s.entries[i].(db := Shut) && u.stores == s.stores && u.procs[t] == p;
  }

  lemma {:induction false} ShutsElsewhere(s: Sys, t: Tid, p: Proc)
    requires At(s, t) && !s.procs[t].Sweeping? && s.procs[t].e < |s.entries|
    ensures Local(s, Shuts(s, t, p), s.procs[t].e, t)
  {}

  lemma {:induction false} OwnerShuts(s: Sys, t: Tid, p: Proc)
    requires Inv(s) && At(s, t) && !s.procs[t].Sweeping?
    requires Owns(s.procs[t], s.procs[t].e) && WillClose(s.procs[t], s.procs[t].e)
    requires Owns(p, s.procs[t].e) && !WillClose(p, s.procs[t].e) && ProcOk(Shuts(s, t, p), t)
    ensures Inv(Shuts(s, t, p))
  {
    assert ProcOk(s, t);
    ShutsLocal(s, t, p);
    OwnerKeeps(s, Shuts(s, t, p), s.procs[t].e, t);
  }

  lemma {:induction false} OwnerDbCloseKeeps(s: Sys, t: Tid)
    requires Inv(s) && At(s, t) && (s.procs[t].Closing? || s.procs[t].DeleteClosing? || s.procs[t].LetClosing?)
    ensures Inv(DbCloses(s, t))
  {
    OwnerDbCloseProc(s, t);
    OwnerShuts(s, t, DbCloses(s, t).procs[t]);
  }

  lemma {:induction false} OwnerDbCloseProc(s: Sys, t: Tid)
    requires At(s, t) && (s.procs[t].Closing? || s.procs[t].DeleteClosing? || s.procs[t].LetClosing?) && ProcOk(s, t)
    ensures t in DbCloses(s, t).procs
    ensures var p := DbCloses(s, t).procs[t];
            && Owns(p, s.procs[t].e) && !WillClose(p, s.procs[t].e)
            && DbCloses(s, t) == Shuts(s, t, p) && ProcOk(Shuts(s, t, p), t)
  {}

  lemma {:induction false} ClaimMoveKeeps(s: Sys, e: Event)
    requires Inv(s) && (e.BeginDelete? || e.BeginRelease? || e.DrainEnds? || e.RemoveFile?)
    ensures Inv(Step(s, e))
  {
    var u := Step(s, e);
    if u != s {
      assert ProcOk(s, e.t);
      PhaseKeeps(s, e.t, u.procs[e.t], u.files);
    }
  }

  // ------------------------------------------------------------------ shutdown

  lemma {:induction false} SweeperKeeps(s: Sys, u: Sys, t: Tid)
    requires Inv(s) && u.entries == s.entries && u.stores == s.stores && u.handles == s.handles && u.files == s.files
    requires u.procs - {t} == s.procs - {t} && (s.closed ==> u.closed)
    requires t in s.procs ==> s.procs[t].Sweeping? || s.procs[t].SweepAt?
    requires t in u.procs ==> ProcOk(u, t)
    ensures Inv(u)
  {
    LiveSame(s, u);
    forall j | 0 <= j < |u.entries|
      ensures EntryOk(u, j)
    {
      assert EntryOk(s, j);
      var e := s.entries[j];
      if e.pending.Some? { SameElsewhere2(s, u, t, e.pending.value); }
      if e.dbClosed.Some? { SameElsewhere2(s, u, t, e.dbClosed.value); }
    }
    forall k | k in u.procs
      ensures ProcOk(u, k)
    {
      if k != t {
        SameElsewhere(s, u, t, k);
        assert ProcOk(s, k);
      }
    }
  }

  lemma SameElsewhere2(s: Sys, u: Sys, t: Tid, k: Tid)
    requires u.procs - {t} == s.procs - {t}
    ensures k != t && k in s.procs ==> k in u.procs && u.procs[k] == s.procs[k]
  {
    if k != t { SameElsewhere(s, u, t, k); }
  }

  lemma {:induction false} SweepMoveKeeps(s: Sys, e: Event)
    requires Inv(s) && (e.CloseAll? || e.SweepPick? || e.SweepEnd?)
    ensures Inv(Step(s, e))
  {
    var u := Step(s, e);
    if u != s {
      if e.t in s.procs { assert ProcOk(s, e.t); }
      SweeperKeeps(s, u, e.t);
    }
  }

  /** The shutdown taking an entry: open, unclaimed, attached. */
  lemma {:induction false} SweepTarget(s: Sys, t: Tid)
    requires Inv(s) && At(s, t) && s.procs[t].SweepAt?
    requires s.entries[s.procs[t].e].dbClosed.None? && !s.entries[s.procs[t].e].db.Unopened?
    ensures var e := s.entries[s.procs[t].e];
            e.db.Open? && e.pending.None? && !e.draining && Attached(s, s.procs[t].e) && s.closed
  {
    assert ProcOk(s, t) && EntryOk(s, s.procs[t].e);
  }

  lemma {:induction false} SweepMarkKeeps(s: Sys, t: Tid)
    requires Inv(s)
    ensures Inv(SweepMarks(s, t))
  {
    var u := SweepMarks(s, t);
    if u != s {
      var i := s.procs[t].e;
      assert ProcOk(s, t);
      if u.procs[t].Sweeping? {
        SweeperKeeps(s, u, t);
      } else {
        SweepTarget(s, t);
        RefsSame(s, u);
        forall k | Beside(s, i, t, k) && k in u.procs
          ensures ProcOk(u, k)
        {
          SweepMarkBeside(s, t, k);
        }
        LocalKeeps(s, u, i, t);
      }
    }
  }

  lemma {:induction false} SweepMarkBeside(s: Sys, t: Tid, k: Tid)
    requires Inv(s) && SweepMarks(s, t) != s && Beside(s, s.procs[t].e, t, k)
    ensures k in SweepMarks(s, t).procs ==> ProcOk(SweepMarks(s, t), k)
  {
    assert ProcOk(s, t) && ProcOk(s, k);
  }

  lemma {:induction false} SweepCloseLocal(s: Sys, t: Tid)
    requires Inv(s) && At(s, t) && s.procs[t].SweepClosing?
    ensures var u, i := DbCloses(s, t), s.procs[t].e;
            EntryOk(u, i) && t in u.procs && ProcOk(u, t) && s.entries[i].db.Open?
  {
    assert ProcOk(s, t) && EntryOk(s, s.procs[t].e);
  }

  lemma {:induction false} SweepCloseElsewhere(s: Sys, t: Tid)
    requires Inv(s) && At(s, t) && s.procs[t].SweepClosing?
    ensures Local(s, DbCloses(s, t), s.procs[t].e, t)
  {
    assert ProcOk(s, t);
    SweepShuts(s, t);
  }

  lemma {:induction false} SweepShuts(s: Sys, t: Tid)
    requires At(s, t) && s.procs[t].SweepClosing? && s.procs[t].e < |s.entries|
    ensures Local(s, DbCloses(s, t), s.procs[t].e, t)
  {}

  lemma {:induction false} SweepCloseKeeps(s: Sys, t: Tid)
    requires Inv(s) && At(s, t) && s.procs[t].SweepClosing?
    ensures Inv(DbCloses(s, t))
  {
    var u, i := DbCloses(s, t), s.procs[t].e;
    SweepCloseLocal(s, t);
    SweepCloseElsewhere(s, t);
    RefsSame(s, u);
    forall k | Beside(s, i, t, k) && k in u.procs
      ensures ProcOk(u, k)
    {
      assert ProcOk(s, t) && ProcOk(s, k);
    }
    LocalKeeps(s, u, i, t);
  }

  // -------------------------------------------------------- taking and releasing

  lemma {:induction false} OpensAlone(s: Sys, i: nat, t: Tid)
    requires Inv(s) && t in s.procs && s.procs[t] == Opening(i)
    ensures forall k :: !Beside(s, i, t, k)
  {
    assert ProcOk(s, t);
    forall k
      ensures !Beside(s, i, t, k)
    {
      if k in s.procs { assert ProcOk(s, k); }
    }
  }

  /** Who may be working on an entry: an opener before the first reference, a
      closer, or a claim. */
  lemma {:induction false} PendingMeans(s: Sys, i: nat)
    requires Inv(s) && i < |s.entries| && s.entries[i].pending.Some?
    ensures s.entries[i].refs == 0 || s.entries[i].dbClosed.Some? || s.entries[i].deleting
  {
    assert EntryOk(s, i);
    assert ProcOk(s, s.entries[i].pending.value);
  }

  /** The last handle of an unclaimed entry. */
  lemma {:induction false} LastHandle(s: Sys, i: nat)
    requires Inv(s) && i < |s.entries| && s.entries[i].refs > 0
    requires s.entries[i].dbClosed.None? && !s.entries[i].deleting
    ensures s.entries[i].db.Open? && s.entries[i].pending.None? && Attached(s, i) && !s.entries[i].draining
  {
    assert EntryOk(s, i);
    if s.entries[i].pending.Some? { PendingMeans(s, i); }
  }

  lemma {:induction false} OpenedRefs(s: Sys, t: Tid, ok: bool)
    requires Inv(s) && OpenEnds(s, t, ok) != s
    ensures RefsOk(OpenEnds(s, t, ok))
  {
    var u, i := OpenEnds(s, t, ok), s.procs[t].e;
    forall j | 0 <= j < |u.entries|
      ensures u.entries[j].refs == |Live(u, j)|
    {
      if ok { LiveAdd(s, Handle(i, false), j); } else { LiveSame(s, u); }
    }
  }

  lemma {:induction false} OpenedEntry(s: Sys, t: Tid, ok: bool)
    requires Inv(s) && OpenEnds(s, t, ok) != s
    ensures var u, i := OpenEnds(s, t, ok), s.procs[t].e;
            Local(s, u, i, t) && EntryOk(u, i) && (t in u.procs ==> ProcOk(u, t))
  {
    assert ProcOk(s, t) && EntryOk(s, s.procs[t].e);
  }

  lemma {:induction false} OpenedKeeps(s: Sys, t: Tid, ok: bool)
    requires Inv(s)
    ensures Inv(OpenEnds(s, t, ok))
  {
    var u := OpenEnds(s, t, ok);
    if u != s {
      var i := s.procs[t].e;
      OpenedRefs(s, t, ok);
      OpenedEntry(s, t, ok);
      OpensAlone(s, i, t);
      LocalKeeps(s, u, i, t);
    }
  }

  lemma {:induction false} ReleasedRefs(s: Sys, t: Tid, h: nat)
    requires Inv(s) && Released(s, t, h) != s
    ensures RefsOk(Released(s, t, h)) && s.entries[s.handles[h].e].refs > 0
  {
    var u, i := Released(s, t, h), s.handles[h].e;
    assert h in Live(s, i);
    forall j | 0 <= j < |u.entries|
      ensures u.entries[j].refs == |Live(u, j)|
    {
      LiveDrop(s, h, j);
      LiveSame(s.(handles := u.handles), u);
    }
  }

  lemma {:induction false} ReleasedBeside(s: Sys, t: Tid, h: nat, k: Tid)
    requires Inv(s) && Released(s, t, h) != s && Beside(s, s.handles[h].e, t, k)
    requires s.entries[s.handles[h].e].refs > 0
    ensures k in Released(s, t, h).procs ==> ProcOk(Released(s, t, h), k)
  {
    assert ProcOk(s, k) && EntryOk(s, s.handles[h].e);
  }

  lemma {:induction false} ReleasedLocal(s: Sys, t: Tid, h: nat)
    requires RefsOk(s) && Released(s, t, h) != s
    ensures Local(s, Released(s, t, h), s.handles[h].e, t)
  {}

  lemma {:induction false} ReleasedLast(s: Sys, t: Tid, h: nat)
    requires Inv(s) && Released(s, t, h).procs != s.procs && s.entries[s.handles[h].e].refs > 0
    ensures var u, i := Released(s, t, h), s.handles[h].e;
            EntryOk(u, i) && t in u.procs && ProcOk(u, t)
  {
    LastHandle(s, s.handles[h].e);
  }

  lemma {:induction false} ReleasedEntry(s: Sys, t: Tid, h: nat)
    requires Inv(s) && Released(s, t, h) != s && s.entries[s.handles[h].e].refs > 0
    ensures var u, i := Released(s, t, h), s.handles[h].e;
            Local(s, u, i, t) && EntryOk(u, i) && (t in u.procs ==> ProcOk(u, t))
  {
    ReleasedLocal(s, t, h);
    if Released(s, t, h).procs != s.procs {
      ReleasedLast(s, t, h);
    } else {
      assert EntryOk(s, s.handles[h].e);
    }
  }

  lemma {:induction false} CloseHandleKeeps(s: Sys, t: Tid, h: nat)
    requires Inv(s)
    ensures Inv(Released(s, t, h))
  {
    var u := Released(s, t, h);
    if u != s {
      var i := s.handles[h].e;
      ReleasedRefs(s, t, h);
      ReleasedEntry(s, t, h);
      forall k | Beside(s, i, t, k) && k in u.procs
        ensures ProcOk(u, k)
      {
        ReleasedBeside(s, t, h, k);
      }
      LocalKeeps(s, u, i, t);
    }
  }

  /** An entry that has just been put in the map, with the goroutine that did. */
  ghost predicate Inserted(s: Sys, u: Sys, t: Tid) {
    && t !in s.procs && !s.closed && !u.closed
    && |u.entries| == |s.entries| + 1 && u.entries[..|s.entries|] == s.entries
    && u.entries[|s.entries|].space !in s.stores
    && u.stores == s.stores[u.entries[|s.entries|].space := |s.entries|]
    && u.entries[|s.entries|].db.Unopened? && u.entries[|s.entries|].refs == 0
    && u.handles == s.handles
    && t in u.procs && u.procs == s.procs[t := u.procs[t]] && Owns(u.procs[t], |s.entries|)
  }

  lemma {:induction false} InsertKeeps(s: Sys, u: Sys, t: Tid)
    requires Inv(s) && Inserted(s, u, t)
    requires EntryOk(u, |s.entries|) && ProcOk(u, t)
    ensures Inv(u)
  {
    LiveNone(s, |s.entries|);
    LiveSame(s, u);
    forall j | 0 <= j < |u.entries|
      ensures EntryOk(u, j) && u.entries[j].refs == |Live(u, j)|
    {
      if j < |s.entries| {
        assert EntryOk(s, j) && u.entries[j] == s.entries[j];
        assert Attached(u, j) <==> Attached(s, j);
      }
    }
    forall k | k in u.procs
      ensures ProcOk(u, k)
    {
      if k != t {
        assert ProcOk(s, k);
        if !s.procs[k].Sweeping? { assert u.entries[s.procs[k].e] == s.entries[s.procs[k].e]; }
      }
    }
    forall a, b | 0 <= a < b < |u.entries| && u.entries[a].db.Open? && u.entries[b].db.Open?
      ensures u.entries[a].space != u.entries[b].space
    {
      assert b < |s.entries| && u.entries[a] == s.entries[a] && u.entries[b] == s.entries[b];
    }
  }

  /** An entry others may share: open, attached, nobody's. */
  lemma {:induction false} Shareable(s: Sys, i: nat, k: Tid)
    requires Inv(s) && i < |s.entries| && Attached(s, i) && s.entries[i].pending.None?
    ensures s.entries[i].db.Open? && s.entries[i].dbClosed.None? && !s.entries[i].deleting && !s.entries[i].draining
    ensures k in s.procs && !s.procs[k].Sweeping? && s.procs[k].e == i ==> s.procs[k].SweepAt? && ProcOk(s, k)
  {
    assert EntryOk(s, i);
    if k in s.procs { assert ProcOk(s, k); }
  }

  /** Nobody stands at a shareable entry before a shutdown. */
  lemma {:induction false} Alone(s: Sys, i: nat, t: Tid)
    requires Inv(s) && i < |s.entries| && Attached(s, i) && s.entries[i].pending.None? && !s.closed
    ensures forall k :: !Beside(s, i, t, k)
  {
    forall k
      ensures !Beside(s, i, t, k)
    {
      Shareable(s, i, k);
    }
  }

  lemma {:induction false} AcquireKeeps(s: Sys, t: Tid, space: SpaceId, create: bool)
    requires Inv(s)
    ensures Inv(Acquired(s, t, space, create))
  {
    var u := Acquired(s, t, space, create);
    if u != s {
      if space !in s.stores {
        InsertKeeps(s, u, t);
      } else {
        var i := s.stores[space];
        forall j | 0 <= j < |u.entries|
          ensures u.entries[j].refs == |Live(u, j)|
        {
          LiveAdd(s, Handle(i, false), j);
        }
        Alone(s, i, t);
        Shareable(s, i, t);
        LocalKeeps(s, u, i, t);
      }
    }
  }

  lemma {:induction false} ClaimKeeps(s: Sys, t: Tid, space: SpaceId)
    requires Inv(s)
    ensures Inv(ClaimedBy(s, t, space))
  {
    var u := ClaimedBy(s, t, space);
    if u != s {
      if space !in s.stores {
        InsertKeeps(s, u, t);
      } else {
        var i := s.stores[space];
        RefsSame(s, u);
        Alone(s, i, t);
        ClaimLocal(s, t, space);
        LocalKeeps(s, u, i, t);
      }
    }
  }

  lemma {:induction false} ClaimLocal(s: Sys, t: Tid, space: SpaceId)
    requires Inv(s) && ClaimedBy(s, t, space) != s && space in s.stores
    ensures var u, i := ClaimedBy(s, t, space), s.stores[space];
            Local(s, u, i, t) && EntryOk(u, i) && (t in u.procs ==> ProcOk(u, t))
  {
    Shareable(s, s.stores[space], t);
  }

  lemma {:induction false} InvStep(s: Sys, e: Event)
    requires Inv(s)
    ensures Inv(Step(s, e))
  {
    match e {
      case Acquire(t, space, create) => AcquireKeeps(s, t, space, create);
      case Opened(t, ok) => OpenedKeeps(s, t, ok);
      case CloseHandle(t, h) => CloseHandleKeeps(s, t, h);
      case DbClose(t) =>
        if DbCloses(s, t) != s {
          if s.procs[t].SweepClosing? { SweepCloseKeeps(s, t); } else { OwnerDbCloseKeeps(s, t); }
        }
      case Unmap(t) => UnmapKeeps(s, t);
      case DropEntry(t) => UnmapKeeps(s, t);
      case Claim(t, space) => ClaimKeeps(s, t, space);
      case MarkClosed(t) => MarkKeeps(s, t);
      case LetGo(t) => LetGoKeeps(s, t);
      case SweepMark(t) => SweepMarkKeeps(s, t);
      case CloseAll(_) => SweepMoveKeeps(s, e);
      case SweepPick(_, _) => SweepMoveKeeps(s, e);
      case SweepEnd(_) => SweepMoveKeeps(s, e);
      case _ => ClaimMoveKeeps(s, e);
    }
  }

  lemma {:induction false} InvRun(s: Sys, es: seq<Event>)
    requires Inv(s)
    ensures Inv(Run(s, es))
    decreases |es|
  {
    if es != [] {
      InvRun(s, es[..|es| - 1]);
      InvStep(Run(s, es[..|es| - 1]), es[|es| - 1]);
    }
  }

  // ------------------------------------------------------- what every run keeps

  /** A state some interleaving of the provider's goroutines leads to. */
  ghost predicate Reachable(s: Sys) {
    exists es :: s == Run(START, es)
  }

  lemma InvReachable(s: Sys)
    requires Reachable(s)
    ensures Inv(s)
  {
    var es :| s == Run(START, es);
    InvRun(START, es);
  }

  /** In every interleaving: one open database per space at most, and exact
      reference counts. */
  lemma OneOpenAndExactRefs(s: Sys)
    requires Reachable(s)
    ensures forall i, j :: 0 <= i < j < |s.entries| && s.entries[i].db.Open? && s.entries[j].db.Open? ==>
                             s.entries[i].space != s.entries[j].space
    ensures forall i :: 0 <= i < |s.entries| ==> s.entries[i].refs == |Live(s, i)|
  {
    InvReachable(s);
  }

  /** A database is only ever closed while open, and by one goroutine: no other
      is about to. */
  lemma ClosedOnce(s: Sys, t: Tid)
    requires Reachable(s) && At(s, t) && !s.procs[t].Sweeping? && WillClose(s.procs[t], s.procs[t].e)
    ensures s.entries[s.procs[t].e].db.Open? && DbCloses(s, t).entries[s.procs[t].e].db.Shut?
    ensures forall k :: k in s.procs && WillClose(s.procs[k], s.procs[t].e) ==> k == t
  {
    InvReachable(s);
    assert ProcOk(s, t);
    forall k | k in s.procs && WillClose(s.procs[k], s.procs[t].e)
      ensures k == t
    {
      assert ProcOk(s, k);
    }
  }

  /** No database stays open that nobody holds: it has a live handle, or a
      goroutine at work on it. */
  lemma OpenIsHeld(s: Sys, i: nat)
    requires Reachable(s) && i < |s.entries| && s.entries[i].db.Open?
    ensures Live(s, i) != {} || exists k :: k in s.procs && (Owns(s.procs[k], i) || WillClose(s.procs[k], i))
  {
    InvReachable(s);
    assert EntryOk(s, i);
  }

  /** A closed database stays closed, and its entry is never opened again. */
  lemma {:induction false} ShutStays(s: Sys, es: seq<Event>, i: nat)
    requires Inv(s) && i < |s.entries| && s.entries[i].db.Shut?
    ensures i < |Run(s, es).entries| && Run(s, es).entries[i].db.Shut?
    decreases |es|
  {
    if es != [] {
      var init := es[..|es| - 1];
      ShutStays(s, init, i);
      InvRun(s, init);
      ShutStep(Run(s, init), es[|es| - 1], i);
    }
  }

  lemma {:induction false} ShutStep(s: Sys, e: Event, i: nat)
    requires Inv(s) && i < |s.entries| && s.entries[i].db.Shut?
    ensures i < |Step(s, e).entries| && Step(s, e).entries[i].db.Shut?
  {
    if e.Opened? {
      if e.t in s.procs { assert ProcOk(s, e.t); }
    } else if e.Acquire? || e.CloseHandle? || e.Claim? {
      ShutFrame(s, e, i);
    } else if e.Unmap? || e.DropEntry? || e.MarkClosed? || e.LetGo? || e.SweepMark? {
      ShutOwned(s, e, i);
    } else if e.DbClose? {
      ShutClose(s, e.t, i);
    }
  }

  lemma {:induction false} ShutFrame(s: Sys, e: Event, i: nat)
    requires i < |s.entries| && s.entries[i].db.Shut? && (e.Acquire? || e.CloseHandle? || e.Claim?)
    ensures i < |Step(s, e).entries| && Step(s, e).entries[i].db.Shut?
  {}

  lemma {:induction false} ShutOwned(s: Sys, e: Event, i: nat)
    requires i < |s.entries| && s.entries[i].db.Shut?
    requires e.Unmap? || e.DropEntry? || e.MarkClosed? || e.LetGo? || e.SweepMark?
    ensures i < |Step(s, e).entries| && Step(s, e).entries[i].db.Shut?
  {}

  lemma {:induction false} ShutClose(s: Sys, t: Tid, i: nat)
    requires i < |s.entries| && s.entries[i].db.Shut?
    ensures i < |DbCloses(s, t).entries| && DbCloses(s, t).entries[i].db.Shut?
  {}

  /** A delete that waits is let go by the last release: it goes on without a
      timeout exactly when no handle is live, and times out only under one. */
  lemma {:induction false} WaitEndsIff(s: Sys, t: Tid)
    requires Reachable(s) && t in s.procs && s.procs[t].Draining?
    ensures var i := s.procs[t].e;
            && (Live(s, i) == {} ==> Step(s, DrainEnds(t, false)) == s.(procs := s.procs[t := Drained(i, false)]))
            && (Live(s, i) == {} ==> Step(s, DrainEnds(t, true)) == s)
            && (Live(s, i) != {} ==> Step(s, DrainEnds(t, false)) == s)
            && (Live(s, i) != {} ==> Step(s, DrainEnds(t, true)) == s.(procs := s.procs[t := Drained(i, true)]))
  {
    InvReachable(s);
    DrainingMeans(s, t);
  }

  lemma {:induction false} DrainingMeans(s: Sys, t: Tid)
    requires Inv(s) && t in s.procs && s.procs[t].Draining?
    ensures At(s, t) && (s.entries[s.procs[t].e].draining <==> Live(s, s.procs[t].e) != {})
  {
    assert ProcOk(s, t);
    assert s.entries[s.procs[t].e].refs == |Live(s, s.procs[t].e)|;
  }

  /** What a release does: nothing when the handle is released already; while
      other handles are live, or the database is taken for closing, or a claim
      will take it, no more than the count; else the goroutine is about to
      close the database, and waiters wait for it. */
  lemma {:induction false} ReleaseCloses(s: Sys, t: Tid, h: nat)
    requires Reachable(s) && t !in s.procs && h < |s.handles|
    ensures var i, u := s.handles[h].e, Step(s, CloseHandle(t, h));
            && i < |s.entries| && i < |u.entries|
            && (s.handles[h].released ==> u == s)
            && (!s.handles[h].released ==>
                  && u.handles == s.handles[h := s.handles[h].(released := true)]
                  && u.entries[i].refs == s.entries[i].refs - 1 && u.entries[i].db == s.entries[i].db
                  && (Live(s, i) == {h} && s.entries[i].dbClosed.None? && !s.entries[i].deleting ==>
                        && s.entries[i].db.Open? && u.entries[i].pending == Some(t)
                        && u.procs == s.procs[t := Closing(i)])
                  && (Live(s, i) != {h} || s.entries[i].dbClosed.Some? || s.entries[i].deleting ==>
                        u.procs == s.procs && u.entries[i].pending == s.entries[i].pending))
  {
    InvReachable(s);
    var i := s.handles[h].e;
    if !s.handles[h].released {
      LiveIsHandle(s, i, h);
      if Live(s, i) == {h} && s.entries[i].dbClosed.None? && !s.entries[i].deleting { LastHandle(s, i); }
    }
  }

  lemma LiveIsHandle(s: Sys, i: nat, h: nat)
    requires RefsOk(s) && i < |s.entries| && h in Live(s, i)
    ensures s.entries[i].refs > 0 && (s.entries[i].refs == 1 <==> Live(s, i) == {h})
  {
    var rest := Live(s, i) - {h};
    assert |Live(s, i)| == |rest| + 1;
    assert Live(s, i) == rest + {h};
  }

  /** A database is closed under a live handle only by a delete that stopped
      waiting, or by a shutdown. */
  lemma ClosedUnderHandle(s: Sys, t: Tid)
    requires Reachable(s) && At(s, t) && !s.procs[t].Sweeping? && WillClose(s.procs[t], s.procs[t].e)
    requires Live(s, s.procs[t].e) != {}
    ensures s.procs[t].SweepClosing? || (s.procs[t].DeleteClosing? && s.procs[t].timedOut)
  {
    InvReachable(s);
    assert ProcOk(s, t);
  }

  /** The file goes only when no database of the space is open. */
  lemma FileRemovedAfterClose(s: Sys, t: Tid, i: nat)
    requires Reachable(s) && At(s, t) && s.procs[t].FileDue? && i < |s.entries|
    requires s.entries[i].space == s.entries[s.procs[t].e].space
    ensures !s.entries[i].db.Open?
  {
    InvReachable(s);
    assert ProcOk(s, t) && EntryOk(s, s.procs[t].e);
    if i != s.procs[t].e && s.entries[i].db.Open? { OpenElsewhere(s, s.procs[t].e, i); }
  }

  /** A step that hands out a handle ends an open, or shares an entry that is
      neither pending nor being deleted. */
  lemma {:induction false} HandsOut(s: Sys, e: Event, h: nat)
    requires StoresOk(s) && |s.handles| <= h < |Step(s, e).handles|
    ensures Step(s, e).handles[h].e < |s.entries|
    ensures e.Opened? || e.Acquire?
    ensures e.Opened? ==> At(s, e.t) && s.procs[e.t] == Opening(Step(s, e).handles[h].e)
    ensures e.Acquire? ==> Attached(s, Step(s, e).handles[h].e) && !s.entries[Step(s, e).handles[h].e].deleting
  {
    if e.Acquire? { assert e.space in s.stores; }
  }

  lemma {:induction false} ClaimIsAttached(s: Sys, t: Tid)
    requires Inv(s) && At(s, t) && InClaim(s.procs[t])
    ensures Attached(s, s.procs[t].e) && s.entries[s.procs[t].e].deleting
  {
    assert ProcOk(s, t) && EntryOk(s, s.procs[t].e);
  }

  lemma {:induction false} OpeningIsAttached(s: Sys, t: Tid)
    requires Inv(s) && At(s, t) && s.procs[t].Opening?
    ensures Attached(s, s.procs[t].e) && !s.entries[s.procs[t].e].deleting
  {
    assert ProcOk(s, t) && EntryOk(s, s.procs[t].e);
  }

  /** While a claim on a space lasts, no step hands out a handle to it. */
  lemma NoHandleDuringClaim(s: Sys, t: Tid, e: Event, h: nat)
    requires Reachable(s) && At(s, t) && InClaim(s.procs[t])
    requires |s.handles| <= h < |Step(s, e).handles|
    ensures Step(s, e).handles[h].e < |s.entries|
    ensures s.entries[Step(s, e).handles[h].e].space != s.entries[s.procs[t].e].space
  {
    InvReachable(s);
    HandsOut(s, e, h);
    ClaimIsAttached(s, t);
    if e.Opened? { OpeningIsAttached(s, e.t); }
  }

  // ---------------------------------------------------------- the code's shape

  /** `storageProvider`: each method is one section under its mutex, run by
      goroutine t. */
  class StorageProvider {
    var entries: seq<Entry>
    var stores: map<SpaceId, nat>
    var closed: bool
    var handles: seq<Handle>
    var procs: map<Tid, Proc>
    var files: set<SpaceId>

    ghost function Contents(): Sys
      reads this
    {
      Sys(entries, stores, closed, handles, procs, files)
    }

    constructor ()
      ensures Contents() == START
    {
      entries, stores, closed, handles, procs, files := [], map[], false, [], map[], {};
    }

    /** One turn of the loop in `acquire`. */
    method AcquireTurn(t: Tid, space: SpaceId, create: bool) returns (h: Option<nat>)
      requires StoresOk(Contents()) && t !in procs
      modifies this
      ensures Contents() == Step(old(Contents()), Acquire(t, space, create))
      ensures h.Some? <==> |handles| == |old(handles)| + 1
      ensures h.Some? ==> h.value == |old(handles)| && handles[h.value] == Handle(old(stores)[space], false)
    {
      h := None;
      if closed { return; }
      if space !in stores {
        stores, procs := stores[space := |entries|], procs[t := Opening(|entries|)];
        entries := entries + [Entry(space, Unopened, 0, Some(t), false, false, None)];
      } else {
        var i := stores[space];
        var e := entries[i];
        if e.deleting || e.pending.Some? || create { return; }
        entries := entries[i := e.(refs := e.refs + 1)];
        h := Some(|handles|);
        handles := handles + [Handle(i, false)];
      }
    }

    /** The section of `openEntry` after the open. */
    method OpenEntry(t: Tid, ok: bool)
      requires At(Contents(), t) && procs[t].Opening?
      modifies this
      ensures Contents() == Step(old(Contents()), Opened(t, ok))
    {
      var i := procs[t].e;
      var e := entries[i];
      e := e.(pending := None);
      if ok {
        e := e.(db := Open, refs := 1);
        handles, files := handles + [Handle(i, false)], files + {e.space};
      } else {
        stores := stores - {e.space};
      }
      entries := entries[i := e];
      procs := procs - {t};
    }

    /** `storeRef.Close` and the first section of `release`. */
    method Close(t: Tid, h: nat)
      requires t !in procs && h < |handles| && handles[h].e < |entries|
      modifies this
      ensures Contents() == Step(old(Contents()), CloseHandle(t, h))
    {
      if handles[h].released { return; }
      handles := handles[h := handles[h].(released := true)];
      var i := handles[h].e;
      var e := entries[i];
      e := e.(refs := e.refs - 1);
      if e.refs > 0 || e.dbClosed.Some? {
      } else if e.deleting {
        e := e.(draining := false);
      } else {
        e := e.(pending := Some(t), dbClosed := Some(t));
        procs := procs[t := Closing(i)];
      }
      entries := entries[i := e];
    }

    /** One turn of the loop in `claimForDelete`. */
    method ClaimTurn(t: Tid, space: SpaceId) returns (claimed: bool)
      requires StoresOk(Contents()) && t !in procs
      modifies this
      ensures Contents() == Step(old(Contents()), Claim(t, space))
      ensures claimed <==> t in procs
    {
      claimed := false;
      if closed { return; }
      if space !in stores {
        stores, procs := stores[space := |entries|], procs[t := Claimed(|entries|)];
        entries := entries + [Entry(space, Unopened, 0, Some(t), true, false, Some(t))];
        claimed := true;
      } else {
        var i := stores[space];
        var e := entries[i];
        if e.deleting || e.pending.Some? { return; }
        e := e.(deleting := true, pending := Some(t));
        if e.refs > 0 { e := e.(draining := true); } else { e := e.(draining := false); }
        entries, procs := entries[i := e], procs[t := Claimed(i)];
        claimed := true;
      }
    }

    /** One turn of the loop in `storeClaim.Release`. */
    method ReleaseTurn(t: Tid) returns (done: bool)
      requires At(Contents(), t) && procs[t].Letting?
      modifies this
      ensures Contents() == Step(old(Contents()), LetGo(t))
      ensures done <==> t !in procs
    {
      var i := procs[t].e;
      var e := entries[i];
      if e.refs > 0 || e.dbClosed.Some? {
        if e.dbClosed.Some? && e.space in stores && stores[e.space] == i { stores := stores - {e.space}; }
        entries := entries[i := e.(deleting := false, draining := false, pending := None)];
        procs := procs - {t};
        done := true;
      } else {
        entries := entries[i := e.(dbClosed := Some(t))];
        procs := procs[t := LetClosing(i)];
        done := false;
      }
    }
  }
}
