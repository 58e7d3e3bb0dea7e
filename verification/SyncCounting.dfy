/** What the close-time gate relies on: a tree put in storage and not in the
    projection is counted, as a queued item, a parked id or an inline sync,
    under concurrent rounds, failures, cancellation and close. */
module SyncCounting {
  import opened Basics

  type Id = string
  type Tid = nat

  /** How one tree's handling ended: materialized; declined by selective sync
      before any write; deleted; failed; cut short by its context; or fetched
      into storage only. */
  datatype Outcome = Landed | Declined | Vanished | Broke(missing: bool) | CutShort(missing: bool) | Brought

  datatype Phase = Started | Acted(outcome: Outcome) | Settled

  /** A goroutine syncing a tree within a round, a worker of the job on a queued
      item, or a round waiting for items. */
  datatype Proc =
    | Inline(id: Id, phase: Phase)
    | Worker(id: Id, item: nat, phase: Phase)
    | Waiting(items: set<nat>, left: set<nat>)

  /** Queue items are told apart by number: an id can be queued again. */
  datatype Sys = Sys(queue: map<Id, nat>, next: nat, finished: set<nat>, closed: bool,
                     pending: map<Id, bool>, syncing: int, procs: map<Tid, Proc>,
                     stored: set<Id>, materialized: set<Id>, deleted: set<Id>, answers: set<Answer>)

  /** How a wait ended: its items handled, its caller's context over, or the job
      closed; and whether it returned nil. */
  datatype Ending = AllHandled | ContextOver | JobClosed

  datatype Answer = Answer(items: set<nat>, isNil: bool)

  datatype Event =
    | Add(id: Id)
    | BeginInline(t: Tid, id: Id)
    | ParkUnreached(id: Id, missing: bool)
    | BeginWork(t: Tid, id: Id)
    | Act(t: Tid, outcome: Outcome, wrote: bool)
    | Settle(t: Tid)
    | Leave(t: Tid)
    | Close
    | BeginWait(t: Tid, items: set<nat>)
    | WaitNext(t: Tid, item: nat)
    | WaitEnds(t: Tid, how: Ending)

  function Marked(pending: map<Id, bool>, id: Id, missing: bool): map<Id, bool> {
    pending[id := (id in pending && pending[id]) || missing]
  }

  predicate Busy(s: Sys, id: Id) {
    exists t :: t in s.procs && s.procs[t].Worker? && s.procs[t].id == id
  }

  function WithPhase(p: Proc, phase: Phase): Proc
    requires !p.Waiting?
  {
    match p
    case Inline(id, _) => Inline(id, phase)
    case Worker(id, item, _) => Worker(id, item, phase)
  }

  /** What the registry or the fetcher does to storage and projection. A tree in
      `skips` is declined before any write. */
  function Acts(s: Sys, skips: set<Id>, id: Id, outcome: Outcome, wrote: bool): Sys {
    match outcome
    case Landed => s.(stored := s.stored + {id}, materialized := s.materialized + {id})
    case Declined => s
    case Vanished => s.(deleted := s.deleted + {id})
    case Brought => s.(stored := s.stored + {id})
    case _ => if wrote && id !in skips then s.(stored := s.stored + {id}) else s
  }

  predicate CanAct(skips: set<Id>, p: Proc, outcome: Outcome) {
    && !p.Waiting? && p.phase.Started?
    && (outcome.Declined? <==> p.id in skips && !outcome.Vanished? && !outcome.Broke? && !outcome.CutShort?)
    && (outcome.Brought? ==> p.Worker?)
  }

  function Settles(s: Sys, t: Tid): Sys
    requires t in s.procs && !s.procs[t].Waiting? && s.procs[t].phase.Acted?
  {
    var p := s.procs[t];
    var on := s.(procs := s.procs[t := WithPhase(p, Settled)]);
    match p.phase.outcome
    case Broke(missing) => on.(pending := Marked(s.pending, p.id, missing))
    case CutShort(missing) =>
      // A round parks what its context cut short; an item of the job stays queued.
      if p.Inline? then on.(pending := Marked(s.pending, p.id, missing)) else s.(procs := s.procs - {t})
    case Brought => s.(procs := s.procs - {t})
    case _ => on.(pending := s.pending - {p.id})
  }

  function Leaves(s: Sys, t: Tid): Sys
    requires t in s.procs && !s.procs[t].Waiting?
  {
    var p := s.procs[t];
    if p.Inline? then s.(procs := s.procs - {t}, syncing := s.syncing - 1)
    else s.(procs := s.procs - {t}, queue := s.queue - {p.id}, finished := s.finished + {p.item})
  }

  predicate CanEnd(s: Sys, p: Proc, how: Ending) {
    p.Waiting? &&
    match how
    case AllHandled => p.left == {}
    case ContextOver => true
    case JobClosed => s.closed
  }

  function WaitEnded(s: Sys, t: Tid, how: Ending): Sys
    requires t in s.procs && s.procs[t].Waiting?
  {
    s.(procs := s.procs - {t}, answers := s.answers + {Answer(s.procs[t].items, !how.ContextOver?)})
  }

  function Step(s: Sys, skips: set<Id>, e: Event): Sys {
    match e
    case Add(id) =>
      if id in s.queue then s else s.(queue := s.queue[id := s.next], next := s.next + 1)
    case BeginInline(t, id) =>
      if t in s.procs then s else s.(procs := s.procs[t := Inline(id, Started)], syncing := s.syncing + 1)
    case ParkUnreached(id, missing) => s.(pending := Marked(s.pending, id, missing))
    case BeginWork(t, id) =>
      if t in s.procs || id !in s.queue || s.closed || Busy(s, id) then s
      else s.(procs := s.procs[t := Worker(id, s.queue[id], Started)])
    case Act(t, outcome, wrote) =>
      if t in s.procs && CanAct(skips, s.procs[t], outcome) then
        Acts(s, skips, s.procs[t].id, outcome, wrote).(procs := s.procs[t := WithPhase(s.procs[t], Acted(outcome))])
      else s
    case Settle(t) => if t in s.procs && !s.procs[t].Waiting? && s.procs[t].phase.Acted? then Settles(s, t) else s
    case Leave(t) => if t in s.procs && !s.procs[t].Waiting? && s.procs[t].phase.Settled? then Leaves(s, t) else s
    case Close => s.(closed := true)
    case BeginWait(t, items) => if t in s.procs then s else s.(procs := s.procs[t := Waiting(items, items)])
    case WaitNext(t, item) =>
      if t in s.procs && s.procs[t].Waiting? && item in s.finished then
        s.(procs := s.procs[t := Waiting(s.procs[t].items, s.procs[t].left - {item})])
      else s
    case WaitEnds(t, how) => if t in s.procs && CanEnd(s, s.procs[t], how) then WaitEnded(s, t, how) else s
  }

  const START := Sys(map[], 0, {}, false, map[], 0, map[], {}, {}, {}, {})

  function Run(skips: set<Id>, es: seq<Event>): Sys
    decreases |es|
  {
    if es == [] then START else Step(Run(skips, es[..|es| - 1]), skips, es[|es| - 1])
  }

  // ---------------------------------------------------------------- invariants

  /** In storage, not in the projection. */
  predicate Loose(s: Sys, id: Id) {
    id in s.stored && id !in s.materialized && id !in s.deleted
  }

  predicate InlineAt(s: Sys, t: Tid, id: Id) {
    t in s.procs && s.procs[t].Inline? && s.procs[t].id == id
  }

  ghost predicate Counted(s: Sys, id: Id) {
    id in s.queue || id in s.pending || exists t :: InlineAt(s, t, id)
  }

  ghost function InlineProcs(s: Sys): set<Tid> {
    set t | t in s.procs && s.procs[t].Inline?
  }

  predicate ProcOk(s: Sys, skips: set<Id>, t: Tid)
    requires t in s.procs
  {
    var p := s.procs[t];
    if p.Waiting? then forall i :: i in p.items && i !in p.left ==> i in s.finished
    else
      && (p.Worker? ==> p.id in s.queue && s.queue[p.id] == p.item)
      && (match p.phase
          case Started => true
          case Acted(Landed) => p.id in s.materialized
          case Acted(Declined) => p.id in skips
          case Acted(Vanished) => p.id in s.deleted
          case Acted(Brought) => p.Worker?
          case Acted(_) => true
          case Settled => p.id in s.materialized || p.id in s.deleted || p.id in skips || p.id in s.pending)
  }

  ghost predicate OneWorkerPerTree(s: Sys) {
    forall t, u :: t in s.procs && u in s.procs && t != u && s.procs[t].Worker? && s.procs[u].Worker? ==>
                     s.procs[t].id != s.procs[u].id
  }

  ghost predicate Inv(s: Sys, skips: set<Id>) {
    && (forall id :: Loose(s, id) ==> Counted(s, id))
    && (forall t :: t in s.procs ==> ProcOk(s, skips, t))
    && OneWorkerPerTree(s)
    && s.stored !! skips
    && s.syncing == |InlineProcs(s)|
    && (forall id :: id in s.queue ==> s.queue[id] < s.next && s.queue[id] !in s.finished)
    && (forall i :: i in s.finished ==> i < s.next)
    && (forall id, jd :: id in s.queue && jd in s.queue && id != jd ==> s.queue[id] != s.queue[jd])
    && AnswersOk(s)
  }

  ghost predicate AnswersOk(s: Sys) {
    forall a :: a in s.answers && a.isNil ==> s.closed || a.items <= s.finished
  }

  lemma CountsStay(s: Sys, u: Sys, id: Id)
    requires Counted(s, id)
    requires forall k :: k in s.queue ==> k in u.queue
    requires forall k :: k in s.pending ==> k in u.pending
    requires forall t, k :: InlineAt(s, t, k) ==> InlineAt(u, t, k)
    ensures Counted(u, id)
  {
    if id !in s.queue && id !in s.pending {
      var t :| InlineAt(s, t, id);
      assert InlineAt(u, t, id);
    }
  }

  lemma InlineSame(s: Sys, u: Sys)
    requires forall t, k :: InlineAt(s, t, k) <==> InlineAt(u, t, k)
    ensures InlineProcs(s) == InlineProcs(u)
  {
    forall t: Tid
      ensures t in InlineProcs(s) <==> t in InlineProcs(u)
    {
      if t in InlineProcs(s) { assert InlineAt(u, t, s.procs[t].id); }
      if t in InlineProcs(u) { assert InlineAt(s, t, u.procs[t].id); }
    }
  }

  lemma {:induction false} AddQueues(s: Sys, skips: set<Id>, id: Id)
    requires Inv(s, skips)
    ensures var u := Step(s, skips, Add(id));
            && (forall k :: k in u.queue ==> u.queue[k] < u.next && u.queue[k] !in u.finished)
            && (forall j, k :: j in u.queue && k in u.queue && j != k ==> u.queue[j] != u.queue[k])
  {}

  lemma {:induction false} AddCounts(s: Sys, skips: set<Id>, id: Id, k: Id)
    requires Inv(s, skips) && Loose(Step(s, skips, Add(id)), k)
    ensures Counted(Step(s, skips, Add(id)), k)
  {
    assert Loose(s, k);
    CountsStay(s, Step(s, skips, Add(id)), k);
  }

  lemma {:induction false} AddKeeps(s: Sys, skips: set<Id>, id: Id)
    requires Inv(s, skips)
    ensures Inv(Step(s, skips, Add(id)), skips)
  {
    var u := Step(s, skips, Add(id));
    AddQueues(s, skips, id);
    InlineSame(s, u);
    forall k | Loose(u, k)
      ensures Counted(u, k)
    {
      AddCounts(s, skips, id, k);
    }
    forall t | t in u.procs
      ensures ProcOk(u, skips, t)
    {
      assert ProcOk(s, skips, t);
    }
  }

  lemma {:induction false} ParkKeeps(s: Sys, skips: set<Id>, id: Id, missing: bool)
    requires Inv(s, skips)
    ensures Inv(Step(s, skips, ParkUnreached(id, missing)), skips)
  {
    var u := Step(s, skips, ParkUnreached(id, missing));
    InlineSame(s, u);
    forall k | Loose(u, k)
      ensures Counted(u, k)
    {
      assert Loose(s, k);
      CountsStay(s, u, k);
    }
    forall t | t in u.procs
      ensures ProcOk(u, skips, t)
    {
      assert ProcOk(s, skips, t);
    }
  }

  lemma {:induction false} CloseKeeps(s: Sys, skips: set<Id>)
    requires Inv(s, skips)
    ensures Inv(Step(s, skips, Close), skips)
  {
    var u := Step(s, skips, Close);
    InlineSame(s, u);
    forall k | Loose(u, k)
      ensures Counted(u, k)
    {
      assert Loose(s, k);
      CountsStay(s, u, k);
    }
    forall t | t in u.procs
      ensures ProcOk(u, skips, t)
    {
      assert ProcOk(s, skips, t);
    }
  }

  /** A goroutine starting, moving on or ending a wait. */
  lemma {:induction false} OneProcKeeps(s: Sys, u: Sys, skips: set<Id>, t: Tid)
    requires Inv(s, skips)
    requires u.queue == s.queue && u.next == s.next && u.finished == s.finished && u.pending == s.pending
    requires u.stored == s.stored && u.materialized == s.materialized && u.deleted == s.deleted
    requires AnswersOk(u)
    requires u.procs - {t} == s.procs - {t}
    requires t in s.procs && s.procs[t].Inline? ==> InlineAt(u, t, s.procs[t].id)
    requires t in u.procs ==> ProcOk(u, skips, t)
    requires t in u.procs && u.procs[t].Worker? ==>
               !exists k :: k != t && k in s.procs && s.procs[k].Worker? && s.procs[k].id == u.procs[t].id
    requires u.syncing == |InlineProcs(u)|
    ensures Inv(u, skips)
  {
    forall k
      ensures k != t ==> (k in u.procs <==> k in s.procs) && (k in s.procs ==> u.procs[k] == s.procs[k])
    {
      ElsewhereSame(s.procs, u.procs, t, k);
    }
    forall k | Loose(u, k)
      ensures Counted(u, k)
    {
      assert Loose(s, k);
      CountsStay(s, u, k);
    }
    forall k | k in u.procs
      ensures ProcOk(u, skips, k)
    {
      if k != t { assert ProcOk(s, skips, k); }
    }
  }

  lemma ElsewhereSame(a: map<Tid, Proc>, b: map<Tid, Proc>, t: Tid, k: Tid)
    requires a - {t} == b - {t}
    ensures k != t ==> (k in a <==> k in b) && (k in a ==> a[k] == b[k])
  {
    if k != t {
      assert k in a <==> k in a - {t};
      assert k in b <==> k in b - {t};
      if k in a { assert (a - {t})[k] == (b - {t})[k]; }
    }
  }

  lemma {:induction false} BeginInlineKeeps(s: Sys, skips: set<Id>, t: Tid, id: Id)
    requires Inv(s, skips)
    ensures Inv(Step(s, skips, BeginInline(t, id)), skips)
  {
    var u := Step(s, skips, BeginInline(t, id));
    if u != s {
      assert InlineProcs(u) == InlineProcs(s) + {t};
      OneProcKeeps(s, u, skips, t);
    }
  }

  lemma {:induction false} BeginWorkKeeps(s: Sys, skips: set<Id>, t: Tid, id: Id)
    requires Inv(s, skips)
    ensures Inv(Step(s, skips, BeginWork(t, id)), skips)
  {
    var u := Step(s, skips, BeginWork(t, id));
    if u != s {
      assert InlineProcs(u) == InlineProcs(s);
      OneProcKeeps(s, u, skips, t);
    }
  }

  lemma {:induction false} WaitKeeps(s: Sys, skips: set<Id>, e: Event)
    requires Inv(s, skips) && (e.BeginWait? || e.WaitNext? || e.WaitEnds?)
    ensures Inv(Step(s, skips, e), skips)
  {
    var u, t := Step(s, skips, e), e.t;
    if u != s {
      assert InlineProcs(u) == InlineProcs(s);
      if t in s.procs { assert ProcOk(s, skips, t); }
      OneProcKeeps(s, u, skips, t);
    }
  }

  lemma {:induction false} ActKeeps(s: Sys, skips: set<Id>, t: Tid, outcome: Outcome, wrote: bool)
    requires Inv(s, skips)
    ensures Inv(Step(s, skips, Act(t, outcome, wrote)), skips)
  {
    var u := Step(s, skips, Act(t, outcome, wrote));
    if t in s.procs && CanAct(skips, s.procs[t], outcome) {
      var id := s.procs[t].id;
      assert ProcOk(s, skips, t);
      InlineSame(s, u);
      forall k | Loose(u, k)
        ensures Counted(u, k)
      {
        if k == id {
          if s.procs[t].Inline? { assert InlineAt(u, t, k); }
        } else {
          assert Loose(s, k);
          CountsStay(s, u, k);
        }
      }
      forall k | k in u.procs
        ensures ProcOk(u, skips, k)
      {
        ActProcs(s, skips, t, outcome, wrote, k);
      }
    }
  }

  lemma {:induction false} ActProcs(s: Sys, skips: set<Id>, t: Tid, outcome: Outcome, wrote: bool, k: Tid)
    requires Inv(s, skips) && k in Step(s, skips, Act(t, outcome, wrote)).procs
    requires t in s.procs && CanAct(skips, s.procs[t], outcome)
    ensures ProcOk(Step(s, skips, Act(t, outcome, wrote)), skips, k)
  {
    assert ProcOk(s, skips, k) && ProcOk(s, skips, t);
  }

  /** Settling one tree leaves the other ids' marks alone, and clears its own
      only when it is in the projection, deleted or declined. */
  lemma {:induction false} SettleMarks(s: Sys, skips: set<Id>, t: Tid, id: Id)
    requires Inv(s, skips) && id in s.pending
    ensures id in Step(s, skips, Settle(t)).pending || id in s.materialized || id in s.deleted || id in skips
  {
    if t in s.procs { assert ProcOk(s, skips, t); }
  }

  lemma {:induction false} SettledProc(s: Sys, skips: set<Id>, t: Tid)
    requires Inv(s, skips) && t in Step(s, skips, Settle(t)).procs
    ensures ProcOk(Step(s, skips, Settle(t)), skips, t)
  {
    assert ProcOk(s, skips, t);
  }

  lemma {:induction false} SettleProcs(s: Sys, skips: set<Id>, t: Tid, k: Tid)
    requires Inv(s, skips) && k in Step(s, skips, Settle(t)).procs
    ensures ProcOk(Step(s, skips, Settle(t)), skips, k)
  {
    if k == t { SettledProc(s, skips, t); } else { SettleOther(s, skips, t, k); }
  }

  lemma {:induction false} SettleOther(s: Sys, skips: set<Id>, t: Tid, k: Tid)
    requires Inv(s, skips) && k in Step(s, skips, Settle(t)).procs && k != t
    ensures ProcOk(Step(s, skips, Settle(t)), skips, k)
  {
    assert k in s.procs && Step(s, skips, Settle(t)).procs[k] == s.procs[k];
    assert ProcOk(s, skips, k);
    if !s.procs[k].Waiting? && s.procs[k].id in s.pending { SettleMarks(s, skips, t, s.procs[k].id); }
  }

  lemma {:induction false} SettleWorkers(s: Sys, skips: set<Id>, t: Tid)
    requires OneWorkerPerTree(s)
    ensures OneWorkerPerTree(Step(s, skips, Settle(t)))
  {}

  lemma {:induction false} SettleKeeps(s: Sys, skips: set<Id>, t: Tid)
    requires Inv(s, skips)
    ensures Inv(Step(s, skips, Settle(t)), skips)
  {
    var u := Step(s, skips, Settle(t));
    if u != s {
      assert ProcOk(s, skips, t);
      SettleInline(s, u, skips, t);
      SettleWorkers(s, skips, t);
      SettleFields(s, u, skips, t);
      forall k | Loose(u, k)
        ensures Counted(u, k)
      {
        SettleCounts(s, u, skips, t, k);
      }
      forall k | k in u.procs
        ensures ProcOk(u, skips, k)
      {
        SettleProcs(s, skips, t, k);
      }
    }
  }

  lemma {:induction false} SettleFields(s: Sys, u: Sys, skips: set<Id>, t: Tid)
    requires u == Step(s, skips, Settle(t))
    ensures u.queue == s.queue && u.finished == s.finished && u.next == s.next && u.stored == s.stored
    ensures u.closed == s.closed && u.answers == s.answers && u.syncing == s.syncing
  {}

  lemma {:induction false} SettleInline(s: Sys, u: Sys, skips: set<Id>, t: Tid)
    requires u == Step(s, skips, Settle(t)) && u != s
    requires s.procs[t].phase.outcome.Brought? ==> s.procs[t].Worker?
    ensures InlineProcs(u) == InlineProcs(s)
  {}

  lemma {:induction false} SettleCounts(s: Sys, u: Sys, skips: set<Id>, t: Tid, k: Id)
    requires Inv(s, skips) && u == Step(s, skips, Settle(t)) && u != s && Loose(u, k)
    requires s.procs[t].phase.outcome.Brought? ==> s.procs[t].Worker?
    ensures Counted(u, k)
  {
    assert Loose(s, k) && ProcOk(s, skips, t);
    if k !in s.queue && k !in s.pending {
      var r :| InlineAt(s, r, k);
      SettleStays(s, u, skips, t, r, k);
    }
  }

  lemma SettleStays(s: Sys, u: Sys, skips: set<Id>, t: Tid, r: Tid, k: Id)
    requires u == Step(s, skips, Settle(t)) && u != s && InlineAt(s, r, k)
    requires s.procs[t].phase.outcome.Brought? ==> s.procs[t].Worker?
    ensures InlineAt(u, r, k)
  {}

  lemma {:induction false} LeaveProcs(s: Sys, skips: set<Id>, t: Tid, k: Tid)
    requires Inv(s, skips) && k in Step(s, skips, Leave(t)).procs
    ensures ProcOk(Step(s, skips, Leave(t)), skips, k)
  {
    assert ProcOk(s, skips, k);
    if t in s.procs { assert ProcOk(s, skips, t); }
  }

  lemma {:induction false} LeaveInline(s: Sys, skips: set<Id>, t: Tid)
    requires s.syncing == |InlineProcs(s)|
    ensures Step(s, skips, Leave(t)).syncing == |InlineProcs(Step(s, skips, Leave(t)))|
  {
    if t in s.procs && !s.procs[t].Waiting? && s.procs[t].phase.Settled? {
      InlineGone(s, Leaves(s, t), t);
      if s.procs[t].Inline? { OneFewer(InlineProcs(s), t); }
    }
  }

  lemma OneFewer(ts: set<Tid>, t: Tid)
    requires t in ts
    ensures |ts - {t}| == |ts| - 1
  {}

  lemma InlineGone(s: Sys, u: Sys, t: Tid)
    requires t in s.procs && u.procs == s.procs - {t}
    ensures InlineProcs(u) == InlineProcs(s) - {t}
    ensures !s.procs[t].Inline? ==> InlineProcs(u) == InlineProcs(s)
  {}

  lemma {:induction false} LeaveKeeps(s: Sys, skips: set<Id>, t: Tid)
    requires Inv(s, skips)
    ensures Inv(Step(s, skips, Leave(t)), skips)
  {
    var u := Step(s, skips, Leave(t));
    LeaveInline(s, skips, t);
    if u != s {
      forall k | Loose(u, k)
        ensures Counted(u, k)
      {
        LeaveCounts(s, u, skips, t, k);
      }
      forall k | k in u.procs
        ensures ProcOk(u, skips, k)
      {
        LeaveProcs(s, skips, t, k);
      }
      if s.procs[t].Worker? { assert ProcOk(s, skips, t); }
    }
  }

  lemma {:induction false} LeaveCounts(s: Sys, u: Sys, skips: set<Id>, t: Tid, k: Id)
    requires Inv(s, skips) && u == Step(s, skips, Leave(t)) && u != s && Loose(u, k)
    ensures Counted(u, k)
  {
    assert Loose(s, k) && ProcOk(s, skips, t);
    if k !in u.queue && k !in u.pending {
      assert s.procs[t].id != k;
      var r :| InlineAt(s, r, k);
      assert InlineAt(u, r, k);
    }
  }

  lemma {:induction false} InvRun(skips: set<Id>, es: seq<Event>)
    ensures Inv(Run(skips, es), skips)
    decreases |es|
  {
    if es != [] {
      var s, e := Run(skips, es[..|es| - 1]), es[|es| - 1];
      InvRun(skips, es[..|es| - 1]);
      match e {
        case Add(id) => AddKeeps(s, skips, id);
        case BeginInline(t, id) => BeginInlineKeeps(s, skips, t, id);
        case ParkUnreached(id, missing) => ParkKeeps(s, skips, id, missing);
        case BeginWork(t, id) => BeginWorkKeeps(s, skips, t, id);
        case Act(t, outcome, wrote) => ActKeeps(s, skips, t, outcome, wrote);
        case Settle(t) => SettleKeeps(s, skips, t);
        case Leave(t) => LeaveKeeps(s, skips, t);
        case Close => CloseKeeps(s, skips);
        case _ => WaitKeeps(s, skips, e);
      }
    } else {
      assert InlineProcs(START) == {};
    }
  }

  // ------------------------------------------------------------- what it is for

  /** `syncingCount` and `pendingCount`. */
  function SyncingCount(s: Sys): int {
    |s.queue| + s.syncing
  }

  function PendingCount(s: Sys): int {
    |s.pending|
  }

  lemma NothingCounted(s: Sys, skips: set<Id>, id: Id)
    requires Inv(s, skips) && SyncingCount(s) == 0 && PendingCount(s) == 0
    ensures !Counted(s, id)
  {
    forall t
      ensures !InlineAt(s, t, id)
    {
      assert t in InlineProcs(s) <==> t in s.procs && s.procs[t].Inline?;
    }
  }

  /** Where nothing is counted at one moment, everything the adapter put in
      storage is in the projection or deleted. */
  lemma ZeroMeansMaterialized(skips: set<Id>, es: seq<Event>, id: Id)
    requires SyncingCount(Run(skips, es)) == 0 && PendingCount(Run(skips, es)) == 0
    requires id in Run(skips, es).stored
    ensures id in Run(skips, es).materialized || id in Run(skips, es).deleted
  {
    InvRun(skips, es);
    NothingCounted(Run(skips, es), skips, id);
    assert Loose(Run(skips, es), id) ==> Counted(Run(skips, es), id);
  }

  /** In every state a stored tree is in the projection, deleted, or counted. */
  lemma StoredIsCounted(skips: set<Id>, es: seq<Event>, id: Id)
    requires id in Run(skips, es).stored
    ensures id in Run(skips, es).materialized || id in Run(skips, es).deleted || Counted(Run(skips, es), id)
  {
    InvRun(skips, es);
  }

  /** A wait that returned nil has seen every item it was asked for finish, or
      the job closed. */
  lemma WaitSawThemFinish(skips: set<Id>, es: seq<Event>, items: set<nat>)
    requires Answer(items, true) in Run(skips, es).answers
    ensures Run(skips, es).closed || items <= Run(skips, es).finished
  {
    InvRun(skips, es);
  }

  /** A close makes it return nil with its item still in the queue. */
  lemma {:induction false} NilOnClose(skips: set<Id>, id: Id)
    ensures var s := Run(skips, [Add(id), BeginWait(0, {0}), Close, WaitEnds(0, JobClosed)]);
            Answer({0}, true) in s.answers && id in s.queue && s.queue[id] == 0 && 0 !in s.finished
  {
    var es := [Add(id), BeginWait(0, {0}), Close, WaitEnds(0, JobClosed)];
    assert es[..3][..2] == es[..2] && es[..2][..1] == es[..1] && es[..1][..0] == [];
    assert Run(skips, es[..1][..0]) == START;
    assert Run(skips, es[..1]) == Step(START, skips, Add(id));
    assert Run(skips, es[..2]) == Step(Run(skips, es[..1]), skips, BeginWait(0, {0}));
    assert Run(skips, es[..3]) == Step(Run(skips, es[..2]), skips, Close);
  }

  lemma {:induction false} FinishedStep(s: Sys, skips: set<Id>, e: Event, item: nat)
    requires Inv(s, skips) && item in s.finished
    ensures item in Step(s, skips, e).finished
    ensures forall id :: id in Step(s, skips, e).queue ==> Step(s, skips, e).queue[id] != item
  {
    if e.Leave? && Step(s, skips, e) != s { assert ProcOk(s, skips, e.t); }
  }

  /** An item is finished at most once, and then it is off the queue for good. */
  lemma FinishedOnce(skips: set<Id>, es: seq<Event>, e: Event, item: nat)
    requires item in Run(skips, es).finished
    ensures item in Run(skips, es + [e]).finished
    ensures forall id :: id in Run(skips, es + [e]).queue ==> Run(skips, es + [e]).queue[id] != item
  {
    InvRun(skips, es);
    assert (es + [e])[..|es|] == es;
    FinishedStep(Run(skips, es), skips, e, item);
  }

  // ------------------------------------------------------- the gate at close

  /** When the gate takes its counts, as numbers of steps done: the parked trees,
      the queue, the trees syncing inline, each read under its own lock. */
  datatype Gate = Gate(parked: nat, queued: nat, inline: nat)

  predicate Reads(es: seq<Event>, g: Gate) {
    g.parked <= g.queued <= g.inline <= |es|
  }

  function After(skips: set<Id>, es: seq<Event>, n: nat): Sys
    requires n <= |es|
  {
    Run(skips, es[..n])
  }

  /** `parkedTreeCount`. */
  function GateSum(skips: set<Id>, es: seq<Event>, g: Gate): int
    requires Reads(es, g)
  {
    PendingCount(After(skips, es, g.parked)) + |After(skips, es, g.queued).queue| + After(skips, es, g.inline).syncing
  }

  /** The job is closed and its workers are gone. */
  predicate Quiet(s: Sys) {
    s.closed && forall t :: t in s.procs ==> !s.procs[t].Worker?
  }

  /** A step of goroutine t on its tree. */
  predicate On(s: Sys, t: Tid, id: Id) {
    t in s.procs && !s.procs[t].Waiting? && s.procs[t].id == id
  }

  /** The step puts id in the parked set. */
  predicate Parks(s: Sys, e: Event, id: Id) {
    match e
    case Settle(t) =>
      On(s, t, id) && s.procs[t].phase.Acted? &&
      (s.procs[t].phase.outcome.Broke? || (s.procs[t].phase.outcome.CutShort? && s.procs[t].Inline?))
    case ParkUnreached(k, _) => k == id
    case _ => false
  }

  /** The step brings id to the projection, or finds it deleted. */
  predicate Lands(s: Sys, skips: set<Id>, e: Event, id: Id) {
    e.Act? && On(s, e.t, id) && CanAct(skips, s.procs[e.t], e.outcome) && (e.outcome.Landed? || e.outcome.Vanished?)
  }

  /** A worker of the job puts id in storage. */
  predicate Brings(s: Sys, skips: set<Id>, e: Event, id: Id) {
    e.Act? && On(s, e.t, id) && s.procs[e.t].Worker? && CanAct(skips, s.procs[e.t], e.outcome) &&
    id in Step(s, skips, e).stored
  }

  ghost predicate JobFetched(skips: set<Id>, es: seq<Event>, n: nat, id: Id)
    requires n <= |es|
  {
    exists i :: 0 <= i < n && Brings(After(skips, es, i), skips, es[i], id)
  }

  /** Between the steps lo and hi a sync parks id, then in storage and not in
      the projection, and nothing lands it afterwards. */
  ghost predicate ParkedBetween(skips: set<Id>, es: seq<Event>, lo: nat, hi: nat, id: Id)
    requires hi <= |es|
  {
    exists i :: lo <= i < hi && ParkedAt(skips, es, i, hi, id)
  }

  ghost predicate ParkedAt(skips: set<Id>, es: seq<Event>, i: nat, hi: nat, id: Id)
    requires i < hi <= |es|
  {
    && Loose(After(skips, es, i), id) && Parks(After(skips, es, i), es[i], id)
    && forall j :: i < j < hi ==> !Lands(After(skips, es, j), skips, es[j], id)
  }

  lemma AfterNext(skips: set<Id>, es: seq<Event>, n: nat)
    requires n < |es|
    ensures After(skips, es, n + 1) == Step(After(skips, es, n), skips, es[n])
  {
    assert es[..n + 1][..n] == es[..n];
  }

  lemma InvAfter(skips: set<Id>, es: seq<Event>, n: nat)
    requires n <= |es|
    ensures Inv(After(skips, es, n), skips)
  {
    InvRun(skips, es[..n]);
  }

  lemma {:induction false} LooseStep(s: Sys, skips: set<Id>, e: Event, id: Id)
    ensures Loose(s, id) && !Lands(s, skips, e, id) ==> Loose(Step(s, skips, e), id)
    ensures Lands(s, skips, e, id) ==> !Loose(Step(s, skips, e), id)
    ensures Loose(Step(s, skips, e), id) && !Loose(s, id) ==>
              e.Act? && On(s, e.t, id) && CanAct(skips, s.procs[e.t], e.outcome)
  {}

  lemma {:induction false} QuietStep(s: Sys, skips: set<Id>, e: Event)
    requires Quiet(s)
    ensures Quiet(Step(s, skips, e)) && forall id :: id in s.queue ==> id in Step(s, skips, e).queue
  {}

  lemma {:induction false} QuietStays(skips: set<Id>, es: seq<Event>, lo: nat, hi: nat)
    requires lo <= hi <= |es| && Quiet(After(skips, es, lo))
    ensures Quiet(After(skips, es, hi))
    ensures forall id :: id in After(skips, es, lo).queue ==> id in After(skips, es, hi).queue
    decreases hi
  {
    if lo < hi {
      QuietStays(skips, es, lo, hi - 1);
      AfterNext(skips, es, hi - 1);
      QuietStep(After(skips, es, hi - 1), skips, es[hi - 1]);
    }
  }

  /** What is in the projection or deleted stays so. */
  lemma {:induction false} LandedStays(skips: set<Id>, es: seq<Event>, lo: nat, hi: nat, id: Id)
    requires lo <= hi <= |es|
    ensures id in After(skips, es, lo).materialized ==> id in After(skips, es, hi).materialized
    ensures id in After(skips, es, lo).deleted ==> id in After(skips, es, hi).deleted
    decreases hi
  {
    if lo < hi {
      LandedStays(skips, es, lo, hi - 1, id);
      AfterNext(skips, es, hi - 1);
      LandedStep(After(skips, es, hi - 1), skips, es[hi - 1], id);
    }
  }

  lemma {:induction false} LandedStep(s: Sys, skips: set<Id>, e: Event, id: Id)
    ensures id in s.materialized ==> id in Step(s, skips, e).materialized
    ensures id in s.deleted ==> id in Step(s, skips, e).deleted
  {}

  // ------------------------------------------------------- what the job fetched

  /** A tree the job fetched is queued or parked until it lands. */
  predicate Held(s: Sys, id: Id) {
    Loose(s, id) ==> id in s.queue || id in s.pending
  }

  lemma {:induction false} HeldStep(s: Sys, skips: set<Id>, e: Event, id: Id)
    requires Inv(s, skips) && id in s.stored && Held(s, id)
    ensures Held(Step(s, skips, e), id)
  {
    if e.Settle? && id in s.pending { SettleMarks(s, skips, e.t, id); }
    if e.Leave? && e.t in s.procs { assert ProcOk(s, skips, e.t); }
  }

  lemma {:induction false} BroughtIsHeld(s: Sys, skips: set<Id>, e: Event, id: Id)
    requires Inv(s, skips) && Brings(s, skips, e, id)
    ensures id in Step(s, skips, e).stored && id in Step(s, skips, e).queue
  {
    assert ProcOk(s, skips, e.t);
  }

  lemma {:induction false} HeldFirst(skips: set<Id>, es: seq<Event>, n: nat, id: Id)
    requires n < |es| && Brings(After(skips, es, n), skips, es[n], id)
    ensures id in After(skips, es, n + 1).stored && Held(After(skips, es, n + 1), id)
  {
    var s := After(skips, es, n);
    AfterNext(skips, es, n);
    InvAfter(skips, es, n);
    BroughtIsHeld(s, skips, es[n], id);
  }

  lemma {:induction false} HeldNext(skips: set<Id>, es: seq<Event>, n: nat, id: Id)
    requires n < |es| && id in After(skips, es, n).stored && Held(After(skips, es, n), id)
    ensures id in After(skips, es, n + 1).stored && Held(After(skips, es, n + 1), id)
  {
    var s := After(skips, es, n);
    AfterNext(skips, es, n);
    InvAfter(skips, es, n);
    HeldStep(s, skips, es[n], id);
    StoredStays(s, skips, es[n], id);
  }

  lemma StoredStays(s: Sys, skips: set<Id>, e: Event, id: Id)
    requires id in s.stored
    ensures id in Step(s, skips, e).stored
  {}

  lemma {:induction false} HeldSince(skips: set<Id>, es: seq<Event>, i: nat, n: nat, id: Id)
    requires i < n <= |es| && Brings(After(skips, es, i), skips, es[i], id)
    ensures id in After(skips, es, n).stored && Held(After(skips, es, n), id)
    decreases n
  {
    if i == n - 1 {
      HeldFirst(skips, es, i, id);
    } else {
      HeldSince(skips, es, i, n - 1, id);
      HeldNext(skips, es, n - 1, id);
    }
  }

  lemma {:induction false} JobHolds(skips: set<Id>, es: seq<Event>, n: nat, id: Id)
    requires n <= |es| && JobFetched(skips, es, n, id)
    ensures id in After(skips, es, n).stored && Held(After(skips, es, n), id)
  {
    var i :| 0 <= i < n && Brings(After(skips, es, i), skips, es[i], id);
    HeldSince(skips, es, i, n, id);
  }

  /** With the job closed and its workers gone, a gate that adds up to zero over
      its separate reads is right about every tree the job fetched. */
  lemma GateClearsJobTrees(skips: set<Id>, es: seq<Event>, g: Gate, id: Id)
    requires Reads(es, g) && Quiet(After(skips, es, g.parked)) && GateSum(skips, es, g) == 0
    requires JobFetched(skips, es, g.parked, id)
    ensures id in After(skips, es, g.inline).materialized || id in After(skips, es, g.inline).deleted
  {
    GateParts(skips, es, g);
    JobHolds(skips, es, g.parked, id);
    LandedStays(skips, es, g.parked, g.inline, id);
  }

  /** A zero sum is three zeros; the queue was empty at the first read already. */
  lemma GateParts(skips: set<Id>, es: seq<Event>, g: Gate)
    requires Reads(es, g) && Quiet(After(skips, es, g.parked)) && GateSum(skips, es, g) == 0
    ensures After(skips, es, g.parked).pending == map[] && After(skips, es, g.parked).queue == map[]
    ensures forall t, id :: !InlineAt(After(skips, es, g.inline), t, id)
  {
    InvAfter(skips, es, g.inline);
    QuietStays(skips, es, g.parked, g.queued);
    var last := After(skips, es, g.inline);
    assert InlineProcs(last) == {};
    forall t, id
      ensures !InlineAt(last, t, id)
    {
      assert t !in InlineProcs(last);
    }
  }

  // -------------------------------------------------- what a round syncs inline

  /** An inline sync has the tree in hand and has not parked or cleared it yet. */
  ghost predicate InHand(s: Sys, id: Id) {
    exists t :: InlineAt(s, t, id) && !s.procs[t].phase.Settled?
  }

  lemma {:induction false} FirstInHand(s: Sys, skips: set<Id>, id: Id)
    requires Inv(s, skips) && s.pending == map[] && s.queue == map[] && Loose(s, id)
    ensures InHand(s, id)
  {
    assert Counted(s, id);
    var t :| InlineAt(s, t, id);
    assert ProcOk(s, skips, t);
  }

  /** The tree stays in hand until the sync parks it or it lands. */
  lemma {:induction false} InHandStep(s: Sys, skips: set<Id>, e: Event, id: Id)
    requires Inv(s, skips) && InHand(s, id) && Loose(Step(s, skips, e), id)
    ensures InHand(Step(s, skips, e), id) || (Loose(s, id) && Parks(s, e, id))
  {
    var t :| InlineAt(s, t, id) && !s.procs[t].phase.Settled?;
    var u := Step(s, skips, e);
    assert ProcOk(s, skips, t);
    if e == Settle(t) && s.procs[t].phase.Acted? {
      LooseStep(s, skips, e, id);
    } else {
      StaysInHand(s, skips, e, t, id);
    }
  }

  lemma {:induction false} StaysInHand(s: Sys, skips: set<Id>, e: Event, t: Tid, id: Id)
    requires InlineAt(s, t, id) && !s.procs[t].phase.Settled? && !(e == Settle(t) && s.procs[t].phase.Acted?)
    ensures InlineAt(Step(s, skips, e), t, id) && !Step(s, skips, e).procs[t].phase.Settled?
  {}

  lemma {:induction false} NewlyInHand(s: Sys, skips: set<Id>, e: Event, id: Id)
    requires Quiet(s) && !Loose(s, id) && Loose(Step(s, skips, e), id)
    ensures InHand(Step(s, skips, e), id)
  {
    LooseStep(s, skips, e, id);
    assert InlineAt(Step(s, skips, e), e.t, id);
  }

  lemma ParkedLater(skips: set<Id>, es: seq<Event>, lo: nat, hi: nat, id: Id)
    requires hi < |es| && ParkedBetween(skips, es, lo, hi, id)
    requires !Lands(After(skips, es, hi), skips, es[hi], id)
    ensures ParkedBetween(skips, es, lo, hi + 1, id)
  {
    var i :| lo <= i < hi && ParkedAt(skips, es, i, hi, id);
    ParkedAtLater(skips, es, i, hi, id);
  }

  lemma ParkedAtLater(skips: set<Id>, es: seq<Event>, i: nat, hi: nat, id: Id)
    requires i < hi < |es| && ParkedAt(skips, es, i, hi, id)
    requires !Lands(After(skips, es, hi), skips, es[hi], id)
    ensures ParkedAt(skips, es, i, hi + 1, id)
  {
    forall j | i < j < hi + 1
      ensures !Lands(After(skips, es, j), skips, es[j], id)
    {}
  }

  /** After an empty first read, a tree in storage and not in the projection is
      in hand or was parked since. */
  lemma {:induction false} LooseIsHeldOrParked(skips: set<Id>, es: seq<Event>, lo: nat, hi: nat, id: Id)
    requires lo <= hi <= |es| && Quiet(After(skips, es, lo)) && Loose(After(skips, es, hi), id)
    requires After(skips, es, lo).pending == map[] && After(skips, es, lo).queue == map[]
    ensures InHand(After(skips, es, hi), id) || ParkedBetween(skips, es, lo, hi, id)
    decreases hi
  {
    if lo == hi {
      InvAfter(skips, es, lo);
      FirstInHand(After(skips, es, lo), skips, id);
    } else {
      var n := hi - 1;
      var s, e := After(skips, es, n), es[n];
      AfterNext(skips, es, n);
      InvAfter(skips, es, n);
      QuietStays(skips, es, lo, n);
      LooseStep(s, skips, e, id);
      if !Loose(s, id) {
        NewlyInHand(s, skips, e, id);
      } else {
        LooseIsHeldOrParked(skips, es, lo, n, id);
        if ParkedBetween(skips, es, lo, n, id) {
          ParkedLater(skips, es, lo, n, id);
        } else {
          InHandStep(s, skips, e, id);
          if !InHand(Step(s, skips, e), id) { assert ParkedAt(skips, es, n, n + 1, id); }
        }
      }
    }
  }

  lemma {:induction false} LooseStays(skips: set<Id>, es: seq<Event>, lo: nat, hi: nat, id: Id)
    requires lo <= hi <= |es| && Loose(After(skips, es, lo), id)
    requires forall j :: lo <= j < hi ==> !Lands(After(skips, es, j), skips, es[j], id)
    ensures Loose(After(skips, es, hi), id)
    decreases hi
  {
    if lo < hi {
      LooseStays(skips, es, lo, hi - 1, id);
      AfterNext(skips, es, hi - 1);
      LooseStep(After(skips, es, hi - 1), skips, es[hi - 1], id);
    }
  }

  lemma {:induction false} ParkedIsLoose(skips: set<Id>, es: seq<Event>, lo: nat, hi: nat, id: Id)
    requires hi <= |es| && ParkedBetween(skips, es, lo, hi, id)
    ensures Loose(After(skips, es, hi), id)
  {
    var i :| lo <= i < hi && ParkedAt(skips, es, i, hi, id);
    LooseStep(After(skips, es, i), skips, es[i], id);
    assert !Lands(After(skips, es, i), skips, es[i], id);
    LooseStays(skips, es, i, hi, id);
  }

  /** With the job closed and its workers gone, a gate that adds up to zero
      misses a tree exactly when a sync parks it between the first read and the
      last, in storage and not in the projection, and none lands it. */
  lemma {:induction false} GateSoundIff(skips: set<Id>, es: seq<Event>, g: Gate, id: Id)
    requires Reads(es, g) && Quiet(After(skips, es, g.parked)) && GateSum(skips, es, g) == 0
    ensures !Loose(After(skips, es, g.inline), id) <==> !ParkedBetween(skips, es, g.parked, g.inline, id)
  {
    GateParts(skips, es, g);
    if Loose(After(skips, es, g.inline), id) { LooseIsHeldOrParked(skips, es, g.parked, g.inline, id); }
    if ParkedBetween(skips, es, g.parked, g.inline, id) { ParkedIsLoose(skips, es, g.parked, g.inline, id); }
  }

  /** An inline sync that fails after the write, around the gate's reads: the sum
      is zero, and the tree is in storage, parked and not in the projection. */
  lemma {:induction false} GateMissesInlineTree(skips: set<Id>, id: Id) returns (es: seq<Event>, g: Gate)
    requires id !in skips
    ensures Reads(es, g) && Quiet(After(skips, es, g.parked)) && GateSum(skips, es, g) == 0
    ensures Loose(After(skips, es, g.inline), id) && id in After(skips, es, g.inline).pending
  {
    var acts, parks := [Close, BeginInline(0, id), Act(0, Broke(true), true)], [Settle(0), Leave(0)];
    es, g := acts + parks, Gate(3, 5, 5);
    WritesAndFails(skips, id);
    ParksAndLeaves(skips, id, Run(skips, acts));
    assert es[..3] == acts && es[..5] == es && es[..4] == acts + [Settle(0)];
    AfterNext(skips, es, 3);
    AfterNext(skips, es, 4);
  }

  lemma ParksAndLeaves(skips: set<Id>, id: Id, s: Sys)
    requires s == START.(closed := true, syncing := 1, stored := {id},
                         procs := map[0 := Inline(id, Acted(Broke(true)))])
    ensures Step(Step(s, skips, Settle(0)), skips, Leave(0)) ==
            START.(closed := true, pending := map[id := true], stored := {id})
  {
    var t := Step(s, skips, Settle(0));
    assert t.procs == map[0 := Inline(id, Settled)] && t.pending == map[id := true];
    assert t.procs - {0} == map[];
  }

  lemma {:induction false} WritesAndFails(skips: set<Id>, id: Id)
    requires id !in skips
    ensures Run(skips, [Close, BeginInline(0, id), Act(0, Broke(true), true)]) ==
            START.(closed := true, syncing := 1, procs := map[0 := Inline(id, Acted(Broke(true)))], stored := {id})
  {
    var es := [Close, BeginInline(0, id), Act(0, Broke(true), true)];
    assert After(skips, es, 0) == START && es[..3] == es;
    AfterNext(skips, es, 0);
    AfterNext(skips, es, 1);
    AfterNext(skips, es, 2);
    assert map[][0 := Inline(id, Started)][0 := Inline(id, Acted(Broke(true)))] ==
           map[0 := Inline(id, Acted(Broke(true)))];
  }
}
