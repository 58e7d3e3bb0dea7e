/** The counts of a space's sync, exactly: which trees are parked, queued, stored
    and in the projection after any run, told from the steps taken; and that
    every goroutine can finish. */
module SyncExactness {
  import opened Basics
  import opened SyncCounting

  // ------------------------------------------------------------------ one step

  /** A goroutine that handles the tree, in the given phase. */
  predicate Handles(s: Sys, t: Tid, id: Id, phase: Phase) {
    t in s.procs && !s.procs[t].Waiting? && s.procs[t].id == id && s.procs[t].phase == phase
  }

  /** The step marks the tree as parked, and whether as missing: a round that did
      not reach it, a handling that failed, or a round's one that was cut short. */
  predicate MarksAs(s: Sys, e: Event, id: Id, missing: bool) {
    || e == ParkUnreached(id, missing)
    || (e.Settle? && Handles(s, e.t, id, Acted(Broke(missing))))
    || (e.Settle? && Handles(s, e.t, id, Acted(CutShort(missing))) && s.procs[e.t].Inline?)
  }

  /** The step takes the mark off: a handling that landed the tree, found it
      deleted, or declined it. */
  predicate Clears(s: Sys, e: Event, id: Id) {
    e.Settle? &&
    (Handles(s, e.t, id, Acted(Landed)) || Handles(s, e.t, id, Acted(Vanished)) || Handles(s, e.t, id, Acted(Declined)))
  }

  lemma {:induction false} PendingStep(s: Sys, skips: set<Id>, e: Event, id: Id)
    ensures var u := Step(s, skips, e);
            id in u.pending <==>
              MarksAs(s, e, id, true) || MarksAs(s, e, id, false) || (id in s.pending && !Clears(s, e, id))
  {}

  /** A mark counts as missing once some handling since it was set said so. */
  lemma {:induction false} MissingStep(s: Sys, skips: set<Id>, e: Event, id: Id)
    requires id in Step(s, skips, e).pending
    ensures Step(s, skips, e).pending[id] <==> MarksAs(s, e, id, true) || (id in s.pending && s.pending[id])
  {}

  /** A worker on the tree leaves with its item. */
  predicate Dequeues(s: Sys, e: Event, id: Id) {
    e.Leave? && Handles(s, e.t, id, Settled) && s.procs[e.t].Worker?
  }

  lemma {:induction false} QueueStep(s: Sys, skips: set<Id>, e: Event, id: Id)
    ensures var u := Step(s, skips, e);
            && (id in u.queue <==> e == Add(id) || (id in s.queue && !Dequeues(s, e, id)))
            && (id in s.queue && id in u.queue ==> u.queue[id] == s.queue[id])
            && (id !in s.queue && id in u.queue ==> u.queue[id] == s.next && u.next == s.next + 1)
  {}

  lemma {:induction false} FinishStep(s: Sys, skips: set<Id>, e: Event, item: nat)
    ensures item in Step(s, skips, e).finished <==>
            item in s.finished || exists id :: Dequeues(s, e, id) && s.procs[e.t].item == item
  {
    if e.Leave? && e.t in s.procs && s.procs[e.t].Worker? && s.procs[e.t].phase.Settled? {
      assert Dequeues(s, e, s.procs[e.t].id);
    }
  }

  /** What the handling of a tree may come to: a tree selective sync skips is
      declined unless it fails or is gone, no other is, and only the job fetches
      without landing. */
  predicate Possible(skips: set<Id>, p: Proc, outcome: Outcome)
    requires !p.Waiting?
  {
    match outcome
    case Landed => p.id !in skips
    case Declined => p.id in skips
    case Vanished => true
    case Broke(_) => true
    case CutShort(_) => true
    case Brought => p.id !in skips && p.Worker?
  }

  /** The step is a handling of the tree with this outcome. */
  predicate Does(s: Sys, skips: set<Id>, e: Event, id: Id, outcome: Outcome) {
    e.Act? && e.outcome == outcome && Handles(s, e.t, id, Started) && Possible(skips, s.procs[e.t], outcome)
  }

  /** The step puts the tree in storage. */
  predicate Stores(s: Sys, skips: set<Id>, e: Event, id: Id) {
    || Does(s, skips, e, id, Landed) || Does(s, skips, e, id, Brought)
    || (e.Act? && (e.outcome.Broke? || e.outcome.CutShort?) && e.wrote && id !in skips &&
        Does(s, skips, e, id, e.outcome))
  }

  lemma {:induction false} StoreStep(s: Sys, skips: set<Id>, e: Event, id: Id)
    ensures id in Step(s, skips, e).stored <==> id in s.stored || Stores(s, skips, e, id)
  {}

  lemma {:induction false} LandStep(s: Sys, skips: set<Id>, e: Event, id: Id)
    ensures id in Step(s, skips, e).materialized <==> id in s.materialized || Does(s, skips, e, id, Landed)
    ensures id in Step(s, skips, e).deleted <==> id in s.deleted || Does(s, skips, e, id, Vanished)
  {}

  /** A goroutine takes up a queued tree exactly when the job is open and no other
      works on it. */
  lemma BeginWorkMeans(s: Sys, skips: set<Id>, t: Tid, id: Id)
    requires t !in s.procs
    ensures var u := Step(s, skips, BeginWork(t, id));
            && (t in u.procs <==>
                  && id in s.queue && !s.closed
                  && forall k :: k in s.procs && s.procs[k].Worker? ==> s.procs[k].id != id)
            && (t in u.procs ==> u == s.(procs := s.procs[t := Worker(id, s.queue[id], Started)]))
    ensures Step(s, skips, BeginInline(t, id)) ==
            s.(procs := s.procs[t := Inline(id, Started)], syncing := s.syncing + 1)
  {}

  /** A wait ticks off exactly the items that finished; it ends when none is left,
      when its context is over, and when the job closed, and only the second of
      these is an error. */
  lemma WaitMeans(s: Sys, skips: set<Id>, t: Tid, item: nat, items: set<nat>, left: set<nat>)
    requires t in s.procs && s.procs[t] == Waiting(items, left)
    ensures Step(s, skips, WaitNext(t, item)).procs ==
            s.procs[t := Waiting(items, if item in s.finished then left - {item} else left)]
    ensures Step(s, skips, WaitEnds(t, AllHandled)) ==
            if left == {} then s.(procs := s.procs - {t}, answers := s.answers + {Answer(items, true)}) else s
    ensures Step(s, skips, WaitEnds(t, JobClosed)) ==
            if s.closed then s.(procs := s.procs - {t}, answers := s.answers + {Answer(items, true)}) else s
    ensures Step(s, skips, WaitEnds(t, ContextOver)) ==
            s.(procs := s.procs - {t}, answers := s.answers + {Answer(items, false)})
  {
    if item !in s.finished { assert s.procs[t := Waiting(items, left)] == s.procs; }
  }

  // ---------------------------------------------------------------- whole runs

  /** Some step before n sets, and no step since takes back. */
  ghost predicate Since(sets: nat -> bool, takesBack: nat -> bool, n: nat) {
    exists i :: 0 <= i < n && sets(i) && forall j :: i < j < n ==> !takesBack(j)
  }

  lemma SinceNext(sets: nat -> bool, takesBack: nat -> bool, m: nat, n: nat)
    requires n == m + 1
    ensures Since(sets, takesBack, n) <==> sets(m) || (Since(sets, takesBack, m) && !takesBack(m))
  {
    if i :| 0 <= i < m && sets(i) && forall j :: i < j < m ==> !takesBack(j) {
      if !takesBack(m) { assert sets(i) && forall j :: i < j < n ==> !takesBack(j); }
    }
    if sets(m) { assert 0 <= m < n; }
  }

  /** Step i of the run marks the tree, takes the mark off, or takes it off the
      queue. */
  ghost predicate MarksIn(skips: set<Id>, es: seq<Event>, id: Id, i: nat) {
    i < |es| &&
    (MarksAs(After(skips, es, i), es[i], id, true) || MarksAs(After(skips, es, i), es[i], id, false))
  }

  ghost predicate ClearsIn(skips: set<Id>, es: seq<Event>, id: Id, i: nat) {
    i < |es| && Clears(After(skips, es, i), es[i], id)
  }

  ghost predicate DequeuesIn(skips: set<Id>, es: seq<Event>, id: Id, i: nat) {
    i < |es| && Dequeues(After(skips, es, i), es[i], id)
  }

  /** After any run a tree is parked exactly when some step marked it and none
      since took the mark off. */
  lemma {:induction false} ParkedIff(skips: set<Id>, es: seq<Event>, n: nat, id: Id)
    requires n <= |es|
    ensures id in After(skips, es, n).pending <==>
            Since((i: nat) => MarksIn(skips, es, id, i), (i: nat) => ClearsIn(skips, es, id, i), n)
    decreases n
  {
    if n == 0 {
      assert es[..0] == [];
    } else {
      var m := n - 1;
      ParkedIff(skips, es, m, id);
      AfterNext(skips, es, m);
      PendingStep(After(skips, es, m), skips, es[m], id);
      SinceNext((i: nat) => MarksIn(skips, es, id, i), (i: nat) => ClearsIn(skips, es, id, i), m, n);
    }
  }

  /** And queued exactly when it was added and no worker has left with it since. */
  lemma {:induction false} QueuedIff(skips: set<Id>, es: seq<Event>, n: nat, id: Id)
    requires n <= |es|
    ensures id in After(skips, es, n).queue <==>
            Since((i: nat) => i < |es| && es[i] == Add(id), (i: nat) => DequeuesIn(skips, es, id, i), n)
    decreases n
  {
    if n == 0 {
      assert es[..0] == [];
    } else {
      var m := n - 1;
      QueuedIff(skips, es, m, id);
      AfterNext(skips, es, m);
      QueueStep(After(skips, es, m), skips, es[m], id);
      SinceNext((i: nat) => i < |es| && es[i] == Add(id), (i: nat) => DequeuesIn(skips, es, id, i), m, n);
    }
  }

  ghost predicate StoresIn(skips: set<Id>, es: seq<Event>, id: Id, i: nat) {
    i < |es| && Stores(After(skips, es, i), skips, es[i], id)
  }

  ghost predicate DoesIn(skips: set<Id>, es: seq<Event>, id: Id, outcome: Outcome, i: nat) {
    i < |es| && Does(After(skips, es, i), skips, es[i], id, outcome)
  }

  ghost predicate Ever(holds: nat -> bool, n: nat) {
    exists i :: 0 <= i < n && holds(i)
  }

  lemma EverNext(holds: nat -> bool, m: nat, n: nat)
    requires n == m + 1
    ensures Ever(holds, n) <==> Ever(holds, m) || holds(m)
  {
    if holds(m) { assert 0 <= m < n; }
  }

  /** Storage, projection and deletion hold exactly what some handling did. */
  lemma {:induction false} DoneIff(skips: set<Id>, es: seq<Event>, n: nat, id: Id)
    requires n <= |es|
    ensures id in After(skips, es, n).stored <==> Ever((i: nat) => StoresIn(skips, es, id, i), n)
    ensures id in After(skips, es, n).materialized <==> Ever((i: nat) => DoesIn(skips, es, id, Landed, i), n)
    ensures id in After(skips, es, n).deleted <==> Ever((i: nat) => DoesIn(skips, es, id, Vanished, i), n)
    decreases n
  {
    if n == 0 {
      assert es[..0] == [];
    } else {
      var m := n - 1;
      DoneIff(skips, es, m, id);
      AfterNext(skips, es, m);
      StoreStep(After(skips, es, m), skips, es[m], id);
      LandStep(After(skips, es, m), skips, es[m], id);
      EverNext((i: nat) => StoresIn(skips, es, id, i), m, n);
      EverNext((i: nat) => DoesIn(skips, es, id, Landed, i), m, n);
      EverNext((i: nat) => DoesIn(skips, es, id, Vanished, i), m, n);
    }
  }

  ghost predicate FinishesIn(skips: set<Id>, es: seq<Event>, item: nat, i: nat) {
    && i < |es|
    && exists id :: Dequeues(After(skips, es, i), es[i], id) && After(skips, es, i).procs[es[i].t].item == item
  }

  /** An item has finished exactly when a worker has left with it. */
  lemma {:induction false} FinishedIff(skips: set<Id>, es: seq<Event>, n: nat, item: nat)
    requires n <= |es|
    ensures item in After(skips, es, n).finished <==> Ever((i: nat) => FinishesIn(skips, es, item, i), n)
    decreases n
  {
    if n == 0 {
      assert es[..0] == [];
    } else {
      var m := n - 1;
      FinishedIff(skips, es, m, item);
      AfterNext(skips, es, m);
      FinishStep(After(skips, es, m), skips, es[m], item);
      EverNext((i: nat) => FinishesIn(skips, es, item, i), m, n);
    }
  }

  // ------------------------------------------------------------ nobody is stuck

  function PhaseRank(phase: Phase): nat {
    match phase
    case Started => 3
    case Acted(_) => 2
    case Settled => 1
  }

  /** The goroutine's own next step, given what its handling comes to. */
  function Own(s: Sys, t: Tid, outcome: Outcome, wrote: bool): Event
    requires t in s.procs
  {
    if s.procs[t].Waiting? then WaitEnds(t, ContextOver)
    else
      match s.procs[t].phase
      case Started => Act(t, outcome, wrote)
      case Acted(_) => SyncCounting.Event.Settle(t)
      case Settled => Leave(t)
  }

  /** Whatever its handling comes to, a goroutine's own step brings it nearer to
      its end, and at its end the tree is counted for it no more. */
  lemma {:induction false} EverySyncEnds(s: Sys, skips: set<Id>, t: Tid, outcome: Outcome, wrote: bool)
    requires Inv(s, skips) && t in s.procs && (!s.procs[t].Waiting? ==> Possible(skips, s.procs[t], outcome))
    ensures var u := Step(s, skips, Own(s, t, outcome, wrote));
            && (t in u.procs ==> !s.procs[t].Waiting? && !u.procs[t].Waiting? &&
                                 PhaseRank(u.procs[t].phase) < PhaseRank(s.procs[t].phase))
            && (t !in u.procs && s.procs[t].Inline? ==> u.syncing == s.syncing - 1)
            && (t !in u.procs && s.procs[t].Worker? && s.procs[t].phase.Settled? ==> s.procs[t].id !in u.queue)
  {
    assert ProcOk(s, skips, t);
  }
}
