/** What the steps of the space stores' protocol achieve: who gets a handle or a
    claim, that nobody is stuck, that a shutdown takes every database, and where
    the files go. */
module SpaceProgress {
  import opened Basics
  import opened SpaceStore

  // ---------------------------------------------------------- handles and claims

  /** Nobody works on the space's store and no claim holds it. */
  predicate Shared(s: Sys, space: SpaceId) {
    && space in s.stores && s.stores[space] < |s.entries|
    && s.entries[s.stores[space]].pending.None? && !s.entries[s.stores[space]].deleting
  }

  /** A turn of `acquire` hands out a handle exactly when the space's store is
      open and shared and the caller does not insist on creating it; it starts
      an open exactly when the space has no store; a shutdown ends both. */
  lemma {:induction false} AcquireMeans(s: Sys, t: Tid, space: SpaceId, create: bool)
    requires Reachable(s) && t !in s.procs
    ensures var u := Step(s, Acquire(t, space, create));
            && (u.handles != s.handles <==> !s.closed && !create && Shared(s, space))
            && (u.handles != s.handles ==>
                  && u.handles == s.handles + [Handle(s.stores[space], false)] && u.procs == s.procs
                  && s.entries[s.stores[space]].db.Open? && s.entries[s.stores[space]].space == space)
            && (t in u.procs <==> !s.closed && space !in s.stores)
            && (t in u.procs ==>
                  && u.procs[t] == Opening(|s.entries|) && u.stores == s.stores[space := |s.entries|]
                  && |u.entries| == |s.entries| + 1 && u.entries[|s.entries|].space == space)
  {
    InvReachable(s);
    if Shared(s, space) { Shareable(s, s.stores[space], t); }
  }

  /** A turn of `claimForDelete` takes the claim exactly when there is no store,
      or a shared one; a shutdown refuses it. */
  lemma {:induction false} ClaimMeans(s: Sys, t: Tid, space: SpaceId)
    requires Reachable(s) && t !in s.procs
    ensures var u := Step(s, Claim(t, space));
            && (t in u.procs <==> !s.closed && (space !in s.stores || Shared(s, space)))
            && (t in u.procs ==>
                  && space in u.stores && u.procs[t] == Claimed(u.stores[space]) && u.stores[space] < |u.entries|
                  && (space in s.stores ==> u.stores == s.stores)
                  && u.entries[u.stores[space]].deleting && u.entries[u.stores[space]].pending == Some(t)
                  && (u.entries[u.stores[space]].db.Open? <==> space in s.stores))
  {
    InvReachable(s);
    if Shared(s, space) { Shareable(s, s.stores[space], t); }
  }

  // ------------------------------------------------------------ nobody is stuck

  /** How far a goroutine still has to go. */
  function Rank(p: Proc, e: Entry): nat {
    match p
    case Opening(_) => 1
    case Closing(_) => 2
    case Unmapping(_) => 1
    case Claimed(_) => 6
    case Draining(_) => 5
    case Drained(_, _) => 4
    case DeleteClosing(_, _) => 3
    case FileDue(_) => 2
    case DropDue(_) => 1
    case Letting(_) => if e.dbClosed.None? then 3 else 1
    case LetClosing(_) => 2
    case Sweeping(todo) => 3 * |todo| + 1
    case SweepAt(_, todo) => 3 * |todo| + 3
    case SweepClosing(_, todo) => 3 * |todo| + 2
  }

  const NOBODY := Entry("", Unopened, 0, None, false, false, None)

  function EntryOf(s: Sys, p: Proc): Entry {
    if p.Sweeping? || p.e >= |s.entries| then NOBODY else s.entries[p.e]
  }

  /** The step t takes next; a shutdown picks entry i, and a claim is given back
      or goes on to delete. */
  function Own(s: Sys, t: Tid, i: nat, back: bool): Event
    requires t in s.procs
  {
    match s.procs[t]
    case Opening(_) => Opened(t, true)
    case Closing(_) => DbClose(t)
    case Unmapping(_) => Unmap(t)
    case Claimed(_) => if back then BeginRelease(t) else BeginDelete(t)
    case Draining(_) => DrainEnds(t, EntryOf(s, s.procs[t]).draining)
    case Drained(_, _) => MarkClosed(t)
    case DeleteClosing(_, _) => DbClose(t)
    case FileDue(_) => RemoveFile(t, true)
    case DropDue(_) => DropEntry(t)
    case Letting(_) => LetGo(t)
    case LetClosing(_) => DbClose(t)
    case Sweeping(todo) => if todo == {} then SweepEnd(t) else SweepPick(t, i)
    case SweepAt(_, _) => SweepMark(t)
    case SweepClosing(_, _) => DbClose(t)
  }

  /** The event brings t nearer to its end. */
  predicate Nearer(s: Sys, e: Event, t: Tid)
    requires t in s.procs
  {
    var u := Step(s, e);
    t in u.procs ==> Rank(u.procs[t], EntryOf(u, u.procs[t])) < Rank(s.procs[t], EntryOf(s, s.procs[t]))
  }

  /** A shutdown waits for somebody at every entry it has left. */
  predicate Waiting(s: Sys, t: Tid) {
    && t in s.procs && s.procs[t].Sweeping? && s.procs[t].todo != {}
    && forall i :: i in s.procs[t].todo && i < |s.entries| ==> s.entries[i].pending.Some?
  }

  predicate AboutToClose(p: Proc) {
    p.Closing? || p.DeleteClosing? || p.LetClosing? || p.SweepClosing?
  }

  lemma {:induction false} OwnClose(s: Sys, t: Tid)
    requires t in s.procs && AboutToClose(s.procs[t]) && ProcOk(s, t)
    ensures Nearer(s, DbClose(t), t)
  {}

  lemma {:induction false} OwnClaimStep(s: Sys, t: Tid, back: bool)
    requires t in s.procs && InClaim(s.procs[t]) && !AboutToClose(s.procs[t]) && ProcOk(s, t)
    ensures Nearer(s, Own(s, t, 0, back), t)
  {}

  lemma {:induction false} OwnStep(s: Sys, t: Tid, back: bool)
    requires Inv(s) && t in s.procs && !s.procs[t].Sweeping?
    ensures Nearer(s, Own(s, t, 0, back), t)
  {
    assert ProcOk(s, t);
    if AboutToClose(s.procs[t]) {
      OwnClose(s, t);
    } else if InClaim(s.procs[t]) {
      OwnClaimStep(s, t, back);
    } else {
      OwnOtherStep(s, t, back);
    }
  }

  lemma {:induction false} OwnOtherStep(s: Sys, t: Tid, back: bool)
    requires t in s.procs && (s.procs[t].Opening? || s.procs[t].Unmapping? || s.procs[t].SweepAt?) && ProcOk(s, t)
    ensures Nearer(s, Own(s, t, 0, back), t)
  {}

  lemma {:induction false} SweepStep(s: Sys, t: Tid, back: bool) returns (i: nat)
    requires Inv(s) && t in s.procs && s.procs[t].Sweeping? && !Waiting(s, t)
    ensures Nearer(s, Own(s, t, i, back), t)
  {
    assert ProcOk(s, t);
    i := 0;
    if s.procs[t].todo != {} {
      i :| i in s.procs[t].todo && i < |s.entries| && s.entries[i].pending.None?;
      PickStep(s, t, i);
    }
  }

  lemma PickStep(s: Sys, t: Tid, i: nat)
    requires t in s.procs && s.procs[t].Sweeping? && i in s.procs[t].todo
    requires i < |s.entries| && s.entries[i].pending.None?
    ensures Nearer(s, SweepPick(t, i), t)
  {
    var rest := s.procs[t].todo - {i};
    assert s.procs[t].todo == rest + {i};
    assert |s.procs[t].todo| == |rest| + 1;
  }

  /** No deadlock: every goroutine can take its own next step, which brings it
      nearer to its end, but for a shutdown that waits for another one; and then
      that one can. */
  lemma {:induction false} NobodyIsStuck(s: Sys, t: Tid, back: bool) returns (k: Tid, i: nat)
    requires Reachable(s) && t in s.procs
    ensures k in s.procs && Nearer(s, Own(s, k, i, back), k)
    ensures !Waiting(s, t) ==> k == t
    ensures Waiting(s, t) ==> exists j :: j in s.procs[t].todo && j < |s.entries| && s.entries[j].pending == Some(k)
  {
    InvReachable(s);
    if Waiting(s, t) {
      assert ProcOk(s, t);
      var j :| j in s.procs[t].todo;
      assert EntryOk(s, j);
      k, i := s.entries[j].pending.value, 0;
      OwnStep(s, k, back);
    } else if s.procs[t].Sweeping? {
      k := t;
      i := SweepStep(s, t, back);
    } else {
      k, i := t, 0;
      OwnStep(s, t, back);
    }
  }

  // ------------------------------------------------------------------- shutdown

  /** The shutdown is through with an entry: its database is closed, or about to
      be, or it never opened and never will. */
  predicate Taken(s: Sys, i: nat) {
    i < |s.entries| && (s.entries[i].dbClosed.Some? || (s.entries[i].db.Unopened? && s.entries[i].pending.None?))
  }

  predicate InHand(p: Proc, i: nat) {
    || (p.Sweeping? && i in p.todo)
    || (p.SweepAt? && (p.e == i || i in p.todo))
    || (p.SweepClosing? && (p.e == i || i in p.todo))
  }

  /** t is sweeping the entries it found in the map. */
  ghost predicate Sweeps(s: Sys, t: Tid, found: set<nat>) {
    && t in s.procs && s.closed
    && (s.procs[t].Sweeping? || s.procs[t].SweepAt? || s.procs[t].SweepClosing?)
    && forall i :: i in found ==> Taken(s, i) || InHand(s.procs[t], i)
  }

  lemma {:induction false} TakenStays(s: Sys, e: Event, i: nat)
    requires Inv(s) && s.closed && Taken(s, i)
    ensures Taken(Step(s, e), i)
  {
    if e.Opened? {
      if e.t in s.procs { assert ProcOk(s, e.t); }
    } else if e.CloseHandle? {
      TakenRelease(s, e.t, e.h, i);
    }
  }

  lemma {:induction false} TakenRelease(s: Sys, t: Tid, h: nat, i: nat)
    requires Inv(s) && Taken(s, i)
    ensures Taken(Released(s, t, h), i)
  {
    if Released(s, t, h) != s { ReleasedRefs(s, t, h); }
    assert EntryOk(s, i);
  }

  /** A goroutine is moved by its own steps only. */
  lemma {:induction false} OthersStay(s: Sys, e: Event, t: Tid)
    requires e.t != t
    ensures t in Step(s, e).procs <==> t in s.procs
    ensures t in s.procs ==> Step(s, e).procs[t] == s.procs[t]
  {}

  lemma {:induction false} HandStays(s: Sys, t: Tid, e: Event, i: nat)
    requires Inv(s) && t in s.procs && s.closed && InHand(s.procs[t], i) && e != SweepEnd(t) && e.t == t
    ensures Taken(Step(s, e), i) || (t in Step(s, e).procs && InHand(Step(s, e).procs[t], i))
  {
    assert ProcOk(s, t);
    if s.procs[t].SweepAt? && s.procs[t].e == i { assert EntryOk(s, i); }
  }

  lemma {:induction false} ClosedStays(s: Sys, e: Event)
    requires s.closed
    ensures Step(s, e).closed
  {}

  lemma {:induction false} SweeperMoves(s: Sys, t: Tid, e: Event)
    requires t in s.procs && e != SweepEnd(t) && e.t == t
    requires s.procs[t].Sweeping? || s.procs[t].SweepAt? || s.procs[t].SweepClosing?
    ensures var u := Step(s, e);
            t in u.procs && (u.procs[t].Sweeping? || u.procs[t].SweepAt? || u.procs[t].SweepClosing?)
  {}

  lemma {:induction false} SweepsStep(s: Sys, t: Tid, found: set<nat>, e: Event)
    requires Inv(s) && Sweeps(s, t, found) && e != SweepEnd(t)
    ensures Sweeps(Step(s, e), t, found)
  {
    ClosedStays(s, e);
    if e.t == t { SweeperMoves(s, t, e); } else { OthersStay(s, e, t); }
    forall i | i in found
      ensures Taken(Step(s, e), i) || InHand(Step(s, e).procs[t], i)
    {
      if Taken(s, i) {
        TakenStays(s, e, i);
      } else if e.t == t {
        HandStays(s, t, e, i);
      }
    }
  }

  lemma {:induction false} SweepsRun(s: Sys, t: Tid, es: seq<Event>)
    requires Inv(s) && t !in s.procs && SweepEnd(t) !in es
    ensures Sweeps(Run(Step(s, CloseAll(t)), es), t, s.stores.Values)
    decreases |es|
  {
    var s1 := Step(s, CloseAll(t));
    if es != [] {
      var init, e := es[..|es| - 1], es[|es| - 1];
      assert e in es && forall x :: x in init ==> x in es;
      SweepsRun(s, t, init);
      InvStep(s, CloseAll(t));
      InvRun(s1, init);
      SweepsStep(Run(s1, init), t, s.stores.Values, e);
    }
  }

  /** However the goroutines interleave, when a shutdown has nothing left to do
      every database that was in the map when it began is closed or about to be,
      or never opened and never will; and nothing is handed out any more. */
  lemma ShutdownTakesAll(s: Sys, t: Tid, es: seq<Event>)
    requires Reachable(s) && t !in s.procs && SweepEnd(t) !in es
    requires var u := Run(Step(s, CloseAll(t)), es); t in u.procs && u.procs[t] == Sweeping({})
    ensures var u := Run(Step(s, CloseAll(t)), es); u.closed && forall i :: i in s.stores.Values ==> Taken(u, i)
  {
    InvReachable(s);
    SweepsRun(s, t, es);
  }

  // ---------------------------------------------------------------------- files

  /** Every open database has its file. */
  ghost predicate FilesOk(s: Sys) {
    forall i :: 0 <= i < |s.entries| && s.entries[i].db.Open? ==> s.entries[i].space in s.files
  }

  lemma {:induction false} FilesStep(s: Sys, e: Event)
    requires Inv(s) && FilesOk(s)
    ensures FilesOk(Step(s, e))
  {
    if e.RemoveFile? {
      RemoveKeepsFiles(s, e.t, e.ok);
    } else if e.Opened? {
    } else {
      FilesFrame(s, e);
    }
  }

  lemma {:induction false} RemoveKeepsFiles(s: Sys, t: Tid, ok: bool)
    requires Inv(s) && FilesOk(s)
    ensures FilesOk(Removed(s, t, ok))
  {
    if At(s, t) && s.procs[t].FileDue? {
      assert ProcOk(s, t) && EntryOk(s, s.procs[t].e);
      forall i | 0 <= i < |s.entries| && s.entries[i].db.Open?
        ensures s.entries[i].space != s.entries[s.procs[t].e].space
      {
        OpenElsewhere(s, s.procs[t].e, i);
      }
    }
  }

  /** Only an open opens a database. */
  lemma {:induction false} FilesFrame(s: Sys, e: Event)
    requires FilesOk(s) && !e.RemoveFile? && !e.Opened?
    ensures FilesOk(Step(s, e))
  {}

  lemma {:induction false} FilesRun(es: seq<Event>)
    ensures FilesOk(Run(START, es))
    decreases |es|
  {
    if es != [] {
      FilesRun(es[..|es| - 1]);
      InvRun(START, es[..|es| - 1]);
      FilesStep(Run(START, es[..|es| - 1]), es[|es| - 1]);
    }
  }

  /** In every interleaving an open database has its file; a delete whose removal
      succeeds takes exactly that space's file away, one whose removal fails
      leaves it, and no other step takes a file. */
  lemma FilesFollow(s: Sys, e: Event, space: SpaceId)
    requires Reachable(s)
    ensures forall i :: 0 <= i < |s.entries| && s.entries[i].db.Open? ==> s.entries[i].space in s.files
    ensures space in s.files && space !in Step(s, e).files <==>
            && space in s.files && e.RemoveFile? && e.ok && At(s, e.t) && s.procs[e.t].FileDue?
            && s.entries[s.procs[e.t].e].space == space
  {
    var es :| s == Run(START, es);
    FilesRun(es);
  }
}
