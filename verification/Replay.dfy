/** Replaying a tree over its materialized rows: rows and AddSeq watermark move
    in one transaction, so every change takes effect once whatever crashes. */
module Replay {
  import opened Basics

  /** A change of the tree in AddSeq order; None carries no payload for the
      rows (the root, another data type, a parked change). */
  datatype Entry<+C> = Entry(addSeq: nat, change: Option<C>)

  /** What one transaction commits. */
  datatype Disk<+R> = Disk(rows: R, mark: nat)

  predicate InOrder<C>(log: seq<Entry<C>>) {
    && (forall i :: 0 <= i < |log| ==> log[i].addSeq > 0)
    && (forall i, j :: 0 <= i < j < |log| ==> log[i].addSeq < log[j].addSeq)
  }

  /** Every change up to the watermark, applied once, in order. */
  function Fold<R, C>(f: (R, C) -> R, rows: R, log: seq<Entry<C>>, mark: nat): R
    decreases |log|
  {
    if log == [] then rows
    else
      var before := Fold(f, rows, log[..|log| - 1], mark);
      var e := log[|log| - 1];
      if e.addSeq <= mark && e.change.Some? then f(before, e.change.value) else before
  }

  /** One pass over the changes from i on, dying after `budget` commits. */
  function Pass<R, C>(f: (R, C) -> R, d: Disk<R>, log: seq<Entry<C>>, i: nat, budget: nat): Disk<R>
    requires i <= |log|
    decreases |log| - i
  {
    if i == |log| || budget == 0 then d
    else if log[i].addSeq <= d.mark || log[i].change.None? then Pass(f, d, log, i + 1, budget)
    else Pass(f, Disk(f(d.rows, log[i].change.value), log[i].addSeq), log, i + 1, budget - 1)
  }

  /** Watermarks with no change between them fold alike. */
  lemma {:induction false} FoldGap<R, C>(f: (R, C) -> R, rows: R, log: seq<Entry<C>>, m: nat, n: nat)
    requires m <= n && forall i :: 0 <= i < |log| && m < log[i].addSeq <= n ==> log[i].change.None?
    ensures Fold(f, rows, log, m) == Fold(f, rows, log, n)
    decreases |log|
  {
    if log != [] { FoldGap(f, rows, log[..|log| - 1], m, n); }
  }

  /** Moving the watermark over one change applies that change last. */
  lemma {:induction false} FoldNext<R, C>(f: (R, C) -> R, rows: R, log: seq<Entry<C>>, m: nat, i: nat)
    requires InOrder(log) && i < |log| && m < log[i].addSeq && log[i].change.Some?
    requires forall j :: 0 <= j < i && m < log[j].addSeq ==> log[j].change.None?
    ensures Fold(f, rows, log, log[i].addSeq) == f(Fold(f, rows, log, m), log[i].change.value)
    decreases |log|
  {
    var init := log[..|log| - 1];
    if i == |log| - 1 {
      FoldGap(f, rows, init, m, log[i].addSeq);
    } else {
      FoldNext(f, rows, init, m, i);
    }
  }

  /** A pass, however far it gets, leaves what one uninterrupted pass up to its
      watermark would leave. */
  lemma {:induction false} PassKeeps<R, C>(f: (R, C) -> R, r0: R, d: Disk<R>, log: seq<Entry<C>>, i: nat, budget: nat)
    requires InOrder(log) && i <= |log| && d.rows == Fold(f, r0, log, d.mark)
    requires forall j :: 0 <= j < i && d.mark < log[j].addSeq ==> log[j].change.None?
    ensures Pass(f, d, log, i, budget).rows == Fold(f, r0, log, Pass(f, d, log, i, budget).mark)
    ensures Pass(f, d, log, i, budget).mark == d.mark ||
            exists j :: 0 <= j < |log| && log[j].addSeq == Pass(f, d, log, i, budget).mark
    ensures budget >= |log| - i ==>
              forall j :: 0 <= j < |log| && log[j].change.Some? ==> log[j].addSeq <= Pass(f, d, log, i, budget).mark
    decreases |log| - i
  {
    if i == |log| || budget == 0 {
    } else if log[i].addSeq <= d.mark || log[i].change.None? {
      PassKeeps(f, r0, d, log, i + 1, budget);
    } else {
      FoldNext(f, r0, log, d.mark, i);
      PassKeeps(f, r0, Disk(f(d.rows, log[i].change.value), log[i].addSeq), log, i + 1, budget - 1);
    }
  }

  // ---------------------------------------------------------------- lifetimes

  /** The tree grows, or a load replays it and dies after so many commits. */
  datatype Life<+C> = Grow(change: Option<C>) | Load(budget: nat)

  datatype World<+R, +C> = World(disk: Disk<R>, log: seq<Entry<C>>)

  function LastSeq<C>(log: seq<Entry<C>>): nat {
    if log == [] then 0 else log[|log| - 1].addSeq
  }

  function Live<R, C>(f: (R, C) -> R, w: World<R, C>, life: Life<C>): World<R, C> {
    match life
    case Grow(c) => w.(log := w.log + [Entry(LastSeq(w.log) + 1, c)])
    case Load(budget) => w.(disk := Pass(f, w.disk, w.log, 0, budget))
  }

  function LiveAll<R, C>(f: (R, C) -> R, w: World<R, C>, lives: seq<Life<C>>): World<R, C>
    decreases |lives|
  {
    if lives == [] then w else Live(f, LiveAll(f, w, lives[..|lives| - 1]), lives[|lives| - 1])
  }

  ghost predicate Consistent<R, C>(f: (R, C) -> R, r0: R, w: World<R, C>) {
    InOrder(w.log) && w.disk.mark <= LastSeq(w.log) && w.disk.rows == Fold(f, r0, w.log, w.disk.mark)
  }

  lemma {:induction false} GrowKeeps<R, C>(f: (R, C) -> R, r0: R, w: World<R, C>, c: Option<C>)
    requires Consistent(f, r0, w)
    ensures Consistent(f, r0, Live(f, w, Grow(c)))
  {
    var log := w.log + [Entry(LastSeq(w.log) + 1, c)];
    assert log[..|log| - 1] == w.log;
    assert InOrder(log);
  }

  lemma {:induction false} LiveKeeps<R, C>(f: (R, C) -> R, r0: R, w: World<R, C>, life: Life<C>)
    requires Consistent(f, r0, w)
    ensures Consistent(f, r0, Live(f, w, life))
  {
    match life {
      case Grow(c) => GrowKeeps(f, r0, w, c);
      case Load(budget) => PassKeeps(f, r0, w.disk, w.log, 0, budget);
    }
  }

  lemma {:induction false} LivesKeep<R, C>(f: (R, C) -> R, r0: R, w: World<R, C>, lives: seq<Life<C>>)
    requires Consistent(f, r0, w)
    ensures Consistent(f, r0, LiveAll(f, w, lives))
    decreases |lives|
  {
    if lives != [] {
      LivesKeep(f, r0, w, lives[..|lives| - 1]);
      LiveKeeps(f, r0, LiveAll(f, w, lives[..|lives| - 1]), lives[|lives| - 1]);
    }
  }

  /** After any loads that crashed anywhere, one completed load leaves the rows
      one uninterrupted pass over the whole tree would: each change has taken
      effect exactly once, idempotent or not. */
  lemma ExactlyOnce<R, C>(f: (R, C) -> R, r0: R, lives: seq<Life<C>>, budget: nat)
    requires budget >= |LiveAll(f, World(Disk(r0, 0), []), lives).log|
    ensures var w := LiveAll(f, World(Disk(r0, 0), []), lives);
            Live(f, w, Load(budget)).disk.rows == Fold(f, r0, w.log, LastSeq(w.log))
  {
    var w0 := World(Disk(r0, 0), []);
    var w := LiveAll(f, w0, lives);
    LivesKeep(f, r0, w0, lives);
    PassKeeps(f, r0, w.disk, w.log, 0, budget);
    LiveKeeps(f, r0, w, Load(budget));
    FoldGap(f, r0, w.log, Live(f, w, Load(budget)).disk.mark, LastSeq(w.log));
  }

  /** The rows as the list of the changes that took effect. */
  function Listed<C>(rows: seq<C>, c: C): seq<C> {
    rows + [c]
  }

  /** ix are the places of the payloads in the log, in order. */
  predicate Places<C(==)>(log: seq<Entry<C>>, rows: seq<C>, ix: seq<nat>) {
    && |ix| == |rows|
    && (forall k :: 0 <= k < |ix| ==> ix[k] < |log| && log[ix[k]].change == Some(rows[k]))
    && (forall j, k :: 0 <= j < k < |ix| ==> ix[j] < ix[k])
    && (forall i :: 0 <= i < |log| && log[i].change.Some? ==> i in ix)
  }

  lemma {:induction false} FoldLists<C>(log: seq<Entry<C>>, mark: nat) returns (ix: seq<nat>)
    requires forall i :: 0 <= i < |log| ==> log[i].addSeq <= mark
    ensures Places(log, Fold(Listed, [], log, mark), ix)
    decreases |log|
  {
    ix := [];
    if log != [] {
      var n := |log| - 1;
      ix := FoldLists(log[..n], mark);
      if log[n].change.Some? { ix := ListsOne(log, Fold(Listed, [], log[..n], mark), ix, n); }
    }
  }

  lemma ListsOne<C>(log: seq<Entry<C>>, rows: seq<C>, was: seq<nat>, n: nat) returns (ix: seq<nat>)
    requires n < |log| && n + 1 == |log| && log[n].change.Some? && Places(log[..n], rows, was)
    ensures Places(log, rows + [log[n].change.value], ix)
  {
    ix := was + [n];
    forall i | 0 <= i < |log| && log[i].change.Some?
      ensures i in ix
    {
      if i < n { assert log[..n][i].change.Some?; }
    }
  }

  /** So after any loads that crashed anywhere, a completed one has every payload
      of the tree take effect once, in the order of the log, and nothing else. */
  lemma EachChangeOnce<C>(lives: seq<Life<C>>, budget: nat) returns (ix: seq<nat>)
    requires budget >= |LiveAll(Listed, World(Disk([], 0), []), lives).log|
    ensures var w := LiveAll(Listed, World(Disk([], 0), []), lives);
            Places(w.log, Live(Listed, w, Load(budget)).disk.rows, ix)
  {
    var w := LiveAll(Listed, World(Disk([], 0), []), lives);
    ExactlyOnce(Listed, [], lives, budget);
    LivesKeep(Listed, [], World(Disk([], 0), []), lives);
    ix := FoldLists(w.log, LastSeq(w.log));
  }

  // ---------------------------------------------------------- the code's shape

  /** One object: rows and watermark on disk, and the controller's mirror. */
  class Replica<R, C(==)> {
    var disk: Disk<R>
    var maxAddSeq: nat

    constructor (disk: Disk<R>)
      ensures this.disk == disk && maxAddSeq == disk.mark
    {
      this.disk, maxAddSeq := disk, disk.mark;
    }

    /** `replayLocked`, dying after `budget` commits: inside a transaction that
        is then rolled back, or, if `late`, after a commit whose mirror has not
        moved yet. */
    method ReplayLocked(f: (R, C) -> R, log: seq<Entry<C>>, budget: nat, late: bool) returns (done: bool)
      requires InOrder(log) && maxAddSeq == disk.mark
      modifies this
      ensures disk == Pass(f, old(disk), log, 0, budget)
      ensures budget >= |log| ==> done
      ensures done ==> maxAddSeq == disk.mark
    {
      var from, left := maxAddSeq, budget;
      ghost var start := disk;
      for i := 0 to |log|
        invariant 0 <= left <= budget <= left + i
        invariant maxAddSeq == disk.mark >= from
        invariant disk.mark == from || (i > 0 && disk.mark <= log[i - 1].addSeq)
        invariant Pass(f, disk, log, i, left) == Pass(f, start, log, 0, budget)
      {
        var e := log[i];
        if e.addSeq > from && e.change.Some? {
          if left == 0 { return false; }
          disk := Disk(f(disk.rows, e.change.value), Max(disk.mark, e.addSeq));
          left := left - 1;
          if left == 0 && late && i + 1 < |log| { return false; }
          maxAddSeq := disk.mark;
        }
      }
      done := true;
    }
  }
}
