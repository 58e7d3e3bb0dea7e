/** The adaptive per-peer request budget, under any interleaving of requests,
    refusals, cancellations and wake-ups. */
module PeerLimit {
  import opened Basics

  const MAX_WIDTH := 8
  const GROW := 4
  const RESERVE := 1

  type Tid = nat

  /** `peerLimit`. `changed` counts how often the wake channel was replaced. */
  datatype Limit = Limit(width: int, inUse: int, streak: int, epoch: nat, changed: nat)

  /** A goroutine blocked in `acquire` on the channel it read. */
  datatype Waiter = Waiter(first: bool, channel: nat)

  /** `slots` holds each outstanding slot's epoch; `narrowed` the epochs of the
      slots whose refusal narrowed the budget, in order. */
  datatype Sys = Sys(limit: Limit, slots: map<Tid, nat>, waiters: map<Tid, Waiter>, narrowed: seq<nat>)

  const START := Sys(Limit(MAX_WIDTH, 0, 0, 0, 0), map[], map[], [])

  datatype Event = Acquire(t: Tid, first: bool) | Cancel(t: Tid) | Release(t: Tid, tooMany: bool)

  /** How many slots a request of this kind may see in use. */
  function Room(l: Limit, first: bool): int {
    if first then l.width + RESERVE else l.width
  }

  function AfterRelease(l: Limit, slot: nat, tooMany: bool): Limit {
    var m := l.(inUse := l.inUse - 1, changed := l.changed + 1);
    if tooMany && slot == l.epoch then m.(width := Max(1, l.width / 2), streak := 0, epoch := l.epoch + 1)
    else if tooMany then m
    else if l.width < MAX_WIDTH && l.streak + 1 >= l.width * GROW then m.(width := l.width + 1, streak := 0)
    else m.(streak := l.streak + 1)
  }

  function Step(s: Sys, e: Event): Sys {
    match e
    case Acquire(t, first) =>
      if t in s.slots then s
      else if t in s.waiters && (s.waiters[t].channel == s.limit.changed || s.waiters[t].first != first) then s
      else if s.limit.inUse < Room(s.limit, first) then
        s.(limit := s.limit.(inUse := s.limit.inUse + 1), slots := s.slots[t := s.limit.epoch],
           waiters := s.waiters - {t})
      else s.(waiters := s.waiters[t := Waiter(first, s.limit.changed)])
    case Cancel(t) => s.(waiters := s.waiters - {t})
    case Release(t, tooMany) =>
      if t !in s.slots then s
      else
        s.(limit := AfterRelease(s.limit, s.slots[t], tooMany), slots := s.slots - {t},
           narrowed := if tooMany && s.slots[t] == s.limit.epoch then s.narrowed + [s.slots[t]] else s.narrowed)
  }

  function Run(es: seq<Event>): Sys
    decreases |es|
  {
    if es == [] then START else Step(Run(es[..|es| - 1]), es[|es| - 1])
  }

  predicate Budget(l: Limit) {
    && 1 <= l.width <= MAX_WIDTH
    && 0 <= l.inUse <= MAX_WIDTH + RESERVE
    && 0 <= l.streak && (l.width < MAX_WIDTH ==> l.streak < l.width * GROW)
  }

  /** A waiter whose channel is still open has no slot it could take. */
  ghost predicate NoLostWakeUp(s: Sys) {
    forall t :: t in s.waiters && s.waiters[t].channel == s.limit.changed ==>
                  s.limit.inUse >= Room(s.limit, s.waiters[t].first)
  }

  /** Each epoch's budget is narrowed by at most one slot. */
  ghost predicate OneNarrowingPerEpoch(s: Sys) {
    && (forall i, j :: 0 <= i < j < |s.narrowed| ==> s.narrowed[i] < s.narrowed[j])
    && (forall i :: 0 <= i < |s.narrowed| ==> s.narrowed[i] < s.limit.epoch)
  }

  ghost predicate Inv(s: Sys) {
    && Budget(s.limit) && NoLostWakeUp(s) && OneNarrowingPerEpoch(s)
    && s.limit.inUse == |s.slots|
    && (forall t :: t in s.slots ==> s.slots[t] <= s.limit.epoch)
    && (forall t :: t in s.waiters ==> s.waiters[t].channel <= s.limit.changed)
  }

  lemma SlotsTake(m: map<Tid, nat>, t: Tid, epoch: nat)
    requires t !in m
    ensures |m[t := epoch]| == |m| + 1
  {
    assert m[t := epoch].Keys == m.Keys + {t};
  }

  lemma SlotsDrop(m: map<Tid, nat>, t: Tid)
    requires t in m
    ensures |m - {t}| == |m| - 1
  {
    assert (m - {t}).Keys == m.Keys - {t};
  }

  lemma {:induction false} AcquireKeeps(s: Sys, t: Tid, first: bool)
    requires Inv(s)
    ensures Inv(Step(s, Acquire(t, first)))
  {
    if t !in s.slots { SlotsTake(s.slots, t, s.limit.epoch); }
  }

  lemma {:induction false} BudgetKept(l: Limit, slot: nat, tooMany: bool)
    requires Budget(l) && l.inUse > 0
    ensures Budget(AfterRelease(l, slot, tooMany))
    ensures AfterRelease(l, slot, tooMany).changed == l.changed + 1
    ensures AfterRelease(l, slot, tooMany).inUse == l.inUse - 1
    ensures AfterRelease(l, slot, tooMany).epoch == if tooMany && slot == l.epoch then l.epoch + 1 else l.epoch
  {}

  lemma {:induction false} ReleaseKeeps(s: Sys, t: Tid, tooMany: bool)
    requires Inv(s)
    ensures Inv(Step(s, Release(t, tooMany)))
  {
    var u := Step(s, Release(t, tooMany));
    if t in s.slots {
      SlotsDrop(s.slots, t);
      BudgetKept(s.limit, s.slots[t], tooMany);
      assert u.waiters == s.waiters && u.slots == s.slots - {t};
    }
  }

  lemma {:induction false} InvStep(s: Sys, e: Event)
    requires Inv(s)
    ensures Inv(Step(s, e))
  {
    match e {
      case Acquire(t, first) => AcquireKeeps(s, t, first);
      case Cancel(_) =>
      case Release(t, tooMany) => ReleaseKeeps(s, t, tooMany);
    }
  }

  /** What every interleaving keeps: a width of 1 to 8, the slots in use counted
      exactly and at most 9 of them, no missed growth, no lost wake-up, and one
      narrowing per burst of refusals. */
  lemma {:induction false} EveryInterleaving(es: seq<Event>)
    ensures Inv(Run(es))
    ensures 1 <= Run(es).limit.width <= 8 && Run(es).limit.inUse == |Run(es).slots| <= 9
    decreases |es|
  {
    if es != [] {
      EveryInterleaving(es[..|es| - 1]);
      InvStep(Run(es[..|es| - 1]), es[|es| - 1]);
    }
  }

  /** Some requests answered in a row. */
  function Answered(l: Limit, slots: seq<nat>): Limit
    decreases |slots|
  {
    if slots == [] then l else AfterRelease(Answered(l, slots[..|slots| - 1]), slots[|slots| - 1], false)
  }

  /** A narrowed budget widens by one exactly when as many requests are answered
      in a row as complete the streak, four for each slot of its width; at full
      width it stays. */
  lemma {:induction false} AnswersWiden(l: Limit, slots: seq<nat>)
    requires Budget(l) && slots != []
    requires l.width < MAX_WIDTH ==> l.streak + |slots| <= 4 * l.width
    ensures var m, full := Answered(l, slots), l.width < MAX_WIDTH && l.streak + |slots| == 4 * l.width;
            && m.width == (if full then l.width + 1 else l.width)
            && m.streak == (if full then 0 else l.streak + |slots|)
            && m.epoch == l.epoch && m.inUse == l.inUse - |slots|
    decreases |slots|
  {
    var init := slots[..|slots| - 1];
    if init != [] { AnswersWiden(l, init); } else { assert Answered(l, init) == l; }
  }

  /** A refusal halves the budget and ends the streak when it comes from a slot
      of the current epoch; a late one only gives its slot back. */
  lemma RefusalNarrows(l: Limit, slot: nat)
    ensures var m := AfterRelease(l, slot, true);
            && m.inUse == l.inUse - 1
            && (slot == l.epoch ==>
                  && m.epoch == l.epoch + 1 && m.streak == 0
                  && (l.width >= 2 ==> 2 * m.width <= l.width < 2 * m.width + 2) && (l.width < 2 ==> m.width == 1))
            && (slot != l.epoch ==> m.width == l.width && m.streak == l.streak && m.epoch == l.epoch)
  {}

  /** A request that asks takes a slot exactly when fewer are in use than the
      width, a first request also when one more is, and waits on the channel of
      the moment otherwise; cancelling ends the wait and nothing else. */
  lemma AcquireMeans(s: Sys, t: Tid, first: bool)
    requires t !in s.slots && t !in s.waiters
    ensures var u := Step(s, Acquire(t, first));
            && (t in u.slots <==> s.limit.inUse < s.limit.width || (first && s.limit.inUse <= s.limit.width))
            && (t in u.slots ==> u.slots == s.slots[t := s.limit.epoch] && u.limit.inUse == s.limit.inUse + 1)
            && (t !in u.slots ==>
                  && u.waiters == s.waiters[t := Waiter(first, s.limit.changed)] && u.limit == s.limit
                  && Step(u, Cancel(t)).waiters.Keys == s.waiters.Keys && Step(u, Cancel(t)).limit == s.limit)
  {}

  /** Whenever a slot comes free every waiter may ask again, and gets it if there
      is room. */
  lemma WokenTakes(s: Sys, t: Tid, k: Tid, tooMany: bool)
    requires Inv(s) && k in s.slots && t in s.waiters && t !in s.slots
    ensures var u := Step(s, Release(k, tooMany));
            var w := Step(u, Acquire(t, s.waiters[t].first));
            t in w.slots <==> u.limit.inUse < u.limit.width + if s.waiters[t].first then 1 else 0
  {}

  /** A burst of requests in flight together that is refused together halves
      the budget once, whatever the order of the refusals. */
  lemma {:induction false} BurstHalvesOnce(s: Sys, refused: seq<Tid>)
    requires Inv(s) && refused != []
    requires forall i :: 0 <= i < |refused| ==> refused[i] in s.slots && s.slots[refused[i]] == s.limit.epoch
    requires forall i, j :: 0 <= i < j < |refused| ==> refused[i] != refused[j]
    ensures var u := Refuse(s, refused);
            && u.limit.width == Max(1, s.limit.width / 2) && u.limit.epoch == s.limit.epoch + 1
            && u.limit.inUse == s.limit.inUse - |refused|
            && u.slots == s.slots - (set t | t in refused)
    decreases |refused|
  {
    var init, last := refused[..|refused| - 1], refused[|refused| - 1];
    assert (set t | t in refused) == (set t | t in init) + {last};
    if init != [] { BurstHalvesOnce(s, init); }
  }

  function Refuse(s: Sys, refused: seq<Tid>): Sys
    decreases |refused|
  {
    if refused == [] then s else Step(Refuse(s, refused[..|refused| - 1]), Release(refused[|refused| - 1], true))
  }

  // ---------------------------------------------------------- the code's shape

  class Budgeter {
    var width: int
    var inUse: int
    var streak: int
    var epoch: nat
    var changed: nat

    ghost function Contents(): Limit
      reads this
    {
      Limit(width, inUse, streak, epoch, changed)
    }

    constructor ()
      ensures Contents() == START.limit
    {
      width, inUse, streak, epoch, changed := MAX_WIDTH, 0, 0, 0, 0;
    }

    /** One turn of the loop in `acquire`: a slot, or the channel to wait on. */
    method AcquireTurn(first: bool) returns (slot: Option<nat>)
      modifies this`inUse
      ensures slot.Some? <==> old(inUse) < Room(old(Contents()), first)
      ensures slot.Some? ==> slot.value == epoch && inUse == old(inUse) + 1
      ensures slot.None? ==> inUse == old(inUse)
    {
      var room := width;
      if first { room := room + RESERVE; }
      if inUse < room {
        inUse := inUse + 1;
        return Some(epoch);
      }
      return None;
    }

    /** `release`. */
    method Release(slot: nat, tooMany: bool)
      requires Budget(Contents()) && inUse > 0
      modifies this
      ensures Contents() == AfterRelease(old(Contents()), slot, tooMany)
      ensures Budget(Contents())
    {
      inUse := inUse - 1;
      if tooMany && slot == epoch {
        width := if width / 2 < 1 then 1 else width / 2;
        streak := 0;
        epoch := epoch + 1;
      } else if tooMany {
      } else {
        streak := streak + 1;
        if width < MAX_WIDTH && streak >= width * GROW {
          width := width + 1;
          streak := 0;
        }
      }
      changed := changed + 1;
    }
  }
}
