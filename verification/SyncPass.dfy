/** One pass of a space's sync job, with a live context and nothing added
    meanwhile: first trees, fetches, definitions, other trees, pings, retries. */
module SyncPass {
  import opened Basics

  type Id = string

  datatype Kind = Missing | Changed | Retry

  /** `syncItem`. */
  datatype Item = Item(id: Id, kind: Kind, fetched: bool, local: bool, changeType: string)

  /** How a fetch ends: in storage, with the root's type; or gone or parked. */
  datatype FetchResult = Fetched(changeType: string, local: bool) | NotFetched

  ghost predicate DistinctIds(q: seq<Item>) {
    forall i, j :: 0 <= i < j < |q| ==> q[i].id != q[j].id
  }

  ghost predicate Has(q: seq<Item>, id: Id) {
    exists it :: it in q && it.id == id
  }

  function Ids(q: seq<Item>): seq<Id> {
    if q == [] then [] else Ids(q[..|q| - 1]) + [q[|q| - 1].id]
  }

  function Without(q: seq<Item>, id: Id): seq<Item> {
    if q == [] then []
    else if q[|q| - 1].id == id then Without(q[..|q| - 1], id)
    else Without(q[..|q| - 1], id) + [q[|q| - 1]]
  }

  /** The queue without the items of some ids. */
  function WithoutAll(q: seq<Item>, ids: seq<Id>): seq<Item> {
    if q == [] then []
    else if q[|q| - 1].id in ids then WithoutAll(q[..|q| - 1], ids)
    else WithoutAll(q[..|q| - 1], ids) + [q[|q| - 1]]
  }

  /** An item once its tree is fetched. */
  function Marked(it: Item, r: FetchResult): Item
    requires r.Fetched?
  {
    it.(fetched := true, changeType := r.changeType, local := r.local)
  }

  /** The queue after some trees were fetched: each is marked in its place, or
      gone. */
  function AfterFetch(q: seq<Item>, ids: seq<Id>, fetches: Id -> FetchResult): seq<Item> {
    if q == [] then []
    else
      var before, it := AfterFetch(q[..|q| - 1], ids, fetches), q[|q| - 1];
      if it.id !in ids then before + [it]
      else if fetches(it.id).Fetched? then before + [Marked(it, fetches(it.id))]
      else before
  }

  /** The ids whose fetch fails, in order. */
  function Unfetched(ids: seq<Id>, fetches: Id -> FetchResult): seq<Id> {
    if ids == [] then []
    else
      var before, id := Unfetched(ids[..|ids| - 1], fetches), ids[|ids| - 1];
      if fetches(id).Fetched? then before else before + [id]
  }

  /** The accepted ids, in queue order. */
  function Picked(q: seq<Item>, pick: Item -> bool): seq<Id> {
    if q == [] then []
    else if pick(q[|q| - 1]) then Picked(q[..|q| - 1], pick) + [q[|q| - 1].id]
    else Picked(q[..|q| - 1], pick)
  }

  /** The queued ids of a list, in its order, each once. */
  ghost function Named(q: seq<Item>, first: seq<Id>): seq<Id> {
    if first == [] then []
    else
      var before := Named(q, first[..|first| - 1]);
      var id := first[|first| - 1];
      if Has(q, id) && id !in before then before + [id] else before
  }

  /** Every item is still queued, or has finished, as often as before. */
  ghost predicate Conserved(q: seq<Item>, done: seq<Id>, now: seq<Item>, doneNow: seq<Id>) {
    multiset(Ids(now)) + multiset(doneNow) == multiset(Ids(q)) + multiset(done)
  }

  lemma ConservedThrough(q: seq<Item>, done: seq<Id>, mid: seq<Item>, doneMid: seq<Id>,
                         now: seq<Item>, doneNow: seq<Id>)
    requires Conserved(q, done, mid, doneMid) && Conserved(mid, doneMid, now, doneNow)
    ensures Conserved(q, done, now, doneNow)
  {}

  lemma AllFinished(q: seq<Item>, done: seq<Id>, doneNow: seq<Id>)
    requires Conserved(q, done, [], doneNow)
    ensures multiset(doneNow) == multiset(done) + multiset(Ids(q))
  {
    assert multiset(Ids([])) + multiset(doneNow) == multiset(doneNow) by { assert Ids([]) == []; }
  }

  lemma {:induction false} WithoutMembers(q: seq<Item>, id: Id)
    ensures forall it :: it in Without(q, id) <==> it in q && it.id != id
    decreases |q|
  {
    if q != [] {
      WithoutMembers(q[..|q| - 1], id);
      assert forall it :: it in q <==> it in q[..|q| - 1] || it == q[|q| - 1];
    }
  }

  lemma {:induction false} WithoutKeepsDistinct(q: seq<Item>, id: Id)
    requires DistinctIds(q)
    ensures DistinctIds(Without(q, id))
    decreases |q|
  {
    if q != [] {
      var init, last := q[..|q| - 1], q[|q| - 1];
      WithoutKeepsDistinct(init, id);
      WithoutMembers(init, id);
      assert q == init + [last];
      WithoutDistinct(Without(init, id), init, last);
    }
  }

  lemma {:induction false} WithoutAbsent(q: seq<Item>, id: Id)
    requires !Has(q, id)
    ensures Without(q, id) == q
    decreases |q|
  {
    if q != [] {
      assert forall it :: it in q <==> it in q[..|q| - 1] || it == q[|q| - 1];
      WithoutAbsent(q[..|q| - 1], id);
    }
  }

  lemma {:induction false} WithoutIds(q: seq<Item>, id: Id)
    requires DistinctIds(q) && Has(q, id)
    ensures multiset(Ids(Without(q, id))) + multiset{id} == multiset(Ids(q))
    decreases |q|
  {
    var init, last := q[..|q| - 1], q[|q| - 1];
    assert forall it :: it in q <==> it in init || it == last;
    if last.id == id {
      assert !Has(init, id);
      WithoutAbsent(init, id);
    } else {
      assert Has(init, id);
      WithoutIds(init, id);
      var w := Without(init, id);
      assert (w + [last])[..|w|] == w;
    }
  }

  lemma {:induction false} WithoutAllStep(q: seq<Item>, ids: seq<Id>, id: Id)
    ensures WithoutAll(q, ids + [id]) == Without(WithoutAll(q, ids), id)
    decreases |q|
  {
    if q != [] {
      var init, last := q[..|q| - 1], q[|q| - 1];
      WithoutAllStep(init, ids, id);
      var w := WithoutAll(init, ids);
      assert (w + [last])[..|w|] == w;
      assert last.id in ids + [id] <==> last.id in ids || last.id == id;
    }
  }

  lemma {:induction false} WithoutNone(q: seq<Item>)
    ensures WithoutAll(q, []) == q
    decreases |q|
  {
    if q != [] { WithoutNone(q[..|q| - 1]); }
  }

  lemma {:induction false} FetchNone(q: seq<Item>, fetches: Id -> FetchResult)
    ensures AfterFetch(q, [], fetches) == q
    decreases |q|
  {
    if q != [] { FetchNone(q[..|q| - 1], fetches); }
  }

  lemma {:induction false} AfterFetchLast(q: seq<Item>, it: Item, ids: seq<Id>, fetches: Id -> FetchResult)
    ensures AfterFetch(q + [it], ids, fetches) ==
            AfterFetch(q, ids, fetches) +
            if it.id !in ids then [it] else if fetches(it.id).Fetched? then [Marked(it, fetches(it.id))] else []
  {
    assert (q + [it])[..|q|] == q;
  }

  lemma {:induction false} AfterFetchStep(q: seq<Item>, ids: seq<Id>, id: Id, fetches: Id -> FetchResult)
    requires id !in ids
    ensures AfterFetch(q, ids + [id], fetches) == AfterFetch(AfterFetch(q, ids, fetches), [id], fetches)
    decreases |q|
  {
    if q != [] {
      var init, last := q[..|q| - 1], q[|q| - 1];
      var w := AfterFetch(init, ids, fetches);
      AfterFetchStep(init, ids, id, fetches);
      assert last.id in ids + [id] <==> last.id in ids || last.id == id;
      if last.id !in ids {
        AfterFetchLast(w, last, [id], fetches);
      } else if fetches(last.id).Fetched? {
        AfterFetchLast(w, Marked(last, fetches(last.id)), [id], fetches);
      }
    }
  }

  lemma {:induction false} AfterFetchMembers(q: seq<Item>, ids: seq<Id>, fetches: Id -> FetchResult, it: Item)
    ensures it in AfterFetch(q, ids, fetches) <==>
            exists was :: was in q &&
              if was.id in ids then fetches(was.id).Fetched? && it == Marked(was, fetches(was.id)) else it == was
    decreases |q|
  {
    if q != [] {
      var init, last := q[..|q| - 1], q[|q| - 1];
      assert forall was :: was in q <==> was in init || was == last;
      AfterFetchMembers(init, ids, fetches, it);
    }
  }

  /** The queue once some of its trees were fetched: a fetched tree stays queued
      with its root's type, one that is not leaves, the others are as before. */
  ghost predicate FetchDone(q: seq<Item>, now: seq<Item>, ids: seq<Id>, fetches: Id -> FetchResult) {
    && (forall it :: it in now ==>
          if it.id in ids then it.fetched && fetches(it.id) == Fetched(it.changeType, it.local) else it in q)
    && (forall it :: it in q ==> (Has(now, it.id) <==> it.id !in ids || fetches(it.id).Fetched?))
  }

  lemma FetchMeans(q: seq<Item>, ids: seq<Id>, fetches: Id -> FetchResult)
    requires DistinctIds(q)
    ensures FetchDone(q, AfterFetch(q, ids, fetches), ids, fetches)
  {
    forall it: Item
      ensures it in AfterFetch(q, ids, fetches) <==>
              exists was :: was in q &&
                if was.id in ids then fetches(was.id).Fetched? && it == Marked(was, fetches(was.id)) else it == was
    {
      AfterFetchMembers(q, ids, fetches, it);
    }
    forall it | it in q && (it.id !in ids || fetches(it.id).Fetched?)
      ensures Has(AfterFetch(q, ids, fetches), it.id)
    {
      var now := if it.id in ids then Marked(it, fetches(it.id)) else it;
      assert now in AfterFetch(q, ids, fetches);
    }
  }

  lemma {:induction false} WithoutAllMembers(q: seq<Item>, ids: seq<Id>)
    ensures forall it :: it in WithoutAll(q, ids) <==> it in q && it.id !in ids
    decreases |q|
  {
    if q != [] {
      WithoutAllMembers(q[..|q| - 1], ids);
      assert forall it :: it in q <==> it in q[..|q| - 1] || it == q[|q| - 1];
    }
  }

  /** Accepted ids come in queue order. */
  lemma {:induction false} PickedInOrder(q: seq<Item>, pick: Item -> bool, i: nat, j: nat) returns (a: nat, b: nat)
    requires i < j < |q| && pick(q[i]) && pick(q[j])
    ensures a < b < |Picked(q, pick)| && Picked(q, pick)[a] == q[i].id && Picked(q, pick)[b] == q[j].id
    decreases |q|
  {
    var init := q[..|q| - 1];
    if j < |q| - 1 {
      a, b := PickedInOrder(init, pick, i, j);
    } else {
      a := PickedAt(init, pick, i);
      b := |Picked(init, pick)|;
    }
  }

  lemma {:induction false} PickedAt(q: seq<Item>, pick: Item -> bool, i: nat) returns (a: nat)
    requires i < |q| && pick(q[i])
    ensures a < |Picked(q, pick)| && Picked(q, pick)[a] == q[i].id
    decreases |q|
  {
    if i < |q| - 1 { a := PickedAt(q[..|q| - 1], pick, i); } else { a := |Picked(q[..|q| - 1], pick)|; }
  }

  /** The ids a list names first come first. */
  lemma {:induction false} NamedInOrder(q: seq<Item>, first: seq<Id>, k: nat)
    requires k <= |first|
    ensures Named(q, first[..k]) <= Named(q, first)
    decreases |first|
  {
    if k < |first| {
      assert first[..|first| - 1][..k] == first[..k];
      NamedInOrder(q, first[..|first| - 1], k);
    } else {
      assert first[..k] == first;
    }
  }

  lemma {:induction false} GoneIsWithout(q: seq<Item>, id: Id, fetches: Id -> FetchResult)
    requires !fetches(id).Fetched?
    ensures AfterFetch(q, [id], fetches) == Without(q, id)
    decreases |q|
  {
    if q != [] { GoneIsWithout(q[..|q| - 1], id, fetches); }
  }

  lemma {:induction false} MarkedInPlace(q: seq<Item>, i: nat, fetches: Id -> FetchResult)
    requires DistinctIds(q) && i < |q| && fetches(q[i].id).Fetched?
    ensures AfterFetch(q, [q[i].id], fetches) == q[i := Marked(q[i], fetches(q[i].id))]
    decreases |q|
  {
    var n, id := |q| - 1, q[i].id;
    var init := q[..n];
    if i < n {
      MarkedInPlace(init, i, fetches);
      assert q[n].id != id;
      assert q[i := Marked(q[i], fetches(id))] == init[i := Marked(q[i], fetches(id))] + [q[n]];
    } else {
      OthersUnmarked(init, id, fetches);
      assert q[i := Marked(q[i], fetches(id))] == init + [Marked(q[i], fetches(id))];
    }
  }

  lemma {:induction false} OthersUnmarked(q: seq<Item>, id: Id, fetches: Id -> FetchResult)
    requires forall k :: 0 <= k < |q| ==> q[k].id != id
    ensures AfterFetch(q, [id], fetches) == q
    decreases |q|
  {
    if q != [] {
      assert q[|q| - 1].id != id;
      OthersUnmarked(q[..|q| - 1], id, fetches);
    }
  }

  lemma {:induction false} PickedSame(q: seq<Item>, a: Item -> bool, b: Item -> bool)
    requires forall it :: it in q ==> (a(it) <==> b(it))
    ensures Picked(q, a) == Picked(q, b)
    decreases |q|
  {
    if q != [] {
      assert q[|q| - 1] in q && forall it :: it in q[..|q| - 1] ==> it in q;
      PickedSame(q[..|q| - 1], a, b);
    }
  }

  lemma {:induction false} PickedWithout(q: seq<Item>, ids: seq<Id>, a: Item -> bool, b: Item -> bool)
    requires forall it :: it in q ==> (b(it) <==> it.id !in ids && a(it))
    ensures Picked(WithoutAll(q, ids), a) == Picked(q, b)
    decreases |q|
  {
    if q != [] {
      var init, last := q[..|q| - 1], q[|q| - 1];
      assert last in q && forall it :: it in init ==> it in q;
      PickedWithout(init, ids, a, b);
      var w := WithoutAll(init, ids);
      assert (w + [last])[..|w|] == w;
    }
  }

  lemma {:induction false} PickedAfterFetch(q: seq<Item>, ids: seq<Id>, fetches: Id -> FetchResult,
                                            a: Item -> bool, b: Item -> bool)
    requires forall it :: it in q && it.id !in ids ==> (b(it) <==> a(it))
    requires forall it :: it in q && it.id in ids && fetches(it.id).Fetched? ==>
               (b(it) <==> a(Marked(it, fetches(it.id))))
    requires forall it :: it in q && it.id in ids && !fetches(it.id).Fetched? ==> !b(it)
    ensures Picked(AfterFetch(q, ids, fetches), a) == Picked(q, b)
    decreases |q|
  {
    if q != [] {
      var init, last := q[..|q| - 1], q[|q| - 1];
      assert last in q && forall it :: it in init ==> it in q;
      PickedAfterFetch(init, ids, fetches, a, b);
      var w, now := AfterFetch(init, ids, fetches), AfterFetch(q, ids, fetches);
      assert now != w ==> now[..|w|] == w && |now| == |w| + 1;
    }
  }

  lemma {:induction false} UnfetchedPicked(q: seq<Item>, fetches: Id -> FetchResult, a: Item -> bool, b: Item -> bool)
    requires forall it :: it in q ==> (b(it) <==> a(it) && !fetches(it.id).Fetched?)
    ensures Unfetched(Picked(q, a), fetches) == Picked(q, b)
    decreases |q|
  {
    if q != [] {
      var init, last := q[..|q| - 1], q[|q| - 1];
      assert last in q && forall it :: it in init ==> it in q;
      UnfetchedPicked(init, fetches, a, b);
      var w := Picked(init, a);
      assert (w + [last.id])[..|w|] == w;
    }
  }

  lemma WithoutDistinct(w: seq<Item>, init: seq<Item>, last: Item)
    requires DistinctIds(w) && DistinctIds(init + [last]) && forall it :: it in w ==> it in init
    ensures DistinctIds(w + [last])
  {
    forall i | 0 <= i < |w|
      ensures w[i].id != last.id
    {
      assert w[i] in init;
      var k :| 0 <= k < |init| && init[k] == w[i];
      assert (init + [last])[k].id != (init + [last])[|init|].id;
    }
  }

  /** `syncJob`: the items in queue order, the done channels in the order they
      were closed, and the fetched trees in the order they were replayed. */
  class SyncJob {
    var items: seq<Item>
    var finished: seq<Id>
    var replayed: seq<Id>

    ghost predicate Valid()
      reads this
    {
      DistinctIds(items)
    }

    constructor ()
      ensures Valid() && items == [] && finished == [] && replayed == []
    {
      items, finished, replayed := [], [], [];
    }

    /** `add`'s inner step on one id, under the kind of the list naming it. */
    method QueueOne(id: Id, kind: Kind, ghost was: seq<Item>, ghost kinds: map<Id, Kind>)
      requires Staged(was, items, kinds) && id !in kinds
      modifies this`items
      ensures Staged(was, items, kinds[id := kind])
    {
      var i := 0;
      while i < |items| && items[i].id != id
        invariant i <= |items| && forall k :: 0 <= k < i ==> items[k].id != id
      {
        i := i + 1;
      }
      ghost var before := items;
      if i == |items| {
        items := items + [Item(id, kind, false, false, "")];
        AppendStaged(was, before, kinds, id, kind);
      } else {
        if !items[i].fetched && items[i].kind == Retry { items := items[i := items[i].(kind := kind)]; }
        UpgradeStaged(was, before, kinds, id, kind, i);
      }
    }

    method QueueAll(ids: seq<Id>, kind: Kind, seen: set<Id>, ghost was: seq<Item>, ghost kinds: map<Id, Kind>)
      returns (now: set<Id>, ghost named: map<Id, Kind>)
      requires Staged(was, items, kinds) && seen == kinds.Keys
      modifies this`items
      ensures Staged(was, items, named) && now == named.Keys
      ensures forall id :: id in named <==> id in kinds || id in ids
      ensures forall id :: id in named ==> named[id] == if id in kinds then kinds[id] else kind
    {
      now, named := seen, kinds;
      for i := 0 to |ids|
        invariant Staged(was, items, named) && now == named.Keys
        invariant forall id :: id in named <==> id in kinds || id in ids[..i]
        invariant forall id :: id in named ==> named[id] == if id in kinds then kinds[id] else kind
      {
        assert ids[..i + 1] == ids[..i] + [ids[i]];
        if ids[i] !in now {
          QueueOne(ids[i], kind, was, named);
          now := now + {ids[i]};
          named := named[ids[i] := kind];
        }
      }
      assert ids[..|ids|] == ids;
    }

    /** `add`: nobody loses its place, every id of the round is queued, a parked
        retry the diff offers becomes a fetch or a ping, and what is fetched
        stays as it is. The round waits for the whole queue. */
    method Add(existing: seq<Id>, missing: seq<Id>, parked: seq<Id>) returns (out: seq<Id>)
      requires Valid()
      modifies this`items
      ensures Valid() && out == Ids(items) && Ids(old(items)) <= Ids(items)
      ensures forall id :: Has(items, id) <==> Has(old(items), id) || id in missing || id in existing || id in parked
      ensures forall it :: it in items ==> AddedAs(old(items), existing, missing, parked, it)
    {
      ghost var was := items;
      NothingStaged(was);
      var seen, kinds := QueueAll(missing, Missing, {}, was, map[]);
      seen, kinds := QueueAll(existing, Changed, seen, was, kinds);
      seen, kinds := QueueAll(parked, Retry, seen, was, kinds);
      StagedIsAdded(was, items, kinds, existing, missing, parked);
      out := AllIds();
    }

    method AllIds() returns (out: seq<Id>)
      ensures out == Ids(items)
    {
      out := [];
      for i := 0 to |items|
        invariant out == Ids(items[..i])
      {
        assert items[..i + 1][..i] == items[..i];
        out := out + [items[i].id];
      }
      assert items[..|items|] == items;
    }

    /** `finish`. */
    method Finish(id: Id)
      requires Valid() && Has(items, id)
      modifies this`items, this`finished
      ensures Valid() && finished == old(finished) + [id] && items == Without(old(items), id)
      ensures forall it :: it in items <==> it in old(items) && it.id != id
      ensures Conserved(old(items), old(finished), items, finished)
    {
      WithoutMembers(items, id);
      WithoutKeepsDistinct(items, id);
      WithoutIds(items, id);
      items := Without(items, id);
      finished := finished + [id];
    }

    /** `take`: the ids of the accepted items, in queue order. */
    method Take(pick: Item -> bool) returns (out: seq<Id>)
      requires Valid()
      ensures out == Picked(items, pick)
      ensures forall it :: it in items ==> (it.id in out <==> pick(it))
      ensures forall id :: id in out ==> Has(items, id)
      ensures forall i, j :: 0 <= i < j < |out| ==> out[i] != out[j]
    {
      out := [];
      for i := 0 to |items|
        invariant out == Picked(items[..i], pick)
        invariant forall k :: 0 <= k < i ==> (items[k].id in out <==> pick(items[k]))
        invariant forall id :: id in out ==> exists k :: 0 <= k < i && items[k].id == id
        invariant forall a, b :: 0 <= a < b < |out| ==> out[a] != out[b]
      {
        assert items[i].id !in out;
        assert items[..i + 1][..i] == items[..i];
        if pick(items[i]) { out := out + [items[i].id]; }
      }
      assert items[..|items|] == items;
    }

    /** `each` with `handle` or `materialize`, which take every item off. */
    method FinishEach(ids: seq<Id>)
      requires Valid()
      requires forall id :: id in ids ==> Has(items, id)
      requires forall i, j :: 0 <= i < j < |ids| ==> ids[i] != ids[j]
      modifies this`items, this`finished
      ensures Valid() && finished == old(finished) + ids && items == WithoutAll(old(items), ids)
      ensures Conserved(old(items), old(finished), items, finished)
    {
      ghost var was := items;
      WithoutNone(was);
      for i := 0 to |ids|
        invariant Valid() && finished == old(finished) + ids[..i] && items == WithoutAll(was, ids[..i])
      {
        StillQueued(was, ids, i);
        assert ids[..i + 1] == ids[..i] + [ids[i]];
        WithoutAllStep(was, ids[..i], ids[i]);
        Finish(ids[i]);
      }
      assert ids[..|ids|] == ids;
      WithoutAllConserves(was, ids, old(finished));
    }

    /** `fetch`: a fetched tree stays queued as such. */
    method Fetch(id: Id, fetches: Id -> FetchResult)
      requires Valid() && Has(items, id)
      modifies this`items, this`finished
      ensures Valid()
      ensures items == AfterFetch(old(items), [id], fetches)
      ensures finished == if fetches(id).Fetched? then old(finished) else old(finished) + [id]
      ensures Conserved(old(items), old(finished), items, finished)
    {
      match fetches(id) {
        case NotFetched =>
          GoneIsWithout(items, id, fetches);
          Finish(id);
        case Fetched(changeType, local) => MarkFetched(id, fetches);
      }
    }

    method FetchEach(ids: seq<Id>, fetches: Id -> FetchResult)
      requires Valid()
      requires forall id :: id in ids ==> Has(items, id)
      requires forall i, j :: 0 <= i < j < |ids| ==> ids[i] != ids[j]
      modifies this`items, this`finished
      ensures Valid() && items == AfterFetch(old(items), ids, fetches)
      ensures finished == old(finished) + Unfetched(ids, fetches)
      ensures FetchDone(old(items), items, ids, fetches)
      ensures Conserved(old(items), old(finished), items, finished)
    {
      ghost var was := items;
      FetchNone(was, fetches);
      for i := 0 to |ids|
        invariant Valid() && items == AfterFetch(was, ids[..i], fetches)
        invariant finished == old(finished) + Unfetched(ids[..i], fetches)
      {
        FetchStep(was, ids, i, fetches);
        Fetch(ids[i], fetches);
      }
      assert ids[..|ids|] == ids;
      AfterFetchConserves(was, ids, fetches, old(finished));
      FetchMeans(was, ids, fetches);
    }

    method MarkFetched(id: Id, fetches: Id -> FetchResult)
      requires Valid() && Has(items, id) && fetches(id).Fetched?
      modifies this`items
      ensures Valid() && Ids(items) == Ids(old(items)) && items == AfterFetch(old(items), [id], fetches)
    {
      var i := 0;
      while items[i].id != id
        invariant 0 <= i < |items|
        invariant forall k :: 0 <= k < i ==> items[k].id != id
        decreases |items| - i
      {
        if i + 1 == |items| { assert false; }
        i := i + 1;
      }
      ghost var was := items;
      MarkedInPlace(items, i, fetches);
      items := items[i := Marked(items[i], fetches(id))];
      SameIds(was, items);
    }

    /** `takeFirst`: the queued ids the registry names first, in its order, each
        once; a queue of one asks nothing. */
    method TakeFirst(first: seq<Id>) returns (out: seq<Id>)
      requires Valid()
      ensures |items| < 2 ==> out == []
      ensures |items| >= 2 ==> out == Named(items, first)
      ensures forall id :: id in out <==> |items| >= 2 && id in first && Has(items, id)
      ensures forall i, j :: 0 <= i < j < |out| ==> out[i] != out[j]
    {
      out := [];
      if |items| < 2 { return; }
      for i := 0 to |first|
        invariant out == Named(items, first[..i])
        invariant forall id :: id in out <==> id in first[..i] && Has(items, id)
        invariant forall a, b :: 0 <= a < b < |out| ==> out[a] != out[b]
      {
        assert first[..i + 1] == first[..i] + [first[i]] && first[..i + 1][..i] == first[..i];
        var queued := exists it :: it in items && it.id == first[i];
        if first[i] !in out && queued { out := out + [first[i]]; }
      }
      assert first[..|first|] == first;
    }

    /** One answer of the registry, handled. */
    method FirstTurn(answer: seq<Id>) returns (out: seq<Id>)
      requires Valid()
      modifies this`items, this`finished
      ensures Valid() && finished == old(finished) + out
      ensures |old(items)| < 2 ==> out == []
      ensures |old(items)| >= 2 ==> out == Named(old(items), answer)
      ensures forall id :: id in out ==> id in answer && Has(old(items), id)
      ensures items == WithoutAll(old(items), out)
      ensures Conserved(old(items), old(finished), items, finished)
    {
      out := TakeFirst(answer);
      FinishEach(out);
    }

    /** Group 1, asked twice. */
    method FirstGroup(answers: seq<seq<Id>>) returns (ghost first: seq<Id>, ghost again: seq<Id>)
      requires Valid() && |answers| == 2
      modifies this`items, this`finished
      ensures Valid() && finished == old(finished) + first + again
      ensures first == (if |old(items)| >= 2 then Named(old(items), answers[0]) else [])
      ensures var left := WithoutAll(old(items), first);
              && again == (if first != [] && |left| >= 2 then Named(left, answers[1]) else [])
              && items == WithoutAll(left, again)
      ensures Conserved(old(items), old(finished), items, finished)
    {
      var one := FirstTurn(answers[0]);
      first, again := one, [];
      WithoutNone(items);
      if |one| > 0 {
        var two := FirstTurn(answers[1]);
        again := two;
      }
    }

    /** Groups 3 and 4: definitions first. */
    method MaterializeGroup(types: set<string>) returns (defs: seq<Id>, rest: seq<Id>)
      requires Valid()
      modifies this
      ensures Valid() && replayed == old(replayed) + defs + rest && finished == old(finished) + defs + rest
      ensures defs == Picked(old(items), (it: Item) => it.fetched && it.changeType in types)
      ensures rest == Picked(old(items), (it: Item) => it.fetched && it.changeType !in types)
      ensures items == WithoutAll(WithoutAll(old(items), defs), rest)
      ensures forall it :: it in old(items) ==> (it.id in defs || it.id in rest <==> it.fetched)
      ensures Conserved(old(items), old(finished), items, finished)
    {
      defs := Take((it: Item) => it.fetched && it.changeType in types);
      rest := Take((it: Item) => it.fetched && it.changeType !in types);
      ghost var was := items;
      NoneTwice(was, defs, rest);
      FinishEach(defs);
      replayed := replayed + defs;
      WithoutAllMembers(was, defs);
      forall id | id in rest
        ensures Has(items, id)
      {
        var it :| it in was && it.id == id;
        assert it in items;
      }
      FinishEach(rest);
      replayed := replayed + rest;
    }

    method HandleKind(kind: Kind)
      requires Valid()
      modifies this`items, this`finished
      ensures Valid()
      ensures var ids := Picked(old(items), (it: Item) => it.kind == kind);
              finished == old(finished) + ids && items == WithoutAll(old(items), ids)
      ensures forall it :: it in items <==> it in old(items) && it.kind != kind
      ensures Conserved(old(items), old(finished), items, finished)
    {
      var ids := Take((it: Item) => it.kind == kind);
      WithoutAllMembers(items, ids);
      FinishEach(ids);
    }

    /** Groups 2 to 4: fetch what is missing, then replay what is in storage. */
    method StorageGroups(types: set<string>, fetches: Id -> FetchResult)
      returns (defs: seq<Id>, rest: seq<Id>)
      requires Valid()
      modifies this
      ensures Valid() && replayed == old(replayed) + defs + rest
      ensures finished == old(finished) + GoneOf(old(items), fetches) + defs + rest
      ensures defs == DefsOf(old(items), fetches, types) && rest == RestOf(old(items), fetches, types)
      ensures forall it :: it in items <==> it in old(items) && it.kind != Missing && !it.fetched
      ensures LocalOf(items, Changed) == LocalOf(old(items), Changed)
      ensures LocalOf(items, Retry) == LocalOf(old(items), Retry)
      ensures Conserved(old(items), old(finished), items, finished)
    {
      ghost var a := items;
      var missing := Take((it: Item) => it.kind == Missing && !it.fetched);
      FetchEach(missing, fetches);
      ghost var b := items;
      defs, rest := MaterializeGroup(types);
      Materialized(a, missing, fetches, types);
      LeftLocal(a, missing, fetches, defs, rest);
    }

    /** Groups 5 and 6. */
    method LocalGroups()
      requires Valid() && forall it :: it in items ==> it.kind != Missing && !it.fetched
      modifies this`items, this`finished
      ensures items == []
      ensures finished == old(finished) + LocalOf(old(items), Changed) + LocalOf(old(items), Retry)
      ensures Conserved(old(items), old(finished), items, finished)
    {
      ghost var was := items;
      HandleKind(Changed);
      ghost var changed := Picked(was, (it: Item) => it.kind == Changed);
      forall it | it in was
        ensures it.id in changed <==> it.kind == Changed
      {
        PickedMeans(was, (it: Item) => it.kind == Changed, it);
      }
      RetriesLeft(was, changed);
      HandleKind(Retry);
      if items != [] { SomeKind(items); }
    }

    /** `pass`: the queue empties, every done channel closes once, and in this
        order: the trees the registry names first, those it names next, the
        missing ones whose fetch failed, the definitions in storage, the other
        trees in storage, the changed and the retried ones. The trees in storage
        are replayed as they finish. */
    method Pass(answers: seq<seq<Id>>, types: set<string>, fetches: Id -> FetchResult)
      returns (ghost first: seq<Id>, ghost again: seq<Id>, ghost left: seq<Item>, defs: seq<Id>, rest: seq<Id>)
      requires Valid() && |answers| == 2
      modifies this
      ensures items == []
      ensures multiset(finished) == multiset(old(finished)) + multiset(Ids(old(items)))
      ensures first == (if |old(items)| >= 2 then Named(old(items), answers[0]) else [])
      ensures var after := WithoutAll(old(items), first);
              && again == (if first != [] && |after| >= 2 then Named(after, answers[1]) else [])
              && left == WithoutAll(after, again)
      ensures finished == old(finished) + first + again + GoneOf(left, fetches) + defs + rest
                          + LocalOf(left, Changed) + LocalOf(left, Retry)
      ensures replayed == old(replayed) + defs + rest
      ensures defs == DefsOf(left, fetches, types) && rest == RestOf(left, fetches, types)
    {
      first, again := FirstGroup(answers);
      left := items;
      ghost var doneFirst := finished;
      defs, rest := StorageGroups(types, fetches);
      ghost var local, doneStored := items, finished;
      LocalGroups();
      ConservedThrough(old(items), old(finished), left, doneFirst, local, doneStored);
      ConservedThrough(old(items), old(finished), local, doneStored, items, finished);
      AllFinished(old(items), old(finished), finished);
    }
  }

  /** The missing trees whose fetch fails, in queue order. */
  ghost function GoneOf(q: seq<Item>, fetches: Id -> FetchResult): seq<Id> {
    Picked(q, (it: Item) => it.kind == Missing && !it.fetched && !fetches(it.id).Fetched?)
  }

  /** The definitions in storage. */
  ghost function DefsOf(q: seq<Item>, fetches: Id -> FetchResult, types: set<string>): seq<Id> {
    Picked(q, (it: Item) => InStorage(it, fetches) && RootOf(it, fetches) in types)
  }

  /** The other trees in storage. */
  ghost function RestOf(q: seq<Item>, fetches: Id -> FetchResult, types: set<string>): seq<Id> {
    Picked(q, (it: Item) => InStorage(it, fetches) && RootOf(it, fetches) !in types)
  }

  /** The trees of a kind that are not in storage. */
  ghost function LocalOf(q: seq<Item>, kind: Kind): seq<Id> {
    Picked(q, (it: Item) => it.kind == kind && !it.fetched)
  }

  lemma Materialized(q: seq<Item>, missing: seq<Id>, fetches: Id -> FetchResult, types: set<string>)
    requires missing == Picked(q, (it: Item) => it.kind == Missing && !it.fetched)
    requires forall it :: it in q ==> (it.id in missing <==> it.kind == Missing && !it.fetched)
    ensures Unfetched(missing, fetches) == GoneOf(q, fetches)
    ensures Picked(AfterFetch(q, missing, fetches), (it: Item) => it.fetched && it.changeType in types) ==
            DefsOf(q, fetches, types)
    ensures Picked(AfterFetch(q, missing, fetches), (it: Item) => it.fetched && it.changeType !in types) ==
            RestOf(q, fetches, types)
  {
    UnfetchedPicked(q, fetches, (it: Item) => it.kind == Missing && !it.fetched,
                    (it: Item) => it.kind == Missing && !it.fetched && !fetches(it.id).Fetched?);
    PickedAfterFetch(q, missing, fetches, (it: Item) => it.fetched && it.changeType in types,
                     (it: Item) => InStorage(it, fetches) && RootOf(it, fetches) in types);
    PickedAfterFetch(q, missing, fetches, (it: Item) => it.fetched && it.changeType !in types,
                     (it: Item) => InStorage(it, fetches) && RootOf(it, fetches) !in types);
  }

  /** Taking the stored trees off leaves the others as they were. */
  lemma LeftLocal(q: seq<Item>, missing: seq<Id>, fetches: Id -> FetchResult, defs: seq<Id>, rest: seq<Id>)
    requires forall it :: it in q ==> (it.id in missing <==> it.kind == Missing && !it.fetched)
    requires forall it :: it in AfterFetch(q, missing, fetches) ==> (it.id in defs || it.id in rest <==> it.fetched)
    ensures var left := WithoutAll(WithoutAll(AfterFetch(q, missing, fetches), defs), rest);
            && (forall it :: it in left <==> it in q && it.kind != Missing && !it.fetched)
            && LocalOf(left, Changed) == LocalOf(q, Changed) && LocalOf(left, Retry) == LocalOf(q, Retry)
  {
    var b := AfterFetch(q, missing, fetches);
    WithoutAllMembers(b, defs);
    WithoutAllMembers(WithoutAll(b, defs), rest);
    forall it: Item
      ensures it in b && !it.fetched <==> it in q && it.kind != Missing && !it.fetched
    {
      AfterFetchMembers(q, missing, fetches, it);
    }
    LeftOf(q, missing, fetches, defs, rest, Changed);
    LeftOf(q, missing, fetches, defs, rest, Retry);
  }

  lemma LeftOf(q: seq<Item>, missing: seq<Id>, fetches: Id -> FetchResult, defs: seq<Id>, rest: seq<Id>, kind: Kind)
    requires forall it :: it in q ==> (it.id in missing <==> it.kind == Missing && !it.fetched)
    requires forall it :: it in AfterFetch(q, missing, fetches) ==> (it.id in defs || it.id in rest <==> it.fetched)
    requires kind != Missing
    ensures LocalOf(WithoutAll(WithoutAll(AfterFetch(q, missing, fetches), defs), rest), kind) == LocalOf(q, kind)
  {
    var b := AfterFetch(q, missing, fetches);
    var c := WithoutAll(b, defs);
    var p := (it: Item) => it.kind == kind && !it.fetched;
    WithoutAllMembers(b, defs);
    PickedWithout(b, defs, p, p);
    PickedWithout(c, rest, p, p);
    PickedAfterFetch(q, missing, fetches, p, p);
  }

  /** Handling the changed trees leaves the retried ones. */
  lemma RetriesLeft(q: seq<Item>, changed: seq<Id>)
    requires forall it :: it in q ==> !it.fetched && (it.id in changed <==> it.kind == Changed)
    ensures Picked(q, (it: Item) => it.kind == Changed) == LocalOf(q, Changed)
    ensures Picked(WithoutAll(q, changed), (it: Item) => it.kind == Retry) == LocalOf(q, Retry)
  {
    PickedSame(q, (it: Item) => it.kind == Changed, (it: Item) => it.kind == Changed && !it.fetched);
    PickedWithout(q, changed, (it: Item) => it.kind == Retry, (it: Item) => it.kind == Retry && !it.fetched);
  }

  lemma {:induction false} PickedMembers(q: seq<Item>, pick: Item -> bool, id: Id)
    ensures id in Picked(q, pick) <==> exists it :: it in q && it.id == id && pick(it)
    decreases |q|
  {
    if q != [] {
      var init, last := q[..|q| - 1], q[|q| - 1];
      assert forall it :: it in q <==> it in init || it == last;
      PickedMembers(init, pick, id);
    }
  }

  lemma OneOfId(q: seq<Item>, a: Item, b: Item)
    requires DistinctIds(q) && a in q && b in q && a.id == b.id
    ensures a == b
  {}

  lemma PickedMeans(q: seq<Item>, pick: Item -> bool, it: Item)
    requires DistinctIds(q) && it in q
    ensures it.id in Picked(q, pick) <==> pick(it)
  {
    PickedMembers(q, pick, it.id);
    if x :| x in q && x.id == it.id && pick(x) { OneOfId(q, x, it); }
  }

  /** Which group finishes a queued tree that was not named first. */
  lemma GroupsMean(q: seq<Item>, fetches: Id -> FetchResult, types: set<string>, it: Item)
    requires DistinctIds(q) && it in q
    ensures var fetched := it.kind == Missing && !it.fetched && fetches(it.id).Fetched?;
            && (it.id in GoneOf(q, fetches) <==> it.kind == Missing && !it.fetched && fetches(it.id) == NotFetched)
            && (it.id in DefsOf(q, fetches, types) <==>
                  (it.fetched && it.changeType in types) || (fetched && fetches(it.id).changeType in types))
            && (it.id in RestOf(q, fetches, types) <==>
                  (it.fetched && it.changeType !in types) || (fetched && fetches(it.id).changeType !in types))
            && (it.id in LocalOf(q, Changed) <==> it.kind == Changed && !it.fetched)
            && (it.id in LocalOf(q, Retry) <==> it.kind == Retry && !it.fetched)
  {
    PickedMeans(q, (it: Item) => it.kind == Missing && !it.fetched && !fetches(it.id).Fetched?, it);
    PickedMeans(q, (it: Item) => InStorage(it, fetches) && RootOf(it, fetches) in types, it);
    PickedMeans(q, (it: Item) => InStorage(it, fetches) && RootOf(it, fetches) !in types, it);
    PickedMeans(q, (it: Item) => it.kind == Changed && !it.fetched, it);
    PickedMeans(q, (it: Item) => it.kind == Retry && !it.fetched, it);
  }

  lemma SomeKind(q: seq<Item>)
    requires q != []
    ensures exists it :: it in q && (it.kind == Missing || it.kind == Changed || it.kind == Retry)
  {
    assert q[0] in q;
  }

  /** An item after some ids were queued under the kinds given. */
  ghost predicate StagedItem(was: seq<Item>, kinds: map<Id, Kind>, it: Item) {
    || (exists w :: w in was && w.id == it.id &&
          it == if it.id in kinds && w.kind == Retry && !w.fetched then w.(kind := kinds[it.id]) else w)
    || (!Has(was, it.id) && it.id in kinds && it == Item(it.id, kinds[it.id], false, false, ""))
  }

  ghost predicate Staged(was: seq<Item>, now: seq<Item>, kinds: map<Id, Kind>) {
    && DistinctIds(was) && DistinctIds(now) && Ids(was) <= Ids(now)
    && (forall id :: Has(now, id) <==> Has(was, id) || id in kinds)
    && (forall it :: it in now ==> StagedItem(was, kinds, it))
  }

  function KindFor(existing: seq<Id>, missing: seq<Id>, id: Id): Kind {
    if id in missing then Missing else if id in existing then Changed else Retry
  }

  ghost predicate AddedAs(was: seq<Item>, existing: seq<Id>, missing: seq<Id>, parked: seq<Id>, it: Item) {
    var named := it.id in missing || it.id in existing || it.id in parked;
    var kind := KindFor(existing, missing, it.id);
    || (exists w :: w in was && w.id == it.id &&
          it == if named && w.kind == Retry && !w.fetched then w.(kind := kind) else w)
    || (!Has(was, it.id) && named && it == Item(it.id, kind, false, false, ""))
  }

  /** What a round makes of a tree: a new one is to be fetched when the diff
      misses it, pinged when it changed, retried when it was parked; of those
      queued only a parked retry that is not fetched changes its kind. */
  lemma AddMeans(was: seq<Item>, existing: seq<Id>, missing: seq<Id>, parked: seq<Id>, it: Item)
    requires DistinctIds(was) && AddedAs(was, existing, missing, parked, it)
    ensures !Has(was, it.id) ==>
              && !it.fetched && (it.id in missing || it.id in existing || it.id in parked)
              && (it.kind == Missing <==> it.id in missing)
              && (it.kind == Changed <==> it.id in existing && it.id !in missing)
    ensures forall w :: w in was && w.id == it.id ==>
              && it == w.(kind := it.kind)
              && (w.kind != Retry || w.fetched ==> it == w)
              && (w.kind == Retry && !w.fetched ==>
                    && (it.kind == Missing <==> it.id in missing)
                    && (it.kind == Changed <==> it.id in existing && it.id !in missing))
  {
    forall w | w in was && w.id == it.id
      ensures it == w.(kind := it.kind)
      ensures w.kind != Retry || w.fetched ==> it == w
      ensures w.kind == Retry && !w.fetched ==>
                && (it.kind == Missing <==> it.id in missing)
                && (it.kind == Changed <==> it.id in existing && it.id !in missing)
    {
      assert Has(was, it.id);
      var x :| x in was && x.id == it.id &&
        it == if (it.id in missing || it.id in existing || it.id in parked) && x.kind == Retry && !x.fetched
              then x.(kind := KindFor(existing, missing, it.id)) else x;
      OneOfId(was, w, x);
    }
  }

  lemma NothingStaged(q: seq<Item>)
    requires DistinctIds(q)
    ensures Staged(q, q, map[])
  {}

  lemma AppendStaged(was: seq<Item>, now: seq<Item>, kinds: map<Id, Kind>, id: Id, kind: Kind)
    requires Staged(was, now, kinds) && id !in kinds && forall k :: 0 <= k < |now| ==> now[k].id != id
    ensures Staged(was, now + [Item(id, kind, false, false, "")], kinds[id := kind])
  {
    var it := Item(id, kind, false, false, "");
    var after := now + [it];
    assert forall x :: x in after <==> x in now || x == it;
    assert !Has(now, id);
    assert after[..|now|] == now;
    forall k
      ensures Has(after, k) <==> Has(was, k) || k in kinds[id := kind]
    {
      assert Has(after, k) <==> Has(now, k) || k == id;
    }
    forall x | x in after
      ensures StagedItem(was, kinds[id := kind], x)
    {
      if x != it { assert StagedItem(was, kinds, x); }
    }
  }

  lemma UpgradeStaged(was: seq<Item>, now: seq<Item>, kinds: map<Id, Kind>, id: Id, kind: Kind, i: nat)
    requires Staged(was, now, kinds) && id !in kinds && i < |now| && now[i].id == id
    ensures Staged(was, Upgraded(now, i, kind), kinds[id := kind])
  {
    var after := Upgraded(now, i, kind);
    SameIds(now, after);
    forall k
      ensures Has(after, k) <==> Has(was, k) || k in kinds[id := kind]
    {
      assert now[i] in now && Has(now, id);
      SameHas(now, after, k);
    }
    forall x | x in after
      ensures StagedItem(was, kinds[id := kind], x)
    {
      var j :| 0 <= j < |after| && after[j] == x;
      UpgradedItem(was, now, kinds, id, kind, i, j);
    }
  }

  function Upgraded(now: seq<Item>, i: nat, kind: Kind): (after: seq<Item>)
    requires i < |now|
    ensures |after| == |now| && forall j :: 0 <= j < |now| ==> after[j].id == now[j].id
  {
    if !now[i].fetched && now[i].kind == Retry then now[i := now[i].(kind := kind)] else now
  }

  lemma UpgradedItem(was: seq<Item>, now: seq<Item>, kinds: map<Id, Kind>, id: Id, kind: Kind, i: nat, j: nat)
    requires DistinctIds(now) && id !in kinds && i < |now| && now[i].id == id && j < |now|
    requires forall it :: it in now ==> StagedItem(was, kinds, it)
    ensures StagedItem(was, kinds[id := kind], Upgraded(now, i, kind)[j])
  {
    assert StagedItem(was, kinds, now[j]);
    if j != i { assert now[j].id != id; }
  }

  lemma StagedIsAdded(was: seq<Item>, now: seq<Item>, kinds: map<Id, Kind>,
                      existing: seq<Id>, missing: seq<Id>, parked: seq<Id>)
    requires Staged(was, now, kinds)
    requires forall id :: id in kinds <==> id in missing || id in existing || id in parked
    requires forall id :: id in kinds ==> kinds[id] == KindFor(existing, missing, id)
    ensures forall it :: it in now ==> AddedAs(was, existing, missing, parked, it)
  {
    forall it | it in now
      ensures AddedAs(was, existing, missing, parked, it)
    {
      assert StagedItem(was, kinds, it);
    }
  }

  lemma SameHas(a: seq<Item>, b: seq<Item>, id: Id)
    requires |a| == |b| && forall i :: 0 <= i < |a| ==> a[i].id == b[i].id
    ensures Has(a, id) <==> Has(b, id)
  {
    if it :| it in a && it.id == id {
      var i :| 0 <= i < |a| && a[i] == it;
      assert b[i] in b;
    }
    if it :| it in b && it.id == id {
      var i :| 0 <= i < |b| && b[i] == it;
      assert a[i] in a;
    }
  }

  /** In storage when group 3 starts: fetched earlier, or by this pass. */
  predicate InStorage(it: Item, fetches: Id -> FetchResult) {
    it.fetched || (it.kind.Missing? && fetches(it.id).Fetched?)
  }

  /** The root type of a tree in storage. */
  function RootOf(it: Item, fetches: Id -> FetchResult): string
    requires InStorage(it, fetches)
  {
    if it.fetched then it.changeType else fetches(it.id).changeType
  }

  lemma FetchStep(q: seq<Item>, ids: seq<Id>, i: nat, fetches: Id -> FetchResult)
    requires i < |ids| && (forall id :: id in ids ==> Has(q, id))
    requires forall a, b :: 0 <= a < b < |ids| ==> ids[a] != ids[b]
    ensures var now := AfterFetch(q, ids[..i], fetches);
            Has(now, ids[i]) && AfterFetch(q, ids[..i + 1], fetches) == AfterFetch(now, [ids[i]], fetches)
    ensures Unfetched(ids[..i + 1], fetches) ==
            Unfetched(ids[..i], fetches) + if fetches(ids[i]).Fetched? then [] else [ids[i]]
  {
    NotFetchedYet(q, ids, i, fetches);
    UnfetchedStep(ids, i, fetches);
    AfterFetchStep(q, ids[..i], ids[i], fetches);
  }

  lemma UnfetchedStep(ids: seq<Id>, i: nat, fetches: Id -> FetchResult)
    requires i < |ids|
    ensures ids[..i + 1] == ids[..i] + [ids[i]]
    ensures Unfetched(ids[..i + 1], fetches) ==
            Unfetched(ids[..i], fetches) + if fetches(ids[i]).Fetched? then [] else [ids[i]]
  {
    assert ids[..i + 1][..i] == ids[..i];
  }

  lemma {:induction false} WithoutAllConserves(q: seq<Item>, ids: seq<Id>, done: seq<Id>)
    requires DistinctIds(q) && (forall id :: id in ids ==> Has(q, id))
    requires forall i, j :: 0 <= i < j < |ids| ==> ids[i] != ids[j]
    ensures DistinctIds(WithoutAll(q, ids)) && Conserved(q, done, WithoutAll(q, ids), done + ids)
    decreases |ids|
  {
    if ids == [] {
      WithoutNone(q);
      assert done + ids == done;
    } else {
      var n := |ids| - 1;
      var w := WithoutAll(q, ids[..n]);
      assert ids == ids[..n] + [ids[n]] && done + ids == done + ids[..n] + [ids[n]];
      WithoutAllConserves(q, ids[..n], done);
      StillQueued(q, ids, n);
      WithoutAllStep(q, ids[..n], ids[n]);
      WithoutKeepsDistinct(w, ids[n]);
      WithoutIds(w, ids[n]);
    }
  }

  lemma {:induction false} AfterFetchConserves(q: seq<Item>, ids: seq<Id>, fetches: Id -> FetchResult, done: seq<Id>)
    requires DistinctIds(q) && (forall id :: id in ids ==> Has(q, id))
    requires forall i, j :: 0 <= i < j < |ids| ==> ids[i] != ids[j]
    ensures DistinctIds(AfterFetch(q, ids, fetches))
    ensures Conserved(q, done, AfterFetch(q, ids, fetches), done + Unfetched(ids, fetches))
    decreases |ids|
  {
    if ids == [] {
      FetchNone(q, fetches);
      assert done + [] == done;
    } else {
      var n := |ids| - 1;
      var w := AfterFetch(q, ids[..n], fetches);
      assert ids == ids[..n] + [ids[n]];
      AfterFetchConserves(q, ids[..n], fetches, done);
      NotFetchedYet(q, ids, n, fetches);
      AfterFetchStep(q, ids[..n], ids[n], fetches);
      UnfetchedStep(ids, n, fetches);
      OneFetch(w, ids[n], fetches, done + Unfetched(ids[..n], fetches));
    }
  }

  lemma {:induction false} OneFetch(q: seq<Item>, id: Id, fetches: Id -> FetchResult, done: seq<Id>)
    requires DistinctIds(q) && Has(q, id)
    ensures DistinctIds(AfterFetch(q, [id], fetches))
    ensures Conserved(q, done, AfterFetch(q, [id], fetches), done + if fetches(id).Fetched? then [] else [id])
  {
    if fetches(id).Fetched? {
      OneMarked(q, id, fetches);
      assert done + [] == done;
    } else {
      GoneIsWithout(q, id, fetches);
      WithoutKeepsDistinct(q, id);
      WithoutIds(q, id);
    }
  }

  lemma {:induction false} OneMarked(q: seq<Item>, id: Id, fetches: Id -> FetchResult)
    requires DistinctIds(q) && Has(q, id) && fetches(id).Fetched?
    ensures DistinctIds(AfterFetch(q, [id], fetches)) && Ids(AfterFetch(q, [id], fetches)) == Ids(q)
  {
    var it :| it in q && it.id == id;
    var i :| 0 <= i < |q| && q[i] == it;
    MarkedInPlace(q, i, fetches);
    SameIds(q, AfterFetch(q, [id], fetches));
  }

  lemma NoneTwice(q: seq<Item>, a: seq<Id>, b: seq<Id>)
    requires DistinctIds(q) && (forall id :: id in b ==> Has(q, id))
    requires forall it :: it in q ==> !(it.id in a && it.id in b)
    ensures forall id :: id in b ==> id !in a
  {}

  lemma StillQueued(q: seq<Item>, ids: seq<Id>, i: nat)
    requires i < |ids| && (forall id :: id in ids ==> Has(q, id))
    requires forall a, b :: 0 <= a < b < |ids| ==> ids[a] != ids[b]
    ensures Has(WithoutAll(q, ids[..i]), ids[i])
  {
    assert ids[i] in ids && ids[i] !in ids[..i];
    var it :| it in q && it.id == ids[i];
    WithoutAllMembers(q, ids[..i]);
    assert it in WithoutAll(q, ids[..i]);
  }

  lemma NotFetchedYet(q: seq<Item>, ids: seq<Id>, i: nat, fetches: Id -> FetchResult)
    requires i < |ids| && (forall id :: id in ids ==> Has(q, id))
    requires forall a, b :: 0 <= a < b < |ids| ==> ids[a] != ids[b]
    ensures ids[i] !in ids[..i] && Has(AfterFetch(q, ids[..i], fetches), ids[i])
  {
    assert ids[i] in ids && ids[i] !in ids[..i];
    var it :| it in q && it.id == ids[i];
    AfterFetchMembers(q, ids[..i], fetches, it);
  }

  lemma {:induction false} SameIds(a: seq<Item>, b: seq<Item>)
    requires |a| == |b| && forall i :: 0 <= i < |a| ==> a[i].id == b[i].id
    ensures Ids(a) == Ids(b)
    decreases |a|
  {
    if a != [] { SameIds(a[..|a| - 1], b[..|b| - 1]); }
  }
}
