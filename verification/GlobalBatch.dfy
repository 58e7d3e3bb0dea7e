/** The coalescing queue in front of the global peers: of the head updates of
    one object only the latest is sent, everything else is sent in order. */
module GlobalBatch {
  import opened Basics

  /** A broadcast: a tree head update names its object. */
  datatype Msg = Msg(tree: bool, objectId: string, body: string)

  datatype Slot = ForObject(id: string) | Numbered(n: nat)

  /** The held batch: `coalesced` in the order of `coalesceOrder`. */
  datatype Batch = Batch(order: seq<Slot>, held: map<Slot, Msg>, count: nat)

  const EMPTY_BATCH := Batch([], map[], 0)

  predicate Replaces(m: Msg) {
    m.tree && m.objectId != ""
  }

  function SlotOf(b: Batch, m: Msg): Slot {
    if Replaces(m) then ForObject(m.objectId) else Numbered(b.count + 1)
  }

  function Coalesced(b: Batch, m: Msg): Batch {
    var k := SlotOf(b, m);
    Batch(if k in b.held then b.order else b.order + [k], b.held[k := m], if Replaces(m) then b.count else b.count + 1)
  }

  function Collect(ms: seq<Msg>): Batch
    decreases |ms|
  {
    if ms == [] then EMPTY_BATCH else Coalesced(Collect(ms[..|ms| - 1]), ms[|ms| - 1])
  }

  ghost predicate Valid(b: Batch) {
    && (forall i, j :: 0 <= i < j < |b.order| ==> b.order[i] != b.order[j])
    && (forall k :: k in b.held <==> k in b.order)
    && (forall k :: k in b.held && k.Numbered? ==> k.n <= b.count)
  }

  lemma {:induction false} CollectValid(ms: seq<Msg>)
    ensures Valid(Collect(ms))
    decreases |ms|
  {
    if ms != [] { CollectValid(ms[..|ms| - 1]); }
  }

  /** What `flushCoalesced` sends. */
  function Flushed(b: Batch): (r: seq<Msg>)
    requires forall k :: k in b.order ==> k in b.held
    ensures |r| == |b.order|
  {
    seq(|b.order|, i requires 0 <= i < |b.order| => b.held[b.order[i]])
  }

  /** The newest head update of an object. */
  function Latest(ms: seq<Msg>, id: string): Option<Msg>
    decreases |ms|
  {
    if ms == [] then None
    else if Replaces(ms[|ms| - 1]) && ms[|ms| - 1].objectId == id then Some(ms[|ms| - 1])
    else Latest(ms[..|ms| - 1], id)
  }

  /** The messages no other replaces. */
  function Kept(ms: seq<Msg>): seq<Msg>
    decreases |ms|
  {
    if ms == [] then []
    else if Replaces(ms[|ms| - 1]) then Kept(ms[..|ms| - 1]) else Kept(ms[..|ms| - 1]) + [ms[|ms| - 1]]
  }

  /** The newest head update is the last message about a tree of that id; one
      without an id is no head update of an object. */
  lemma {:induction false} LatestMeans(ms: seq<Msg>, id: string)
    ensures Latest(ms, id).None? <==> id == "" || forall m :: m in ms ==> !m.tree || m.objectId != id
    ensures Latest(ms, id).Some? ==>
              exists i :: 0 <= i < |ms| && Latest(ms, id) == Some(ms[i]) && ms[i].tree && ms[i].objectId == id &&
                forall j :: i < j < |ms| ==> !ms[j].tree || ms[j].objectId != id
    decreases |ms|
  {
    if ms != [] {
      var n := |ms| - 1;
      LatestMeans(ms[..n], id);
      assert forall m :: m in ms <==> m in ms[..n] || m == ms[n];
    }
  }

  /** And every other message is kept, in its place among those kept. */
  lemma {:induction false} KeptMeans(ms: seq<Msg>, n: nat)
    requires n <= |ms|
    ensures forall m :: m in Kept(ms) <==> m in ms && (!m.tree || m.objectId == "")
    ensures Kept(ms[..n]) <= Kept(ms)
    ensures multiset(Kept(ms)) <= multiset(ms)
    ensures forall m: Msg :: !m.tree || m.objectId == "" ==> multiset(Kept(ms))[m] == multiset(ms)[m]
    decreases |ms|
  {
    if ms != [] {
      var k := |ms| - 1;
      assert ms == ms[..k] + [ms[k]];
      if n <= k {
        KeptMeans(ms[..k], n);
        assert ms[..k][..n] == ms[..n];
      } else {
        KeptMeans(ms[..k], k);
        assert ms[..n] == ms;
      }
    }
  }

  /** The slots of the messages no other replaces, in batch order. */
  function Plain(order: seq<Slot>): seq<Slot>
    decreases |order|
  {
    if order == [] then []
    else if order[|order| - 1].Numbered? then Plain(order[..|order| - 1]) + [order[|order| - 1]]
    else Plain(order[..|order| - 1])
  }

  lemma {:induction false} HoldsLatest(ms: seq<Msg>, id: string)
    ensures ForObject(id) in Collect(ms).held <==> Latest(ms, id).Some?
    ensures Latest(ms, id).Some? ==> Collect(ms).held[ForObject(id)] == Latest(ms, id).value
    decreases |ms|
  {
    if ms != [] { HoldsLatest(ms[..|ms| - 1], id); }
  }

  lemma {:induction false} PlainAppend(order: seq<Slot>, k: Slot)
    ensures Plain(order + [k]) == if k.Numbered? then Plain(order) + [k] else Plain(order)
  {
    assert (order + [k])[..|order|] == order;
  }

  lemma {:induction false} PlainSlots(order: seq<Slot>)
    ensures forall k :: k in Plain(order) ==> k in order && k.Numbered?
    decreases |order|
  {
    if order != [] { PlainSlots(order[..|order| - 1]); }
  }

  lemma {:induction false} KeepsTheRest(ms: seq<Msg>)
    ensures var b := Collect(ms);
            && |Plain(b.order)| == |Kept(ms)|
            && forall i :: 0 <= i < |Kept(ms)| ==>
                 Plain(b.order)[i] in b.held && b.held[Plain(b.order)[i]] == Kept(ms)[i]
    decreases |ms|
  {
    if ms != [] {
      var init, m := ms[..|ms| - 1], ms[|ms| - 1];
      var b := Collect(init);
      KeepsTheRest(init);
      CollectValid(init);
      PlainAppend(b.order, SlotOf(b, m));
      PlainSlots(b.order);
    }
  }

  /** A flushed batch holds exactly the latest head update of every object named
      and, in the order they came, all other messages; nothing is sent twice. */
  lemma FlushSendsLatest(ms: seq<Msg>)
    ensures var b := Collect(ms);
            && (forall k :: k in b.order ==> k in b.held)
            && (forall i, j :: 0 <= i < j < |b.order| ==> b.order[i] != b.order[j])
            && (forall id :: ForObject(id) in b.order <==> Latest(ms, id).Some?)
            && (forall i :: 0 <= i < |b.order| && b.order[i].ForObject? ==>
                  Some(Flushed(b)[i]) == Latest(ms, b.order[i].id))
            && |Plain(b.order)| == |Kept(ms)|
            && (forall i :: 0 <= i < |Kept(ms)| ==>
                  Plain(b.order)[i] in b.held && b.held[Plain(b.order)[i]] == Kept(ms)[i])
  {
    var b := Collect(ms);
    CollectValid(ms);
    KeepsTheRest(ms);
    PlainSlots(b.order);
    forall id: string
      ensures ForObject(id) in b.order <==> Latest(ms, id).Some?
      ensures Latest(ms, id).Some? ==> b.held[ForObject(id)] == Latest(ms, id).value
    {
      HoldsLatest(ms, id);
    }
  }

  /** `spacePeerManager`'s queue for the global peers. */
  class Coalescer {
    var coalesced: map<Slot, Msg>
    var coalesceOrder: seq<Slot>
    var coalesceSeq: nat

    function Contents(): Batch
      reads this
    {
      Batch(coalesceOrder, coalesced, coalesceSeq)
    }

    constructor ()
      ensures Contents() == EMPTY_BATCH
    {
      coalesced, coalesceOrder, coalesceSeq := map[], [], 0;
    }

    /** `coalesce`: nothing is held while no global peer shares the space. */
    method Coalesce(msg: Msg, globalPeers: nat)
      modifies this
      ensures Contents() == if globalPeers == 0 then old(Contents()) else Coalesced(old(Contents()), msg)
    {
      if globalPeers == 0 { return; }
      var k: Slot;
      if msg.tree && msg.objectId != "" {
        k := ForObject(msg.objectId);
      } else {
        coalesceSeq := coalesceSeq + 1;
        k := Numbered(coalesceSeq);
      }
      if k !in coalesced { coalesceOrder := coalesceOrder + [k]; }
      coalesced := coalesced[k := msg];
    }

    /** The section of `flushCoalesced` under the lock. */
    method Flush() returns (batch: seq<Msg>)
      requires Valid(Contents())
      modifies this
      ensures batch == Flushed(old(Contents()))
      ensures coalesced == map[] && coalesceOrder == [] && Valid(Contents())
    {
      batch := [];
      for i := 0 to |coalesceOrder|
        invariant batch == Flushed(old(Contents()))[..i]
        invariant Contents() == old(Contents())
      {
        assert coalesceOrder[i] in coalesceOrder;
        batch := batch + [coalesced[coalesceOrder[i]]];
      }
      coalesced, coalesceOrder := map[], [];
    }
  }
}
