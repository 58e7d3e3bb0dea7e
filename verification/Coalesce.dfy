/** Grouping a page of the change history into maximal linear chains. */
module Coalesce {
  import opened Basics

  const SECOND := 1_000_000_000
  const DEFAULT_WINDOW := 300 * SECOND

  datatype Touched = Touched(dataset: string, record: string, ops: seq<string>)

  /** `ChangeMeta`. Timestamps are 64-bit seconds. */
  datatype Change = Change(version: string, author: string, timestamp: int, prevIds: seq<string>,
                           orderId: string, groupSize: int, touched: seq<Touched>, traceIds: seq<string>)

  /** Two's complement 64-bit wrap-around. */
  function Wrap64(x: int): (r: int)
    ensures -0x8000_0000_0000_0000 <= r < 0x8000_0000_0000_0000
    ensures -0x8000_0000_0000_0000 <= x < 0x8000_0000_0000_0000 ==> r == x
  {
    (x + 0x8000_0000_0000_0000) % 0x1_0000_0000_0000_0000 - 0x8000_0000_0000_0000
  }

  function Spread(newer: Change, older: Change): int {
    var delta := Wrap64(newer.timestamp - older.timestamp);
    if delta < 0 then Wrap64(-delta) else delta
  }

  /** `chainable`. */
  predicate Chainable(newer: Change, older: Change, window: int) {
    && newer.author == older.author
    && newer.prevIds == [older.version]
    && Wrap64(Spread(newer, older) * SECOND) <= window
  }

  function Occurrences(ids: seq<string>, id: string): nat {
    multiset(ids)[id]
  }

  /** How often the page names a change as a parent. */
  function Refs(page: seq<Change>, id: string): nat
    decreases |page|
  {
    if page == [] then 0 else Refs(page[..|page| - 1], id) + Occurrences(page[|page| - 1].prevIds, id)
  }

  /** Entry k and its older neighbour belong to one chain: the neighbour is its
      only parent, close by and by the same author, and no fork point. */
  predicate Link(page: seq<Change>, k: nat, window: int)
    requires k + 1 < |page|
  {
    Chainable(page[k], page[k + 1], window) && Refs(page, page[k + 1].version) <= 1
  }

  // ------------------------------------------------------------------- unions

  predicate NoDuplicates<T(==)>(s: seq<T>) {
    forall i, j :: 0 <= i < j < |s| ==> s[i] != s[j]
  }

  /** `unionStrings`. */
  method UnionStrings(dst: seq<string>, add: seq<string>) returns (out: seq<string>)
    ensures forall s :: s in out <==> s in dst || s in add
    ensures NoDuplicates(dst) ==> NoDuplicates(out)
    ensures dst <= out
  {
    out := dst;
    for i := 0 to |add|
      invariant forall s :: s in out <==> s in dst || s in add[..i]
      invariant NoDuplicates(dst) ==> NoDuplicates(out)
      invariant dst <= out
    {
      assert add[..i + 1] == add[..i] + [add[i]];
      var found := false;
      for j := 0 to |out|
        invariant found <==> add[i] in out[..j]
      {
        assert out[..j + 1] == out[..j] + [out[j]];
        if out[j] == add[i] {
          found := true;
          break;
        }
      }
      assert out[..|out|] == out;
      if !found { out := out + [add[i]]; }
    }
    assert add[..|add|] == add;
  }

  ghost predicate HasTrace(group: seq<Change>, s: string) {
    exists e :: e in group && s in e.traceIds
  }

  /** `unionTraces`. */
  method UnionTraces(group: seq<Change>) returns (out: seq<string>)
    ensures NoDuplicates(out) && forall s :: s in out <==> HasTrace(group, s)
  {
    out := [];
    for i := 0 to |group|
      invariant NoDuplicates(out) && forall s :: s in out <==> HasTrace(group[..i], s)
    {
      assert group[..i + 1] == group[..i] + [group[i]];
      assert forall e :: e in group[..i + 1] <==> e in group[..i] || e == group[i];
      out := UnionStrings(out, group[i].traceIds);
    }
    assert group[..|group|] == group;
  }

  /** Some member of the group touched this record with this op. */
  ghost predicate Touches(ts: seq<Touched>, dataset: string, record: string, op: string) {
    exists t :: t in ts && t.dataset == dataset && t.record == record && op in t.ops
  }

  ghost predicate Lists(ts: seq<Touched>, dataset: string, record: string) {
    exists t :: t in ts && t.dataset == dataset && t.record == record
  }

  function AllTouched(group: seq<Change>): seq<Touched>
    decreases |group|
  {
    if group == [] then [] else AllTouched(group[..|group| - 1]) + group[|group| - 1].touched
  }

  /** A union of touched records: one entry a record, with exactly the ops its
      parts list, none twice unless a part lists it twice. */
  ghost predicate IsUnion(parts: seq<Touched>, out: seq<Touched>) {
    && (forall i, j :: 0 <= i < j < |out| ==> out[i].dataset != out[j].dataset || out[i].record != out[j].record)
    && (forall d, r :: Lists(out, d, r) <==> Lists(parts, d, r))
    && (forall d, r, op :: Touches(out, d, r, op) <==> Touches(parts, d, r, op))
    && ((forall t :: t in parts ==> NoDuplicates(t.ops)) ==> forall t :: t in out ==> NoDuplicates(t.ops))
  }

  /** `seen` finds the entry of every record listed so far. */
  ghost predicate Indexed(out: seq<Touched>, seen: map<(string, string), nat>) {
    && (forall i :: 0 <= i < |out| ==> (out[i].dataset, out[i].record) in seen &&
                                       seen[(out[i].dataset, out[i].record)] == i)
    && (forall k :: k in seen ==> seen[k] < |out| && (out[seen[k]].dataset, out[seen[k]].record) == k)
  }

  /** Adding one part: to the entry of its record, or as a new entry. */
  ghost predicate AddsPart(out: seq<Touched>, tr: Touched, after: seq<Touched>) {
    || (exists k :: 0 <= k < |out| && MergedAt(out, tr, after, k))
    || (!Lists(out, tr.dataset, tr.record) && after == out + [tr])
  }

  ghost predicate MergedAt(out: seq<Touched>, tr: Touched, after: seq<Touched>, k: nat)
    requires k < |out|
  {
    && out[k].dataset == tr.dataset && out[k].record == tr.record
    && |after| == |out| && (forall i :: 0 <= i < |out| && i != k ==> after[i] == out[i])
    && after[k].dataset == tr.dataset && after[k].record == tr.record
    && (forall s :: s in after[k].ops <==> s in out[k].ops || s in tr.ops)
    && (NoDuplicates(out[k].ops) ==> NoDuplicates(after[k].ops))
  }

  lemma TouchesIn(ts: seq<Touched>, i: nat, op: string)
    requires i < |ts| && op in ts[i].ops
    ensures Touches(ts, ts[i].dataset, ts[i].record, op)
  {
    assert ts[i] in ts;
  }

  lemma ListsIn(ts: seq<Touched>, i: nat)
    requires i < |ts|
    ensures Lists(ts, ts[i].dataset, ts[i].record)
  {
    assert ts[i] in ts;
  }

  lemma MergeTouches(out: seq<Touched>, tr: Touched, after: seq<Touched>, k: nat, d: string, r: string, op: string)
    requires k < |out| && MergedAt(out, tr, after, k)
    ensures Touches(after, d, r, op) <==> Touches(out, d, r, op) || (tr.dataset == d && tr.record == r && op in tr.ops)
    ensures Lists(after, d, r) <==> Lists(out, d, r)
  {
    if t :| t in after && t.dataset == d && t.record == r {
      var i :| 0 <= i < |after| && after[i] == t;
      ListsIn(out, i);
    }
    if t :| t in out && t.dataset == d && t.record == r {
      var i :| 0 <= i < |out| && out[i] == t;
      ListsIn(after, i);
    }
    if t :| t in after && t.dataset == d && t.record == r && op in t.ops {
      var i :| 0 <= i < |after| && after[i] == t;
      if op in out[i].ops { TouchesIn(out, i, op); }
    }
    if t :| t in out && t.dataset == d && t.record == r && op in t.ops {
      var i :| 0 <= i < |out| && out[i] == t;
      TouchesIn(after, i, op);
    }
    if op in tr.ops { TouchesIn(after, k, op); }
  }

  lemma AppendTouches(ts: seq<Touched>, tr: Touched, d: string, r: string, op: string)
    ensures Touches(ts + [tr], d, r, op) <==>
            Touches(ts, d, r, op) || (tr.dataset == d && tr.record == r && op in tr.ops)
    ensures Lists(ts + [tr], d, r) <==> Lists(ts, d, r) || (tr.dataset == d && tr.record == r)
  {
    assert forall t :: t in ts + [tr] <==> t in ts || t == tr;
  }

  lemma UnionStep(parts: seq<Touched>, out: seq<Touched>, tr: Touched, after: seq<Touched>)
    requires IsUnion(parts, out) && AddsPart(out, tr, after)
    ensures IsUnion(parts + [tr], after)
  {
    assert forall t :: t in parts + [tr] <==> t in parts || t == tr;
    if k :| 0 <= k < |out| && MergedAt(out, tr, after, k) {
      ListsIn(out, k);
      forall d, r
        ensures Lists(after, d, r) <==> Lists(parts + [tr], d, r)
      {
        MergeTouches(out, tr, after, k, d, r, "");
        AppendTouches(parts, tr, d, r, "");
      }
      forall d, r, op
        ensures Touches(after, d, r, op) <==> Touches(parts + [tr], d, r, op)
      {
        MergeTouches(out, tr, after, k, d, r, op);
        AppendTouches(parts, tr, d, r, op);
      }
      MergeDuplicates(parts, out, tr, after, k);
    } else {
      forall d, r
        ensures Lists(after, d, r) <==> Lists(parts + [tr], d, r)
      {
        AppendTouches(out, tr, d, r, "");
        AppendTouches(parts, tr, d, r, "");
      }
      forall d, r, op
        ensures Touches(after, d, r, op) <==> Touches(parts + [tr], d, r, op)
      {
        AppendTouches(out, tr, d, r, op);
        AppendTouches(parts, tr, d, r, op);
      }
      AppendDistinct(parts, out, tr);
    }
  }

  lemma MergeDuplicates(parts: seq<Touched>, out: seq<Touched>, tr: Touched, after: seq<Touched>, k: nat)
    requires IsUnion(parts, out) && k < |out| && MergedAt(out, tr, after, k)
    ensures forall i, j :: 0 <= i < j < |after| ==>
              after[i].dataset != after[j].dataset || after[i].record != after[j].record
    ensures (forall t :: t in parts + [tr] ==> NoDuplicates(t.ops)) ==> forall t :: t in after ==> NoDuplicates(t.ops)
  {
    assert forall i :: 0 <= i < |out| ==> after[i].dataset == out[i].dataset && after[i].record == out[i].record;
    if forall t :: t in parts + [tr] ==> NoDuplicates(t.ops) {
      assert forall t :: t in parts ==> t in parts + [tr];
      forall t | t in after
        ensures NoDuplicates(t.ops)
      {
        var i :| 0 <= i < |after| && after[i] == t;
        assert out[i] in out;
      }
    }
  }

  lemma AppendDistinct(parts: seq<Touched>, out: seq<Touched>, tr: Touched)
    requires IsUnion(parts, out) && !Lists(out, tr.dataset, tr.record)
    ensures forall i, j :: 0 <= i < j < |out + [tr]| ==>
              (out + [tr])[i].dataset != (out + [tr])[j].dataset || (out + [tr])[i].record != (out + [tr])[j].record
    ensures (forall t :: t in parts + [tr] ==> NoDuplicates(t.ops)) ==>
              forall t :: t in out + [tr] ==> NoDuplicates(t.ops)
  {
    forall i | 0 <= i < |out|
      ensures out[i].dataset != tr.dataset || out[i].record != tr.record
    {
      ListsIn(out, i);
    }
    if forall t :: t in parts + [tr] ==> NoDuplicates(t.ops) {
      assert forall t :: t in parts ==> t in parts + [tr];
      assert tr in parts + [tr];
    }
  }

  /** The body of `unionTouched`'s inner loop. */
  method AddTouched(out: seq<Touched>, seen: map<(string, string), nat>, tr: Touched)
    returns (after: seq<Touched>, now: map<(string, string), nat>)
    requires Indexed(out, seen)
    ensures Indexed(after, now) && AddsPart(out, tr, after)
  {
    var k := (tr.dataset, tr.record);
    if k in seen {
      var idx := seen[k];
      var ops := UnionStrings(out[idx].ops, tr.ops);
      after, now := out[idx := out[idx].(ops := ops)], seen;
      assert MergedAt(out, tr, after, idx);
    } else {
      after, now := out + [tr], seen[k := |out|];
      forall t | t in out
        ensures (t.dataset, t.record) in seen
      {
        var i :| 0 <= i < |out| && out[i] == t;
      }
    }
  }

  /** `unionTouched`'s inner loop: the parts of one member. */
  method AddAll(out: seq<Touched>, seen: map<(string, string), nat>, ghost parts: seq<Touched>, touched: seq<Touched>)
    returns (after: seq<Touched>, now: map<(string, string), nat>)
    requires Indexed(out, seen) && IsUnion(parts, out)
    ensures Indexed(after, now) && IsUnion(parts + touched, after)
  {
    after, now := out, seen;
    assert parts + touched[..0] == parts;
    for j := 0 to |touched|
      invariant Indexed(after, now) && IsUnion(parts + touched[..j], after)
    {
      ghost var was := after;
      after, now := AddTouched(after, now, touched[j]);
      UnionStep(parts + touched[..j], was, touched[j], after);
      assert parts + touched[..j + 1] == parts + touched[..j] + [touched[j]];
    }
    assert touched[..|touched|] == touched;
  }

  /** `unionTouched`. */
  method UnionTouched(group: seq<Change>) returns (out: seq<Touched>)
    ensures IsUnion(AllTouched(group), out)
  {
    var seen: map<(string, string), nat> := map[];
    out := [];
    for i := 0 to |group|
      invariant IsUnion(AllTouched(group[..i]), out) && Indexed(out, seen)
    {
      assert group[..i + 1][..i] == group[..i];
      out, seen := AddAll(out, seen, AllTouched(group[..i]), group[i].touched);
    }
    assert group[..|group|] == group;
  }

  // -------------------------------------------------------------------- groups

  /** The entry that stands for page[lo..hi]: the head, with the oldest member's
      parents and cursor and the members' touched records and traces united. */
  ghost predicate IsGroup(page: seq<Change>, lo: nat, hi: nat, m: Change)
    requires lo < hi <= |page|
  {
    var head, oldest := page[lo], page[hi - 1];
    if hi - lo == 1 then m == head
    else
      && m.version == head.version && m.author == head.author && m.timestamp == head.timestamp
      && m.groupSize == hi - lo
      && m.prevIds == oldest.prevIds && m.orderId == oldest.orderId
      && IsUnion(AllTouched(page[lo..hi]), m.touched)
      && NoDuplicates(m.traceIds) && forall s :: s in m.traceIds <==> HasTrace(page[lo..hi], s)
  }

  /** The entries page[lo..hi] of one group. */
  datatype Span = Span(lo: nat, hi: nat)

  /** Spans that tile 0..n, in order and without gaps. */
  predicate Tiling(spans: seq<Span>, n: nat)
    decreases |spans|
  {
    if spans == [] then n == 0
    else
      var last := spans[|spans| - 1];
      last.lo < last.hi == n && Tiling(spans[..|spans| - 1], last.lo)
  }

  /** A maximal run: everything inside is linked, its end is not. */
  ghost predicate Run(page: seq<Change>, span: Span, window: int) {
    && span.lo < span.hi <= |page|
    && (forall k :: span.lo <= k < span.hi - 1 ==> Link(page, k, window))
    && (span.hi < |page| ==> !Link(page, span.hi - 1, window))
  }

  ghost predicate Grouped(page: seq<Change>, spans: seq<Span>, out: seq<Change>, window: int) {
    && |out| == |spans|
    && (forall g :: 0 <= g < |spans| ==> Run(page, spans[g], window))
    && (forall g :: 0 <= g < |spans| ==> IsGroup(page, spans[g].lo, spans[g].hi, out[g]))
  }

  /** The parent counts of the page. */
  method ParentRefs(page: seq<Change>) returns (refs: map<string, nat>)
    ensures forall id :: (if id in refs then refs[id] else 0) == Refs(page, id)
  {
    refs := map[];
    for i := 0 to |page|
      invariant forall id :: (if id in refs then refs[id] else 0) == Refs(page[..i], id)
    {
      assert page[..i + 1][..i] == page[..i];
      var ids := page[i].prevIds;
      for j := 0 to |ids|
        invariant forall id :: (if id in refs then refs[id] else 0) == Refs(page[..i], id) + Occurrences(ids[..j], id)
      {
        assert ids[..j + 1] == ids[..j] + [ids[j]];
        refs := refs[ids[j] := (if ids[j] in refs then refs[ids[j]] else 0) + 1];
      }
      assert ids[..|ids|] == ids;
    }
    assert page[..|page|] == page;
  }

  /** The inner loop: how far the chain from i reaches. */
  method OldestOf(page: seq<Change>, i: nat, window: int, refs: map<string, nat>) returns (oldest: nat)
    requires i < |page| && forall id :: (if id in refs then refs[id] else 0) == Refs(page, id)
    ensures i <= oldest && Run(page, Span(i, oldest + 1), window)
  {
    oldest := i;
    while oldest + 1 < |page|
      invariant i <= oldest < |page|
      invariant forall k :: i <= k < oldest ==> Link(page, k, window)
      decreases |page| - oldest
    {
      var newer, older := page[oldest], page[oldest + 1];
      if !Chainable(newer, older, window) || (older.version in refs && refs[older.version] > 1) { break; }
      oldest := oldest + 1;
    }
  }

  /** The entry for the group from i to oldest. */
  method GroupOf(page: seq<Change>, i: nat, oldest: nat) returns (m: Change)
    requires i <= oldest < |page|
    ensures IsGroup(page, i, oldest + 1, m)
  {
    m := page[i];
    if oldest > i {
      var touched := UnionTouched(page[i..oldest + 1]);
      var traces := UnionTraces(page[i..oldest + 1]);
      m := m.(groupSize := oldest - i + 1, prevIds := page[oldest].prevIds, orderId := page[oldest].orderId,
              touched := touched, traceIds := traces);
    }
  }

  /** The entries up to n are tiled by spans and grouped as out. */
  ghost predicate GroupedUpTo(page: seq<Change>, spans: seq<Span>, out: seq<Change>, n: nat, window: int) {
    n <= |page| && Tiling(spans, n) && Grouped(page, spans, out, window)
  }

  /** Entries k and k - 1 may not chain, or an entry other than k - 1 lists k as
      a parent. */
  ghost predicate Separate(page: seq<Change>, k: nat, window: int)
    requires 0 < k < |page|
  {
    || !Chainable(page[k - 1], page[k], window)
    || exists j :: 0 <= j < |page| && j != k - 1 && page[k].version in page[j].prevIds
  }

  /** Neighbours are split exactly where they are apart. */
  ghost predicate SplitsRight(page: seq<Change>, spans: seq<Span>, window: int) {
    forall k :: 0 < k < |page| ==> (StartsAt(spans, k) <==> Separate(page, k, window))
  }

  /** `Coalesce`. */
  method Coalesce(page: seq<Change>, opts: int) returns (out: seq<Change>)
    ensures var window := if opts > 0 then opts else 300 * SECOND;
            exists spans :: GroupedUpTo(page, spans, out, |page|, window) && SplitsRight(page, spans, window)
  {
    out := [];
    ghost var spans: seq<Span> := [];
    var window := if opts <= 0 then DEFAULT_WINDOW else opts;
    assert GroupedUpTo(page, spans, out, 0, window);
    if |page| == 0 {
      assert SplitsRight(page, spans, window);
      return;
    }
    var refs := ParentRefs(page);
    var i := 0;
    while i < |page|
      invariant GroupedUpTo(page, spans, out, i, window)
    {
      var oldest := OldestOf(page, i, window, refs);
      var m := GroupOf(page, i, oldest);
      ExtendGroups(page, spans, out, Span(i, oldest + 1), m, window);
      out, spans := out + [m], spans + [Span(i, oldest + 1)];
      i := oldest + 1;
    }
    forall k | 0 < k < |page|
      ensures StartsAt(spans, k) <==> Separate(page, k, window)
    {
      GroupsEndWhereLinksDo(page, spans, window, k);
    }
  }

  lemma ExtendGroups(page: seq<Change>, spans: seq<Span>, out: seq<Change>, span: Span, m: Change, window: int)
    requires GroupedUpTo(page, spans, out, span.lo, window)
    requires Run(page, span, window) && IsGroup(page, span.lo, span.hi, m)
    ensures GroupedUpTo(page, spans + [span], out + [m], span.hi, window)
  {
    assert (spans + [span])[..|spans|] == spans;
  }

  // ---------------------------------------------------------------- properties

  ghost predicate StartsAt(spans: seq<Span>, k: nat) {
    exists g :: 0 <= g < |spans| && spans[g].lo == k
  }

  lemma {:induction false} SpansBelow(spans: seq<Span>, n: nat)
    requires Tiling(spans, n)
    ensures forall g :: 0 <= g < |spans| ==> spans[g].lo < spans[g].hi <= n
    decreases |spans|
  {
    if spans != [] {
      var init, last := spans[..|spans| - 1], spans[|spans| - 1];
      SpansBelow(init, last.lo);
      forall g | 0 <= g < |spans|
        ensures spans[g].lo < spans[g].hi <= n
      {
        if g < |init| { assert spans[g] == init[g]; }
      }
    }
  }

  /** A group starts at an entry exactly when it may not chain with its newer
      neighbour, or another entry of the page lists it as a parent: the
      partition is the only one into maximal chains. */
  lemma GroupsEndWhereLinksDo(page: seq<Change>, spans: seq<Span>, window: int, k: nat)
    requires Tiling(spans, |page|) && 0 < k < |page|
    requires forall g :: 0 <= g < |spans| ==> Run(page, spans[g], window)
    ensures StartsAt(spans, k) <==> Separate(page, k, window)
  {
    StartsAtUnlinked(page, spans, |page|, window, k);
    LinkMeans(page, k - 1, window);
  }

  lemma {:induction false} StartsAtUnlinked(page: seq<Change>, spans: seq<Span>, n: nat, window: int, k: nat)
    requires Tiling(spans, n) && 0 < k < n <= |page|
    requires forall g :: 0 <= g < |spans| ==> Run(page, spans[g], window)
    ensures StartsAt(spans, k) <==> !Link(page, k - 1, window)
    decreases |spans|
  {
    var init, last := spans[..|spans| - 1], spans[|spans| - 1];
    SpansBelow(init, last.lo);
    assert forall g :: 0 <= g < |init| ==> spans[g] == init[g];
    assert Run(page, last, window);
    if k < last.lo {
      StartsAtUnlinked(page, init, last.lo, window, k);
      if g :| 0 <= g < |init| && init[g].lo == k { assert spans[g].lo == k; }
    } else if k == last.lo {
      var before := init[|init| - 1];
      assert before.hi == k && Run(page, spans[|init| - 1], window);
      assert spans[|init|].lo == k;
    } else {
      assert forall g :: 0 <= g < |init| ==> spans[g].lo < k;
    }
  }

  lemma {:induction false} AllTouches(group: seq<Change>, dataset: string, record: string, op: string)
    ensures Touches(AllTouched(group), dataset, record, op) <==>
            exists e :: e in group && Touches(e.touched, dataset, record, op)
    decreases |group|
  {
    if group != [] {
      var init, last := group[..|group| - 1], group[|group| - 1];
      assert forall e :: e in group <==> e in init || e == last;
      AllTouches(init, dataset, record, op);
      var a, b := AllTouched(init), last.touched;
      assert forall t :: t in a + b <==> t in a || t in b;
    }
  }

  /** What an entry of a grouped page shows: a group of several is named by its
      newest member, continues at its oldest one's parents and cursor, counts
      them, and touches and traces exactly what some member does; a change by
      itself is shown as it is. */
  lemma {:induction false} GroupShows(page: seq<Change>, spans: seq<Span>, out: seq<Change>, window: int, g: nat,
                                      dataset: string, record: string, op: string, trace: string)
    requires Grouped(page, spans, out, window) && g < |out|
    ensures var lo, hi := spans[g].lo, spans[g].hi;
            && lo < hi <= |page|
            && out[g].version == page[lo].version && out[g].author == page[lo].author
            && out[g].timestamp == page[lo].timestamp
            && out[g].prevIds == page[hi - 1].prevIds && out[g].orderId == page[hi - 1].orderId
            && (hi - lo > 1 ==> out[g].groupSize == hi - lo)
            && (Touches(out[g].touched, dataset, record, op) <==>
                  exists e :: e in page[lo..hi] && Touches(e.touched, dataset, record, op))
            && (trace in out[g].traceIds <==> exists e :: e in page[lo..hi] && trace in e.traceIds)
            && (hi - lo == 1 ==> out[g] == page[lo])
  {
    var lo, hi := spans[g].lo, spans[g].hi;
    assert Run(page, spans[g], window) && IsGroup(page, lo, hi, out[g]);
    if hi - lo == 1 {
      assert page[lo..hi] == [page[lo]];
    } else {
      AllTouches(page[lo..hi], dataset, record, op);
    }
  }

  /** And lists each record and each trace once. */
  lemma GroupListsOnce(page: seq<Change>, spans: seq<Span>, out: seq<Change>, window: int, g: nat, i: nat, j: nat)
    requires Grouped(page, spans, out, window) && g < |out| && spans[g].hi - spans[g].lo > 1 && i < j
    ensures j < |out[g].touched| ==>
              out[g].touched[i].dataset != out[g].touched[j].dataset ||
              out[g].touched[i].record != out[g].touched[j].record
    ensures j < |out[g].traceIds| ==> out[g].traceIds[i] != out[g].traceIds[j]
  {
    assert Run(page, spans[g], window) && IsGroup(page, spans[g].lo, spans[g].hi, out[g]);
  }

  function TotalSize(out: seq<Change>): int
    decreases |out|
  {
    if out == [] then 0 else TotalSize(out[..|out| - 1]) + out[|out| - 1].groupSize
  }

  /** For a page of raw changes the group sizes add up to the page. */
  lemma {:induction false} SizesAddUp(page: seq<Change>, spans: seq<Span>, out: seq<Change>, n: nat)
    requires Tiling(spans, n) && n <= |page| && |out| == |spans|
    requires forall e :: e in page ==> e.groupSize == 1
    requires forall g :: 0 <= g < |spans| ==>
               spans[g].lo < spans[g].hi <= |page| && IsGroup(page, spans[g].lo, spans[g].hi, out[g])
    ensures TotalSize(out) == n
    decreases |out|
  {
    if out != [] {
      var m := |out| - 1;
      assert page[spans[m].lo] in page;
      SizesAddUp(page, spans[..m], out[..m], spans[m].lo);
    }
  }

  /** Inside a group every member but the head is the sole parent of its newer
      neighbour, by the same author, and no other entry of the page lists it. */
  lemma MembersChain(page: seq<Change>, span: Span, window: int, k: nat)
    requires Run(page, span, window) && span.lo <= k && k + 1 < span.hi
    ensures page[k].prevIds == [page[k + 1].version] && page[k].author == page[k + 1].author
    ensures forall j :: 0 <= j < |page| && j != k ==> page[k + 1].version !in page[j].prevIds
  {
    assert Link(page, k, window);
    LinkMeans(page, k, window);
  }

  /** No entry but k lists its older neighbour as a parent. */
  ghost predicate SoleChild(page: seq<Change>, k: nat)
    requires k + 1 < |page|
  {
    forall j :: 0 <= j < |page| && j != k ==> page[k + 1].version !in page[j].prevIds
  }

  /** Neighbours are linked exactly when they may chain and no other entry lists
      the older one. */
  lemma LinkMeans(page: seq<Change>, k: nat, window: int)
    requires k + 1 < |page|
    ensures Link(page, k, window) <==> Chainable(page[k], page[k + 1], window) && SoleChild(page, k)
  {
    var id := page[k + 1].version;
    if Chainable(page[k], page[k + 1], window) {
      assert Occurrences(page[k].prevIds, id) == 1;
      forall j | 0 <= j < |page| && j != k
        ensures Link(page, k, window) ==> id !in page[j].prevIds
      {
        RefsOfTwo(page, if j < k then j else k, if j < k then k else j, id);
      }
      if SoleChild(page, k) { RefsOfOne(page, k, id); }
    }
  }

  lemma {:induction false} RefsAtLeast(page: seq<Change>, k: nat, id: string)
    requires k < |page|
    ensures Refs(page, id) >= Occurrences(page[k].prevIds, id)
    decreases |page|
  {
    if k < |page| - 1 { RefsAtLeast(page[..|page| - 1], k, id); }
  }

  lemma {:induction false} RefsOfTwo(page: seq<Change>, i: nat, j: nat, id: string)
    requires i < j < |page|
    ensures Refs(page, id) >= Occurrences(page[i].prevIds, id) + Occurrences(page[j].prevIds, id)
    decreases |page|
  {
    var init := page[..|page| - 1];
    if j < |page| - 1 { RefsOfTwo(init, i, j, id); } else { RefsAtLeast(init, i, id); }
  }

  lemma {:induction false} RefsOfNone(page: seq<Change>, id: string)
    requires forall j :: 0 <= j < |page| ==> id !in page[j].prevIds
    ensures Refs(page, id) == 0
    decreases |page|
  {
    if page != [] { RefsOfNone(page[..|page| - 1], id); }
  }

  lemma {:induction false} RefsOfOne(page: seq<Change>, k: nat, id: string)
    requires k < |page| && forall j :: 0 <= j < |page| && j != k ==> id !in page[j].prevIds
    ensures Refs(page, id) == Occurrences(page[k].prevIds, id)
    decreases |page|
  {
    var init := page[..|page| - 1];
    if k < |page| - 1 { RefsOfOne(init, k, id); } else { RefsOfNone(init, id); }
  }

  /** The window bounds the spread of neighbours whenever it is under 292
      years. */
  lemma WindowBoundsSpread(newer: Change, older: Change, window: int)
    requires -9_223_372_036 <= newer.timestamp - older.timestamp <= 9_223_372_036
    ensures Chainable(newer, older, window) <==>
            newer.author == older.author && newer.prevIds == [older.version] &&
            (newer.timestamp - older.timestamp) * SECOND <= window &&
            (older.timestamp - newer.timestamp) * SECOND <= window
  {}

  const TWO_63 := 0x8000_0000_0000_0000
  const TWO_64 := 0x1_0000_0000_0000_0000

  predicate Clock(t: int) {
    -TWO_63 <= t < TWO_63
  }

  /** How far apart two changes are, in seconds. */
  function Apart(newer: Change, older: Change): nat {
    var delta := newer.timestamp - older.timestamp;
    if delta < 0 then -delta else delta
  }

  lemma WrapMeans(x: int)
    ensures Wrap64(x) == if x % TWO_64 < TWO_63 then x % TWO_64 else x % TWO_64 - TWO_64
  {}

  lemma SpreadMeans(newer: Change, older: Change)
    requires Clock(newer.timestamp) && Clock(older.timestamp)
    ensures Apart(newer, older) < TWO_63 ==> Spread(newer, older) == Apart(newer, older)
  {}

  /** For any two changes of one author, parent and child, the grouping agrees
      with the window exactly when they lie inside it, or outside it with a
      number of nanoseconds that does not wrap into it or below zero. */
  lemma WindowHoldsIff(newer: Change, older: Change, window: int)
    requires Clock(newer.timestamp) && Clock(older.timestamp) && 0 < window < TWO_63
    requires newer.author == older.author && newer.prevIds == [older.version]
    ensures (Chainable(newer, older, window) <==> Apart(newer, older) * SECOND <= window) <==>
            Apart(newer, older) * SECOND <= window || window < Spread(newer, older) * SECOND % TWO_64 < TWO_63
  {
    SpreadMeans(newer, older);
    WrapMeans(Spread(newer, older) * SECOND);
  }

  /** Beyond that the nanoseconds wrap: changes 584 years apart group. */
  lemma FarApartChanges(newer: Change, older: Change)
    requires newer.author == older.author && newer.prevIds == [older.version]
    requires newer.timestamp - older.timestamp == 18_446_744_074
    ensures Chainable(newer, older, DEFAULT_WINDOW)
  {}
}
