/** The other half of convergence: a path the writes leave unsettled ends
    differently in two delivery orders, so settling every path is exactly what
    it takes for all orders to agree. */
module Exactness {
  import opened Basics
  import opened Values
  import opened Versions
  import opened Gated
  import opened Histories
  import opened Convergence

  /** ws delivers every write of the set once. */
  ghost predicate Delivers(ws: seq<Write>, all: set<Write>) {
    Distinct(ws) && Elements(ws) == all
  }

  /** The writes of a set, from older to newer. */
  ghost function Sorted(all: set<Write>): (ws: seq<Write>)
    ensures Delivers(ws, all) && Ascending(ws)
    decreases |all|
  {
    if all == {} then []
    else
      var newest := Newest(all);
      var rest := Sorted(all - {newest});
      NewestLast(all, rest, newest);
      rest + [newest]
  }

  lemma NewestLast(all: set<Write>, rest: seq<Write>, newest: Write)
    requires newest in all && (forall w :: w in all ==> w.ver <= newest.ver)
    requires Delivers(rest, all - {newest}) && Ascending(rest)
    ensures Delivers(rest + [newest], all) && Ascending(rest + [newest])
  {
    forall i | 0 <= i < |rest|
      ensures rest[i] != newest && rest[i].ver <= newest.ver
    {
      assert rest[i] in Elements(rest);
    }
    assert forall w :: w in rest + [newest] <==> w in rest || w == newest;
    assert Elements(rest + [newest]) == Elements(rest) + {newest};
  }

  ghost function Newest(all: set<Write>): (m: Write)
    requires all != {}
    ensures m in all && forall w :: w in all ==> w.ver <= m.ver
  {
    var vers := set w | w in all :: w.ver;
    var x :| x in all;
    assert x.ver in vers;
    assert forall w :: w in all ==> w.ver in vers;
    var m :| m in all && m.ver == SetMax(vers);
    m
  }

  /** Deliveries of disjoint parts, one after the other. */
  lemma DeliverParts(a: seq<Write>, b: seq<Write>, some: set<Write>, more: set<Write>)
    requires Delivers(a, some) && Delivers(b, more) && some !! more
    ensures Delivers(a + b, some + more)
  {
    var ws := a + b;
    forall i, j | 0 <= i < j < |ws|
      ensures ws[i] != ws[j]
    {
      if i < |a| <= j {
        assert a[i] in Elements(a) && b[j - |a|] in Elements(b);
      } else if |a| <= i {
        assert b[i - |a|] != b[j - |a|];
      } else {
        assert a[i] != a[j];
      }
    }
    forall w
      ensures w in Elements(ws) <==> w in some + more
    {
      assert w in ws <==> w in a || w in b;
    }
  }

  // --------------------------------------------------- paths that stay put

  /** Once q is an object under its newest covering write it stays one. */
  lemma {:induction false} StaysBranch(es: seq<Event>, rest: seq<Write>, q: Path)
    requires Proper(es) && q != [] && KindAt(Tree(Run(es)), q) == Branch
    requires Covered(Cover(Writes(es), q), rest, q)
    ensures Proper(es + Deliver(rest)) && KindAt(Tree(Run(es + Deliver(rest))), q) == Branch
    decreases |rest|
  {
    if rest == [] {
      assert es + Deliver(rest) == es;
    } else {
      var init, w := rest[..|rest| - 1], rest[|rest| - 1];
      assert rest == init + [w];
      CoveredLast(Cover(Writes(es), q), init, w, q);
      StaysBranch(es, init, q);
      CoverDelivered(es, init, q);
      BranchAppend(es + Deliver(init), w, q);
      DeliverLast(es, init, w);
    }
  }

  /** Proper writes of which none that covers q is newer than v. */
  ghost predicate Covered(v: Version, rest: seq<Write>, q: Path) {
    forall w :: w in rest ==> Nameable(w.path) && w.ver > 0 && (w.path <= q ==> w.ver <= v)
  }

  lemma CoveredLast(v: Version, init: seq<Write>, w: Write, q: Path)
    requires Covered(v, init + [w], q)
    ensures Covered(v, init, q) && Nameable(w.path) && w.ver > 0 && (w.path <= q ==> w.ver <= v)
  {
    assert forall x :: x in init + [w] <==> x in init || x == w;
  }

  lemma CoverDelivered(es: seq<Event>, ws: seq<Write>, q: Path)
    ensures Cover(Writes(es), q) <= Cover(Writes(es + Deliver(ws)), q)
  {
    WritesGrow(es, Deliver(ws));
    CoverGrows(Writes(es), Writes(es + Deliver(ws)), q);
  }

  lemma {:induction false} BranchAppend(es: seq<Event>, w: Write, q: Path)
    requires Proper(es) && q != [] && KindAt(Tree(Run(es)), q) == Branch && Nameable(w.path) && w.ver > 0
    requires w.path <= q ==> w.ver <= Cover(Writes(es), q)
    ensures Proper(es + [Apply(w)]) && KindAt(Tree(Run(es + [Apply(w)])), q) == Branch
  {
    RunAppend(es, Apply(w));
    RunTracks(es);
    BranchStep(Run(es), Writes(es), w, q);
  }

  lemma {:induction false} BranchStep(d: Doc, ws: set<Write>, w: Write, q: Path)
    requires Tracks(d, ws) && Nameable(w.path) && w.ver > 0 && q != []
    requires KindAt(Tree(d), q) == Branch && (w.path <= q ==> w.ver <= Cover(ws, q))
    ensures KindAt(Tree(Step(d, Apply(w))), q) == Branch
  {
    if Cover(ws, w.path) >= w.ver {
      CoveredWrite(d, ws, w);
    } else {
      PutKind(d, w.path, w.val, w.ver, q);
    }
  }

  lemma WritesGrow(a: seq<Event>, b: seq<Event>)
    ensures Writes(a + b) == Writes(a) + Writes(b)
  {
    assert forall e :: e in a + b <==> e in a || e in b;
  }

  lemma CoverGrows(a: set<Write>, b: set<Write>, q: Path)
    requires a <= b
    ensures Cover(a, q) <= Cover(b, q)
  {
    CoverFacts(a, q);
    CoverFacts(b, q);
  }

  /** A write that no longer matters at q, whatever comes before it: it is
      covered at its own path, or q is at least as new, or it lies elsewhere. */
  ghost predicate Inert(ws: set<Write>, w: Write, q: Path) {
    || Cover(ws, w.path) >= w.ver
    || (w.path <= q && Cover(ws, q) >= w.ver)
    || Incomparable(w.path, q)
  }

  /** A write that changes nothing at q: an inert one, or an unset below q with
      nothing as new around it. */
  ghost predicate Harmless(ws: set<Write>, w: Write, q: Path) {
    || Inert(ws, w, q)
    || (q < w.path && w.val.None? &&
        forall u :: u in ws && (u.path <= w.path || w.path <= u.path) ==> u.ver < w.ver)
  }

  lemma {:induction false} HarmlessStep(d: Doc, ws: set<Write>, w: Write, q: Path)
    requires Tracks(d, ws) && Nameable(w.path) && w.ver > 0 && q != [] && Harmless(ws, w, q)
    ensures KindAt(Tree(Step(d, Apply(w))), q) == KindAt(Tree(d), q)
  {
    if Cover(ws, w.path) >= w.ver {
      CoveredWrite(d, ws, w);
    } else {
      PutKind(d, w.path, w.val, w.ver, q);
      if q < w.path { TracksSub(d, ws, w.path, w.ver); }
    }
  }

  /** The write at i is proper, and harmless where it is delivered. */
  ghost predicate HarmlessAt(ws: set<Write>, rest: seq<Write>, i: nat, q: Path)
    requires i < |rest|
  {
    Nameable(rest[i].path) && rest[i].ver > 0 && Harmless(ws + Elements(rest[..i]), rest[i], q)
  }

  ghost predicate AllHarmless(ws: set<Write>, rest: seq<Write>, q: Path) {
    forall i :: 0 <= i < |rest| ==> HarmlessAt(ws, rest, i, q)
  }

  lemma AllHarmlessSplit(ws: set<Write>, rest: seq<Write>, q: Path) returns (part: seq<Write>, w: Write)
    requires rest != [] && AllHarmless(ws, rest, q)
    ensures rest == part + [w] && AllHarmless(ws, part, q)
    ensures Nameable(w.path) && w.ver > 0 && Harmless(ws + Elements(part), w, q)
  {
    var n := |rest| - 1;
    part, w := rest[..n], rest[n];
    assert HarmlessAt(ws, rest, n, q);
    forall i | 0 <= i < n
      ensures HarmlessAt(ws, part, i, q)
    {
      assert HarmlessAt(ws, rest, i, q);
      assert part[..i] == rest[..i];
    }
  }

  lemma {:induction false} HarmlessRun(es: seq<Event>, rest: seq<Write>, q: Path)
    requires Proper(es) && q != [] && AllHarmless(Writes(es), rest, q)
    ensures Proper(es + Deliver(rest))
    ensures KindAt(Tree(Run(es + Deliver(rest))), q) == KindAt(Tree(Run(es)), q)
    decreases |rest|
  {
    if rest == [] {
      assert es + Deliver(rest) == es;
    } else {
      var part, w := AllHarmlessSplit(Writes(es), rest, q);
      HarmlessRun(es, part, q);
      WritesDelivered(es, part);
      HarmlessAppend(es + Deliver(part), w, q);
      DeliverLast(es, part, w);
    }
  }

  lemma WritesDelivered(es: seq<Event>, ws: seq<Write>)
    ensures Writes(es + Deliver(ws)) == Writes(es) + Elements(ws)
  {
    WritesGrow(es, Deliver(ws));
    DeliverWrites(ws);
  }

  lemma DeliverLast(es: seq<Event>, ws: seq<Write>, w: Write)
    ensures es + Deliver(ws + [w]) == es + Deliver(ws) + [Apply(w)]
  {}

  lemma HarmlessAppend(es: seq<Event>, w: Write, q: Path)
    requires Proper(es) && Nameable(w.path) && w.ver > 0 && q != [] && Harmless(Writes(es), w, q)
    ensures Proper(es + [Apply(w)])
    ensures KindAt(Tree(Run(es + [Apply(w)])), q) == KindAt(Tree(Run(es)), q)
  {
    RunAppend(es, Apply(w));
    RunTracks(es);
    HarmlessStep(Run(es), Writes(es), w, q);
  }

  // ------------------------------------------------------ the quiet delivery

  /** The unsets strictly below q that are newer than everything covering it. */
  ghost function FinerUnsets(all: set<Write>, q: Path): set<Write> {
    set w | w in all && Finer(all, q, w) && w.val.None?
  }

  /** The newest covering write, if there is one. */
  ghost function Head(all: set<Write>, q: Path): (head: seq<Write>)
    ensures |head| <= 1 && forall t :: t in head ==> IsTop(all, q, t)
    ensures head == [] ==> forall t :: !IsTop(all, q, t)
  {
    if exists t :: IsTop(all, q, t) then
      var t :| IsTop(all, q, t);
      [t]
    else []
  }

  lemma HeadEmpty(all: set<Write>, q: Path)
    requires ProperSet(all) && Head(all, q) == []
    ensures forall w :: w in all ==> !(w.path <= q)
  {
    forall w | w in all
      ensures !(w.path <= q)
    {
      if w.path <= q { var t := TopExists(all, q, w); }
    }
  }

  lemma HeadKind(all: set<Write>, q: Path)
    requires ProperSet(all) && Separated(all) && q != []
    ensures var es := Deliver(Head(all, q));
            Proper(es) && KindAt(Tree(Run(es)), q) == TopKind(all, q)
  {
    var head := Head(all, q);
    if head == [] {
      assert Deliver(head) == [];
      HeadEmpty(all, q);
      TopNone(all, q);
      EmptyRun(q);
    } else {
      var t := head[0];
      EmptyTracks();
      assert Deliver(head) == [] + [Apply(t)];
      RunAppend([], Apply(t));
      CoverFacts({}, t.path);
      PutKind(EMPTY, t.path, t.val, t.ver, q);
      TracksSub(EMPTY, {}, q, t.ver);
      TopUnique(all, q, t);
    }
  }

  /** The newest covering write first, then the finer unsets from older to
      newer, then everything else: q holds what the covering write says,
      unless a live set lies below it. */
  lemma QuietDelivery(all: set<Write>, q: Path) returns (ws: seq<Write>)
    requires ProperSet(all) && Separated(all) && q != [] && !LiveBelow(all, q)
    ensures Delivers(ws, all) && Proper(Deliver(ws))
    ensures KindAt(Tree(Run(Deliver(ws))), q) == TopKind(all, q)
  {
    var unsets, others := QuietParts(all, q);
    ElementsParts(Head(all, q) + unsets, others);
    QuietOthers(all, q, unsets, others);
    DeliverThree(Head(all, q), unsets, others);
    ws := Head(all, q) + unsets + others;
  }

  lemma DeliverThree(a: seq<Write>, b: seq<Write>, c: seq<Write>)
    ensures Deliver(a + b + c) == Deliver(a) + Deliver(b) + Deliver(c)
  {}

  lemma ElementsParts(a: seq<Write>, b: seq<Write>)
    ensures Elements(b) <= Elements(a + b)
  {
    assert forall w :: w in b ==> w in a + b;
  }

  lemma QuietParts(all: set<Write>, q: Path) returns (unsets: seq<Write>, others: seq<Write>)
    requires ProperSet(all)
    ensures Delivers(unsets, FinerUnsets(all, q)) && Ascending(unsets)
    ensures Delivers(Head(all, q) + unsets + others, all)
  {
    var head, finer := Head(all, q), FinerUnsets(all, q);
    unsets := Sorted(finer);
    others := Sorted(all - Elements(head) - finer);
    DeliverParts(head, unsets, Elements(head), finer);
    DeliverParts(head + unsets, others, Elements(head) + finer, all - Elements(head) - finer);
    assert Elements(head) + finer + (all - Elements(head) - finer) == all;
  }

  lemma QuietUnsets(all: set<Write>, q: Path, unsets: seq<Write>)
    requires ProperSet(all) && Separated(all) && q != []
    requires Delivers(unsets, FinerUnsets(all, q)) && Ascending(unsets)
    ensures var es := Deliver(Head(all, q)) + Deliver(unsets);
            Proper(es) && KindAt(Tree(Run(es)), q) == TopKind(all, q)
  {
    HeadKind(all, q);
    DeliverWrites(Head(all, q));
    forall i | 0 <= i < |unsets|
      ensures HarmlessAt(Elements(Head(all, q)), unsets, i, q)
    {
      QuietUnset(all, q, unsets, i);
    }
    HarmlessRun(Deliver(Head(all, q)), unsets, q);
  }

  lemma QuietOthers(all: set<Write>, q: Path, unsets: seq<Write>, others: seq<Write>)
    requires ProperSet(all) && Separated(all) && q != [] && !LiveBelow(all, q)
    requires Delivers(unsets, FinerUnsets(all, q)) && Ascending(unsets) && Elements(others) <= all
    ensures var es := Deliver(Head(all, q)) + Deliver(unsets) + Deliver(others);
            Proper(es) && KindAt(Tree(Run(es)), q) == TopKind(all, q)
  {
    var es := Deliver(Head(all, q)) + Deliver(unsets);
    QuietUnsets(all, q, unsets);
    DeliverWrites(Head(all, q));
    WritesDelivered(Deliver(Head(all, q)), unsets);
    QuietOthersHarmless(all, q, Writes(es), others);
    HarmlessRun(es, others, q);
  }

  lemma QuietOthersHarmless(all: set<Write>, q: Path, early: set<Write>, others: seq<Write>)
    requires ProperSet(all) && Separated(all) && !LiveBelow(all, q) && Elements(others) <= all
    requires early == Elements(Head(all, q)) + FinerUnsets(all, q)
    ensures AllHarmless(early, others, q)
  {
    forall i | 0 <= i < |others|
      ensures HarmlessAt(early, others, i, q)
    {
      assert others[i] in Elements(others);
      QuietOther(all, q, early, others[i]);
      InertMore(early, Elements(others[..i]), others[i], q);
    }
  }

  lemma QuietUnset(all: set<Write>, q: Path, unsets: seq<Write>, i: nat)
    requires ProperSet(all) && Separated(all)
    requires Delivers(unsets, FinerUnsets(all, q)) && Ascending(unsets) && i < |unsets|
    ensures Nameable(unsets[i].path) && unsets[i].ver > 0
    ensures Harmless(Elements(Head(all, q)) + Elements(unsets[..i]), unsets[i], q)
  {
    var w := unsets[i];
    assert w in Elements(unsets);
    assert w in FinerUnsets(all, q);
    CoverFacts(all, q);
    var before := Elements(Head(all, q)) + Elements(unsets[..i]);
    forall u | u in before && (u.path <= w.path || w.path <= u.path)
      ensures u.ver < w.ver
    {
      if u !in Head(all, q) {
        var j :| 0 <= j < i && unsets[j] == u;
        assert u in Elements(unsets);
        assert u in FinerUnsets(all, q);
      }
    }
  }

  lemma QuietOther(all: set<Write>, q: Path, early: set<Write>, w: Write)
    requires ProperSet(all) && Separated(all) && !LiveBelow(all, q) && w in all
    requires early == Elements(Head(all, q)) + FinerUnsets(all, q)
    ensures Inert(early, w, q)
  {
    CoverFacts(all, q);
    CoverFacts(early, q);
    CoverFacts(early, w.path);
    if Head(all, q) == [] { HeadEmpty(all, q); }
    if w.path <= q || (q < w.path && w.ver <= Cover(all, q)) {
      var t := Head(all, q)[0];
      assert t in early;
    } else if q < w.path && w.val.Some? {
      assert Finer(all, q, w) && !Undominated(all, w);
      var u := Dominator(all, q, w);
      assert u in early;
    }
  }

  /** The newest write covering a dominated finer one is itself finer, and an
      unset when no live set lies below q. */
  lemma Dominator(all: set<Write>, q: Path, w: Write) returns (u: Write)
    requires ProperSet(all) && !LiveBelow(all, q) && Finer(all, q, w)
    ensures u in FinerUnsets(all, q) && u.path <= w.path && w.ver <= u.ver
  {
    CoverFacts(all, q);
    u := TopExists(all, w.path, w);
    PrefixesOf(u.path, q, w.path);
    assert Undominated(all, u);
    assert Finer(all, q, u);
  }

  lemma InertMore(ws: set<Write>, more: set<Write>, w: Write, q: Path)
    requires Inert(ws, w, q)
    ensures Inert(ws + more, w, q)
  {
    CoverGrows(ws, ws + more, q);
    CoverGrows(ws, ws + more, w.path);
  }

  // ------------------------------------------------------- the loud delivery

  /** A newer finer write delivered before the newest covering one leaves an
      object at q; so does a set below an uncovered q, and so does an unset
      older than a finer one. */
  lemma LoudDelivery(all: set<Write>, q: Path) returns (ws: seq<Write>)
    requires ProperSet(all) && Separated(all) && q != [] && !Shaped(all, q)
    ensures Delivers(ws, all) && Proper(Deliver(ws))
    ensures KindAt(Tree(Run(Deliver(ws))), q) == Branch
  {
    var first := LoudFirst(all, q);
    ws := LoudOrder(all, q, first);
  }

  lemma LoudOrder(all: set<Write>, q: Path, first: seq<Write>) returns (ws: seq<Write>)
    requires ProperSet(all) && q != [] && Elements(first) <= all && Distinct(first)
    requires Proper(Deliver(first)) && KindAt(Tree(Run(Deliver(first))), q) == Branch
    requires Cover(Elements(first), q) == Cover(all, q)
    ensures Delivers(ws, all) && Proper(Deliver(ws))
    ensures KindAt(Tree(Run(Deliver(ws))), q) == Branch
  {
    var rest := Sorted(all - Elements(first));
    LoudRest(all, q, first, rest);
    DeliverParts(first, rest, Elements(first), all - Elements(first));
    assert Elements(first) + (all - Elements(first)) == all;
    DeliverThree(first, rest, []);
    ws := first + rest + [];
    assert ws == first + rest && Deliver([]) == [];
    assert Deliver(ws) == Deliver(first) + Deliver(rest);
  }

  lemma LoudRest(all: set<Write>, q: Path, first: seq<Write>, rest: seq<Write>)
    requires ProperSet(all) && q != [] && Elements(rest) <= all
    requires Proper(Deliver(first)) && KindAt(Tree(Run(Deliver(first))), q) == Branch
    requires Cover(Elements(first), q) == Cover(all, q)
    ensures Proper(Deliver(first) + Deliver(rest))
    ensures KindAt(Tree(Run(Deliver(first) + Deliver(rest))), q) == Branch
  {
    DeliverWrites(first);
    CoverFacts(all, q);
    forall w | w in rest
      ensures w in all
    {
      assert w in Elements(rest);
    }
    StaysBranch(Deliver(first), rest, q);
  }

  lemma LoudFirst(all: set<Write>, q: Path) returns (first: seq<Write>)
    requires ProperSet(all) && Separated(all) && q != [] && !Shaped(all, q)
    ensures Elements(first) <= all && Distinct(first)
    ensures Proper(Deliver(first)) && KindAt(Tree(Run(Deliver(first))), q) == Branch
    ensures Cover(Elements(first), q) == Cover(all, q)
  {
    if Head(all, q) != [] {
      first := LoudCovered(all, q, Head(all, q)[0]);
    } else {
      HeadEmpty(all, q);
      TopNone(all, q);
      if s :| s in all && q < s.path && s.val.Some? {
        first := LoudSet(all, q, s);
      } else {
        var u, w :| u in all && w in all && q < u.path < w.path && u.ver < w.ver;
        first := LoudUnsets(all, q, u, w);
      }
    }
  }

  lemma LoudSet(all: set<Write>, q: Path, s: Write) returns (first: seq<Write>)
    requires ProperSet(all) && q != [] && (forall w :: w in all ==> !(w.path <= q))
    requires s in all && q < s.path && s.val.Some?
    ensures Elements(first) <= all && Distinct(first)
    ensures Proper(Deliver(first)) && KindAt(Tree(Run(Deliver(first))), q) == Branch
    ensures Cover(Elements(first), q) == Cover(all, q)
  {
    OneWrite(s);
    LoudOne(s, q);
    first := [s];
    TopNone(all, q);
    TopNone({s}, q);
  }

  lemma LoudUnsets(all: set<Write>, q: Path, u: Write, w: Write) returns (first: seq<Write>)
    requires ProperSet(all) && q != [] && (forall x :: x in all ==> !(x.path <= q))
    requires u in all && w in all && q < u.path < w.path && u.ver < w.ver
    ensures Elements(first) <= all && Distinct(first)
    ensures Proper(Deliver(first)) && KindAt(Tree(Run(Deliver(first))), q) == Branch
    ensures Cover(Elements(first), q) == Cover(all, q)
  {
    TwoWrites(w, u);
    LoudTwo(w, u, q);
    first := [w, u];
    TopNone(all, q);
    TopNone({w, u}, q);
  }

  lemma LoudCovered(all: set<Write>, q: Path, t: Write) returns (first: seq<Write>)
    requires ProperSet(all) && q != [] && !NoFiner(all, q) && IsTop(all, q, t)
    ensures Elements(first) <= all && Distinct(first)
    ensures Proper(Deliver(first)) && KindAt(Tree(Run(Deliver(first))), q) == Branch
    ensures Cover(Elements(first), q) == Cover(all, q)
  {
    CoverFacts(all, q);
    var s :| Finer(all, q, s);
    TwoWrites(s, t);
    LoudTwo(s, t, q);
    first := [s, t];
    CoverFacts({s, t}, q);
    assert IsTop({s, t}, q, t);
  }

  lemma OneWrite(s: Write)
    ensures Elements([s]) == {s} && Deliver([s]) == [] + [Apply(s)]
  {}

  lemma TwoWrites(s: Write, t: Write)
    ensures Elements([s, t]) == {s, t} && Deliver([s, t]) == [] + [Apply(s)] + [Apply(t)]
  {}

  lemma LoudOne(s: Write, q: Path)
    requires Nameable(s.path) && s.ver > 0 && q != [] && q < s.path && s.val.Some?
    ensures var es := [] + [Apply(s)];
            Proper(es) && KindAt(Tree(Run(es)), q) == Branch
  {
    EmptyTracks();
    RunAppend([], Apply(s));
    CoverFacts({}, s.path);
    PutKind(EMPTY, s.path, s.val, s.ver, q);
  }

  /** A finer newer write s before t, where t covers q or is an unset between
      q and s. */
  lemma LoudTwo(s: Write, t: Write, q: Path)
    requires Nameable(s.path) && s.ver > 0 && Nameable(t.path) && t.ver > 0 && q != []
    requires t.ver < s.ver && q < s.path && t.path < s.path
    requires t.path <= q || q < t.path
    ensures var es := [] + [Apply(s)] + [Apply(t)];
            Proper(es) && KindAt(Tree(Run(es)), q) == Branch
  {
    var one: seq<Event> := [] + [Apply(s)];
    RunAppend([], Apply(s));
    RunAppend(one, Apply(t));
    RunTracks(one);
    var d := Run(one);
    assert Writes(one) == {s};
    CoverFacts({s}, t.path);
    CoverFacts({s}, q);
    TracksSub(d, {s}, q, t.ver);
    TracksSub(d, {s}, t.path, t.ver);
    PutKind(d, t.path, t.val, t.ver, q);
  }

  // ------------------------------------------------------ the lossy delivery

  /** A level's default, then something newer below it, then the newest write
      covering q: the merge drops what that write holds at q, and no other
      write brings it back. */
  lemma LossyDelivery(all: set<Write>, q: Path) returns (ws: seq<Write>)
    requires ProperSet(all) && Separated(all) && Lossy(all, q)
    ensures Delivers(ws, all) && Proper(Deliver(ws))
    ensures KindAt(Tree(Run(Deliver(ws))), q) == Nothing
  {
    var u, f, t := LossyStart(all, q);
    var first := [u, f, t];
    assert Elements(first) == {u, f, t};
    LossyHasStar(all, q);
    ws := LossyOrder(all, q, first, t);
  }

  lemma LossyStart(all: set<Write>, q: Path) returns (u: Write, f: Write, t: Write)
    requires ProperSet(all) && Lossy(all, q)
    ensures {u, f, t} <= all && Distinct([u, f, t]) && IsTop(all, q, t)
    ensures Proper(Deliver([u, f, t])) && KindAt(Tree(Run(Deliver([u, f, t]))), q) == Nothing
  {
    var i: nat;
    i, u, f :| Squeezed(all, q, i, u, f);
    t := TopExists(all, q, u);
    OffTheWay(q, i, f.path);
    LossyFirst(q, i, u, f, t);
  }

  lemma LossyOrder(all: set<Write>, q: Path, first: seq<Write>, t: Write) returns (ws: seq<Write>)
    requires ProperSet(all) && STAR in q && Elements(first) <= all && Distinct(first)
    requires t in first && IsTop(all, q, t)
    requires Proper(Deliver(first)) && KindAt(Tree(Run(Deliver(first))), q) == Nothing
    ensures Delivers(ws, all) && Proper(Deliver(ws))
    ensures KindAt(Tree(Run(Deliver(ws))), q) == Nothing
  {
    var rest := Sorted(all - Elements(first));
    LossyRest(all, q, first, t, rest);
    DeliverParts(first, rest, Elements(first), all - Elements(first));
    assert Elements(first) + (all - Elements(first)) == all;
    DeliverTwo(first, rest);
    ws := first + rest;
  }

  lemma DeliverTwo(a: seq<Write>, b: seq<Write>)
    ensures Deliver(a + b) == Deliver(a) + Deliver(b)
  {}

  /** A named path under a level is not on the way through the key `*`. */
  lemma OffTheWay(q: Path, i: nat, p: Path)
    requires i < |q| && q[i] == STAR && q[..i] < p && Nameable(p)
    ensures Incomparable(p, q)
  {
    assert p[i] in p;
  }

  lemma ThreeWrites(u: Write, f: Write, t: Write)
    ensures Deliver([u, f, t]) == [] + [Apply(u)] + [Apply(f)] + [Apply(t)]
  {}

  lemma LossyTwo(q: Path, i: nat, u: Write, f: Write) returns (es: seq<Event>)
    requires Nameable(u.path) && u.ver > 0 && Nameable(f.path) && f.ver > 0
    requires i < |q| && q[i] == STAR && u.path <= q[..i] && q[..i] < f.path && u.ver < f.ver
    ensures es == [] + [Apply(u)] + [Apply(f)] && Proper(es) && Writes(es) == {u, f}
    ensures Tracks(Run(es), {u, f}) && Dropped(Run(es).ver, q)
  {
    var one: seq<Event> := [] + [Apply(u)];
    RunAppend([], Apply(u));
    RunAppend(one, Apply(f));
    es := one + [Apply(f)];
    RunTracks(es);
    assert Writes(es) == {u, f};
    LossyLevel(Run(es), q, i, u, f);
  }

  lemma LossyLevel(d: Doc, q: Path, i: nat, u: Write, f: Write)
    requires Tracks(d, {u, f}) && u.ver > 0
    requires i < |q| && q[i] == STAR && u.path <= q[..i] && q[..i] < f.path && u.ver < f.ver
    ensures Dropped(d.ver, q)
  {
    CoverFacts({u, f}, q[..i]);
    CoverFacts({u, f}, f.path);
    DroppedIf(d.ver, q, i, f.path);
  }

  lemma LossyFirst(q: Path, i: nat, u: Write, f: Write, t: Write)
    requires ProperSet({u, f, t}) && i < |q| && q[i] == STAR
    requires u.path <= q[..i] && q[..i] < f.path && u.ver < f.ver
    requires Incomparable(f.path, q) && t.path <= q && u.ver < t.ver
    ensures Proper(Deliver([u, f, t])) && KindAt(Tree(Run(Deliver([u, f, t]))), q) == Nothing
  {
    var es := LossyTwo(q, i, u, f);
    ThreeWrites(u, f, t);
    RunAppend(es, Apply(t));
    DroppedByTop(Run(es), q, u, f, t);
  }

  lemma DroppedByTop(d: Doc, q: Path, u: Write, f: Write, t: Write)
    requires Tracks(d, {u, f}) && Dropped(d.ver, q) && q != []
    requires Nameable(t.path) && t.ver > 0 && t.path <= q && u.ver < t.ver && Incomparable(f.path, q)
    ensures KindAt(Tree(Step(d, Apply(t))), q) == Nothing
  {
    assert !(f.path <= t.path);
    CoverFacts({u, f}, t.path);
    CoverFacts({u, f}, q);
    TracksSub(d, {u, f}, q, t.ver);
    PutKind(d, t.path, t.val, t.ver, q);
  }

  lemma LossyRest(all: set<Write>, q: Path, first: seq<Write>, t: Write, rest: seq<Write>)
    requires ProperSet(all) && STAR in q && Elements(rest) <= all
    requires t in first && IsTop(all, q, t)
    requires Proper(Deliver(first)) && KindAt(Tree(Run(Deliver(first))), q) == Nothing
    ensures Proper(Deliver(first) + Deliver(rest))
    ensures KindAt(Tree(Run(Deliver(first) + Deliver(rest))), q) == Nothing
  {
    DeliverWrites(first);
    StarHasNoFiner(all, q);
    forall i | 0 <= i < |rest|
      ensures HarmlessAt(Elements(first), rest, i, q)
    {
      assert rest[i] in Elements(rest);
      var before := Elements(first) + Elements(rest[..i]);
      assert t in before;
      CoverFacts(before, q);
    }
    HarmlessRun(Deliver(first), rest, q);
  }

  // ----------------------------------------------------------------- theorems

  /** All delivery orders of a set of writes leave the same tree. */
  ghost predicate AllOrdersAgree(all: set<Write>)
    requires ProperSet(all)
  {
    forall a, b :: Delivers(a, all) && Delivers(b, all) ==>
      Proper(Deliver(a)) && Proper(Deliver(b)) && Run(Deliver(a)).fields == Run(Deliver(b)).fields
  }

  /** Every delivery order leaves the same value tree exactly when every path
      is settled. */
  lemma AgreeIffSettled(all: set<Write>)
    requires ProperSet(all) && Separated(all)
    ensures AllOrdersAgree(all) <==> forall q: Path :: q != [] ==> Settled(all, q)
  {
    if forall q: Path :: q != [] ==> Settled(all, q) {
      SettledAgree(all);
    } else {
      var q: Path :| q != [] && !Settled(all, q);
      UnsettledDisagree(all, q);
    }
  }

  lemma SettledAgree(all: set<Write>)
    requires ProperSet(all) && Separated(all)
    requires forall q: Path :: q != [] ==> Settled(all, q)
    ensures AllOrdersAgree(all)
  {
    forall a, b | Delivers(a, all) && Delivers(b, all)
      ensures Proper(Deliver(a)) && Proper(Deliver(b)) && Run(Deliver(a)).fields == Run(Deliver(b)).fields
    {
      DeliversProper(a, all);
      DeliversProper(b, all);
      SettledConverge(Deliver(a), Deliver(b));
    }
  }

  /** Two orders that differ at q. */
  lemma UnsettledOrders(all: set<Write>, q: Path) returns (a: seq<Write>, b: seq<Write>)
    requires ProperSet(all) && Separated(all) && q != [] && !Settled(all, q)
    ensures Delivers(a, all) && Proper(Deliver(a)) && Delivers(b, all) && Proper(Deliver(b))
    ensures KindAt(Tree(Run(Deliver(a))), q) == TopKind(all, q)
    ensures KindAt(Tree(Run(Deliver(b))), q) == (if Shaped(all, q) then Nothing else Branch)
    ensures KindAt(Tree(Run(Deliver(a))), q) != KindAt(Tree(Run(Deliver(b))), q)
  {
    if Shaped(all, q) {
      b := LossyDelivery(all, q);
      LossyHasStar(all, q);
      StarHasNoFiner(all, q);
    } else {
      b := LoudDelivery(all, q);
    }
    a := QuietDelivery(all, q);
  }

  lemma UnsettledDisagree(all: set<Write>, q: Path)
    requires ProperSet(all) && Separated(all) && q != [] && !Settled(all, q)
    ensures !AllOrdersAgree(all)
  {
    var a, b := UnsettledOrders(all, q);
  }

  lemma DeliversProper(ws: seq<Write>, all: set<Write>)
    requires ProperSet(all) && Delivers(ws, all)
    ensures Proper(Deliver(ws)) && Writes(Deliver(ws)) == all
  {
    DeliverWrites(ws);
    forall e | e in Deliver(ws)
      ensures e.Apply? && Nameable(e.w.path) && e.w.ver > 0
    {
      var i :| 0 <= i < |ws| && Deliver(ws)[i] == e;
      assert ws[i] in Elements(ws);
    }
  }

  /** For `$set` alone the orders agree exactly when none drops a key `*`. */
  lemma SetsAgreeIff(all: set<Write>)
    requires ProperSet(all) && Separated(all) && OnlySets(all)
    ensures AllOrdersAgree(all) <==> NothingLost(all)
  {
    AgreeIffSettled(all);
    forall q: Path
      ensures Settled(all, q) <==> !StarLost(all, q)
    {
      SetsSettle(all, q);
    }
  }

  ghost predicate AllOrdersOverwrite(all: set<Write>, ordered: seq<Write>)
    requires ProperSet(all) && OnlySets(all) && Delivers(ordered, all)
  {
    OrderedSets(all, ordered);
    forall a :: Delivers(a, all) ==> Proper(Deliver(a)) && Run(Deliver(a)).fields == Overwrite(ordered)
  }

  lemma OrderedSets(all: set<Write>, ordered: seq<Write>)
    requires ProperSet(all) && OnlySets(all) && Delivers(ordered, all)
    ensures forall w :: w in ordered ==> Nameable(w.path) && w.ver > 0 && w.val.Some?
  {
    assert forall w :: w in ordered ==> w in Elements(ordered);
  }

  /** And exactly then do all of them leave what overwriting from oldest to
      newest leaves. */
  lemma OverwriteIff(all: set<Write>, ordered: seq<Write>)
    requires ProperSet(all) && Separated(all) && OnlySets(all)
    requires Delivers(ordered, all) && Ascending(ordered)
    ensures AllOrdersOverwrite(all, ordered) <==> NothingLost(all)
  {
    OrderedSets(all, ordered);
    if NothingLost(all) {
      forall a | Delivers(a, all)
        ensures Proper(Deliver(a)) && Run(Deliver(a)).fields == Overwrite(ordered)
      {
        DeliversProper(a, all);
        SetsAreLastWriterWins(Deliver(a), ordered);
      }
    } else {
      var q: Path :| StarLost(all, q);
      var a := LossyDelivery(all, q);
      LossyHasStar(all, q);
      InOrderOverwrites(ordered, q);
    }
  }

  ghost predicate AllOrdersAgreePruned(all: set<Write>)
    requires ProperSet(all)
  {
    forall a, b :: Delivers(a, all) && Delivers(b, all) ==>
      Proper(Deliver(a)) && Proper(Deliver(b)) &&
      Pruned(Object(Run(Deliver(a)).fields)) == Pruned(Object(Run(Deliver(b)).fields))
  }

  /** Without a scalar above another write's path, the orders agree up to empty
      objects exactly when none drops a scalar. */
  lemma PrunedAgreeIff(all: set<Write>)
    requires ProperSet(all) && Separated(all) && NoScalarAbove(all)
    ensures AllOrdersAgreePruned(all) <==> NoLeafLost(all)
  {
    if NoLeafLost(all) {
      forall a, b | Delivers(a, all) && Delivers(b, all)
        ensures Proper(Deliver(a)) && Proper(Deliver(b)) &&
                Pruned(Object(Run(Deliver(a)).fields)) == Pruned(Object(Run(Deliver(b)).fields))
      {
        DeliversProper(a, all);
        DeliversProper(b, all);
        PrunedConverge(Deliver(a), Deliver(b));
      }
    } else {
      LeafLostDisagree(all);
    }
  }

  lemma LeafLostDisagree(all: set<Write>)
    requires ProperSet(all) && Separated(all) && !NoLeafLost(all)
    ensures !AllOrdersAgreePruned(all)
  {
    var q: Path :| Lossy(all, q) && TopKind(all, q).Leaf?;
    var a, b := UnsettledOrders(all, q);
    var x, y := Object(Run(Deliver(a)).fields), Object(Run(Deliver(b)).fields);
    PrunedKind(x, q);
    PrunedKind(y, q);
    LossyHasStar(all, q);
    StarHasNoFiner(all, q);
    assert KindAt(Pruned(x), q) == Leaf(TopKind(all, q).scalar);
    assert KindAt(Pruned(y), q) != Leaf(TopKind(all, q).scalar);
  }

  // ------------------------------------------------------- smallest examples

  /** `a = 5` then `$unset a.b` keeps 5; the reverse order leaves `{}`. */
  lemma ScalarAboveUnset(a: Key, b: Key)
    requires a != STAR && b != STAR
    ensures var all := {Write([a], Some(Atom(5)), 1), Write([a, b], None, 2)};
            ProperSet(all) && Separated(all) && !AllOrdersAgree(all)
  {
    var set1, unset2 := Write([a], Some(Atom(5)), 1), Write([a, b], None, 2);
    var all := {set1, unset2};
    OnlyUnsetBelow(all, [a], unset2);
    assert IsTop(all, [a], set1);
    TopUnique(all, [a], set1);
    assert set1.path <= [a];
    UnsettledDisagree(all, [a]);
  }

  /** `$set a.b` then `$unset a.b` keeps an empty `a`; the reverse order leaves
      nothing. */
  lemma UnsetLeavesShell(a: Key, b: Key, x: Value)
    requires a != STAR && b != STAR
    ensures var all := {Write([a, b], Some(x), 1), Write([a, b], None, 2)};
            ProperSet(all) && Separated(all) && !AllOrdersAgree(all)
  {
    var set1, unset2 := Write([a, b], Some(x), 1), Write([a, b], None, 2);
    var all := {set1, unset2};
    TopNone(all, [a]);
    OnlyUnsetBelow(all, [a], unset2);
    assert set1 in all && [a] < set1.path;
    UnsettledDisagree(all, [a]);
  }

  /** `$set a = {b: x}` at 1, `$set a.b = x` at 2, then `$set a = {"*": x}` at 3
      leaves `a` empty; from newest to oldest `a` keeps the key. */
  lemma StarKeyIsLost(a: Key, b: Key, x: int)
    requires a != STAR && b != STAR
    ensures var u := Write([a], Some(Object(map[b := Atom(x)])), 1);
            var f := Write([a, b], Some(Atom(x)), 2);
            var t := Write([a], Some(Object(map[STAR := Atom(x)])), 3);
            && ProperSet({u, f, t}) && Separated({u, f, t}) && OnlySets({u, f, t})
            && Proper(Deliver([u, f, t])) && Proper(Deliver([t, f, u]))
            && KindAt(Tree(Run(Deliver([u, f, t]))), [a, STAR]) == Nothing
            && KindAt(Tree(Run(Deliver([t, f, u]))), [a, STAR]) == Leaf(Atom(x))
            && !AllOrdersAgree({u, f, t})
  {
    var u := Write([a], Some(Object(map[b := Atom(x)])), 1);
    var f := Write([a, b], Some(Atom(x)), 2);
    var t := Write([a], Some(Object(map[STAR := Atom(x)])), 3);
    StarKeyWrites(a, b, u, f, t);
    StarKeyDropped(a, b, u, f, t);
    StarKeyKept({u, f, t}, [a, STAR], u, f, t);
    StarKeyTop({u, f, t}, a, x, t);
    UnsettledDisagree({u, f, t}, [a, STAR]);
  }

  lemma StarKeyTop(all: set<Write>, a: Key, x: int, t: Write)
    requires Separated(all) && IsTop(all, [a, STAR], t)
    requires t.path == [a] && t.val == Some(Object(map[STAR := Atom(x)]))
    ensures TopKind(all, [a, STAR]) == Leaf(Atom(x))
  {
    TopUnique(all, [a, STAR], t);
    assert [a, STAR][1..] == [STAR];
    AtKey(t.val, STAR);
  }

  lemma StarKeyWrites(a: Key, b: Key, u: Write, f: Write, t: Write)
    requires a != STAR && b != STAR
    requires u.path == t.path == [a] && f.path == [a, b] && u.ver == 1 && f.ver == 2 && t.ver == 3
    requires u.val.Some? && f.val.Some? && t.val.Some?
    ensures ProperSet({u, f, t}) && Separated({u, f, t}) && OnlySets({u, f, t})
    ensures IsTop({u, f, t}, [a, STAR], t) && Incomparable(f.path, [a, STAR])
  {
    assert f.path[1] == b && [a, STAR][1] == STAR;
    assert t.path <= [a, STAR];
  }

  lemma StarKeyDropped(a: Key, b: Key, u: Write, f: Write, t: Write)
    requires a != STAR && b != STAR
    requires u.path == t.path == [a] && f.path == [a, b] && u.ver == 1 && f.ver == 2 && t.ver == 3
    requires ProperSet({u, f, t}) && Incomparable(f.path, [a, STAR])
    ensures Lossy({u, f, t}, [a, STAR])
    ensures Proper(Deliver([u, f, t])) && KindAt(Tree(Run(Deliver([u, f, t]))), [a, STAR]) == Nothing
  {
    var q := [a, STAR];
    assert q[..1] == [a];
    CoverFacts({u, f, t}, q);
    assert Squeezed({u, f, t}, q, 1, u, f);
    LossyFirst(q, 1, u, f, t);
  }

  lemma StarKeyKept(all: set<Write>, q: Path, u: Write, f: Write, t: Write)
    requires ProperSet(all) && Separated(all) && all == {u, f, t} && IsTop(all, q, t) && STAR in q
    requires u.ver < t.ver && Incomparable(f.path, q)
    ensures Proper(Deliver([t, f, u])) && KindAt(Tree(Run(Deliver([t, f, u]))), q) == TopKind(all, q)
  {
    var one: seq<Event> := [] + [Apply(t)];
    ThreeWrites(t, f, u);
    StarKeySet(q, t);
    TopUnique(all, q, t);
    CoverFacts({t}, q);
    HarmlessAppend(one, f, q);
    RunAppend(one, Apply(f));
    StarHasNoFiner(all, q);
    assert Writes(one + [Apply(f)]) == {t, f};
    CoverFacts({t, f}, q);
    HarmlessAppend(one + [Apply(f)], u, q);
  }

  lemma StarKeySet(q: Path, t: Write)
    requires Nameable(t.path) && t.ver > 0 && t.path <= q && q != []
    ensures var one: seq<Event> := [] + [Apply(t)];
            Proper(one) && Writes(one) == {t} && KindAt(Tree(Run(one)), q) == KindAt(t.val, q[|t.path|..])
  {
    EmptyTracks();
    RunAppend([], Apply(t));
    CoverFacts({}, t.path);
    PutKind(EMPTY, t.path, t.val, t.ver, q);
    TracksSub(EMPTY, {}, q, t.ver);
  }

  /** A newer finer unset that dominates every set below q. */
  lemma OnlyUnsetBelow(all: set<Write>, q: Path, u: Write)
    requires u in all && q < u.path && u.ver > 0
    requires forall w :: w in all && w.path <= q ==> w.ver < u.ver
    requires forall w :: w in all && q < w.path && w.val.Some? ==> u.path <= w.path && w.ver < u.ver
    ensures !NoFiner(all, q) && !LiveBelow(all, q)
  {
    CoverFacts(all, q);
    if Cover(all, q) > 0 {
      var t :| IsTop(all, q, t) && t.ver == Cover(all, q);
    }
    assert Finer(all, q, u);
  }
}
