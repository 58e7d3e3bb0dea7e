/** Histories of gated writes on one record: the effective versions and the
    value tree any delivery order leaves, told from the set of writes alone. */
module Histories {
  import opened Basics
  import opened Values
  import opened Versions
  import opened Gated

  /** A `$set` of a value, or a `$unset` (None), at a version. */
  datatype Write = Write(path: Path, val: Option<Value>, ver: Version)

  /** One step on a record: a write, or the `_ver` compaction that ends a
      change. */
  datatype Event = Apply(w: Write) | Tidy

  function Step(d: Doc, e: Event): Doc
    requires d.ver.Split?
    requires e.Apply? ==> Nameable(e.w.path) && e.w.ver > 0
    ensures Step(d, e).ver.Split?
  {
    match e
    case Apply(w) => Put(d, w.path, w.val, w.ver)
    case Tidy => d.(ver := Compact(d.ver))
  }

  /** Every write names a field at a real version. */
  predicate Proper(es: seq<Event>) {
    forall e :: e in es && e.Apply? ==> Nameable(e.w.path) && e.w.ver > 0
  }

  function Run(es: seq<Event>): (d: Doc)
    requires Proper(es)
    ensures d.ver.Split?
  {
    if es == [] then EMPTY else Step(Run(es[..|es| - 1]), es[|es| - 1])
  }

  /** The writes delivered, however often and in whatever order. */
  ghost function Writes(es: seq<Event>): set<Write> {
    set e | e in es && e.Apply? :: e.w
  }

  ghost predicate ProperSet(ws: set<Write>) {
    forall w :: w in ws ==> Nameable(w.path) && w.ver > 0
  }

  /** Writes that share a version belong to one change, whose payload keys do
      not overlap. */
  ghost predicate Separated(ws: set<Write>) {
    forall u, w :: u in ws && w in ws && u != w && u.ver == w.ver ==> Incomparable(u.path, w.path)
  }

  // ------------------------------------------------- what the writes determine

  ghost function CoverVersions(ws: set<Write>, q: Path): set<Version> {
    set w | w in ws && w.path <= q :: w.ver
  }

  /** The greatest version of a write covering q, 0 if there is none. */
  ghost function Cover(ws: set<Write>, q: Path): Version {
    SetMax(CoverVersions(ws, q))
  }

  ghost predicate IsTop(ws: set<Write>, q: Path, t: Write) {
    t in ws && t.path <= q && forall u :: u in ws && u.path <= q ==> u.ver <= t.ver
  }

  /** What the newest covering write says about q. */
  ghost function TopKind(ws: set<Write>, q: Path): Kind {
    if exists t :: IsTop(ws, q, t) then
      var t :| IsTop(ws, q, t);
      KindAt(t.val, q[|t.path|..])
    else Nothing
  }

  /** A write strictly below q that is newer than all that cover q. */
  ghost predicate Finer(ws: set<Write>, q: Path, w: Write) {
    w in ws && q < w.path && w.ver > Cover(ws, q)
  }

  /** No newer write covers w. */
  ghost predicate Undominated(ws: set<Write>, w: Write) {
    w in ws && forall u :: u in ws && u.path <= w.path ==> u.ver <= w.ver
  }

  ghost predicate NoFiner(ws: set<Write>, q: Path) {
    forall w :: !Finer(ws, q, w)
  }

  ghost predicate LiveBelow(ws: set<Write>, q: Path) {
    exists s :: Finer(ws, q, s) && s.val.Some? && Undominated(ws, s)
  }

  /** Nothing covers q, only unsets lie below it, and none of them is older
      than a finer one. */
  ghost predicate BareUnsets(ws: set<Write>, q: Path) {
    && (forall w :: w in ws ==> !(w.path <= q))
    && (forall w :: w in ws && q < w.path ==> w.val.None?)
    && (forall u, w :: u in ws && w in ws && q < u.path < w.path ==> w.ver <= u.ver)
  }

  /** u covers a level above q's key `*`, f is finer there and newer than u, and
      the newest write covering q is newer than u. */
  ghost predicate Squeezed(ws: set<Write>, q: Path, i: nat, u: Write, f: Write) {
    && i < |q| && q[i] == STAR && u in ws && f in ws
    && u.path <= q[..i] && q[..i] < f.path && u.ver < f.ver && u.ver < Cover(ws, q)
  }

  /** Some order merges the newest write covering q around a newer finer one and
      so drops what it holds under a key `*` on the way to q. */
  ghost predicate Lossy(ws: set<Write>, q: Path) {
    exists i, u, f :: Squeezed(ws, q, i, u, f)
  }

  // ------------------------------------------------------------ cover versions

  lemma CoverFacts(ws: set<Write>, q: Path)
    ensures forall w :: w in ws && w.path <= q ==> w.ver <= Cover(ws, q)
    ensures Cover(ws, q) > 0 ==> exists t :: IsTop(ws, q, t) && t.ver == Cover(ws, q)
    ensures forall t :: IsTop(ws, q, t) ==> t.ver == Cover(ws, q)
  {
    forall w | w in ws && w.path <= q
      ensures w.ver <= Cover(ws, q)
    {
      assert w.ver in CoverVersions(ws, q);
    }
    if Cover(ws, q) > 0 {
      var t :| t in ws && t.path <= q && t.ver == Cover(ws, q);
      assert IsTop(ws, q, t);
    }
  }

  lemma CoverMonotone(ws: set<Write>, q: Path, r: Path)
    requires q <= r
    ensures Cover(ws, q) <= Cover(ws, r)
  {
    CoverFacts(ws, q);
    CoverFacts(ws, r);
  }

  lemma CoverAdd(ws: set<Write>, w: Write, q: Path)
    ensures Cover(ws + {w}, q) == if w.path <= q then Max(Cover(ws, q), w.ver) else Cover(ws, q)
  {
    CoverFacts(ws, q);
    CoverFacts(ws + {w}, q);
  }

  lemma TopUnique(ws: set<Write>, q: Path, t: Write)
    requires Separated(ws) && IsTop(ws, q, t)
    ensures TopKind(ws, q) == KindAt(t.val, q[|t.path|..])
  {
    forall u | IsTop(ws, q, u)
      ensures u == t
    {
      assert u.ver == t.ver;
      assert |u.path| <= |t.path| ==> u.path <= t.path;
      assert |t.path| <= |u.path| ==> t.path <= u.path;
    }
  }

  lemma TopNone(ws: set<Write>, q: Path)
    requires forall w :: w in ws ==> !(w.path <= q)
    ensures TopKind(ws, q) == Nothing && Cover(ws, q) == 0
  {
    CoverFacts(ws, q);
  }

  lemma TopExists(ws: set<Write>, q: Path, w: Write) returns (t: Write)
    requires w in ws && w.path <= q && ProperSet(ws)
    ensures IsTop(ws, q, t) && t.ver == Cover(ws, q)
  {
    CoverFacts(ws, q);
    t :| IsTop(ws, q, t) && t.ver == Cover(ws, q);
  }

  // ---------------------------------------------------------------- one write

  /** A record in step with a set of writes: every path's effective version is
      the greatest version of a write covering it. */
  ghost predicate Tracks(d: Doc, ws: set<Write>) {
    Valid(d) && forall q :: Ev(d.ver, q) == Cover(ws, q)
  }

  lemma {:induction false} TracksWrite(d: Doc, ws: set<Write>, w: Write)
    requires Tracks(d, ws) && Nameable(w.path) && w.ver > 0
    ensures Tracks(Step(d, Apply(w)), ws + {w})
  {
    PutValid(d, w.path, w.val, w.ver);
    forall q: Path
      ensures Ev(Step(d, Apply(w)).ver, q) == Cover(ws + {w}, q)
    {
      PutEv(d, w.path, w.val, w.ver, q);
      CoverAdd(ws, w, q);
    }
  }

  lemma {:induction false} TracksTidy(d: Doc, ws: set<Write>)
    requires Tracks(d, ws)
    ensures Tracks(Step(d, Tidy), ws)
  {
    CompactInvisible(d);
  }

  lemma {:induction false} TracksStep(d: Doc, ws: set<Write>, e: Event)
    requires Tracks(d, ws) && (e.Apply? ==> Nameable(e.w.path) && e.w.ver > 0)
    ensures Tracks(Step(d, e), ws + (if e.Apply? then {e.w} else {}))
  {
    match e {
      case Apply(w) => TracksWrite(d, ws, w);
      case Tidy =>
        TracksTidy(d, ws);
        assert ws + {} == ws;
    }
  }

  /** `GetRecordVersion` reaches v exactly when some write at, above or below
      the path does. */
  lemma {:induction false} TracksSub(d: Doc, ws: set<Write>, q: Path, v: Version)
    requires Tracks(d, ws) && v > 0
    ensures Sub(d.ver, q) >= v <==>
            exists w :: w in ws && (w.path <= q || q <= w.path) && w.ver >= v
  {
    if Sub(d.ver, q) >= v {
      var r := SubAttained(d.ver, q);
      CoverFacts(ws, r);
      var t :| IsTop(ws, r, t) && t.ver == Cover(ws, r);
      PrefixesOf(t.path, q, r);
    }
    if w :| w in ws && (w.path <= q || q <= w.path) && w.ver >= v {
      var r := if w.path <= q then q else w.path;
      CoverFacts(ws, r);
      SubBounds(d.ver, q, r);
    }
  }

  /** Two prefixes of one path are comparable. */
  lemma PrefixesOf(p: Path, q: Path, r: Path)
    requires p <= r && q <= r
    ensures p <= q || q < p
  {
    if |p| <= |q| { assert p == q[..|p|]; } else { assert q == p[..|q|]; }
  }

  /** A write already covered at its own path changes nothing at all; in
      particular a repeated one. */
  lemma {:induction false} CoveredWrite(d: Doc, ws: set<Write>, w: Write)
    requires Tracks(d, ws) && Nameable(w.path) && w.ver > 0
    requires Cover(ws, w.path) >= w.ver
    ensures Step(d, Apply(w)) == d
  {
    PutGated(d, w.path, w.val, w.ver);
  }

  /** How one write moves the newest covering write of q. */
  lemma {:induction false} TopStep(ws: set<Write>, w: Write, q: Path)
    requires Nameable(w.path) && w.ver > 0 && Separated(ws + {w})
    ensures TopKind(ws + {w}, q) ==
            if w.path <= q && Cover(ws, q) < w.ver then KindAt(w.val, q[|w.path|..]) else TopKind(ws, q)
  {
    var all := ws + {w};
    CoverFacts(ws, q);
    if w.path <= q && Cover(ws, q) < w.ver {
      assert IsTop(all, q, w);
      TopUnique(all, q, w);
    } else if t :| IsTop(ws, q, t) {
      if w.path <= q && w.ver == t.ver && w != t { PrefixesOf(w.path, t.path, q); }
      assert IsTop(all, q, t);
      TopUnique(all, q, t);
      TopUnique(ws, q, t);
    } else {
      assert forall u :: u in ws && u.path <= q ==> u.ver == 0;
      forall u | IsTop(all, q, u)
        ensures u in ws && IsTop(ws, q, u)
      {}
    }
  }

  lemma LossyGrows(ws: set<Write>, w: Write, q: Path)
    requires Lossy(ws, q)
    ensures Lossy(ws + {w}, q)
  {
    var i, u, f :| Squeezed(ws, q, i, u, f);
    CoverAdd(ws, w, q);
    assert Squeezed(ws + {w}, q, i, u, f);
  }

  lemma StarBelow(q: Path, p: Path)
    requires STAR in q && q <= p
    ensures STAR in p
  {
    var i :| 0 <= i < |q| && q[i] == STAR;
    assert p[i] == STAR;
  }

  /** Nothing is written at or below a path through the key `*`. */
  lemma StarHasNoFiner(ws: set<Write>, q: Path)
    requires ProperSet(ws) && STAR in q
    ensures (forall w :: w in ws ==> !(q <= w.path)) && NoFiner(ws, q) && !LiveBelow(ws, q)
  {
    forall w | w in ws
      ensures !(q <= w.path)
    {
      if q <= w.path { StarBelow(q, w.path); }
    }
  }

  lemma LossyHasStar(ws: set<Write>, q: Path)
    requires Lossy(ws, q)
    ensures STAR in q
  {
    var i, u, f :| Squeezed(ws, q, i, u, f);
  }

  /** Where a landing write is dropped, the writes before it are squeezed. */
  lemma {:induction false} DropIsLossy(d: Doc, ws: set<Write>, w: Write, q: Path)
    requires Tracks(d, ws) && Tight(d.ver) && Dropped(d.ver, q) && w.path <= q && Cover(ws, q) < w.ver
    ensures Lossy(ws + {w}, q)
  {
    var i := DroppedMeans(d.ver, q);
    var level := q[..i];
    CoverFacts(ws, level);
    var u :| IsTop(ws, level, u) && u.ver == Cover(ws, level);
    var r := SubAttained(d.ver, level);
    CoverFacts(ws, r);
    var f :| IsTop(ws, r, f) && f.ver == Cover(ws, r);
    PrefixesOf(f.path, level, r);
    CoverAdd(ws, w, q);
    assert Squeezed(ws + {w}, q, i, u, f);
  }

  /** No write found at or below a new write's path has its version. */
  lemma {:induction false} TightStep(d: Doc, ws: set<Write>, w: Write)
    requires Tracks(d, ws) && Tight(d.ver) && Separated(ws + {w}) && Nameable(w.path) && w.ver > 0
    ensures Tight(Step(d, Apply(w)).ver)
  {
    if Cover(ws, w.path) >= w.ver {
      CoveredWrite(d, ws, w);
    } else {
      forall r | w.path <= r
        ensures Ev(d.ver, r) != w.ver
      {
        CoverFacts(ws, r);
        if Cover(ws, r) == w.ver {
          var t :| IsTop(ws, r, t) && t.ver == Cover(ws, r);
          PrefixesOf(t.path, w.path, r);
          CoverFacts(ws, w.path);
        }
      }
      PutTight(d, w.path, w.val, w.ver);
    }
  }

  /** In every order a path ends as the newest covering write says, or as an
      object, or empty where a merge may drop it. */
  ghost predicate TopOrBranch(d: Doc, ws: set<Write>, q: Path) {
    || KindAt(Tree(d), q) == TopKind(ws, q)
    || KindAt(Tree(d), q) == Branch
    || (Lossy(ws, q) && KindAt(Tree(d), q) == Nothing)
  }

  lemma {:induction false} TopOrBranchStep(d: Doc, ws: set<Write>, w: Write, q: Path)
    requires Tracks(d, ws) && Separated(ws + {w}) && Nameable(w.path) && w.ver > 0 && q != []
    requires TopOrBranch(d, ws, q) && Tight(d.ver)
    ensures TopOrBranch(Step(d, Apply(w)), ws + {w}, q)
  {
    TopStep(ws, w, q);
    if Lossy(ws, q) { LossyGrows(ws, w, q); }
    if Cover(ws, w.path) >= w.ver {
      CoveredWrite(d, ws, w);
      if w.path <= q { CoverMonotone(ws, w.path, q); }
    } else {
      PutKind(d, w.path, w.val, w.ver, q);
      if w.path <= q && Cover(ws, q) < w.ver && Dropped(d.ver, q) { DropIsLossy(d, ws, w, q); }
    }
  }

  /** A merge that keeps survivors at q betrays a newer finer write. */
  lemma {:induction false} SurvivorIsFiner(d: Doc, ws: set<Write>, w: Write, q: Path)
    requires Tracks(d, ws) && Separated(ws + {w}) && w.ver > 0
    requires w.path <= q && Cover(ws, q) < w.ver <= Sub(d.ver, q)
    ensures exists u :: Finer(ws + {w}, q, u)
  {
    TracksSub(d, ws, q, w.ver);
    var u :| u in ws && (u.path <= q || q <= u.path) && u.ver >= w.ver;
    CoverFacts(ws, q);
    CoverAdd(ws, w, q);
    assert w.path < u.path;
    assert Finer(ws + {w}, q, u);
  }

  /** A write strictly below q that lands is newer than all that cover q. */
  lemma {:induction false} LandingIsFiner(ws: set<Write>, w: Write, q: Path)
    requires q < w.path && Cover(ws, w.path) < w.ver
    ensures Finer(ws + {w}, q, w)
  {
    CoverAdd(ws, w, q);
    CoverMonotone(ws, q, w.path);
  }

  /** An undominated write always lands. */
  lemma {:induction false} UndominatedLands(ws: set<Write>, w: Write)
    requires Separated(ws + {w}) && w !in ws && w.ver > 0 && Undominated(ws + {w}, w)
    ensures Cover(ws, w.path) < w.ver
  {
    CoverFacts(ws, w.path);
    if Cover(ws, w.path) > 0 {
      var t :| IsTop(ws, w.path, t) && t.ver == Cover(ws, w.path);
      assert t in ws + {w} && t.ver != w.ver;
    }
  }

  /** As the newest covering write says, or dropped by a merge. */
  ghost predicate TopOrLost(d: Doc, ws: set<Write>, q: Path) {
    KindAt(Tree(d), q) == TopKind(ws, q) || (Lossy(ws, q) && KindAt(Tree(d), q) == Nothing)
  }

  /** Without a newer finer write, as the newest covering write says. */
  lemma {:induction false} NoFinerStep(d: Doc, ws: set<Write>, w: Write, q: Path)
    requires Tracks(d, ws) && Separated(ws + {w}) && Nameable(w.path) && w.ver > 0 && q != []
    requires NoFiner(ws, q) ==> TopOrLost(d, ws, q)
    requires NoFiner(ws + {w}, q) && Tight(d.ver)
    ensures TopOrLost(Step(d, Apply(w)), ws + {w}, q)
  {
    TopStep(ws, w, q);
    if Lossy(ws, q) { LossyGrows(ws, w, q); }
    CoverAdd(ws, w, q);
    assert Cover(ws + {w}, q) == Cover(ws, q) ==> forall u :: Finer(ws, q, u) ==> Finer(ws + {w}, q, u);
    if Cover(ws, w.path) >= w.ver {
      CoveredWrite(d, ws, w);
      if w.path <= q { CoverMonotone(ws, w.path, q); }
    } else {
      PutKind(d, w.path, w.val, w.ver, q);
      if q < w.path {
        LandingIsFiner(ws, w, q);
      } else if w.path <= q && Cover(ws, q) < w.ver <= Sub(d.ver, q) {
        SurvivorIsFiner(d, ws, w, q);
      } else if w.path <= q && Cover(ws, q) < w.ver && Dropped(d.ver, q) {
        DropIsLossy(d, ws, w, q);
      }
    }
  }

  /** Below a live newer set the path is an object. */
  lemma {:induction false} LiveBelowStep(d: Doc, ws: set<Write>, w: Write, q: Path)
    requires Tracks(d, ws) && Separated(ws + {w}) && Nameable(w.path) && w.ver > 0 && q != []
    requires LiveBelow(ws, q) ==> KindAt(Tree(d), q) == Branch
    requires LiveBelow(ws + {w}, q)
    ensures KindAt(Tree(Step(d, Apply(w))), q) == Branch
  {
    var all := ws + {w};
    var s :| Finer(all, q, s) && s.val.Some? && Undominated(all, s);
    CoverAdd(ws, w, q);
    if s in ws {
      assert Finer(ws, q, s) && Undominated(ws, s);
    } else {
      UndominatedLands(ws, s);
    }
    if Cover(ws, w.path) >= w.ver {
      CoveredWrite(d, ws, w);
    } else {
      PutKind(d, w.path, w.val, w.ver, q);
      if w.path <= q && Cover(ws, q) < w.ver {
        TracksSub(d, ws, q, w.ver);
        assert s in ws && s.ver >= w.ver;
      }
    }
  }

  /** Where there are only unsets, none older than a finer one, there is
      nothing. */
  lemma {:induction false} BareUnsetsStep(d: Doc, ws: set<Write>, w: Write, q: Path)
    requires Tracks(d, ws) && Separated(ws + {w}) && Nameable(w.path) && w.ver > 0 && q != []
    requires BareUnsets(ws, q) ==> KindAt(Tree(d), q) == Nothing
    requires BareUnsets(ws + {w}, q)
    ensures KindAt(Tree(Step(d, Apply(w))), q) == Nothing
  {
    assert BareUnsets(ws, q);
    if Cover(ws, w.path) >= w.ver {
      CoveredWrite(d, ws, w);
    } else {
      PutKind(d, w.path, w.val, w.ver, q);
      if q < w.path && Sub(d.ver, w.path) >= w.ver {
        TracksSub(d, ws, w.path, w.ver);
        var u :| u in ws && (u.path <= w.path || w.path <= u.path) && u.ver >= w.ver;
        CoverFacts(ws, w.path);
      }
    }
  }

  // --------------------------------------------------------------------- runs

  /** A run is its last event after the run before it. */
  lemma RunSplit(es: seq<Event>) returns (before: seq<Event>, e: Event)
    requires Proper(es) && es != []
    ensures |before| < |es| && Proper(before) && (e.Apply? ==> Nameable(e.w.path) && e.w.ver > 0)
    ensures es == before + [e] && Run(es) == Step(Run(before), e)
    ensures Writes(es) == Writes(before) + (if e.Apply? then {e.w} else {})
  {
    var n := |es| - 1;
    before, e := es[..n], es[n];
    assert es == before + [e];
    assert forall x :: x in es <==> x in before || x == e;
  }

  lemma EmptyRun(q: Path)
    requires q != []
    ensures KindAt(Tree(EMPTY), q) == Nothing && TopKind({}, q) == Nothing
  {
    TopNone({}, q);
    AtNothing(q[1..]);
  }

  lemma EmptyTracks()
    ensures Tracks(EMPTY, {})
  {
    forall q: Path
      ensures Cover({}, q) == 0
    {
      TopNone({}, q);
    }
  }

  /** Every run leaves, at every path, the greatest version of a write whose
      path is a prefix of it, whatever the order and however often writes
      repeat. */
  lemma {:induction false} RunTracks(es: seq<Event>)
    requires Proper(es)
    ensures Tracks(Run(es), Writes(es))
    decreases |es|
  {
    if es == [] {
      EmptyTracks();
    } else {
      var before, e := RunSplit(es);
      RunTracks(before);
      TracksStep(Run(before), Writes(before), e);
    }
  }

  /** And is split only around something newer. */
  lemma {:induction false} RunTight(es: seq<Event>)
    requires Proper(es) && Separated(Writes(es))
    ensures Tight(Run(es).ver)
    decreases |es|
  {
    if es != [] {
      var before, e := RunSplit(es);
      RunTight(before);
      RunTracks(before);
      match e {
        case Apply(w) => TightStep(Run(before), Writes(before), w);
        case Tidy => CompactTight(Run(before).ver);
      }
    }
  }

  /** The four facts about a path together. */
  ghost predicate Explained(d: Doc, ws: set<Write>, q: Path) {
    var kind := KindAt(Tree(d), q);
    && TopOrBranch(d, ws, q)
    && (NoFiner(ws, q) ==> TopOrLost(d, ws, q))
    && (LiveBelow(ws, q) ==> kind == Branch)
    && (BareUnsets(ws, q) ==> kind == Nothing)
  }

  /** What a path holds after any run. */
  lemma {:induction false} RunKind(es: seq<Event>, q: Path)
    requires Proper(es) && Separated(Writes(es)) && q != []
    ensures Explained(Run(es), Writes(es), q)
    decreases |es|
  {
    if es == [] {
      EmptyRun(q);
    } else {
      var before, e := RunSplit(es);
      RunKind(before, q);
      RunTracks(before);
      RunTight(before);
      ExplainedStep(Run(before), Writes(before), e, q);
    }
  }

  /** One event keeps all four facts. */
  lemma {:induction false} ExplainedStep(d: Doc, ws: set<Write>, e: Event, q: Path)
    requires Tracks(d, ws) && q != [] && (e.Apply? ==> Nameable(e.w.path) && e.w.ver > 0)
    requires Separated(ws + (if e.Apply? then {e.w} else {}))
    requires Explained(d, ws, q) && Tight(d.ver)
    ensures Explained(Step(d, e), ws + (if e.Apply? then {e.w} else {}), q)
  {
    match e {
      case Apply(w) =>
        TopOrBranchStep(d, ws, w, q);
        if NoFiner(ws + {w}, q) { NoFinerStep(d, ws, w, q); }
        if LiveBelow(ws + {w}, q) { LiveBelowStep(d, ws, w, q); }
        if BareUnsets(ws + {w}, q) { BareUnsetsStep(d, ws, w, q); }
      case Tidy =>
        assert ws + {} == ws;
    }
  }

  // -------------------------------------------------------------- what is reported

  /** A write is reported after any run exactly when no write at, above or below
      its path was newer. */
  lemma RunReportedIff(es: seq<Event>, w: Write)
    requires Proper(es) && Nameable(w.path) && w.ver > 0
    ensures Sub(Step(Run(es), Apply(w)).ver, w.path) == w.ver <==>
            forall u :: u in Writes(es) && (u.path <= w.path || w.path <= u.path) ==> u.ver <= w.ver
  {
    RunTracks(es);
    ReportedIff(Run(es), w.path, w.val, w.ver);
    TracksSub(Run(es), Writes(es), w.path, w.ver + 1);
  }

  /** `$set a.b` at 2, then `$set a = {c: y}` at 1: the second write lands `c`
      and is not reported. */
  lemma LandsUnreported(a: Key, b: Key, c: Key, x: Value, y: int)
    requires STAR !in {a, b, c} && b != c
    ensures var f, u := Write([a, b], Some(x), 2), Write([a], Some(Object(map[c := Atom(y)])), 1);
            var es := [Apply(f)];
            && Proper(es)
            && KindAt(Tree(Run(es)), [a, c]) == Nothing
            && KindAt(Tree(Step(Run(es), Apply(u))), [a, c]) == Leaf(Atom(y))
            && Sub(Step(Run(es), Apply(u)).ver, [a]) == 2
  {
    var f, u := Write([a, b], Some(x), 2), Write([a], Some(Object(map[c := Atom(y)])), 1);
    var es := [Apply(f)];
    var q := [a, c];
    assert es[..0] == [];
    assert Run(es) == Put(EMPTY, f.path, f.val, f.ver);
    assert Writes(es) == {f};
    RunTracks(es);
    assert f.path[1] == b && q[1] == c;
    EmptyTracks();
    EmptyRun(q);
    CoverFacts({}, f.path);
    PutKind(EMPTY, f.path, f.val, f.ver, q);
    LandsAround(Run(es), f, u, q);
    assert q[1..] == [c];
    AtKey(u.val, c);
  }

  lemma LandsAround(d: Doc, f: Write, u: Write, q: Path)
    requires Tracks(d, {f}) && Nameable(u.path) && u.ver == 1 && f.ver == 2
    requires u.path < f.path && u.path <= q && !(f.path <= q) && !(q <= f.path) && STAR !in q
    ensures KindAt(Tree(Step(d, Apply(u))), q) == KindAt(u.val, q[|u.path|..])
    ensures Sub(Step(d, Apply(u)).ver, u.path) == 2
  {
    assert !(f.path <= u.path);
    CoverFacts({f}, u.path);
    CoverFacts({f}, q);
    TracksSub(d, {f}, q, 1);
    PutKind(d, u.path, u.val, u.ver, q);
    if Dropped(d.ver, q) { DroppedHasStar(d.ver, q); }
    TracksWrite(d, {f}, u);
    TracksSub(Step(d, Apply(u)), {f} + {u}, u.path, 2);
    TracksSub(Step(d, Apply(u)), {f} + {u}, u.path, 3);
  }

  lemma {:induction false} DroppedHasStar(n: Ver, q: Path)
    requires Dropped(n, q)
    ensures STAR in q
    decreases |q|
  {
    if q[0] in n.kids { DroppedHasStar(n.kids[q[0]], q[1..]); }
  }
}
