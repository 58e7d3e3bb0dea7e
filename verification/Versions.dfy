/** The `_ver` tree: which version a path was last written at.

    Versions are strings compared lexicographically; only their order is ever
    used, so the model takes them from `nat`, with 0 for the empty string, the
    "no version" sentinel below every real version.

    A node is one version for everything below it, or per-key entries with an
    optional default (the reserved key `*`); def is 0 when the default is
    absent, which every lookup of the source answers with "" as well. */
module Versions {
  import opened Basics

  type Version = nat

  datatype Ver = One(version: Version) | Split(def: Version, kids: map<Key, Ver>)

  /** The version a node claims for the keys it does not enumerate. */
  function Base(n: Ver): Version {
    match n
    case One(v) => v
    case Split(def, _) => def
  }

  /** Effective version of exactly the position q: the version the latest
      write covering q left there. */
  function Ev(n: Ver, q: Path): Version
    decreases |q|
  {
    match n
    case One(v) => v
    case Split(def, kids) =>
      if q == [] then def
      else if q[0] in kids then Ev(kids[q[0]], q[1..])
      else def
  }

  /** The greatest version anywhere in n. */
  ghost function MaxVersion(n: Ver): Version {
    match n
    case One(v) => v
    case Split(def, kids) => SetMax({def} + set k | k in kids :: MaxVersion(kids[k]))
  }

  /** The version `getVersion` answers: the effective version of the position
      or of anything finer below it. */
  ghost function Sub(n: Ver, q: Path): Version
    decreases |q|
  {
    match n
    case One(v) => v
    case Split(def, kids) =>
      if q == [] then MaxVersion(n)
      else if q[0] in kids then Sub(kids[q[0]], q[1..])
      else def
  }

  /** Explicit entries are never older than their level's default. */
  ghost predicate Layered(n: Ver) {
    n.Split? ==> forall k :: k in n.kids ==> n.def <= Base(n.kids[k]) && Layered(n.kids[k])
  }

  // ------------------------------------------------------------------ lookup

  /** What gates a write: one version, or a node with finer entries below. */
  datatype Gating = Single(version: Version) | Subtree(node: Ver)

  function Gate(n: Ver, path: Path): (g: Gating)
    ensures g.Subtree? ==> g.node.Split?
    decreases |path|
  {
    match n
    case One(v) => Single(v)
    case Split(def, kids) =>
      if path == [] then Subtree(n)
      else if path[0] in kids then Gate(kids[path[0]], path[1..])
      else Single(def)
  }

  /** `gateVersion`: the walk down `_ver`, one path segment at a time. */
  method GateVersion(root: Ver, path: Path) returns (g: Gating)
    ensures g == Gate(root, path)
  {
    var cur := root;
    for i := 0 to |path|
      invariant Gate(cur, path[i..]) == Gate(root, path)
    {
      match cur {
        case One(v) => return Single(v);
        case Split(def, kids) =>
          if path[i] in kids {
            assert path[i..][1..] == path[i + 1..];
            cur := kids[path[i]];
          } else {
            return Single(def);
          }
      }
    }
    g := match cur case One(v) => Single(v) case Split(_, _) => Subtree(cur);
  }

  /** `maxVersion`, visiting the entries of an object in any order. */
  method MaxVersionOf(n: Ver) returns (best: Version)
    ensures best == MaxVersion(n)
    decreases n
  {
    match n {
      case One(v) => return v;
      case Split(def, kids) =>
        best := def;
        var rest := kids.Keys;
        ghost var seen: set<nat> := {def};
        while rest != {}
          invariant rest <= kids.Keys
          invariant seen == {def} + set k | k in kids.Keys - rest :: MaxVersion(kids[k])
          invariant best in seen && forall x :: x in seen ==> x <= best
          decreases rest
        {
          var k :| k in rest;
          var c := MaxVersionOf(kids[k]);
          if c > best { best := c; }
          rest := rest - {k};
          seen := seen + {c};
        }
        assert seen == {def} + set k | k in kids :: MaxVersion(kids[k]);
    }
  }

  /** `getVersion` / `GetRecordVersion`. */
  method GetVersion(root: Ver, path: Path) returns (v: Version)
    ensures v == Sub(root, path)
  {
    var cur := root;
    for i := 0 to |path|
      invariant Sub(cur, path[i..]) == Sub(root, path)
    {
      match cur {
        case One(w) => return w;
        case Split(def, kids) =>
          if path[i] in kids {
            assert path[i..][1..] == path[i + 1..];
            cur := kids[path[i]];
          } else {
            return def;
          }
      }
    }
    v := MaxVersionOf(cur);
  }

  /** A single gate is the version of the position and of everything below;
      a subtree holds exactly the entries below. */
  lemma {:induction false} GateMeaning(n: Ver, p: Path, r: Path)
    ensures Gate(n, p).Single? ==> Ev(n, p + r) == Gate(n, p).version
    ensures Gate(n, p).Single? ==> Sub(n, p + r) == Gate(n, p).version
    ensures Gate(n, p).Subtree? ==> Ev(n, p + r) == Ev(Gate(n, p).node, r)
    ensures Gate(n, p).Subtree? ==> Sub(n, p + r) == Sub(Gate(n, p).node, r)
    decreases |p|
  {
    if p == [] {
      assert p + r == r;
    } else if n.Split? && p[0] in n.kids {
      assert (p + r)[0] == p[0] && (p + r)[1..] == p[1..] + r;
      GateMeaning(n.kids[p[0]], p[1..], r);
    }
  }

  lemma {:induction false} GateLayered(n: Ver, p: Path)
    requires Layered(n)
    ensures Gate(n, p).Subtree? ==> Layered(Gate(n, p).node)
    decreases |p|
  {
    if p != [] && n.Split? && p[0] in n.kids { GateLayered(n.kids[p[0]], p[1..]); }
  }

  /** Versions only grow along a path. */
  lemma {:induction false} EvMonotone(n: Ver, p: Path, q: Path)
    requires Layered(n) && p <= q
    ensures Base(n) <= Ev(n, p) <= Ev(n, q)
    decreases |q|
  {
    if n.Split? && q != [] && q[0] in n.kids {
      if p == [] {
        EvMonotone(n.kids[q[0]], [], q[1..]);
      } else {
        EvMonotone(n.kids[q[0]], p[1..], q[1..]);
      }
    }
  }

  /** `getVersion` is the strictest bound: it is at least the effective version
      of every position at or below the path, and it is attained. */
  lemma {:induction false} SubBounds(n: Ver, q: Path, r: Path)
    requires q <= r
    ensures Ev(n, r) <= Sub(n, q)
    decreases n
  {
    if n.Split? {
      if q != [] {
        if q[0] in n.kids { SubBounds(n.kids[q[0]], q[1..], r[1..]); }
      } else if r != [] && r[0] in n.kids {
        SubBounds(n.kids[r[0]], [], r[1..]);
        SubAtRoot(n.kids[r[0]]);
        KidBelowMax(n, r[0]);
      }
    }
  }

  lemma KidBelowMax(n: Ver, k: Key)
    requires n.Split? && k in n.kids
    ensures n.def <= MaxVersion(n) && MaxVersion(n.kids[k]) <= MaxVersion(n)
  {
    var all := {n.def} + set j | j in n.kids :: MaxVersion(n.kids[j]);
    assert MaxVersion(n.kids[k]) in all && n.def in all;
  }

  lemma SubAtRoot(n: Ver)
    ensures Sub(n, []) == MaxVersion(n)
  {}

  lemma {:induction false} SubAttained(n: Ver, q: Path) returns (r: Path)
    ensures q <= r && Ev(n, r) == Sub(n, q)
    decreases n
  {
    r := q;
    if n.Split? {
      if q != [] {
        if q[0] in n.kids {
          var t := SubAttained(n.kids[q[0]], q[1..]);
          r := [q[0]] + t;
        }
      } else if MaxVersion(n) != n.def {
        var k :| k in n.kids && MaxVersion(n.kids[k]) == MaxVersion(n);
        var t := SubAttained(n.kids[k], []);
        SubAtRoot(n.kids[k]);
        r := [k] + t;
      }
    }
  }

  // ------------------------------------------------------------------ update

  /** The child an update descends into: a missing key inherits its level's
      default, a collapsed entry is split into an object with that default. */
  function Opened(n: Ver, k: Key): (c: Ver)
    requires n.Split?
    ensures c.Split?
  {
    if k !in n.kids then Split(n.def, map[])
    else match n.kids[k]
      case One(v) => Split(v, map[])
      case Split(_, _) => n.kids[k]
  }

  /** `setVersionNodeAt`; `setVersion` is the case of a collapsed node. */
  function PutNode(n: Ver, path: Path, node: Ver): (r: Ver)
    requires n.Split? && path != []
    ensures r.Split? && r.def == n.def
    decreases |path|
  {
    if |path| == 1 then Split(n.def, n.kids[path[0] := node])
    else Split(n.def, n.kids[path[0] := PutNode(Opened(n, path[0]), path[1..], node)])
  }

  lemma OpenedEv(n: Ver, k: Key, q: Path)
    requires n.Split?
    ensures Ev(Opened(n, k), q) == Ev(n, [k] + q)
  {
    assert ([k] + q)[1..] == q;
    if k in n.kids && n.kids[k].One? {}
  }

  /** An update claims its path and everything below it, and nothing else:
      splitting a covered entry keeps the inherited version everywhere. */
  lemma {:induction false} PutNodeEv(n: Ver, p: Path, node: Ver, q: Path)
    requires n.Split? && p != []
    ensures p <= q ==> Ev(PutNode(n, p, node), q) == Ev(node, q[|p|..])
    ensures !(p <= q) ==> Ev(PutNode(n, p, node), q) == Ev(n, q)
    decreases |p|
  {
    if q != [] && q[0] == p[0] {
      assert q == [q[0]] + q[1..] && p == [p[0]] + p[1..];
      if |p| > 1 {
        PutNodeEv(Opened(n, p[0]), p[1..], node, q[1..]);
        OpenedEv(n, p[0], q[1..]);
        assert p <= q <==> p[1..] <= q[1..];
        assert p <= q ==> q[|p|..] == q[1..][|p[1..]|..];
      }
    }
  }

  lemma {:induction false} PutNodeLayered(n: Ver, p: Path, node: Ver)
    requires n.Split? && p != [] && Layered(n) && Layered(node)
    requires Ev(n, p) <= Base(node)
    ensures Layered(PutNode(n, p, node))
    decreases |p|
  {
    EvMonotone(n, [], p);
    if |p| > 1 {
      OpenedEv(n, p[0], p[1..]);
      assert p == [p[0]] + p[1..];
      PutNodeLayered(Opened(n, p[0]), p[1..], node);
    }
  }

  // -------------------------------------------------------------- compaction

  /** `IsCollapsible`: a default is present and every entry equals it. */
  predicate Collapsible(n: Ver) {
    n.Split? && n.def != 0 && forall k :: k in n.kids ==> n.kids[k] == One(n.def)
  }

  /** An inner object after its own compaction. */
  function Collapsed(n: Ver): Ver {
    if Collapsible(n) then One(n.def) else n
  }

  /** `compactSubtree`: children first, then the entries that repeat the
      node's own default are dropped. */
  function Compact(n: Ver): (r: Ver)
    ensures r.Split? == n.Split? && Base(r) == Base(n)
  {
    match n
    case One(_) => n
    case Split(def, kids) =>
      var done := map k | k in kids :: Collapsed(Compact(kids[k]));
      if def == 0 then Split(def, done)
      else Split(def, map k | k in done && done[k] != One(def) :: done[k])
  }

  /** Compaction changes no lookup. */
  lemma {:induction false} CompactEv(n: Ver, q: Path)
    ensures Ev(Compact(n), q) == Ev(n, q)
    decreases n
  {
    if n.Split? && q != [] && q[0] in n.kids {
      var k := q[0];
      CompactEv(n.kids[k], q[1..]);
      var c := Compact(n.kids[k]);
      if Collapsible(c) { CollapsedEv(c, q[1..]); }
    }
  }

  lemma CollapsedEv(n: Ver, q: Path)
    requires Collapsible(n)
    ensures Ev(n, q) == n.def
  {
    if q != [] && q[0] in n.kids { assert n.kids[q[0]] == One(n.def); }
  }

  lemma {:induction false} CompactLayered(n: Ver)
    requires Layered(n)
    ensures Layered(Compact(n))
    decreases n
  {
    if n.Split? {
      forall k | k in n.kids
        ensures Layered(Collapsed(Compact(n.kids[k])))
      {
        CompactLayered(n.kids[k]);
      }
    }
  }

  /** Two trees with the same effective versions at and below a path answer its
      `getVersion` alike. */
  lemma SameEvSameSub(a: Ver, b: Ver, q: Path)
    requires forall r :: q <= r ==> Ev(a, r) == Ev(b, r)
    ensures Sub(a, q) == Sub(b, q)
  {
    var r := SubAttained(a, q);
    SubBounds(b, q, r);
    var s := SubAttained(b, q);
    SubBounds(a, q, s);
  }

  // --------------------------------------------------------- the default's key

  /** No level enumerates the key its default is kept under. */
  ghost predicate NoStar(n: Ver) {
    n.Split? ==> STAR !in n.kids && forall k :: k in n.kids ==> NoStar(n.kids[k])
  }

  /** A level is split only where something below is newer than its default. */
  ghost predicate Tight(n: Ver) {
    n.Split? ==> (n.def > 0 ==> n.def < MaxVersion(n)) && forall k :: k in n.kids ==> Tight(n.kids[k])
  }

  ghost predicate KidsTight(n: Ver) {
    n.Split? ==> forall k :: k in n.kids ==> Tight(n.kids[k])
  }

  /** A merge into n drops what the written value holds at q: q passes the
      default's key at a split level that has a default. */
  predicate Dropped(n: Ver, q: Path)
    decreases |q|
  {
    n.Split? && q != [] &&
    if q[0] in n.kids then Dropped(n.kids[q[0]], q[1..]) else q[0] == STAR && n.def > 0
  }

  lemma {:induction false} PutNodeNoStar(n: Ver, p: Path, node: Ver)
    requires n.Split? && Nameable(p) && NoStar(n) && NoStar(node)
    ensures NoStar(PutNode(n, p, node))
    decreases |p|
  {
    if |p| > 1 {
      assert forall k :: k in p[1..] ==> k in p;
      PutNodeNoStar(Opened(n, p[0]), p[1..], node);
    }
  }

  lemma {:induction false} CompactNoStar(n: Ver)
    requires NoStar(n)
    ensures NoStar(Compact(n))
    decreases n
  {
    if n.Split? {
      forall k | k in n.kids
        ensures NoStar(Collapsed(Compact(n.kids[k])))
      {
        CompactNoStar(n.kids[k]);
      }
    }
  }

  /** Updating a path with something newer leaves every level on it tight. */
  lemma {:induction false} PutNodeTight(n: Ver, p: Path, node: Ver)
    requires n.Split? && p != [] && Layered(n) && KidsTight(n) && Tight(node)
    requires Ev(n, p) < MaxVersion(node)
    ensures Tight(PutNode(n, p, node)) && MaxVersion(node) <= MaxVersion(PutNode(n, p, node))
    decreases |p|
  {
    EvMonotone(n, [], p);
    if |p| > 1 {
      OpenedEv(n, p[0], p[1..]);
      assert p == [p[0]] + p[1..];
      PutNodeTight(Opened(n, p[0]), p[1..], node);
    }
    KidBelowMax(PutNode(n, p, node), p[0]);
  }

  lemma {:induction false} CompactTight(n: Ver)
    requires Tight(n)
    ensures Tight(Compact(n))
    decreases n
  {
    if n.Split? {
      forall k | k in n.kids
        ensures Tight(Collapsed(Compact(n.kids[k])))
      {
        CompactTight(n.kids[k]);
      }
      forall q: Path
        ensures Ev(Compact(n), q) == Ev(n, q)
      {
        CompactEv(n, q);
      }
      SameEvSameSub(Compact(n), n, []);
      SubAtRoot(n);
      SubAtRoot(Compact(n));
    }
  }

  /** What compaction leaves of a tree is tight, whatever it was. */
  lemma {:induction false} CompactIsTight(n: Ver)
    requires Layered(n)
    ensures KidsTight(Compact(n)) && Tight(Collapsed(Compact(n)))
    decreases n
  {
    if n.Split? {
      var c := Compact(n);
      forall k | k in n.kids
        ensures Tight(Collapsed(Compact(n.kids[k])))
      {
        CompactIsTight(n.kids[k]);
      }
      if c.def > 0 && !Collapsible(c) {
        var k :| k in c.kids;
        KidBelowMax(c, k);
      }
    }
  }

  /** Where a merge drops a key, its level has a default and something newer
      below it. */
  lemma {:induction false} DroppedMeans(n: Ver, q: Path) returns (i: nat)
    requires NoStar(n) && Tight(n) && Dropped(n, q)
    ensures i < |q| && q[i] == STAR && 0 < Ev(n, q[..i]) < Sub(n, q[..i]) && Ev(n, q) == Ev(n, q[..i])
    decreases |q|
  {
    if q[0] in n.kids {
      var j := DroppedMeans(n.kids[q[0]], q[1..]);
      i := j + 1;
      assert q[..i][1..] == q[1..][..j];
    } else {
      i := 0;
      SubAtRoot(n);
    }
  }

  /** And such a level drops the key. */
  lemma {:induction false} DroppedIf(n: Ver, q: Path, i: nat, s: Path)
    requires NoStar(n) && i < |q| && q[i] == STAR && q[..i] <= s
    requires 0 < Ev(n, q[..i]) && Ev(n, s) != Ev(n, q[..i])
    ensures Dropped(n, q)
    decreases i
  {
    if i > 0 && n.Split? && q[0] in n.kids {
      assert q[..i][1..] == q[1..][..i - 1] && q[1..][..i - 1] <= s[1..];
      DroppedIf(n.kids[q[0]], q[1..], i - 1, s[1..]);
    }
  }

  /** What is dropped below a path depends on the versions below it alone. */
  lemma {:induction false} DroppedThere(a: Ver, b: Ver, p: Path, q: Path)
    requires NoStar(a) && Tight(a) && NoStar(b) && STAR !in p && p <= q
    requires forall r: Path :: p <= r ==> Ev(a, r) == Ev(b, r)
    requires Dropped(a, q)
    ensures Dropped(b, q)
  {
    var i := DroppedMeans(a, q);
    forall j | 0 <= j < |p|
      ensures q[j] != STAR
    {
      assert q[j] in p;
    }
    assert p <= q[..i];
    var s := SubAttained(a, q[..i]);
    DroppedIf(b, q, i, s);
  }

  lemma {:induction false} GateDropped(n: Ver, p: Path, r: Path)
    requires STAR !in p
    ensures Dropped(n, p + r) <==> Gate(n, p).Subtree? && Dropped(Gate(n, p).node, r)
    decreases |p|
  {
    if p == [] {
      assert p + r == r;
    } else {
      assert (p + r)[0] == p[0] && (p + r)[1..] == p[1..] + r;
      if n.Split? && p[0] in n.kids { GateDropped(n.kids[p[0]], p[1..], r); }
    }
  }

  lemma {:induction false} GateTight(n: Ver, p: Path)
    requires Tight(n)
    ensures Gate(n, p).Subtree? ==> Tight(Gate(n, p).node)
    decreases |p|
  {
    if p != [] && n.Split? && p[0] in n.kids { GateTight(n.kids[p[0]], p[1..]); }
  }

  lemma {:induction false} GateNoStar(n: Ver, p: Path)
    requires NoStar(n)
    ensures Gate(n, p).Subtree? ==> NoStar(Gate(n, p).node)
    decreases |p|
  {
    if p != [] && n.Split? && p[0] in n.kids { GateNoStar(n.kids[p[0]], p[1..]); }
  }
}
