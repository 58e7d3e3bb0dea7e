/** `mergeReplace`: a broad write over a position whose `_ver` entry is an
    object, decided leaf by leaf. */
module Merge {
  import opened Basics
  import opened Values
  import opened Versions

  datatype Merged = Merged(val: Option<Value>, ver: Ver, changed: bool)

  /** What one enumerated entry becomes: its value, and its entry in the merged
      node when it survives. */
  datatype KidMerge = KidMerge(val: Option<Value>, ver: Option<Ver>)

  function MergeKid(was: Option<Value>, entry: Ver, incoming: Option<Value>, v: Version): KidMerge
    requires v > 0
    decreases entry, 2
  {
    match entry
    case One(e) => if e >= v then KidMerge(was, Some(entry)) else KidMerge(incoming, None)
    case Split(_, _) =>
      var m := MergeReplace(was, entry, incoming, v);
      KidMerge(m.val, if m.ver == One(v) then None else Some(m.ver))
  }

  function MergeReplace(was: Option<Value>, node: Ver, incoming: Option<Value>, v: Version): Merged
    requires node.Split? && v > 0
    decreases node, 1
  {
    if node.def >= v then Merged(was, node, false)
    else
      var outVal := MergeFields(was, node, incoming, v);
      var survivors := Survivors(was, node, incoming, v);
      if exists k :: k in survivors then Merged(Some(Object(outVal)), Split(v, survivors), true)
      else if incoming.Some? && incoming.value.Object? then Merged(Some(Object(outVal)), One(v), true)
      else Merged(incoming, One(v), true)
  }

  /** The entries of the merged node. */
  function Survivors(was: Option<Value>, node: Ver, incoming: Option<Value>, v: Version): map<Key, Ver>
    requires node.Split? && v > 0
    decreases node, 0
  {
    var kid := map k | k in node.kids :: MergeKid(Child(was, k), node.kids[k], Child(incoming, k), v);
    map k | k in kid && kid[k].ver.Some? :: kid[k].ver.value
  }

  /** What an incoming value leaves at a key the node does not enumerate. The
      check that skips enumerated keys finds a level's default under the key
      `*`, so a payload's `*` lands only where there is no default. */
  function Landing(node: Ver, incoming: Option<Value>, k: Key): Option<Value>
    requires node.Split?
  {
    if k == STAR && node.def > 0 then None else Child(incoming, k)
  }

  /** The fields of the merged object: enumerated keys first decided entry by
      entry, then the incoming keys the old default covered. */
  function MergeFields(was: Option<Value>, node: Ver, incoming: Option<Value>, v: Version): map<Key, Value>
    requires node.Split? && v > 0
    decreases node, 0
  {
    var kid := map k | k in node.kids :: MergeKid(Child(was, k), node.kids[k], Child(incoming, k), v);
    var landing := if incoming.Some? && incoming.value.Object? then incoming.value.fields else map[];
    (map k | k in kid && kid[k].val.Some? :: kid[k].val.value) +
    (map k | k in landing && k !in kid && Landing(node, incoming, k).Some? :: landing[k])
  }

  /** The entry key k becomes in a merge that is not gated. */
  function KidAt(was: Option<Value>, node: Ver, incoming: Option<Value>, v: Version, k: Key): KidMerge
    requires node.Split? && v > 0
  {
    if k in node.kids then MergeKid(Child(was, k), node.kids[k], Child(incoming, k), v)
    else KidMerge(Landing(node, incoming, k), None)
  }

  /** One level of such a merge: its entries. */
  lemma {:induction false} MergeEntries(was: Option<Value>, node: Ver, incoming: Option<Value>, v: Version, k: Key)
    requires node.Split? && 0 < v && node.def < v
    ensures var m := MergeReplace(was, node, incoming, v);
            var kid := KidAt(was, node, incoming, v, k);
            && Base(m.ver) == v
            && (m.ver.Split? && k in m.ver.kids <==> kid.ver.Some?)
            && (kid.ver.Some? ==> m.ver.kids[k] == kid.ver.value)
            && (m.ver.Split? ==> exists j :: j in m.ver.kids)
  {
    var survivors := Survivors(was, node, incoming, v);
    assert k in survivors <==> KidAt(was, node, incoming, v, k).ver.Some?;
  }

  /** And its value. */
  lemma {:induction false} MergeChildren(was: Option<Value>, node: Ver, incoming: Option<Value>, v: Version, k: Key)
    requires node.Split? && 0 < v && node.def < v
    ensures var m := MergeReplace(was, node, incoming, v);
            && KindOf(m.val) == (if m.ver.Split? then Branch else KindOf(incoming))
            && Child(m.val, k) == KidAt(was, node, incoming, v, k).val
  {
    var m := MergeReplace(was, node, incoming, v);
    var kid := KidAt(was, node, incoming, v, k);
    MergeEntries(was, node, incoming, v, k);
    if m.ver.Split? || (incoming.Some? && incoming.value.Object?) {
      assert m.val == Some(Object(MergeFields(was, node, incoming, v)));
    } else if k in node.kids {
      MergeKidGone(Child(was, k), node.kids[k], v);
    }
  }

  /** An entry fully superseded by nothing leaves nothing. */
  lemma {:induction false} MergeKidGone(was: Option<Value>, entry: Ver, v: Version)
    requires v > 0 && MergeKid(was, entry, None, v).ver == None
    ensures MergeKid(was, entry, None, v).val == None
  {}

  /** The merged node claims v over everything older and keeps the rest. */
  lemma {:induction false} MergeEv(was: Option<Value>, node: Ver, incoming: Option<Value>, v: Version, q: Path)
    requires node.Split? && v > 0 && Layered(node)
    ensures Ev(MergeReplace(was, node, incoming, v).ver, q) == Max(Ev(node, q), v)
    decreases node
  {
    if node.def >= v {
      EvMonotone(node, [], q);
    } else {
      var k := if q == [] then "" else q[0];
      MergeEntries(was, node, incoming, v, k);
      if q != [] && k in node.kids && node.kids[k].Split? {
        MergeEv(Child(was, k), node.kids[k], Child(incoming, k), v, q[1..]);
      }
    }
  }

  lemma {:induction false} MergeLayered(was: Option<Value>, node: Ver, incoming: Option<Value>, v: Version)
    requires node.Split? && v > 0 && Layered(node)
    ensures Layered(MergeReplace(was, node, incoming, v).ver)
    ensures Base(MergeReplace(was, node, incoming, v).ver) >= v
    decreases node
  {
    if node.def < v {
      var m := MergeReplace(was, node, incoming, v);
      MergeEntries(was, node, incoming, v, "");
      if m.ver.Split? {
        forall k | k in m.ver.kids
          ensures v <= Base(m.ver.kids[k]) && Layered(m.ver.kids[k])
        {
          MergeEntries(was, node, incoming, v, k);
          if node.kids[k].Split? {
            MergeLayered(Child(was, k), node.kids[k], Child(incoming, k), v);
          }
        }
      }
    }
  }

  /** The merge collapses exactly when nothing below is as new as the write. */
  lemma {:induction false} MergeCollapses(was: Option<Value>, node: Ver, incoming: Option<Value>, v: Version)
    requires node.Split? && v > 0
    ensures MergeReplace(was, node, incoming, v).ver.One? <==> MaxVersion(node) < v
    ensures MergeReplace(was, node, incoming, v).ver.One? ==> MergeReplace(was, node, incoming, v).ver == One(v)
    decreases node
  {
    var all := {node.def} + set k | k in node.kids :: MaxVersion(node.kids[k]);
    if node.def >= v {
      assert node.def in all;
    } else {
      var m := MergeReplace(was, node, incoming, v);
      forall k | k in node.kids
        ensures MaxVersion(node.kids[k]) >= v <==> m.ver.Split? && k in m.ver.kids
        ensures MaxVersion(node.kids[k]) <= MaxVersion(node)
      {
        KidBelowMax(node, k);
        MergeEntries(was, node, incoming, v, k);
        if node.kids[k].Split? { MergeCollapses(Child(was, k), node.kids[k], Child(incoming, k), v); }
      }
      MergeEntries(was, node, incoming, v, "");
      if m.ver.Split? {
        var k :| k in m.ver.kids;
        MergeEntries(was, node, incoming, v, k);
      }
    }
  }

  /** What a merged position holds: parts as new as the write keep their
      values, a position above such a part stays an object, everything else
      takes the incoming value, but for the key `*` at a level with a default. */
  lemma {:induction false} MergeKind(was: Option<Value>, node: Ver, incoming: Option<Value>, v: Version, q: Path)
    requires node.Split? && v > 0 && Layered(node)
    ensures KindAt(MergeReplace(was, node, incoming, v).val, q) ==
            if Ev(node, q) >= v then KindAt(was, q)
            else if Sub(node, q) >= v then Branch
            else if Dropped(node, q) then Nothing
            else KindAt(incoming, q)
    decreases node
  {
    if node.def >= v {
      EvMonotone(node, [], q);
    } else {
      var k := if q == [] then "" else q[0];
      MergeEntries(was, node, incoming, v, k);
      MergeChildren(was, node, incoming, v, k);
      if q == [] {
        MergeCollapses(was, node, incoming, v);
      } else if k in node.kids && node.kids[k].Split? {
        MergeKind(Child(was, k), node.kids[k], Child(incoming, k), v, q[1..]);
      } else if Dropped(node, q) {
        AtNothing(q[1..]);
      }
    }
  }

  lemma {:induction false} MergeNoStar(was: Option<Value>, node: Ver, incoming: Option<Value>, v: Version)
    requires node.Split? && v > 0 && NoStar(node)
    ensures NoStar(MergeReplace(was, node, incoming, v).ver)
    decreases node
  {
    if node.def < v {
      var m := MergeReplace(was, node, incoming, v);
      MergeEntries(was, node, incoming, v, STAR);
      if m.ver.Split? {
        forall k | k in m.ver.kids
          ensures NoStar(m.ver.kids[k])
        {
          MergeEntries(was, node, incoming, v, k);
          if node.kids[k].Split? { MergeNoStar(Child(was, k), node.kids[k], Child(incoming, k), v); }
        }
      }
    }
  }

  /** A merge at a version not found below stays split only under something
      newer. */
  lemma {:induction false} MergeTight(was: Option<Value>, node: Ver, incoming: Option<Value>, v: Version)
    requires node.Split? && v > 0 && Layered(node) && Tight(node)
    requires forall q :: Ev(node, q) != v
    ensures Tight(MergeReplace(was, node, incoming, v).ver)
    decreases node
  {
    if node.def < v {
      var m := MergeReplace(was, node, incoming, v);
      MergeEntries(was, node, incoming, v, "");
      if m.ver.Split? {
        MergeStillNewer(was, node, incoming, v);
        forall k | k in m.ver.kids
          ensures Tight(m.ver.kids[k])
        {
          MergeEntries(was, node, incoming, v, k);
          if node.kids[k].Split? {
            forall q: Path
              ensures Ev(node.kids[k], q) != v
            {
              assert Ev(node, [k] + q) == Ev(node.kids[k], q);
            }
            MergeTight(Child(was, k), node.kids[k], Child(incoming, k), v);
          }
        }
      }
    }
  }

  lemma {:induction false} MergeStillNewer(was: Option<Value>, node: Ver, incoming: Option<Value>, v: Version)
    requires node.Split? && v > 0 && Layered(node) && (forall q :: Ev(node, q) != v)
    requires MergeReplace(was, node, incoming, v).ver.Split?
    ensures MaxVersion(MergeReplace(was, node, incoming, v).ver) > v
  {
    var m := MergeReplace(was, node, incoming, v);
    MergeCollapses(was, node, incoming, v);
    SubAtRoot(node);
    var r := SubAttained(node, []);
    MergeEv(was, node, incoming, v, r);
    SubBounds(m.ver, [], r);
    SubAtRoot(m.ver);
  }
}
