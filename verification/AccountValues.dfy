/** The mirror of account-scoped values: the batches that bring a target record
    in line with its carrier, and the fixpoint applying them reaches. */
module AccountValues {
  import opened Basics
  import opened Values
  import opened Versions
  import opened Gated
  import opened Histories
  import opened Lifecycle

  datatype Scope = Synced | Account | Local | Derived

  /** The declared scope of a property; None while its definition is unknown. */
  type Resolver = (Key, Key) -> Option<Scope>

  datatype PathOp = PathOp(typeId: Key, propId: Key, val: Option<Value>)

  /** Writes that share a carrier version: sets, and unsets (None). */
  datatype Batch = Batch(ver: Version, ops: seq<PathOp>)

  predicate Reserved(head: Key) {
    head == "id" || (head != "" && head[0] == '_')
  }

  predicate AccountPath(resolve: Option<Resolver>, t: Key, p: Key) {
    resolve.Some? && resolve.value(t, p) == Some(Account)
  }

  /** The paths `visitValuePaths` yields. */
  predicate Visits(r: Option<Doc>, t: Key, p: Key) {
    && r.Some? && !Reserved(t) && t in r.value.fields
    && r.value.fields[t].Object? && p in r.value.fields[t].fields
  }

  ghost function PathsOf(r: Option<Doc>): set<(Key, Key)> {
    if r.None? then {}
    else
      set t, p | t in r.value.fields && !Reserved(t) && r.value.fields[t].Object? &&
                 p in r.value.fields[t].fields :: (t, p)
  }

  ghost function VersionAt(r: Option<Doc>, t: Key, p: Key): Version {
    if r.Some? then Sub(r.value.ver, [t, p]) else 0
  }

  function ValueAt(r: Doc, t: Key, p: Key): Option<Value> {
    At(Tree(r), [t, p])
  }

  /** The paths the mirror has to write. */
  ghost predicate Acts(carrier: Doc, target: Option<Doc>, resolve: Option<Resolver>, t: Key, p: Key) {
    && AccountPath(resolve, t, p)
    && VersionAt(target, t, p) < VersionAt(Some(carrier), t, p)
    && (Visits(Some(carrier), t, p) || (Visits(target, t, p) && ValueAt(carrier, t, p).None?))
  }

  predicate Names(op: PathOp, t: Key, p: Key) {
    op.typeId == t && op.propId == p
  }

  ghost predicate HasOp(ops: seq<PathOp>, t: Key, p: Key) {
    exists op :: op in ops && Names(op, t, p)
  }

  /** A write the mirror owes: the carrier's value at the carrier's version. */
  ghost predicate Owed(carrier: Doc, target: Option<Doc>, resolve: Option<Resolver>, v: Version, op: PathOp) {
    && Acts(carrier, target, resolve, op.typeId, op.propId)
    && v == VersionAt(Some(carrier), op.typeId, op.propId)
    && op.val == ValueAt(carrier, op.typeId, op.propId)
  }

  ghost predicate OpsOk(carrier: Doc, target: Option<Doc>, resolve: Option<Resolver>, v: Version, ops: seq<PathOp>) {
    && ops != []
    && (forall op :: op in ops ==> Owed(carrier, target, resolve, v, op))
    && (forall i, j :: 0 <= i < j < |ops| ==> !Names(ops[i], ops[j].typeId, ops[j].propId))
  }

  /** What `Diff` promises: exactly the owed writes, each once, grouped by
      version, oldest first. */
  ghost predicate IsDiff(carrier: Doc, target: Option<Doc>, resolve: Option<Resolver>, out: seq<Batch>) {
    && (forall i, j :: 0 <= i < j < |out| ==> out[i].ver < out[j].ver)
    && (forall i :: 0 <= i < |out| ==> OpsOk(carrier, target, resolve, out[i].ver, out[i].ops))
    && (forall t, p :: Acts(carrier, target, resolve, t, p) ==>
          exists i :: 0 <= i < |out| && HasOp(out[i].ops, t, p))
  }

  // -------------------------------------------------------------------- methods

  /** `visitValuePaths`, collecting. */
  method ValuePaths(r: Option<Doc>) returns (paths: seq<(Key, Key)>)
    ensures forall t, p :: (t, p) in paths <==> Visits(r, t, p)
    ensures forall i, j :: 0 <= i < j < |paths| ==> paths[i] != paths[j]
  {
    paths := [];
    if r.None? { return; }
    var heads := r.value.fields.Keys;
    while heads != {}
      invariant heads <= r.value.fields.Keys
      invariant forall t, p :: (t, p) in paths <==> Visits(r, t, p) && t !in heads
      invariant forall i, j :: 0 <= i < j < |paths| ==> paths[i] != paths[j]
      decreases heads
    {
      var t :| t in heads;
      heads := heads - {t};
      if !Reserved(t) && r.value.fields[t].Object? {
        var props := r.value.fields[t].fields.Keys;
        while props != {}
          invariant props <= r.value.fields[t].fields.Keys
          invariant forall s, p :: (s, p) in paths <==>
                      Visits(r, s, p) && s !in heads && (s == t ==> p !in props)
          invariant forall i, j :: 0 <= i < j < |paths| ==> paths[i] != paths[j]
          decreases props
        {
          var p :| p in props;
          props := props - {p};
          assert (t, p) !in paths;
          paths := paths + [(t, p)];
        }
      }
    }
  }

  /** The groups collected so far hold exactly the acting paths of `done`. */
  ghost predicate Collected(carrier: Doc, target: Option<Doc>, resolve: Option<Resolver>,
                            byVersion: map<Version, seq<PathOp>>, done: set<(Key, Key)>) {
    && (forall v :: v in byVersion ==> OpsOk(carrier, target, resolve, v, byVersion[v]))
    && (forall v, op :: v in byVersion && op in byVersion[v] ==> (op.typeId, op.propId) in done)
    && (forall t, p :: (t, p) in done && Acts(carrier, target, resolve, t, p) ==>
          VersionAt(Some(carrier), t, p) in byVersion && HasOp(byVersion[VersionAt(Some(carrier), t, p)], t, p))
  }

  function Grouped(byVersion: map<Version, seq<PathOp>>, v: Version, op: PathOp): map<Version, seq<PathOp>> {
    byVersion[v := (if v in byVersion then byVersion[v] else []) + [op]]
  }

  lemma HasOpAppend(ops: seq<PathOp>, op: PathOp, t: Key, p: Key)
    ensures HasOp(ops + [op], t, p) <==> HasOp(ops, t, p) || Names(op, t, p)
  {
    assert forall o :: o in ops + [op] <==> o in ops || o == op;
  }

  lemma CollectOne(carrier: Doc, target: Option<Doc>, resolve: Option<Resolver>,
                   byVersion: map<Version, seq<PathOp>>, done: set<(Key, Key)>, v: Version, op: PathOp)
    requires Collected(carrier, target, resolve, byVersion, done)
    requires Owed(carrier, target, resolve, v, op) && (op.typeId, op.propId) !in done
    ensures Collected(carrier, target, resolve, Grouped(byVersion, v, op), done + {(op.typeId, op.propId)})
  {
    var after := Grouped(byVersion, v, op);
    var before := if v in byVersion then byVersion[v] else [];
    assert forall o :: o in before + [op] <==> o in before || o == op;
    forall t, p | (t, p) in done + {(op.typeId, op.propId)} && Acts(carrier, target, resolve, t, p)
      ensures VersionAt(Some(carrier), t, p) in after && HasOp(after[VersionAt(Some(carrier), t, p)], t, p)
    {
      HasOpAppend(before, op, t, p);
    }
  }

  lemma CollectNone(carrier: Doc, target: Option<Doc>, resolve: Option<Resolver>,
                    byVersion: map<Version, seq<PathOp>>, done: set<(Key, Key)>, tp: (Key, Key))
    requires Collected(carrier, target, resolve, byVersion, done)
    requires !Acts(carrier, target, resolve, tp.0, tp.1)
    ensures Collected(carrier, target, resolve, byVersion, done + {tp})
  {}

  /** `GetRecordVersion` on a record that may be absent. */
  method RecordVersion(r: Option<Doc>, t: Key, p: Key) returns (v: Version)
    ensures v == VersionAt(r, t, p)
  {
    if r.None? { return 0; }
    v := GetVersion(r.value.ver, [t, p]);
  }

  lemma PathsAreVisited(r: Option<Doc>)
    ensures forall tp :: tp in PathsOf(r) <==> Visits(r, tp.0, tp.1)
  {
    forall tp: (Key, Key)
      ensures tp in PathsOf(r) <==> Visits(r, tp.0, tp.1)
    {
      var (t, p) := tp;
      assert Visits(r, t, p) ==> (t, p) in PathsOf(r);
    }
  }

  /** Pass 1: carrier values the target has not caught up to. */
  method CollectSets(carrier: Doc, target: Option<Doc>, resolve: Option<Resolver>)
    returns (byVersion: map<Version, seq<PathOp>>)
    ensures Collected(carrier, target, resolve, byVersion, PathsOf(Some(carrier)))
  {
    var paths := ValuePaths(Some(carrier));
    byVersion := map[];
    ghost var done: set<(Key, Key)> := {};
    for i := 0 to |paths|
      invariant Collected(carrier, target, resolve, byVersion, done)
      invariant forall tp :: tp in done <==> tp in paths[..i]
    {
      assert paths[..i + 1] == paths[..i] + [paths[i]];
      assert paths[i] in paths && paths[i] !in done;
      var (t, p) := paths[i];
      assert paths[i] == (t, p);
      var v := RecordVersion(Some(carrier), t, p);
      var have := RecordVersion(target, t, p);
      if AccountPath(resolve, t, p) && v != 0 && have < v {
        var op := PathOp(t, p, ValueAt(carrier, t, p));
        CollectOne(carrier, target, resolve, byVersion, done, v, op);
        byVersion := Grouped(byVersion, v, op);
      } else {
        CollectNone(carrier, target, resolve, byVersion, done, (t, p));
      }
      done := done + {(t, p)};
    }
    assert paths[..|paths|] == paths;
    PathsAreVisited(Some(carrier));
    assert forall tp :: tp in done <==> tp in PathsOf(Some(carrier));
  }

  /** Pass 2: paths the target holds that the carrier claims without a value. */
  method CollectUnsets(carrier: Doc, target: Option<Doc>, resolve: Option<Resolver>,
                       sets: map<Version, seq<PathOp>>)
    returns (byVersion: map<Version, seq<PathOp>>)
    requires Collected(carrier, target, resolve, sets, PathsOf(Some(carrier)))
    ensures Collected(carrier, target, resolve, byVersion, PathsOf(Some(carrier)) + PathsOf(target))
  {
    var paths := ValuePaths(target);
    byVersion := sets;
    ghost var before := PathsOf(Some(carrier));
    ghost var done := before;
    for i := 0 to |paths|
      invariant Collected(carrier, target, resolve, byVersion, done)
      invariant forall tp :: tp in done <==> tp in before || tp in paths[..i]
    {
      assert paths[..i + 1] == paths[..i] + [paths[i]];
      assert paths[i] in paths && paths[i] !in paths[..i];
      var (t, p) := paths[i];
      assert paths[i] == (t, p);
      CarrierHas(carrier, t, p);
      if ValueAt(carrier, t, p).None? {
        var v := RecordVersion(Some(carrier), t, p);
        var have := RecordVersion(target, t, p);
        if AccountPath(resolve, t, p) && v != 0 && have < v {
          var op := PathOp(t, p, None);
          CollectOne(carrier, target, resolve, byVersion, done, v, op);
          byVersion := Grouped(byVersion, v, op);
        } else {
          CollectNone(carrier, target, resolve, byVersion, done, (t, p));
        }
        done := done + {(t, p)};
      } else {
        assert (t, p) in done;
      }
    }
    assert paths[..|paths|] == paths;
    PathsAreVisited(target);
    assert forall tp :: tp in done <==> tp in before + PathsOf(target);
  }

  /** A record holds a value at a two-segment path exactly when the visit of an
      unreserved head meets it. */
  lemma CarrierHas(r: Doc, t: Key, p: Key)
    ensures !Reserved(t) ==> (ValueAt(r, t, p).Some? <==> Visits(Some(r), t, p))
  {
    assert [t, p][1..] == [p];
    AtKey(Child(Tree(r), t), p);
  }

  /** Versions before the cut are batched, in order; the rest are all newer. */
  ghost predicate SortedSoFar(byVersion: map<Version, seq<PathOp>>, rest: set<Version>, out: seq<Batch>) {
    && rest <= byVersion.Keys
    && (forall i, j :: 0 <= i < j < |out| ==> out[i].ver < out[j].ver)
    && (forall i :: 0 <= i < |out| ==> out[i].ver in byVersion && out[i].ops == byVersion[out[i].ver])
    && (forall i, v :: 0 <= i < |out| && v in rest ==> out[i].ver < v)
    && (forall v :: v in byVersion && v !in rest ==> HasBatch(out, v))
  }

  ghost predicate HasBatch(out: seq<Batch>, v: Version) {
    exists i :: 0 <= i < |out| && out[i].ver == v
  }

  lemma SortedStep(byVersion: map<Version, seq<PathOp>>, rest: set<Version>, out: seq<Batch>, v: Version)
    requires SortedSoFar(byVersion, rest, out) && v in rest && forall u :: u in rest ==> v <= u
    ensures SortedSoFar(byVersion, rest - {v}, out + [Batch(v, byVersion[v])])
  {
    var after := out + [Batch(v, byVersion[v])];
    assert after[|out|].ver == v;
    forall u | u in byVersion && u !in rest - {v}
      ensures HasBatch(after, u)
    {
      if u != v {
        var i :| 0 <= i < |out| && out[i].ver == u;
        assert after[i].ver == u;
      }
    }
  }

  /** The groups as batches, oldest version first. */
  method Sorted(byVersion: map<Version, seq<PathOp>>) returns (out: seq<Batch>)
    ensures SortedSoFar(byVersion, {}, out)
  {
    out := [];
    var rest := byVersion.Keys;
    while rest != {}
      invariant SortedSoFar(byVersion, rest, out)
      decreases rest
    {
      var v := Least(rest);
      SortedStep(byVersion, rest, out, v);
      out := out + [Batch(v, byVersion[v])];
      rest := rest - {v};
    }
  }

  method Least(s: set<Version>) returns (m: Version)
    requires s != {}
    ensures m in s && forall v :: v in s ==> m <= v
  {
    m :| m in s;
    var rest := s - {m};
    while rest != {}
      invariant rest <= s && m in s
      invariant forall v :: v in s && v !in rest ==> m <= v
      decreases rest
    {
      var v :| v in rest;
      if v < m { m := v; }
      rest := rest - {v};
    }
  }

  /** `Diff`. */
  method Diff(carrier: Option<Doc>, target: Option<Doc>, resolve: Option<Resolver>) returns (out: seq<Batch>)
    ensures carrier.None? ==> out == []
    ensures carrier.Some? ==> IsDiff(carrier.value, target, resolve, out)
  {
    if carrier.None? { return []; }
    var c := carrier.value;
    var sets := CollectSets(c, target, resolve);
    var byVersion := CollectUnsets(c, target, resolve, sets);
    out := Sorted(byVersion);
    forall t, p | Acts(c, target, resolve, t, p)
      ensures exists i :: 0 <= i < |out| && HasOp(out[i].ops, t, p)
    {
      assert (t, p) in PathsOf(Some(c)) + PathsOf(target);
      var v := VersionAt(Some(c), t, p);
      assert HasBatch(out, v);
      var i :| 0 <= i < |out| && out[i].ver == v;
      assert HasOp(out[i].ops, t, p);
    }
  }

  // ------------------------------------------------------------------- applying

  /** A row as the apply path stores it: every change ends with a compaction. */
  ghost predicate Stored(d: Doc) {
    Valid(d) && Tight(d.ver)
  }

  lemma TidiedIsStored(d: Doc)
    requires Valid(d)
    ensures Stored(Tidied(d))
  {
    CompactInvisible(d);
    CompactIsTight(d.ver);
  }

  predicate Segment(k: Key) {
    k != "" && k != STAR && '.' !in k
  }

  /** `validatePath` on a two-segment path. A value may hold keys that no op's
      path may name, and the apply path sheds the ops naming them. */
  predicate Writable(t: Key, p: Key) {
    Segment(t) && Segment(p) && !Reserved(t)
  }

  function Kept(ops: seq<PathOp>): (r: seq<PathOp>)
    ensures forall op :: op in r <==> op in ops && Writable(op.typeId, op.propId)
  {
    if ops == [] then []
    else
      var r, op := Kept(ops[..|ops| - 1]), ops[|ops| - 1];
      if Writable(op.typeId, op.propId) then r + [op] else r
  }

  lemma {:induction false} KeptDistinct(ops: seq<PathOp>)
    requires forall i, j :: 0 <= i < j < |ops| ==> !Names(ops[i], ops[j].typeId, ops[j].propId)
    ensures forall i, j :: 0 <= i < j < |Kept(ops)| ==> !Names(Kept(ops)[i], Kept(ops)[j].typeId, Kept(ops)[j].propId)
    decreases |ops|
  {
    if ops != [] {
      var init := ops[..|ops| - 1];
      KeptDistinct(init);
      forall i | 0 <= i < |Kept(init)|
        ensures !Names(Kept(init)[i], ops[|ops| - 1].typeId, ops[|ops| - 1].propId)
      {
        assert Kept(init)[i] in init;
      }
    }
  }

  function WriteOf(v: Version, op: PathOp): Write {
    Write([op.typeId, op.propId], op.val, v)
  }

  /** The gated writes of one batch. */
  function BatchWrites(b: Batch): (ws: seq<Write>)
    ensures |ws| == |Kept(b.ops)| && forall i :: 0 <= i < |ws| ==> ws[i] == WriteOf(b.ver, Kept(b.ops)[i])
    ensures b.ver > 0 ==> ProperSeq(ws)
  {
    var ops := Kept(b.ops);
    assert forall i :: 0 <= i < |ops| ==> ops[i] in ops;
    seq(|ops|, i requires 0 <= i < |ops| => WriteOf(b.ver, ops[i]))
  }

  /** One `InjectedSet` per batch: gated writes, then the compaction. */
  function Injected(d: Doc, out: seq<Batch>): (r: Doc)
    requires d.ver.Split? && forall i :: 0 <= i < |out| ==> out[i].ver > 0
    ensures r.ver.Split?
    decreases |out|
  {
    if out == [] then d
    else Tidied(PutAll(Injected(d, out[..|out| - 1]), BatchWrites(out[|out| - 1])))
  }

  ghost predicate Written(ws: seq<Write>, q: Path) {
    exists w :: w in ws && w.path == q
  }

  /** d is the record d0 after writes to distinct two-segment paths, each newer
      than anything d0 held around its path. */
  ghost predicate Mirrored(d0: Doc, d: Doc, ws: seq<Write>) {
    && Stored(d)
    && (forall w, r: Path :: w in ws ==>
          KindAt(Tree(d), w.path + r) == (if Dropped(d0.ver, w.path + r) then Nothing else KindAt(w.val, r)))
    && (forall w :: w in ws ==> Sub(d.ver, w.path) == w.ver)
    && (forall q: Path, r: Path :: |q| == 2 && !Written(ws, q) ==> KindAt(Tree(d), q + r) == KindAt(Tree(d0), q + r))
    && (forall q: Path, r: Path :: |q| == 2 && !Written(ws, q) && q <= r ==> Ev(d.ver, r) == Ev(d0.ver, r))
  }

  /** A write moves no version under another path of the same length. */
  lemma PutElsewhere(d: Doc, w: Write, q: Path, r: Path)
    requires Valid(d) && w.path != [] && w.ver > 0 && |q| == |w.path| && q != w.path && q <= r
    ensures Ev(Put(d, w.path, w.val, w.ver).ver, r) == Ev(d.ver, r)
  {
    PutEv(d, w.path, w.val, w.ver, r);
    if w.path <= r { PrefixesOf(w.path, q, r); }
  }

  lemma PutSub(d: Doc, w: Write, q: Path)
    requires Valid(d) && w.path != [] && w.ver > 0 && |q| == |w.path| && Sub(d.ver, w.path) < w.ver
    ensures Sub(Put(d, w.path, w.val, w.ver).ver, q) == if q == w.path then w.ver else Sub(d.ver, q)
  {
    var u := Put(d, w.path, w.val, w.ver).ver;
    if q == w.path {
      var x := SubAttained(u, q);
      PutEv(d, w.path, w.val, w.ver, x);
      SubBounds(d.ver, q, x);
      PutEv(d, w.path, w.val, w.ver, q);
      SubBounds(u, q, q);
    } else {
      forall r | q <= r
        ensures Ev(u, r) == Ev(d.ver, r)
      {
        PutElsewhere(d, w, q, r);
      }
      SameEvSameSub(u, d.ver, q);
    }
  }

  lemma PutKinds(d: Doc, w: Write, q: Path, r: Path)
    requires Valid(d) && Nameable(w.path) && w.ver > 0 && |q| == |w.path| && Sub(d.ver, w.path) < w.ver
    ensures KindAt(Tree(Put(d, w.path, w.val, w.ver)), q + r) ==
            if q != w.path then KindAt(Tree(d), q + r)
            else if Dropped(d.ver, q + r) then Nothing else KindAt(w.val, r)
  {
    SubBounds(d.ver, w.path, w.path);
    PutKind(d, w.path, w.val, w.ver, q + r);
    if w.path <= q + r { PrefixesOf(w.path, q, q + r); }
    if q == w.path {
      SubBounds(d.ver, q, q + r);
      var x := SubAttained(d.ver, q + r);
      SubBounds(d.ver, q, x);
      assert (q + r)[|q|..] == r;
    }
  }

  lemma PutStored(d: Doc, w: Write)
    requires Stored(d) && Nameable(w.path) && w.ver > 0 && Sub(d.ver, w.path) < w.ver
    ensures Stored(Put(d, w.path, w.val, w.ver))
  {
    PutValid(d, w.path, w.val, w.ver);
    forall r | w.path <= r
      ensures Ev(d.ver, r) != w.ver
    {
      SubBounds(d.ver, w.path, r);
    }
    PutTight(d, w.path, w.val, w.ver);
  }

  /** A new write over a mirrored record: nothing written before it lies at or
      above its path. */
  ghost predicate NewWrite(d0: Doc, ws: seq<Write>, w: Write) {
    Nameable(w.path) && |w.path| == 2 && w.ver > 0 && Sub(d0.ver, w.path) < w.ver && !Written(ws, w.path)
  }

  lemma MirrorUntouched(d0: Doc, d: Doc, ws: seq<Write>, q: Path)
    requires Stored(d0) && Mirrored(d0, d, ws) && |q| == 2 && !Written(ws, q)
    ensures Sub(d.ver, q) == Sub(d0.ver, q)
    ensures STAR !in q ==> forall r: Path :: Dropped(d.ver, q + r) <==> Dropped(d0.ver, q + r)
  {
    SameEvSameSub(d.ver, d0.ver, q);
    if STAR !in q {
      forall r: Path
        ensures Dropped(d.ver, q + r) <==> Dropped(d0.ver, q + r)
      {
        if Dropped(d.ver, q + r) { DroppedThere(d.ver, d0.ver, q, q + r); }
        if Dropped(d0.ver, q + r) { DroppedThere(d0.ver, d.ver, q, q + r); }
      }
    }
  }

  /** What the new write leaves at the paths written before, and at its own. */
  lemma {:induction false} MirrorWritten(d0: Doc, d: Doc, ws: seq<Write>, w: Write, x: Write)
    requires Stored(d0) && Mirrored(d0, d, ws) && NewWrite(d0, ws, w)
    requires (x in ws && |x.path| == 2) || x == w
    ensures Sub(Put(d, w.path, w.val, w.ver).ver, x.path) == x.ver
    ensures forall r: Path :: KindAt(Tree(Put(d, w.path, w.val, w.ver)), x.path + r) ==
                              if Dropped(d0.ver, x.path + r) then Nothing else KindAt(x.val, r)
  {
    MirrorUntouched(d0, d, ws, w.path);
    if x != w { assert x in ws && Written(ws, x.path); }
    PutSub(d, w, x.path);
    forall r: Path
      ensures KindAt(Tree(Put(d, w.path, w.val, w.ver)), x.path + r) ==
              if Dropped(d0.ver, x.path + r) then Nothing else KindAt(x.val, r)
    {
      PutKinds(d, w, x.path, r);
    }
  }

  /** And at every other path. */
  lemma {:induction false} MirrorUnwritten(d0: Doc, d: Doc, ws: seq<Write>, w: Write, q: Path, r: Path)
    requires Stored(d0) && Mirrored(d0, d, ws) && NewWrite(d0, ws, w)
    requires |q| == 2 && q != w.path && !Written(ws, q)
    ensures KindAt(Tree(Put(d, w.path, w.val, w.ver)), q + r) == KindAt(Tree(d0), q + r)
    ensures q <= r ==> Ev(Put(d, w.path, w.val, w.ver).ver, r) == Ev(d0.ver, r)
  {
    MirrorUntouched(d0, d, ws, w.path);
    PutKinds(d, w, q, r);
    if q <= r { PutElsewhere(d, w, q, r); }
  }

  lemma {:induction false} MirrorOne(d0: Doc, d: Doc, ws: seq<Write>, w: Write)
    requires Stored(d0) && Mirrored(d0, d, ws) && NewWrite(d0, ws, w)
    requires forall x :: x in ws ==> |x.path| == 2
    ensures Mirrored(d0, Put(d, w.path, w.val, w.ver), ws + [w])
  {
    MirrorUntouched(d0, d, ws, w.path);
    PutStored(d, w);
    assert forall x :: x in ws + [w] <==> x in ws || x == w;
    forall x | x in ws + [w]
      ensures Sub(Put(d, w.path, w.val, w.ver).ver, x.path) == x.ver
      ensures forall r: Path :: KindAt(Tree(Put(d, w.path, w.val, w.ver)), x.path + r) ==
                                if Dropped(d0.ver, x.path + r) then Nothing else KindAt(x.val, r)
    {
      MirrorWritten(d0, d, ws, w, x);
    }
    forall q: Path, r: Path | |q| == 2 && !Written(ws + [w], q)
      ensures KindAt(Tree(Put(d, w.path, w.val, w.ver)), q + r) == KindAt(Tree(d0), q + r)
      ensures q <= r ==> Ev(Put(d, w.path, w.val, w.ver).ver, r) == Ev(d0.ver, r)
    {
      assert w in ws + [w];
      assert !Written(ws, q);
      MirrorUnwritten(d0, d, ws, w, q, r);
    }
  }

  lemma {:induction false} MirrorTidy(d0: Doc, d: Doc, ws: seq<Write>)
    requires Mirrored(d0, d, ws)
    ensures Mirrored(d0, Tidied(d), ws)
  {
    CompactInvisible(d);
    TidiedIsStored(d);
  }

  ghost predicate NewWrites(d0: Doc, ws: seq<Write>, bs: seq<Write>) {
    && (forall w :: w in bs ==> NewWrite(d0, ws, w))
    && (forall i, j :: 0 <= i < j < |bs| ==> bs[i].path != bs[j].path)
  }

  lemma NewWritesInit(d0: Doc, ws: seq<Write>, init: seq<Write>, w: Write)
    requires NewWrites(d0, ws, init + [w])
    ensures NewWrites(d0, ws, init) && NewWrite(d0, ws + init, w)
  {
    var bs := init + [w];
    assert bs[|init|] == w && w in bs;
    forall i | 0 <= i < |init|
      ensures init[i].path != w.path && init[i] in bs
    {
      assert bs[i] == init[i];
    }
    forall i, j | 0 <= i < j < |init|
      ensures init[i].path != init[j].path
    {
      assert bs[i] == init[i] && bs[j] == init[j];
    }
  }

  lemma {:induction false} MirrorMany(d0: Doc, d: Doc, ws: seq<Write>, bs: seq<Write>)
    requires Stored(d0) && Mirrored(d0, d, ws) && NewWrites(d0, ws, bs) && forall x :: x in ws ==> |x.path| == 2
    ensures ProperSeq(bs) && Mirrored(d0, PutAll(d, bs), ws + bs)
    ensures forall x :: x in ws + bs ==> |x.path| == 2
    decreases |bs|
  {
    if bs == [] {
      assert ws + bs == ws;
    } else {
      var init, w := bs[..|bs| - 1], bs[|bs| - 1];
      assert bs == init + [w];
      NewWritesInit(d0, ws, init, w);
      MirrorMany(d0, d, ws, init);
      MirrorLast(d0, d, ws, init, w);
    }
  }

  lemma {:induction false} MirrorLast(d0: Doc, d: Doc, ws: seq<Write>, init: seq<Write>, w: Write)
    requires Stored(d0) && d.ver.Split? && ProperSeq(init) && Mirrored(d0, PutAll(d, init), ws + init)
    requires forall x :: x in ws + init ==> |x.path| == 2
    requires NewWrite(d0, ws + init, w)
    ensures ProperSeq(init + [w]) && Mirrored(d0, PutAll(d, init + [w]), ws + (init + [w]))
    ensures forall x :: x in ws + (init + [w]) ==> |x.path| == 2
  {
    MirrorOne(d0, PutAll(d, init), ws + init, w);
    assert (init + [w])[..|init|] == init;
    assert ws + (init + [w]) == ws + init + [w];
  }

  function AllWrites(out: seq<Batch>): seq<Write>
    decreases |out|
  {
    if out == [] then [] else AllWrites(out[..|out| - 1]) + BatchWrites(out[|out| - 1])
  }

  ghost predicate WritesOp(out: seq<Batch>, i: int, op: PathOp, w: Write) {
    0 <= i < |out| && op in out[i].ops && Writable(op.typeId, op.propId) && w == WriteOf(out[i].ver, op)
  }

  lemma InBatch(b: Batch, w: Write)
    ensures w in BatchWrites(b) <==>
            exists op :: op in b.ops && Writable(op.typeId, op.propId) && w == WriteOf(b.ver, op)
  {
    if op :| op in b.ops && Writable(op.typeId, op.propId) && w == WriteOf(b.ver, op) {
      var k :| 0 <= k < |Kept(b.ops)| && Kept(b.ops)[k] == op;
      assert BatchWrites(b)[k] == w;
    }
    if w in BatchWrites(b) {
      var k :| 0 <= k < |BatchWrites(b)| && BatchWrites(b)[k] == w;
      assert Kept(b.ops)[k] in Kept(b.ops);
    }
  }

  ghost predicate SomeWritesOp(out: seq<Batch>, w: Write) {
    exists i, op :: WritesOp(out, i, op, w)
  }

  lemma {:induction false} InLastBatch(out: seq<Batch>, w: Write)
    requires out != []
    ensures SomeWritesOp(out, w) <==> SomeWritesOp(out[..|out| - 1], w) || w in BatchWrites(out[|out| - 1])
  {
    var n := |out| - 1;
    InBatch(out[n], w);
    if SomeWritesOp(out[..n], w) {
      var i, op :| WritesOp(out[..n], i, op, w);
      assert WritesOp(out, i, op, w);
    }
    if w in BatchWrites(out[n]) {
      var op :| op in out[n].ops && Writable(op.typeId, op.propId) && w == WriteOf(out[n].ver, op);
      assert WritesOp(out, n, op, w);
    }
    if SomeWritesOp(out, w) {
      var i, op :| WritesOp(out, i, op, w);
      if i < n { assert WritesOp(out[..n], i, op, w); }
    }
  }

  lemma {:induction false} InAllWrites(out: seq<Batch>, w: Write)
    ensures w in AllWrites(out) <==> SomeWritesOp(out, w)
    decreases |out|
  {
    if out != [] {
      InAllWrites(out[..|out| - 1], w);
      InLastBatch(out, w);
    }
  }

  /** Batches that are each sound, from older to newer. */
  ghost predicate Sound(carrier: Doc, target: Doc, resolve: Option<Resolver>, out: seq<Batch>) {
    && (forall i, j :: 0 <= i < j < |out| ==> out[i].ver < out[j].ver)
    && (forall i :: 0 <= i < |out| ==> OpsOk(carrier, Some(target), resolve, out[i].ver, out[i].ops) && out[i].ver > 0)
  }

  /** A write of an earlier batch carries the version its path has in the
      carrier, which is older than the last batch's. */
  lemma EarlierWrite(carrier: Doc, target: Doc, resolve: Option<Resolver>, out: seq<Batch>, x: Write)
    requires out != [] && Sound(carrier, target, resolve, out) && x in AllWrites(out[..|out| - 1])
    ensures |x.path| == 2 && x.ver == VersionAt(Some(carrier), x.path[0], x.path[1]) < out[|out| - 1].ver
  {
    InAllWrites(out[..|out| - 1], x);
    var i, op :| WritesOp(out[..|out| - 1], i, op, x);
    assert Owed(carrier, Some(target), resolve, out[i].ver, op);
  }

  lemma {:induction false} BatchWriteIsNew(carrier: Doc, target: Doc, resolve: Option<Resolver>, out: seq<Batch>,
                                           w: Write)
    requires out != [] && Sound(carrier, target, resolve, out) && w in BatchWrites(out[|out| - 1])
    ensures NewWrite(target, AllWrites(out[..|out| - 1]), w)
  {
    var b := out[|out| - 1];
    InBatch(b, w);
    var op :| op in b.ops && Writable(op.typeId, op.propId) && w == WriteOf(b.ver, op);
    assert Owed(carrier, Some(target), resolve, b.ver, op);
    forall x | x in AllWrites(out[..|out| - 1])
      ensures x.path != w.path
    {
      EarlierWrite(carrier, target, resolve, out, x);
    }
  }

  lemma {:induction false} BatchIsNew(carrier: Doc, target: Doc, resolve: Option<Resolver>, out: seq<Batch>)
    requires out != [] && Sound(carrier, target, resolve, out)
    ensures NewWrites(target, AllWrites(out[..|out| - 1]), BatchWrites(out[|out| - 1]))
  {
    var b := out[|out| - 1];
    forall w | w in BatchWrites(b)
      ensures NewWrite(target, AllWrites(out[..|out| - 1]), w)
    {
      BatchWriteIsNew(carrier, target, resolve, out, w);
    }
    KeptDistinct(b.ops);
    var ops := Kept(b.ops);
    forall i, j | 0 <= i < j < |BatchWrites(b)|
      ensures BatchWrites(b)[i].path != BatchWrites(b)[j].path
    {
      assert !Names(ops[i], ops[j].typeId, ops[j].propId);
      assert BatchWrites(b)[i].path[0] == ops[i].typeId && BatchWrites(b)[i].path[1] == ops[i].propId;
    }
  }

  lemma {:induction false} MirrorAll(carrier: Doc, target: Doc, resolve: Option<Resolver>, out: seq<Batch>)
    requires Stored(target) && Sound(carrier, target, resolve, out)
    ensures Mirrored(target, Injected(target, out), AllWrites(out))
    ensures forall w :: w in AllWrites(out) ==> |w.path| == 2
    decreases |out|
  {
    if out != [] {
      var n := |out| - 1;
      MirrorAll(carrier, target, resolve, out[..n]);
      BatchIsNew(carrier, target, resolve, out);
      MirrorMany(target, Injected(target, out[..n]), AllWrites(out[..n]), BatchWrites(out[n]));
      MirrorTidy(target, PutAll(Injected(target, out[..n]), BatchWrites(out[n])), AllWrites(out));
    }
  }

  lemma DiffIsSound(carrier: Doc, target: Doc, resolve: Option<Resolver>, out: seq<Batch>)
    requires IsDiff(carrier, Some(target), resolve, out)
    ensures Sound(carrier, target, resolve, out)
  {
    forall i | 0 <= i < |out|
      ensures out[i].ver > 0
    {
      assert Owed(carrier, Some(target), resolve, out[i].ver, out[i].ops[0]);
    }
  }

  // ------------------------------------------------------------------ one pass

  /** The batches of a diff but for those at the versions whose injection
      failed. */
  ghost predicate Applied(carrier: Doc, target: Doc, resolve: Option<Resolver>, failed: set<Version>,
                          out: seq<Batch>) {
    && Sound(carrier, target, resolve, out)
    && (forall i :: 0 <= i < |out| ==> out[i].ver !in failed)
    && (forall t, p :: Acts(carrier, Some(target), resolve, t, p) && VersionAt(Some(carrier), t, p) !in failed ==>
          exists i :: 0 <= i < |out| && HasOp(out[i].ops, t, p))
  }

  function Succeeded(out: seq<Batch>, failed: set<Version>): (r: seq<Batch>)
    ensures forall b :: b in r <==> b in out && b.ver !in failed
  {
    if out == [] then []
    else
      var r, b := Succeeded(out[..|out| - 1], failed), out[|out| - 1];
      if b.ver in failed then r else r + [b]
  }

  predicate Ascends(out: seq<Batch>) {
    forall i, j :: 0 <= i < j < |out| ==> out[i].ver < out[j].ver
  }

  lemma {:induction false} SucceededAscends(out: seq<Batch>, failed: set<Version>)
    requires Ascends(out)
    ensures Ascends(Succeeded(out, failed))
    decreases |out|
  {
    if out != [] {
      var init, b := out[..|out| - 1], out[|out| - 1];
      var r := Succeeded(init, failed);
      SucceededAscends(init, failed);
      forall i | 0 <= i < |r|
        ensures r[i].ver < b.ver
      {
        assert r[i] in init;
        var k :| 0 <= k < |init| && init[k] == r[i];
        assert out[k] == r[i];
      }
      assert Ascends(r + [b]);
    }
  }

  lemma {:induction false} SucceededApplied(carrier: Doc, target: Doc, resolve: Option<Resolver>,
                                            failed: set<Version>, out: seq<Batch>)
    requires IsDiff(carrier, Some(target), resolve, out)
    ensures Applied(carrier, target, resolve, failed, Succeeded(out, failed))
  {
    var r := Succeeded(out, failed);
    DiffIsSound(carrier, target, resolve, out);
    SucceededAscends(out, failed);
    forall i | 0 <= i < |r|
      ensures OpsOk(carrier, Some(target), resolve, r[i].ver, r[i].ops) && r[i].ver > 0 && r[i].ver !in failed
    {
      assert r[i] in out;
    }
    forall t, p | Acts(carrier, Some(target), resolve, t, p) && VersionAt(Some(carrier), t, p) !in failed
      ensures exists i :: 0 <= i < |r| && HasOp(r[i].ops, t, p)
    {
      var k :| 0 <= k < |out| && HasOp(out[k].ops, t, p);
      var op :| op in out[k].ops && Names(op, t, p);
      assert Owed(carrier, Some(target), resolve, out[k].ver, op);
      assert out[k] in r;
    }
  }

  /** The paths a pass moves: those that act, that an op may name, and whose
      batch did not fail. */
  ghost predicate Moves(carrier: Doc, target: Doc, resolve: Option<Resolver>, failed: set<Version>, t: Key, p: Key) {
    Acts(carrier, Some(target), resolve, t, p) && Writable(t, p) && VersionAt(Some(carrier), t, p) !in failed
  }

  /** What a pass leaves at one path: at a moved one the carrier's version, and
      the carrier's value but for what the merge drops; elsewhere what was
      there. */
  ghost predicate InLine(carrier: Doc, target: Doc, resolve: Option<Resolver>, failed: set<Version>, after: Doc,
                         t: Key, p: Key) {
    if Moves(carrier, target, resolve, failed, t, p) then
      && Sub(after.ver, [t, p]) == VersionAt(Some(carrier), t, p)
      && forall r: Path :: KindAt(ValueAt(after, t, p), r) ==
                           if Dropped(target.ver, [t, p] + r) then Nothing else KindAt(ValueAt(carrier, t, p), r)
    else
      && Sub(after.ver, [t, p]) == Sub(target.ver, [t, p])
      && ValueAt(after, t, p) == ValueAt(target, t, p)
  }

  ghost predicate BroughtInLine(carrier: Doc, target: Doc, resolve: Option<Resolver>, failed: set<Version>,
                                after: Doc) {
    forall t, p :: InLine(carrier, target, resolve, failed, after, t, p)
  }

  /** `mirrorRecord`: the diff's batches, injected one by one; a failed one is
      logged and the next goes on. An absent row is left absent: the carrier is
      the replay log. */
  method MirrorRecord(carrier: Doc, target: Option<Doc>, resolve: Option<Resolver>, failed: set<Version>)
    returns (after: Option<Doc>)
    requires target.Some? ==> Stored(target.value)
    ensures after.Some? <==> target.Some?
    ensures target.Some? ==> Stored(after.value) && BroughtInLine(carrier, target.value, resolve, failed, after.value)
  {
    if target.None? { return None; }
    var out := Diff(Some(carrier), target, resolve);
    DiffIsSound(carrier, target.value, resolve, out);
    var d := InjectBatches(target.value, out, failed);
    after := Some(d);
    SucceededInLine(carrier, target.value, resolve, failed, out);
  }

  lemma SucceededInLine(carrier: Doc, target: Doc, resolve: Option<Resolver>, failed: set<Version>, out: seq<Batch>)
    requires IsDiff(carrier, Some(target), resolve, out) && Stored(target)
    ensures Sound(carrier, target, resolve, Succeeded(out, failed))
    ensures Stored(Injected(target, Succeeded(out, failed)))
    ensures BroughtInLine(carrier, target, resolve, failed, Injected(target, Succeeded(out, failed)))
  {
    SucceededApplied(carrier, target, resolve, failed, out);
    MirrorAll(carrier, target, resolve, Succeeded(out, failed));
    InjectedInLine(carrier, target, resolve, failed, Succeeded(out, failed));
  }

  /** One `InjectedSet`. */
  method Inject(rec: Record, b: Batch)
    requires rec.ver.Split? && b.ver > 0
    modifies rec
    ensures rec.ver.Split? && rec.Contents() == Tidied(PutAll(old(rec.Contents()), BatchWrites(b)))
  {
    RunWrites(rec, BatchWrites(b));
    rec.ver := Compact(rec.ver);
  }

  predicate Versioned(out: seq<Batch>) {
    forall b :: b in out ==> b.ver > 0
  }

  /** The batches one by one, each of which lands or fails. */
  method InjectBatches(d: Doc, out: seq<Batch>, failed: set<Version>) returns (r: Doc)
    requires d.ver.Split? && Versioned(out)
    ensures Versioned(Succeeded(out, failed)) && r == Injected(d, Succeeded(out, failed))
  {
    var rec := new Record(d);
    ghost var done: seq<Batch> := [];
    assert out[..0] == [];
    for i := 0 to |out|
      invariant rec.ver.Split?
      invariant Versioned(done) && done == Succeeded(out[..i], failed)
      invariant rec.Contents() == Injected(d, done)
    {
      var b := out[i];
      assert b in out;
      SucceededNext(out, failed, i);
      if b.ver !in failed {
        InjectedNext(d, done, b);
        Inject(rec, b);
        done := done + [b];
      }
    }
    assert out[..|out|] == out;
    r := Doc(rec.fields, rec.ver);
  }

  lemma SucceededNext(out: seq<Batch>, failed: set<Version>, i: nat)
    requires i < |out|
    ensures Succeeded(out[..i + 1], failed) ==
            if out[i].ver in failed then Succeeded(out[..i], failed) else Succeeded(out[..i], failed) + [out[i]]
  {
    assert out[..i + 1][..i] == out[..i];
  }

  lemma InjectedNext(d: Doc, out: seq<Batch>, b: Batch)
    requires d.ver.Split? && b.ver > 0 && Versioned(out)
    ensures Versioned(out + [b])
    ensures Injected(d, out + [b]) == Tidied(PutAll(Injected(d, out), BatchWrites(b)))
  {
    assert (out + [b])[..|out|] == out;
  }

  lemma {:induction false} InjectedInLine(carrier: Doc, target: Doc, resolve: Option<Resolver>, failed: set<Version>,
                                          out: seq<Batch>)
    requires Applied(carrier, target, resolve, failed, out) && Stored(target)
    ensures BroughtInLine(carrier, target, resolve, failed, Injected(target, out))
  {
    forall t, p
      ensures InLine(carrier, target, resolve, failed, Injected(target, out), t, p)
    {
      if Moves(carrier, target, resolve, failed, t, p) {
        MovedPathAgrees(carrier, target, resolve, failed, out, t, p);
      } else {
        OtherPathsUntouched(carrier, target, resolve, failed, out, t, p);
      }
    }
  }

  /** The write a moved path gets. */
  lemma {:induction false} MovedIsWritten(carrier: Doc, target: Doc, resolve: Option<Resolver>, failed: set<Version>,
                                          out: seq<Batch>, t: Key, p: Key) returns (w: Write)
    requires Applied(carrier, target, resolve, failed, out) && Moves(carrier, target, resolve, failed, t, p)
    ensures w in AllWrites(out)
    ensures w == Write([t, p], ValueAt(carrier, t, p), VersionAt(Some(carrier), t, p))
  {
    var i :| 0 <= i < |out| && HasOp(out[i].ops, t, p);
    var op :| op in out[i].ops && Names(op, t, p);
    assert Owed(carrier, Some(target), resolve, out[i].ver, op);
    w := WriteOf(out[i].ver, op);
    assert WritesOp(out, i, op, w);
    InAllWrites(out, w);
  }

  /** A moved path is at the carrier's version and holds what the carrier holds,
      but for what the merge drops. */
  lemma {:induction false} MovedPathAgrees(carrier: Doc, target: Doc, resolve: Option<Resolver>, failed: set<Version>,
                                           out: seq<Batch>, t: Key, p: Key)
    requires Applied(carrier, target, resolve, failed, out) && Stored(target)
    requires Moves(carrier, target, resolve, failed, t, p)
    ensures InLine(carrier, target, resolve, failed, Injected(target, out), t, p)
  {
    MirrorAll(carrier, target, resolve, out);
    var w := MovedIsWritten(carrier, target, resolve, failed, out, t, p);
    WrittenInLine(carrier, target, resolve, failed, Injected(target, out), AllWrites(out), t, p, w);
  }

  lemma {:induction false} WrittenInLine(carrier: Doc, target: Doc, resolve: Option<Resolver>, failed: set<Version>,
                                         after: Doc,
                                         ws: seq<Write>, t: Key, p: Key, w: Write)
    requires Mirrored(target, after, ws) && w in ws && Moves(carrier, target, resolve, failed, t, p)
    requires w == Write([t, p], ValueAt(carrier, t, p), VersionAt(Some(carrier), t, p))
    ensures InLine(carrier, target, resolve, failed, after, t, p)
  {
    forall r: Path
      ensures KindAt(ValueAt(after, t, p), r) ==
              if Dropped(target.ver, [t, p] + r) then Nothing else KindAt(ValueAt(carrier, t, p), r)
    {
      AtAppend(Tree(after), [t, p], r);
      assert KindAt(Tree(after), w.path + r) == if Dropped(target.ver, w.path + r) then Nothing else KindAt(w.val, r);
    }
  }

  lemma WrittenMoves(carrier: Doc, target: Doc, resolve: Option<Resolver>, failed: set<Version>, out: seq<Batch>,
                     w: Write)
    requires Applied(carrier, target, resolve, failed, out) && w in AllWrites(out)
    ensures |w.path| == 2 && Moves(carrier, target, resolve, failed, w.path[0], w.path[1])
  {
    InAllWrites(out, w);
    var i, op :| WritesOp(out, i, op, w);
    assert Owed(carrier, Some(target), resolve, out[i].ver, op);
  }

  /** Every other two-segment path, of unknown or other scope, already caught
      up, not nameable or in a failed batch, keeps its value and version. */
  lemma {:induction false} OtherPathsUntouched(carrier: Doc, target: Doc, resolve: Option<Resolver>,
                                               failed: set<Version>,
                                               out: seq<Batch>, t: Key, p: Key)
    requires Applied(carrier, target, resolve, failed, out) && Stored(target)
    requires !Moves(carrier, target, resolve, failed, t, p)
    ensures ValueAt(Injected(target, out), t, p) == ValueAt(target, t, p)
    ensures Sub(Injected(target, out).ver, [t, p]) == Sub(target.ver, [t, p])
  {
    MirrorAll(carrier, target, resolve, out);
    var d := Injected(target, out);
    forall w | w in AllWrites(out)
      ensures w.path != [t, p]
    {
      WrittenMoves(carrier, target, resolve, failed, out, w);
    }
    assert !Written(AllWrites(out), [t, p]);
    MirrorUntouched(target, d, AllWrites(out), [t, p]);
    forall r: Path
      ensures KindAt(ValueAt(d, t, p), r) == KindAt(ValueAt(target, t, p), r)
    {
      AtAppend(Tree(d), [t, p], r);
      AtAppend(Tree(target), [t, p], r);
      assert KindAt(Tree(d), [t, p] + r) == KindAt(Tree(target), [t, p] + r);
    }
    SameKinds(ValueAt(d, t, p), ValueAt(target, t, p));
  }

  ghost predicate HoldsWhole(n: Ver, t: Key, p: Key, val: Option<Value>) {
    forall r: Path :: Dropped(n, [t, p] + r) ==> KindAt(val, r) == Nothing
  }

  /** After a pass a moved path holds the carrier's value exactly when the value
      holds nothing under a key `*` the merge drops. */
  lemma {:induction false} ActedPathsAgree(carrier: Doc, target: Doc, resolve: Option<Resolver>, failed: set<Version>,
                                           after: Doc,
                                           t: Key, p: Key)
    requires InLine(carrier, target, resolve, failed, after, t, p) && Moves(carrier, target, resolve, failed, t, p)
    ensures Sub(after.ver, [t, p]) == VersionAt(Some(carrier), t, p)
    ensures ValueAt(after, t, p) == ValueAt(carrier, t, p) <==> HoldsWhole(target.ver, t, p, ValueAt(carrier, t, p))
  {
    if HoldsWhole(target.ver, t, p, ValueAt(carrier, t, p)) {
      forall r: Path
        ensures KindAt(ValueAt(after, t, p), r) == KindAt(ValueAt(carrier, t, p), r)
      {
        assert Dropped(target.ver, [t, p] + r) ==> KindAt(ValueAt(carrier, t, p), r) == Nothing;
      }
      SameKinds(ValueAt(after, t, p), ValueAt(carrier, t, p));
    } else {
      var r: Path :| Dropped(target.ver, [t, p] + r) && KindAt(ValueAt(carrier, t, p), r) != Nothing;
      assert KindAt(ValueAt(after, t, p), r) == Nothing;
    }
  }

  /** A key as `validatePath` takes it, and a head it does not reserve. */
  predicate Plain(k: Key) {
    k != "" && k != "*" && forall i :: 0 <= i < |k| ==> k[i] != '.'
  }

  /** What a pass makes of one path, told without the diff: where the property is
      declared account-scoped, an op may name the path, carrier or target holds
      something there, the carrier is newer and its batch does not fail, the
      path comes to the carrier's version and to hold what the carrier does,
      unless the merge drops some of it; everywhere else it keeps value and
      version. */
  lemma {:induction false} ScopeDecides(carrier: Doc, target: Doc, resolve: Option<Resolver>, failed: set<Version>,
                                        after: Doc, t: Key, p: Key)
    requires InLine(carrier, target, resolve, failed, after, t, p)
    ensures if && resolve.Some? && resolve.value(t, p) == Some(Account)
               && Plain(t) && Plain(p) && t != "id" && t[0] != '_'
               && (ValueAt(carrier, t, p).Some? || ValueAt(target, t, p).Some?)
               && Sub(target.ver, [t, p]) < Sub(carrier.ver, [t, p]) && Sub(carrier.ver, [t, p]) !in failed
            then
              && Sub(after.ver, [t, p]) == Sub(carrier.ver, [t, p])
              && (ValueAt(after, t, p) == ValueAt(carrier, t, p) <==>
                    HoldsWhole(target.ver, t, p, ValueAt(carrier, t, p)))
            else
              ValueAt(after, t, p) == ValueAt(target, t, p) && Sub(after.ver, [t, p]) == Sub(target.ver, [t, p])
  {
    if Moves(carrier, target, resolve, failed, t, p) {
      ActedPathsAgree(carrier, target, resolve, failed, after, t, p);
    }
    CarrierHas(carrier, t, p);
    CarrierHas(target, t, p);
  }

  /** What a pass leaves to do: the paths no op may name, and those of failed
      batches. */
  lemma {:induction false} LeftToDo(carrier: Doc, target: Doc, resolve: Option<Resolver>, failed: set<Version>,
                                    after: Doc, t: Key, p: Key)
    requires InLine(carrier, target, resolve, failed, after, t, p)
    ensures Acts(carrier, Some(after), resolve, t, p) <==>
            Acts(carrier, Some(target), resolve, t, p) && !Moves(carrier, target, resolve, failed, t, p)
  {
    CarrierHas(after, t, p);
    CarrierHas(target, t, p);
  }

  /** An op may name every path to write, and no batch fails that holds one. */
  ghost predicate AllMove(carrier: Doc, target: Doc, resolve: Option<Resolver>, failed: set<Version>) {
    forall t, p :: Acts(carrier, Some(target), resolve, t, p) ==> Moves(carrier, target, resolve, failed, t, p)
  }

  /** One pass reaches a fixpoint, at which any diff is empty, exactly when an op
      may name every path the pass has to write and no batch of such paths
      fails. */
  lemma {:induction false} DiffReachesFixpoint(carrier: Doc, target: Doc, resolve: Option<Resolver>,
                                               failed: set<Version>,
                                               after: Doc, again: seq<Batch>)
    requires BroughtInLine(carrier, target, resolve, failed, after)
    requires IsDiff(carrier, Some(after), resolve, again)
    ensures again == [] <==> AllMove(carrier, target, resolve, failed)
  {
    forall t, p
      ensures Acts(carrier, Some(after), resolve, t, p) <==>
              Acts(carrier, Some(target), resolve, t, p) && !Moves(carrier, target, resolve, failed, t, p)
    {
      LeftToDo(carrier, target, resolve, failed, after, t, p);
    }
    if again != [] { assert Owed(carrier, Some(after), resolve, again[0].ver, again[0].ops[0]); }
  }

  /** The carrier after a `$set` of the whole type with a property `*`. */
  function StarCarrier(x: Value): Doc {
    Run([Apply(Write(["t"], Some(Object(map[STAR := x])), 1)), Tidy])
  }

  lemma {:induction false} StarCarrierIs(x: Value)
    ensures StarCarrier(x) == Doc(map["t" := Object(map[STAR := x])], Split(0, map["t" := One(1)]))
  {
    var w := Write(["t"], Some(Object(map[STAR := x])), 1);
    var es := [Apply(w), Tidy];
    assert es[..1] == [Apply(w)] && [Apply(w)][..0] == [];
    assert Run([]) == EMPTY;
    assert Run([Apply(w)]) == Doc(map["t" := Object(map[STAR := x])], Split(0, map["t" := One(1)]));
    var n := Split(0, map["t" := One(1)]);
    assert Compact(n) == n;
  }

  /** An empty record and that carrier: a pass finds the property to write,
      sheds the op, and leaves the record as it was, so that every further pass
      finds the same. */
  lemma {:induction false} StarPropertyNeverSettles(resolve: Resolver, x: Value)
    requires resolve("t", STAR) == Some(Account)
    ensures var out := [Batch(1, [PathOp("t", STAR, Some(x))])];
            IsDiff(StarCarrier(x), Some(EMPTY), Some(resolve), out) && Injected(EMPTY, out) == EMPTY
  {
    var op := PathOp("t", STAR, Some(x));
    var out := [Batch(1, [op])];
    StarCarrierIs(x);
    StarIsOwed(resolve, x, op);
    assert op in out[0].ops && HasOp(out[0].ops, "t", STAR);
    StarIsShed(op, out);
  }

  lemma {:induction false} StarIsOwed(resolve: Resolver, x: Value, op: PathOp)
    requires resolve("t", STAR) == Some(Account) && op == PathOp("t", STAR, Some(x))
    ensures var carrier := Doc(map["t" := Object(map[STAR := x])], Split(0, map["t" := One(1)]));
            && Owed(carrier, Some(EMPTY), Some(resolve), 1, op)
            && forall t, p :: Acts(carrier, Some(EMPTY), Some(resolve), t, p) ==> t == "t" && p == STAR
  {
    var carrier := Doc(map["t" := Object(map[STAR := x])], Split(0, map["t" := One(1)]));
    assert ["t", STAR][1..] == [STAR];
    AtKey(Child(Tree(carrier), "t"), STAR);
    assert Visits(Some(carrier), "t", STAR);
  }

  lemma {:induction false} StarIsShed(op: PathOp, out: seq<Batch>)
    requires op.propId == STAR && out == [Batch(1, [op])]
    ensures Injected(EMPTY, out) == EMPTY
  {
    assert [op][..0] == [] && Kept([op]) == [];
    assert BatchWrites(out[0]) == [];
    assert out[..0] == [];
    assert Compact(EMPTY.ver) == EMPTY.ver;
  }
}
