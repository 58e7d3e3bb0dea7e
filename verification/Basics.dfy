/** Vocabulary shared by the models. */
module Basics {

  datatype Option<+T> = None | Some(value: T)

  /** One segment of a field path. */
  type Key = string

  /** A field path. `p <= q` says that p is a prefix of q, `p < q` a proper one. */
  type Path = seq<Key>

  function Max(a: int, b: int): int {
    if a < b then b else a
  }

  function Min(a: int, b: int): int {
    if a < b then a else b
  }

  /** The greatest element of s, 0 when s is empty. */
  ghost function SetMax(s: set<nat>): (m: nat)
    ensures forall x :: x in s ==> x <= m
    ensures m == 0 || m in s
  {
    if s == {} then 0
    else
      var x: nat :| x in s;
      assert s == {x} + (s - {x});
      Max(x, SetMax(s - {x}))
  }

  /** The key under which a `_ver` level keeps its default. */
  const STAR: Key := "*"

  /** A path an op may name: it has a segment, and none is the default's key.
      Payload values may hold that key. */
  predicate Nameable(p: Path) {
    p != [] && STAR !in p
  }

  /** Two paths neither of which covers the other. */
  predicate Incomparable(p: Path, q: Path) {
    !(p <= q) && !(q <= p)
  }
}
