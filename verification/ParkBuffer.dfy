/** The bounded retry buffer for broadcasts, with parking interleaved with one
    flusher. */
module ParkBuffer {
  import opened Basics

  const MAX_COUNT := 256
  const MAX_BYTES := 8 * 1024 * 1024

  /** A broadcast, numbered in parking order. */
  datatype Msg = Msg(n: nat, size: nat)

  datatype Outcome = Sent | Overflowed | Failed

  function Bytes(ms: seq<Msg>): nat {
    if ms == [] then 0 else ms[0].size + Bytes(ms[1..])
  }

  predicate Full(ms: seq<Msg>, size: nat) {
    ms != [] && (|ms| >= MAX_COUNT || Bytes(ms) + size > MAX_BYTES)
  }

  /** How many of the oldest messages make room for one of this size. */
  function Excess(ms: seq<Msg>, size: nat): (k: nat)
    ensures k <= |ms|
  {
    if Full(ms, size) then 1 + Excess(ms[1..], size) else 0
  }

  /** The buffer, the flusher's message, and where every message went. */
  datatype Sys = Sys(parked: seq<Msg>, bytes: int, flight: Option<Msg>,
                     history: seq<Msg>, sent: seq<Msg>, failed: seq<Msg>, dropped: seq<Msg>)

  const START := Sys([], 0, None, [], [], [], [])

  datatype Event = Park(size: nat) | Take | Settle(outcome: Outcome)

  function Step(s: Sys, e: Event): Sys {
    match e
    case Park(size) =>
      var k := Excess(s.parked, size);
      var m := Msg(|s.history|, size);
      s.(parked := s.parked[k..] + [m], bytes := s.bytes - Bytes(s.parked[..k]) + size,
         history := s.history + [m], dropped := s.dropped + s.parked[..k])
    case Take =>
      if s.flight.Some? || s.parked == [] then s
      else s.(flight := Some(s.parked[0]), parked := s.parked[1..], bytes := s.bytes - s.parked[0].size)
    case Settle(outcome) =>
      if s.flight.None? then s
      else
        var m := s.flight.value;
        match outcome
        case Overflowed => s.(flight := None, parked := [m] + s.parked, bytes := s.bytes + m.size)
        case Sent => s.(flight := None, sent := s.sent + [m])
        case Failed => s.(flight := None, failed := s.failed + [m])
  }

  function Run(es: seq<Event>): Sys
    decreases |es|
  {
    if es == [] then START else Step(Run(es[..|es| - 1]), es[|es| - 1])
  }

  function Waiting(s: Sys): seq<Msg> {
    (if s.flight.Some? then [s.flight.value] else []) + s.parked
  }

  predicate Ordered(ms: seq<Msg>) {
    forall i, j :: 0 <= i < j < |ms| ==> ms[i].n < ms[j].n
  }

  predicate Numbered(history: seq<Msg>) {
    forall i :: 0 <= i < |history| ==> history[i].n == i
  }

  /** Sent messages, then those still to be sent. */
  function Line(s: Sys): seq<Msg> {
    s.sent + Waiting(s)
  }

  ghost predicate Conserved(s: Sys) {
    multiset(s.history) == multiset(Line(s)) + multiset(s.failed) + multiset(s.dropped)
  }

  ghost predicate Inv(s: Sys) {
    && s.bytes == Bytes(s.parked)
    && |Waiting(s)| <= MAX_COUNT + 1
    && Numbered(s.history) && Conserved(s) && Ordered(Line(s))
  }

  lemma {:induction false} BytesSplit(a: seq<Msg>, b: seq<Msg>)
    ensures Bytes(a + b) == Bytes(a) + Bytes(b)
  {
    if a == [] {
      assert a + b == b;
    } else {
      BytesSplit(a[1..], b);
      assert (a + b)[1..] == a[1..] + b;
    }
  }

  /** What is kept leaves room, or nothing is kept. */
  lemma {:induction false} ExcessFits(ms: seq<Msg>, size: nat)
    ensures var kept := ms[Excess(ms, size)..];
            kept == [] || (|kept| < MAX_COUNT && Bytes(kept) + size <= MAX_BYTES)
    decreases |ms|
  {
    if Full(ms, size) {
      ExcessFits(ms[1..], size);
      assert ms[Excess(ms, size)..] == ms[1..][Excess(ms[1..], size)..];
    } else {
      assert ms[0..] == ms;
    }
  }

  /** And no message makes room that need not: before each is dropped, the buffer
      is at 256 messages, or they and the new one are over 8 MiB. */
  lemma {:induction false} ExcessIsLeast(ms: seq<Msg>, size: nat, j: nat)
    requires j < Excess(ms, size)
    ensures |ms[j..]| >= 256 || Bytes(ms[j..]) + size > 8 * 1024 * 1024
    decreases |ms|
  {
    if j == 0 {
      assert ms[0..] == ms;
    } else {
      ExcessIsLeast(ms[1..], size, j - 1);
      assert ms[j..] == ms[1..][j - 1..];
    }
  }

  lemma OrderedCut(a: seq<Msg>, b: seq<Msg>, c: seq<Msg>)
    requires Ordered(a + b + c)
    ensures Ordered(a + c)
  {
    var abc, ac := a + b + c, a + c;
    forall i, j | 0 <= i < j < |ac|
      ensures ac[i].n < ac[j].n
    {
      var x := if i < |a| then i else i + |b|;
      var y := if j < |a| then j else j + |b|;
      assert abc[x] == ac[i] && abc[y] == ac[j];
    }
  }

  lemma OrderedAppend(a: seq<Msg>, m: Msg)
    requires Ordered(a) && forall x :: x in a ==> x.n < m.n
    ensures Ordered(a + [m])
  {}

  /** Every message still in line was parked before now. */
  lemma KnownNumber(s: Sys, m: Msg)
    requires Numbered(s.history) && Conserved(s) && m in Line(s)
    ensures m.n < |s.history|
  {
    assert m in multiset(Line(s));
    assert m in multiset(s.history);
    assert m in s.history;
  }

  function InFlight(s: Sys): seq<Msg> {
    if s.flight.Some? then [s.flight.value] else []
  }

  lemma {:induction false} ParkLine(s: Sys, size: nat)
    requires Inv(s)
    ensures var u, k := Step(s, Park(size)), Excess(s.parked, size);
            && Line(s) == s.sent + InFlight(s) + s.parked[..k] + s.parked[k..]
            && Line(u) == s.sent + InFlight(s) + s.parked[k..] + [Msg(|s.history|, size)]
  {
    var k, m := Excess(s.parked, size), Msg(|s.history|, size);
    Regroup(s.sent, InFlight(s), s.parked[..k], s.parked[k..]);
    Regroup(s.sent, InFlight(s), s.parked[k..], [m]);
    assert s.parked == s.parked[..k] + s.parked[k..];
  }

  lemma Regroup(a: seq<Msg>, b: seq<Msg>, c: seq<Msg>, d: seq<Msg>)
    ensures a + (b + (c + d)) == a + b + c + d
  {}

  lemma MultisetCut(a: seq<Msg>, b: seq<Msg>, c: seq<Msg>, m: Msg)
    ensures multiset(a + c + [m]) + multiset(b) == multiset(a + b + c) + multiset{m}
  {
    assert multiset(a + c + [m]) == multiset(a) + multiset(c) + multiset{m};
    assert multiset(a + b + c) == multiset(a) + multiset(b) + multiset(c);
  }

  lemma {:induction false} ParkConserves(s: Sys, size: nat)
    requires Inv(s)
    ensures Conserved(Step(s, Park(size)))
  {
    var u, k, m := Step(s, Park(size)), Excess(s.parked, size), Msg(|s.history|, size);
    var a, b, c := s.sent + InFlight(s), s.parked[..k], s.parked[k..];
    ParkLine(s, size);
    MultisetCut(a, b, c, m);
    assert multiset(s.dropped + b) == multiset(s.dropped) + multiset(b);
    assert multiset(s.history + [m]) == multiset(s.history) + multiset{m};
  }

  lemma {:induction false} ParkOrders(s: Sys, size: nat)
    requires Inv(s)
    ensures Ordered(Line(Step(s, Park(size))))
  {
    var k, m := Excess(s.parked, size), Msg(|s.history|, size);
    var a, b, c := s.sent + InFlight(s), s.parked[..k], s.parked[k..];
    ParkLine(s, size);
    OrderedCut(a, b, c);
    forall x: Msg | x in a + c
      ensures x.n < m.n
    {
      assert x in Line(s);
      KnownNumber(s, x);
    }
    OrderedAppend(a + c, m);
  }

  lemma {:induction false} KeptBytes(ms: seq<Msg>, k: nat, m: Msg)
    requires k <= |ms|
    ensures Bytes(ms[k..] + [m]) == Bytes(ms) - Bytes(ms[..k]) + m.size
  {
    assert ms == ms[..k] + ms[k..];
    BytesSplit(ms[..k], ms[k..]);
    BytesSplit(ms[k..], [m]);
    assert Bytes([m]) == m.size;
  }

  lemma {:induction false} ParkCounts(s: Sys, size: nat)
    requires Inv(s)
    ensures var u := Step(s, Park(size));
            && u.bytes == Bytes(u.parked) && |Waiting(u)| <= MAX_COUNT + 1
            && (|u.parked| == 1 || u.bytes <= MAX_BYTES)
  {
    var k, m := Excess(s.parked, size), Msg(|s.history|, size);
    var kept := s.parked[k..];
    ExcessFits(s.parked, size);
    KeptBytes(s.parked, k, m);
    KeptBytes(kept, 0, m);
    assert kept[..0] == [] && kept[0..] == kept;
  }

  lemma {:induction false} TakeKeeps(s: Sys)
    requires Inv(s)
    ensures Inv(Step(s, Take))
  {
    var u := Step(s, Take);
    if u != s {
      assert Waiting(u) == Waiting(s);
      assert s.parked == [s.parked[0]] + s.parked[1..];
    }
  }

  /** A message that leaves in order, or goes back to the front, leaves the line
      as it was. */
  lemma {:induction false} SameLineKeeps(s: Sys, u: Sys)
    requires Inv(s) && Line(u) == Line(s) && |Waiting(u)| <= |Waiting(s)|
    requires u.history == s.history && u.failed == s.failed && u.dropped == s.dropped
    requires u.bytes == Bytes(u.parked)
    ensures Inv(u)
  {}

  lemma {:induction false} OverflowKeeps(s: Sys)
    requires Inv(s) && s.flight.Some?
    ensures Inv(Step(s, Settle(Overflowed)))
  {
    var u, m := Step(s, Settle(Overflowed)), s.flight.value;
    assert Waiting(s) == [m] + s.parked == u.parked == Waiting(u);
    assert u.parked[1..] == s.parked;
    SameLineKeeps(s, u);
  }

  lemma {:induction false} SentKeeps(s: Sys)
    requires Inv(s) && s.flight.Some?
    ensures Inv(Step(s, Settle(Sent)))
  {
    var u, m := Step(s, Settle(Sent)), s.flight.value;
    assert Waiting(s) == [m] + s.parked && Waiting(u) == s.parked;
    assert s.sent + ([m] + s.parked) == s.sent + [m] + s.parked;
    SameLineKeeps(s, u);
  }

  lemma {:induction false} FailedKeeps(s: Sys)
    requires Inv(s) && s.flight.Some?
    ensures Inv(Step(s, Settle(Failed)))
  {
    var u, m := Step(s, Settle(Failed)), s.flight.value;
    assert Waiting(s) == [m] + s.parked && Waiting(u) == s.parked;
    assert Line(s) == s.sent + [m] + s.parked && Line(u) == s.sent + s.parked;
    OrderedCut(s.sent, [m], s.parked);
    FailedConserves(s.sent, m, s.parked, s.failed);
  }

  lemma FailedConserves(sent: seq<Msg>, m: Msg, parked: seq<Msg>, failed: seq<Msg>)
    ensures multiset(sent + [m] + parked) + multiset(failed) == multiset(sent + parked) + multiset(failed + [m])
  {
    assert multiset(sent + [m] + parked) == multiset(sent) + multiset{m} + multiset(parked);
  }

  /** Where the steps put the messages: a parked one last, behind what is kept of
      the oldest; the flusher takes the first; a sent one is sent, a failed one
      given up, an overflowed one first again. */
  lemma StepsShow(s: Sys, size: nat, outcome: Outcome)
    ensures var u := Step(s, Park(size));
            && u.parked != [] && u.parked[|u.parked| - 1] == Msg(|s.history|, size)
            && |u.parked| <= |s.parked| + 1
            && u.parked[..|u.parked| - 1] == s.parked[|s.parked| + 1 - |u.parked|..]
            && u.dropped == s.dropped + s.parked[..|s.parked| + 1 - |u.parked|]
            && u.flight == s.flight && u.sent == s.sent && u.failed == s.failed
    ensures s.flight.None? && s.parked != [] ==>
              var u := Step(s, Take);
              u.flight == Some(s.parked[0]) && u.parked == s.parked[1..] && u.sent == s.sent && u.failed == s.failed
    ensures s.flight.Some? ==>
              var u := Step(s, Settle(outcome));
              && u.flight == None && u.dropped == s.dropped && u.history == s.history
              && u.sent == s.sent + (if outcome.Sent? then [s.flight.value] else [])
              && u.failed == s.failed + (if outcome.Failed? then [s.flight.value] else [])
              && u.parked == (if outcome.Overflowed? then [s.flight.value] else []) + s.parked
  {}

  lemma {:induction false} InvRun(es: seq<Event>)
    ensures Inv(Run(es))
    decreases |es|
  {
    if es != [] {
      var s, e := Run(es[..|es| - 1]), es[|es| - 1];
      InvRun(es[..|es| - 1]);
      match e {
        case Park(size) =>
          ParkCounts(s, size);
          ParkConserves(s, size);
          ParkOrders(s, size);
        case Take => TakeKeeps(s);
        case Settle(outcome) =>
          if s.flight.Some? {
            match outcome {
              case Overflowed => OverflowKeeps(s);
              case Sent => SentKeeps(s);
              case Failed => FailedKeeps(s);
            }
          }
      }
    }
  }

  /** Where message m went, counted. */
  function Places(s: Sys, m: Msg): nat {
    multiset(s.parked)[m] + (if s.flight == Some(m) then 1 else 0) + multiset(s.sent)[m] +
    multiset(s.failed)[m] + multiset(s.dropped)[m]
  }

  /** In every interleaving the byte count is exact, the buffer holds at most
      257 messages, every message parked so far is in exactly one place, and
      messages are sent in parking order, all before those still waiting. */
  lemma EveryInterleaving(es: seq<Event>)
    ensures Run(es).bytes == Bytes(Run(es).parked)
    ensures |Run(es).parked| <= 257
    ensures forall m :: m in Run(es).history ==> Places(Run(es), m) == 1
    ensures Ordered(Run(es).sent + Waiting(Run(es)))
  {
    InvRun(es);
    var s := Run(es);
    forall m | m in s.history
      ensures Places(s, m) == 1
    {
      OnceInHistory(s.history, m);
      assert multiset(Line(s)) == multiset(s.sent) + multiset(InFlight(s)) + multiset(s.parked);
    }
  }

  lemma {:induction false} OnceInHistory(history: seq<Msg>, m: Msg)
    requires Numbered(history) && m in history
    ensures multiset(history)[m] == 1
  {
    var i :| 0 <= i < |history| && history[i] == m;
    assert history == history[..i] + [m] + history[i + 1..];
    assert m !in history[..i] && m !in history[i + 1..];
  }

  // ---------------------------------------------------------- the code's shape

  class Buffer {
    var parked: seq<Msg>
    var parkedBytes: int

    constructor ()
      ensures parked == [] && parkedBytes == 0
    {
      parked, parkedBytes := [], 0;
    }

    /** `park`: the oldest messages make room. */
    method Park(msg: Msg)
      requires parkedBytes == Bytes(parked)
      modifies this
      ensures var k := Excess(old(parked), msg.size);
              && parked == old(parked)[k..] + [msg]
              && forall j :: 0 <= j < k ==>
                   |old(parked)[j..]| >= 256 || Bytes(old(parked)[j..]) + msg.size > 8 * 1024 * 1024
      ensures parkedBytes == Bytes(parked)
      ensures |parked| <= MAX_COUNT && (|parked| == 1 || parkedBytes <= MAX_BYTES)
    {
      ghost var was := parked;
      ghost var k := 0;
      while |parked| > 0 && (|parked| >= MAX_COUNT || parkedBytes + msg.size > MAX_BYTES)
        invariant k <= |was| && parked == was[k..]
        invariant parkedBytes == Bytes(parked)
        invariant k + Excess(parked, msg.size) == Excess(was, msg.size)
        decreases |parked|
      {
        parkedBytes := parkedBytes - parked[0].size;
        parked := parked[1..];
        k := k + 1;
      }
      forall j | 0 <= j < k
        ensures |was[j..]| >= 256 || Bytes(was[j..]) + msg.size > 8 * 1024 * 1024
      {
        ExcessIsLeast(was, msg.size, j);
      }
      BytesSplit(parked, [msg]);
      parked := parked + [msg];
      parkedBytes := parkedBytes + msg.size;
    }

    /** `flushParked` when nothing parks meanwhile: everything up to the first
        overflow leaves, in order; the message that overflowed is first again. */
    method FlushParked(outcomes: seq<Outcome>) returns (empty: bool, delivered: nat)
      requires parkedBytes == Bytes(parked) && |outcomes| == |parked|
      modifies this
      ensures parkedBytes == Bytes(parked) && (empty <==> parked == [])
      ensures |parked| <= |old(parked)| && parked == old(parked)[|old(parked)| - |parked|..]
      ensures forall i :: 0 <= i < |old(parked)| - |parked| ==> outcomes[i] != Overflowed
      ensures parked != [] ==> outcomes[|old(parked)| - |parked|] == Overflowed
      ensures delivered == multiset(outcomes[..|old(parked)| - |parked|])[Sent]
    {
      ghost var was := parked;
      var i := 0;
      delivered := 0;
      while true
        invariant 0 <= i <= |was| == |outcomes| && parked == was[i..] && parkedBytes == Bytes(parked)
        invariant forall j :: 0 <= j < i ==> outcomes[j] != Overflowed
        invariant delivered == multiset(outcomes[..i])[Sent]
        decreases |parked|
      {
        if |parked| == 0 { return true, delivered; }
        var msg := parked[0];
        parked := parked[1..];
        parkedBytes := parkedBytes - msg.size;
        if outcomes[i] == Overflowed {
          parked := [msg] + parked;
          parkedBytes := parkedBytes + msg.size;
          return false, delivered;
        }
        assert outcomes[..i + 1] == outcomes[..i] + [outcomes[i]];
        if outcomes[i] == Sent { delivered := delivered + 1; }
        i := i + 1;
      }
    }
  }
}
