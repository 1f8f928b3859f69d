/** Counting over the last observations, kept in a ring buffer. */
module Windows {
  function CountTrue(s: seq<bool>): (n: nat)
    ensures n <= |s|
  {
    if s == [] then 0 else CountTrue(s[..|s| - 1]) + (if s[|s| - 1] then 1 else 0)
  }

  /** The last `w` observations of a log. */
  function Last(log: seq<bool>, w: nat): seq<bool> { if |log| <= w then log else log[|log| - w..] }

  /** `ring` holds the last `|ring|` observations; `next` is where the next one goes, which is the
      oldest once the ring is full. */
  ghost predicate Holds(ring: seq<bool>, log: seq<bool>, next: int) {
    && 0 <= next < |ring|
    && if |log| < |ring| then next == |log| && ring[..next] == log && forall k :: next <= k < |ring| ==> !ring[k]
       else ring[next..] + ring[..next] == Last(log, |ring|)
  }

  lemma CountConcat(a: seq<bool>, b: seq<bool>)
    ensures CountTrue(a + b) == CountTrue(a) + CountTrue(b)
  {
    if b == [] {
      assert a + b == a;
    } else {
      assert (a + b)[..|a + b| - 1] == a + b[..|b| - 1];
    }
  }

  lemma CountOne(b: bool)
    ensures CountTrue([b]) == if b then 1 else 0
  {
    assert [b][..0] == [];
  }

  /** A full window is the observation about to leave and the rest, which the new one joins. */
  lemma FullWindow(log: seq<bool>, w: nat, b: bool)
    requires 0 < w <= |log|
    ensures var rest := log[|log| - w + 1..];
            Last(log, w) == [log[|log| - w]] + rest && Last(log + [b], w) == rest + [b]
  {}

  /** A new observation replaces the one that leaves the window. */
  lemma LastPush(log: seq<bool>, w: nat, b: bool)
    requires w > 0
    ensures CountTrue(Last(log + [b], w))
         == CountTrue(Last(log, w)) - (if |log| >= w && log[|log| - w] then 1 else 0) + (if b then 1 else 0)
  {
    hide CountTrue;
    CountOne(b);
    if |log| < w {
      CountConcat(log, [b]);
    } else {
      hide Last;
      var rest, leaving := log[|log| - w + 1..], log[|log| - w];
      FullWindow(log, w, b);
      CountOne(leaving);
      CountConcat(rest, [b]);
      CountConcat([leaving], rest);
    }
  }

  /** Overwriting the oldest observation keeps the ring. */
  lemma PushHolds(ring: seq<bool>, log: seq<bool>, next: int, b: bool)
    requires Holds(ring, log, next)
    ensures ring[next] == (|log| >= |ring| && log[|log| - |ring|])
    ensures Holds(ring[next := b], log + [b], if next + 1 == |ring| then 0 else next + 1)
  {
    var w, all, grown := |ring|, ring[next..] + ring[..next], ring[next := b];
    if |log| >= w {
      assert all[0] == ring[next];
      assert Last(log + [b], w) == all[1..] + [b];
      assert all[1..] == ring[next + 1..] + ring[..next];
      assert grown[next + 1..] == ring[next + 1..] && grown[..next + 1] == ring[..next] + [b];
    } else {
      assert grown[..next + 1] == log + [b];
    }
  }

  /** The positions of the marked observations among the last `w`. */
  ghost function Marked(log: seq<bool>, w: nat): set<int> {
    set i | 0 <= i < |log| && |log| - w <= i && log[i]
  }

  ghost function MarkedFrom(log: seq<bool>, from: nat): set<int> { set i | from <= i < |log| && log[i] }

  lemma MarkedNext(log: seq<bool>, from: nat)
    requires from < |log|
    ensures MarkedFrom(log, from)
         == MarkedFrom(log[..|log| - 1], from) + if log[|log| - 1] then {|log| - 1} else {}
  {}

  lemma {:induction false} CountFrom(log: seq<bool>, from: nat)
    requires from <= |log|
    ensures CountTrue(log[from..]) == |MarkedFrom(log, from)|
    decreases |log|
  {
    if from == |log| {
      assert MarkedFrom(log, from) == {};
    } else {
      var front := log[..|log| - 1];
      CountFrom(front, from);
      assert log[from..][..|log[from..]| - 1] == front[from..];
      MarkedNext(log, from);
      assert |log| - 1 !in MarkedFrom(front, from);
    }
  }

  lemma CountIs(log: seq<bool>, w: nat)
    ensures CountTrue(Last(log, w)) == |Marked(log, w)|
  {
    var from := if |log| <= w then 0 else |log| - w;
    CountFrom(log, from);
    assert log[from..] == Last(log, w);
    assert Marked(log, w) == MarkedFrom(log, from);
  }

  lemma WithinRing(ring: seq<bool>, log: seq<bool>, next: int)
    requires Holds(ring, log, next)
    ensures 0 <= next < |ring| && (|log| < |ring| ==> !ring[next])
  {}

  /** One step of a ring with a running count. */
  lemma Pushed(ring: seq<bool>, log: seq<bool>, next: int, b: bool)
    requires Holds(ring, log, next)
    ensures 0 <= next < |ring| && Holds(ring[next := b], log + [b], (next + 1) % |ring|)
    ensures |log| < |ring| ==> !ring[next]
    ensures CountTrue(Last(log + [b], |ring|))
         == CountTrue(Last(log, |ring|)) - (if ring[next] then 1 else 0) + (if b then 1 else 0)
  {
    hide CountTrue, Last, Holds;
    WithinRing(ring, log, next);
    PushHolds(ring, log, next, b);
    LastPush(log, |ring|, b);
    assert (next + 1) % |ring| == if next + 1 == |ring| then 0 else next + 1;
  }
}
