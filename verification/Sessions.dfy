/** The session pool of server/proxy.go and the pick/done/fail bracket of `fetchOn`
    (server/fetch.go). HTTP clients are numbered; a rotation takes a number never used before. */
module Sessions {
  import opened Prelude

  const HOUR := 3600000000000.0
  const ROTATE_COOLDOWN := 3000000000
  const WWW_SESSIONS := 3

  // ---------- One session ----------

  /** `rtt` is the Peak-EWMA estimate of the current client, measured at `rttAt`. */
  datatype State = State(client: nat, rtt: real, rttAt: Option<int>, pending: int, cooldownUntil: int)

  function MaxReal(a: real, b: real): real { if a > b then a else b }

  /** The fading of an estimate over a time: `exp(-dt/decay)`. */
  ghost predicate Fading(fade: int -> real) { forall dt :: 0.0 < fade(dt) <= 1.0 }

  /** `costLocked`. */
  function Cost(s: State, now: int, fade: int -> real): real {
    match s.rttAt
    case None => HOUR * s.pending as real
    case Some(at) => s.rtt * fade(now - at) * (s.pending + 1) as real
  }

  function Picked(s: State): State { s.(pending := s.pending + 1) }

  /** Tower's update rule: a slower sample replaces the faded estimate, a faster one pulls it down. */
  function Observed(rtt: real, sample: real, fade: real): real {
    var current := rtt * fade;
    if sample > current then sample else current + (sample - current) * (1.0 - fade)
  }

  function Done(s: State, client: nat, sample: real, observe: bool, now: int, fade: int -> real): State {
    var t := s.(pending := Max(s.pending - 1, 0));
    if !observe || s.client != client then t
    else
      match s.rttAt
      case None => t.(rtt := sample, rttAt := Some(now))
      case Some(at) => t.(rtt := Observed(s.rtt, sample, fade(now - at)), rttAt := Some(now))
  }

  function Failed(s: State, client: nat, next: nat, now: int): State {
    if s.client != client then s
    else s.(client := next, rtt := 0.0, rttAt := None, cooldownUntil := Max(s.cooldownUntil, now + ROTATE_COOLDOWN))
  }

  /** An estimate that never exceeded the peak of its samples lies between the new sample and the
      new peak. */
  lemma EstimateBounded(rtt: real, sample: real, fade: real, peak: real)
    requires 0.0 <= rtt <= peak && 0.0 <= sample && 0.0 < fade <= 1.0
    ensures sample <= Observed(rtt, sample, fade) <= MaxReal(peak, sample)
  {
    var current := rtt * fade;
    assert current <= rtt;
    if sample <= current {
      var gap, keep := current - sample, 1.0 - fade;
      assert 0.0 <= gap * keep <= gap;
      assert (sample - current) * keep == -(gap * keep);
    }
  }

  /** Above the new sample an estimate keeps of its distance exactly what has not faded; below it,
      nothing. */
  lemma EstimateGap(rtt: real, sample: real, fade: real)
    ensures rtt * fade >= sample ==> Observed(rtt, sample, fade) - sample == (rtt * fade - sample) * fade
    ensures rtt * fade < sample ==> Observed(rtt, sample, fade) == sample
  {
    Distribute(rtt * fade, sample, fade);
  }

  lemma Distribute(a: real, b: real, k: real)
    ensures a + (b - a) * (1.0 - k) - b == (a - b) * k
  {}

  /** A session that has not been measured is free while idle and costs an hour for every request in
      flight; one that has been costs its faded estimate when idle and as much again for each. */
  lemma CostIs(s: State, now: int, fade: int -> real)
    ensures s.rttAt.None? && s.pending == 0 ==> Cost(s, now, fade) == 0.0
    ensures s.rttAt.None? ==> Cost(Picked(s), now, fade) == Cost(s, now, fade) + 3600.0 * 1000000000.0
    ensures s.rttAt.Some? && s.pending == 0 ==> Cost(s, now, fade) == s.rtt * fade(now - s.rttAt.value)
    ensures s.rttAt.Some? ==> Cost(Picked(s), now, fade) == Cost(s, now, fade) + s.rtt * fade(now - s.rttAt.value)
  {
    if s.rttAt.Some? {
      var faded := s.rtt * fade(now - s.rttAt.value);
      OneMore(faded, (s.pending + 1) as real);
    } else {
      OneMore(HOUR, s.pending as real);
    }
  }

  lemma OneMore(a: real, n: real)
    ensures a * (n + 1.0) == a * n + a
  {}

  /** Of two sessions measured at the same time the one with the larger estimate and no fewer requests
      in flight is no cheaper, and nothing is cheaper than an idle session not yet measured. */
  lemma CostGrows(s: State, t: State, now: int, fade: int -> real)
    requires Fading(fade) && 0 <= s.pending <= t.pending && 0.0 <= s.rtt <= t.rtt && s.rttAt == t.rttAt
    ensures 0.0 <= Cost(s, now, fade) <= Cost(t, now, fade)
  {
    if s.rttAt.Some? {
      var f := fade(now - s.rttAt.value);
      ProductGrows(s.rtt, t.rtt, f, f);
      ProductGrows(s.rtt * f, t.rtt * f, (s.pending + 1) as real, (t.pending + 1) as real);
    }
  }

  lemma ProductGrows(a: real, b: real, x: real, y: real)
    requires 0.0 <= a <= b && 0.0 <= x <= y
    ensures 0.0 <= a * x <= b * y
  {
    assert b * y - a * x == (b - a) * y + a * (y - x);
    assert (b - a) * y >= 0.0 && a * (y - x) >= 0.0;
  }

  // ---------- The implementation ----------

  class Session {
    var client: nat
    var rttNs: real
    var rttAt: Option<int>
    var pending: int
    var cooldownUntil: int

    ghost function Model(): State
      reads this
    {
      State(client, rttNs, rttAt, pending, cooldownUntil)
    }

    constructor (client: nat)
      ensures Model() == State(client, 0.0, None, 0, 0)
    {
      this.client, rttNs, rttAt, pending, cooldownUntil := client, 0.0, None, 0, 0;
    }

    method CostLocked(now: int, fade: int -> real) returns (cost: real)
      ensures cost == Cost(Model(), now, fade)
    {
      if rttAt.None? {
        return HOUR * pending as real;
      }
      var rtt := rttNs * fade(now - rttAt.value);
      cost := rtt * (pending + 1) as real;
    }
  }

  class SessionPool {
    const sessions: seq<Session>
    var nextClient: nat

    constructor (sessions: seq<Session>, nextClient: nat)
      ensures this.sessions == sessions && this.nextClient == nextClient
    {
      this.sessions, this.nextClient := sessions, nextClient;
    }

    predicate Ready(i: nat, now: int)
      requires i < |sessions|
      reads sessions
    {
      sessions[i].cooldownUntil <= now
    }

    /** The sessions `pick` chooses from: for www traffic the first three suffice if one is ready. */
    ghost predicate Eligible(i: nat, www: bool, now: int)
      requires i < |sessions|
      reads sessions
    {
      && Ready(i, now)
      && (www && i >= 3 ==> forall j: nat :: j < 3 && j < |sessions| ==> !Ready(j, now))
    }

    /** `pick`: the cheaper of two eligible sessions drawn at random. `at` is its index, `other` that
        of the session it was compared with, or `at` itself when there was no other. */
    method Pick(www: bool, now: int, fade: int -> real)
      returns (picked: Option<Session>, ghost at: nat, ghost other: nat)
      requires Distinct(sessions)
      modifies sessions
      ensures picked.None? <==> forall i: nat :: i < |sessions| ==> !old(Ready(i, now))
      ensures picked.None? ==> forall s :: s in sessions ==> s.Model() == old(s.Model())
      ensures picked.Some? ==>
        && at < |sessions| && picked.value == sessions[at] && old(Eligible(at, www, now))
        && other < |sessions| && old(Eligible(other, www, now))
        && (at == other ==> forall i: nat :: i < |sessions| && old(Eligible(i, www, now)) ==> i == at)
        && old(Cost(sessions[at].Model(), now, fade)) <= old(Cost(sessions[other].Model(), now, fade))
        && picked.value.Model() == Picked(old(picked.value.Model()))
        && forall i :: 0 <= i < |sessions| && i != at ==> sessions[i].Model() == old(sessions[i].Model())
    {
      at, other := 0, 0;
      var ready := ReadyOnes(www, now);
      var k: nat;
      forall i: nat | i < |sessions|
        ensures old(Ready(i, now)) == Ready(i, now) && old(Eligible(i, www, now)) == Eligible(i, www, now)
      {
      }
      if |ready| == 0 {
        assert ready == [];
        assert forall i: nat :: i < |sessions| ==> !Ready(i, now);
        return None, 0, 0;
      }
      if |ready| == 1 {
        k := ready[0];
        other := k;
        assert ready == [k];
        assert forall i: nat :: i < |sessions| && Eligible(i, www, now) ==> i in ready;
        assert forall i: nat :: i in ready ==> i == k;
      } else {
        var i: nat :| i < |ready|;
        var j: nat :| j < |ready| - 1;
        j := if j >= i then j + 1 else j;
        var mine := sessions[ready[i]].CostLocked(now, fade);
        var theirs := sessions[ready[j]].CostLocked(now, fade);
        if theirs < mine {
          k, other := ready[j], ready[i];
        } else {
          k, other := ready[i], ready[j];
        }
      }
      at := k;
      picked := Some(sessions[k]);
      picked.value.pending := picked.value.pending + 1;
    }

    /** The loop of `pick`. */
    method ReadyOnes(www: bool, now: int) returns (ready: seq<nat>)
      ensures Distinct(ready) && forall a :: 0 <= a < |ready| ==> ready[a] < |sessions| && Eligible(ready[a], www, now)
      ensures forall i: nat :: i < |sessions| && Eligible(i, www, now) ==> i in ready
      ensures ready == [] ==> forall i: nat :: i < |sessions| ==> !Ready(i, now)
    {
      ready := [];
      var i: nat := 0;
      while i < |sessions|
        invariant i <= |sessions| && Distinct(ready)
        invariant forall a :: 0 <= a < |ready| ==> ready[a] < i && Ready(ready[a], now)
        invariant forall k: nat :: k < i && Ready(k, now) ==> k in ready
        invariant www && i > WWW_SESSIONS ==> forall j: nat :: j < WWW_SESSIONS ==> !Ready(j, now)
      {
        if www && i == WWW_SESSIONS && |ready| > 0 {
          assert Ready(ready[0], now);
          break;
        }
        if sessions[i].cooldownUntil <= now {
          ready := ready + [i];
        }
        i := i + 1;
      }
    }

    /** `done`. */
    method EndRequest(s: Session, client: nat, rtt: real, observe: bool, now: int, fade: int -> real)
      modifies s
      ensures s.Model() == Done(old(s.Model()), client, rtt, observe, now, fade)
      ensures s.pending == Max(old(s.pending) - 1, 0) && s.client == old(s.client)
      ensures s.cooldownUntil == old(s.cooldownUntil)
      ensures observe && s.client == client ==> s.rttAt == Some(now) && (old(s.rttAt).None? ==> s.rttNs == rtt)
      ensures !(observe && s.client == client) ==> s.rttAt == old(s.rttAt) && s.rttNs == old(s.rttNs)
    {
      s.pending := Max(s.pending - 1, 0);
      if !observe || s.client != client {
        return;
      }
      if s.rttAt.None? {
        s.rttNs, s.rttAt := rtt, Some(now);
        return;
      }
      var decay := fade(now - s.rttAt.value);
      var current := s.rttNs * decay;
      if rtt > current {
        s.rttNs := rtt;
      } else {
        s.rttNs := current + (rtt - current) * (1.0 - decay);
      }
      s.rttAt := Some(now);
    }

    /** `fail`: whether this call moved `s` to a new client. A client is built either way. */
    method Fail(s: Session, client: nat, now: int) returns (rotated: bool)
      modifies s, this
      ensures rotated <==> old(s.client) == client
      ensures s.Model() == Failed(old(s.Model()), client, old(nextClient), now) && nextClient == old(nextClient) + 1
      // The session goes on with a new client, unmeasured, and rests for three seconds at least.
      ensures rotated ==>
        && s.client == old(nextClient) && s.rttAt.None? && s.pending == old(s.pending)
        && s.cooldownUntil == Max(old(s.cooldownUntil), now + 3 * 1000000000)
      ensures !rotated ==> s.Model() == old(s.Model())
    {
      var next := nextClient;
      nextClient := nextClient + 1;
      if s.client != client {
        return false;
      }
      s.client := next;
      s.rttNs, s.rttAt := 0.0, None;
      var until := now + ROTATE_COOLDOWN;
      if until > s.cooldownUntil {
        s.cooldownUntil := until;
      }
      rotated := true;
    }
  }
}
