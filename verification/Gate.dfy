/** `v6Gate` of server/fetch.go: pauses IPv6 for one operation after three failures among the last
    ten attempts. Times are milliseconds; the zero time is `None`. */
module Gate {
  import opened Prelude
  import opened Windows

  const WINDOW := 10
  const STRIKES := 3
  const PAUSE_MIN := 120000
  const PAUSE_MAX := 3600000
  const PROBE_GAP := 3000

  /** `log` holds the attempts recorded since the gate last resumed, `pauses` counts the pauses
      since then. */
  datatype State = State(log: seq<bool>, until: Option<int>, pause: int, probeAt: Option<int>, pauses: nat)

  const OPEN := State([], None, 0, None, 0)

  function Failures(g: State): nat { CountTrue(Last(g.log, WINDOW)) }

  function Allowed(g: State, now: int): bool {
    match g.until
    case None => true
    case Some(until) => now >= until && (g.probeAt.None? || now - g.probeAt.value >= PROBE_GAP)
  }

  function AfterAllow(g: State, now: int): State {
    if g.until.Some? && Allowed(g, now) then g.(probeAt := Some(now)) else g
  }

  function AfterRelease(g: State): State { g.(probeAt := None) }

  function AfterOk(g: State): State { if g.until.Some? then OPEN else g.(log := g.log + [false]) }

  function NextPause(pause: int): int { Min(Max(pause * 2, PAUSE_MIN), PAUSE_MAX) }

  function AfterFail(g: State, now: int): State {
    if g.until.Some? && now < g.until.value then g
    else
      var failed := g.(log := g.log + [true]);
      if g.until.None? && Failures(failed) < STRIKES then failed
      else
        var pause := NextPause(g.pause);
        failed.(pause := pause, until := Some(now + pause), probeAt := None, pauses := g.pauses + 1)
  }

  /** The pause after `n` of them in a row. */
  function PauseAfter(n: nat): int { if n == 0 then 0 else NextPause(PauseAfter(n - 1)) }

  function PowerOfTwo(n: nat): (p: nat)
    ensures p >= 1
  {
    if n == 0 then 1 else 2 * PowerOfTwo(n - 1)
  }

  /** Pauses double from two minutes and stay at an hour once there. */
  lemma {:induction false} PausesDouble(n: nat)
    ensures PauseAfter(n + 1) == Min(120000 * PowerOfTwo(n), 3600000)
  {
    if n > 0 {
      PausesDouble(n - 1);
    }
  }

  ghost predicate Inv(g: State) {
    && (g.until.None? ==> Failures(g) < STRIKES && g.probeAt.None?)
    && (g.pause == 0 <==> g.until.None?)
    && g.pause == PauseAfter(g.pauses)
  }

  /** One call on the gate. */
  datatype Event = Allow(at: int) | Release | Ok | Fail(at: int)

  function After(g: State, e: Event): State {
    match e
    case Allow(now) => AfterAllow(g, now)
    case Release => AfterRelease(g)
    case Ok => AfterOk(g)
    case Fail(now) => AfterFail(g, now)
  }

  lemma EventInv(g: State, e: Event)
    requires Inv(g)
    ensures Inv(After(g, e))
  {
    if e.Ok? && g.until.None? {
      LastPush(g.log, WINDOW, false);
    }
  }

  function Run(g: State, events: seq<Event>): State
    decreases |events|
  {
    if events == [] then g else Run(After(g, events[0]), events[1..])
  }

  /** However it is called, an open gate has fewer than three failures among the last ten attempts,
      a gate is paused exactly while it has a pause, and that pause is the doubled one before it. */
  lemma {:induction false} RunInv(g: State, events: seq<Event>)
    requires Inv(g)
    ensures Inv(Run(g, events))
    decreases |events|
  {
    if events != [] {
      EventInv(g, events[0]);
      RunInv(After(g, events[0]), events[1..]);
    }
  }

  /** Which of the events are calls to `allow` that are let through. */
  function Grants(g: State, events: seq<Event>): (r: seq<bool>)
    ensures |r| == |events|
    decreases |events|
  {
    if events == [] then []
    else [events[0].Allow? && Allowed(g, events[0].at)] + Grants(After(g, events[0]), events[1..])
  }

  /** Nothing intervenes: only calls to `allow`, in the order of their times, and failures from
      before the end of the pause. */
  ghost predicate Quiet(g: State, events: seq<Event>) {
    && g.until.Some?
    && (forall i :: 0 <= i < |events| ==> events[i].Allow? || (events[i].Fail? && events[i].at < g.until.value))
    && forall i, j :: 0 <= i < j < |events| && events[i].Allow? && events[j].Allow? ==> events[i].at <= events[j].at
  }

  lemma QuietNext(g: State, events: seq<Event>)
    requires Quiet(g, events) && events != []
    ensures Quiet(After(g, events[0]), events[1..])
    ensures events[0].Fail? ==> After(g, events[0]) == g
    ensures After(g, events[0]).until == g.until
  {}

  /** Until an answer, a release or a failure that counts comes in between, a paused gate lets a call
      through exactly when its pause is over and the last probe was at least three seconds ago. */
  lemma {:induction false} GrantsIff(g: State, events: seq<Event>, j: nat)
    requires Quiet(g, events) && j < |events| && events[j].Allow?
    ensures Grants(g, events)[j] <==>
      && events[j].at >= g.until.value
      && (g.probeAt.Some? ==> events[j].at - g.probeAt.value >= 3000)
      && forall i :: 0 <= i < j && Grants(g, events)[i] ==> events[j].at - events[i].at >= 3000
    decreases |events|
  {
    if j > 0 {
      var next, rest := After(g, events[0]), events[1..];
      QuietNext(g, events);
      GrantsIff(next, rest, j - 1);
      assert events[j] == rest[j - 1];
      assert forall i :: 0 < i < |events| ==> Grants(g, events)[i] == Grants(next, rest)[i - 1];
      assert forall i :: 0 <= i < |rest| ==>
        events[i + 1] == rest[i] && Grants(next, rest)[i] == Grants(g, events)[i + 1];
    }
  }

  /** A probe given back does not count. */
  lemma ReleasedMayProbe(g: State, now: int)
    ensures Allowed(After(g, Release), now) <==> g.until.None? || now >= g.until.value
  {}

  // ---------- When a gate pauses ----------

  /** The failures among the last ten attempts. */
  ghost function Struck(log: seq<bool>): set<int> { Marked(log, 10) }

  /** An open gate pauses on the third failure among the last ten attempts and on nothing else, for
      two minutes; until then a failure is only noted. */
  lemma PausesIff(g: State, e: Event)
    requires Inv(g) && g.until.None?
    ensures After(g, e).until.Some? <==> e.Fail? && |Struck(g.log + [true])| >= 3
    ensures After(g, e).until.Some? ==> After(g, e).until.value == e.at + 120000 && After(g, e).log == g.log + [true]
    ensures After(g, e).until.None? ==>
      After(g, e) == g.(log := g.log + if e.Fail? then [true] else if e.Ok? then [false] else [])
  {
    CountIs(g.log + [true], 10);
    hide Last, CountTrue, Marked;
    assert g.log + [] == g.log;
  }

  /** A paused gate leaves its pause on an answer only, with a clean slate; a failure once the pause
      is over doubles it, up to an hour. */
  lemma ResumesIff(g: State, e: Event)
    requires Inv(g) && g.until.Some?
    ensures After(g, e).until.None? <==> e.Ok?
    ensures e.Ok? ==> After(g, e) == State([], None, 0, None, 0)
    ensures e.Fail? && e.at < g.until.value ==> After(g, e) == g
    ensures e.Fail? && e.at >= g.until.value ==>
      var pause := Min(2 * g.pause, 3600000);
      After(g, e).pause == pause && After(g, e).until == Some(e.at + pause) && After(g, e).probeAt.None?
  {
    hide Last, CountTrue;
    PauseRange(g.pauses);
  }

  lemma PauseRange(n: nat)
    ensures PauseAfter(n) == 0 || 120000 <= PauseAfter(n) <= 3600000
  {}

  predicate StaysOpen(g: State, events: seq<Event>)
    decreases |events|
  {
    g.until.None? && (events == [] || StaysOpen(After(g, events[0]), events[1..]))
  }

  /** At no point of the calls are three of the last ten attempts failures. */
  ghost predicate NeverThree(log: seq<bool>, events: seq<Event>)
    decreases |events|
  {
    |Struck(log)| < 3
    && (events == [] ||
        NeverThree(log + if events[0].Fail? then [true] else if events[0].Ok? then [false] else [], events[1..]))
  }

  /** A gate stays open over a list of calls exactly if the attempts among them never come to three
      failures among the last ten. */
  lemma {:induction false} StaysOpenIff(g: State, events: seq<Event>)
    requires Inv(g) && g.until.None?
    ensures StaysOpen(g, events) <==> NeverThree(g.log, events)
    decreases |events|
  {
    CountIs(g.log, 10);
    hide Last, CountTrue, Marked, After;
    if events != [] {
      PausesIff(g, events[0]);
      EventInv(g, events[0]);
      if After(g, events[0]).until.None? {
        StaysOpenIff(After(g, events[0]), events[1..]);
      }
    }
  }

  /** The gate itself: the last ten attempts in a ring, with a running count of the failures. */
  class V6Gate {
    const recent: array<bool>
    var next: int
    var failures: int
    var until: Option<int>
    var pause: int
    var probeAt: Option<int>
    ghost var log: seq<bool>
    ghost var pauses: nat

    /** The ring and the counter agree with the log. */
    ghost predicate Valid()
      reads this, recent
    {
      && recent.Length == WINDOW && Holds(recent[..], log, next)
      && failures == CountTrue(Last(log, WINDOW))
    }

    ghost function Model(): State
      reads this
    {
      State(log, until, pause, probeAt, pauses)
    }

    constructor ()
      ensures Valid() && Model() == OPEN && fresh(recent)
    {
      recent := new bool[WINDOW](_ => false);
      next, failures, until, pause, probeAt := 0, 0, None, 0, None;
      log, pauses := [], 0;
    }

    method Allow(now: int) returns (ok: bool)
      requires Valid()
      modifies this`probeAt
      ensures Valid() && ok == Allowed(old(Model()), now) && Model() == AfterAllow(old(Model()), now)
      ensures ok <==> until.None? || (now >= until.value && (old(probeAt).Some? ==> now - old(probeAt).value >= 3000))
      ensures probeAt == if ok && until.Some? then Some(now) else old(probeAt)
    {
      if until.None? {
        return true;
      }
      if now < until.value || (probeAt.Some? && now - probeAt.value < PROBE_GAP) {
        return false;
      }
      probeAt := Some(now);
      return true;
    }

    method Release()
      requires Valid()
      modifies this`probeAt
      ensures Valid() && Model() == AfterRelease(old(Model()))
    {
      probeAt := None;
    }

    /** `record`: the counter stays the number of failures among the last ten. */
    method Record(failed: bool)
      requires Valid()
      modifies this`next, this`failures, this`log, recent
      ensures Valid() && log == old(log) + [failed]
    {
      hide Holds, CountTrue, Last;
      Pushed(recent[..], log, next, failed);
      if recent[next] {
        failures := failures - 1;
      }
      ghost var before := recent[..];
      recent[next] := failed;
      assert recent[..] == before[next := failed];
      if failed {
        failures := failures + 1;
      }
      next := (next + 1) % WINDOW;
      log := log + [failed];
    }

    method Ok()
      requires Valid()
      modifies this, recent
      ensures Valid() && Model() == AfterOk(old(Model()))
    {
      if until.Some? {
        forall i | 0 <= i < recent.Length {
          recent[i] := false;
        }
        next, failures, until, pause, probeAt := 0, 0, None, 0, None;
        log, pauses := [], 0;
      } else {
        Record(false);
      }
    }

    method Fail(now: int)
      requires Valid()
      modifies this, recent
      ensures Valid() && Model() == AfterFail(old(Model()), now)
      ensures old(until).Some? && now < old(until).value ==> Model() == old(Model())
      ensures old(until).None? ==> (until.Some? <==> |Struck(old(log) + [true])| >= 3)
      ensures (old(until).Some? && now >= old(until).value) || (old(until).None? && until.Some?) ==>
        pause == Min(Max(2 * old(pause), 120000), 3600000) && until == Some(now + pause) && probeAt.None?
      ensures old(until).None? && until.None? ==> Model() == old(Model()).(log := old(log) + [true])
    {
      hide Holds, CountTrue, Last, Marked;
      if until.Some? && now < until.value {
        return;
      }
      Record(true);
      CountIs(log, WINDOW);
      if until.None? && failures < STRIKES {
        return;
      }
      pause := Min(Max(pause * 2, PAUSE_MIN), PAUSE_MAX);
      until, probeAt := Some(now + pause), None;
      pauses := pauses + 1;
    }
  }
}
