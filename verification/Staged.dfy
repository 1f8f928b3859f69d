/** `stagedFetch` of server/fetch.go: sources race on a schedule, and a failure pulls the next one in
    early. Time, cancellation and the order of arrival are nondeterministic. */
module Staged {
  import opened Prelude
  import opened Errors

  datatype Reply<+T> = Won(value: T) | Lost(error: AppError)

  /** A source: when it is due, and what it answers once started. */
  datatype Source<+T> = Source(after: int, reply: Reply<T>)

  /** Why a source was started. */
  datatype Cause = First | Due | Pulled
  datatype Launch = Launch(at: int, cause: Cause)

  datatype Ending = Winner(source: nat) | Final(source: nat) | Cut | Exhausted

  const NOTHING := AppError(502, Connection, ephemeral := true)

  /** The sources at `failed` have failed, none of them for good. */
  ghost predicate Failures<T>(sources: seq<Source<T>>, failed: seq<nat>) {
    && Distinct(failed)
    && forall j :: 0 <= j < |failed| ==>
         failed[j] < |sources| && sources[failed[j]].reply.Lost? && !sources[failed[j]].reply.error.final
  }

  /** Their errors, in the order they arrived. */
  ghost function ErrorsOf<T>(sources: seq<Source<T>>, failed: seq<nat>): (r: seq<AppError>)
    requires Failures(sources, failed)
    ensures |r| == |failed| && forall j :: 0 <= j < |r| ==> r[j] == sources[failed[j]].reply.error
  {
    seq(|failed|, j requires 0 <= j < |failed| && Failures(sources, failed) => sources[failed[j]].reply.error)
  }

  /** The race so far: the sources started are the first ones, and those not running have failed. */
  ghost predicate Racing<T>(sources: seq<Source<T>>, started: nat, running: set<nat>, failed: seq<nat>,
                            lastErr: Option<AppError>)
  {
    && started <= |sources| && Failures(sources, failed)
    && (forall i: nat :: i < started <==> i in running || i in failed)
    && (forall i :: i in failed ==> i !in running)
    && (if failed == [] then lastErr.None?
        else lastErr.Some? && FirstOfHighestRank(ErrorsOf(sources, failed), lastErr.value))
  }

  /** A source starts ahead of its time only when a failure pulls it in. */
  ghost predicate OnSchedule<T>(sources: seq<Source<T>>, launches: seq<Launch>, failures: nat) {
    && |launches| <= |sources| && Pulls(launches) <= failures
    && forall i :: 0 <= i < |launches| ==> Timely(sources[i], i, launches[i])
  }

  predicate Timely<T>(source: Source<T>, i: int, l: Launch) {
    match l.cause
    case First => i == 0
    case Due => l.at >= source.after
    case Pulled => i > 0
  }

  /** How many sources failures have pulled in. */
  function Pulls(launches: seq<Launch>): nat {
    if launches == [] then 0
    else Pulls(launches[..|launches| - 1]) + (if launches[|launches| - 1].cause.Pulled? then 1 else 0)
  }

  /** What holds of the race whenever it waits; `spare` is whether a failure has yet to pull a
      source in. */
  ghost predicate Standing<T>(sources: seq<Source<T>>, launches: seq<Launch>, running: set<nat>, failed: seq<nat>,
                              lastErr: Option<AppError>, spare: bool)
  {
    && Racing(sources, |launches|, running, failed, lastErr) && OnSchedule(sources, launches, |failed|)
    && (spare ==> Pulls(launches) < |failed|)
  }

  lemma Launched<T>(sources: seq<Source<T>>, launches: seq<Launch>, running: set<nat>, failed: seq<nat>,
                    lastErr: Option<AppError>, spare: bool, l: Launch)
    requires Standing(sources, launches, running, failed, lastErr, spare) && |launches| < |sources|
    requires Timely(sources[|launches|], |launches|, l) && (l.cause.Pulled? ==> spare)
    ensures Standing(sources, launches + [l], running + {|launches|}, failed, lastErr, false)
    ensures |running + {|launches|}| == |running| + 1
    ensures Pulls(launches + [l]) == Pulls(launches) + if l.cause.Pulled? then 1 else 0
  {
    hide Racing, OnSchedule, Pulls;
    ScheduleGrows(sources, launches, |failed|, spare, l);
    RaceGrows(sources, |launches|, running, failed, lastErr);
  }

  lemma ScheduleGrows<T>(sources: seq<Source<T>>, launches: seq<Launch>, failures: nat, spare: bool, l: Launch)
    requires OnSchedule(sources, launches, failures) && (spare ==> Pulls(launches) < failures)
    requires |launches| < |sources| && Timely(sources[|launches|], |launches|, l) && (l.cause.Pulled? ==> spare)
    ensures OnSchedule(sources, launches + [l], failures)
    ensures Pulls(launches + [l]) == Pulls(launches) + if l.cause.Pulled? then 1 else 0
  {
    hide Timely;
    var all := launches + [l];
    assert all[..|all| - 1] == launches;
  }

  lemma RaceGrows<T>(sources: seq<Source<T>>, started: nat, running: set<nat>, failed: seq<nat>,
                     lastErr: Option<AppError>)
    requires Racing(sources, started, running, failed, lastErr) && started < |sources|
    ensures Racing(sources, started + 1, running + {started}, failed, lastErr)
    ensures started !in running
  {
    hide FirstOfHighestRank, ErrorsOf, Distinct;
    forall i | i in failed ensures i !in running + {started} {
      assert i < started;
    }
  }

  lemma HasFailed<T>(sources: seq<Source<T>>, launches: seq<Launch>, running: set<nat>, failed: seq<nat>,
                     lastErr: Option<AppError>, i: nat)
    requires Standing(sources, launches, running, failed, lastErr, false)
    requires i in running && i < |sources| && sources[i].reply.Lost? && !sources[i].reply.error.final
    ensures Standing(sources, launches, running - {i}, failed + [i],
                     PreferredError(lastErr, Some(sources[i].reply.error)), true)
    ensures |running - {i}| == |running| - 1
  {
    var e := sources[i].reply.error;
    PreferredKeepsFirst(ErrorsOf(sources, failed), lastErr, e);
    assert Failures(sources, failed + [i]);
    assert ErrorsOf(sources, failed + [i]) == ErrorsOf(sources, failed) + [e];
    assert forall k :: k in failed + [i] <==> k in failed || k == i;
  }

  /** Every source has failed, and `e` is what to say about it. */
  ghost predicate AllFailed<T>(sources: seq<Source<T>>, failed: seq<nat>, e: AppError) {
    && Failures(sources, failed) && (forall i: nat :: i < |sources| <==> i in failed)
    && (if sources == [] then e == NOTHING else FirstOfHighestRank(ErrorsOf(sources, failed), e))
  }

  /** All that were started have failed, and `e` is the first of their errors of the highest rank. */
  ghost predicate Reported<T>(sources: seq<Source<T>>, started: nat, failed: seq<nat>, e: AppError) {
    && Failures(sources, failed) && (forall i: nat :: i < started <==> i in failed)
    && (if failed == [] then e == AppError(502, Connection, ephemeral := true)
        else FirstOfHighestRank(ErrorsOf(sources, failed), e))
  }

  /** The rank of the error reported is the highest of any source, whatever the order of arrival. */
  lemma HighestOfAll<T>(sources: seq<Source<T>>, failed: seq<nat>, e: AppError)
    requires AllFailed(sources, failed, e)
    ensures forall i :: 0 <= i < |sources| ==> sources[i].reply.Lost? && Rank(sources[i].reply.error) <= Rank(e)
    ensures sources != [] ==> exists i :: 0 <= i < |sources| && sources[i].reply == Lost(e)
  {
    var errors := ErrorsOf(sources, failed);
    forall i: nat | i < |sources| ensures sources[i].reply.Lost? && Rank(sources[i].reply.error) <= Rank(e) {
      assert i in failed;
      var j :| 0 <= j < |failed| && failed[j] == i;
      assert errors[j] == sources[i].reply.error;
    }
    if sources != [] {
      var j :| 0 <= j < |errors| && errors[j] == e;
      assert sources[failed[j]].reply == Lost(e);
    }
  }

  /** What is said when the parent context ends before the race does. */
  ghost predicate CutOff<T>(sources: seq<Source<T>>, failed: seq<nat>, deadline: bool, e: AppError) {
    Failures(sources, failed) &&
    var errors := ErrorsOf(sources, failed);
    if exists j :: 0 <= j < |errors| && Permanent(errors[j]) then FirstOfHighestRank(errors, e) && Permanent(e)
    else
      e == if deadline then AppError(504, Connection, ephemeral := true)
           else AppError(499, Internal, ephemeral := true)
  }

  /** `stagedFetch`. `deadline` is how the parent context would end; `patience` bounds how often the
      timer may be drawn before an ended parent is noticed. */
  method StagedFetch<T>(sources: seq<Source<T>>, deadline: bool, patience: nat)
    returns (out: Reply<T>, ending: Ending, cancelled: bool, ghost launches: seq<Launch>, ghost failed: seq<nat>)
    // The first good answer, or an error that settles the matter.
    ensures ending.Winner? ==>
      ending.source < |launches| <= |sources| && sources[ending.source].reply == out && out.Won?
    ensures ending.Final? ==>
      ending.source < |launches| <= |sources| && sources[ending.source].reply == out && out.Lost? && out.error.final
    // When the parent ends first: the earliest permanent error there has been, else the parent's own.
    ensures ending.Cut? ==> cancelled && out.Lost? && CutOff(sources, failed, deadline, out.error)
    // Otherwise every source that was started has failed, and theirs is the error; unless the parent
    // has ended, that is all of them.
    ensures ending.Exhausted? ==> out.Lost? && Reported(sources, |launches|, failed, out.error)
    ensures ending.Exhausted? && !cancelled ==> |launches| == |sources| && AllFailed(sources, failed, out.error)
    ensures OnSchedule(sources, launches, |failed|)
    // Each failure pulled the next source in while there was one.
    ensures !cancelled ==> |launches| == |sources| || Pulls(launches) == |failed|
  {
    hide *;
    launches, failed, cancelled := [], [], *;
    var now, pending, running: set<nat> := 0, 0, {};
    var next: nat := 0;
    var lastErr: Option<AppError>, timer: Option<int> := None, None;
    Unstarted(sources);
    if next < |sources| && !cancelled {
      Launched(sources, launches, running, failed, lastErr, false, Launch(0, First));
      running, pending, next, launches := running + {0}, 1, 1, launches + [Launch(0, First)];
    }
    if next < |sources| {
      AtLeast(sources[next].after, now);
      timer := Some(Max(sources[next].after, now));
    }
    var spins := patience;
    while pending > 0
      invariant next == |launches| <= |sources| && pending == |running|
      invariant Standing(sources, launches, running, failed, lastErr, false)
      invariant timer.Some? <==> next < |sources|
      invariant timer.Some? ==> timer.value >= sources[next].after
      invariant !cancelled && pending == 0 ==> next == |sources|
      invariant !cancelled ==> next == |sources| || Pulls(launches) == |failed|
      decreases 2 * (|sources| - next) + pending, spins
    {
      Scheduled(sources, launches, running, failed, lastErr, false);
      var elapsed: nat, cancel: bool := *, *;
      now, cancelled := now + elapsed, cancelled || cancel;
      if {
        case cancelled =>
          ending := Cut;
          Unheard(sources, launches, running, failed, lastErr, deadline);
          var said :=
            if lastErr.Some? && !IsTransient(lastErr.value.code) then lastErr.value else ContextError(deadline);
          out := Lost(said);
          return;
        case timer.Some? && now >= timer.value && (!cancelled || spins > 0) =>
          if cancelled {
            spins := spins - 1;
          } else {
            DueNow(sources[next], next, now);
            Launched(sources, launches, running, failed, lastErr, false, Launch(now, Due));
            running, pending, launches, next := running + {next}, pending + 1, launches + [Launch(now, Due)], next + 1;
          }
          timer := None;
          if next < |sources| {
            AtLeast(sources[next].after, now);
            timer := Some(Max(sources[next].after, now));
          }
        case true =>
          var i :| i in running;
          RunningSource(sources, launches, running, failed, lastErr, i);
          var reply := sources[i].reply;
          if reply.Won? {
            return reply, Winner(i), cancelled, launches, failed;
          }
          if reply.error.final {
            return reply, Final(i), cancelled, launches, failed;
          }
          HasFailed(sources, launches, running, failed, lastErr, i);
          running, pending, failed := running - {i}, pending - 1, failed + [i];
          lastErr := PreferredError(lastErr, Some(reply.error));
          if next < |sources| && !cancelled {
            PulledNow(sources[next], next, now);
            Launched(sources, launches, running, failed, lastErr, true, Launch(now, Pulled));
            running, pending, next := running + {next}, pending + 1, next + 1;
            launches := launches + [Launch(now, Pulled)];
          } else {
            Scheduled(sources, launches, running, failed, lastErr, true);
          }
          timer := None;
          if next < |sources| {
            AtLeast(sources[next].after, now);
            timer := Some(Max(sources[next].after, now));
          }
      }
    }
    ending := Exhausted;
    out := Lost(if lastErr.None? then NOTHING else lastErr.value);
    Scheduled(sources, launches, running, failed, lastErr, false);
    Finished(sources, next, running, failed, lastErr);
  }

  lemma Unstarted<T>(sources: seq<Source<T>>)
    ensures Standing(sources, [], {}, [], None, false)
    ensures sources != [] ==> Timely(sources[0], 0, Launch(0, First))
    ensures Pulls([]) == 0
  {}

  lemma Scheduled<T>(sources: seq<Source<T>>, launches: seq<Launch>, running: set<nat>, failed: seq<nat>,
                     lastErr: Option<AppError>, spare: bool)
    requires Standing(sources, launches, running, failed, lastErr, spare)
    ensures OnSchedule(sources, launches, |failed|) && Racing(sources, |launches|, running, failed, lastErr)
    ensures Standing(sources, launches, running, failed, lastErr, false)
  {}

  lemma AtLeast(a: int, b: int)
    ensures Max(a, b) >= a
  {}

  lemma Unheard<T>(sources: seq<Source<T>>, launches: seq<Launch>, running: set<nat>, failed: seq<nat>,
                   lastErr: Option<AppError>, deadline: bool)
    requires Standing(sources, launches, running, failed, lastErr, false)
    ensures var kept := lastErr.Some? && !IsTransient(lastErr.value.code);
            CutOff(sources, failed, deadline, if kept then lastErr.value else ContextError(deadline))
  {
    hide Distinct, OnSchedule;
    RankIs();
    var errors := ErrorsOf(sources, failed);
    if lastErr.Some? {
      var i :| 0 <= i < |errors| && errors[i] == lastErr.value
        && (forall j :: 0 <= j < |errors| ==> Rank(errors[j]) <= Rank(lastErr.value))
        && (forall j :: 0 <= j < i ==> Rank(errors[j]) < Rank(lastErr.value));
    }
  }

  lemma DueNow<T>(source: Source<T>, i: int, now: int)
    requires now >= source.after
    ensures Timely(source, i, Launch(now, Due))
  {}

  lemma PulledNow<T>(source: Source<T>, i: int, now: int)
    requires i > 0
    ensures Timely(source, i, Launch(now, Pulled))
  {}

  lemma RunningSource<T>(sources: seq<Source<T>>, launches: seq<Launch>, running: set<nat>, failed: seq<nat>,
                         lastErr: Option<AppError>, i: nat)
    requires Standing(sources, launches, running, failed, lastErr, false) && i in running
    ensures i < |launches| <= |sources|
  {}

  lemma Finished<T>(
      sources: seq<Source<T>>, started: nat, running: set<nat>, failed: seq<nat>, lastErr: Option<AppError>)
    requires Racing(sources, started, running, failed, lastErr) && running == {}
    ensures started == |sources| ==>
      AllFailed(sources, failed, if lastErr.None? then NOTHING else lastErr.value)
    ensures Reported(sources, started, failed, if lastErr.None? then NOTHING else lastErr.value)
  {
    if sources != [] && started == |sources| {
      assert 0 in failed;
    }
    if failed != [] {
      assert failed[0] in failed;
    }
  }
}
