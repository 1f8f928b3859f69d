/** The external helper of a flight, server/app.go: `postHelper` and `keepAfterFlight`, for any number
    of flights. Every step is one lock section, channel operation or goroutine's end. */
module Helpers {
  /** `helperBackgroundSlots`. */
  const SLOTS := 8

  /** The helper's own goroutine, and whether it came back with a post. */
  datatype Work = Idle | Running | Over(found: bool)

  /** Who answers for the helper: its flight, `keepAfterFlight` while it chooses, the goroutine it
      leaves behind (`Waiting`, `Storing`, `Leaving` hold a slot), or nobody any more. */
  datatype Keeper = InFlight | Choosing | Waiting | Storing | Leaving | Gone | Dropped

  /** `runs` and `stores` count calls of the helper and of `storeHelperPost`. */
  datatype Helper = Helper(work: Work, keeper: Keeper, cancelled: bool, runs: nat, stores: nat)

  datatype State = State(helpers: map<nat, Helper>, slots: int)

  const FRESH := Helper(Idle, InFlight, false, 0, 0)

  datatype Step =
    | Launch(f: nat)
    // `start`, by the staged race, by `hiddenPost`, or by a goroutine of the race that comes late
    | Start(f: nat)
    | Finish(f: nat, found: bool)
    // `hiddenPost` cancels a helper that can only find stale copies
    | Revoke(f: nat)
    // the deferred call of `fetchPost`, and what `keepAfterFlight` makes of it
    | Return(f: nat, hidden: bool, failed: bool, partial: bool)
    | Choose(f: nat, take: bool)
    | Wake(f: nat)
    | Stored(f: nat)
    | Release(f: nat)

  predicate Enabled(s: State, step: Step) {
    if step.Launch? then step.f !in s.helpers
    else
      step.f in s.helpers &&
      var h := s.helpers[step.f];
      match step
      case Start(_) => true
      case Finish(_, _) => h.work == Running
      case Revoke(_) => h.keeper == InFlight
      case Return(_, _, _, _) => h.keeper == InFlight
      // A `select` with a default: the default only when neither case is ready.
      case Choose(_, take) => h.keeper == Choosing && if take then s.slots < SLOTS else h.work.Over? || s.slots >= SLOTS
      case Wake(_) => h.keeper == Waiting && h.work.Over?
      case Stored(_) => h.keeper == Storing
      case Release(_) => h.keeper == Leaving
  }

  function Set(s: State, f: nat, h: Helper): State { s.(helpers := s.helpers[f := h]) }

  function Apply(s: State, step: Step): State
    requires Enabled(s, step)
  {
    if step.Launch? then Set(s, step.f, FRESH)
    else
      var f, h := step.f, s.helpers[step.f];
      match step
      case Start(_) => if h.work == Idle then Set(s, f, h.(work := Running, runs := h.runs + 1)) else s
      case Finish(_, found) => Set(s, f, h.(work := Over(found)))
      case Revoke(_) => Set(s, f, h.(cancelled := true))
      case Return(_, hidden, failed, partial) =>
        if hidden && (failed || partial) && h.work != Idle then Set(s, f, h.(keeper := Choosing))
        else Set(s, f, h.(keeper := Dropped, cancelled := true))
      case Choose(_, take) =>
        if take then Set(s.(slots := s.slots + 1), f, h.(keeper := Waiting))
        else Set(s, f, h.(keeper := Dropped, cancelled := true))
      case Wake(_) =>
        if h.work.found then Set(s, f, h.(keeper := Storing)) else Set(s, f, h.(keeper := Leaving, cancelled := true))
      case Stored(_) => Set(s, f, h.(keeper := Leaving, cancelled := true, stores := h.stores + 1))
      case Release(_) => Set(s.(slots := s.slots - 1), f, h.(keeper := Gone))
  }

  // ---------- Invariant ----------

  predicate Detached(h: Helper) { h.keeper.Waiting? || h.keeper.Storing? || h.keeper.Leaving? }

  predicate Sound(h: Helper) {
    // The helper has been called once if at all, and its post stored once if at all.
    && h.runs == (if h.work.Idle? then 0 else 1)
    && h.stores == (if (h.keeper.Leaving? || h.keeper.Gone?) && h.work == Over(true) then 1 else 0)
    && (h.keeper.Storing? ==> h.work == Over(true)) && (h.keeper.Leaving? || h.keeper.Gone? ==> h.work.Over?)
    && (h.keeper.Choosing? || Detached(h) ==> !h.work.Idle?)
    // Nobody lets go of a helper without cancelling it.
    && (h.keeper.Dropped? || h.keeper.Leaving? || h.keeper.Gone? ==> h.cancelled)
  }

  ghost function Holders(s: State): set<nat> { set f | f in s.helpers && Detached(s.helpers[f]) }

  ghost predicate Inv(s: State) {
    && (forall f :: f in s.helpers ==> Sound(s.helpers[f]))
    && s.slots == |Holders(s)| <= SLOTS
  }

  /** A step touches its own helper alone. */
  lemma StepSound(s: State, step: Step)
    requires Enabled(s, step) && (step.f in s.helpers ==> Sound(s.helpers[step.f]))
    ensures var t := Apply(s, step);
            && step.f in t.helpers && Sound(t.helpers[step.f])
            && t.helpers == s.helpers[step.f := t.helpers[step.f]]
            && t.slots == s.slots + (if step.Choose? && step.take then 1 else if step.Release? then -1 else 0)
            && (step.Launch? ==> !Detached(t.helpers[step.f]))
            && (!step.Launch? ==>
                  (step.Choose? && step.take <==> !Detached(s.helpers[step.f]) && Detached(t.helpers[step.f]))
                  && (step.Release? <==> Detached(s.helpers[step.f]) && !Detached(t.helpers[step.f])))
  {}

  lemma HoldersAfter(s: State, t: State, f: nat)
    requires f in t.helpers && t.helpers == s.helpers[f := t.helpers[f]]
    ensures Holders(t) == Holders(s) - {f} + (if Detached(t.helpers[f]) then {f} else {})
    ensures f in Holders(s) <==> f in s.helpers && Detached(s.helpers[f])
  {
    hide Detached;
  }

  lemma StepInv(s: State, step: Step)
    requires Inv(s) && Enabled(s, step)
    ensures Inv(Apply(s, step))
  {
    hide Apply, Sound, Detached, Holders;
    var t := Apply(s, step);
    StepSound(s, step);
    HoldersAfter(s, t, step.f);
  }

  predicate Run(s: State, steps: seq<Step>, t: State)
    decreases |steps|
  {
    if steps == [] then s == t else Enabled(s, steps[0]) && Run(Apply(s, steps[0]), steps[1..], t)
  }

  lemma {:induction false} RunInv(s: State, steps: seq<Step>, t: State)
    requires Inv(s) && Run(s, steps, t)
    ensures Inv(t)
    decreases |steps|
  {
    hide Apply, Inv;
    if steps != [] {
      StepInv(s, steps[0]);
      RunInv(Apply(s, steps[0]), steps[1..], t);
    }
  }

  /** At every point of every run: a helper has run and stored at most once, and at most eight
      helpers outlive their flight on a slot. */
  lemma AtMostOnce(steps: seq<Step>, t: State)
    requires Run(State(map[], 0), steps, t)
    ensures forall f :: f in t.helpers ==> t.helpers[f].runs <= 1 && t.helpers[f].stores <= 1
    ensures |Holders(t)| == t.slots <= 8
    // The post of a helper that was kept is stored if it came back with one.
    ensures forall f :: f in t.helpers && t.helpers[f].keeper == Gone ==>
      (t.helpers[f].work == Over(true) && t.helpers[f].stores == 1)
      || (t.helpers[f].work == Over(false) && t.helpers[f].stores == 0)
  {
    assert Holders(State(map[], 0)) == {};
    RunInv(State(map[], 0), steps, t);
  }

  // ---------- Which helpers are kept ----------

  /** A flight lets go of its helper at once unless its post is hidden, it has no more than part of it
      and the helper has been started. */
  lemma KeptIff(s: State, f: nat, hidden: bool, failed: bool, partial: bool)
    requires Enabled(s, Return(f, hidden, failed, partial))
    ensures var t := Apply(s, Return(f, hidden, failed, partial));
            && f in t.helpers
            && (t.helpers[f].keeper == Choosing <==> hidden && (failed || partial) && s.helpers[f].work != Idle)
            && (t.helpers[f].keeper != Choosing ==> t.helpers[f].keeper == Dropped && t.helpers[f].cancelled)
            && (t.helpers[f].keeper == Choosing ==> t.helpers[f].cancelled == s.helpers[f].cancelled)
  {}

  /** A helper that can only find stale copies is cancelled, and stays so whatever its flight does. */
  lemma {:induction false} RevokedStays(s: State, f: nat, steps: seq<Step>, t: State)
    requires Enabled(s, Revoke(f)) && Run(Apply(s, Revoke(f)), steps, t)
    ensures f in t.helpers && t.helpers[f].cancelled
  {
    CancelledStays(Apply(s, Revoke(f)), f, steps, t);
  }

  lemma {:induction false} CancelledStays(s: State, f: nat, steps: seq<Step>, t: State)
    requires f in s.helpers && s.helpers[f].cancelled && Run(s, steps, t)
    ensures f in t.helpers && t.helpers[f].cancelled
    decreases |steps|
  {
    if steps != [] {
      CancelledStays(Apply(s, steps[0]), f, steps[1..], t);
    }
  }

  /** Of those it keeps, one that is still running is given a slot if and only if one is free; then it
      goes on uncancelled until it comes back. */
  lemma SlotIff(s: State, f: nat)
    requires Inv(s) && f in s.helpers && s.helpers[f].keeper == Choosing && s.helpers[f].work == Running
    ensures Enabled(s, Choose(f, true)) <==> s.slots < 8
    ensures Enabled(s, Choose(f, false)) <==> s.slots >= 8
    ensures Enabled(s, Choose(f, true)) ==>
      var h := Apply(s, Choose(f, true)).helpers[f];
      h.keeper == Waiting && h.work == Running && h.cancelled == s.helpers[f].cancelled
    ensures Enabled(s, Choose(f, false)) ==>
      Apply(s, Choose(f, false)).helpers[f].cancelled && Apply(s, Choose(f, false)).slots == s.slots
  {}

  // ---------- Every helper is let go ----------

  /** Nothing is left to do for a helper: it is cancelled and holds no slot. */
  predicate Settled(h: Helper) { h.cancelled && (h.keeper.Gone? || h.keeper.Dropped?) }

  /** How many steps a helper has before it at most. */
  function Left(h: Helper): nat {
    (match h.keeper
     case InFlight => 5
     case Choosing => 4
     case Waiting => 3
     case Storing => 2
     case Leaving => 1
     case _ => 0)
    + (match h.work case Idle => 2 case Running => 1 case Over(_) => 0)
    + (if h.cancelled then 0 else 1)
  }

  function LeftOf(s: State, f: nat): nat { if f in s.helpers then Left(s.helpers[f]) else Left(FRESH) }

  lemma StepLeft(s: State, step: Step, f: nat)
    requires Enabled(s, step)
    ensures LeftOf(Apply(s, step), f) <= LeftOf(s, f)
    ensures f == step.f && f in s.helpers && Apply(s, step) != s ==> LeftOf(Apply(s, step), f) < LeftOf(s, f)
  {}

  /** The steps of a run that change the helper of `f`. */
  function Moves(s: State, steps: seq<Step>, t: State, f: nat): nat
    requires Run(s, steps, t)
    decreases |steps|
  {
    if steps == [] then 0
    else
      var u := Apply(s, steps[0]);
      (if f in s.helpers && steps[0].f == f && u != s then 1 else 0) + Moves(u, steps[1..], t, f)
  }

  lemma {:induction false} MovesBounded(s: State, steps: seq<Step>, t: State, f: nat)
    requires Run(s, steps, t)
    ensures Moves(s, steps, t, f) + LeftOf(t, f) <= LeftOf(s, f) <= Left(FRESH)
    decreases |steps|
  {
    LeftFresh(s, f);
    if steps != [] {
      StepLeft(s, steps[0], f);
      hide Apply;
      MovesBounded(Apply(s, steps[0]), steps[1..], t, f);
    }
  }

  lemma LeftFresh(s: State, f: nat)
    ensures LeftOf(s, f) <= Left(FRESH) == 8
  {}

  /** What moves the helper of `f` on, given that flights return and helpers come back. */
  function NextStep(s: State, f: nat): Step
    requires f in s.helpers && !Settled(s.helpers[f])
  {
    var h := s.helpers[f];
    match h.keeper
    case InFlight => Return(f, false, false, false)
    case Choosing => Choose(f, s.slots < SLOTS)
    case Waiting => if h.work.Over? then Wake(f) else Finish(f, false)
    case Storing => Stored(f)
    case Leaving => Release(f)
    case _ => Start(f)
  }

  /** No helper is ever stuck: until it is cancelled and off its slot, some step moves it on. With
      `MovesBounded`, every helper context is cancelled after at most eight moves. */
  lemma NeverStuck(s: State, f: nat)
    requires Inv(s) && f in s.helpers && !Settled(s.helpers[f])
    ensures Enabled(s, NextStep(s, f)) && LeftOf(Apply(s, NextStep(s, f)), f) < LeftOf(s, f)
  {
    assert Sound(s.helpers[f]);
  }

  /** When nothing more can happen to it, a helper has been cancelled and holds no slot. */
  lemma EveryHelperCancelled(steps: seq<Step>, t: State, f: nat)
    requires Run(State(map[], 0), steps, t) && f in t.helpers
    requires forall step :: Enabled(t, step) && step.f == f ==> Apply(t, step) == t
    ensures t.helpers[f].cancelled && f !in Holders(t)
  {
    assert Holders(State(map[], 0)) == {};
    RunInv(State(map[], 0), steps, t);
    if !Settled(t.helpers[f]) {
      NeverStuck(t, f);
    }
  }
}
