/** The persistent rows of server/cache.go beside its memory. A flight whose value is to be kept writes
    its row after its waiters are released; a put writes its row before it stores in memory. */
module Disk {
  import opened Prelude
  import opened Flight

  /** `owes` are the flights that have a row still to write, `written` the putters that have tried
      to write theirs. */
  datatype System = System(mem: State, disk: map<Key, Writer>, owes: set<nat>, written: set<nat>)

  datatype Move =
    // A step in memory; `persist` is what a fetch that returns says of its value.
    | Memory(step: Step, persist: bool)
    | WriteFlight(f: nat, ok: bool)
    | WritePut(p: nat, ok: bool)

  predicate CanMove(s: System, m: Move) {
    match m
    case Memory(step, _) => Enabled(s.mem, step) && (step.Put? ==> step.p in s.written)
    case WriteFlight(f, _) => f in s.owes && InPhase(s.mem, f, Closed)
    case WritePut(p, _) => p in s.mem.putters && s.mem.putters[p].phase.Ready? && p !in s.written
  }

  /** Whether a fetch that returns leaves its flight with a row to write. */
  predicate Persists(step: Step, persist: bool) {
    step.Return? && persist && Settle(step.fetched, step.late).0.Good? && Settle(step.fetched, step.late).1.Some?
  }

  function MoveOn(s: System, m: Move): System
    requires CanMove(s, m)
  {
    match m
    case Memory(step, persist) =>
      System(Apply(s.mem, step), s.disk, if Persists(step, persist) then s.owes + {step.f} else s.owes, s.written)
    case WriteFlight(f, ok) =>
      System(s.mem, if ok then s.disk[s.mem.calls[f].key := ByFlight(f)] else s.disk, s.owes - {f}, s.written)
    case WritePut(p, ok) =>
      System(s.mem, if ok then s.disk[s.mem.putters[p].key := ByPut(p)] else s.disk, s.owes, s.written + {p})
  }

  predicate Moves(s: System, moves: seq<Move>, t: System)
    decreases |moves|
  {
    if moves == [] then s == t else CanMove(s, moves[0]) && Moves(MoveOn(s, moves[0]), moves[1..], t)
  }

  /** The fetch of the flight has come back, or was never needed. */
  predicate Late(s: State, f: nat) { f in s.calls && (InPhase(s, f, Storing) || Spent(s, f)) }

  /** Only a flight that ended in a value, its fetch over, has a row to write; rows bear their key's
      flights. */
  ghost predicate DiskInv(s: System) {
    && Inv(s.mem)
    && (forall f :: f in s.owes ==>
          Late(s.mem, f) && s.mem.calls[f].verdict.Some? && s.mem.calls[f].verdict.value.Good?)
    && (forall k :: k in s.disk && s.disk[k].ByFlight? ==>
          s.disk[k].flight in s.mem.calls && s.mem.calls[s.disk[k].flight].key == k)
  }

  /** A fetch leaves a row to write exactly if it is to be kept and came back with a valid value that
      may be cached. */
  lemma OwesIff(s: System, f: nat, fetched: Fetched, late: bool, persist: bool)
    requires CanMove(s, Memory(Return(f, fetched, late), persist)) && f !in s.owes
    ensures f in MoveOn(s, Memory(Return(f, fetched, late), persist)).owes
       <==> persist && fetched.error.None? && fetched.valid && fetched.ttl > 0
  {
    hide Apply;
  }

  lemma MoverEarly(s: State, step: Step)
    requires Enabled(s, step) && Mover(step).Some? && Late(s, Mover(step).value)
    ensures step.Store?
  {}

  lemma StoreStays(s: State, f: nat, effect: Effect)
    requires Enabled(s, Store(f, effect))
    ensures var t := Apply(s, Store(f, effect));
            InPhase(t, f, Ending) && t.calls[f].key == s.calls[f].key && t.calls[f].verdict == s.calls[f].verdict
  {
    hide StoreLocal;
  }

  lemma LateStays(s: State, step: Step, f: nat)
    requires Enabled(s, step) && Late(s, f)
    ensures var t := Apply(s, step);
            Late(t, f) && t.calls[f].key == s.calls[f].key && t.calls[f].verdict == s.calls[f].verdict
  {
    hide Apply;
    StepShape(s, step);
    if Mover(step) == Some(f) {
      MoverEarly(s, step);
      StoreStays(s, f, step.effect);
    }
  }

  lemma ReturnOwes(s: State, step: Step, persist: bool)
    requires Enabled(s, step) && Persists(step, persist)
    ensures var t := Apply(s, step);
            InPhase(t, step.f, Storing) && t.calls[step.f].verdict.Some? && t.calls[step.f].verdict.value.Good?
  {
    hide GetStep, PutStep;
  }

  lemma MoveInv(s: System, m: Move)
    requires DiskInv(s) && CanMove(s, m)
    ensures DiskInv(MoveOn(s, m))
  {
    hide Inv, Apply, Enabled, Spent;
    if m.Memory? {
      var step, t := m.step, MoveOn(s, m);
      StepInv(s.mem, step);
      forall f | f in t.owes
        ensures Late(t.mem, f) && t.mem.calls[f].verdict.Some? && t.mem.calls[f].verdict.value.Good?
      {
        if Persists(step, m.persist) && f == step.f {
          ReturnOwes(s.mem, step, m.persist);
        } else {
          LateStays(s.mem, step, f);
        }
      }
      KeysStay(s.mem, step);
    }
  }

  lemma KeysStay(s: State, step: Step)
    requires Enabled(s, step)
    ensures forall f :: f in s.calls ==> f in Apply(s, step).calls && Apply(s, step).calls[f].key == s.calls[f].key
  {
    StepShape(s, step);
    hide Apply;
    CallsStay(s, Apply(s, step));
  }

  lemma {:induction false} MovesInv(s: System, moves: seq<Move>, t: System)
    requires DiskInv(s) && Moves(s, moves, t)
    ensures DiskInv(t)
    decreases |moves|
  {
    hide DiskInv, MoveOn, CanMove;
    if moves != [] {
      MoveInv(s, moves[0]);
      MovesInv(MoveOn(s, moves[0]), moves[1..], t);
    }
  }

  // ---------- When a row is overwritten ----------

  /** The flight may still come to write its row. */
  predicate MayWrite(s: System, f: nat) { f in s.mem.calls && (f in s.owes || !Late(s.mem, f)) }

  /** It never will, and the row of its key is not its. */
  predicate Harmless(s: System, k: Key, f: nat) {
    f in s.mem.calls && !MayWrite(s, f) && (k in s.disk ==> s.disk[k] != ByFlight(f))
  }

  lemma HarmlessMove(s: System, m: Move, k: Key, f: nat)
    requires CanMove(s, m) && Harmless(s, k, f)
    ensures Harmless(MoveOn(s, m), k, f)
  {
    hide Apply, Enabled, Late, Persists;
    if m.Memory? {
      LateStays(s.mem, m.step, f);
      if Persists(m.step, m.persist) {
        ReturnNotLate(s.mem, m.step, m.persist);
      }
      KeysStay(s.mem, m.step);
    }
  }

  lemma ReturnNotLate(s: State, step: Step, persist: bool)
    requires Enabled(s, step) && Persists(step, persist)
    ensures !Late(s, step.f)
  {}

  lemma {:induction false} HarmlessMoves(s: System, moves: seq<Move>, t: System, k: Key, f: nat)
    requires Moves(s, moves, t) && Harmless(s, k, f)
    ensures Harmless(t, k, f)
    decreases |moves|
  {
    hide MoveOn, CanMove, Harmless;
    if moves != [] {
      HarmlessMove(s, moves[0], k, f);
      HarmlessMoves(MoveOn(s, moves[0]), moves[1..], t, k, f);
    }
  }

  /** A flight that ended in an error never writes a row: a putter that followed one is safe from it. */
  lemma ErrorsNeverPersist(s: System, moves: seq<Move>, t: System, k: Key, f: nat)
    requires DiskInv(s) && Moves(s, moves, t) && InPhase(s.mem, f, Closed)
    requires s.mem.calls[f].verdict.Some? && s.mem.calls[f].verdict.value.Bad?
    requires k in s.disk ==> s.disk[k] != ByFlight(f)
    ensures k in t.disk ==> t.disk[k] != ByFlight(f)
  {
    HarmlessMoves(s, moves, t, k, f);
  }

  /** A move that brings a flight nearer to writing its row. */
  function Onward(s: System, f: nat, g: nat): Move
    requires MayWrite(s, f)
  {
    var phase := s.mem.calls[f].phase;
    if phase == Lookup then Memory(Step.NotFound(f), false)
    else if phase == WantSlot then
      Memory(if s.mem.slots < s.mem.capacity then Acquire(f) else Return(g, LOST, false), false)
    else if phase == Fetching then Memory(Return(f, GOOD, false), true)
    else if phase == Storing then Memory(Store(f, PLAIN), false)
    else if phase == Ending then Memory(Close(f), false)
    else WriteFlight(f, true)
  }

  function Rank(s: System, f: nat): nat
    requires MayWrite(s, f)
  {
    var phase := s.mem.calls[f].phase;
    if phase == Lookup then 6
    else if phase == WantSlot then (if s.mem.slots < s.mem.capacity then 4 else 5)
    else if phase == Fetching then 3
    else if phase == Storing then 2
    else if phase == Ending then 1
    else 0
  }

  lemma SomeFetcher(s: State) returns (g: nat)
    requires Inv(s) && 0 < s.capacity <= s.slots
    ensures InPhase(s, g, Fetching)
  {
    assert Fetchers(s) != {};
    g :| g in Fetchers(s);
  }

  /** What a flight needs for its next step is there. */
  lemma PhaseReady(s: State, f: nat)
    requires Inv(s) && f in s.calls
    ensures s.calls[f].phase == Fetching ==> s.slots > 0
    ensures s.calls[f].phase == Storing ==> s.calls[f].due.Some?
  {
    assert CallOrdered(f, s.calls[f]);
    if s.calls[f].phase == Fetching {
      assert f in Fetchers(s);
    }
  }

  lemma OnwardEnabled(s: System, f: nat) returns (g: nat)
    requires DiskInv(s) && s.mem.capacity > 0 && MayWrite(s, f)
    ensures CanMove(s, Onward(s, f, g)) && (s.mem.calls[f].phase == WantSlot ==> g != f)
  {
    hide Inv;
    g := f + 1;
    if s.mem.calls[f].phase == WantSlot && s.mem.slots >= s.mem.capacity {
      g := SomeFetcher(s.mem);
    }
    PhaseReady(s.mem, f);
  }

  lemma LookupOn(s: State, f: nat)
    requires Enabled(s, Step.NotFound(f))
    ensures var t := Apply(s, Step.NotFound(f));
            t.calls == s.calls[f := s.calls[f].(phase := WantSlot)] && t.slots == s.slots && t.capacity == s.capacity
  {}

  lemma SlotOn(s: State, f: nat)
    requires Enabled(s, Acquire(f))
    ensures var t := Apply(s, Acquire(f));
            t.calls == s.calls[f := s.calls[f].(phase := Fetching)] && t.capacity == s.capacity
  {}

  lemma OtherReturns(s: State, f: nat, g: nat)
    requires Enabled(s, Return(g, LOST, false)) && f != g && f in s.calls
    ensures var t := Apply(s, Return(g, LOST, false));
            f in t.calls && t.calls[f] == s.calls[f] && t.slots == s.slots - 1 && t.capacity == s.capacity
  {}

  lemma FetchOn(s: State, f: nat)
    requires Enabled(s, Return(f, GOOD, false))
    ensures var t := Apply(s, Return(f, GOOD, false));
            && InPhase(t, f, Storing) && t.calls[f].key == s.calls[f].key && t.capacity == s.capacity
            && Persists(Return(f, GOOD, false), true)
  {}

  lemma StoreOn(s: State, f: nat)
    requires Enabled(s, Store(f, PLAIN))
    ensures var t := Apply(s, Store(f, PLAIN));
            InPhase(t, f, Ending) && t.calls[f].key == s.calls[f].key && t.capacity == s.capacity
  {
    hide StoreLocal;
  }

  lemma CloseOn(s: State, f: nat)
    requires Enabled(s, Close(f))
    ensures var t := Apply(s, Close(f));
            InPhase(t, f, Closed) && t.calls[f].key == s.calls[f].key && t.capacity == s.capacity
  {}

  lemma OnwardNearer(s: System, f: nat, g: nat)
    requires MayWrite(s, f) && CanMove(s, Onward(s, f, g)) && s.mem.slots <= s.mem.capacity
    requires s.mem.calls[f].phase == WantSlot ==> g != f
    ensures var t := MoveOn(s, Onward(s, f, g));
            && f in t.mem.calls && t.mem.calls[f].key == s.mem.calls[f].key && t.mem.capacity == s.mem.capacity
            && if s.mem.calls[f].phase == Closed then t.disk == s.disk[s.mem.calls[f].key := ByFlight(f)]
               else MayWrite(t, f) && Rank(t, f) < Rank(s, f)
  {
    hide Apply, Enabled, Settle;
    var phase := s.mem.calls[f].phase;
    if phase == Lookup {
      LookupOn(s.mem, f);
    } else if phase == WantSlot {
      if s.mem.slots < s.mem.capacity {
        SlotOn(s.mem, f);
      } else {
        OtherReturns(s.mem, f, g);
      }
    } else if phase == Fetching {
      FetchOn(s.mem, f);
    } else if phase == Storing {
      StoreOn(s.mem, f);
    } else if phase == Ending {
      CloseOn(s.mem, f);
    }
  }

  lemma MovesCons(s: System, m: Move, moves: seq<Move>, t: System)
    requires CanMove(s, m) && Moves(MoveOn(s, m), moves, t)
    ensures Moves(s, [m] + moves, t)
  {
    hide MoveOn, CanMove;
    assert ([m] + moves)[1..] == moves;
  }

  lemma {:induction false} FlightWritesRow(s: System, f: nat) returns (moves: seq<Move>, t: System)
    requires DiskInv(s) && s.mem.capacity > 0 && MayWrite(s, f)
    ensures Moves(s, moves, t) && s.mem.calls[f].key in t.disk && t.disk[s.mem.calls[f].key] == ByFlight(f)
    decreases Rank(s, f)
  {
    var g := OnwardEnabled(s, f);
    var m := Onward(s, f, g);
    OnwardNearer(s, f, g);
    MoveInv(s, m);
    hide MoveOn, DiskInv, Onward, Rank, CanMove;
    var u := MoveOn(s, m);
    if s.mem.calls[f].phase == Closed {
      moves, t := [], u;
    } else {
      moves, t := FlightWritesRow(u, f);
    }
    MovesCons(s, m, moves, t);
    moves := [m] + moves;
  }

  /** From `s` on, the row of `k` can come to be one written by a flight among `calls`. */
  ghost predicate RowCanBeTaken(s: System, k: Key, calls: set<nat>) {
    exists moves, t :: Moves(s, moves, t) && RowTaken(t, k, calls)
  }

  predicate RowTaken(t: System, k: Key, calls: set<nat>) {
    k in t.disk && t.disk[k].ByFlight? && t.disk[k].flight in calls
  }

  /** The row a put writes can come to be replaced by that of a flight started before it if and only
      if some flight of the key has a row to write, or its fetch is not over yet. */
  lemma RowOverwrittenIff(s: System, p: nat)
    requires DiskInv(s) && s.mem.capacity > 0 && CanMove(s, WritePut(p, true))
    ensures RowCanBeTaken(MoveOn(s, WritePut(p, true)), s.mem.putters[p].key, s.mem.calls.Keys)
       <==> exists f :: MayWrite(s, f) && s.mem.calls[f].key == s.mem.putters[p].key
  {
    hide Inv, Moves, Late;
    var k, u := s.mem.putters[p].key, MoveOn(s, WritePut(p, true));
    MoveInv(s, WritePut(p, true));
    if f :| MayWrite(s, f) && s.mem.calls[f].key == k {
      var moves, t := FlightWritesRow(u, f);
      assert RowTaken(t, k, s.mem.calls.Keys);
    }
    if RowCanBeTaken(u, k, s.mem.calls.Keys) {
      var moves, t :| Moves(u, moves, t) && RowTaken(t, k, s.mem.calls.Keys);
      RowNotTaken(u, k, moves, t);
    }
  }

  lemma RowNotTaken(u: System, k: Key, moves: seq<Move>, t: System)
    requires DiskInv(u) && Moves(u, moves, t) && RowTaken(t, k, u.mem.calls.Keys) && k in u.disk && u.disk[k].ByPut?
    ensures MayWrite(u, t.disk[k].flight) && u.mem.calls[t.disk[k].flight].key == k
  {
    hide MoveOn, CanMove, Inv, Late;
    var f := t.disk[k].flight;
    MovesInv(u, moves, t);
    CallKeysStay(u, moves, t, f);
    if !MayWrite(u, f) {
      HarmlessMoves(u, moves, t, k, f);
    }
  }

  lemma {:induction false} CallKeysStay(s: System, moves: seq<Move>, t: System, f: nat)
    requires Moves(s, moves, t) && f in s.mem.calls
    ensures f in t.mem.calls && t.mem.calls[f].key == s.mem.calls[f].key
    decreases |moves|
  {
    hide Apply, Enabled, Persists;
    if moves != [] {
      if moves[0].Memory? {
        KeysStay(s.mem, moves[0].step);
      }
      CallKeysStay(MoveOn(s, moves[0]), moves[1..], t, f);
    }
  }

  // ---------- A followed flight that writes last ----------

  /** Steps in memory that leave no row to write. */
  function Lifted(steps: seq<Step>): seq<Move> {
    if steps == [] then [] else [Memory(steps[0], false)] + Lifted(steps[1..])
  }

  lemma {:induction false} Lift(s: System, steps: seq<Step>, t: State)
    requires Run(s.mem, steps, t) && forall step :: step in steps ==> !step.Put?
    ensures Moves(s, Lifted(steps), s.(mem := t))
    decreases |steps|
  {
    hide Apply, Enabled;
    if steps != [] {
      var u := s.(mem := Apply(s.mem, steps[0]));
      assert forall step :: step in steps[1..] ==> step in steps;
      assert steps[0] in steps;
      Lift(u, steps[1..], t);
      MovesCons(s, Memory(steps[0], false), Lifted(steps[1..]), s.(mem := t));
    }
  }

  lemma {:induction false} MovesConcat(s: System, a: seq<Move>, m: System, b: seq<Move>, t: System)
    requires Moves(s, a, m) && Moves(m, b, t)
    ensures Moves(s, a + b, t)
    decreases |a|
  {
    hide MoveOn, CanMove;
    if a == [] {
      assert a + b == b;
    } else {
      MovesConcat(MoveOn(s, a[0]), a[1..], m, b, t);
      assert a + b == [a[0]] + (a[1..] + b);
      MovesCons(s, a[0], a[1..] + b, t);
    }
  }

  const GOT := Entry(Good("got"), 1, ByFlight(0))

  function Holds(k: Key, phase: Phase, stored: bool): State {
    State(0, 1, 0, if stored then map[k := GOT] else map[], if phase == Closed then map[] else map[k := 0],
          map[0 := Call(k, phase, Some(Good("got")), Some(GOT), stored)], map[0 := Reader(k, Waiting(0))],
          map[0 := Putter(k, "put", 9, Following(0))])
  }

  function Awake(k: Key): State {
    Holds(k, Closed, true).(putters := map[0 := Putter(k, "put", 9, Ready(Some(0)))])
  }

  lemma FetchReturns(k: Key)
    ensures Enabled(Loses(k), Return(0, GOOD, false))
    ensures Apply(Loses(k), Return(0, GOOD, false)) == Holds(k, Storing, false)
    ensures Persists(Return(0, GOOD, false), true)
  {}

  lemma FlightCloses(k: Key)
    ensures Run(Holds(k, Storing, false), [Store(0, PLAIN), Close(0)], Holds(k, Closed, true))
  {
    assert Apply(Holds(k, Storing, false), Store(0, PLAIN)) == Holds(k, Ending, true);
    assert Apply(Holds(k, Ending, true), Close(0)) == Holds(k, Closed, true);
    RunCons(Holds(k, Ending, true), Close(0), [], Holds(k, Closed, true));
    hide Apply;
    RunCons(Holds(k, Storing, false), Store(0, PLAIN), [Close(0)], Holds(k, Closed, true));
  }

  lemma PutterWakes(k: Key)
    ensures Run(Holds(k, Closed, true), [Wake(0)], Awake(k))
  {
    assert Apply(Holds(k, Closed, true), Wake(0)) == Awake(k);
    RunCons(Holds(k, Closed, true), Wake(0), [], Awake(k));
  }

  const EMPTY := System(Empty(), map[], {}, {})

  lemma FollowedFlightOwes(k: Key) returns (moves: seq<Move>)
    ensures Moves(EMPTY, moves, System(Awake(k), map[], {0}, {}))
  {
    hide Run, Apply, Enabled, Empty, Waits, Loses, Holds, Awake, Lifted;
    var steps := FollowerRun(k);
    FlightFetches(k);
    FetchReturns(k);
    FlightCloses(k);
    PutterWakes(k);
    var waits, loses := System(Waits(k), map[], {}, {}), System(Loses(k), map[], {}, {});
    var storing := System(Holds(k, Storing, false), map[], {0}, {});
    var closed := System(Holds(k, Closed, true), map[], {0}, {});
    Lift(EMPTY, steps, Waits(k));
    Lift(waits, [Step.NotFound(0), Acquire(0)], Loses(k));
    assert MoveOn(loses, Memory(Return(0, GOOD, false), true)) == storing;
    MovesCons(loses, Memory(Return(0, GOOD, false), true), [], storing);
    Lift(storing, [Store(0, PLAIN), Close(0)], Holds(k, Closed, true));
    Lift(closed, [Wake(0)], Awake(k));
    hide MoveOn, CanMove, Moves;
    var a, b := Lifted(steps), Lifted([Step.NotFound(0), Acquire(0)]);
    var c: seq<Move> := [Memory(Return(0, GOOD, false), true)] + [];
    var d, e := Lifted([Store(0, PLAIN), Close(0)]), Lifted([Wake(0)]);
    MovesConcat(EMPTY, a, waits, b, loses);
    MovesConcat(EMPTY, a + b, loses, c, storing);
    MovesConcat(EMPTY, a + b + c, storing, d, closed);
    MovesConcat(EMPTY, a + b + c + d, closed, e, System(Awake(k), map[], {0}, {}));
    moves := a + b + c + d + e;
  }

  lemma EmptyInv()
    ensures DiskInv(EMPTY)
  {
    InitialInv(Empty());
  }

  /** A flight the putter waited for can write its row after the putter wrote its own. */
  lemma FollowedFlightWritesLast(k: Key) returns (moves: seq<Move>, s: System, after: seq<Move>, t: System)
    ensures Moves(EMPTY, moves, s) && CanMove(s, WritePut(0, true))
    ensures s.mem.putters[0].key == k && s.mem.putters[0].phase == Ready(Some(0))
    ensures Moves(MoveOn(s, WritePut(0, true)), after, t) && k in t.disk && t.disk[k] == ByFlight(0)
  {
    hide Moves, Inv;
    s := System(Awake(k), map[], {0}, {});
    moves := FollowedFlightOwes(k);
    EmptyInv();
    MovesInv(EMPTY, moves, s);
    MoveInv(s, WritePut(0, true));
    after, t := FlightWritesRow(MoveOn(s, WritePut(0, true)), 0);
  }
}
