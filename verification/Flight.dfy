/** The single-flight protocol of server/cache.go as a step relation. Any number of callers, over
    any number of caches that share the fetch slots; every lock section and every channel operation
    is one step. */
module Flight {
  import opened Prelude
  import opened Errors

  /** A key of one of the caches. */
  datatype Key = Key(cache: nat, text: string)

  datatype Verdict = Good(value: string) | Bad(error: AppError)

  /** Who wrote a local entry. */
  datatype Writer = ByFlight(flight: nat) | ByPut(putter: nat)
  datatype Entry = Entry(verdict: Verdict, expiresAt: int, writer: Writer)

  /** `runFlight` between its blocking points. `Closed`: `done` is closed and the key released. */
  datatype Phase = Lookup | WantSlot | Fetching | Storing | Ending | Closed

  /** `due` is the entry the outcome calls for, `stored` whether `storeLocal` was called with it. */
  datatype Call = Call(key: Key, phase: Phase, verdict: Option<Verdict>, due: Option<Entry>, stored: bool)

  datatype ReaderPhase = Asked | Missed | Waiting(call: nat) | Served(from: Option<nat>, verdict: Verdict) | Left
  datatype Reader = Reader(key: Key, phase: ReaderPhase)

  /** `seen`: the flight `putAfterFlight` found running, if any. */
  datatype PutterPhase = Called | Following(call: nat) | Ready(seen: Option<nat>) | Done(seen: Option<nat>) | Abandoned
  datatype Putter = Putter(key: Key, value: string, expiresAt: int, phase: PutterPhase)

  datatype State = State(
    now: int, capacity: nat, slots: nat, local: map<Key, Entry>, flight: map<Key, nat>,
    calls: map<nat, Call>, readers: map<nat, Reader>, putters: map<nat, Putter>)

  /** What the fetch function came back with; `valid` is the cache's check of a value. */
  datatype Fetched = Fetched(value: string, ttl: int, error: Option<AppError>, valid: bool)

  const INVALID := AppError(502, Upstream, ephemeral := true)

  /** The lines of `runFlight` after the fetch: the verdict, and the time to live of its entry or
      nothing when it is not stored. `late` means the flight's deadline has passed. */
  function Settle(f: Fetched, late: bool): (Verdict, Option<int>) {
    match f.error
    case Some(e) =>
      if late then (Bad(DEADLINE), None)
      else if e.ephemeral || e.status == 499 then (Bad(e), None)
      else (Bad(e), Some(ErrorCacheSeconds(e.code)))
    case None =>
      if !f.valid then (Bad(INVALID), None)
      else (Good(f.value), if f.ttl > 0 then Some(f.ttl) else None)
  }

  datatype Step =
    | Tick(elapsed: nat)
    // get
    | Ask(r: nat, key: Key)
    | Look(r: nat)
    | Enter(r: nat, id: nat)
    | Collect(r: nat)
    | Leave(r: nat)
    // runFlight
    | Found(f: nat, verdict: Verdict, expiresAt: int, effect: Effect)
    | NotFound(f: nat)
    | Acquire(f: nat)
    | GiveUp(f: nat)
    | Return(f: nat, fetched: Fetched, late: bool)
    | Store(f: nat, effect: Effect)
    | Close(f: nat)
    // putAfterFlight
    | Begin(p: nat, key: Key, value: string, expiresAt: int)
    | Observe(p: nat)
    | Wake(p: nat)
    | Abandon(p: nat)
    | Put(p: nat, effect: Effect)

  /** What else `storeLocal` does: refuse an entry for its size, or evict other keys. */
  datatype Effect = Effect(refused: bool, evicted: set<Key>)

  predicate Live(s: State, k: Key) { k in s.local && s.local[k].expiresAt > s.now }

  /** `localGet` drops what is no longer live. */
  function Pruned(s: State, k: Key): map<Key, Entry> { if Live(s, k) then s.local else s.local - {k} }

  function StoreLocal(local: map<Key, Entry>, k: Key, e: Entry, effect: Effect): map<Key, Entry> {
    if effect.refused then local else (local - effect.evicted)[k := e]
  }

  predicate InPhase(s: State, f: nat, phase: Phase) { f in s.calls && s.calls[f].phase == phase }

  predicate Enabled(s: State, step: Step) {
    match step
    case Tick(_) => true
    case Ask(r, _) => r !in s.readers
    case Look(r) => r in s.readers && s.readers[r].phase == Asked
    case Enter(r, id) => r in s.readers && s.readers[r].phase == Missed && id !in s.calls
    case Collect(r) => r in s.readers && s.readers[r].phase.Waiting? && InPhase(s, s.readers[r].phase.call, Closed)
                       && s.calls[s.readers[r].phase.call].verdict.Some?
    case Leave(r) => r in s.readers && !s.readers[r].phase.Served?
    case Found(f, _, _, _) => InPhase(s, f, Lookup)
    case NotFound(f) => InPhase(s, f, Lookup)
    case Acquire(f) => InPhase(s, f, WantSlot) && s.slots < s.capacity
    case GiveUp(f) => InPhase(s, f, WantSlot)
    case Return(f, _, _) => InPhase(s, f, Fetching) && s.slots > 0
    case Store(f, _) => InPhase(s, f, Storing) && s.calls[f].due.Some?
    case Close(f) => InPhase(s, f, Ending)
    case Begin(p, _, _, _) => p !in s.putters
    case Observe(p) => p in s.putters && s.putters[p].phase == Called
    case Wake(p) => p in s.putters && s.putters[p].phase.Following? && InPhase(s, s.putters[p].phase.call, Closed)
    case Abandon(p) => p in s.putters && s.putters[p].phase.Following?
    case Put(p, _) => p in s.putters && s.putters[p].phase.Ready?
  }

  function SetReader(s: State, r: nat, phase: ReaderPhase): State
    requires r in s.readers
  {
    s.(readers := s.readers[r := s.readers[r].(phase := phase)])
  }

  function SetPutter(s: State, p: nat, phase: PutterPhase): State
    requires p in s.putters
  {
    s.(putters := s.putters[p := s.putters[p].(phase := phase)])
  }

  function SetCall(s: State, f: nat, call: Call): State { s.(calls := s.calls[f := call]) }

  /** The critical section of `get`: join the flight of the key, be served from the cache, or
      start a flight. */
  function EnterFlight(s: State, r: nat, id: nat): State
    requires r in s.readers
  {
    var k := s.readers[r].key;
    if k in s.flight then SetReader(s, r, Waiting(s.flight[k]))
    else if Live(s, k) then SetReader(s, r, Served(None, s.local[k].verdict))
    else
      SetReader(SetCall(s.(local := Pruned(s, k), flight := s.flight[k := id]), id,
                        Call(k, Lookup, None, None, false)),
                r, Waiting(id))
  }

  /** The call a step of `runFlight` works on. */
  function Mover(step: Step): Option<nat> {
    match step
    case Found(f, _, _, _) => Some(f)
    case NotFound(f) => Some(f)
    case Acquire(f) => Some(f)
    case GiveUp(f) => Some(f)
    case Return(f, _, _) => Some(f)
    case Store(f, _) => Some(f)
    case _ => None
  }

  predicate OfGet(step: Step) { step.Ask? || step.Look? || step.Enter? || step.Collect? || step.Leave? }
  predicate OfPut(step: Step) { step.Begin? || step.Observe? || step.Wake? || step.Abandon? || step.Put? }

  /** The steps of `get`. */
  function GetStep(s: State, step: Step): State
    requires Enabled(s, step) && OfGet(step)
  {
    match step
    case Ask(r, k) => s.(readers := s.readers[r := Reader(k, Asked)])
    case Look(r) =>
      var k := s.readers[r].key;
      if Live(s, k) then SetReader(s, r, Served(None, s.local[k].verdict))
      else SetReader(s.(local := Pruned(s, k)), r, Missed)
    case Enter(r, id) => EnterFlight(s, r, id)
    case Collect(r) =>
      var f := s.readers[r].phase.call;
      SetReader(s, r, Served(Some(f), s.calls[f].verdict.value))
    case Leave(r) => SetReader(s, r, Left)
  }

  /** The steps of `runFlight` up to its end. */
  function FlightStep(s: State, step: Step): State
    requires Enabled(s, step) && Mover(step).Some?
  {
    var f := Mover(step).value;
    var c := s.calls[f];
    match step
    case Found(_, verdict, expiresAt, effect) =>
      var e := Entry(verdict, expiresAt, ByFlight(f));
      SetCall(s.(local := StoreLocal(s.local, c.key, e, effect)), f,
              c.(phase := Ending, verdict := Some(verdict), due := Some(e), stored := true))
    case NotFound(_) => SetCall(s, f, c.(phase := WantSlot))
    case Acquire(_) => SetCall(s.(slots := s.slots + 1), f, c.(phase := Fetching))
    case GiveUp(_) => SetCall(s, f, c.(phase := Ending, verdict := Some(Bad(DEADLINE))))
    case Return(_, fetched, late) =>
      var (verdict, ttl) := Settle(fetched, late);
      var settled := c.(verdict := Some(verdict));
      SetCall(s.(slots := s.slots - 1), f,
              match ttl
              case None => settled.(phase := Ending)
              case Some(t) => settled.(phase := Storing, due := Some(Entry(verdict, s.now + t, ByFlight(f)))))
    case Store(_, effect) =>
      SetCall(s.(local := StoreLocal(s.local, c.key, c.due.value, effect)), f, c.(phase := Ending, stored := true))
  }

  /** The steps of `putAfterFlight`. */
  function PutStep(s: State, step: Step): State
    requires Enabled(s, step) && OfPut(step)
  {
    match step
    case Begin(p, k, value, expiresAt) => s.(putters := s.putters[p := Putter(k, value, expiresAt, Called)])
    case Observe(p) =>
      var k := s.putters[p].key;
      SetPutter(s, p, if k in s.flight then Following(s.flight[k]) else Ready(None))
    case Wake(p) => SetPutter(s, p, Ready(Some(s.putters[p].phase.call)))
    case Abandon(p) => SetPutter(s, p, Abandoned)
    case Put(p, effect) =>
      var q := s.putters[p];
      var e := Entry(Good(q.value), q.expiresAt, ByPut(p));
      SetPutter(s.(local := StoreLocal(s.local, q.key, e, effect)), p, Done(q.phase.seen))
  }

  function Apply(s: State, step: Step): State
    requires Enabled(s, step)
  {
    if step.Tick? then s.(now := s.now + step.elapsed)
    else if step.Close? then
      SetCall(s.(flight := s.flight - {s.calls[step.f].key}), step.f, s.calls[step.f].(phase := Closed))
    else if Mover(step).Some? then FlightStep(s, step)
    else if OfPut(step) then PutStep(s, step)
    else GetStep(s, step)
  }

  predicate Initial(s: State) {
    s.slots == 0 && s.flight == map[] && s.calls == map[] && s.readers == map[] && s.putters == map[]
    && forall k :: k in s.local ==> s.local[k].writer.ByPut?
  }

  // ---------- Invariant ----------

  /** The registered flight of a key is its one unfinished call, and the other way round. */
  ghost predicate FlightsExact(s: State) {
    && (forall k :: k in s.flight ==> s.flight[k] in s.calls && s.calls[s.flight[k]].key == k
                                      && s.calls[s.flight[k]].phase != Closed)
    && (forall f :: f in s.calls && s.calls[f].phase != Closed ==>
          s.calls[f].key in s.flight && s.flight[s.calls[f].key] == f)
  }

  ghost function Fetchers(s: State): set<nat> { set f | f in s.calls && s.calls[f].phase == Fetching }

  ghost predicate SlotsExact(s: State) { s.slots == |Fetchers(s)| <= s.capacity }

  /** What holds of each call on its own. */
  predicate CallOrdered(f: nat, c: Call) {
    && (c.phase == Ending || c.phase == Closed ==> c.verdict.Some? && (c.due.Some? ==> c.stored))
    && (c.phase == Lookup || c.phase == WantSlot || c.phase == Fetching ==> c.due.None? && !c.stored)
    && (c.phase == Storing ==> c.due.Some? && c.verdict.Some? && !c.stored)
    && (c.due.Some? ==> c.due.value.writer == ByFlight(f) && Some(c.due.value.verdict) == c.verdict)
  }

  predicate ReaderServed(s: State, r: Reader) {
    match r.phase
    case Waiting(f) => f in s.calls && s.calls[f].key == r.key
    case Served(Some(f), v) => InPhase(s, f, Closed) && s.calls[f].key == r.key && s.calls[f].verdict == Some(v)
    case _ => true
  }

  predicate PutterFollows(s: State, p: Putter) {
    match p.phase
    case Following(f) => f in s.calls && s.calls[f].key == p.key
    case Ready(Some(f)) => InPhase(s, f, Closed) && s.calls[f].key == p.key
    case Done(Some(f)) => InPhase(s, f, Closed) && s.calls[f].key == p.key
    case _ => true
  }

  /** A call that is over has its verdict, and has stored the entry that verdict called for. */
  ghost predicate CallsOrdered(s: State) { forall f :: f in s.calls ==> CallOrdered(f, s.calls[f]) }

  /** A waiter got exactly what its flight ended with. */
  ghost predicate ReadersServed(s: State) { forall r :: r in s.readers ==> ReaderServed(s, s.readers[r]) }

  /** A putter that saw a flight goes on only after that flight is over. */
  ghost predicate PuttersFollow(s: State) { forall p :: p in s.putters ==> PutterFollows(s, s.putters[p]) }

  predicate EntryTraced(s: State, k: Key, e: Entry) {
    match e.writer
    case ByPut(_) => true
    case ByFlight(f) => f in s.calls && s.calls[f].key == k && s.calls[f].stored && s.calls[f].due == Some(e)
  }

  /** An entry written by a flight is the one its outcome called for. */
  ghost predicate EntriesTraced(s: State) { forall k :: k in s.local ==> EntryTraced(s, k, s.local[k]) }

  ghost predicate Inv(s: State) {
    && FlightsExact(s) && SlotsExact(s) && CallsOrdered(s)
    && ReadersServed(s) && PuttersFollow(s) && EntriesTraced(s)
  }

  lemma InitialInv(s: State)
    requires Initial(s)
    ensures Inv(s)
  {
    assert Fetchers(s) == {};
  }

  /** What a step does to the calls: nothing, move one on, open one, or close one. */
  ghost predicate Unmoved(s: State, t: State) { t.calls == s.calls && t.flight == s.flight }

  ghost predicate Moved(s: State, t: State, f: nat) {
    && f in s.calls && t.flight == s.flight && f in t.calls && t.calls == s.calls[f := t.calls[f]]
    && t.calls[f].key == s.calls[f].key && s.calls[f].phase != Closed && t.calls[f].phase != Closed
  }

  ghost predicate Opened(s: State, t: State, k: Key, f: nat) {
    && k !in s.flight && f !in s.calls && t.flight == s.flight[k := f]
    && t.calls == s.calls[f := Call(k, Lookup, None, None, false)]
  }

  ghost predicate Finished(s: State, t: State, f: nat) {
    && InPhase(s, f, Ending) && t.flight == s.flight - {s.calls[f].key}
    && t.calls == s.calls[f := s.calls[f].(phase := Closed)]
  }

  lemma EnterShape(s: State, r: nat, id: nat)
    requires Enabled(s, Enter(r, id))
    ensures var t := EnterFlight(s, r, id);
            && t.putters == s.putters && t.slots == s.slots && t.capacity == s.capacity
            && (Unmoved(s, t) || Opened(s, t, s.readers[r].key, id))
  {
    hide Pruned, SetReader;
    var k := s.readers[r].key;
    if k in s.flight {
      SetReaderFrame(s, r, Waiting(s.flight[k]));
    } else if Live(s, k) {
      SetReaderFrame(s, r, Served(None, s.local[k].verdict));
    } else {
      var u := SetCall(s.(local := Pruned(s, k), flight := s.flight[k := id]), id, Call(k, Lookup, None, None, false));
      SetReaderFrame(u, r, Waiting(id));
    }
  }

  lemma SetReaderFrame(s: State, r: nat, phase: ReaderPhase)
    requires r in s.readers
    ensures var t := SetReader(s, r, phase);
            && t.putters == s.putters && t.slots == s.slots && t.capacity == s.capacity
            && t.calls == s.calls && t.flight == s.flight
  {}

  lemma GetShape(s: State, step: Step)
    requires Enabled(s, step) && OfGet(step)
    ensures var t := GetStep(s, step);
            && t.putters == s.putters && t.slots == s.slots && t.capacity == s.capacity
            && (Unmoved(s, t) || (step.Enter? && Opened(s, t, s.readers[step.r].key, step.id)))
  {
    hide Live, Pruned, EnterFlight, Opened;
    if step.Enter? {
      EnterShape(s, step.r, step.id);
    }
  }

  lemma FlightShape(s: State, step: Step)
    requires Enabled(s, step) && Mover(step).Some?
    ensures var t, f := FlightStep(s, step), Mover(step).value;
            && t.readers == s.readers && t.putters == s.putters && t.capacity == s.capacity && Moved(s, t, f)
            && var before, after := s.calls[f].phase == Fetching, t.calls[f].phase == Fetching;
               && t.slots == s.slots + (if after then 1 else 0) - (if before then 1 else 0)
               && (after ==> s.slots < s.capacity && !before)
  {
    hide StoreLocal, Settle;
  }

  lemma PutShape(s: State, step: Step)
    requires Enabled(s, step) && OfPut(step)
    ensures var t := PutStep(s, step);
            t.readers == s.readers && t.slots == s.slots && t.capacity == s.capacity && Unmoved(s, t)
  {
    hide StoreLocal;
  }

  lemma StepShape(s: State, step: Step)
    requires Enabled(s, step)
    ensures var t := Apply(s, step);
            match step
            case Enter(r, id) => Unmoved(s, t) || Opened(s, t, s.readers[r].key, id)
            case Close(f) => Finished(s, t, f)
            case _ => if Mover(step).Some? then Moved(s, t, Mover(step).value) else Unmoved(s, t)
  {
    hide GetStep, FlightStep, PutStep, Moved, Opened;
    if OfGet(step) {
      GetShape(s, step);
    } else if OfPut(step) {
      PutShape(s, step);
    } else if Mover(step).Some? {
      FlightShape(s, step);
    }
  }

  lemma FlightsKept(s: State, step: Step)
    requires Inv(s) && Enabled(s, step)
    ensures FlightsExact(Apply(s, step))
  {
    StepShape(s, step);
    FlightsFollow(s, Apply(s, step));
  }

  ghost predicate Shaped(s: State, t: State) {
    || Unmoved(s, t) || (exists f :: Moved(s, t, f))
    || (exists k, f :: Opened(s, t, k, f)) || (exists f :: Finished(s, t, f))
  }

  lemma FlightsFollow(s: State, t: State)
    requires FlightsExact(s) && Shaped(s, t)
    ensures FlightsExact(t)
  {
    hide FlightsExact, Moved, Opened, Finished;
    if f :| Moved(s, t, f) {
      FlightsMoved(s, t, f);
    } else if k, f :| Opened(s, t, k, f) {
      FlightsOpened(s, t, k, f);
    } else if f :| Finished(s, t, f) {
      FlightsFinished(s, t, f);
    } else {
      FlightsUnmoved(s, t);
    }
  }

  lemma FlightsUnmoved(s: State, t: State)
    requires FlightsExact(s) && Unmoved(s, t)
    ensures FlightsExact(t)
  {}

  lemma FlightsMoved(s: State, t: State, f: nat)
    requires FlightsExact(s) && Moved(s, t, f)
    ensures FlightsExact(t)
  {}

  lemma FlightsOpened(s: State, t: State, k: Key, f: nat)
    requires FlightsExact(s) && Opened(s, t, k, f)
    ensures FlightsExact(t)
  {}

  lemma FlightsFinished(s: State, t: State, f: nat)
    requires FlightsExact(s) && Finished(s, t, f)
    ensures FlightsExact(t)
  {}

  /** No call leaves, changes its key, or reopens; a closed one does not change at all. */
  lemma CallsStay(s: State, t: State)
    requires Shaped(s, t)
    ensures forall f :: f in s.calls ==> f in t.calls && t.calls[f].key == s.calls[f].key
    ensures forall f :: f in s.calls && s.calls[f].phase == Closed ==> t.calls[f] == s.calls[f]
  {
    if f :| Moved(s, t, f) {
    } else if k, f :| Opened(s, t, k, f) {
    } else if f :| Finished(s, t, f) {
    }
  }

  lemma FetchersFollow(s: State, t: State)
    requires Shaped(s, t)
    ensures forall f :: Moved(s, t, f) ==>
      Fetchers(t) == Fetchers(s) - {f} + (if t.calls[f].phase == Fetching then {f} else {})
    ensures (forall f :: !Moved(s, t, f)) ==> Fetchers(t) == Fetchers(s)
  {
    forall f | Moved(s, t, f)
      ensures Fetchers(t) == Fetchers(s) - {f} + (if t.calls[f].phase == Fetching then {f} else {})
    {}
    if forall f :: !Moved(s, t, f) {
      assert Fetchers(t) == Fetchers(s);
    }
  }

  /** A slot is taken when a call starts fetching and given back when it stops. */
  lemma StepSlots(s: State, step: Step)
    requires Enabled(s, step)
    ensures var t := Apply(s, step);
            && t.capacity == s.capacity
            && match Mover(step)
               case None => t.slots == s.slots
               case Some(f) =>
                 f in t.calls &&
                 var before, after := s.calls[f].phase == Fetching, t.calls[f].phase == Fetching;
                 && t.slots == s.slots + (if after then 1 else 0) - (if before then 1 else 0)
                 && (after ==> s.slots < s.capacity && !before)
  {
    hide GetStep, FlightStep, PutStep;
    if OfGet(step) {
      GetShape(s, step);
    } else if OfPut(step) {
      PutShape(s, step);
    } else if Mover(step).Some? {
      FlightShape(s, step);
    }
  }

  lemma SlotsKept(s: State, step: Step)
    requires SlotsExact(s) && Enabled(s, step)
    ensures SlotsExact(Apply(s, step))
  {
    StepShape(s, step);
    StepSlots(s, step);
    SlotsFollow(s, Apply(s, step), Mover(step));
  }

  lemma SlotsFollow(s: State, t: State, mover: Option<nat>)
    requires SlotsExact(s) && t.capacity == s.capacity
    requires mover.None? ==>
      t.slots == s.slots && Shaped(s, t) && forall f :: !Moved(s, t, f) || Fetchers(t) == Fetchers(s)
    requires mover.Some? ==>
      var f := mover.value;
      && Moved(s, t, f)
      && var before, after := s.calls[f].phase == Fetching, t.calls[f].phase == Fetching;
         && t.slots == s.slots + (if after then 1 else 0) - (if before then 1 else 0)
         && (after ==> s.slots < s.capacity && !before)
    ensures SlotsExact(t)
  {
    FetchersFollow(s, t);
  }

  lemma MovedOrdered(s: State, step: Step)
    requires Enabled(s, step) && Mover(step).Some? && CallOrdered(Mover(step).value, s.calls[Mover(step).value])
    ensures Mover(step).value in Apply(s, step).calls
    ensures CallOrdered(Mover(step).value, Apply(s, step).calls[Mover(step).value])
  {
    hide StoreLocal, GetStep, PutStep;
  }

  lemma CallsKept(s: State, step: Step)
    requires CallsOrdered(s) && Enabled(s, step)
    ensures CallsOrdered(Apply(s, step))
  {
    hide Apply, CallOrdered, Enabled;
    StepShape(s, step);
    if Mover(step).Some? {
      MovedOrdered(s, step);
    } else if step.Close? {
      ClosedOrdered(step.f, s.calls[step.f]);
    } else {
      FreshOrdered();
    }
  }

  lemma FreshOrdered()
    ensures forall f, k :: CallOrdered(f, Call(k, Lookup, None, None, false))
  {}

  lemma ClosedOrdered(f: nat, c: Call)
    requires c.phase == Ending && CallOrdered(f, c)
    ensures CallOrdered(f, c.(phase := Closed))
  {}

  lemma ClientsFollow(s: State, t: State)
    requires Shaped(s, t)
    ensures forall r :: ReaderServed(s, r) ==> ReaderServed(t, r)
    ensures forall p :: PutterFollows(s, p) ==> PutterFollows(t, p)
  {
    CallsStay(s, t);
  }

  lemma ClientsStep(s: State, step: Step)
    requires Enabled(s, step)
    ensures var t := Apply(s, step);
            && (forall r :: ReaderServed(s, r) ==> ReaderServed(t, r))
            && (forall p :: PutterFollows(s, p) ==> PutterFollows(t, p))
  {
    StepShape(s, step);
    hide Apply;
    ClientsFollow(s, Apply(s, step));
  }

  /** A step of `get` touches one reader, and serves it rightly. */
  lemma GetServes(s: State, step: Step)
    requires FlightsExact(s) && ReadersServed(s) && Enabled(s, step) && OfGet(step)
    ensures var t := GetStep(s, step);
            && step.r in t.readers && t.readers == s.readers[step.r := t.readers[step.r]]
            && ReaderServed(t, t.readers[step.r])
  {
    hide Live, Pruned, EnterFlight, FlightsExact;
    if step.Enter? {
      EnterServes(s, step.r, step.id);
    } else if step.Collect? {
      assert ReaderServed(s, s.readers[step.r]);
    }
  }

  lemma EnterServes(s: State, r: nat, id: nat)
    requires FlightsExact(s) && Enabled(s, Enter(r, id))
    ensures var t := EnterFlight(s, r, id);
            && r in t.readers && t.readers == s.readers[r := t.readers[r]] && ReaderServed(t, t.readers[r])
  {
    if s.readers[r].key in s.flight {
      FlightOf(s, s.readers[r].key);
    }
    hide Live, Pruned, FlightsExact;
  }

  lemma FlightOf(s: State, k: Key)
    requires FlightsExact(s) && k in s.flight
    ensures s.flight[k] in s.calls && s.calls[s.flight[k]].key == k
  {}

  lemma ReadersKept(s: State, step: Step)
    requires FlightsExact(s) && ReadersServed(s) && Enabled(s, step)
    ensures ReadersServed(Apply(s, step))
  {
    hide GetStep, FlightStep, PutStep, ReaderServed;
    ClientsStep(s, step);
    OnlyReaders(s, step);
    if OfGet(step) {
      GetServes(s, step);
    }
  }

  /** Readers are touched by the steps of `get` alone, putters by those of `putAfterFlight`. */
  lemma OnlyReaders(s: State, step: Step)
    requires Enabled(s, step)
    ensures !OfGet(step) ==> Apply(s, step).readers == s.readers
    ensures !OfPut(step) ==> Apply(s, step).putters == s.putters
  {
    hide GetStep, FlightStep, PutStep;
    if OfGet(step) {
      GetShape(s, step);
    } else if OfPut(step) {
      PutShape(s, step);
    } else if Mover(step).Some? {
      FlightShape(s, step);
    }
  }

  lemma PuttersKept(s: State, step: Step)
    requires FlightsExact(s) && PuttersFollow(s) && Enabled(s, step)
    ensures PuttersFollow(Apply(s, step))
  {
    hide FlightStep, GetStep, StoreLocal;
    ClientsStep(s, step);
    OnlyReaders(s, step);
  }

  /** A flight that has nothing left to store. */
  predicate Spent(s: State, f: nat) { InPhase(s, f, Ending) || InPhase(s, f, Closed) }

  lemma MoverNotSpent(s: State, step: Step)
    requires Enabled(s, step) && Mover(step).Some?
    ensures !Spent(s, Mover(step).value)
  {}

  /** A spent flight stays as it is, but for its end. */
  lemma SpentStays(s: State, step: Step, f: nat)
    requires Enabled(s, step) && Spent(s, f)
    ensures var t := Apply(s, step); Spent(t, f) && t.calls[f].(phase := Closed) == s.calls[f].(phase := Closed)
  {
    hide Apply;
    StepShape(s, step);
    if Mover(step).Some? {
      MoverNotSpent(s, step);
    }
  }

  lemma StoredStay(s: State, step: Step, k: Key, e: Entry)
    requires CallsOrdered(s) && Enabled(s, step) && EntryTraced(s, k, e)
    ensures EntryTraced(Apply(s, step), k, e)
  {
    hide Apply;
    if e.writer.ByFlight? {
      var f := e.writer.flight;
      assert CallOrdered(f, s.calls[f]);
      SpentStays(s, step, f);
    }
  }

  /** What a step writes. */
  predicate WrittenBy(s: State, step: Step, t: State, k: Key) {
    && k in t.local && !(k in s.local && t.local[k] == s.local[k])
  }

  lemma FlightWrites(s: State, step: Step, k: Key)
    requires Enabled(s, step) && Mover(step).Some? && CallOrdered(Mover(step).value, s.calls[Mover(step).value])
    requires WrittenBy(s, step, FlightStep(s, step), k)
    ensures FlightStep(s, step).local[k].writer == ByFlight(Mover(step).value)
    ensures EntryTraced(FlightStep(s, step), k, FlightStep(s, step).local[k])
  {
    hide Settle;
  }

  lemma PutWrites(s: State, step: Step, k: Key)
    requires Enabled(s, step) && OfPut(step) && WrittenBy(s, step, PutStep(s, step), k)
    ensures PutStep(s, step).local[k].writer.ByPut?
  {}

  lemma GetWritesNothing(s: State, step: Step, k: Key)
    requires Enabled(s, step) && OfGet(step)
    ensures !WrittenBy(s, step, GetStep(s, step), k)
  {
    hide Live;
  }

  /** Whose an entry is after a step: it was there before, or the step's own. */
  lemma WriterAfter(s: State, step: Step, k: Key)
    requires CallsOrdered(s) && Enabled(s, step) && WrittenBy(s, step, Apply(s, step), k)
    ensures var t := Apply(s, step);
            || t.local[k].writer.ByPut?
            || (Mover(step).Some? && t.local[k].writer == ByFlight(Mover(step).value) && EntryTraced(t, k, t.local[k]))
  {
    hide GetStep, FlightStep, PutStep;
    if OfGet(step) {
      GetWritesNothing(s, step, k);
    } else if OfPut(step) {
      PutWrites(s, step, k);
    } else if Mover(step).Some? {
      FlightWrites(s, step, k);
    }
  }

  lemma EntriesKept(s: State, step: Step)
    requires CallsOrdered(s) && EntriesTraced(s) && Enabled(s, step)
    ensures EntriesTraced(Apply(s, step))
  {
    hide Apply, EntryTraced, CallsOrdered;
    var t := Apply(s, step);
    forall k | k in t.local ensures EntryTraced(t, k, t.local[k]) {
      if WrittenBy(s, step, t, k) {
        WriterAfter(s, step, k);
        PutTraced(t, k, t.local[k]);
      } else {
        StoredStay(s, step, k, s.local[k]);
      }
    }
  }

  lemma PutTraced(s: State, k: Key, e: Entry)
    ensures e.writer.ByPut? ==> EntryTraced(s, k, e)
  {}

  lemma StepInv(s: State, step: Step)
    requires Inv(s) && Enabled(s, step)
    ensures Inv(Apply(s, step))
  {
    hide Apply, FlightsExact, SlotsExact, CallsOrdered, ReadersServed, PuttersFollow, EntriesTraced;
    FlightsKept(s, step);
    SlotsKept(s, step);
    CallsKept(s, step);
    ReadersKept(s, step);
    PuttersKept(s, step);
    EntriesKept(s, step);
  }

  // ---------- Runs ----------

  /** `steps` lead from `s` to `t`. */
  predicate Run(s: State, steps: seq<Step>, t: State)
    decreases |steps|
  {
    if steps == [] then s == t
    else Enabled(s, steps[0]) && Run(Apply(s, steps[0]), steps[1..], t)
  }

  lemma {:induction false} RunInv(s: State, steps: seq<Step>, t: State)
    requires Inv(s) && Run(s, steps, t)
    ensures Inv(t)
    decreases |steps|
  {
    hide Apply, Inv;
    if steps != [] {
      StepInv(s, steps[0]);
      RunInv(Apply(s, steps[0]), steps[1..], t);
    }
  }

  /** At every point of every run a key has at most one unfinished flight, the one registered for
      it, and the fetches running over all caches number `slots`, never more than the capacity. */
  lemma OneFlightPerKey(s: State, steps: seq<Step>, t: State)
    requires Initial(s) && Run(s, steps, t)
    ensures forall k, f :: f in t.calls && t.calls[f].key == k && t.calls[f].phase != Closed
                      <==> k in t.flight && t.flight[k] == f && f in t.calls
    ensures |Fetchers(t)| == t.slots <= t.capacity
  {
    InitialInv(s);
    RunInv(s, steps, t);
  }

  /** Whoever waited for the same flight was served the same verdict, and what it stored, if its
      outcome called for that, is that verdict. */
  lemma WaitersAgree(s: State, steps: seq<Step>, t: State, r: nat, q: nat, f: nat)
    requires Initial(s) && Run(s, steps, t)
    requires r in t.readers && t.readers[r].phase.Served? && t.readers[r].phase.from == Some(f)
    requires q in t.readers && t.readers[q].phase.Served? && t.readers[q].phase.from == Some(f)
    ensures t.readers[r].phase == t.readers[q].phase && t.readers[r].key == t.readers[q].key
    ensures f in t.calls && Some(t.readers[r].phase.verdict) == t.calls[f].verdict
    ensures t.calls[f].due.Some? ==> t.calls[f].stored && t.calls[f].due.value.verdict == t.readers[r].phase.verdict
  {
    InitialInv(s);
    RunInv(s, steps, t);
    assert ReaderServed(t, t.readers[r]) && ReaderServed(t, t.readers[q]) && CallOrdered(f, t.calls[f]);
  }

  /** When a flight starts, every earlier flight of its key is over and has stored what it had to,
      and none of that is still live in the cache. */
  lemma NewFlightNeeded(s: State, step: Step, f: nat)
    requires Inv(s) && Enabled(s, step) && step.Enter?
    requires step.id in Apply(s, step).calls
    requires f in s.calls && s.calls[f].key == s.readers[step.r].key
    ensures s.calls[f].phase == Closed
    ensures s.calls[f].due.Some? ==> s.calls[f].stored
    ensures !Live(s, s.calls[f].key)
  {
    assert CallOrdered(f, s.calls[f]);
  }

  /** The entry of a key is still the same one, and live, whenever a step of the run begins. */
  predicate StaysLive(s: State, steps: seq<Step>, k: Key, e: Entry)
    decreases |steps|
  {
    steps != [] ==>
      && Live(s, k) && s.local[k] == e && Enabled(s, steps[0])
      && StaysLive(Apply(s, steps[0]), steps[1..], k, e)
  }

  /** While an entry stays in the cache, live, no flight starts for its key. */
  lemma {:induction false} NoFlightWhileLive(
      s: State, steps: seq<Step>, t: State, k: Key, e: Entry)
    requires Run(s, steps, t) && StaysLive(s, steps, k, e)
    ensures forall f :: f in t.calls && t.calls[f].key == k ==> f in s.calls
    decreases |steps|
  {
    if steps != [] {
      var u := Apply(s, steps[0]);
      NothingOpened(s, steps[0], k);
      NoFlightWhileLive(u, steps[1..], t, k, e);
      hide Apply;
      StepsKeepCalls(u, steps[1..], t);
    }
  }

  /** What a store does to the entry of another key, or to any if it is refused. */
  predicate Keeps(effect: Effect, stored: Key, k: Key) {
    effect.refused || (stored != k && k !in effect.evicted)
  }

  /** A step that neither evicts nor replaces the entry of `k`, nor lets time reach `expiresAt`. */
  predicate Spares(s: State, step: Step, k: Key, expiresAt: int)
    requires Enabled(s, step)
  {
    match step
    case Tick(elapsed) => s.now + elapsed < expiresAt
    case Found(f, _, _, effect) => Keeps(effect, s.calls[f].key, k)
    case Store(f, effect) => Keeps(effect, s.calls[f].key, k)
    case Put(p, effect) => Keeps(effect, s.putters[p].key, k)
    case _ => true
  }

  predicate AllSpare(s: State, steps: seq<Step>, k: Key, expiresAt: int)
    decreases |steps|
  {
    steps != [] ==>
      && Enabled(s, steps[0]) && Spares(s, steps[0], k, expiresAt)
      && AllSpare(Apply(s, steps[0]), steps[1..], k, expiresAt)
  }

  lemma GetSpares(s: State, step: Step, k: Key)
    requires Enabled(s, step) && OfGet(step) && Live(s, k)
    ensures var t := GetStep(s, step); t.now == s.now && k in t.local && t.local[k] == s.local[k]
  {
    hide EnterFlight;
    if step.Enter? {
      EnterSpares(s, step.r, step.id, k);
    }
  }

  lemma EnterSpares(s: State, r: nat, id: nat, k: Key)
    requires Enabled(s, Enter(r, id)) && Live(s, k)
    ensures var t := EnterFlight(s, r, id); t.now == s.now && k in t.local && t.local[k] == s.local[k]
  {}

  lemma FlightSpares(s: State, step: Step, k: Key)
    requires Enabled(s, step) && Mover(step).Some? && Live(s, k) && Spares(s, step, k, s.local[k].expiresAt)
    ensures var t := FlightStep(s, step); t.now == s.now && k in t.local && t.local[k] == s.local[k]
  {
    hide Settle;
  }

  lemma PutSpares(s: State, step: Step, k: Key)
    requires Enabled(s, step) && OfPut(step) && Live(s, k) && Spares(s, step, k, s.local[k].expiresAt)
    ensures var t := PutStep(s, step); t.now == s.now && k in t.local && t.local[k] == s.local[k]
  {}

  lemma StepSpares(s: State, step: Step, k: Key)
    requires Enabled(s, step) && Live(s, k) && Spares(s, step, k, s.local[k].expiresAt)
    ensures var t := Apply(s, step); Live(t, k) && t.local[k] == s.local[k]
  {
    hide GetStep, FlightStep, PutStep, Keeps;
    if OfGet(step) {
      GetSpares(s, step, k);
    } else if OfPut(step) {
      PutSpares(s, step, k);
    } else if Mover(step).Some? {
      FlightSpares(s, step, k);
    }
  }

  /** A live entry that nothing evicts, replaces or outlasts stays as it is. */
  lemma {:induction false} SparedStays(s: State, steps: seq<Step>, t: State, k: Key)
    requires Run(s, steps, t) && Live(s, k) && AllSpare(s, steps, k, s.local[k].expiresAt)
    ensures StaysLive(s, steps, k, s.local[k]) && Live(t, k) && t.local[k] == s.local[k]
    decreases |steps|
  {
    hide Apply, Enabled, Live, Spares;
    if steps != [] {
      StepSpares(s, steps[0], k);
      SparedStays(Apply(s, steps[0]), steps[1..], t, k);
    }
  }

  /** After a flight has stored its entry, as long as no store evicts or replaces it and its time has
      not come, the entry stays and no other flight starts for its key. */
  lemma NoFlightAfterStore(s: State, f: nat, effect: Effect, steps: seq<Step>, t: State)
    requires Enabled(s, Store(f, effect)) && !effect.refused && s.calls[f].due.value.expiresAt > s.now
    requires var u := Apply(s, Store(f, effect));
             Run(u, steps, t) && AllSpare(u, steps, s.calls[f].key, s.calls[f].due.value.expiresAt)
    ensures var k := s.calls[f].key;
            && Live(t, k) && t.local[k] == s.calls[f].due.value
            && forall g :: g in t.calls && t.calls[g].key == k ==> g in s.calls
  {
    var k, u := s.calls[f].key, Apply(s, Store(f, effect));
    assert Live(u, k) && u.local[k] == s.calls[f].due.value;
    StepShape(s, Store(f, effect));
    hide Apply, Live;
    SparedStays(u, steps, t, k);
    NoFlightWhileLive(u, steps, t, k, u.local[k]);
  }

  /** The entry a fetch is worth: a valid value for as long as the fetch allows, an error for an hour
      if Instagram's mind will not change and for a minute otherwise, and nothing for errors of our
      own making, requests given up or results that come too late. */
  predicate Worth(fetched: Fetched, late: bool, e: Entry, now: int) {
    match fetched.error
    case None =>
      fetched.valid && fetched.ttl > 0 && e.verdict == Good(fetched.value) && e.expiresAt == now + fetched.ttl
    case Some(error) =>
      && !late && !error.ephemeral && error.status != 499 && e.verdict == Bad(error)
      && e.expiresAt == now + if error.code in {Code.NotFound, MediaNotFound, GeoBlocked, Restricted} then 3600 else 60
  }

  /** What a flight has to store after its fetch, and what it tells those who wait. */
  lemma ReturnDue(s: State, f: nat, fetched: Fetched, late: bool, e: Entry)
    requires Enabled(s, Return(f, fetched, late)) && CallOrdered(f, s.calls[f])
    ensures f in Apply(s, Return(f, fetched, late)).calls
    ensures var c := Apply(s, Return(f, fetched, late)).calls[f];
            && c.key == s.calls[f].key && !c.stored && c.phase == (if c.due.Some? then Storing else Ending)
            && (c.due == Some(e) <==> e.writer == ByFlight(f) && Worth(fetched, late, e, s.now))
            && (fetched.error.None? && fetched.valid ==> c.verdict == Some(Good(fetched.value)))
            && (fetched.error.None? && !fetched.valid ==>
                  c.verdict == Some(Bad(AppError(502, Upstream, ephemeral := true))))
            && (fetched.error.Some? ==>
                  c.verdict == Some(Bad(if late then AppError(504, Connection, ephemeral := true)
                                        else fetched.error.value)))
  {
    hide GetStep, PutStep, StoreLocal;
  }

  predicate NoStore(steps: seq<Step>, f: nat) {
    forall step :: step in steps ==> !(step.Store? && step.f == f)
  }

  lemma DueStep(s: State, step: Step, f: nat)
    requires Enabled(s, step) && InPhase(s, f, Storing) && !(step.Store? && step.f == f)
    ensures f in Apply(s, step).calls && Apply(s, step).calls[f] == s.calls[f]
  {
    hide Apply;
    StepShape(s, step);
  }

  /** What is due stays so until it is stored. */
  lemma {:induction false} DueWaits(s: State, steps: seq<Step>, t: State, f: nat)
    requires Run(s, steps, t) && InPhase(s, f, Storing) && NoStore(steps, f)
    ensures f in t.calls && t.calls[f] == s.calls[f]
    decreases |steps|
  {
    hide Apply;
    if steps != [] {
      DueStep(s, steps[0], f);
      DueWaits(Apply(s, steps[0]), steps[1..], t, f);
    }
  }

  /** From fetch to reader: once stored, and while nothing evicts or replaces it, what a fetch is
      worth is what the cache has for its key until exactly its time is up, and no other flight
      starts. `LookServes` and `ExpiredIsDropped` say what a reader is given. */
  lemma FetchedIsServed(
      s: State, f: nat, fetched: Fetched, late: bool, e: Entry, v: State, wait: seq<Step>, u: State,
      effect: Effect, w: State, after: seq<Step>, t: State)
    requires Enabled(s, Return(f, fetched, late)) && v == Apply(s, Return(f, fetched, late))
    requires CallOrdered(f, s.calls[f]) && e.writer == ByFlight(f) && Worth(fetched, late, e, s.now)
    requires Run(v, wait, u) && NoStore(wait, f)
    requires Enabled(u, Store(f, effect)) && w == Apply(u, Store(f, effect))
    requires !effect.refused && u.now < e.expiresAt
    requires Run(w, after, t) && AllSpare(w, after, s.calls[f].key, e.expiresAt)
    ensures Live(t, s.calls[f].key) && t.local[s.calls[f].key] == e
    ensures forall g :: g in t.calls && t.calls[g].key == s.calls[f].key ==> g in u.calls
  {
    ReturnDue(s, f, fetched, late, e);
    hide Apply, AllSpare, Worth, Run, CallOrdered, NoStore;
    DueWaits(v, wait, u, f);
    NoFlightAfterStore(u, f, effect, after, t);
  }

  /** Whoever looks while an entry is live is served its verdict and starts nothing. */
  lemma LookServes(s: State, r: nat)
    requires Enabled(s, Look(r)) && s.readers[r].key in s.local && s.local[s.readers[r].key].expiresAt > s.now
    ensures var t := Apply(s, Look(r));
            r in t.readers && t.readers[r].phase == Served(None, s.local[s.readers[r].key].verdict)
            && t.calls == s.calls
  {
    hide FlightStep, PutStep;
  }

  /** An entry whose time is up is not served, and is dropped on sight. */
  lemma ExpiredIsDropped(s: State, r: nat)
    requires Enabled(s, Look(r))
    requires s.readers[r].key in s.local ==> s.local[s.readers[r].key].expiresAt <= s.now
    ensures var t := Apply(s, Look(r));
            r in t.readers && t.readers[r].phase == Missed && t.local == s.local - {s.readers[r].key}
  {
    hide FlightStep, PutStep;
  }

  /** The cache after a store: the entry is in, what it evicts is out; or nothing has changed. */
  predicate StoredIn(before: map<Key, Entry>, after: map<Key, Entry>, k: Key, e: Entry, effect: Effect) {
    if effect.refused then after == before else after == (before - effect.evicted)[k := e]
  }

  /** What the steps that end a flight or put a value leave: a row found in the persistent store, a
      slot given up on, an entry stored, a put. */
  lemma OtherVerdicts(s: State, step: Step)
    requires Enabled(s, step)
    ensures step.Found? ==>
      var t := Apply(s, step);
      var e := Entry(step.verdict, step.expiresAt, ByFlight(step.f));
      && StoredIn(s.local, t.local, s.calls[step.f].key, e, step.effect)
      && step.f in t.calls && t.calls[step.f].verdict == Some(step.verdict)
    ensures step.GiveUp? ==>
      var t := Apply(s, step);
      && t.local == s.local && step.f in t.calls
      && t.calls[step.f].verdict == Some(Bad(AppError(504, Connection, ephemeral := true)))
    ensures step.Store? ==>
      var c := s.calls[step.f]; StoredIn(s.local, Apply(s, step).local, c.key, c.due.value, step.effect)
    ensures step.Put? ==>
      var p := s.putters[step.p];
      StoredIn(s.local, Apply(s, step).local, p.key, Entry(Good(p.value), p.expiresAt, ByPut(step.p)), step.effect)
  {
    hide GetStep;
  }

  lemma NothingOpened(s: State, step: Step, k: Key)
    requires Enabled(s, step) && Live(s, k)
    ensures var t := Apply(s, step); forall f :: f in t.calls && t.calls[f].key == k ==> f in s.calls
  {
    hide Apply, Live;
    StepShape(s, step);
    if step.Enter? && s.readers[step.r].key == k {
      LiveServed(s, step);
    }
  }

  lemma LiveServed(s: State, step: Step)
    requires Enabled(s, step) && step.Enter? && Live(s, s.readers[step.r].key)
    ensures Apply(s, step).calls == s.calls
  {
    hide FlightStep, PutStep, Live;
  }

  lemma {:induction false} StepsKeepCalls(s: State, steps: seq<Step>, t: State)
    requires Run(s, steps, t)
    ensures forall f :: f in s.calls ==> f in t.calls && t.calls[f].key == s.calls[f].key
    decreases |steps|
  {
    if steps != [] {
      var u := Apply(s, steps[0]);
      StepShape(s, steps[0]);
      hide Apply;
      CallsStay(s, u);
      StepsKeepCalls(u, steps[1..], t);
    }
  }

  /** Flight `f` is spent and the entry of `k` is not its. */
  predicate Past(s: State, k: Key, f: nat) {
    Spent(s, f) && (k in s.local ==> s.local[k].writer != ByFlight(f))
  }

  lemma PastStep(s: State, step: Step, k: Key, f: nat)
    requires CallsOrdered(s) && Enabled(s, step) && Past(s, k, f)
    ensures Past(Apply(s, step), k, f)
  {
    hide Apply, CallsOrdered, Spent;
    if WrittenBy(s, step, Apply(s, step), k) {
      WriterAfter(s, step, k);
    }
    SpentStays(s, step, f);
    if Mover(step).Some? {
      MoverNotSpent(s, step);
    }
  }

  lemma {:induction false} PastRun(s: State, steps: seq<Step>, t: State, k: Key, f: nat)
    requires Inv(s) && Run(s, steps, t) && Past(s, k, f)
    ensures Past(t, k, f)
    decreases |steps|
  {
    hide Apply, Past, FlightsExact, SlotsExact, CallsOrdered, ReadersServed, PuttersFollow, EntriesTraced;
    if steps != [] {
      PastStep(s, steps[0], k, f);
      StepInv(s, steps[0]);
      PastRun(Apply(s, steps[0]), steps[1..], t, k, f);
    }
  }

  /** A value put after a running flight was seen is never overwritten by that flight: the put comes
      after the flight has stored its verdict and been released. */
  lemma PutFollowsFlight(
      s: State, p: nat, f: nat, effect: Effect, steps: seq<Step>, t: State)
    requires Inv(s) && Enabled(s, Put(p, effect)) && s.putters[p].phase == Ready(Some(f)) && !effect.refused
    requires Run(Apply(s, Put(p, effect)), steps, t)
    ensures InPhase(s, f, Closed) && (s.calls[f].due.Some? ==> s.calls[f].stored)
    ensures s.putters[p].key in t.local ==> t.local[s.putters[p].key].writer != ByFlight(f)
  {
    assert PutterFollows(s, s.putters[p]) && CallOrdered(f, s.calls[f]);
    StepInv(s, Put(p, effect));
    PastRun(Apply(s, Put(p, effect)), steps, t, s.putters[p].key, f);
  }

  // ---------- When a put is overwritten ----------

  const PLAIN := Effect(false, {})

  /** A fetch that ends in a value worth storing. */
  const GOOD := Fetched("got", 1, None, true)

  /** From `s` on, the entry of `k` can come to be one written by a flight among `calls`. */
  ghost predicate CanBeTaken(s: State, k: Key, calls: set<nat>) {
    exists steps, t :: Run(s, steps, t) && Taken(t, k, calls)
  }

  predicate Taken(t: State, k: Key, calls: set<nat>) {
    k in t.local && t.local[k].writer.ByFlight? && t.local[k].writer.flight in calls
  }

  /** The key has a flight that may still store. */
  predicate Threatened(s: State, k: Key) {
    k in s.flight && s.flight[k] in s.calls && s.calls[s.flight[k]].phase != Ending
  }

  /** A step that brings the flight of a key nearer to storing. */
  function Toward(s: State, k: Key, g: nat): Step
    requires Threatened(s, k)
  {
    var f := s.flight[k];
    match s.calls[f].phase
    case Lookup => Found(f, Good("got"), 9, PLAIN)
    case WantSlot => if s.slots < s.capacity then Acquire(f) else Return(g, GOOD, true)
    case Fetching => Return(f, GOOD, false)
    case _ => Store(f, PLAIN)
  }

  function Distance(s: State, k: Key): nat
    requires Threatened(s, k)
  {
    var phase := s.calls[s.flight[k]].phase;
    if phase == WantSlot then (if s.slots < s.capacity then 2 else 3) else if phase == Fetching then 1 else 0
  }

  /** When every slot is taken, some other flight is fetching. */
  lemma SlotTaker(s: State, k: Key) returns (g: nat)
    requires Inv(s) && s.capacity > 0 && Threatened(s, k)
    ensures Enabled(s, Toward(s, k, g))
    ensures s.calls[s.flight[k]].phase == WantSlot ==> g != s.flight[k]
  {
    var f := s.flight[k];
    assert CallOrdered(f, s.calls[f]);
    g := f + 1;
    if s.calls[f].phase == WantSlot && s.slots >= s.capacity {
      assert Fetchers(s) != {};
      g :| g in Fetchers(s);
    } else if s.calls[f].phase == Fetching {
      assert f in Fetchers(s);
    }
  }

  lemma TowardStores(s: State, k: Key, g: nat)
    requires Threatened(s, k) && Enabled(s, Toward(s, k, g)) && CallsOrdered(s) && s.slots <= s.capacity
    requires s.calls[s.flight[k]].key == k && (s.calls[s.flight[k]].phase == WantSlot ==> g != s.flight[k])
    ensures var t, f := Apply(s, Toward(s, k, g)), s.flight[k];
            if s.calls[f].phase == Lookup || s.calls[f].phase == Storing then
              k in t.local && t.local[k].writer == ByFlight(f)
            else Threatened(t, k) && t.flight == s.flight && t.capacity == s.capacity && Distance(t, k) < Distance(s, k)
  {
    assert CallOrdered(s.flight[k], s.calls[s.flight[k]]);
  }

  /** A flight that may still store can be made to, in at most four steps. */
  lemma {:induction false} FlightStores(s: State, k: Key) returns (steps: seq<Step>, t: State)
    requires Inv(s) && s.capacity > 0 && Threatened(s, k)
    ensures Run(s, steps, t) && k in t.local && t.local[k].writer == ByFlight(s.flight[k])
    decreases Distance(s, k)
  {
    var g := SlotTaker(s, k);
    var step := Toward(s, k, g);
    TowardStores(s, k, g);
    StepInv(s, step);
    hide Apply, Inv, Toward, Distance;
    var u := Apply(s, step);
    if s.calls[s.flight[k]].phase == Lookup || s.calls[s.flight[k]].phase == Storing {
      steps, t := [], u;
    } else {
      steps, t := FlightStores(u, k);
    }
    RunCons(s, step, steps, t);
    steps := [step] + steps;
  }

  /** The flights of a key that is not threatened are spent. */
  lemma OthersSpent(s: State, k: Key, f: nat)
    requires FlightsExact(s) && f in s.calls && s.calls[f].key == k && !Threatened(s, k)
    ensures Spent(s, f)
  {}

  /** A value put can come to be replaced by the verdict of a flight that had started before the put
      if and only if the key has a flight at the put that may still store: whether the putter had
      seen a flight does not matter. */
  lemma OverwrittenIff(s: State, p: nat, effect: Effect)
    requires Inv(s) && s.capacity > 0 && Enabled(s, Put(p, effect)) && !effect.refused
    ensures CanBeTaken(Apply(s, Put(p, effect)), s.putters[p].key, s.calls.Keys) <==> Threatened(s, s.putters[p].key)
  {
    var k, u := s.putters[p].key, Apply(s, Put(p, effect));
    StepInv(s, Put(p, effect));
    assert u.calls == s.calls && u.flight == s.flight && u.capacity == s.capacity && u.local[k].writer == ByPut(p);
    hide Apply;
    if Threatened(s, k) {
      var steps, t := FlightStores(u, k);
      assert Taken(t, k, s.calls.Keys);
    }
    if CanBeTaken(u, k, s.calls.Keys) {
      var steps, t :| Run(u, steps, t) && Taken(t, k, s.calls.Keys);
      NotTaken(u, k, steps, t);
    }
  }

  /** Without a threat, no flight that has started by now ever writes the key. */
  lemma NotTaken(u: State, k: Key, steps: seq<Step>, t: State)
    requires Inv(u) && Run(u, steps, t) && Taken(t, k, u.calls.Keys) && k in u.local && u.local[k].writer.ByPut?
    ensures Threatened(u, k)
  {
    hide Apply;
    var f := t.local[k].writer.flight;
    RunInv(u, steps, t);
    StepsKeepCalls(u, steps, t);
    assert EntryTraced(t, k, t.local[k]);
    if !Threatened(u, k) {
      OthersSpent(u, k, f);
      PastRun(u, steps, t, k, f);
    }
  }

  // ---------- Two runs that overwrite ----------

  function Empty(): State { State(0, 1, 0, map[], map[], map[], map[], map[]) }

  /** A putter has looked and seen no flight; then a caller has started one. */
  function Racing(k: Key): State {
    State(0, 1, 0, map[], map[k := 0], map[0 := Call(k, Lookup, None, None, false)],
          map[0 := Reader(k, Waiting(0))], map[0 := Putter(k, "put", 9, Ready(None))])
  }

  /** The state on the way: the putter in its phase, a reader that has looked and missed. */
  function Misses(k: Key, phase: PutterPhase): State {
    State(0, 1, 0, map[], map[], map[], map[0 := Reader(k, Missed)], map[0 := Putter(k, "put", 9, phase)])
  }

  function Begun(k: Key, phase: PutterPhase): State {
    State(0, 1, 0, map[], map[], map[], map[], map[0 := Putter(k, "put", 9, phase)])
  }

  lemma PutterLooks(k: Key)
    ensures Run(Empty(), [Begin(0, k, "put", 9), Observe(0)], Begun(k, Ready(None)))
  {
    assert Apply(Empty(), Begin(0, k, "put", 9)) == Begun(k, Called);
    assert Apply(Begun(k, Called), Observe(0)) == Begun(k, Ready(None));
    RunCons(Begun(k, Called), Observe(0), [], Begun(k, Ready(None)));
    hide Apply;
    RunCons(Empty(), Begin(0, k, "put", 9), [Observe(0)], Begun(k, Ready(None)));
  }

  lemma ReaderMisses(k: Key)
    ensures Run(Begun(k, Ready(None)), [Ask(0, k), Look(0)], Misses(k, Ready(None)))
  {
    var s := Apply(Begun(k, Ready(None)), Ask(0, k));
    assert Apply(s, Look(0)) == Misses(k, Ready(None));
    RunCons(s, Look(0), [], Misses(k, Ready(None)));
    hide Apply;
    RunCons(Begun(k, Ready(None)), Ask(0, k), [Look(0)], Misses(k, Ready(None)));
  }

  lemma ReaderEnters(k: Key)
    ensures Run(Misses(k, Ready(None)), [Enter(0, 0)], Racing(k))
  {
    assert Apply(Misses(k, Ready(None)), Enter(0, 0)) == Racing(k);
    RunCons(Misses(k, Ready(None)), Enter(0, 0), [], Racing(k));
  }

  lemma RaceBegins(k: Key) returns (steps: seq<Step>)
    ensures Run(Empty(), steps, Racing(k))
  {
    PutterLooks(k);
    ReaderMisses(k);
    ReaderEnters(k);
    hide Run, Empty, Begun, Misses, Racing;
    var a, b := [Begin(0, k, "put", 9), Observe(0)], [Ask(0, k), Look(0)];
    RunConcat(Empty(), a, Begun(k, Ready(None)), b, Misses(k, Ready(None)));
    RunConcat(Empty(), a + b, Misses(k, Ready(None)), [Enter(0, 0)], Racing(k));
    steps := a + b + [Enter(0, 0)];
  }

  /** The flight found the key in the persistent store before the putter wrote it there. */
  const GOT := Found(0, Good("got"), 9, PLAIN)

  lemma RaceEnds(k: Key) returns (t: State)
    ensures Run(Racing(k), [Put(0, PLAIN), GOT], t)
    ensures 0 in t.putters && t.putters[0].phase == Done(None) && t.putters[0].key == k && t.putters[0].value == "put"
    ensures k in t.local && t.local[k].writer == ByFlight(0) && t.local[k].verdict == Good("got")
  {
    var s1 := Apply(Racing(k), Put(0, PLAIN));
    t := Apply(s1, GOT);
    RunCons(s1, GOT, [], t);
    RunCons(Racing(k), Put(0, PLAIN), [GOT], t);
  }

  lemma {:induction false} RunConcat(
      s: State, a: seq<Step>, m: State, b: seq<Step>, t: State)
    requires Run(s, a, m) && Run(m, b, t)
    ensures Run(s, a + b, t)
    decreases |a|
  {
    hide Apply;
    if a == [] {
      assert a + b == b;
    } else {
      RunConcat(Apply(s, a[0]), a[1..], m, b, t);
      assert a + b == [a[0]] + (a[1..] + b);
      RunCons(s, a[0], a[1..] + b, t);
    }
  }

  /** The guarantee needs the flight to be running when `putAfterFlight` looks: here one starts
      between the look and the put, and its verdict replaces the value. */
  lemma LaterFlightOverwrites(k: Key) returns (s: State, steps: seq<Step>, t: State)
    ensures Initial(s) && Run(s, steps, t)
    ensures 0 in t.putters && t.putters[0].phase == Done(None) && t.putters[0].key == k
    ensures k in t.local && t.local[k].writer == ByFlight(0) && t.local[k].verdict != Good(t.putters[0].value)
  {
    var first := RaceBegins(k);
    t := RaceEnds(k);
    s := Empty();
    var second := [Put(0, PLAIN), GOT];
    RunConcat(s, first, Racing(k), second, t);
    steps := first + second;
  }

  lemma RunCons(s: State, step: Step, steps: seq<Step>, t: State)
    requires Enabled(s, step) && Run(Apply(s, step), steps, t)
    ensures Run(s, [step] + steps, t)
  {
    assert ([step] + steps)[1..] == steps;
  }

  // Seeing a flight is not enough either.

  const LOST := Fetched("", 0, Some(AppError(502, Upstream, ephemeral := true)), true)

  function Waits(k: Key): State {
    State(0, 1, 0, map[], map[k := 0], map[0 := Call(k, Lookup, None, None, false)],
          map[0 := Reader(k, Waiting(0))], map[0 := Putter(k, "put", 9, Following(0))])
  }

  function Over(k: Key): Call { Call(k, Closed, Some(Bad(LOST.error.value)), None, false) }

  function Woken(k: Key): State {
    State(0, 1, 0, map[], map[], map[0 := Over(k)],
          map[0 := Reader(k, Waiting(0))], map[0 := Putter(k, "put", 9, Ready(Some(0)))])
  }

  function SecondFlight(k: Key): State {
    State(0, 1, 0, map[], map[k := 1], map[0 := Over(k), 1 := Call(k, Lookup, None, None, false)],
          map[0 := Reader(k, Waiting(0)), 1 := Reader(k, Waiting(1))], map[0 := Putter(k, "put", 9, Ready(Some(0)))])
  }

  function Starts(k: Key): State {
    State(0, 1, 0, map[], map[k := 0], map[0 := Call(k, Lookup, None, None, false)],
          map[0 := Reader(k, Waiting(0))], map[])
  }

  function Asks(k: Key, phase: ReaderPhase): State {
    State(0, 1, 0, map[], map[], map[], map[0 := Reader(k, phase)], map[])
  }

  lemma FirstLooks(k: Key)
    ensures Run(Empty(), [Ask(0, k), Look(0)], Asks(k, Missed))
  {
    assert Apply(Empty(), Ask(0, k)) == Asks(k, Asked);
    assert Apply(Asks(k, Asked), Look(0)) == Asks(k, Missed);
    RunCons(Asks(k, Asked), Look(0), [], Asks(k, Missed));
    hide Apply;
    RunCons(Empty(), Ask(0, k), [Look(0)], Asks(k, Missed));
  }

  lemma FirstStarts(k: Key)
    ensures Run(Asks(k, Missed), [Enter(0, 0)], Starts(k))
  {
    assert Apply(Asks(k, Missed), Enter(0, 0)) == Starts(k);
    RunCons(Asks(k, Missed), Enter(0, 0), [], Starts(k));
  }

  lemma FollowerWaits(k: Key)
    ensures Run(Starts(k), [Begin(0, k, "put", 9), Observe(0)], Waits(k))
  {
    var s := Apply(Starts(k), Begin(0, k, "put", 9));
    assert Apply(s, Observe(0)) == Waits(k);
    RunCons(s, Observe(0), [], Waits(k));
    hide Apply;
    RunCons(Starts(k), Begin(0, k, "put", 9), [Observe(0)], Waits(k));
  }

  function Loses(k: Key): State {
    State(0, 1, 1, map[], map[k := 0], map[0 := Call(k, Fetching, None, None, false)],
          map[0 := Reader(k, Waiting(0))], map[0 := Putter(k, "put", 9, Following(0))])
  }

  lemma FlightFetches(k: Key)
    ensures Run(Waits(k), [Step.NotFound(0), Acquire(0)], Loses(k))
  {
    var s1 := Apply(Waits(k), Step.NotFound(0));
    assert Apply(s1, Acquire(0)) == Loses(k);
    RunCons(s1, Acquire(0), [], Loses(k));
    hide Apply;
    RunCons(Waits(k), Step.NotFound(0), [Acquire(0)], Loses(k));
  }

  lemma FollowerWakes(k: Key)
    ensures Run(Loses(k), [Return(0, LOST, false), Close(0), Wake(0)], Woken(k))
  {
    var s1 := Apply(Loses(k), Return(0, LOST, false));
    var s2 := Apply(s1, Close(0));
    assert Apply(s2, Wake(0)) == Woken(k);
    RunCons(s2, Wake(0), [], Woken(k));
    hide Apply;
    RunCons(s1, Close(0), [Wake(0)], Woken(k));
    RunCons(Loses(k), Return(0, LOST, false), [Close(0), Wake(0)], Woken(k));
  }

  function SecondAsks(k: Key, phase: ReaderPhase): State {
    State(0, 1, 0, map[], map[], map[0 := Over(k)],
          map[0 := Reader(k, Waiting(0)), 1 := Reader(k, phase)], map[0 := Putter(k, "put", 9, Ready(Some(0)))])
  }

  lemma SecondLooks(k: Key)
    ensures Run(Woken(k), [Ask(1, k), Look(1)], SecondAsks(k, Missed))
  {
    var s1 := Apply(Woken(k), Ask(1, k));
    assert s1 == SecondAsks(k, Asked);
    assert Apply(s1, Look(1)) == SecondAsks(k, Missed);
    RunCons(s1, Look(1), [], SecondAsks(k, Missed));
    hide Apply;
    RunCons(Woken(k), Ask(1, k), [Look(1)], SecondAsks(k, Missed));
  }

  lemma SecondBegins(k: Key)
    ensures Run(SecondAsks(k, Missed), [Enter(1, 1)], SecondFlight(k))
  {
    assert Apply(SecondAsks(k, Missed), Enter(1, 1)) == SecondFlight(k);
    RunCons(SecondAsks(k, Missed), Enter(1, 1), [], SecondFlight(k));
  }

  lemma FollowerRun(k: Key) returns (steps: seq<Step>)
    ensures Run(Empty(), steps, Waits(k)) && forall step :: step in steps ==> !step.Put?
  {
    FirstLooks(k);
    FirstStarts(k);
    FollowerWaits(k);
    hide Run, Empty, Asks, Starts, Waits;
    var a, c := [Ask(0, k), Look(0)], [Begin(0, k, "put", 9), Observe(0)];
    RunConcat(Empty(), a, Asks(k, Missed), [Enter(0, 0)], Starts(k));
    RunConcat(Empty(), a + [Enter(0, 0)], Starts(k), c, Waits(k));
    steps := a + [Enter(0, 0)] + c;
  }

  lemma SecondFlightRun(k: Key) returns (steps: seq<Step>)
    ensures Run(Empty(), steps, SecondFlight(k))
  {
    var a := FollowerRun(k);
    FlightFetches(k);
    FollowerWakes(k);
    SecondLooks(k);
    SecondBegins(k);
    hide Run, Empty, Waits, Loses, Woken, SecondAsks, SecondFlight, LOST;
    var b, c := [Step.NotFound(0), Acquire(0)], [Return(0, LOST, false), Close(0), Wake(0)];
    RunConcat(Empty(), a, Waits(k), b, Loses(k));
    RunConcat(Empty(), a + b, Loses(k), c, Woken(k));
    RunConcat(Empty(), a + b + c, Woken(k), [Ask(1, k), Look(1)], SecondAsks(k, Missed));
    RunConcat(Empty(), a + b + c + [Ask(1, k), Look(1)], SecondAsks(k, Missed), [Enter(1, 1)], SecondFlight(k));
    steps := a + b + c + [Ask(1, k), Look(1)] + [Enter(1, 1)];
  }

  /** A putter that waited for the flight it saw can lose its value too: that flight fails, the next
      one starts before the put, and its verdict replaces the value. */
  lemma SeenFlightIsNotEnough(k: Key) returns (steps: seq<Step>, s: State, after: seq<Step>, t: State)
    ensures Run(Empty(), steps, s) && 0 in s.putters && s.putters[0].phase == Ready(Some(0)) && s.putters[0].key == k
    ensures Enabled(s, Put(0, PLAIN)) && Run(Apply(s, Put(0, PLAIN)), after, t)
    ensures k in t.local && t.local[k].writer == ByFlight(1)
  {
    hide Apply, Inv, Run;
    s := SecondFlight(k);
    steps := SecondFlightRun(k);
    InitialInv(Empty());
    RunInv(Empty(), steps, s);
    StepInv(s, Put(0, PLAIN));
    PutChanges(s, 0);
    after, t := FlightStores(Apply(s, Put(0, PLAIN)), k);
  }

  lemma PutChanges(s: State, p: nat)
    requires Enabled(s, Put(p, PLAIN))
    ensures var u := Apply(s, Put(p, PLAIN)); u.flight == s.flight && u.calls == s.calls && u.capacity == s.capacity
  {}
}
