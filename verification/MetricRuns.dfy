/** The metrics over whole runs: any number of processes, each with its own random id, sharing one
    table. Every call holds its process's lock; transactions commit or fail. */
module MetricRuns {
  import opened Prelude
  import opened Metrics

  datatype System = System(rows: Table, stores: map<string, Store>)

  function StoreOf(sys: System, instance: string): Store {
    if instance in sys.stores then sys.stores[instance] else NEW
  }

  /** A sample recorded, or the flush of a `Status` call. */
  datatype Event =
    | Records(instance: string, now: nat, commits: bool, sample: Sample)
    | Flushes(instance: string, now: nat, commits: bool)

  function After(sys: System, e: Event): System {
    match e
    case Records(i, now, commits, sample) =>
      var record := Record(sys.rows, StoreOf(sys, i), i, now, commits, sample);
      System(record.rows, sys.stores[i := record.store])
    case Flushes(i, now, commits) =>
      var flush := Flush(sys.rows, StoreOf(sys, i), i, now, commits);
      System(flush.rows, sys.stores[i := flush.store])
  }

  /** From table `t`, with no process started. */
  function Run(t: Table, history: seq<Event>): System {
    if history == [] then System(t, map[])
    else After(Run(t, history[..|history| - 1]), history[|history| - 1])
  }

  /** What a process and the table hold for a row: the running total if there is one, else the row. */
  function HeldIn(t: Table, pending: map<Key, Bucket>, r: Row): Bucket {
    if r.key in pending then pending[r.key] else Stored(t, r)
  }

  function Held(sys: System, r: Row): Bucket { HeldIn(sys.rows, StoreOf(sys, r.instance).pending, r) }

  /** The row a recorded sample belongs to, by its time alone. */
  function Home(e: Event): Row
    requires e.Records?
  {
    Row(Key(SlotOf(e.now), e.sample.category), e.instance)
  }

  /** The row at the start and every sample recorded for it since. */
  function Recorded(t: Table, history: seq<Event>, r: Row): Bucket {
    if history == [] then Stored(t, r)
    else
      var e := history[|history| - 1];
      var before := Recorded(t, history[..|history| - 1], r);
      if e.Records? && Home(e) == r then Add(before, One(e.sample)) else before
  }

  function Clock(history: seq<Event>): nat { if history == [] then 0 else history[|history| - 1].now }

  /** The clock does not run backwards, and the ids of the processes are new to the table. */
  predicate Orderly(t: Table, history: seq<Event>) {
    history != [] ==>
      var before, e := history[..|history| - 1], history[|history| - 1];
      Orderly(t, before) && Clock(before) <= e.now && forall r :: r in t ==> r.instance != e.instance
  }

  predicate InWindow(r: Row, now: nat) { r.key.bucket >= now - RETENTION }

  // ---------- One step ----------

  /** No running total is ahead of the current bucket; rows it has no running total for are behind. */
  ghost predicate Tidy(t: Table, s: Store, instance: string) {
    && (forall k :: k in s.pending ==> k.bucket <= s.bucket)
    && forall r :: r in t && r.instance == instance && r.key !in s.pending ==> r.key.bucket < s.bucket
  }

  /** A flush loses nothing within the window, whatever the clock says and however it ends. */
  lemma FlushKeeps(t: Table, s: Store, instance: string, now: nat, commits: bool, r: Row)
    requires InWindow(r, now)
    ensures var f := Flush(t, s, instance, now, commits);
            && (r.instance == instance ==> HeldIn(f.rows, f.store.pending, r) == HeldIn(t, s.pending, r))
            && (r.instance != instance ==> Stored(f.rows, r) == Stored(t, r))
            && (r.instance == instance && commits ==> Stored(f.rows, r) == HeldIn(t, s.pending, r))
  {}

  lemma FlushTidy(t: Table, s: Store, instance: string, now: nat, commits: bool)
    requires Tidy(t, s, instance) && s.bucket <= SlotOf(now)
    ensures var f := Flush(t, s, instance, now, commits);
            && Tidy(f.rows, f.store, instance) && f.store.bucket == SlotOf(now)
            && (forall r :: r in f.rows ==> r in t || r.instance == instance)
  {
    hide SlotOf;
  }

  lemma TurnKeeps(t: Table, s: Store, instance: string, now: nat, commits: bool, r: Row)
    requires InWindow(r, now)
    ensures var f := Turn(t, s, instance, now, commits);
            && f.store.bucket == SlotOf(now)
            && (r.instance == instance ==> HeldIn(f.rows, f.store.pending, r) == HeldIn(t, s.pending, r))
            && (r.instance != instance ==> Stored(f.rows, r) == Stored(t, r))
            && (r.instance == instance && r.key.bucket == SlotOf(now) ==>
                  (r.key in f.store.pending <==> r.key in s.pending))
  {
    FlushKeeps(t, s, instance, now, commits, r);
  }

  lemma SlotInWindow(now: nat)
    ensures now - BUCKET_SECONDS < SlotOf(now) <= now && SlotOf(now) >= 0
  {}

  /** Recording a sample, at any time, adds exactly that sample to what is held for its row if and
      only if there is a running total to add it to or nothing stored for the row. */
  lemma RecordAddsIff(sys: System, e: Event)
    requires e.Records?
    ensures Held(After(sys, e), Home(e)) == Add(Held(sys, Home(e)), One(e.sample))
       <==> Home(e).key in StoreOf(sys, e.instance).pending || Stored(sys.rows, Home(e)) == ZERO
  {
    hide Turn, SlotOf, One, Add;
    var r, s := Home(e), StoreOf(sys, e.instance);
    SlotInWindow(e.now);
    TurnKeeps(sys.rows, s, e.instance, e.now, e.commits, r);
    var f := Turn(sys.rows, s, e.instance, e.now, e.commits);
    assert Held(After(sys, e), r) == Add(Get(f.store.pending, r.key), One(e.sample));
    AddLaws(One(e.sample), ZERO, ZERO);
    OnlyZeroVanishes(Stored(sys.rows, r), One(e.sample));
  }

  // ---------- Whole runs ----------

  ghost predicate Inv(t: Table, history: seq<Event>, sys: System) {
    && (forall r :: InWindow(r, Clock(history)) ==> Held(sys, r) == Recorded(t, history, r))
    && (forall i :: i in sys.stores ==>
          Tidy(sys.rows, sys.stores[i], i) && sys.stores[i].bucket <= SlotOf(Clock(history)))
    && (forall r :: r in sys.rows ==> r in t || r.instance in sys.stores)
  }

  lemma SlotsOrdered(a: nat, b: nat)
    requires a <= b
    ensures SlotOf(a) <= SlotOf(b)
  {}

  /** A process that has not run has no rows of its own id. */
  lemma Ready(t: Table, history: seq<Event>, sys: System, e: Event)
    requires Inv(t, history, sys) && Orderly(t, history + [e])
    ensures Clock(history) <= e.now
    ensures Tidy(sys.rows, StoreOf(sys, e.instance), e.instance) && StoreOf(sys, e.instance).bucket <= SlotOf(e.now)
  {
    hide SlotOf;
    assert (history + [e])[..|history|] == history;
    SlotsOrdered(Clock(history), e.now);
    SlotInWindow(e.now);
  }

  lemma OthersTidy(t: Table, u: Table, i: string, store: Store, j: string, other: Store)
    requires i != j && Tidy(t, other, j) && forall r :: r in u ==> r in t || r.instance == i
    ensures Tidy(u, other, j)
  {}

  lemma RowStep(t: Table, history: seq<Event>, sys: System, e: Event, r: Row)
    requires Inv(t, history, sys) && Orderly(t, history + [e]) && InWindow(r, e.now)
    ensures Held(After(sys, e), r) == Recorded(t, history + [e], r)
  {
    hide Tidy, Turn, Flush, SlotOf, One, Add, Orderly;
    var s := StoreOf(sys, e.instance);
    Ready(t, history, sys, e);
    assert (history + [e])[..|history|] == history;
    assert InWindow(r, Clock(history));
    match e
    case Flushes(i, now, commits) => FlushKeeps(sys.rows, s, i, now, commits, r);
    case Records(i, now, commits, sample) =>
      TurnKeeps(sys.rows, s, i, now, commits, r);
      if r == Home(e) {
        HomeIsOpen(sys, e);
        RecordAddsIff(sys, e);
      }
  }

  lemma HomeIsOpen(sys: System, e: Event)
    requires e.Records? && Tidy(sys.rows, StoreOf(sys, e.instance), e.instance)
    requires StoreOf(sys, e.instance).bucket <= SlotOf(e.now)
    ensures Home(e).key in StoreOf(sys, e.instance).pending || Stored(sys.rows, Home(e)) == ZERO
  {
    hide SlotOf;
  }

  lemma StoresStep(t: Table, history: seq<Event>, sys: System, e: Event)
    requires Inv(t, history, sys) && Orderly(t, history + [e])
    ensures var u := After(sys, e);
            && (forall i :: i in u.stores ==> Tidy(u.rows, u.stores[i], i) && u.stores[i].bucket <= SlotOf(e.now))
            && (forall r :: r in u.rows ==> r in t || r.instance in u.stores)
  {
    hide Flush, SlotOf, One, Add, Orderly, Held, Recorded, Tidy;
    var s, u := StoreOf(sys, e.instance), After(sys, e);
    Ready(t, history, sys, e);
    FlushTidy(sys.rows, s, e.instance, e.now, e.commits);
    SlotsOrdered(Clock(history), e.now);
    if e.Records? {
      CountTidy(Turn(sys.rows, s, e.instance, e.now, e.commits), e.instance, e.sample);
    }
    forall i | i in u.stores ensures Tidy(u.rows, u.stores[i], i) && u.stores[i].bucket <= SlotOf(e.now) {
      if i != e.instance {
        OthersTidy(sys.rows, u.rows, e.instance, s, i, sys.stores[i]);
      }
    }
  }

  lemma CountTidy(f: Flushed, instance: string, sample: Sample)
    requires Tidy(f.rows, f.store, instance)
    ensures Tidy(f.rows, Count(f.store, sample), instance)
  {
    hide Add, One;
  }

  lemma StepInv(t: Table, history: seq<Event>, e: Event)
    requires Orderly(t, history + [e]) && Inv(t, history, Run(t, history))
    ensures Inv(t, history + [e], Run(t, history + [e]))
  {
    hide After, Orderly, Held, Recorded, Tidy, SlotOf;
    var longer := history + [e];
    assert longer[..|history|] == history;
    StoresStep(t, history, Run(t, history), e);
    forall r | InWindow(r, e.now) ensures Held(Run(t, longer), r) == Recorded(t, longer, r) {
      RowStep(t, history, Run(t, history), e, r);
    }
  }

  lemma BeginInv(t: Table)
    ensures Inv(t, [], Run(t, []))
  {}

  lemma {:induction false} RunInv(t: Table, history: seq<Event>)
    requires Orderly(t, history)
    ensures Inv(t, history, Run(t, history))
    decreases |history|
  {
    hide Run, Orderly, Inv;
    if history == [] {
      BeginInv(t);
    } else {
      Prior(t, history);
      var before, e := history[..|history| - 1], history[|history| - 1];
      RunInv(t, before);
      assert history == before + [e];
      StepInv(t, before, e);
    }
  }

  lemma Prior(t: Table, history: seq<Event>)
    requires Orderly(t, history) && history != []
    ensures Orderly(t, history[..|history| - 1])
  {}

  /** No sample in the window is lost or counted twice: what is held for each row is the sum of the
      samples recorded for it. */
  lemma ExactTotals(t: Table, history: seq<Event>, r: Row)
    requires Orderly(t, history) && InWindow(r, Clock(history))
    ensures Held(Run(t, history), r) == Recorded(t, history, r)
  {
    RunInv(t, history);
  }

  /** After a process has committed a flush, its rows themselves are those sums. */
  lemma CommittedRows(t: Table, history: seq<Event>, e: Event, r: Row)
    requires Orderly(t, history + [e]) && e.Flushes? && e.commits && r.instance == e.instance && InWindow(r, e.now)
    ensures Stored(Run(t, history + [e]).rows, r) == Recorded(t, history + [e], r)
  {
    assert (history + [e])[..|history|] == history;
    Prior(t, history + [e]);
    RunInv(t, history);
    Ready(t, history, Run(t, history), e);
    FlushKeeps(Run(t, history).rows, StoreOf(Run(t, history), e.instance), e.instance, e.now, e.commits, r);
  }

  // ---------- What has been saved ----------

  /** Whether an event after `history` commits a flush. */
  predicate Saves(t: Table, history: seq<Event>, e: Event) {
    e.commits && (e.Records? ==> SlotOf(e.now) != StoreOf(Run(t, history), e.instance).bucket)
  }

  /** What was recorded for a row when its process last committed a flush. */
  function Saved(t: Table, history: seq<Event>, r: Row): Bucket {
    if history == [] then Stored(t, r)
    else
      var before, e := history[..|history| - 1], history[|history| - 1];
      if e.instance == r.instance && Saves(t, before, e) then Recorded(t, before, r) else Saved(t, before, r)
  }

  /** What an event leaves in the table. */
  lemma StoredAfter(sys: System, e: Event, r: Row, saves: bool)
    requires saves == (e.commits && (e.Records? ==> SlotOf(e.now) != StoreOf(sys, e.instance).bucket))
    requires InWindow(r, e.now)
    ensures Stored(After(sys, e).rows, r)
         == if e.instance == r.instance && saves then Held(sys, r) else Stored(sys.rows, r)
  {
    hide SlotOf, Count, Written, Open;
    FlushKeeps(sys.rows, StoreOf(sys, e.instance), e.instance, e.now, e.commits, r);
    RowsUnsaved(sys.rows, StoreOf(sys, e.instance), e.instance, e.now);
  }

  lemma RowsUnsaved(t: Table, s: Store, instance: string, now: nat)
    ensures Flush(t, s, instance, now, false).rows == t
  {}

  /** At every point of every run a row holds what was recorded for it when its process last
      committed a flush, no less and no more. */
  lemma {:induction false} SavedRows(t: Table, history: seq<Event>, r: Row)
    requires Orderly(t, history) && InWindow(r, Clock(history))
    ensures Stored(Run(t, history).rows, r) == Saved(t, history, r)
    decreases |history|
  {
    hide After, Orderly, Held, Recorded, Stored;
    if history == [] {
      NothingRun(t);
    } else {
      var before, e := history[..|history| - 1], history[|history| - 1];
      Prior(t, history);
      Later(t, history);
      StoredAfter(Run(t, before), e, r, Saves(t, before, e));
      SavedRows(t, before, r);
      ExactTotals(t, before, r);
    }
  }

  lemma NothingRun(t: Table)
    ensures Run(t, []).rows == t
  {}

  lemma Later(t: Table, history: seq<Event>)
    requires Orderly(t, history) && history != []
    ensures Clock(history[..|history| - 1]) <= Clock(history)
  {}

  /** The last event of a process. */
  function LastOf(history: seq<Event>, instance: string): (last: Option<Event>)
    ensures last.Some? ==> last.value in history && last.value.instance == instance
  {
    if history == [] then None
    else if history[|history| - 1].instance == instance then Some(history[|history| - 1])
    else LastOf(history[..|history| - 1], instance)
  }

  /** The last thing the process did, if it did anything, was to commit a flush. */
  predicate Finished(history: seq<Event>, instance: string) {
    var last := LastOf(history, instance);
    last.Some? ==> last.value.Flushes? && last.value.commits
  }

  /** Then everything recorded for its rows is saved. */
  lemma {:induction false} FinishedSaved(t: Table, history: seq<Event>, r: Row)
    requires Finished(history, r.instance)
    ensures Saved(t, history, r) == Recorded(t, history, r)
    decreases |history|
  {
    hide Stored, Run, SlotOf;
    if history != [] && history[|history| - 1].instance != r.instance {
      FinishedSaved(t, history[..|history| - 1], r);
    }
  }

  /** The order matters: a sample whose time was read before a `Status` call moved to the next
      bucket, but recorded after it, wipes out what its own bucket held. */
  lemma LateSampleErases(i: string, a: Sample, b: Sample)
    requires a.category == b.category
    ensures var history := [Records(i, 700, true, a), Flushes(i, 1200, true), Records(i, 1199, true, b)];
            var r := Row(Key(600, a.category), i);
            && Recorded(map[], history, r) == Add(One(a), One(b))
            && Held(Run(map[], history), r) == One(b) != Add(One(a), One(b))
  {
    hide Add, One;
    var first, second, third := Records(i, 700, true, a), Flushes(i, 1200, true), Records(i, 1199, true, b);
    var k := Key(600, a.category);
    var s1 := After(System(map[], map[]), first);
    AddLaws(One(a), ZERO, ZERO);
    AddLaws(One(b), ZERO, ZERO);
    assert s1.stores[i] == Store(600, map[k := One(a)]) && s1.rows == map[];
    var s2 := After(s1, second);
    assert s2.stores[i] == Store(1200, map[]);
    assert s2.rows[Row(k, i)] == One(a);
    var s3 := After(s2, third);
    assert s3.stores[i].pending[k] == One(b);
    var none: seq<Event> := [];
    assert [first][..0] == none && [first, second][..1] == [first] && [first, second, third][..2] == [first, second];
    OnlyZeroVanishes(One(a), One(b));
    OneIsSomething(a);
    assert Run(map[], [first]) == s1;
    assert Run(map[], [first, second]) == s2;
    assert Recorded(map[], [first], Row(k, i)) == One(a);
    assert Recorded(map[], [first, second], Row(k, i)) == One(a);
  }

  lemma OneIsSomething(s: Sample)
    ensures One(s) != ZERO
  {
    assert One(s).latency[s.bin] == 1 && ZERO.latency[s.bin] == 0;
  }
}
