/** What `Status` of server/storage.go adds up, and what that comes to. */
module Status {
  import opened Prelude
  import opened Metrics
  import opened MetricRuns

  // ---------- Adding rows ----------

  /** How often a row of category `c` is added to the series of category `k`: once to its own and
      once to "all". Rows of unknown categories are skipped. */
  function Shares(c: Category, k: Category): nat {
    if c.Other? then 0 else (if c == k then 1 else 0) + (if k == All then 1 else 0)
  }

  function Times(b: Bucket, n: nat): Bucket { if n == 0 then ZERO else Add(Times(b, n - 1), b) }

  /** The sum a series has for a bucket. */
  function Series(t: Table, order: seq<Row>, k: Key): Bucket {
    if order == [] then ZERO
    else
      var rest, r := Series(t, order[..|order| - 1], k), order[|order| - 1];
      if r.key.bucket == k.bucket then Add(rest, Times(Stored(t, r), Shares(r.key.category, k.category))) else rest
  }

  /** Adding a row to a total, count by count. */
  method AddInto(total: Bucket, row: Bucket) returns (sum: Bucket)
    ensures sum == Add(total, row)
  {
    var outcomes, latency := total.outcomes, total.latency;
    for i := 0 to |row.outcomes|
      invariant |outcomes| == 3 && forall j :: 0 <= j < 3 ==>
        outcomes[j] == total.outcomes[j] + if j < i then row.outcomes[j] else 0
    {
      outcomes := outcomes[i := outcomes[i] + row.outcomes[i]];
    }
    for i := 0 to |row.latency|
      invariant |latency| == BINS && forall j :: 0 <= j < BINS ==>
        latency[j] == total.latency[j] + if j < i then row.latency[j] else 0
    {
      latency := latency[i := latency[i] + row.latency[i]];
    }
    sum := Counts(outcomes, latency);
    assert outcomes == Add(total, row).outcomes && latency == Add(total, row).latency;
  }

  function GetFrom(buckets: map<Key, Bucket>, k: Key): Bucket { if k in buckets then buckets[k] else ZERO }

  /** The loop over the rows a query returns, in whatever order. */
  method Report(t: Table, order: seq<Row>) returns (buckets: map<Key, Bucket>)
    requires forall r :: r in order ==> r in t
    ensures forall k :: GetFrom(buckets, k) == Series(t, order, k)
    ensures forall k :: k in buckets <==>
      exists r :: r in order && r.key.bucket == k.bucket && Shares(r.key.category, k.category) > 0
  {
    hide Add, Series, ZERO;
    buckets := map[];
    NoRows(t);
    for i := 0 to |order|
      invariant forall k :: GetFrom(buckets, k) == Series(t, order[..i], k)
      invariant forall k :: k in buckets <==>
        exists j :: 0 <= j < i && order[j].key.bucket == k.bucket && Shares(order[j].key.category, k.category) > 0
    {
      var r := order[i];
      ghost var before := buckets;
      if !r.key.category.Other? {
        var own, all := r.key, Key(r.key.bucket, All);
        var sum := AddInto(GetFrom(buckets, own), t[r]);
        buckets := buckets[own := sum];
        sum := AddInto(GetFrom(buckets, all), t[r]);
        buckets := buckets[all := sum];
      }
      forall k ensures GetFrom(buckets, k) == Series(t, order[..i + 1], k) {
        NextRow(t, order, i, k);
        Shared(GetFrom(before, k), t[r]);
      }
    }
    assert order[..|order|] == order;
  }

  /** What the query returns: the rows of the window, each once, in some order. */
  ghost predicate Query(t: Table, order: seq<Row>, now: nat) {
    Distinct(order) && forall r :: r in order <==> r in t && InWindow(r, now)
  }

  method Select(t: Table, now: nat) returns (order: seq<Row>)
    ensures Query(t, order, now)
  {
    order := [];
    var left := set r | r in t && InWindow(r, now);
    while left != {}
      invariant Distinct(order) && forall r :: r in order || r in left <==> r in t && InWindow(r, now)
      invariant forall r :: r in order ==> r !in left
    {
      var r :| r in left;
      order, left := order + [r], left - {r};
    }
  }

  /** `Status`: nothing when the flush fails. */
  method Status(store: LocalStore, now: nat, commits: bool)
    returns (report: Option<map<Key, Bucket>>, ghost order: seq<Row>)
    modifies store, store.db
    ensures var flush := Flush(old(store.db.rows), old(store.Model()), store.instance, now, commits);
            && store.db.rows == flush.rows && store.Model() == flush.store && (report.None? <==> flush.failed)
            && (report.Some? ==> Query(flush.rows, order, now)
                                 && forall k :: GetFrom(report.value, k) == Series(flush.rows, order, k))
  {
    hide Flush, Series;
    order := [];
    var failed := store.FlushMetrics(now, commits);
    if failed {
      return None, [];
    }
    var rows := Select(store.db.rows, now);
    var buckets := Report(store.db.rows, rows);
    report, order := Some(buckets), rows;
  }

  lemma NoRows(t: Table)
    ensures forall k :: Series(t, [], k) == ZERO
  {}

  lemma NextRow(t: Table, order: seq<Row>, i: nat, k: Key)
    requires i < |order|
    ensures Series(t, order[..i + 1], k) == if order[i].key.bucket == k.bucket
      then Add(Series(t, order[..i], k), Times(Stored(t, order[i]), Shares(order[i].key.category, k.category)))
      else Series(t, order[..i], k)
  {
    assert order[..i + 1][..i] == order[..i];
  }

  lemma Shared(total: Bucket, b: Bucket)
    ensures Add(total, Times(b, 0)) == total
    ensures Add(total, Times(b, 1)) == Add(total, b)
    ensures Add(total, Times(b, 2)) == Add(Add(total, b), b)
  {
    hide Add;
    AddLaws(total, b, b);
    AddLaws(b, ZERO, ZERO);
    assert Times(b, 1) == Add(Times(b, 0), b);
    assert Times(b, 2) == Add(Times(b, 1), b);
  }

  /** The rows of exactly one key. */
  function Own(t: Table, order: seq<Row>, k: Key): Bucket {
    if order == [] then ZERO
    else
      var rest, r := Own(t, order[..|order| - 1], k), order[|order| - 1];
      if r.key == k then Add(rest, Stored(t, r)) else rest
  }

  predicate Shown(c: Category) { c == Posts || c == Stories || c == Profile }

  /** The series of a category is the sum of its rows over all processes. */
  lemma {:induction false} SeriesIsOwn(t: Table, order: seq<Row>, k: Key)
    requires Shown(k.category)
    ensures Series(t, order, k) == Own(t, order, k)
    decreases |order|
  {
    hide Add;
    if order != [] {
      var rest, r := order[..|order| - 1], order[|order| - 1];
      SeriesIsOwn(t, rest, k);
      Shared(Own(t, rest, k), Stored(t, r));
    }
  }

  function Four(a: Bucket, b: Bucket, c: Bucket, d: Bucket): Bucket { Add(Add(Add(a, b), c), d) }

  function Categories(t: Table, order: seq<Row>, b: int): Bucket {
    Four(Own(t, order, Key(b, Posts)), Own(t, order, Key(b, Stories)), Own(t, order, Key(b, Profile)),
         Times(Own(t, order, Key(b, All)), 2))
  }

  lemma {:induction false} AllSeries(t: Table, order: seq<Row>, b: int)
    ensures Series(t, order, Key(b, All)) == Categories(t, order, b)
    decreases |order|
  {
    if order == [] {
      AddLaws(ZERO, ZERO, ZERO);
      Shared(ZERO, ZERO);
    } else {
      var rest, r := order[..|order| - 1], order[|order| - 1];
      AllSeries(t, rest, b);
      if r.key.bucket == b {
        AllStep(Own(t, rest, Key(b, Posts)), Own(t, rest, Key(b, Stories)), Own(t, rest, Key(b, Profile)),
                Own(t, rest, Key(b, All)), Stored(t, r));
        Shared(Categories(t, rest, b), Stored(t, r));
      }
    }
  }

  lemma Swap(a: Bucket, b: Bucket, x: Bucket)
    ensures Add(Add(a, x), b) == Add(Add(a, b), x)
  {
    hide Add;
    AddLaws(a, x, b);
    AddLaws(x, b, a);
    AddLaws(a, b, x);
  }

  /** Adding to one of the four is adding to their sum. */
  lemma AllStep(a: Bucket, b: Bucket, c: Bucket, d: Bucket, x: Bucket)
    ensures Four(Add(a, x), b, c, Times(d, 2)) == Add(Four(a, b, c, Times(d, 2)), x)
    ensures Four(a, Add(b, x), c, Times(d, 2)) == Add(Four(a, b, c, Times(d, 2)), x)
    ensures Four(a, b, Add(c, x), Times(d, 2)) == Add(Four(a, b, c, Times(d, 2)), x)
    ensures Four(a, b, c, Times(Add(d, x), 2)) == Add(Add(Four(a, b, c, Times(d, 2)), x), x)
  {
    hide Add, Times;
    var ab, e := Add(a, b), Times(d, 2);
    Swap(a, b, x);
    Swap(ab, c, x);
    Swap(Add(ab, c), e, x);
    AddLaws(a, b, x);
    AddLaws(ab, c, x);
    Twice(Add(ab, c), d, x);
  }

  lemma Twice(a: Bucket, d: Bucket, x: Bucket)
    ensures Add(a, Times(Add(d, x), 2)) == Add(Add(Add(a, Times(d, 2)), x), x)
  {
    hide Add;
    Shared(a, d);
    Shared(a, Add(d, x));
    AddLaws(a, d, x);
    Swap(Add(a, d), d, x);
    AddLaws(Add(Add(a, d), x), d, x);
  }

  /** The sum of the series of the three categories. */
  function ThreeSeries(t: Table, order: seq<Row>, b: int): Bucket {
    Add(Add(Series(t, order, Key(b, Posts)), Series(t, order, Key(b, Stories))), Series(t, order, Key(b, Profile)))
  }

  /** "all" is the sum of the three categories exactly when the table has counted nothing under the
      name "all" itself, which would be added twice. */
  lemma AllIsTheSum(t: Table, order: seq<Row>, b: int)
    ensures Series(t, order, Key(b, All)) == ThreeSeries(t, order, b) <==> Own(t, order, Key(b, All)) == ZERO
  {
    hide Add, Series, Own;
    AllSeries(t, order, b);
    SeriesIsOwn(t, order, Key(b, Posts));
    SeriesIsOwn(t, order, Key(b, Stories));
    SeriesIsOwn(t, order, Key(b, Profile));
    var own := Own(t, order, Key(b, All));
    var three := Add(Add(Own(t, order, Key(b, Posts)), Own(t, order, Key(b, Stories))), Own(t, order, Key(b, Profile)));
    Shared(three, own);
    NothingTwice(three, own);
  }

  lemma NothingTwice(a: Bucket, b: Bucket)
    ensures Add(Add(a, b), b) == a <==> b == ZERO
  {
    AddLaws(a, b, b);
    AddLaws(Add(b, b), a, ZERO);
    OnlyZeroVanishes(Add(b, b), a);
    AddLaws(b, ZERO, ZERO);
    SumIsZero(b, b);
  }

  lemma SumIsZero(a: Bucket, b: Bucket)
    ensures Add(a, b) == ZERO <==> a == ZERO && b == ZERO
  {
    AddLaws(a, b, ZERO);
    if Add(a, b) == ZERO {
      forall i | 0 <= i < 3 ensures a.outcomes[i] == 0 {
        assert Add(a, b).outcomes[i] == 0;
      }
      forall i | 0 <= i < BINS ensures a.latency[i] == 0 {
        assert Add(a, b).latency[i] == 0;
      }
      assert a.outcomes == ZERO.outcomes && a.latency == ZERO.latency;
    }
  }

  // ---------- Conservation ----------

  /** Every sample recorded for a key, by any process. */
  function Samples(history: seq<Event>, k: Key): Bucket {
    if history == [] then ZERO
    else
      var e, before := history[|history| - 1], Samples(history[..|history| - 1], k);
      if e.Records? && Home(e).key == k then Add(before, One(e.sample)) else before
  }

  function OverRows(t: Table, history: seq<Event>, order: seq<Row>, k: Key): Bucket {
    if order == [] then ZERO
    else
      var rest, r := OverRows(t, history, order[..|order| - 1], k), order[|order| - 1];
      if r.key == k then Add(rest, Recorded(t, history, r)) else rest
  }

  lemma RecordedStep(t: Table, history: seq<Event>, e: Event, r: Row)
    ensures Recorded(t, history + [e], r)
         == if e.Records? && Home(e) == r then Add(Recorded(t, history, r), One(e.sample)) else Recorded(t, history, r)
  {
    assert (history + [e])[..|history|] == history;
  }

  /** A sample counts once, in its own row. */
  lemma {:induction false} OneRow(t: Table, history: seq<Event>, e: Event, order: seq<Row>, k: Key)
    requires Distinct(order)
    ensures OverRows(t, history + [e], order, k)
         == if e.Records? && Home(e).key == k && Home(e) in order
            then Add(OverRows(t, history, order, k), One(e.sample)) else OverRows(t, history, order, k)
    decreases |order|
  {
    hide Add, One, Recorded, Home;
    if order != [] {
      var rest, r := order[..|order| - 1], order[|order| - 1];
      OneRow(t, history, e, rest, k);
      RecordedStep(t, history, e, r);
      assert order == rest + [r];
      assert r !in rest;
      if e.Records? {
        AddLaws(OverRows(t, history, rest, k), Recorded(t, history, r), One(e.sample));
        Swap(OverRows(t, history, rest, k), Recorded(t, history, r), One(e.sample));
      }
    }
  }

  lemma OverNothing(t: Table, order: seq<Row>, k: Key)
    ensures OverRows(t, [], order, k) == Own(t, order, k)
  {}

  lemma {:induction false} RowsHoldSamples(t: Table, history: seq<Event>, order: seq<Row>, k: Key)
    requires Distinct(order)
    requires forall e :: e in history && e.Records? && Home(e).key == k ==> Home(e) in order
    ensures OverRows(t, history, order, k) == Add(Own(t, order, k), Samples(history, k))
    decreases |history|
  {
    hide Add, One, OverRows, Own, Home, Distinct;
    if history == [] {
      OverNothing(t, order, k);
      AddLaws(Own(t, order, k), ZERO, ZERO);
    } else {
      var before, e := history[..|history| - 1], history[|history| - 1];
      assert history == before + [e];
      RowsHoldSamples(t, before, order, k);
      OneRow(t, before, e, order, k);
      if e.Records? {
        AddLaws(Own(t, order, k), Samples(before, k), One(e.sample));
      }
    }
  }

  lemma {:induction false} RecordedIsSomething(t: Table, history: seq<Event>, e: Event)
    requires e in history && e.Records?
    ensures Recorded(t, history, Home(e)) != ZERO
    decreases |history|
  {
    hide Add, One, ZERO, Home;
    var before, last := history[..|history| - 1], history[|history| - 1];
    assert history == before + [last];
    if last.Records? {
      SumIsZero(Recorded(t, before, Home(e)), One(last.sample));
      OneIsSomething(last.sample);
    }
    if e != last {
      RecordedIsSomething(t, before, e);
    }
  }

  /** Every process has committed what it holds. */
  ghost predicate CaughtUp(sys: System, now: nat) {
    forall r :: InWindow(r, now) ==> Stored(sys.rows, r) == Held(sys, r)
  }

  lemma {:induction false} SameRows(t: Table, u: Table, history: seq<Event>, order: seq<Row>, k: Key)
    requires forall r :: r in order ==> Stored(u, r) == Recorded(t, history, r)
    ensures Own(u, order, k) == OverRows(t, history, order, k)
    decreases |order|
  {
    hide Add, Recorded, Stored;
    if order != [] {
      assert forall r :: r in order[..|order| - 1] ==> r in order;
      SameRows(t, u, history, order[..|order| - 1], k);
      assert order[|order| - 1] in order;
    }
  }

  // ---------- At any time ----------

  /** What the rows of a key had recorded for them when their processes last committed a flush. */
  function SavedRowsOf(t: Table, history: seq<Event>, order: seq<Row>, k: Key): Bucket {
    if order == [] then ZERO
    else
      var rest, r := SavedRowsOf(t, history, order[..|order| - 1], k), order[|order| - 1];
      if r.key == k then Add(rest, Saved(t, history, r)) else rest
  }

  lemma {:induction false} OwnSaved(t: Table, u: Table, history: seq<Event>, order: seq<Row>, k: Key)
    requires forall r :: r in order ==> Stored(u, r) == Saved(t, history, r)
    ensures Own(u, order, k) == SavedRowsOf(t, history, order, k)
    decreases |order|
  {
    hide Add, Saved, Stored;
    if order != [] {
      assert forall r :: r in order[..|order| - 1] ==> r in order;
      OwnSaved(t, u, history, order[..|order| - 1], k);
      assert order[|order| - 1] in order;
    }
  }

  /** At every point of every run `Status` shows, for each category, exactly what each process had
      recorded by its last committed flush. */
  lemma StatusShowsSaved(t: Table, history: seq<Event>, order: seq<Row>, k: Key)
    requires Orderly(t, history) && Query(Run(t, history).rows, order, Clock(history)) && Shown(k.category)
    ensures Series(Run(t, history).rows, order, k) == SavedRowsOf(t, history, order, k)
  {
    hide Series, Own, SavedRowsOf, Orderly, Run, Saved, Stored;
    var rows := Run(t, history).rows;
    SeriesIsOwn(rows, order, k);
    forall r | r in order ensures Stored(rows, r) == Saved(t, history, r) {
      SavedRows(t, history, r);
    }
    OwnSaved(t, rows, history, order, k);
  }

  /** The processes have caught up exactly when, for every row in the window, what is saved is all
      that was recorded. */
  lemma CaughtUpIff(t: Table, history: seq<Event>)
    requires Orderly(t, history)
    ensures CaughtUp(Run(t, history), Clock(history))
       <==> forall r :: InWindow(r, Clock(history)) ==> Saved(t, history, r) == Recorded(t, history, r)
  {
    hide Orderly, Run, Saved, Stored, Held, Recorded;
    forall r | InWindow(r, Clock(history))
      ensures Stored(Run(t, history).rows, r) == Saved(t, history, r)
      ensures Held(Run(t, history), r) == Recorded(t, history, r)
    {
      SavedRows(t, history, r);
      ExactTotals(t, history, r);
    }
  }

  /** They have when the last event of every process is a committed flush. */
  lemma AllFinished(t: Table, history: seq<Event>)
    requires Orderly(t, history) && forall e :: e in history ==> Finished(history, e.instance)
    ensures CaughtUp(Run(t, history), Clock(history))
  {
    hide Orderly, Run, Saved, Recorded, CaughtUp;
    forall r | InWindow(r, Clock(history)) ensures Saved(t, history, r) == Recorded(t, history, r) {
      assert Finished(history, r.instance);
      FinishedSaved(t, history, r);
    }
    CaughtUpIff(t, history);
  }

  // ---------- Once every process has caught up ----------

  /** What a key is due: what the table began with and every sample any process recorded since. */
  function Due(t: Table, history: seq<Event>, order: seq<Row>, k: Key): Bucket {
    Add(Own(t, order, k), Samples(history, k))
  }

  /** Once every process has caught up, the rows of a key in the window add up to what it is due:
      each sample exactly once. */
  lemma OwnConserves(t: Table, history: seq<Event>, order: seq<Row>, k: Key)
    requires Orderly(t, history) && CaughtUp(Run(t, history), Clock(history))
    requires Query(Run(t, history).rows, order, Clock(history)) && k.bucket >= Clock(history) - RETENTION
    ensures Own(Run(t, history).rows, order, k) == Due(t, history, order, k)
  {
    hide Add, Own, OverRows, Recorded, Orderly, Run, SlotOf, One, Held, Stored, ZERO;
    var rows := Run(t, history).rows;
    forall r | r in order ensures Stored(rows, r) == Recorded(t, history, r) {
      ExactTotals(t, history, r);
    }
    SameRows(t, rows, history, order, k);
    forall e | e in history && e.Records? && Home(e).key == k ensures Home(e) in order {
      ExactTotals(t, history, Home(e));
      RecordedIsSomething(t, history, e);
      NoRow(rows, Home(e));
    }
    RowsHoldSamples(t, history, order, k);
  }

  /** As the gateway records and as the table begins: posts, stories and profiles only. */
  predicate Regular(t: Table, history: seq<Event>) {
    && (forall r :: r in t ==> Shown(r.key.category))
    && forall e :: e in history && e.Records? ==> Shown(e.sample.category)
  }

  predicate RegularKeys(sys: System) {
    && (forall r :: r in sys.rows ==> Shown(r.key.category))
    && forall i :: i in sys.stores ==> forall k :: k in sys.stores[i].pending ==> Shown(k.category)
  }

  lemma RegularStep(sys: System, e: Event)
    requires RegularKeys(sys) && (e.Records? ==> Shown(e.sample.category))
    ensures RegularKeys(After(sys, e))
  {
    hide SlotOf, Add, One, Shown;
  }

  lemma {:induction false} RegularRun(t: Table, history: seq<Event>)
    requires Regular(t, history)
    ensures RegularKeys(Run(t, history))
    decreases |history|
  {
    hide After, Shown;
    if history != [] {
      var before, e := history[..|history| - 1], history[|history| - 1];
      assert forall d :: d in before ==> d in history;
      RegularRun(t, before);
      RegularStep(Run(t, before), e);
    }
  }

  lemma NothingOwned(t: Table, order: seq<Row>, k: Key)
    requires forall r :: r in order ==> r.key != k
    ensures Own(t, order, k) == ZERO
  {
    if order != [] {
      assert forall r :: r in order[..|order| - 1] ==> r in order;
      assert order[|order| - 1] in order;
      NothingOwned(t, order[..|order| - 1], k);
    }
  }

  /** At every point of every run, whatever the clock and the transactions do, "all" is the sum of
      the three categories. */
  lemma AllIsAlwaysTheSum(t: Table, history: seq<Event>, order: seq<Row>, b: int)
    requires Regular(t, history) && forall r :: r in order ==> r in Run(t, history).rows
    ensures var rows := Run(t, history).rows; Series(rows, order, Key(b, All)) == ThreeSeries(rows, order, b)
  {
    hide Add, Series, Run;
    RegularRun(t, history);
    NothingOwned(Run(t, history).rows, order, Key(b, All));
    AllIsTheSum(Run(t, history).rows, order, b);
  }

  /** What a series is due: a category's own, or for "all" that of the three categories. */
  function DueSeries(t: Table, history: seq<Event>, order: seq<Row>, k: Key): Bucket {
    if k.category != All then Due(t, history, order, k)
    else Add(Add(Due(t, history, order, Key(k.bucket, Posts)), Due(t, history, order, Key(k.bucket, Stories))),
             Due(t, history, order, Key(k.bucket, Profile)))
  }

  /** Once every process has caught up, `Status` shows each sample in the window exactly once, in
      the series of its category and in "all". */
  lemma StatusConserves(t: Table, history: seq<Event>, order: seq<Row>, k: Key)
    requires Orderly(t, history) && CaughtUp(Run(t, history), Clock(history))
    requires Query(Run(t, history).rows, order, Clock(history)) && k.bucket >= Clock(history) - RETENTION
    requires Shown(k.category) || (k.category == All && Regular(t, history))
    ensures Series(Run(t, history).rows, order, k) == DueSeries(t, history, order, k)
  {
    hide Add, Series, Own, Orderly, Run, CaughtUp, Due, Regular;
    var rows := Run(t, history).rows;
    if k.category == All {
      AllIsAlwaysTheSum(t, history, order, k.bucket);
      CategoryConserves(t, history, order, Key(k.bucket, Posts));
      CategoryConserves(t, history, order, Key(k.bucket, Stories));
      CategoryConserves(t, history, order, Key(k.bucket, Profile));
    } else {
      CategoryConserves(t, history, order, k);
    }
  }

  lemma CategoryConserves(t: Table, history: seq<Event>, order: seq<Row>, k: Key)
    requires Orderly(t, history) && CaughtUp(Run(t, history), Clock(history))
    requires Query(Run(t, history).rows, order, Clock(history)) && k.bucket >= Clock(history) - RETENTION
    requires Shown(k.category)
    ensures Series(Run(t, history).rows, order, k) == Due(t, history, order, k)
  {
    hide Add, Series, Own, Orderly, Run, CaughtUp, Due;
    SeriesIsOwn(Run(t, history).rows, order, k);
    OwnConserves(t, history, order, k);
  }

  // ---------- What the counters say ----------

  /** A request of a series: recorded within the ten minutes of its bucket, under its category or,
      for "all", under any. */
  predicate InSeries(e: Event, k: Key) {
    && e.Records? && k.bucket % 600 == 0 && k.bucket <= e.now < k.bucket + 600
    && (k.category == All || e.sample.category == k.category)
  }

  /** The number of requests of a series that are of a kind. */
  function Requests(history: seq<Event>, k: Key, kind: Sample -> bool): nat {
    if history == [] then 0
    else
      var e := history[|history| - 1];
      Requests(history[..|history| - 1], k, kind) + if InSeries(e, k) && kind(e.sample) then 1 else 0
  }

  function InBin(i: int): Sample -> bool { (s: Sample) => s.bin == i }

  /** `total` has the requests of a series on top of `began`, each in its counter and its bin. */
  ghost predicate Tallied(history: seq<Event>, k: Key, began: Bucket, total: Bucket) {
    && total.outcomes[0] == began.outcomes[0] + Requests(history, k, Resolved)
    && total.outcomes[1] == began.outcomes[1] + Requests(history, k, Refused)
    && total.outcomes[2] == began.outcomes[2] + Requests(history, k, Broken)
    && forall i :: 0 <= i < 64 ==>
         total.latency[i] == began.latency[i] + Requests(history, k, InBin(i))
  }

  lemma HomeKey(e: Event, k: Key)
    requires e.Records? && k.category != All
    ensures Home(e).key == k <==> InSeries(e, k)
  {
    SlotIs(e.now);
  }

  lemma TallyOne(history: seq<Event>, e: Event, k: Key, total: Bucket)
    requires k.category != All && Tallied(history, k, ZERO, total)
    ensures Tallied(history + [e], k, ZERO, if InSeries(e, k) then Add(total, One(e.sample)) else total)
  {
    assert (history + [e])[..|history|] == history;
    if InSeries(e, k) {
      AddsOneMore(total, e.sample);
      hide One, Add, Resolved, Refused, Broken, InSeries;
    }
  }

  lemma {:induction false} SamplesTallied(history: seq<Event>, k: Key)
    requires k.category != All
    ensures Tallied(history, k, ZERO, Samples(history, k))
    decreases |history|
  {
    if history == [] {
    } else {
      var before, e := history[..|history| - 1], history[|history| - 1];
      assert history == before + [e];
      SamplesTallied(before, k);
      TallyOne(before, e, k, Samples(before, k));
      if e.Records? {
        HomeKey(e, k);
      }
    }
  }

  /** What a series had when the history began. */
  function BeganSeries(t: Table, order: seq<Row>, k: Key): Bucket {
    if k.category != All then Own(t, order, k)
    else Add(Add(Own(t, order, Key(k.bucket, Posts)), Own(t, order, Key(k.bucket, Stories))),
             Own(t, order, Key(k.bucket, Profile)))
  }

  lemma TallyDue(t: Table, history: seq<Event>, order: seq<Row>, k: Key)
    requires k.category != All
    ensures Tallied(history, k, Own(t, order, k), Due(t, history, order, k))
  {
    hide Own, Samples, Requests;
    SamplesTallied(history, k);
  }

  /** Every request is of one category. */
  lemma {:induction false} RequestsOfAll(history: seq<Event>, b: int, kind: Sample -> bool)
    requires forall e :: e in history && e.Records? ==> Shown(e.sample.category)
    ensures Requests(history, Key(b, All), kind)
         == Requests(history, Key(b, Posts), kind) + Requests(history, Key(b, Stories), kind)
            + Requests(history, Key(b, Profile), kind)
    decreases |history|
  {
    if history != [] {
      var before, e := history[..|history| - 1], history[|history| - 1];
      assert history == before + [e];
      RequestsOfAll(before, b, kind);
    }
  }

  lemma TallyAll(history: seq<Event>, b: int, a: seq<Bucket>, d: seq<Bucket>)
    requires |a| == |d| == 3 && forall e :: e in history && e.Records? ==> Shown(e.sample.category)
    requires Tallied(history, Key(b, Posts), a[0], d[0]) && Tallied(history, Key(b, Stories), a[1], d[1])
    requires Tallied(history, Key(b, Profile), a[2], d[2])
    ensures Tallied(history, Key(b, All), Add(Add(a[0], a[1]), a[2]), Add(Add(d[0], d[1]), d[2]))
  {
    hide Requests;
    RequestsOfAll(history, b, Resolved);
    RequestsOfAll(history, b, Refused);
    RequestsOfAll(history, b, Broken);
    forall i: nat | i < 64
      ensures Requests(history, Key(b, All), InBin(i))
           == Requests(history, Key(b, Posts), InBin(i))
              + Requests(history, Key(b, Stories), InBin(i))
              + Requests(history, Key(b, Profile), InBin(i))
    {
      RequestsOfAll(history, b, InBin(i));
    }
  }

  /** Once every process has caught up, the counters of a series are the numbers of requests recorded
      for it that were answered, refused for good and failed, and its histogram the number in each
      bin, on top of what the table began with. */
  lemma StatusTallies(t: Table, history: seq<Event>, order: seq<Row>, k: Key)
    requires Orderly(t, history) && CaughtUp(Run(t, history), Clock(history))
    requires Query(Run(t, history).rows, order, Clock(history)) && k.bucket >= Clock(history) - RETENTION
    requires Shown(k.category) || (k.category == All && Regular(t, history))
    ensures Tallied(history, k, BeganSeries(t, order, k), Series(Run(t, history).rows, order, k))
  {
    hide Add, Series, Own, Orderly, Run, CaughtUp, Due, Query, Tallied;
    StatusConserves(t, history, order, k);
    if k.category == All {
      var b := k.bucket;
      TallyDue(t, history, order, Key(b, Posts));
      TallyDue(t, history, order, Key(b, Stories));
      TallyDue(t, history, order, Key(b, Profile));
      TallyAll(history, b,
               [Own(t, order, Key(b, Posts)), Own(t, order, Key(b, Stories)), Own(t, order, Key(b, Profile))],
               [Due(t, history, order, Key(b, Posts)), Due(t, history, order, Key(b, Stories)),
                Due(t, history, order, Key(b, Profile))]);
    } else {
      TallyDue(t, history, order, k);
    }
  }

  lemma NoRow(t: Table, r: Row)
    requires Stored(t, r) != ZERO
    ensures r in t
  {}

  /** The order in which the rows arrive does not matter. */
  lemma {:induction false} OrderDoesNotMatter(t: Table, a: seq<Row>, b: seq<Row>, k: Key)
    requires multiset(a) == multiset(b)
    ensures Series(t, a, k) == Series(t, b, k)
    decreases |a|
  {
    hide Add, Stored, Shares, Times;
    if a == [] {
      assert |multiset(b)| == 0;
    } else {
      var front, r := a[..|a| - 1], a[|a| - 1];
      assert a == front + [r];
      assert r in multiset(b);
      var j :| 0 <= j < |b| && b[j] == r;
      var left, right := b[..j], b[j + 1..];
      assert b == left + [r] + right;
      Removed(front, r, left, right);
      OrderDoesNotMatter(t, front, left + right, k);
      hide Series;
      RowLast(t, left, r, right, k);
      SeriesLast(t, left + right, r, k);
      SeriesLast(t, front, r, k);
    }
  }

  lemma Removed<T>(front: seq<T>, x: T, left: seq<T>, right: seq<T>)
    requires multiset(front + [x]) == multiset(left + [x] + right)
    ensures multiset(front) == multiset(left + right)
  {
    assert multiset(front + [x]) == multiset(front) + multiset{x};
    assert multiset(left + [x] + right) == multiset(left) + multiset{x} + multiset(right);
    assert multiset(left + right) == multiset(left) + multiset(right);
    assert multiset(front) == multiset(front) + multiset{x} - multiset{x};
  }

  lemma SeriesLast(t: Table, rows: seq<Row>, r: Row, k: Key)
    ensures Series(t, rows + [r], k) == if r.key.bucket == k.bucket
      then Add(Series(t, rows, k), Times(Stored(t, r), Shares(r.key.category, k.category))) else Series(t, rows, k)
  {
    assert (rows + [r])[..|rows|] == rows;
  }

  lemma {:induction false} RowLast(t: Table, left: seq<Row>, r: Row, right: seq<Row>, k: Key)
    ensures Series(t, left + [r] + right, k) == Series(t, left + right + [r], k)
    decreases |right|
  {
    hide Add, Stored, Shares, Times, Series;
    if right == [] {
      assert left + [r] + right == left + right + [r];
    } else {
      var rest, q := right[..|right| - 1], right[|right| - 1];
      assert left + [r] + right == left + [r] + rest + [q];
      assert left + right == left + rest + [q];
      RowLast(t, left, r, rest, k);
      SeriesLast(t, left + [r] + rest, q, k);
      SeriesLast(t, left + rest, q, k);
      SeriesLast(t, left + right, r, k);
      SeriesLast(t, left + rest, r, k);
      Swap(Series(t, left + rest, k), Times(Stored(t, q), Shares(q.key.category, k.category)),
           Times(Stored(t, r), Shares(r.key.category, k.category)));
    }
  }
}
