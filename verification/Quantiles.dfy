/** The quantiles `Status` of server/storage.go reads off a histogram of latencies. */
module Quantiles {
  import opened Prelude
  import opened Metrics
  import opened MetricRuns
  import Status

  function Sum(s: seq<nat>): nat { if s == [] then 0 else Sum(s[..|s| - 1]) + s[|s| - 1] }

  lemma SumStep(s: seq<nat>, i: nat)
    requires i < |s|
    ensures Sum(s[..i + 1]) == Sum(s[..i]) + s[i]
  {
    assert s[..i + 1][..i] == s[..i];
  }

  function Ceil(x: real): int { -(-x).Floor }

  /** The rank asked for, among `total` values. */
  function Rank(q: real, total: nat): int { Ceil(q * total as real) }

  lemma RankInRange(q: real, total: nat)
    requires 0.0 < q <= 1.0 && total > 0
    ensures 1 <= Rank(q, total) <= total
  {
    var x := q * total as real;
    assert 0.0 < x;
    assert x <= total as real by {
      assert (1.0 - q) * total as real >= 0.0;
    }
    assert -x < 0.0 && -x >= -(total as real);
  }

  /** `quantile`: the bin found, or nothing if the loop runs out. */
  method Quantile(latency: seq<nat>, q: real) returns (bin: Option<nat>)
    requires 0.0 < q <= 1.0
    ensures Sum(latency) > 0 ==> bin.Some?
    ensures bin.Some? && Sum(latency) > 0 ==>
      bin.value < |latency| && Sum(latency[..bin.value]) < Rank(q, Sum(latency)) <= Sum(latency[..bin.value + 1])
    ensures Sum(latency) == 0 ==> bin == if latency == [] then None else Some(0)
  {
    var total := 0;
    for i := 0 to |latency|
      invariant total == Sum(latency[..i])
    {
      SumStep(latency, i);
      total := total + latency[i];
    }
    assert latency[..|latency|] == latency;
    var rank := Rank(q, total);
    if total > 0 {
      RankInRange(q, total);
    }
    for i := 0 to |latency|
      invariant rank == Rank(q, total) - Sum(latency[..i])
      invariant if total > 0 then rank > 0 else i == 0
    {
      SumStep(latency, i);
      rank := rank - latency[i];
      if rank <= 0 {
        if total == 0 {
          Empty(latency, i);
        }
        return Some(i);
      }
    }
    return None;
  }

  lemma Empty(s: seq<nat>, i: nat)
    requires Sum(s) == 0 && i < |s|
    ensures s[i] == 0 && Sum(s[..i]) == 0
    decreases |s|
  {
    if i + 1 == |s| {
    } else {
      assert s[..|s| - 1][..i] == s[..i];
      Empty(s[..|s| - 1], i);
    }
  }

  // ---------- Ranks ----------

  /** `h` counts the values of `xs`. */
  ghost predicate Histogram(h: seq<nat>, xs: seq<nat>) {
    (forall x :: x in xs ==> x < |h|) && forall i :: 0 <= i < |h| ==> h[i] == multiset(xs)[i]
  }

  ghost predicate Sorted(xs: seq<nat>) { forall i, j :: 0 <= i <= j < |xs| ==> xs[i] <= xs[j] }

  /** Adding histograms is the histogram of both samples. */
  lemma HistogramOfBoth(a: seq<nat>, xs: seq<nat>, b: seq<nat>, ys: seq<nat>)
    requires |a| == |b| && Histogram(a, xs) && Histogram(b, ys)
    ensures Histogram(AddAll(a, b), xs + ys)
  {
    assert multiset(xs + ys) == multiset(xs) + multiset(ys);
    forall x | x in xs + ys ensures x < |a| {
      assert x in xs || x in ys;
    }
  }

  function Below(xs: seq<nat>, v: nat): (n: nat)
    ensures n <= |xs|
  {
    if xs == [] then 0 else Below(xs[..|xs| - 1], v) + (if xs[|xs| - 1] < v then 1 else 0)
  }

  lemma {:induction false} BelowNext(xs: seq<nat>, v: nat)
    ensures Below(xs, v + 1) == Below(xs, v) + multiset(xs)[v]
  {
    if xs != [] {
      var front, x := xs[..|xs| - 1], xs[|xs| - 1];
      BelowNext(front, v);
      assert xs == front + [x];
      assert multiset(xs) == multiset(front) + multiset{x};
    }
  }

  lemma NoneBelowZero(xs: seq<nat>)
    ensures Below(xs, 0) == 0
  {}

  /** The first `v` bins of a histogram count the values below `v`. */
  lemma {:induction false} SumIsBelow(h: seq<nat>, xs: seq<nat>, v: nat)
    requires Histogram(h, xs) && v <= |h|
    ensures Sum(h[..v]) == Below(xs, v)
  {
    if v == 0 {
      NoneBelowZero(xs);
    } else {
      SumIsBelow(h, xs, v - 1);
      SumStep(h, v - 1);
      BelowNext(xs, v - 1);
    }
  }

  /** In a sorted sample the values below `v` come first. */
  lemma {:induction false} SortedBelow(xs: seq<nat>, v: nat, i: nat)
    requires Sorted(xs) && i < |xs|
    ensures xs[i] < v <==> i < Below(xs, v)
    decreases |xs|
  {
    var front, x := xs[..|xs| - 1], xs[|xs| - 1];
    if i == |xs| - 1 {
      if x < v {
        AllBelow(xs, v);
      }
    } else {
      SortedBelow(front, v, i);
      if x < v {
        assert xs[i] <= x;
        AllBelow(xs, v);
      }
    }
  }

  lemma AllBelow(xs: seq<nat>, v: nat)
    requires forall i :: 0 <= i < |xs| ==> xs[i] < v
    ensures Below(xs, v) == |xs|
  {}

  lemma {:induction false} HistogramTotal(h: seq<nat>, xs: seq<nat>)
    requires Histogram(h, xs)
    ensures Sum(h) == |xs|
  {
    SumIsBelow(h, xs, |h|);
    assert h[..|h|] == h;
    assert forall i :: 0 <= i < |xs| ==> xs[i] in xs;
    AllBelow(xs, |h|);
  }

  /** The bin in which the running count reaches `rank` is the `rank`-th smallest value, whatever
      the order the values came in. */
  lemma BinIsRanked(h: seq<nat>, xs: seq<nat>, sorted: seq<nat>, rank: int, bin: nat)
    requires Histogram(h, xs) && multiset(sorted) == multiset(xs) && Sorted(sorted)
    requires 1 <= rank <= |xs| && bin < |h|
    ensures |sorted| == |xs|
    ensures Sum(h[..bin]) < rank <= Sum(h[..bin + 1]) <==> sorted[rank - 1] == bin
  {
    assert |sorted| == |multiset(sorted)| == |xs|;
    assert Histogram(h, sorted) by {
      forall x | x in sorted ensures x < |h| {
        assert x in multiset(sorted) && x in multiset(xs);
        assert x in xs;
      }
    }
    SumIsBelow(h, sorted, bin);
    SumIsBelow(h, sorted, bin + 1);
    SortedBelow(sorted, bin, rank - 1);
    SortedBelow(sorted, bin + 1, rank - 1);
  }

  // ---------- Quantiles of what was recorded ----------

  /** The latency bins of the samples recorded for a key. */
  function Bins(history: seq<Event>, k: Key): seq<nat> {
    if history == [] then []
    else
      var e, before := history[|history| - 1], Bins(history[..|history| - 1], k);
      if e.Records? && Home(e).key == k then before + [e.sample.bin] else before
  }

  lemma OneHistogram(s: Sample)
    ensures Histogram(One(s).latency, [s.bin])
  {}

  lemma {:induction false} SamplesHistogram(history: seq<Event>, k: Key)
    ensures Histogram(Status.Samples(history, k).latency, Bins(history, k))
    decreases |history|
  {
    hide One, AddAll, Home, Histogram, ZERO;
    if history == [] {
      NoHistogram();
    } else {
      var before, e := history[..|history| - 1], history[|history| - 1];
      SamplesHistogram(before, k);
      if e.Records? {
        OneHistogram(e.sample);
        HistogramOfBoth(Status.Samples(before, k).latency, Bins(before, k), One(e.sample).latency, [e.sample.bin]);
      }
    }
  }

  lemma NoHistogram()
    ensures Histogram(ZERO.latency, [])
  {}

  /** `values` gives, for each category, the latency bins the table began with. */
  ghost predicate Began(t: Table, order: seq<Row>, bucket: int, values: Category -> seq<nat>) {
    forall c :: Status.Shown(c) ==> Histogram(Status.Own(t, order, Key(bucket, c)).latency, values(c))
  }

  /** The latency bins a category is due. */
  function DueBins(history: seq<Event>, bucket: int, c: Category, values: Category -> seq<nat>): seq<nat> {
    values(c) + Bins(history, Key(bucket, c))
  }

  /** The latency bins a series is due: for "all", those of the three categories together. */
  function SeriesBins(history: seq<Event>, k: Key, values: Category -> seq<nat>): seq<nat> {
    if k.category != All then DueBins(history, k.bucket, k.category, values)
    else DueBins(history, k.bucket, Posts, values) + DueBins(history, k.bucket, Stories, values)
         + DueBins(history, k.bucket, Profile, values)
  }

  lemma DueHistogram(
      t: Table, history: seq<Event>, order: seq<Row>, bucket: int, c: Category, values: Category -> seq<nat>)
    requires Began(t, order, bucket, values) && Status.Shown(c)
    ensures Histogram(Status.Due(t, history, order, Key(bucket, c)).latency, DueBins(history, bucket, c, values))
  {
    hide Histogram, AddAll, Status.Own, Status.Samples, Bins;
    var k := Key(bucket, c);
    SamplesHistogram(history, k);
    HistogramOfBoth(Status.Own(t, order, k).latency, values(c), Status.Samples(history, k).latency, Bins(history, k));
  }

  lemma SeriesHistogram(t: Table, history: seq<Event>, order: seq<Row>, k: Key, values: Category -> seq<nat>)
    requires Began(t, order, k.bucket, values) && (Status.Shown(k.category) || k.category == All)
    ensures Histogram(Status.DueSeries(t, history, order, k).latency, SeriesBins(history, k, values))
  {
    hide Histogram, AddAll, Status.Due, DueBins, Began;
    if k.category == All {
      var b := k.bucket;
      var p, s, q := Status.Due(t, history, order, Key(b, Posts)), Status.Due(t, history, order, Key(b, Stories)),
                     Status.Due(t, history, order, Key(b, Profile));
      DueHistogram(t, history, order, b, Posts, values);
      DueHistogram(t, history, order, b, Stories, values);
      DueHistogram(t, history, order, b, Profile, values);
      HistogramOfBoth(p.latency, DueBins(history, b, Posts, values), s.latency, DueBins(history, b, Stories, values));
      HistogramOfBoth(Add(p, s).latency, DueBins(history, b, Posts, values) + DueBins(history, b, Stories, values),
                      q.latency, DueBins(history, b, Profile, values));
    } else {
      DueHistogram(t, history, order, k.bucket, k.category, values);
    }
  }

  /** The quantile `Status` reads for a series, "all" included, once every process has caught up, is
      the one of all the samples the series is due, wherever they were recorded. */
  lemma QuantileOfAll(
      t: Table, history: seq<Event>, order: seq<Row>, k: Key, values: Category -> seq<nat>,
      q: real, bin: nat, sorted: seq<nat>)
    requires Orderly(t, history) && Status.CaughtUp(Run(t, history), Clock(history))
    requires Status.Query(Run(t, history).rows, order, Clock(history)) && k.bucket >= Clock(history) - RETENTION
    requires Status.Shown(k.category) || (k.category == All && Status.Regular(t, history))
    requires Began(t, order, k.bucket, values) && SeriesBins(history, k, values) != []
    requires 0.0 < q <= 1.0 && bin < BINS
    requires var h := Status.Series(Run(t, history).rows, order, k).latency;
             Sum(h[..bin]) < Rank(q, Sum(h)) <= Sum(h[..bin + 1])
    requires multiset(sorted) == multiset(SeriesBins(history, k, values)) && Sorted(sorted)
    ensures |sorted| == |SeriesBins(history, k, values)| && 1 <= Rank(q, |sorted|) <= |sorted|
    ensures sorted[Rank(q, |sorted|) - 1] == bin
  {
    hide Add, Status.Series, Status.DueSeries, Run, Orderly, Status.CaughtUp, Status.Regular, Status.Query;
    hide Rank, Histogram, Sum, SeriesBins, Began;
    Status.StatusConserves(t, history, order, k);
    SeriesHistogram(t, history, order, k, values);
    var h, bins := Status.Series(Run(t, history).rows, order, k).latency, SeriesBins(history, k, values);
    HistogramTotal(h, bins);
    RankInRange(q, |bins|);
    BinIsRanked(h, bins, sorted, Rank(q, Sum(h)), bin);
  }

  // ---------- Bins ----------

  function Power(n: nat): (p: real)
    ensures p >= 1.0
  {
    if n == 0 then 1.0 else 2.0 * Power(n - 1)
  }

  function Square(x: real): real { x * x }

  function Fourth(x: real): real { Square(Square(x)) }

  /** The first bin from `i` on whose upper bound, to the fourth power, is at least `y`. */
  function BinFrom(y: real, i: nat): (bin: nat)
    requires i < BINS
    ensures i <= bin < BINS
    ensures bin < BINS - 1 ==> y <= Power(bin)
    ensures bin > i ==> Power(bin - 1) < y
    decreases BINS - i
  {
    if i == BINS - 1 || y <= Power(i) then i else BinFrom(y, i + 1)
  }

  /** The bin of a latency of `ms` milliseconds: bin `i` ends at the `i`-th power of the fourth root
      of two, the last one has no end. */
  function Bin(ms: real): (bin: nat)
    ensures bin < BINS
  {
    BinFrom(Fourth(if ms > 1.0 then ms else 1.0), 0)
  }

  lemma SquareLess(a: real, b: real)
    requires 0.0 <= a < b
    ensures 0.0 <= Square(a) < Square(b)
  {
    var d := b - a;
    assert b * b == a * a + d * (a + b);
    Positive(d, a + b);
    if a > 0.0 {
      Positive(a, a);
    }
  }

  lemma Positive(a: real, b: real)
    requires a > 0.0 && b > 0.0
    ensures a * b > 0.0
  {}

  lemma EighthLess(a: real, b: real)
    requires 0.0 <= a < b
    ensures Square(Fourth(a)) < Square(Fourth(b))
  {
    SquareLess(a, b);
    SquareLess(Square(a), Square(b));
    SquareLess(Fourth(a), Fourth(b));
  }

  lemma SquareScaled(k: real, x: real)
    ensures Square(k * x) == Square(k) * Square(x)
  {}

  lemma FourthScaled(k: real, x: real)
    ensures Fourth(k * x) == Fourth(k) * Fourth(x)
  {
    hide Square;
    SquareScaled(k, x);
    SquareScaled(Square(k), Square(x));
  }

  lemma EighthScaled(k: real, x: real)
    ensures Square(Fourth(k * x)) == Square(Fourth(k)) * Square(Fourth(x))
  {
    hide Square, Fourth;
    FourthScaled(k, x);
    var both := Fourth(k) * Fourth(x);
    SquareScaled(Fourth(k), Fourth(x));
    assert Fourth(k * x) == both;
  }

  lemma PowerSquared(n: nat)
    ensures Square(Power(n)) == Power(2 * n)
  {
    if n > 0 {
      PowerSquared(n - 1);
      SquareScaled(2.0, Power(n - 1));
      assert Power(2 * n) == 2.0 * Power(2 * n - 1) && Power(2 * n - 1) == 2.0 * Power(2 * n - 2);
    }
  }

  /** The centre of bin `i` is the eighth root of two to the power 2i - 1. */
  predicate Centre(c: real, bin: nat) {
    c > 0.0 && Square(Fourth(c)) == if bin == 0 then 0.5 else Power(2 * bin - 1)
  }

  /** A bin's geometric centre is within 10% of every latency in it, the first and the last bin
      aside. */
  lemma CentreIsNear(ms: real, c: real)
    requires 0 < Bin(ms) < BINS - 1 && Centre(c, Bin(ms))
    ensures 0.9 * ms < c < 1.1 * ms
  {
    hide Fourth, Square;
    var bin := Bin(ms);
    BinBounds(ms);
    CentreNotAbove(ms, c, bin);
    CentreNotBelow(ms, c, bin);
  }

  lemma BinBounds(ms: real)
    requires 0 < Bin(ms) < BINS - 1
    ensures ms > 1.0 && Power(Bin(ms) - 1) < Fourth(ms) <= Power(Bin(ms))
  {}

  lemma CentreNotAbove(ms: real, c: real, bin: nat)
    requires ms > 1.0 && bin > 0 && Power(bin - 1) < Fourth(ms) && Centre(c, bin)
    ensures c < 1.1 * ms
  {
    hide Fourth, Square;
    var eighth := Square(Fourth(ms));
    assert Power(2 * bin - 2) < eighth by {
      SquareLess(Power(bin - 1), Fourth(ms));
      PowerSquared(bin - 1);
    }
    assert Power(2 * bin - 1) < Square(Fourth(1.1)) * eighth by {
      EighthOfElevenTenths();
      Scale(2.0, Square(Fourth(1.1)), Power(2 * bin - 2), eighth);
    }
    EighthScaled(1.1, ms);
    if c > 1.1 * ms {
      EighthLess(1.1 * ms, c);
    }
  }

  lemma CentreNotBelow(ms: real, c: real, bin: nat)
    requires ms > 1.0 && bin > 0 && Fourth(ms) <= Power(bin) && Centre(c, bin)
    ensures 0.9 * ms < c
  {
    hide Fourth, Square;
    var eighth := Square(Fourth(ms));
    assert 0.0 < eighth <= Power(2 * bin) by {
      FourthPositive(ms);
      SquareLess(0.0, Fourth(ms));
      if Fourth(ms) < Power(bin) {
        SquareLess(Fourth(ms), Power(bin));
      }
      PowerSquared(bin);
    }
    assert Square(Fourth(0.9)) * eighth < Power(2 * bin - 1) by {
      EighthOfNineTenths();
      Scale(Square(Fourth(0.9)), 0.5, eighth, Power(2 * bin));
      assert Power(2 * bin) == 2.0 * Power(2 * bin - 1);
    }
    EighthScaled(0.9, ms);
    if c < 0.9 * ms {
      EighthLess(c, 0.9 * ms);
    }
  }

  lemma FourthPositive(x: real)
    requires x > 0.0
    ensures Fourth(x) > 0.0
  {
    SquareLess(0.0, x);
    SquareLess(0.0, Square(x));
  }

  lemma Scale(a: real, b: real, x: real, y: real)
    requires 0.0 <= a < b && 0.0 < x <= y
    ensures a * x < b * y
  {
    assert b * y == a * x + (b - a) * y + a * (y - x);
    Positive(b - a, y);
    if a > 0.0 && y > x {
      Positive(a, y - x);
    }
  }

  lemma EighthOfElevenTenths()
    ensures Square(Fourth(1.1)) > 2.0
  {
    assert Square(1.1) == 1.21 && Square(1.21) == 1.4641;
    assert Square(1.4641) > 2.0;
  }

  lemma EighthOfNineTenths()
    ensures 0.0 <= Square(Fourth(0.9)) < 0.5
  {
    assert Square(0.9) == 0.81 && Square(0.81) == 0.6561;
    assert Square(0.6561) < 0.5;
  }

  lemma {:induction false} LastBin(y: real, i: nat)
    requires i < BINS && y > Power(BINS - 2)
    ensures BinFrom(y, i) == BINS - 1
    decreases BINS - i
  {
    if i < BINS - 1 {
      PowerGrows(i, BINS - 2);
      LastBin(y, i + 1);
    }
  }

  lemma PowerGrows(a: nat, b: nat)
    requires a <= b
    ensures Power(a) <= Power(b)
    decreases b - a
  {
    if a < b {
      PowerGrows(a, b - 1);
    }
  }

  lemma Powers()
    ensures Power(62) == 4611686018427387904.0 && Power(125) == 2.0 * Square(Power(62))
  {
    assert Power(5) == 32.0;
    PowerSquared(5);
    assert Power(15) == 32.0 * Power(10);
    PowerSquared(15);
    PowerSquared(31);
    PowerSquared(62);
  }

  /** The first and the last bin have no such centre: they hold latencies far from it. */
  lemma EdgeBinsAreWide(first: real, last: real)
    requires Centre(first, 0) && Centre(last, BINS - 1)
    ensures Bin(0.1) == 0 && first > 1.1 * 0.1
    ensures Bin(100000.0) == BINS - 1 && last < 0.9 * 100000.0
  {
    hide Fourth, Square;
    Powers();
    FirstBin();
    LastBin(Fourth(100000.0), 0);
    Eighths();
    if first < 0.5 {
      EighthLess(first, 0.5);
    }
    if last > 80000.0 {
      EighthLess(80000.0, last);
    }
  }

  lemma FirstBin()
    ensures Bin(0.1) == 0 && Fourth(100000.0) > 4611686018427387904.0
  {
    assert Square(1.0) == 1.0 && Fourth(1.0) == 1.0;
    assert Square(100000.0) == 10000000000.0;
  }

  lemma Eighths()
    ensures Square(Fourth(0.5)) < 0.5
    ensures Square(Fourth(80000.0)) > 2.0 * Square(4611686018427387904.0)
  {
    assert Square(0.5) == 0.25 && Square(0.25) == 0.0625 && Square(0.0625) < 0.5;
    assert Square(80000.0) == 6400000000.0 && Square(6400000000.0) == 40960000000000000000.0;
  }
}
