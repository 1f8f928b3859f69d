/** The metrics of server/storage.go: running totals kept by each process, written whole through
    transactions that may fail. Times are Unix seconds. */
module Metrics {
  import opened Errors

  const BUCKET_SECONDS := 600
  const RETENTION := 86400
  const BINS := 64

  /** `All` and `Other` are not recorded by the gateway, but the table may hold them. */
  datatype Category = Posts | Stories | Profile | All | Other(name: string)

  // ---------- Totals ----------

  /** `metricBucket`. */
  datatype Counts = Counts(outcomes: seq<nat>, latency: seq<nat>)

  predicate Sized(b: Counts) { |b.outcomes| == 3 && |b.latency| == BINS }

  function Zeros(n: nat): (r: seq<nat>)
    ensures |r| == n && forall i :: 0 <= i < n ==> r[i] == 0
  {
    seq(n, _ => 0)
  }

  type Bucket = b: Counts | Sized(b) witness Counts(Zeros(3), Zeros(BINS))

  const ZERO: Bucket := Counts(Zeros(3), Zeros(BINS))

  function AddAll(a: seq<nat>, b: seq<nat>): (r: seq<nat>)
    requires |a| == |b|
    ensures |r| == |a| && forall i :: 0 <= i < |r| ==> r[i] == a[i] + b[i]
  {
    seq(|a|, i requires 0 <= i < |a| && |a| == |b| => a[i] + b[i])
  }

  function Add(a: Bucket, b: Bucket): Bucket {
    Counts(AddAll(a.outcomes, b.outcomes), AddAll(a.latency, b.latency))
  }

  lemma AddLaws(a: Bucket, b: Bucket, c: Bucket)
    ensures Add(a, b) == Add(b, a) && Add(Add(a, b), c) == Add(a, Add(b, c)) && Add(a, ZERO) == a == Add(ZERO, a)
  {
    assert AddAll(a.outcomes, b.outcomes) == AddAll(b.outcomes, a.outcomes);
    assert AddAll(a.latency, b.latency) == AddAll(b.latency, a.latency);
    assert Add(Add(a, b), c).outcomes == Add(a, Add(b, c)).outcomes;
    assert Add(Add(a, b), c).latency == Add(a, Add(b, c)).latency;
    assert Add(a, ZERO).outcomes == a.outcomes == Add(ZERO, a).outcomes;
    assert Add(a, ZERO).latency == a.latency == Add(ZERO, a).latency;
  }

  /** Only nothing can be added without a trace. */
  lemma OnlyZeroVanishes(a: Bucket, b: Bucket)
    ensures Add(a, b) == b <==> a == ZERO
  {
    AddLaws(a, b, ZERO);
    if Add(a, b) == b {
      forall i | 0 <= i < 3 ensures a.outcomes[i] == 0 {
        assert Add(a, b).outcomes[i] == b.outcomes[i];
      }
      forall i | 0 <= i < BINS ensures a.latency[i] == 0 {
        assert Add(a, b).latency[i] == b.latency[i];
      }
      assert a.outcomes == ZERO.outcomes && a.latency == ZERO.latency;
    }
  }

  /** One request: how it was answered, and its latency bin. */
  datatype Request = Request(category: Category, status: int, code: Code, bin: int)

  predicate Countable(s: Request) { 0 <= s.bin < BINS }

  type Sample = s: Request | Countable(s) witness Request(Posts, 200, Internal, 0)

  /** The counter of a request. */
  function Outcome(status: int, code: Code): (i: nat)
    ensures i < 3
  {
    if status < 400 then 0 else if IsTransient(code) then 2 else 1
  }

  function One(s: Sample): Bucket { Counts(Zeros(3)[Outcome(s.status, s.code) := 1], Zeros(BINS)[s.bin := 1]) }

  predicate Resolved(s: Sample) { s.status < 400 }

  /** Refused for good: asking again will not help. */
  predicate Refused(s: Sample) {
    s.status >= 400 && s.code in {NotFound, MediaNotFound, GeoBlocked, Restricted}
  }

  predicate Broken(s: Sample) {
    s.status >= 400 && s.code !in {NotFound, MediaNotFound, GeoBlocked, Restricted}
  }

  /** `after` is `before` with one more request: in the counter of its kind and in its bin. */
  predicate OneMore(before: Bucket, after: Bucket, s: Sample) {
    && after.outcomes[0] == before.outcomes[0] + (if Resolved(s) then 1 else 0)
    && after.outcomes[1] == before.outcomes[1] + (if Refused(s) then 1 else 0)
    && after.outcomes[2] == before.outcomes[2] + (if Broken(s) then 1 else 0)
    && forall i :: 0 <= i < 64 ==> after.latency[i] == before.latency[i] + (if i == s.bin then 1 else 0)
  }

  lemma AddsOneMore(b: Bucket, s: Sample)
    ensures OneMore(b, Add(b, One(s)), s)
  {}

  // ---------- One process ----------

  datatype Key = Key(bucket: int, category: Category)
  datatype Row = Row(key: Key, instance: string)

  /** The `metric_buckets` table. */
  type Table = map<Row, Bucket>

  /** The totals a process holds: those of its current bucket and any it could not write yet. */
  datatype Store = Store(bucket: int, pending: map<Key, Bucket>)

  const NEW := Store(0, map[])

  function SlotOf(now: nat): int { now / BUCKET_SECONDS * BUCKET_SECONDS }

  function Get(t: map<Key, Bucket>, k: Key): Bucket { if k in t then t[k] else ZERO }

  function Stored(t: Table, r: Row): Bucket { if r in t then t[r] else ZERO }

  function RowsOf(pending: map<Key, Bucket>, instance: string): set<Row> { set k | k in pending :: Row(k, instance) }

  /** The table after a committed flush: every pending total replaces its row, old rows go. */
  function Written(t: Table, pending: map<Key, Bucket>, instance: string, now: nat): Table {
    map r | r in t.Keys + RowsOf(pending, instance) && r.key.bucket >= now - RETENTION ::
      if r.instance == instance && r.key in pending then pending[r.key] else t[r]
  }

  function Open(pending: map<Key, Bucket>, bucket: int): map<Key, Bucket> {
    map k | k in pending && k.bucket == bucket :: pending[k]
  }

  datatype Flushed = Flushed(rows: Table, store: Store, failed: bool)

  /** `flushMetrics`; `commits` is the fate of its transaction. */
  function Flush(t: Table, s: Store, instance: string, now: nat, commits: bool): Flushed {
    if s.pending == map[] then Flushed(t, Store(SlotOf(now), s.pending), false)
    else if !commits then Flushed(t, Store(SlotOf(now), s.pending), true)
    else Flushed(Written(t, s.pending, instance, now), Store(SlotOf(now), Open(s.pending, SlotOf(now))), false)
  }

  /** The flush a `RecordMetric` begins with when the bucket has changed. */
  function Turn(t: Table, s: Store, instance: string, now: nat, commits: bool): Flushed {
    if SlotOf(now) != s.bucket then Flush(t, s, instance, now, commits) else Flushed(t, s, false)
  }

  function Plus(t: map<Key, Bucket>, k: Key, b: Bucket): map<Key, Bucket> { t[k := Add(Get(t, k), b)] }

  /** Counting a sample in the current bucket. */
  function Count(s: Store, sample: Sample): Store {
    Store(s.bucket, Plus(s.pending, Key(s.bucket, sample.category), One(sample)))
  }

  /** A bucket begins at a multiple of ten minutes, and holds those ten minutes. */
  lemma SlotIs(now: nat)
    ensures SlotOf(now) == now / 600 * 600 && SlotOf(now) % 600 == 0 && SlotOf(now) <= now < SlotOf(now) + 600
  {}

  /** What a flush does: a day's rows stay, those of this process holding its totals, and only the
      totals of the current bucket are still needed; a failed one changes nothing. */
  predicate FlushedTo(
      rows: Table, pending: map<Key, Bucket>, instance: string, now: nat, failed: bool,
      rows': Table, pending': map<Key, Bucket>)
  {
    if failed || pending == map[] then rows' == rows && pending' == pending
    else
      && rows'.Keys == (set r | r in rows.Keys + RowsOf(pending, instance) && r.key.bucket >= now - 86400)
      && (forall r :: r in rows' ==>
            rows'[r] == if r in RowsOf(pending, instance) then pending[r.key] else rows[r])
      && pending'.Keys == (set k | k in pending && k.bucket == now / 600 * 600)
      && forall k :: k in pending' ==> pending'[k] == pending[k]
  }

  lemma FlushLeaves(t: Table, s: Store, instance: string, now: nat, commits: bool)
    ensures var f := Flush(t, s, instance, now, commits);
            && f.store.bucket == now / 600 * 600 && (f.failed <==> s.pending != map[] && !commits)
            && FlushedTo(t, s.pending, instance, now, f.failed, f.rows, f.store.pending)
  {
    SlotIs(now);
    hide SlotOf;
  }

  /** The flush before a sample keeps the totals of the bucket the sample goes to. */
  lemma TurnTotals(t: Table, s: Store, instance: string, now: nat, commits: bool, c: Category)
    ensures var turn := Turn(t, s, instance, now, commits).store;
            && turn.bucket == SlotOf(now)
            && Get(turn.pending, Key(SlotOf(now), c)) == Get(s.pending, Key(SlotOf(now), c))
            && forall k :: k in turn.pending ==> k in s.pending && turn.pending[k] == s.pending[k]
  {
    hide SlotOf, Written, ZERO;
  }

  /** What recording does to the running totals of a process. */
  predicate CountedOnce(before: map<Key, Bucket>, after: map<Key, Bucket>, k: Key, s: Sample) {
    && k in after && OneMore(Get(before, k), after[k], s)
    && forall other :: other in after && other != k ==> other in before && after[other] == before[other]
  }

  lemma CountsOnce(t: Table, s: Store, instance: string, now: nat, commits: bool, sample: Sample)
    ensures var turn := Turn(t, s, instance, now, commits).store;
            && Count(turn, sample).bucket == now / 600 * 600
            && CountedOnce(s.pending, Count(turn, sample).pending, Key(now / 600 * 600, sample.category), sample)
  {
    TurnTotals(t, s, instance, now, commits, sample.category);
    SlotIs(now);
    hide Turn, SlotOf, OneMore, Add, One;
    AddsOneMore(Get(s.pending, Key(SlotOf(now), sample.category)), sample);
  }

  /** `RecordMetric`: the flush that may be due, then one more sample. */
  function Record(t: Table, s: Store, instance: string, now: nat, commits: bool, sample: Sample): Flushed {
    var turn := Turn(t, s, instance, now, commits);
    turn.(store := Count(turn.store, sample))
  }

  class Database {
    var rows: Table

    constructor ()
      ensures rows == map[]
    {
      rows := map[];
    }
  }

  class LocalStore {
    const db: Database
    const instance: string
    var bucket: int
    var pending: map<Key, Bucket>

    constructor (db: Database, instance: string)
      ensures this.db == db && this.instance == instance && Model() == NEW
    {
      this.db, this.instance, bucket, pending := db, instance, 0, map[];
    }

    ghost function Model(): Store
      reads this
    {
      Store(bucket, pending)
    }

    /** `flushMetrics`. */
    method FlushMetrics(now: nat, commits: bool) returns (failed: bool)
      modifies this, db
      ensures Flushed(db.rows, Model(), failed) == Flush(old(db.rows), old(Model()), instance, now, commits)
      ensures bucket == now / 600 * 600 && (failed <==> old(pending) != map[] && !commits)
      ensures FlushedTo(old(db.rows), old(pending), instance, now, failed, db.rows, pending)
    {
      hide FlushedTo;
      FlushLeaves(db.rows, Model(), instance, now, commits);
      bucket := SlotOf(now);
      if pending == map[] {
        return false;
      }
      var transaction := db.rows;
      var left := pending.Keys;
      while left != {}
        invariant left <= pending.Keys
        invariant forall r :: r in transaction <==>
          r in db.rows || (r.instance == instance && r.key in pending.Keys - left)
        invariant forall r :: r in transaction ==>
          transaction[r]
          == if r.instance == instance && r.key in pending.Keys - left then pending[r.key] else db.rows[r]
      {
        var k :| k in left;
        transaction := transaction[Row(k, instance) := pending[k]];
        left := left - {k};
      }
      transaction := map r | r in transaction && r.key.bucket >= now - RETENTION :: transaction[r];
      if !commits {
        return true;
      }
      assert transaction == Written(db.rows, pending, instance, now);
      db.rows := transaction;
      pending := map k | k in pending && k.bucket == bucket :: pending[k];
      assert pending == Open(old(pending), bucket);
      return false;
    }

    /** `RecordMetric`. */
    method RecordMetric(now: nat, category: Category, status: int, code: Code, bin: nat, commits: bool)
      returns (failed: bool)
      requires bin < BINS
      modifies this, db
      ensures Flushed(db.rows, Model(), failed)
           == Record(old(db.rows), old(Model()), instance, now, commits, Request(category, status, code, bin))
      // The running total of the key has exactly one more request, of its kind and in its bin; no
      // other total changes.
      ensures bucket == now / 600 * 600
      ensures CountedOnce(old(pending), pending, Key(bucket, category), Request(category, status, code, bin))
    {
      hide Flush, Count, Incremented, SlotOf, IsTransient, CountedOnce, FlushedTo;
      ghost var turn := Turn(db.rows, Model(), instance, now, commits);
      ghost var sample: Sample := Request(category, status, code, bin);
      CountsOnce(db.rows, Model(), instance, now, commits, sample);
      var outcome := 0;
      if status >= 400 {
        outcome := 2;
        if !IsTransient(code) {
          outcome := 1;
        }
      }
      assert outcome == Outcome(status, code);
      hide Outcome;
      failed := false;
      if SlotOf(now) != bucket {
        failed := FlushMetrics(now, commits);
      }
      hide Turn;
      CountIs(Model(), sample);
      var key := Key(bucket, category);
      if key !in pending {
        pending := pending[key := ZERO];
      }
      pending := pending[key := Incremented(pending[key], outcome, bin)];
    }
  }

  /** One more in one counter and one bin. */
  function Incremented(b: Bucket, outcome: nat, bin: nat): Bucket
    requires outcome < 3 && bin < BINS
  {
    Counts(b.outcomes[outcome := b.outcomes[outcome] + 1], b.latency[bin := b.latency[bin] + 1])
  }

  lemma Increment(b: Bucket, s: Sample)
    ensures Incremented(b, Outcome(s.status, s.code), s.bin) == Add(b, One(s))
  {
    var i := Outcome(s.status, s.code);
    assert b.outcomes[i := b.outcomes[i] + 1] == Add(b, One(s)).outcomes;
    assert b.latency[s.bin := b.latency[s.bin] + 1] == Add(b, One(s)).latency;
  }

  lemma CountIs(s: Store, sample: Sample)
    ensures var k := Key(s.bucket, sample.category);
            var room := if k in s.pending then s.pending else s.pending[k := ZERO];
            Count(s, sample)
            == Store(s.bucket, room[k := Incremented(room[k], Outcome(sample.status, sample.code), sample.bin)])
  {
    hide Incremented, Outcome, Add, One, ZERO;
    Increment(Get(s.pending, Key(s.bucket, sample.category)), sample);
  }
}
