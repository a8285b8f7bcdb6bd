/** How many events the ingest window can let through. */
module QuotaBound {
  import opened Basics
  import opened QuotaWindow

  // ---- the invariant

  ghost predicate TimesOk(s: State, most: nat) {
    && (forall i :: 0 <= i < |s.admitted| ==> s.admitted[i].time <= s.now)
    && (forall i :: 0 <= i < |s.slots| && s.slots[i].Some? ==>
          s.slots[i].value.time <= s.now && s.slots[i].value.events <= most)
  }

  /** A key with a deadline outlives its bucket by two minutes. */
  ghost predicate DeadlinesOk(s: State) {
    forall b :: b in s.deadlines ==> s.deadlines[b] >= b as real * BUCKET_SECONDS + BUCKET_TTL
  }

  /** The counters of the current window are complete. */
  ghost predicate CountersOk(s: State) {
    forall b: Bucket :: b > BucketAt(s.now) - WINDOW_BUCKETS ==> CounterAt(s.counters, b) == Admitted(s.admitted, b, b)
  }

  /** What any ten consecutive buckets hold, counted or on the way. */
  function Load(s: State, newest: Bucket): nat {
    Admitted(s.admitted, newest - 9, newest) + InFlight(s.slots, newest - 9, newest)
  }

  function Excess(s: State, most: nat): int {
    (|s.slots| - 1) * most
  }

  ghost predicate LoadOk(s: State, limit: nat, most: nat) {
    forall newest: Bucket :: Load(s, newest) <= limit + Excess(s, most)
  }

  ghost predicate Inv(s: State, limit: nat, most: nat) {
    TimesOk(s, most) && DeadlinesOk(s) && CountersOk(s) && LoadOk(s, limit, most)
  }

  // ---- buckets and clock

  lemma BucketsAscend(t: real, u: real)
    requires t <= u
    ensures BucketAt(t) <= BucketAt(u)
  {
    assert t / BUCKET_SECONDS <= u / BUCKET_SECONDS;
  }

  lemma BucketBounds(t: real)
    ensures BucketAt(t) as real * BUCKET_SECONDS <= t < (BucketAt(t) as real + 1.0) * BUCKET_SECONDS
  {
    var q := t / BUCKET_SECONDS;
    assert q.Floor as real <= q < q.Floor as real + 1.0;
    assert t == q * BUCKET_SECONDS;
  }

  lemma BucketsApart(t: real, u: real, n: nat)
    requires u <= t + n as real * BUCKET_SECONDS
    ensures BucketAt(u) <= BucketAt(t) + n
  {
    BucketBounds(t);
    BucketBounds(u);
    var x, y, m := BucketAt(u) as real, BucketAt(t) as real, n as real;
    assert x * 6.0 < (y + 1.0) * 6.0 + m * 6.0;
    assert x < y + 1.0 + m;
  }

  // ---- the steps

  lemma LivesLongEnough(s: State, now: real, b: Bucket)
    requires DeadlinesOk(s) && b in s.counters && b > BucketAt(now) - WINDOW_BUCKETS
    ensures b in Live(s, now)
  {
    if b in s.deadlines {
      BucketBounds(now);
      var x, y := b as real, BucketAt(now) as real;
      assert y < x + 10.0;
      assert now < (x + 11.0) * 6.0;
    }
  }

  lemma AdvanceKeeps(s: State, limit: nat, most: nat, now: real)
    requires Inv(s, limit, most) && now >= s.now
    ensures Inv(Apply(s, limit, Advance(now)), limit, most)
  {
    hide LoadOk, Admitted, BucketAt;
    var s' := Apply(s, limit, Advance(now));
    BucketsAscend(s.now, now);
    forall b: Bucket | b > BucketAt(now) - WINDOW_BUCKETS
      ensures CounterAt(s'.counters, b) == CounterAt(s.counters, b)
    {
      if b in s.counters {
        LivesLongEnough(s, now, b);
      }
    }
    SameLoad(s, s', limit, most);
  }

  lemma SameLoad(s: State, s': State, limit: nat, most: nat)
    requires LoadOk(s, limit, most) && s'.slots == s.slots && s'.admitted == s.admitted
    ensures LoadOk(s', limit, most)
  {
    forall newest: Bucket
      ensures Load(s', newest) <= limit + Excess(s', most)
    {
      assert Load(s', newest) == Load(s, newest);
    }
  }

  /** The sum of the counters is what was admitted in their buckets. */
  lemma {:induction false} WindowIsAdmitted(s: State, n: nat)
    requires CountersOk(s) && n <= WINDOW_BUCKETS
    ensures var b := BucketAt(s.now); WindowSum(s.counters, b, n) == Admitted(s.admitted, b - (n - 1), b)
  {
    hide Admitted, BucketAt;
    var b := BucketAt(s.now);
    if n == 0 {
      NothingBetween(s.admitted, b + 1, b);
    } else {
      WindowIsAdmitted(s, n - 1);
      AdmittedSplits(s.admitted, b - (n - 1), b - (n - 1), b);
    }
  }

  lemma NothingBetween(log: seq<Batch>, lo: Bucket, hi: Bucket)
    requires lo > hi
    ensures Admitted(log, lo, hi) == 0
  {
    NoneAdmitted(log, lo, hi);
  }

  /** Nothing was admitted in buckets that are still to come. */
  lemma FutureIsEmpty(s: State, most: nat, newest: Bucket)
    requires TimesOk(s, most)
    ensures Admitted(s.admitted, BucketAt(s.now) + 1, newest) == 0
  {
    forall i | 0 <= i < |s.admitted|
      ensures !InBuckets(s.admitted[i], BucketAt(s.now) + 1, newest)
    {
      BucketsAscend(s.admitted[i].time, s.now);
    }
    NoneAdmitted(s.admitted, BucketAt(s.now) + 1, newest);
  }

  /** No window that contains the present bucket holds more than the present window. */
  lemma PresentIsLargest(s: State, most: nat, newest: Bucket)
    requires TimesOk(s, most) && BucketAt(s.now) <= newest <= BucketAt(s.now) + 9
    ensures var b := BucketAt(s.now); Admitted(s.admitted, newest - 9, newest) <= Admitted(s.admitted, b - 9, b)
  {
    hide Admitted, BucketAt, TimesOk;
    var b := BucketAt(s.now);
    FutureIsEmpty(s, most, newest);
    AdmittedSplits(s.admitted, newest - 9, b, newest);
    AdmittedSplits(s.admitted, b - 9, newest - 10, b);
  }

  lemma CheckKeeps(s: State, limit: nat, most: nat, c: nat, events: nat)
    requires Inv(s, limit, most) && Enabled(s, Check(c, events)) && Sized(Check(c, events), limit, most)
    ensures Inv(Apply(s, limit, Check(c, events)), limit, most)
  {
    assert Used(s) >= 0 by { WindowIsAdmitted(s, WINDOW_BUCKETS); }
    if Used(s) + events <= limit {
      var batch := Batch(s.now, events);
      var s' := Apply(s, limit, Check(c, events));
      assert TimesOk(s', most) by { hide BucketAt, LoadOk, CountersOk, Used; }
      hide TimesOk, CountersOk, Used, BucketAt, Admitted, InFlight;
      forall newest: Bucket
        ensures Load(s', newest) <= limit + Excess(s', most)
      {
        CheckedLoad(s, limit, most, c, events, newest);
      }
    }
  }

  lemma CheckedLoad(s: State, limit: nat, most: nat, c: nat, events: nat, newest: Bucket)
    requires Inv(s, limit, most) && Enabled(s, Check(c, events)) && Used(s) + events <= limit
    ensures Load(Apply(s, limit, Check(c, events)), newest) <= limit + Excess(s, most)
  {
    hide Admitted, InFlight, BucketAt;
    var b, batch := BucketAt(s.now), Batch(s.now, events);
    SlotReplaced(s.slots, c, Some(batch), newest - 9, newest);
    if newest - 9 <= b <= newest {
      WindowIsAdmitted(s, WINDOW_BUCKETS);
      PresentIsLargest(s, most, newest);
      InFlightAtMost(s.slots, most, newest - 9, newest);
      OneFree(s.slots, c);
      Times(Occupied(s.slots), |s.slots| - 1, most);
    } else {
      assert Load(s, newest) <= limit + Excess(s, most);
    }
  }

  lemma Times(x: nat, y: nat, z: nat)
    requires x <= y
    ensures x * z <= y * z
  {
  }

  lemma IncrementKeeps(s: State, limit: nat, most: nat, c: nat)
    requires Inv(s, limit, most) && Enabled(s, Increment(c))
    ensures Inv(Apply(s, limit, Increment(c)), limit, most)
  {
    var s' := Apply(s, limit, Increment(c));
    var batch := s.slots[c].value;
    forall lo: Bucket, hi: Bucket
      ensures Admitted(s'.admitted, lo, hi) == Admitted(s.admitted, lo, hi) + Weight(s.slots[c], lo, hi)
    {
      assert s'.admitted[..|s'.admitted| - 1] == s.admitted;
    }
    hide Admitted, InFlight, BucketAt;
    assert CountersOk(s') by { hide LoadOk, TimesOk; }
    forall newest: Bucket
      ensures Load(s', newest) <= limit + Excess(s', most)
    {
      SlotReplaced(s.slots, c, None, newest - 9, newest);
      assert Load(s', newest) == Load(s, newest);
    }
  }

  lemma CrashKeeps(s: State, limit: nat, most: nat, c: nat)
    requires Inv(s, limit, most) && Enabled(s, Crash(c))
    ensures Inv(Apply(s, limit, Crash(c)), limit, most)
  {
    hide Admitted, InFlight, BucketAt;
    var s' := Apply(s, limit, Crash(c));
    forall newest: Bucket
      ensures Load(s', newest) <= limit + Excess(s', most)
    {
      SlotReplaced(s.slots, c, None, newest - 9, newest);
      assert Load(s, newest) <= limit + Excess(s, most);
    }
  }

  lemma DeadlineKeeps(s: State, limit: nat, most: nat, b: Bucket)
    requires Inv(s, limit, most) && Enabled(s, SetDeadline(b))
    ensures Inv(Apply(s, limit, SetDeadline(b)), limit, most)
  {
    BucketBounds(s.now);
    var x, y := b as real, BucketAt(s.now) as real;
    assert x * 6.0 <= y * 6.0;
    hide Admitted, BucketAt;
    SameLoad(s, Apply(s, limit, SetDeadline(b)), limit, most);
  }

  /** Every batch is within the size the interface allows.  One larger than the limit need not be,
  because it is refused anyway; so with `most` at the limit every step is sized. */
  ghost predicate Sized(step: Step, limit: nat, most: nat) {
    step.Check? && step.events <= limit ==> step.events <= most
  }

  ghost predicate AllSized(steps: seq<Step>, limit: nat, most: nat) {
    forall i :: 0 <= i < |steps| ==> Sized(steps[i], limit, most)
  }

  lemma ApplyKeeps(s: State, limit: nat, most: nat, step: Step)
    requires Inv(s, limit, most) && Enabled(s, step) && Sized(step, limit, most)
    ensures Inv(Apply(s, limit, step), limit, most) && |Apply(s, limit, step).slots| == |s.slots|
  {
    hide Inv, Used;
    match step {
      case Advance(now) => AdvanceKeeps(s, limit, most, now);
      case Check(c, events) => CheckKeeps(s, limit, most, c, events);
      case Increment(c) => IncrementKeeps(s, limit, most, c);
      case SetDeadline(b) => DeadlineKeeps(s, limit, most, b);
      case Crash(c) => CrashKeeps(s, limit, most, c);
    }
  }

  lemma {:induction false} NobodyInFlight(callers: nat, lo: Bucket, hi: Bucket)
    ensures InFlight(seq(callers, _ => None), lo, hi) == 0
  {
    NoneInFlight(seq(callers, _ => None), lo, hi);
  }

  lemma InitialOk(now: real, callers: nat, limit: nat, most: nat)
    requires callers >= 1
    ensures Inv(Initial(now, callers), limit, most)
  {
    var s := Initial(now, callers);
    forall newest: Bucket
      ensures Load(s, newest) <= limit + Excess(s, most)
    {
      NobodyInFlight(callers, newest - 9, newest);
    }
  }

  lemma {:induction false} RunKeeps(now: real, callers: nat, limit: nat, most: nat, steps: seq<Step>)
    requires callers >= 1 && Run(Initial(now, callers), limit, steps).Some?
    requires AllSized(steps, limit, most)
    ensures var s := Run(Initial(now, callers), limit, steps).value; Inv(s, limit, most) && |s.slots| == callers
    decreases |steps|
  {
    hide Inv, Apply, Enabled;
    if steps == [] {
      InitialOk(now, callers, limit, most);
    } else {
      RunKeeps(now, callers, limit, most, steps[..|steps| - 1]);
      ApplyKeeps(Run(Initial(now, callers), limit, steps[..|steps| - 1]).value, limit, most, steps[|steps| - 1]);
    }
  }

  // ---- the bounds

  /** Any ten consecutive buckets admit at most the limit, plus one batch for each of the other
  callers that can sit between check and increment. */
  lemma TenBuckets(now: real, callers: nat, limit: nat, most: nat, steps: seq<Step>, newest: Bucket)
    requires callers >= 1 && Run(Initial(now, callers), limit, steps).Some?
    requires AllSized(steps, limit, most)
    ensures Admitted(Run(Initial(now, callers), limit, steps).value.admitted, newest - 9, newest)
      <= limit + (callers - 1) * most
  {
    RunKeeps(now, callers, limit, most, steps);
    assert Load(Run(Initial(now, callers), limit, steps).value, newest) >= 0;
  }

  /** The events admitted by checks made from one time to another. */
  function AdmittedBetween(log: seq<Batch>, from: real, to: real): nat {
    if log == [] then 0
    else
      var last := log[|log| - 1];
      AdmittedBetween(log[..|log| - 1], from, to) + if from <= last.time <= to then last.events else 0
  }

  lemma {:induction false} TimeWithinBuckets(log: seq<Batch>, from: real, to: real, lo: Bucket, hi: Bucket)
    requires lo <= BucketAt(from) && BucketAt(to) <= hi
    ensures AdmittedBetween(log, from, to) <= Admitted(log, lo, hi)
  {
    hide BucketAt;
    if log != [] {
      var last := log[|log| - 1];
      TimeWithinBuckets(log[..|log| - 1], from, to, lo, hi);
      if from <= last.time <= to {
        BucketsAscend(from, last.time);
        BucketsAscend(last.time, to);
      }
    }
  }

  /** In any 54 seconds at most the limit is admitted, and in any 60 at most twice as much, each
  plus a batch for every other caller. */
  lemma AnySpan(now: real, callers: nat, limit: nat, most: nat, steps: seq<Step>, from: real, to: real)
    requires callers >= 1 && Run(Initial(now, callers), limit, steps).Some?
    requires AllSized(steps, limit, most)
    ensures var log := Run(Initial(now, callers), limit, steps).value.admitted;
      var bound := limit + (callers - 1) * most;
      && (to <= from + 54.0 ==> AdmittedBetween(log, from, to) <= bound)
      && (to <= from + 60.0 ==> AdmittedBetween(log, from, to) <= 2 * bound)
  {
    hide Run, BucketAt, Admitted;
    var log := Run(Initial(now, callers), limit, steps).value.admitted;
    var b := BucketAt(from);
    TenBuckets(now, callers, limit, most, steps, b + 9);
    TenBuckets(now, callers, limit, most, steps, b + 19);
    if to <= from + 54.0 {
      BucketsApart(from, to, 9);
      TimeWithinBuckets(log, from, to, b, b + 9);
    }
    if to <= from + 60.0 {
      BucketsApart(from, to, 10);
      TimeWithinBuckets(log, from, to, b, b + 19);
      AdmittedSplits(log, b, b + 9, b + 19);
    }
  }

  /** Callers one at a time never exceed the limit in ten buckets or 54 seconds. */
  lemma SerialCallers(now: real, limit: nat, steps: seq<Step>, from: real, to: real)
    requires Run(Initial(now, 1), limit, steps).Some? && to <= from + 54.0
    ensures AdmittedBetween(Run(Initial(now, 1), limit, steps).value.admitted, from, to) <= limit
  {
    hide Run;
    AnySpan(now, 1, limit, limit, steps, from, to);
  }
}
