/** The bounds on the ingest window are reached, and the spans of time in which they hold are
exactly those that lie within ten buckets. */
module QuotaExact {
  import opened Basics
  import opened QuotaWindow
  import opened QuotaBound

  // ---- runs from a state in which nobody is in flight

  /** Nobody is in flight, and only the present bucket has been counted in. */
  ghost predicate Quiet(s: State, time: real) {
    && s.now == time
    && (forall i :: 0 <= i < |s.slots| ==> s.slots[i].None?)
    && s.counters.Keys <= {BucketAt(time)}
  }

  lemma {:induction false} OnlyNewest(counters: map<Bucket, int>, newest: Bucket, n: nat)
    requires counters.Keys <= {newest} && n >= 1
    ensures WindowSum(counters, newest, n) == CounterAt(counters, newest)
  {
    if n > 1 {
      OnlyNewest(counters, newest, n - 1);
    } else {
      assert WindowSum(counters, newest, 0) == 0;
    }
  }

  lemma QuietUses(s: State, time: real)
    requires Quiet(s, time)
    ensures Used(s) == CounterAt(s.counters, BucketAt(time))
  {
    hide BucketAt;
    OnlyNewest(s.counters, BucketAt(time), WINDOW_BUCKETS);
  }

  lemma OneStep(s: State, limit: nat, steps: seq<Step>, step: Step, all: seq<Step>)
    requires all == steps + [step] && Run(s, limit, steps).Some? && Enabled(Run(s, limit, steps).value, step)
    ensures Run(s, limit, all) == Some(Apply(Run(s, limit, steps).value, limit, step))
  {
    assert all[..|steps|] == steps;
  }

  lemma AnotherEvents(log: seq<Batch>, batch: Batch, from: real, to: real)
    ensures AdmittedBetween(log + [batch], from, to)
      == AdmittedBetween(log, from, to) + if from <= batch.time <= to then batch.events else 0
  {
    assert (log + [batch])[..|log|] == log;
  }

  // ---- one event after the other

  /** Single events by the first caller. */
  function Singles(k: nat): seq<Step> {
    if k == 0 then [] else Singles(k - 1) + [Check(0, 1)] + [Increment(0)]
  }

  lemma OneSingle(s: State, limit: nat, time: real)
    requires Quiet(s, time) && |s.slots| >= 1 && Used(s) < limit
    ensures Enabled(s, Check(0, 1)) && Enabled(Apply(s, limit, Check(0, 1)), Increment(0))
    ensures var r := Apply(Apply(s, limit, Check(0, 1)), limit, Increment(0));
      && Quiet(r, time) && |r.slots| == |s.slots| && Used(r) == Used(s) + 1
      && r.admitted == s.admitted + [Batch(time, 1)]
  {
    var r := Apply(Apply(s, limit, Check(0, 1)), limit, Increment(0));
    QuietUses(s, time);
    hide BucketAt, Used;
    QuietUses(r, time);
  }

  lemma {:induction false} SinglesRun(s: State, limit: nat, time: real, k: nat, from: real, to: real)
    requires Quiet(s, time) && |s.slots| >= 1 && Used(s) + k <= limit && from <= time <= to
    ensures var r := Run(s, limit, Singles(k));
      && r.Some? && Quiet(r.value, time) && |r.value.slots| == |s.slots| && Used(r.value) == Used(s) + k
      && AdmittedBetween(r.value.admitted, from, to) == AdmittedBetween(s.admitted, from, to) + k
  {
    hide Run, Used, Quiet, Enabled, Apply, AdmittedBetween;
    if k == 0 {
      NoSteps(s, limit);
    } else {
      SinglesRun(s, limit, time, k - 1, from, to);
      var before := Run(s, limit, Singles(k - 1)).value;
      OneSingle(before, limit, time);
      OneStep(s, limit, Singles(k - 1), Check(0, 1), Singles(k - 1) + [Check(0, 1)]);
      OneStep(s, limit, Singles(k - 1) + [Check(0, 1)], Increment(0), Singles(k));
      AnotherEvents(before.admitted, Batch(time, 1), from, to);
    }
  }

  lemma NoSteps(s: State, limit: nat)
    ensures Run(s, limit, []) == Some(s)
  {
  }

  // ---- all callers at once

  function Checks(k: nat, events: nat): seq<Step> {
    if k == 0 then [] else Checks(k - 1, events) + [Check(k - 1, events)]
  }

  function Increments(k: nat): seq<Step> {
    if k == 0 then [] else Increments(k - 1) + [Increment(k - 1)]
  }

  /** The first k callers are in flight, each with a batch of the same size. */
  ghost predicate Flying(s: State, time: real, k: nat, events: nat) {
    && s.now == time && k <= |s.slots|
    && (forall i :: 0 <= i < k ==> s.slots[i] == Some(Batch(time, events)))
    && (forall i :: k <= i < |s.slots| ==> s.slots[i].None?)
  }

  lemma {:induction false} ChecksRun(s: State, limit: nat, time: real, k: nat, events: nat)
    requires Quiet(s, time) && k <= |s.slots| && Used(s) + events <= limit
    ensures var r := Run(s, limit, Checks(k, events));
      && r.Some? && Flying(r.value, time, k, events) && r.value.counters == s.counters
      && r.value.admitted == s.admitted && |r.value.slots| == |s.slots|
  {
    hide Run, Used;
    if k == 0 {
      NoSteps(s, limit);
    } else {
      ChecksRun(s, limit, time, k - 1, events);
      var before := Run(s, limit, Checks(k - 1, events)).value;
      assert Used(before) == Used(s) by { SameUse(s, before); }
      OneStep(s, limit, Checks(k - 1, events), Check(k - 1, events), Checks(k, events));
    }
  }

  lemma SameUse(s: State, t: State)
    requires s.now == t.now && s.counters == t.counters
    ensures Used(s) == Used(t)
  {
  }

  /** The first k of them have been counted. */
  ghost predicate Landed(s: State, time: real, k: nat, events: nat) {
    && s.now == time && k <= |s.slots|
    && (forall i :: 0 <= i < k ==> s.slots[i].None?)
    && (forall i :: k <= i < |s.slots| ==> s.slots[i] == Some(Batch(time, events)))
    && s.counters.Keys <= {BucketAt(time)}
  }

  lemma {:induction false} IncrementsRun(s: State, limit: nat, time: real, k: nat, events: nat, from: real, to: real)
    requires Landed(s, time, 0, events) && k <= |s.slots| && from <= time <= to
    ensures var r := Run(s, limit, Increments(k));
      && r.Some? && Landed(r.value, time, k, events) && |r.value.slots| == |s.slots|
      && AdmittedBetween(r.value.admitted, from, to) == AdmittedBetween(s.admitted, from, to) + k * events
  {
    hide Run, BucketAt, AdmittedBetween;
    if k == 0 {
      NoSteps(s, limit);
    } else {
      IncrementsRun(s, limit, time, k - 1, events, from, to);
      var before := Run(s, limit, Increments(k - 1)).value;
      OneStep(s, limit, Increments(k - 1), Increment(k - 1), Increments(k));
      AnotherEvents(before.admitted, Batch(time, events), from, to);
      assert k * events == (k - 1) * events + events;
    }
  }

  lemma {:induction false} RunJoins(s: State, limit: nat, first: seq<Step>, rest: seq<Step>)
    requires Run(s, limit, first).Some? && Run(Run(s, limit, first).value, limit, rest).Some?
    ensures Run(s, limit, first + rest) == Run(Run(s, limit, first).value, limit, rest)
    decreases |rest|
  {
    hide Enabled, Apply;
    if rest == [] {
      assert first + rest == first;
    } else {
      RunJoins(s, limit, first, rest[..|rest| - 1]);
      assert (first + rest)[..|first + rest| - 1] == first + rest[..|rest| - 1];
    }
  }

  // ---- the bound is reached

  /** The window is filled up to one batch below the limit, and then every caller is let through
  with a batch before any is counted. */
  function Fill(callers: nat, limit: nat, most: nat): seq<Step>
    requires most <= limit
  {
    Singles(limit - most) + (Checks(callers, most) + Increments(callers))
  }

  lemma {:induction false} FillRun(s: State, callers: nat, limit: nat, most: nat, time: real, from: real, to: real)
    requires Quiet(s, time) && |s.slots| == callers >= 1 && Used(s) == 0 && most <= limit && from <= time <= to
    ensures var r := Run(s, limit, Fill(callers, limit, most));
      && r.Some? && Quiet(r.value, time) && |r.value.slots| == callers
      && AdmittedBetween(r.value.admitted, from, to)
         == AdmittedBetween(s.admitted, from, to) + (limit + (callers - 1) * most)
  {
    hide Run, Used, BucketAt, AdmittedBetween, Singles, Checks, Increments;
    SinglesRun(s, limit, time, limit - most, from, to);
    var s1 := Run(s, limit, Singles(limit - most)).value;
    ChecksRun(s1, limit, time, callers, most);
    var s2 := Run(s1, limit, Checks(callers, most)).value;
    IncrementsRun(s2, limit, time, callers, most, from, to);
    RunJoins(s1, limit, Checks(callers, most), Increments(callers));
    RunJoins(s, limit, Singles(limit - most), Checks(callers, most) + Increments(callers));
    OneLess(callers, most);
  }

  lemma OneLess(callers: nat, most: nat)
    ensures callers * most == (callers - 1) * most + most
  {
  }

  lemma {:induction false} SinglesSized(k: nat, limit: nat, most: nat)
    requires most >= 1
    ensures AllSized(Singles(k), limit, most)
  {
    if k > 0 {
      SinglesSized(k - 1, limit, most);
    }
  }

  lemma {:induction false} ChecksSized(k: nat, limit: nat, most: nat)
    ensures AllSized(Checks(k, most), limit, most) && AllSized(Increments(k), limit, most)
  {
    if k > 0 {
      ChecksSized(k - 1, limit, most);
    }
  }

  lemma FillSized(callers: nat, limit: nat, most: nat)
    requires 1 <= most <= limit
    ensures AllSized(Fill(callers, limit, most), limit, most)
  {
    hide Singles, Checks, Increments, Sized;
    SinglesSized(limit - most, limit, most);
    ChecksSized(callers, limit, most);
  }

  lemma StartsQuiet(now: real, callers: nat)
    ensures Quiet(Initial(now, callers), now) && Used(Initial(now, callers)) == 0
    ensures |Initial(now, callers).slots| == callers && Initial(now, callers).admitted == []
  {
    QuietUses(Initial(now, callers), now);
  }

  lemma {:induction false} FillAdmits(callers: nat, limit: nat, most: nat, now: real)
    requires callers >= 1 && 1 <= most <= limit
    ensures var r := Run(Initial(now, callers), limit, Fill(callers, limit, most));
      r.Some? && AdmittedBetween(r.value.admitted, now, now) == limit + (callers - 1) * most
  {
    StartsQuiet(now, callers);
    assert AdmittedBetween([], now, now) == 0;
    hide *;
    FillRun(Initial(now, callers), callers, limit, most, now, now, now);
  }

  lemma {:induction false} FillReaches(callers: nat, limit: nat, most: nat, now: real)
    requires callers >= 1 && 1 <= most <= limit
    ensures var r := Run(Initial(now, callers), limit, Fill(callers, limit, most));
      r.Some? && Admitted(r.value.admitted, BucketAt(now) - 9, BucketAt(now)) == limit + (callers - 1) * most
  {
    hide *;
    var steps, bound := Fill(callers, limit, most), limit + (callers - 1) * most;
    FillAdmits(callers, limit, most, now);
    FillSized(callers, limit, most);
    var log := Run(Initial(now, callers), limit, steps).value.admitted;
    TimeWithinBuckets(log, now, now, BucketAt(now) - 9, BucketAt(now));
    TenBuckets(now, callers, limit, most, steps, BucketAt(now));
  }

  /** The bound of ten buckets is reached, for any number of callers and any size of batch up to
  the limit: it cannot be improved. */
  lemma {:induction false} BoundIsReached(callers: nat, limit: nat, most: nat, now: real)
    requires callers >= 1 && 1 <= most <= limit
    ensures exists steps :: AllSized(steps, limit, most) && var r := Run(Initial(now, callers), limit, steps);
      r.Some? && Admitted(r.value.admitted, BucketAt(now) - 9, BucketAt(now)) == limit + (callers - 1) * most
  {
    hide *;
    FillReaches(callers, limit, most, now);
    FillSized(callers, limit, most);
  }

  // ---- the spans in which it holds

  /** Every run of so many callers, with batches up to so many events, keeps the bound between the
  two times. */
  ghost predicate SpanBounded(callers: nat, limit: nat, most: nat, from: real, to: real) {
    forall now, steps :: AllSized(steps, limit, most) && Run(Initial(now, callers), limit, steps).Some? ==>
      AdmittedBetween(Run(Initial(now, callers), limit, steps).value.admitted, from, to) <= limit + (callers - 1) * most
  }

  lemma WithinTen(callers: nat, limit: nat, most: nat, from: real, to: real)
    requires callers >= 1 && BucketAt(to) <= BucketAt(from) + 9
    ensures SpanBounded(callers, limit, most, from, to)
  {
    hide Run, BucketAt, Admitted, AdmittedBetween, AllSized, Initial;
    forall now, steps | AllSized(steps, limit, most) && Run(Initial(now, callers), limit, steps).Some?
      ensures AdmittedBetween(Run(Initial(now, callers), limit, steps).value.admitted, from, to)
        <= limit + (callers - 1) * most
    {
      var log, b := Run(Initial(now, callers), limit, steps).value.admitted, BucketAt(from);
      TenBuckets(now, callers, limit, most, steps, b + 9);
      TimeWithinBuckets(log, from, to, b, b + 9);
    }
  }

  /** When the clock moves ten buckets on, the window is empty again. */
  lemma LaterIsEmpty(s: State, limit: nat, time: real, later: real)
    requires Quiet(s, time) && time <= later && BucketAt(later) >= BucketAt(time) + 10
    ensures var r := Apply(s, limit, Advance(later));
      && Enabled(s, Advance(later)) && Used(r) == 0 && r.slots == s.slots && r.admitted == s.admitted
  {
    hide BucketAt;
    var r := Apply(s, limit, Advance(later));
    NothingInWindow(r.counters, BucketAt(later), WINDOW_BUCKETS);
  }

  lemma {:induction false} NothingInWindow(counters: map<Bucket, int>, newest: Bucket, n: nat)
    requires forall b :: newest - n < b <= newest ==> b !in counters
    ensures WindowSum(counters, newest, n) == 0
  {
    if n > 0 {
      NothingInWindow(counters, newest, n - 1);
    }
  }

  /** One more event is let through when the window is empty. */
  lemma OneMore(s: State, limit: nat)
    requires |s.slots| >= 1 && s.slots[0].None? && Used(s) == 0 && limit >= 1
    ensures Enabled(s, Check(0, 1)) && Enabled(Apply(s, limit, Check(0, 1)), Increment(0))
    ensures Apply(Apply(s, limit, Check(0, 1)), limit, Increment(0)).admitted == s.admitted + [Batch(s.now, 1)]
  {
    hide Used, BucketAt;
  }

  /** Filled at one time, and one event more ten buckets later. */
  function FillAndMore(callers: nat, limit: nat, most: nat, later: real): seq<Step>
    requires most <= limit
  {
    Fill(callers, limit, most) + [Advance(later)] + [Check(0, 1)] + [Increment(0)]
  }

  lemma {:induction false} BeyondTen(callers: nat, limit: nat, most: nat, from: real, to: real)
    requires callers >= 1 && 1 <= most <= limit && from <= to && BucketAt(to) >= BucketAt(from) + 10
    ensures var steps := FillAndMore(callers, limit, most, to); var r := Run(Initial(from, callers), limit, steps);
      && AllSized(steps, limit, most) && r.Some?
      && AdmittedBetween(r.value.admitted, from, to) == limit + (callers - 1) * most + 1
  {
    var s, fill := Initial(from, callers), Fill(callers, limit, most);
    StartsQuiet(from, callers);
    FillSized(callers, limit, most);
    assert AllSized(FillAndMore(callers, limit, most, to), limit, most) by { hide Fill; }
    assert AdmittedBetween([], from, to) == 0;
    hide Run, Used, BucketAt, AdmittedBetween, Fill, Initial, AllSized, Apply, Enabled;
    FillRun(s, callers, limit, most, from, from, to);
    var full := Run(s, limit, fill).value;
    LaterIsEmpty(full, limit, from, to);
    var later := Apply(full, limit, Advance(to));
    assert later.now == to by { ClockMoved(full, limit, to); }
    OneMore(later, limit);
    OneStep(s, limit, fill, Advance(to), fill + [Advance(to)]);
    OneStep(s, limit, fill + [Advance(to)], Check(0, 1), fill + [Advance(to)] + [Check(0, 1)]);
    OneStep(s, limit, fill + [Advance(to)] + [Check(0, 1)], Increment(0), FillAndMore(callers, limit, most, to));
    AnotherEvents(full.admitted, Batch(to, 1), from, to);
  }

  lemma ClockMoved(s: State, limit: nat, now: real)
    requires Enabled(s, Advance(now))
    ensures Apply(s, limit, Advance(now)).now == now
  {
  }

  /** Between two times the bound holds in every run if and only if they lie within ten buckets,
  for any number of callers and any size of batch up to the limit. */
  lemma {:induction false} SpanBoundedExactlyWhen(callers: nat, limit: nat, most: nat, from: real, to: real)
    requires callers >= 1 && 1 <= most <= limit && from <= to
    ensures SpanBounded(callers, limit, most, from, to) <==> BucketAt(to) <= BucketAt(from) + 9
  {
    if BucketAt(to) <= BucketAt(from) + 9 {
      WithinTen(callers, limit, most, from, to);
    } else {
      BeyondTen(callers, limit, most, from, to);
    }
  }

  /** What the documented limit asks of callers one at a time. */
  ghost predicate SerialKeepsLimit(limit: nat, from: real, to: real) {
    forall now, steps :: Run(Initial(now, 1), limit, steps).Some? ==>
      AdmittedBetween(Run(Initial(now, 1), limit, steps).value.admitted, from, to) <= limit
  }

  /** Callers one at a time never exceed the limit between two times if and only if these lie
  within ten buckets, which a caller can tell from the clock: always within 54 seconds, never
  from 60 on, and in between depending on where the first falls in its bucket. */
  lemma {:induction false} SerialExactlyWhen(limit: nat, from: real, to: real)
    requires limit > 0 && from <= to
    ensures SerialKeepsLimit(limit, from, to) <==> BucketAt(to) <= BucketAt(from) + 9
    ensures to <= from + 54.0 ==> BucketAt(to) <= BucketAt(from) + 9
    ensures to >= from + 60.0 ==> BucketAt(to) >= BucketAt(from) + 10
  {
    hide Run, AdmittedBetween, BucketAt;
    if to <= from + 54.0 {
      BucketsApart(from, to, 9);
    }
    if to >= from + 60.0 {
      BucketsFar(from, to);
    }
    if BucketAt(to) <= BucketAt(from) + 9 {
      WithinTen(1, limit, limit, from, to);
      forall now, steps | Run(Initial(now, 1), limit, steps).Some?
        ensures AdmittedBetween(Run(Initial(now, 1), limit, steps).value.admitted, from, to) <= limit
      {
        AnySize(steps, limit);
      }
    } else {
      BeyondTen(1, limit, limit, from, to);
    }
  }

  lemma AnySize(steps: seq<Step>, limit: nat)
    ensures AllSized(steps, limit, limit)
  {
  }

  lemma BucketsFar(t: real, u: real)
    requires u >= t + 60.0
    ensures BucketAt(u) >= BucketAt(t) + 10
  {
    BucketBounds(t);
    BucketBounds(u);
    var x, y := BucketAt(u) as real, BucketAt(t) as real;
    assert x + 1.0 > y + 10.0;
  }
}
