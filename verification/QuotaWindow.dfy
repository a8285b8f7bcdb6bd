/** The ingest quota: events counted in buckets of six seconds, of which the last ten make up the
window.  Several callers may sit between reading the window and adding to it. */
module QuotaWindow {
  import opened Basics

  const BUCKET_SECONDS := 6.0
  const WINDOW_BUCKETS := 10
  const BUCKET_TTL := 120.0

  type Bucket = int

  function BucketAt(time: real): Bucket {
    (time / BUCKET_SECONDS).Floor
  }

  /** A batch that was let through by the check made at `time`. */
  datatype Batch = Batch(time: real, events: nat)

  /** The clock, the counters with their deadlines (a key without one never expires), one slot
  for each caller that may be between its check and its increment, and what was admitted. */
  datatype State = State(now: real, counters: map<Bucket, int>, deadlines: map<Bucket, real>,
                         slots: seq<Option<Batch>>, admitted: seq<Batch>)

  function Initial(now: real, callers: nat): State {
    State(now, map[], map[], seq(callers, _ => None), [])
  }

  datatype Step =
    | Advance(now: real)
    | Check(c: nat, events: nat)
    | Increment(c: nat)
    | SetDeadline(bucket: Bucket)
    | Crash(c: nat)

  function CounterAt(counters: map<Bucket, int>, b: Bucket): int {
    if b in counters then counters[b] else 0
  }

  /** The sum over `n` buckets, the newest first. */
  function WindowSum(counters: map<Bucket, int>, newest: Bucket, n: nat): int {
    if n == 0 then 0 else WindowSum(counters, newest, n - 1) + CounterAt(counters, newest - (n - 1))
  }

  function Used(s: State): int {
    WindowSum(s.counters, BucketAt(s.now), WINDOW_BUCKETS)
  }

  predicate Enabled(s: State, step: Step) {
    match step
    case Advance(now) => now >= s.now
    case Check(c, _) => c < |s.slots| && s.slots[c].None?
    case Increment(c) => c < |s.slots| && s.slots[c].Some?
    case SetDeadline(b) => b <= BucketAt(s.now)
    case Crash(c) => c < |s.slots|
  }

  /** The keys whose deadline has come are gone. */
  function Live(s: State, now: real): set<Bucket> {
    set b | b in s.counters && !(b in s.deadlines && s.deadlines[b] <= now)
  }

  function Apply(s: State, limit: nat, step: Step): State
    requires Enabled(s, step)
  {
    match step
    case Advance(now) =>
      s.(now := now, counters := map b | b in Live(s, now) :: s.counters[b],
         deadlines := map b | b in s.deadlines && b in Live(s, now) :: s.deadlines[b])
    case Check(c, events) =>
      if Used(s) + events > limit then s else s.(slots := s.slots[c := Some(Batch(s.now, events))])
    case Increment(c) =>
      var batch := s.slots[c].value;
      var b := BucketAt(batch.time);
      s.(counters := s.counters[b := CounterAt(s.counters, b) + batch.events],
         slots := s.slots[c := None], admitted := s.admitted + [batch])
    case SetDeadline(b) =>
      if b in s.counters then s.(deadlines := s.deadlines[b := s.now + BUCKET_TTL]) else s
    case Crash(c) => s.(slots := s.slots[c := None])
  }

  function Run(s: State, limit: nat, steps: seq<Step>): Option<State> {
    if steps == [] then Some(s)
    else
      var before := Run(s, limit, steps[..|steps| - 1]);
      if before.Some? && Enabled(before.value, steps[|steps| - 1])
      then Some(Apply(before.value, limit, steps[|steps| - 1])) else None
  }

  // ---- sums over intervals of buckets

  predicate InBuckets(batch: Batch, lo: Bucket, hi: Bucket) {
    lo <= BucketAt(batch.time) <= hi
  }

  /** The events admitted in the buckets from `lo` to `hi`. */
  function Admitted(log: seq<Batch>, lo: Bucket, hi: Bucket): nat {
    if log == [] then 0
    else Admitted(log[..|log| - 1], lo, hi) + if InBuckets(log[|log| - 1], lo, hi) then log[|log| - 1].events else 0
  }

  /** The events let through in these buckets and not yet counted. */
  function InFlight(slots: seq<Option<Batch>>, lo: Bucket, hi: Bucket): nat {
    if slots == [] then 0
    else
      var last := slots[|slots| - 1];
      InFlight(slots[..|slots| - 1], lo, hi)
      + if last.Some? && InBuckets(last.value, lo, hi) then last.value.events else 0
  }

  lemma {:induction false} AdmittedSplits(log: seq<Batch>, lo: Bucket, mid: Bucket, hi: Bucket)
    requires lo <= mid + 1 && mid <= hi
    ensures Admitted(log, lo, hi) == Admitted(log, lo, mid) + Admitted(log, mid + 1, hi)
  {
    hide BucketAt;
    if log != [] {
      AdmittedSplits(log[..|log| - 1], lo, mid, hi);
    }
  }

  lemma {:induction false} InFlightSplits(slots: seq<Option<Batch>>, lo: Bucket, mid: Bucket, hi: Bucket)
    requires lo <= mid + 1 && mid <= hi
    ensures InFlight(slots, lo, hi) == InFlight(slots, lo, mid) + InFlight(slots, mid + 1, hi)
  {
    hide BucketAt;
    if slots != [] {
      InFlightSplits(slots[..|slots| - 1], lo, mid, hi);
    }
  }

  lemma {:induction false} NoneAdmitted(log: seq<Batch>, lo: Bucket, hi: Bucket)
    requires forall i :: 0 <= i < |log| ==> !InBuckets(log[i], lo, hi)
    ensures Admitted(log, lo, hi) == 0
  {
    if log != [] {
      assert forall i :: 0 <= i < |log| - 1 ==> log[..|log| - 1][i] == log[i];
      NoneAdmitted(log[..|log| - 1], lo, hi);
    }
  }

  lemma {:induction false} NoneInFlight(slots: seq<Option<Batch>>, lo: Bucket, hi: Bucket)
    requires forall i :: 0 <= i < |slots| && slots[i].Some? ==> !InBuckets(slots[i].value, lo, hi)
    ensures InFlight(slots, lo, hi) == 0
  {
    if slots != [] {
      assert forall i :: 0 <= i < |slots| - 1 ==> slots[..|slots| - 1][i] == slots[i];
      NoneInFlight(slots[..|slots| - 1], lo, hi);
    }
  }

  function Weight(slot: Option<Batch>, lo: Bucket, hi: Bucket): nat {
    if slot.Some? && InBuckets(slot.value, lo, hi) then slot.value.events else 0
  }

  /** Replacing one slot changes the sum by the difference. */
  lemma {:induction false} SlotReplaced(slots: seq<Option<Batch>>, c: nat, slot: Option<Batch>, lo: Bucket, hi: Bucket)
    requires c < |slots|
    ensures InFlight(slots[c := slot], lo, hi) + Weight(slots[c], lo, hi)
      == InFlight(slots, lo, hi) + Weight(slot, lo, hi)
  {
    hide InBuckets;
    var last := |slots| - 1;
    if c < last {
      assert slots[c := slot][..last] == slots[..last][c := slot];
      SlotReplaced(slots[..last], c, slot, lo, hi);
    } else {
      assert slots[c := slot][..last] == slots[..last];
    }
  }

  function Occupied(slots: seq<Option<Batch>>): nat {
    if slots == [] then 0 else Occupied(slots[..|slots| - 1]) + if slots[|slots| - 1].Some? then 1 else 0
  }

  /** Batches of at most `most` events in at most all slots but the one that is free. */
  lemma {:induction false} InFlightAtMost(slots: seq<Option<Batch>>, most: nat, lo: Bucket, hi: Bucket)
    requires forall i :: 0 <= i < |slots| && slots[i].Some? ==> slots[i].value.events <= most
    ensures InFlight(slots, lo, hi) <= Occupied(slots) * most
  {
    hide InBuckets;
    if slots != [] {
      var init := slots[..|slots| - 1];
      assert forall i :: 0 <= i < |init| ==> init[i] == slots[i];
      InFlightAtMost(init, most, lo, hi);
      if slots[|slots| - 1].Some? {
        assert Occupied(slots) * most == Occupied(init) * most + most;
      }
    }
  }

  lemma {:induction false} OccupiedAtMost(slots: seq<Option<Batch>>)
    ensures Occupied(slots) <= |slots|
  {
    if slots != [] {
      OccupiedAtMost(slots[..|slots| - 1]);
    }
  }

  lemma {:induction false} OneFree(slots: seq<Option<Batch>>, c: nat)
    requires c < |slots| && slots[c].None?
    ensures Occupied(slots) <= |slots| - 1
  {
    var last := |slots| - 1;
    if c < last {
      OneFree(slots[..last], c);
    } else {
      OccupiedAtMost(slots[..last]);
    }
  }
}
