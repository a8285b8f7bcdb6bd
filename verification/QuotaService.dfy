/** The ingest check as one caller runs it, and a minute in which twice the limit gets through. */
module QuotaServiceModule {
  import opened Basics
  import opened QuotaWindow
  import opened QuotaBound
  import opened QuotaExact

  class QuotaService {
    var store: State

    /** `current_ingest_rate`: the ten newest buckets are summed. */
    method CurrentIngestRate() returns (used: int)
      ensures used == Used(store)
    {
      used := 0;
      var bucket := BucketAt(store.now);
      for i := 0 to WINDOW_BUCKETS
        invariant used == WindowSum(store.counters, bucket, i)
      {
        if bucket - i in store.counters {
          used := used + store.counters[bucket - i];
        }
      }
    }

    /** `check_and_consume_ingest` by the caller that owns slot `c`: refused exactly when the
    window and the batch together exceed the limit; otherwise the batch is counted. */
    method CheckAndConsume(c: nat, events: nat, limit: nat) returns (allowed: bool)
      requires c < |store.slots| && store.slots[c].None?
      modifies this
      ensures allowed <==> Used(old(store)) + events <= limit
      ensures !allowed ==> store == old(store)
      ensures allowed ==>
        Run(old(store), limit, [Check(c, events), Increment(c), SetDeadline(BucketAt(old(store.now)))]) == Some(store)
    {
      var used := CurrentIngestRate();
      if used + events > limit {
        return false;
      }
      var now := store.now;
      var bucket := BucketAt(now);
      ghost var s0, s1 := store, Apply(store, limit, Check(c, events));
      ghost var s2 := Apply(s1, limit, Increment(c));
      var count := if bucket in store.counters then store.counters[bucket] else 0;
      store := store.(counters := store.counters[bucket := count + events],
                      admitted := store.admitted + [Batch(now, events)]);
      SlotTakenAndFreed(store.slots, c, Some(Batch(now, events)));
      assert store == s2;
      store := store.(deadlines := store.deadlines[bucket := now + BUCKET_TTL]);
      ThreeSteps(s0, limit, Check(c, events), Increment(c), SetDeadline(bucket));
      return true;
    }
  }

  lemma SlotTakenAndFreed(slots: seq<Option<Batch>>, c: nat, slot: Option<Batch>)
    requires c < |slots| && slots[c].None?
    ensures slots[c := slot][c := None] == slots
  {
  }

  lemma ThreeSteps(s: State, limit: nat, a: Step, b: Step, d: Step)
    requires Enabled(s, a) && Enabled(Apply(s, limit, a), b) && Enabled(Apply(Apply(s, limit, a), limit, b), d)
    ensures Run(s, limit, [a, b, d]) == Some(Apply(Apply(Apply(s, limit, a), limit, b), limit, d))
  {
    assert Run(s, limit, []) == Some(s);
    hide Enabled, Apply, Run;
    OneStep(s, limit, [], a, [a]);
    OneStep(s, limit, [a], b, [a, b]);
    OneStep(s, limit, [a, b], d, [a, b, d]);
  }

  // ---- twice the limit in a minute

  lemma BucketOf(k: nat, t: real)
    requires k as real * 6.0 <= t < (k as real + 1.0) * 6.0
    ensures BucketAt(t) == k
  {
    var q := t / 6.0;
    assert k as real <= q < k as real + 1.0;
  }

  lemma TwiceInAMinute(limit: nat, s: State)
    requires s == Initial(5.0, 1)
    ensures Enabled(s, Check(0, limit)) && Enabled(Apply(s, limit, Check(0, limit)), Increment(0))
    ensures var first := Apply(Apply(s, limit, Check(0, limit)), limit, Increment(0));
      var later := Apply(first, limit, Advance(60.0));
      && Enabled(first, Advance(60.0)) && Enabled(later, Check(0, limit))
      && Enabled(Apply(later, limit, Check(0, limit)), Increment(0))
      && Apply(Apply(later, limit, Check(0, limit)), limit, Increment(0)).admitted
           == [Batch(5.0, limit)] + [Batch(60.0, limit)]
  {
    BucketOf(0, 5.0);
    BucketOf(10, 60.0);
    hide BucketAt;
    NothingInWindow(s.counters, 0, WINDOW_BUCKETS);
    var checked := Apply(s, limit, Check(0, limit));
    assert checked.slots == [Some(Batch(5.0, limit))];
    var first := Apply(checked, limit, Increment(0));
    assert first.slots == [None] && first.admitted == [Batch(5.0, limit)];
    var later := Apply(first, limit, Advance(60.0));
    assert later.counters.Keys <= {0};
    NothingInWindow(later.counters, 10, WINDOW_BUCKETS);
    assert Used(later) == 0;
  }

  /** A minute is ten buckets long but can touch eleven: a single caller can be let through with
  twice the limit within sixty seconds. */
  lemma MinuteCanDouble(limit: nat)
    ensures exists steps :: var r := Run(Initial(5.0, 1), limit, steps);
      r.Some? && AdmittedBetween(r.value.admitted, 5.0, 65.0) == 2 * limit
  {
    var s := Initial(5.0, 1);
    assert s.slots == [None];
    TwiceInAMinute(limit, s);
    var a, b, d := Check(0, limit), Increment(0), Advance(60.0);
    hide Enabled, Apply, Run, Initial;
    ThreeSteps(s, limit, a, b, d);
    var s3 := Apply(Apply(Apply(s, limit, a), limit, b), limit, d);
    var s4 := Apply(s3, limit, a);
    OneStep(s, limit, [a, b, d], a, [a, b, d, a]);
    OneStep(s, limit, [a, b, d, a], b, [a, b, d, a, b]);
    var log := [Batch(5.0, limit)] + [Batch(60.0, limit)];
    assert log[..1] == [Batch(5.0, limit)] && [Batch(5.0, limit)][..0] == [];
    assert AdmittedBetween([Batch(5.0, limit)], 5.0, 65.0) == limit;
    assert AdmittedBetween(log, 5.0, 65.0) == 2 * limit;
    assert Run(s, limit, [a, b, d, a, b]).Some?;
  }
}
