/** The daily quota of deep investigations: one counter, taken from by an atomic script or, where
scripts are not available, by a decrement that is compensated when it went below zero. */
module QuotaCounter {
  import opened Basics

  type CallerId = nat

  // ---- the script

  /** The script's first part: the key is seeded if it is missing. */
  function Seed(key: Option<int>, limit: int): int {
    if key.None? then limit else key.value
  }

  /** Its second part: the new value of the key, and what the script returns. */
  function Take(value: int): (int, int) {
    if value <= 0 then (value, -1) else (value - 1, value - 1)
  }

  /** The key in the store, and the calls one at a time. */
  class Counter {
    var key: Option<int>

    /** `DI_CONSUME_LUA` */
    method Script(limit: int) returns (result: int)
      modifies this
      ensures key == Some(Take(Seed(old(key), limit)).0) && result == Take(Seed(old(key), limit)).1
    {
      var v := key;
      if v.None? {
        key := Some(limit);
        v := key;
      }
      if v.value <= 0 {
        return -1;
      }
      key := Some(v.value - 1);
      result := v.value - 1;
    }

    /** The fallback, run without interruption, does what the script does. */
    method Fallback(limit: int) returns (result: int)
      modifies this
      ensures key == Some(Take(Seed(old(key), limit)).0) && result == Take(Seed(old(key), limit)).1
    {
      if key.None? {
        key := Some(limit);
      }
      var remaining := key.value - 1;
      key := Some(remaining);
      if remaining < 0 {
        key := Some(key.value + 1);
        return -1;
      }
      return remaining;
    }

    /** `consume_deep_investigation`: -1 is unlimited and no other limit below 1 lets anyone
    through; neither touches the key. */
    method Consume(dailyLimit: int, scripting: bool) returns (allowed: bool, remaining: int)
      modifies this
      ensures dailyLimit <= 0 ==> key == old(key) && allowed == (dailyLimit == -1)
      ensures dailyLimit > 0 ==> key == Some(Take(Seed(old(key), dailyLimit)).0)
      ensures dailyLimit > 0 ==> (allowed <==> Seed(old(key), dailyLimit) > 0)
      ensures remaining == if dailyLimit == -1 then -1 else if allowed then key.value else 0
    {
      if dailyLimit == -1 {
        return true, -1;
      }
      if dailyLimit <= 0 {
        return false, 0;
      }
      var result: int;
      if scripting {
        result := Script(dailyLimit);
      } else {
        result := Fallback(dailyLimit);
      }
      if result < 0 {
        return false, 0;
      }
      return true, result;
    }
  }

  // ---- callers of both kinds, interleaved

  /** `ready` callers have seeded and not yet decremented; `owing` ones went below zero and have
  not yet compensated; `lost` counts those that never will.  `limit` is what the key was
  seeded with, `successes` how many callers were let through. */
  datatype State = State(key: Option<int>, limit: int, successes: nat,
                         ready: set<CallerId>, owing: set<CallerId>, lost: nat)

  const INITIAL := State(None, 0, 0, {}, {}, 0)

  datatype Step =
    | RunScript(limit: int)
    | SetIfMissing(c: CallerId, limit: int)
    | Decrement(c: CallerId)
    | Compensate(c: CallerId)
    | Crash(c: CallerId)

  /** Only a positive limit gets as far as the counter. */
  predicate Enabled(s: State, step: Step) {
    match step
    case RunScript(limit) => limit > 0
    case SetIfMissing(c, limit) => limit > 0 && c !in s.ready && c !in s.owing
    case Decrement(c) => c in s.ready && s.key.Some?
    case Compensate(c) => c in s.owing && s.key.Some?
    case Crash(c) => true
  }

  function Seeded(s: State, limit: int): State {
    if s.key.None? then s.(key := Some(limit), limit := limit) else s
  }

  /** What the caller of this step is told, if it is the step that decides. */
  function Answer(s: State, step: Step): Option<int>
    requires Enabled(s, step)
  {
    match step
    case RunScript(limit) => Some(Take(Seed(s.key, limit)).1)
    case Decrement(c) => Some(if s.key.value - 1 < 0 then -1 else s.key.value - 1)
    case _ => None
  }

  function Apply(s: State, step: Step): State
    requires Enabled(s, step)
  {
    match step
    case RunScript(limit) =>
      var s1 := Seeded(s, limit);
      if s1.key.value <= 0 then s1 else s1.(key := Some(s1.key.value - 1), successes := s1.successes + 1)
    case SetIfMissing(c, limit) =>
      var s1 := Seeded(s, limit);
      s1.(ready := s1.ready + {c})
    case Decrement(c) =>
      var remaining := s.key.value - 1;
      var s1 := s.(key := Some(remaining), ready := s.ready - {c});
      if remaining < 0 then s1.(owing := s1.owing + {c}) else s1.(successes := s1.successes + 1)
    case Compensate(c) => s.(key := Some(s.key.value + 1), owing := s.owing - {c})
    case Crash(c) => s.(ready := s.ready - {c}, owing := s.owing - {c}, lost := s.lost + if c in s.owing then 1 else 0)
  }

  function Run(s: State, steps: seq<Step>): Option<State> {
    if steps == [] then Some(s)
    else
      var before := Run(s, steps[..|steps| - 1]);
      if before.Some? && Enabled(before.value, steps[|steps| - 1])
      then Some(Apply(before.value, steps[|steps| - 1])) else None
  }

  /** Denials that have been counted and not been given back. */
  function Uncompensated(s: State): nat {
    |s.owing| + s.lost
  }

  ghost predicate Inv(s: State) {
    && s.ready !! s.owing
    && (s.key.None? ==> s.ready == {} && s.owing == {} && s.successes == 0 && s.lost == 0)
    && (s.key.Some? ==> s.limit > 0 && s.key.value == s.limit - s.successes - Uncompensated(s))
    && (s.key.Some? ==> s.successes <= s.limit)
    && (Uncompensated(s) > 0 ==> s.successes == s.limit)
  }

  lemma ApplyKeeps(s: State, step: Step)
    requires Inv(s) && Enabled(s, step)
    ensures Inv(Apply(s, step))
    ensures s.key.Some? ==> Apply(s, step).limit == s.limit
  {
    match step {
      case Decrement(c) =>
        assert |s.owing + {c}| == |s.owing| + 1;
        assert s.owing != {} ==> |s.owing| > 0;
      case Compensate(c) =>
        assert |s.owing| == |s.owing - {c}| + 1;
      case Crash(c) =>
        assert c in s.owing ==> |s.owing| == |s.owing - {c}| + 1;
        assert c !in s.owing ==> s.owing - {c} == s.owing;
      case _ =>
    }
  }

  /** In every interleaving of scripts, fallbacks and crashes: the counter is the limit less the
  successes less the uncompensated denials, and there are never more successes than the limit. */
  lemma {:induction false} CounterIsExact(steps: seq<Step>)
    requires Run(INITIAL, steps).Some?
    ensures var s := Run(INITIAL, steps).value;
      && Inv(s)
      && (s.key.Some? ==> s.key.value == s.limit - s.successes - Uncompensated(s) && s.successes <= s.limit)
      && (s.key.None? ==> s.successes == 0)
  {
    if steps != [] {
      CounterIsExact(steps[..|steps| - 1]);
      ApplyKeeps(Run(INITIAL, steps[..|steps| - 1]).value, steps[|steps| - 1]);
    }
  }

  /** A caller is denied only when the successes have reached the limit, and let through only
  when they have not; it is told what is left. */
  lemma DeniedOnlyWhenUsedUp(steps: seq<Step>, step: Step)
    requires Run(INITIAL, steps).Some? && Enabled(Run(INITIAL, steps).value, step)
    ensures var s := Run(INITIAL, steps).value;
      var after, answer := Apply(s, step), Answer(s, step);
      answer.Some? ==>
        && (answer.value < 0 <==> s.key.Some? && s.successes == s.limit)
        && (answer.value < 0 ==> after.successes == s.successes)
        && (answer.value >= 0 ==> after.successes == s.successes + 1 && answer.value == after.limit - after.successes)
  {
    CounterIsExact(steps);
    var s := Run(INITIAL, steps).value;
    ApplyKeeps(s, step);
    if s.owing != {} {
      var c :| c in s.owing;
      assert |s.owing| == |s.owing - {c}| + 1;
    }
  }

  // ---- refinement

  /** What the script would see in the key: the counter with the denials given back. */
  function Abstract(s: State): Option<int> {
    if s.key.None? then None else Some(s.key.value + Uncompensated(s))
  }

  /** The script's key after the step, and its answer: the step is one whole script, its first
  part, its second part, or nothing. */
  function Abstractly(key: Option<int>, step: Step): (Option<int>, Option<int>) {
    match step
    case RunScript(limit) => (Some(Take(Seed(key, limit)).0), Some(Take(Seed(key, limit)).1))
    case SetIfMissing(_, limit) => (Some(Seed(key, limit)), None)
    case Decrement(_) => if key.None? then (None, None) else (Some(Take(key.value).0), Some(Take(key.value).1))
    case _ => (key, None)
  }

  /** How a step changes the number of uncompensated denials. */
  lemma OwedAfter(s: State, step: Step)
    requires Inv(s) && Enabled(s, step)
    ensures Uncompensated(Apply(s, step)) == Uncompensated(s) +
      match step
      case Decrement(_) => if s.key.value - 1 < 0 then 1 else 0
      case Compensate(_) => -1
      case _ => 0
  {
    match step {
      case Decrement(c) =>
        assert |s.owing + {c}| == |s.owing| + 1;
      case Compensate(c) =>
        assert |s.owing| == |s.owing - {c}| + 1;
      case Crash(c) =>
        assert c in s.owing ==> |s.owing| == |s.owing - {c}| + 1;
        assert c !in s.owing ==> s.owing - {c} == s.owing;
      case _ =>
    }
  }

  lemma StepRefines(s: State, step: Step)
    requires Inv(s) && Enabled(s, step)
    ensures (Abstract(Apply(s, step)), Answer(s, step)) == Abstractly(Abstract(s), step)
  {
    OwedAfter(s, step);
    hide Uncompensated;
  }

  /** The fallback refines the script: step by step it does to the counter with the denials
  given back what the script does to its key, and it gives the script's answers. */
  lemma {:induction false} FallbackRefinesScript(steps: seq<Step>, step: Step)
    requires Run(INITIAL, steps).Some? && Enabled(Run(INITIAL, steps).value, step)
    ensures var s := Run(INITIAL, steps).value;
      (Abstract(Apply(s, step)), Answer(s, step)) == Abstractly(Abstract(s), step)
  {
    CounterIsExact(steps);
    hide *;
    StepRefines(Run(INITIAL, steps).value, step);
  }
}
