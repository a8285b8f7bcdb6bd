/** Laws of the meaning of condition trees: what decides an `all` or an `any`, and that adding
fields to an event only ever adds matches to a rule without negation, and only ever removes
them from one where every test is negated. */
module RuleLaws {
  import opened Basics
  import opened RuleTree

  /** Every leaf is under an even number of negations, or under an odd one. */
  ghost predicate Polarity(v: Value, even: bool)
    decreases v
  {
    match Read(v)
    case Leaf(_, _, _) => even
    case Not(child) => Polarity(child, !even)
    case All(children) => forall i :: 0 <= i < |children| ==> Polarity(children[i], even)
    case Any(children) => forall i :: 0 <= i < |children| ==> Polarity(children[i], even)
    case Malformed => true
  }

  /** `richer` has, at every path where `event` has a scalar, the same scalar. */
  ghost predicate Extends(event: Value, richer: Value) {
    forall segments :: Resolve(event, segments).Some? ==> Resolve(richer, segments) == Resolve(event, segments)
  }

  /** Going from the first outcome to the second, a match is not lost (or, for the other
  polarity, a miss is not). */
  predicate Keeps(even: bool, before: Outcome, after: Outcome) {
    if even then before.Matches? ==> !after.Fails? else before.Fails? ==> !after.Matches?
  }

  lemma LeafKeeps(engine: Engine, op: Op, path: string, value: Option<Value>, event: Value, richer: Value)
    requires Extends(event, richer)
    ensures Keeps(true, LeafMeaning(engine, op, path, value, event), LeafMeaning(engine, op, path, value, richer))
  {
    hide Split, Resolve, ScalarEquals, PassesAny, Needles, NumberTest;
    var segments := Split(path);
    assert Resolve(event, segments).Some? ==> Resolve(richer, segments) == Resolve(event, segments);
  }

  lemma {:induction false} ChainKeeps(engine: Engine, v: Value, children: seq<Value>, go: Outcome, even: bool,
                                      event: Value, richer: Value)
    requires Below(v, children) && !go.TimedOut?
    requires forall i :: 0 <= i < |children| ==>
      Keeps(even, Meaning(engine, children[i], event), Meaning(engine, children[i], richer))
    ensures Keeps(even, Chain(engine, v, children, go, event), Chain(engine, v, children, go, richer))
    decreases |children|
  {
    hide Meaning;
    if children != [] {
      var rest := children[1..];
      assert forall i :: 0 <= i < |rest| ==> rest[i] == children[i + 1];
      ChainKeeps(engine, v, rest, go, even, event, richer);
      assert Keeps(even, Meaning(engine, children[0], event), Meaning(engine, children[0], richer));
    }
  }

  /** If every leaf is under an even number of negations, a match on an event is never a miss on
  a richer one; if every leaf is under an odd number, a miss is never a match. */
  lemma {:induction false} MeaningKeeps(engine: Engine, v: Value, even: bool, event: Value, richer: Value)
    requires Polarity(v, even) && Extends(event, richer)
    ensures Keeps(even, Meaning(engine, v, event), Meaning(engine, v, richer))
    decreases v
  {
    hide Extends, LeafMeaning;
    match Read(v) {
      case Leaf(op, path, value) =>
        if op.Some? {
          LeafKeeps(engine, op.value, path, value, event, richer);
        }
      case Not(child) => MeaningKeeps(engine, child, !even, event, richer);
      case All(children) =>
        forall i | 0 <= i < |children|
          ensures Keeps(even, Meaning(engine, children[i], event), Meaning(engine, children[i], richer))
        {
          MeaningKeeps(engine, children[i], even, event, richer);
        }
        ChainKeeps(engine, v, children, Matches, even, event, richer);
      case Any(children) =>
        forall i | 0 <= i < |children|
          ensures Keeps(even, Meaning(engine, children[i], event), Meaning(engine, children[i], richer))
        {
          MeaningKeeps(engine, children[i], even, event, richer);
        }
        ChainKeeps(engine, v, children, Fails, even, event, richer);
      case Malformed =>
    }
  }

  /** `all` matches when every child does and `any` fails when every child does; otherwise the
  first child that does not is the outcome, be it a decision or a timeout. */
  lemma {:induction false} FirstDecides(engine: Engine, v: Value, children: seq<Value>, go: Outcome, event: Value)
    requires Below(v, children)
    ensures var r := Chain(engine, v, children, go, event);
      if r == go then forall i :: 0 <= i < |children| ==> Meaning(engine, children[i], event) == go
      else exists i :: 0 <= i < |children| && Meaning(engine, children[i], event) == r
                       && forall j :: 0 <= j < i ==> Meaning(engine, children[j], event) == go
    decreases |children|
  {
    hide Meaning;
    if children != [] {
      var rest := children[1..];
      FirstDecides(engine, v, rest, go, event);
      assert forall i :: 0 <= i < |rest| ==> rest[i] == children[i + 1];
      var r := Chain(engine, v, children, go, event);
      if Meaning(engine, children[0], event) == go && r != go {
        var i :| 0 <= i < |rest| && Meaning(engine, rest[i], event) == r
                 && forall j :: 0 <= j < i ==> Meaning(engine, rest[j], event) == go;
        forall j | 0 <= j < i + 1
          ensures Meaning(engine, children[j], event) == go
        {
          if j > 0 {
            assert rest[j - 1] == children[j];
          }
        }
        assert Meaning(engine, children[i + 1], event) == r;
      } else if Meaning(engine, children[0], event) == go {
        forall j | 0 <= j < |children|
          ensures Meaning(engine, children[j], event) == go
        {
          if j > 0 {
            assert rest[j - 1] == children[j];
          }
        }
      }
    }
  }

  lemma {:induction false} NeverTimesOut(engine: Engine, v: Value, event: Value)
    requires forall p, s :: engine.search(p, s) != TimedOut
    ensures Meaning(engine, v, event) != TimedOut
    decreases v
  {
    match Read(v) {
      case Not(child) => NeverTimesOut(engine, child, event);
      case All(children) =>
        forall i | 0 <= i < |children|
          ensures Meaning(engine, children[i], event) != TimedOut
        {
          NeverTimesOut(engine, children[i], event);
        }
        FirstDecides(engine, v, children, Matches, event);
      case Any(children) =>
        forall i | 0 <= i < |children|
          ensures Meaning(engine, children[i], event) != TimedOut
        {
          NeverTimesOut(engine, children[i], event);
        }
        FirstDecides(engine, v, children, Fails, event);
      case _ =>
    }
  }

  /** With an engine that never times out: a rule whose tests are all unnegated (or negated an
  even number of times) keeps its match on a richer event; one whose tests are all negated an
  odd number of times matched before if it matches afterwards. */
  lemma MatchesKept(engine: Engine, v: Value, event: Value, richer: Value)
    requires Extends(event, richer)
    requires forall p, s :: engine.search(p, s) != TimedOut
    ensures Polarity(v, true) ==> Meaning(engine, v, event).Matches? ==> Meaning(engine, v, richer).Matches?
    ensures Polarity(v, false) ==> Meaning(engine, v, richer).Matches? ==> Meaning(engine, v, event).Matches?
  {
    hide Extends, Meaning, Polarity;
    NeverTimesOut(engine, v, event);
    NeverTimesOut(engine, v, richer);
    if Polarity(v, true) {
      MeaningKeeps(engine, v, true, event, richer);
    }
    if Polarity(v, false) {
      MeaningKeeps(engine, v, false, event, richer);
    }
  }
}
