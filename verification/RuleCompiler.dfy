/** The compiler: one pass over a condition tree that checks it, counts its leaves in a shared
counter, and builds a closure with everything folded that does not depend on the event. */
module RuleCompiler {
  import opened Basics
  import opened RuleTree
  import D = RuleDocuments

  type Predicate = Value -> Outcome

  // ---- paths

  /** `resolve_path` */
  method ResolvePath(event: Value, segments: seq<string>) returns (r: Option<Value>)
    ensures r == Resolve(event, segments)
  {
    var current := event;
    for i := 0 to |segments|
      invariant Resolve(event, segments) == Resolve(current, segments[i..])
    {
      if !current.Obj? || segments[i] !in current.fields {
        return None;
      }
      current := current.fields[segments[i]];
    }
    if current.Null? || current.Obj? || current.List? {
      return None;
    }
    return Some(current);
  }

  // ---- operators

  /** Some needle passes the test. */
  function AnyNeedle(test: TextTest, text: string, needles: seq<string>): (r: bool)
    ensures r <==> exists i :: 0 <= i < |needles| && StringTest(test, text, needles[i])
  {
    needles != [] && (StringTest(test, text, needles[0]) || AnyNeedle(test, text, needles[1..]))
  }

  function AnyEqual(field: Option<Value>, items: seq<Value>): (r: bool)
    ensures r <==> exists i :: 0 <= i < |items| && ScalarEquals(field, items[i])
  {
    items != [] && (ScalarEquals(field, items[0]) || AnyEqual(field, items[1..]))
  }

  method StringOrList(value: Value) returns (r: Option<seq<string>>)
    ensures r.Some? <==> ValidStrings(value)
    ensures r.Some? ==> forall s :: s in r.value <==> s in Needles(value)
  {
    if value.Str? {
      return if |value.s| > MAX_STRING_CHARS then None else Some([value.s]);
    }
    if !value.List? || value.items == [] || |value.items| > MAX_LIST_ENTRIES {
      return None;
    }
    var texts: seq<string> := [];
    for i := 0 to |value.items|
      invariant |texts| == i
      invariant forall j :: 0 <= j < i ==> ShortString(value.items[j]) && texts[j] == value.items[j].s
    {
      if !value.items[i].Str? || |value.items[i].s| > MAX_STRING_CHARS {
        assert !ShortString(value.items[i]);
        return None;
      }
      texts := texts + [value.items[i].s];
    }
    forall s
      ensures s in texts <==> s in Needles(value)
    {
      if s in texts {
        var j :| 0 <= j < |texts| && texts[j] == s;
        assert value.items[j] in value.items && value.items[j].s == s;
      }
    }
    return Some(texts);
  }

  method FoldAll(fold: string -> string, texts: seq<string>) returns (r: seq<string>)
    ensures |r| == |texts| && forall i :: 0 <= i < |r| ==> r[i] == fold(texts[i])
  {
    r := [];
    for i := 0 to |texts|
      invariant |r| == i && forall j :: 0 <= j < i ==> r[j] == fold(texts[j])
    {
      r := r + [fold(texts[i])];
    }
  }

  method CheckScalars(items: seq<Value>) returns (ok: bool)
    ensures ok <==> forall x :: x in items ==> ValidScalar(x)
  {
    for i := 0 to |items|
      invariant forall j :: 0 <= j < i ==> ValidScalar(items[j])
    {
      if !items[i].Bool? && !items[i].Num? && !(items[i].Str? && |items[i].s| <= MAX_STRING_CHARS) {
        assert !ValidScalar(items[i]);
        return false;
      }
    }
    return true;
  }

  const STRING_OPS: set<string> :=
    {"contains", "icontains", "startswith", "istartswith", "endswith", "iendswith"}

  const NUMERIC_OPS: set<string> := {"gt", "gte", "lt", "lte"}

  /** Case-insensitive operators are told by their first letter. */
  lemma OpReads(op: string)
    requires op in STRING_OPS
    ensures var base := if op[0] == 'i' then op[1..] else op;
      && base in {"contains", "startswith", "endswith"}
      && var test := if base == "contains" then Containing else if base == "startswith" then Starting else Ending;
         OpNamed(op) == Some(Text(test, op[0] == 'i'))
  {
    assert "icontains"[1..] == "contains";
    assert "istartswith"[1..] == "startswith";
    assert "iendswith"[1..] == "endswith";
  }

  method CompileStringOp(engine: Engine, op: string, path: string, value: Value) returns (r: Option<Predicate>)
    requires op in STRING_OPS
    ensures OpNamed(op).Some?
    ensures r.Some? <==> ValidOp(engine, OpNamed(op).value, Some(value))
    ensures r.Some? ==>
      forall event :: r.value(event) == LeafMeaning(engine, OpNamed(op).value, path, Some(value), event)
  {
    OpReads(op);
    hide OpNamed, Split, Resolve, Needles, LeafMeaning;
    var segments := Split(path);
    var insensitive := op[0] == 'i';
    var base := if insensitive then op[1..] else op;
    var test := if base == "contains" then Containing else if base == "startswith" then Starting else Ending;
    var needles := StringOrList(value);
    if needles.None? {
      return None;
    }
    var compiled := needles.value;
    if insensitive {
      compiled := FoldAll(engine.fold, compiled);
    }
    r := Some((event: Value) =>
      var field := Resolve(event, segments);
      if field.Some? && field.value.Str? then
        Holds(AnyNeedle(test, if insensitive then engine.fold(field.value.s) else field.value.s, compiled))
      else Fails);
    forall event: Value
      ensures r.value(event) == LeafMeaning(engine, Text(test, insensitive), path, Some(value), event)
    {
      TextMeaning(engine, Text(test, insensitive), path, value, needles.value, compiled, event);
    }
  }

  lemma TextMeaning(engine: Engine, op: Op, path: string, value: Value, texts: seq<string>, compiled: seq<string>,
                    event: Value)
    requires op.Text?
    requires forall s :: s in texts <==> s in Needles(value)
    requires |compiled| == |texts|
    requires forall i :: 0 <= i < |texts| ==> compiled[i] == Folded(engine, op.insensitive, texts[i])
    ensures LeafMeaning(engine, op, path, Some(value), event)
      == var field := Resolve(event, Split(path));
         if field.Some? && field.value.Str?
         then Holds(AnyNeedle(op.test, Folded(engine, op.insensitive, field.value.s), compiled)) else Fails
  {
    hide Resolve, Split, Needles, StringTest, AnyNeedle, Folded, PassesAny;
    var field := Resolve(event, Split(path));
    if field.Some? && field.value.Str? {
      AnyOfNeedles(engine, op, field.value.s, texts, compiled, Needles(value));
    }
  }

  lemma AnyOfNeedles(engine: Engine, op: Op, text: string, texts: seq<string>, compiled: seq<string>,
                     needles: set<string>)
    requires op.Text?
    requires forall s :: s in texts <==> s in needles
    requires |compiled| == |texts|
    requires forall i :: 0 <= i < |texts| ==> compiled[i] == Folded(engine, op.insensitive, texts[i])
    ensures AnyNeedle(op.test, Folded(engine, op.insensitive, text), compiled)
      <==> PassesAny(engine, op.test, op.insensitive, text, needles)
  {
    hide StringTest, Folded;
    var hay := Folded(engine, op.insensitive, text);
    if AnyNeedle(op.test, hay, compiled) {
      var i :| 0 <= i < |compiled| && StringTest(op.test, hay, compiled[i]);
      assert texts[i] in needles;
    }
    if x :| x in needles && StringTest(op.test, hay, Folded(engine, op.insensitive, x)) {
      var i :| 0 <= i < |texts| && texts[i] == x;
      assert StringTest(op.test, hay, compiled[i]);
    }
  }

  method CompileIin(engine: Engine, path: string, value: Value) returns (r: Option<Predicate>)
    ensures r.Some? <==> ValidOp(engine, IIn, Some(value))
    ensures r.Some? ==> forall event :: r.value(event) == LeafMeaning(engine, IIn, path, Some(value), event)
  {
    hide Split, Resolve, Needles;
    var segments := Split(path);
    if !value.List? || value.items == [] {
      return None;
    }
    var texts := StringOrList(value);
    if texts.None? {
      return None;
    }
    var folded := set s | s in texts.value :: engine.fold(s);
    r := Some((event: Value) =>
      var field := Resolve(event, segments);
      if field.Some? && field.value.Str? then Holds(engine.fold(field.value.s) in folded) else Fails);
  }

  method CompileIn(engine: Engine, path: string, value: Value) returns (r: Option<Predicate>)
    ensures r.Some? <==> ValidOp(engine, In, Some(value))
    ensures r.Some? ==> forall event :: r.value(event) == LeafMeaning(engine, In, path, Some(value), event)
  {
    hide Split, Resolve, ValidScalar, ScalarEquals;
    var segments := Split(path);
    if !value.List? || value.items == [] || |value.items| > MAX_LIST_ENTRIES {
      return None;
    }
    var items := value.items;
    var ok := CheckScalars(items);
    if !ok {
      return None;
    }
    r := Some((event: Value) => Holds(AnyEqual(Resolve(event, segments), items)));
    forall event: Value
      ensures r.value(event) == LeafMeaning(engine, In, path, Some(value), event)
    {
      EqualMembers(Resolve(event, segments), items);
    }
  }

  lemma EqualMembers(field: Option<Value>, items: seq<Value>)
    ensures AnyEqual(field, items) <==> field.Some? && exists x :: x in items && ScalarEquals(field, x)
  {
    if AnyEqual(field, items) {
      var i :| 0 <= i < |items| && ScalarEquals(field, items[i]);
      assert items[i] in items;
    }
  }

  method CompileNumeric(engine: Engine, op: string, path: string, value: Value) returns (r: Option<Predicate>)
    requires op in NUMERIC_OPS
    ensures OpNamed(op).Some?
    ensures r.Some? <==> ValidOp(engine, OpNamed(op).value, Some(value))
    ensures r.Some? ==>
      forall event :: r.value(event) == LeafMeaning(engine, OpNamed(op).value, path, Some(value), event)
  {
    var segments := Split(path);
    hide Split, Resolve;
    if !value.Num? {
      return None;
    }
    var c := if op == "gt" then Gt else if op == "gte" then Gte else if op == "lt" then Lt else Lte;
    assert OpNamed(op) == Some(Compare(c));
    hide OpNamed;
    var limit := value.n;
    r := Some((event: Value) =>
      var field := Resolve(event, segments);
      if field.Some? && field.value.Num? then Holds(NumberTest(c, field.value.n, limit)) else Fails);
  }

  /** `_validate_re2_subset` */
  method CheckSubset(engine: Engine, pattern: string) returns (ok: bool)
    ensures ok <==> InSubset(pattern) && engine.accepts(pattern)
  {
    if |pattern| > MAX_REGEX_CHARS {
      return false;
    }
    for k := 0 to |FORBIDDEN|
      invariant forall j :: 0 <= j < k ==> !Contains(pattern, FORBIDDEN[j])
    {
      if Contains(pattern, FORBIDDEN[k]) {
        return false;
      }
    }
    for i := 0 to |pattern|
      invariant forall j :: 0 <= j < i ==> !BackreferenceAt(pattern, j)
    {
      if BackreferenceAt(pattern, i) {
        return false;
      }
    }
    return engine.accepts(pattern);
  }

  /** The rest of the operators that take a value. */
  method CompileOther(engine: Engine, op: string, path: string, value: Value) returns (r: Option<Predicate>)
    requires op !in STRING_OPS && op !in NUMERIC_OPS && op != "exists"
    ensures r.Some? <==> OpNamed(op).Some? && ValidOp(engine, OpNamed(op).value, Some(value))
    ensures r.Some? ==>
      forall event :: r.value(event) == LeafMeaning(engine, OpNamed(op).value, path, Some(value), event)
  {
    hide Split, Resolve, InSubset, Needles;
    var segments := Split(path);
    if op == "equals" {
      if !ValidScalar(value) {
        return None;
      }
      return Some((event: Value) => Holds(ScalarEquals(Resolve(event, segments), value)));
    } else if op == "iequals" {
      if !ShortString(value) {
        return None;
      }
      var folded := engine.fold(value.s);
      return Some((event: Value) =>
      var field := Resolve(event, segments);
      if field.Some? && field.value.Str? then Holds(engine.fold(field.value.s) == folded) else Fails);
    } else if op == "in" {
      r := CompileIn(engine, path, value);
    } else if op == "iin" {
      r := CompileIin(engine, path, value);
    } else if op == "regex" {
      if !ShortString(value) {
        return None;
      }
      var pattern := value.s;
      var ok := CheckSubset(engine, pattern);
      if !ok {
        return None;
      }
      return Some((event: Value) =>
      var field := Resolve(event, segments);
      if field.Some? && field.value.Str? then engine.search(pattern, field.value.s) else Fails);
    } else {
      return None;
    }
  }

  // ---- trees

  class CompileState {
    const engine: Engine
    const eventClass: EventClass
    var leaves: nat

    constructor (engine: Engine, eventClass: EventClass)
      ensures leaves == 0 && this.engine == engine && this.eventClass == eventClass
    {
      this.engine, this.eventClass, this.leaves := engine, eventClass, 0;
    }
  }

  /** All children's outcomes from left to right, stopping at the first that is not `go`. */
  function RunChain(predicates: seq<Predicate>, go: Outcome, event: Value): Outcome {
    if predicates == [] then go
    else
      var first := predicates[0](event);
      if first != go then first else RunChain(predicates[1..], go, event)
  }

  lemma {:induction false} ChainMeans(engine: Engine, v: Value, children: seq<Value>, predicates: seq<Predicate>,
                                      go: Outcome, event: Value)
    requires Below(v, children) && |children| == |predicates|
    requires forall i :: 0 <= i < |children| ==> predicates[i](event) == Meaning(engine, children[i], event)
    ensures RunChain(predicates, go, event) == Chain(engine, v, children, go, event)
    decreases |children|
  {
    hide Meaning;
    if children != [] {
      assert children[1..] == children[1..|children|];
      ChainMeans(engine, v, children[1..], predicates[1..], go, event);
    }
  }

  method CompileLeaf(node: Value, state: CompileState) returns (r: Option<Predicate>)
    requires node.Obj? && "field" in node.fields && state.leaves <= MAX_LEAVES
    modifies state
    ensures state.leaves >= old(state.leaves)
    ensures r.Some? <==>
      NodesValid(state.engine, state.eventClass, node) && old(state.leaves) + Leaves(node) <= MAX_LEAVES
    ensures r.Some? ==> state.leaves == old(state.leaves) + Leaves(node)
    ensures r.Some? ==> forall event :: r.value(event) == Meaning(state.engine, node, event)
  {
    hide ValidPath, ValidOp, LeafMeaning, OpNamed;
    var engine := state.engine;
    if !(node.fields.Keys <= {"field", "op", "value"}) {
      return None;
    }
    if !IsText(Get(node.fields, "op")) {
      return None;
    }
    var op := node.fields["op"].s;
    if !node.fields["field"].Str? || !ValidPath(node.fields["field"].s, state.eventClass) {
      return None;
    }
    var path := node.fields["field"].s;
    var value := Get(node.fields, "value");
    assert Read(node) == Leaf(OpNamed(op), path, value);
    state.leaves := state.leaves + 1;
    if state.leaves > MAX_LEAVES {
      return None;
    }
    r := CompileTest(engine, op, path, value);
  }

  method CompileTest(engine: Engine, op: string, path: string, value: Option<Value>) returns (r: Option<Predicate>)
    ensures r.Some? <==> OpNamed(op).Some? && ValidOp(engine, OpNamed(op).value, value)
    ensures r.Some? ==> forall event :: r.value(event) == LeafMeaning(engine, OpNamed(op).value, path, value, event)
  {
    hide Resolve, Split;
    if op == "exists" {
      if value.Some? {
        return None;
      }
      var segments := Split(path);
      return Some((event: Value) => Holds(Resolve(event, segments).Some?));
    }
    if value.None? {
      NeedsValue(engine, op);
      return None;
    }
    hide ValidOp, LeafMeaning, OpNamed;
    if op in STRING_OPS {
      r := CompileStringOp(engine, op, path, value.value);
    } else if op in NUMERIC_OPS {
      r := CompileNumeric(engine, op, path, value.value);
    } else {
      r := CompileOther(engine, op, path, value.value);
    }
  }

  lemma NeedsValue(engine: Engine, op: string)
    requires op != "exists"
    ensures OpNamed(op).Some? ==> !ValidOp(engine, OpNamed(op).value, None)
  {
  }

  /** A tree is compiled exactly when each of its nodes is valid, its depth is within bounds,
  and its leaves fit under the limit together with those counted before; the closure then
  gives the tree's meaning on every event. */
  method CompileNode(node: Value, state: CompileState, depth: nat) returns (r: Option<Predicate>)
    requires depth >= 1 && state.leaves <= MAX_LEAVES
    modifies state
    decreases node, 1
    ensures state.leaves >= old(state.leaves)
    ensures r.Some? <==>
      && NodesValid(state.engine, state.eventClass, node)
      && depth - 1 + Height(node) <= MAX_TREE_DEPTH
      && old(state.leaves) + Leaves(node) <= MAX_LEAVES
    ensures r.Some? ==> state.leaves == old(state.leaves) + Leaves(node)
    ensures r.Some? ==> forall event :: r.value(event) == Meaning(state.engine, node, event)
  {
    hide RunChain, Chain, ChildrenValid, Highest, LeavesOf, LeafMeaning, ValidPath, ValidOp, OpNamed;
    if depth > MAX_TREE_DEPTH {
      return None;
    }
    if !node.Obj? {
      return None;
    }
    if "field" in node.fields {
      r := CompileLeaf(node, state);
      return;
    }
    if "not" in node.fields {
      if node.fields.Keys != {"not"} {
        return None;
      }
      var child := CompileNode(node.fields["not"], state, depth + 1);
      if child.None? {
        return None;
      }
      var inner := child.value;
      return Some((event: Value) => Negate(inner(event)));
    }
    var all := "all" in node.fields;
    var key := if all then "all" else "any";
    if node.fields.Keys != {key} || !IsChildren(node.fields[key]) {
      return None;
    }
    var children := node.fields[key].items;
    var predicates := CompileChildren(node, children, state, depth);
    if predicates.None? {
      return None;
    }
    var go := if all then Matches else Fails;
    var compiled := predicates.value;
    r := Some((event: Value) => RunChain(compiled, go, event));
    forall event: Value
      ensures r.value(event) == Meaning(state.engine, node, event)
    {
      ChainMeans(state.engine, node, children, compiled, go, event);
    }
  }

  method CompileChildren(node: Value, children: seq<Value>, state: CompileState, depth: nat)
    returns (r: Option<seq<Predicate>>)
    requires 1 <= depth <= MAX_TREE_DEPTH && state.leaves <= MAX_LEAVES && Below(node, children)
    modifies state
    decreases node, 0
    ensures state.leaves >= old(state.leaves)
    ensures r.Some? <==>
      && ChildrenValid(state.engine, state.eventClass, node, children)
      && depth + Highest(node, children) <= MAX_TREE_DEPTH
      && old(state.leaves) + LeavesOf(node, children) <= MAX_LEAVES
    ensures r.Some? ==> state.leaves == old(state.leaves) + LeavesOf(node, children)
    ensures r.Some? ==> |r.value| == |children|
    ensures r.Some? ==> forall i, event :: 0 <= i < |children| ==>
      r.value[i](event) == Meaning(state.engine, children[i], event)
  {
    hide Meaning, NodesValid, Height, Highest, Leaves, LeavesOf, ChildrenValid;
    var predicates: seq<Predicate> := [];
    NoChildren(state.engine, state.eventClass, node, children[..0]);
    for i := 0 to |children|
      invariant |predicates| == i && old(state.leaves) <= state.leaves <= MAX_LEAVES
      invariant ChildrenValid(state.engine, state.eventClass, node, children[..i])
      invariant depth + Highest(node, children[..i]) <= MAX_TREE_DEPTH
      invariant state.leaves == old(state.leaves) + LeavesOf(node, children[..i])
      invariant forall j, event :: 0 <= j < i ==> predicates[j](event) == Meaning(state.engine, children[j], event)
    {
      OneMoreChild(state.engine, state.eventClass, node, children, i);
      PrefixBelow(state.engine, state.eventClass, node, children, i + 1);
      var child := CompileNode(children[i], state, depth + 1);
      if child.None? {
        return None;
      }
      predicates := predicates + [child.value];
    }
    assert children[..|children|] == children;
    return Some(predicates);
  }

  lemma NoChildren(engine: Engine, c: EventClass, node: Value, none: seq<Value>)
    requires none == []
    ensures ChildrenValid(engine, c, node, none) && Highest(node, none) == 0 && LeavesOf(node, none) == 0
  {
  }

  lemma OneMoreChild(engine: Engine, c: EventClass, node: Value, children: seq<Value>, i: nat)
    requires Below(node, children) && i < |children|
    ensures ChildrenValid(engine, c, node, children[..i + 1])
      <==> ChildrenValid(engine, c, node, children[..i]) && NodesValid(engine, c, children[i])
    ensures Highest(node, children[..i + 1])
      == if Highest(node, children[..i]) < Height(children[i]) then Height(children[i])
         else Highest(node, children[..i])
    ensures LeavesOf(node, children[..i + 1]) == LeavesOf(node, children[..i]) + Leaves(children[i])
  {
    hide NodesValid, Height, Leaves;
    assert children[..i + 1][..i] == children[..i];
  }

  /** A part of the children is valid if all are, has no more leaves, and is no higher. */
  lemma {:induction false} PrefixBelow(engine: Engine, c: EventClass, node: Value, children: seq<Value>, n: nat)
    requires Below(node, children) && n <= |children|
    ensures ChildrenValid(engine, c, node, children) ==> ChildrenValid(engine, c, node, children[..n])
    ensures Highest(node, children[..n]) <= Highest(node, children)
    ensures LeavesOf(node, children[..n]) <= LeavesOf(node, children)
    decreases |children|
  {
    hide NodesValid, Height, Leaves;
    if n < |children| {
      assert children[..|children| - 1][..n] == children[..n];
      PrefixBelow(engine, c, node, children[..|children| - 1], n);
    } else {
      assert children[..n] == children;
    }
  }

  /** `compile_rule`, as far as the condition goes. */
  method CompileCondition(engine: Engine, eventClass: EventClass, condition: Value) returns (r: Option<Predicate>)
    ensures r.Some? <==> Acceptable(engine, eventClass, condition)
    ensures r.Some? ==> forall event :: r.value(event) == Meaning(engine, condition, event)
    ensures r.Some? ==> forall event ::
      && D.NestedSays(engine, condition, event, r.value(event))
      && D.TestSays(engine, condition, event, r.value(event))
  {
    hide D.NestedSays, D.TestSays, Meaning, NodesValid, Height, Leaves;
    var state := new CompileState(engine, eventClass);
    r := CompileNode(condition, state, 1);
    if r.Some? {
      forall event: Value
        ensures D.NestedSays(engine, condition, event, r.value(event))
        ensures D.TestSays(engine, condition, event, r.value(event))
      {
        D.ValidNested(engine, eventClass, condition, event);
        D.ValidTests(engine, eventClass, condition, event);
      }
    }
  }
}
