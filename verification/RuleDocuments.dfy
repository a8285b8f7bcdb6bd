/** What a condition document means, in terms of the document as it is written: its operators by
name, and `all`, `any` and `not` by their keys. */
module RuleDocuments {
  import opened Basics
  import opened RuleTree
  import L = RuleLaws

  function AllOf(children: seq<Value>): Value {
    Obj(map["all" := List(children)])
  }

  function AnyOf(children: seq<Value>): Value {
    Obj(map["any" := List(children)])
  }

  function NotOf(child: Value): Value {
    Obj(map["not" := child])
  }

  function Test(path: string, op: string, value: Value): Value {
    Obj(map["field" := Str(path), "op" := Str(op), "value" := value])
  }

  function Present(path: string): Value {
    Obj(map["field" := Str(path), "op" := Str("exists")])
  }

  // ---- all, any, not

  function Outcomes(engine: Engine, children: seq<Value>, event: Value): seq<Outcome> {
    seq(|children|, i requires 0 <= i < |children| => Meaning(engine, children[i], event))
  }

  /** The first outcome that is not `usual`. */
  predicate FirstOther(outcomes: seq<Outcome>, usual: Outcome, r: Outcome) {
    r != usual && exists i :: 0 <= i < |outcomes| && outcomes[i] == r && forall j :: 0 <= j < i ==> outcomes[j] == usual
  }

  /** A conjunction matches when everything does; otherwise the first miss or timeout is the outcome. */
  predicate Conjunction(outcomes: seq<Outcome>, r: Outcome) {
    if forall i :: 0 <= i < |outcomes| ==> outcomes[i].Matches? then r.Matches? else FirstOther(outcomes, Matches, r)
  }

  /** A disjunction fails when everything does; otherwise the first match or timeout is the outcome. */
  predicate Disjunction(outcomes: seq<Outcome>, r: Outcome) {
    if forall i :: 0 <= i < |outcomes| ==> outcomes[i].Fails? then r.Fails? else FirstOther(outcomes, Fails, r)
  }

  lemma ReadsAll(children: seq<Value>)
    requires 1 <= |children| <= MAX_CHILDREN
    ensures Read(AllOf(children)) == All(children)
  {
    assert AllOf(children).fields.Keys == {"all"};
  }

  lemma ReadsAny(children: seq<Value>)
    requires 1 <= |children| <= MAX_CHILDREN
    ensures Read(AnyOf(children)) == Any(children)
  {
    assert AnyOf(children).fields.Keys == {"any"};
    assert "any" !in {"all"};
  }

  lemma AllMeans(engine: Engine, children: seq<Value>, event: Value)
    requires 1 <= |children| <= MAX_CHILDREN
    ensures Conjunction(Outcomes(engine, children, event), Meaning(engine, AllOf(children), event))
  {
    ReadsAll(children);
    L.FirstDecides(engine, AllOf(children), children, Matches, event);
    hide Read, Chain;
    var outcomes := Outcomes(engine, children, event);
    assert forall i :: 0 <= i < |children| ==> outcomes[i] == Meaning(engine, children[i], event);
  }

  lemma AnyMeans(engine: Engine, children: seq<Value>, event: Value)
    requires 1 <= |children| <= MAX_CHILDREN
    ensures Disjunction(Outcomes(engine, children, event), Meaning(engine, AnyOf(children), event))
  {
    ReadsAny(children);
    L.FirstDecides(engine, AnyOf(children), children, Fails, event);
    hide Read, Chain;
    var outcomes := Outcomes(engine, children, event);
    assert forall i :: 0 <= i < |children| ==> outcomes[i] == Meaning(engine, children[i], event);
  }

  lemma NotMeans(engine: Engine, child: Value, event: Value)
    ensures var inner, r := Meaning(engine, child, event), Meaning(engine, NotOf(child), event);
      (r.Matches? <==> inner.Fails?) && (r.Fails? <==> inner.Matches?)
  {
    assert NotOf(child).fields.Keys == {"not"};
    assert Read(NotOf(child)) == Not(child);
  }

  // ---- tests

  predicate SameScalar(f: Value, v: Value) {
    f == v && (v.Bool? || v.Num? || v.Str?)
  }

  ghost predicate PartOf(needle: string, text: string) {
    exists a, b :: text == a + needle + b
  }

  ghost predicate EndOf(needle: string, text: string) {
    exists a :: text == a + needle
  }

  /** The format's table of operators: whether the field's value passes the test. */
  ghost predicate Says(engine: Engine, op: string, f: Value, v: Value) {
    if op == "equals" then SameScalar(f, v)
    else if op == "in" then v.List? && exists x :: x in v.items && SameScalar(f, x)
    else if op == "gt" then f.Num? && v.Num? && f.n > v.n
    else if op == "gte" then f.Num? && v.Num? && f.n >= v.n
    else if op == "lt" then f.Num? && v.Num? && f.n < v.n
    else if op == "lte" then f.Num? && v.Num? && f.n <= v.n
    else if !f.Str? then false
    else if op == "iequals" then v.Str? && engine.fold(f.s) == engine.fold(v.s)
    else if op == "iin" then exists x :: x in Needles(v) && engine.fold(f.s) == engine.fold(x)
    else if op == "contains" then exists x :: x in Needles(v) && PartOf(x, f.s)
    else if op == "startswith" then exists x :: x in Needles(v) && x <= f.s
    else if op == "endswith" then exists x :: x in Needles(v) && EndOf(x, f.s)
    else if op == "icontains" then exists x :: x in Needles(v) && PartOf(engine.fold(x), engine.fold(f.s))
    else if op == "istartswith" then exists x :: x in Needles(v) && engine.fold(x) <= engine.fold(f.s)
    else if op == "iendswith" then exists x :: x in Needles(v) && EndOf(engine.fold(x), engine.fold(f.s))
    else false
  }

  lemma PartMeans(text: string, needle: string)
    ensures Contains(text, needle) <==> PartOf(needle, text)
  {
    if Contains(text, needle) {
      var i :| 0 <= i <= |text| && HasAt(text, i, needle);
      assert text == text[..i] + needle + text[i + |needle|..];
    }
    if PartOf(needle, text) {
      var a, b :| text == a + needle + b;
      assert text[|a|..|a| + |needle|] == needle;
      assert HasAt(text, |a|, needle);
    }
  }

  lemma EndsMean(text: string, needle: string)
    ensures StartsWith(text, needle) <==> needle <= text
    ensures EndsWith(text, needle) <==> EndOf(needle, text)
  {
    if EndsWith(text, needle) {
      assert text == text[..|text| - |needle|] + needle;
    }
    if EndOf(needle, text) {
      var a :| text == a + needle;
      assert text[|a|..] == needle;
    }
  }

  lemma TestReads(path: string, op: string, value: Value)
    ensures Read(Test(path, op, value)) == Leaf(OpNamed(op), path, Some(value))
    ensures Read(Present(path)) == Leaf(Some(Exists), path, None)
  {
    hide OpNamed;
    assert Test(path, op, value).fields.Keys == {"field", "op", "value"};
    assert Present(path).fields.Keys == {"field", "op"};
    assert OpNamed("exists") == Some(Exists) by { ExistsIsNamed(); }
  }

  lemma ExistsIsNamed()
    ensures OpNamed("exists") == Some(Exists)
  {
  }

  /** A test matches exactly when its path leads to a scalar that passes it, and fails otherwise. */
  lemma TestMeans(engine: Engine, path: string, op: string, value: Value, event: Value)
    requires OpNamed(op).Some? && op != "exists" && op != "regex"
    ensures var field := Resolve(event, Split(path));
      Meaning(engine, Test(path, op, value), event) == Holds(field.Some? && Says(engine, op, field.value, value))
  {
    TestReads(path, op, value);
    hide Read;
    var field := Resolve(event, Split(path));
    if field.Some? {
      hide Resolve, Split;
      SaysMeans(engine, op, path, value, event);
    }
  }

  lemma SaysMeans(engine: Engine, op: string, path: string, value: Value, event: Value)
    requires OpNamed(op).Some? && op != "exists" && op != "regex" && Resolve(event, Split(path)).Some?
    ensures LeafMeaning(engine, OpNamed(op).value, path, Some(value), event)
      == Holds(Says(engine, op, Resolve(event, Split(path)).value, value))
  {
    var f := Resolve(event, Split(path)).value;
    hide Resolve, Split, StringTest;
    match OpNamed(op).value
    case Text(test, insensitive) => TextSays(engine, op, f, value);
    case _ =>
  }

  lemma TextSays(engine: Engine, op: string, f: Value, value: Value)
    requires OpNamed(op).Some? && OpNamed(op).value.Text?
    ensures var kind := OpNamed(op).value;
      Says(engine, op, f, value) <==> f.Str? && PassesAny(engine, kind.test, kind.insensitive, f.s, Needles(value))
  {
    hide Contains, StartsWith, EndsWith, PartOf, EndOf, Needles;
    forall text, x
      ensures StringTest(Containing, text, x) <==> PartOf(x, text)
      ensures StringTest(Starting, text, x) <==> x <= text
      ensures StringTest(Ending, text, x) <==> EndOf(x, text)
    {
      PartMeans(text, x);
      EndsMean(text, x);
    }
    hide StringTest;
  }

  /** A regex test matches, fails or times out as its search does; on what is no string it fails. */
  lemma RegexMeans(engine: Engine, path: string, pattern: string, event: Value)
    ensures var field := Resolve(event, Split(path));
      Meaning(engine, Test(path, "regex", Str(pattern)), event)
        == if field.Some? && field.value.Str? then engine.search(pattern, field.value.s) else Fails
  {
    TestReads(path, "regex", Str(pattern));
    hide Read, Resolve, Split;
  }

  lemma PresentMeans(engine: Engine, path: string, event: Value)
    ensures Meaning(engine, Present(path), event) == Holds(Resolve(event, Split(path)).Some?)
  {
    TestReads(path, "exists", Null);
    hide Read, Resolve, Split;
  }

  // ---- paths

  function Dotted(segments: seq<string>): string
    requires segments != []
  {
    if |segments| == 1 then segments[0]
    else Dotted(segments[..|segments| - 1]) + "." + segments[|segments| - 1]
  }

  /** A path is its segments with dots between them, and no segment has a dot. */
  lemma {:induction false} SplitMeans(path: string)
    ensures Dotted(Split(path)) == path
    ensures forall k :: 0 <= k < |Split(path)| ==> '.' !in Split(path)[k]
  {
    if path != [] {
      var init, c := path[..|path| - 1], path[|path| - 1];
      SplitMeans(init);
      var segments := Split(init);
      assert path == init + [c];
      if c == '.' {
        assert (segments + [""])[..|segments|] == segments;
        assert Dotted(segments + [""]) == init + "." + "";
      } else {
        var grown := segments[|segments| - 1 := segments[|segments| - 1] + [c]];
        assert grown[..|segments| - 1] == segments[..|segments| - 1];
      }
    }
  }

  lemma {:induction false} SplitWhole(s: string)
    requires '.' !in s
    ensures Split(s) == [s]
  {
    if s != [] {
      var init := s[..|s| - 1];
      SplitWhole(init);
      assert s == init + [s[|s| - 1]];
    }
  }

  lemma {:induction false} SplitAtDot(a: string, b: string)
    requires '.' !in b
    ensures Split(a + "." + b) == Split(a) + [b]
  {
    var path := a + "." + b;
    if b == [] {
      assert path[..|path| - 1] == a;
    } else {
      var init := b[..|b| - 1];
      SplitAtDot(a, init);
      assert path[..|path| - 1] == a + "." + init;
      assert b == init + [b[|b| - 1]];
    }
  }

  /** A path of two parts is allowed if it is one of the envelope's or the class's; an event of the
  generic class has besides all its own fields. */
  lemma TwoParts(c: EventClass, a: string, b: string)
    requires a != "" && b != "" && '.' !in a && '.' !in b
    requires a !in NEVER && a !in {"raw", "unmapped"} && a + "." + b !in NEVER
    ensures ValidPath(a + "." + b, c) <==>
      a + "." + b in ENVELOPE || a + "." + b in ClassFields(c) || (c.Generic? && a == "fields")
  {
    SplitWhole(a);
    SplitAtDot(a, b);
    hide Split, ClassFields;
    assert [a] + [b] == [a, b];
  }

  // ---- which documents are valid

  /** A valid node is a test, or has `not`, `all` or `any` for its only key; and an `all` or `any`
  has from 1 to 32 children, all of them valid. */
  lemma ValidShapes(engine: Engine, c: EventClass, v: Value)
    requires NodesValid(engine, c, v)
    ensures v.Obj?
    ensures "field" in v.fields || v.fields.Keys == {"not"} || v.fields.Keys == {"all"} || v.fields.Keys == {"any"}
  {
    hide ValidPath, ValidOp;
  }

  ghost predicate AllValid(engine: Engine, c: EventClass, children: seq<Value>) {
    1 <= |children| <= MAX_CHILDREN && forall i :: 0 <= i < |children| ==> NodesValid(engine, c, children[i])
  }

  lemma NestedValid(engine: Engine, c: EventClass, children: seq<Value>, child: Value)
    ensures NodesValid(engine, c, AllOf(children)) <==> AllValid(engine, c, children)
    ensures NodesValid(engine, c, AnyOf(children)) <==> AllValid(engine, c, children)
    ensures NodesValid(engine, c, NotOf(child)) <==> NodesValid(engine, c, child)
  {
    assert AllOf(children).fields.Keys == {"all"} && AnyOf(children).fields.Keys == {"any"};
    assert NotOf(child).fields.Keys == {"not"} && Read(NotOf(child)) == Not(child);
    if 1 <= |children| <= MAX_CHILDREN {
      ReadsAll(children);
      ReadsAny(children);
    } else {
      assert "any" !in {"all"};
      assert Read(AllOf(children)).Malformed? && Read(AnyOf(children)).Malformed?;
    }
  }

  /** A text of at most 1024 characters. */
  predicate IsShort(v: Value) {
    v.Str? && |v.s| <= 1024
  }

  predicate IsPlain(v: Value) {
    v.Bool? || v.Num? || IsShort(v)
  }

  predicate Listed(v: Value) {
    v.List? && 1 <= |v.items| <= 64
  }

  /** The values that each operator takes, by its name. */
  predicate Takes(engine: Engine, op: string, v: Value) {
    if op == "equals" then IsPlain(v)
    else if op == "iequals" then IsShort(v)
    else if op in {"contains", "icontains", "startswith", "istartswith", "endswith", "iendswith"} then
      IsShort(v) || (Listed(v) && forall x :: x in v.items ==> IsShort(x))
    else if op == "in" then Listed(v) && forall x :: x in v.items ==> IsPlain(x)
    else if op == "iin" then Listed(v) && forall x :: x in v.items ==> IsShort(x)
    else if op in {"gt", "gte", "lt", "lte"} then v.Num?
    else op == "regex" && v.Str? && |v.s| <= 512 && InSubset(v.s) && engine.accepts(v.s)
  }

  lemma TestValid(engine: Engine, c: EventClass, path: string, op: string, value: Value)
    ensures NodesValid(engine, c, Test(path, op, value)) <==> ValidPath(path, c) && Takes(engine, op, value)
    ensures NodesValid(engine, c, Present(path)) <==> ValidPath(path, c)
  {
    TestReads(path, op, value);
    hide Read, ValidPath, InSubset;
    TakesMeans(engine, op, value);
    hide Takes, OpNamed;
  }

  lemma TakesMeans(engine: Engine, op: string, value: Value)
    ensures Takes(engine, op, value) <==> OpNamed(op).Some? && ValidOp(engine, OpNamed(op).value, Some(value))
  {
    InSubsetIsShort(value);
    hide InSubset;
  }

  lemma InSubsetIsShort(v: Value)
    ensures v.Str? && InSubset(v.s) ==> |v.s| <= 512
  {
    hide Contains, BackreferenceAt;
  }

  // ---- documents

  /** What an `all`, `any` or `not` says, given the outcomes of the documents in it. */
  ghost predicate NestedSays(engine: Engine, document: Value, event: Value, r: Outcome) {
    && (forall cs :: document == AllOf(cs) ==> Conjunction(Outcomes(engine, cs, event), r))
    && (forall cs :: document == AnyOf(cs) ==> Disjunction(Outcomes(engine, cs, event), r))
    && (forall child :: document == NotOf(child) ==>
          && (r.Matches? <==> Meaning(engine, child, event).Fails?)
          && (r.Fails? <==> Meaning(engine, child, event).Matches?))
  }

  /** What a test says of the scalar its path leads to. */
  ghost predicate TestSays(engine: Engine, document: Value, event: Value, r: Outcome) {
    && (forall path, op, value :: document == Test(path, op, value) && op != "regex" ==>
          var field := Resolve(event, Split(path));
          r == Holds(field.Some? && Says(engine, op, field.value, value)))
    && (forall path, pattern :: document == Test(path, "regex", Str(pattern)) ==>
          var field := Resolve(event, Split(path));
          r == if field.Some? && field.value.Str? then engine.search(pattern, field.value.s) else Fails)
    && (forall path :: document == Present(path) ==> r == Holds(Resolve(event, Split(path)).Some?))
  }

  lemma ValidNested(engine: Engine, c: EventClass, document: Value, event: Value)
    requires NodesValid(engine, c, document)
    ensures NestedSays(engine, document, event, Meaning(engine, document, event))
  {
    hide Meaning, NodesValid, Conjunction, Disjunction, AllOf, AnyOf, NotOf;
    forall cs | document == AllOf(cs)
      ensures Conjunction(Outcomes(engine, cs, event), Meaning(engine, document, event))
    {
      NestedValid(engine, c, cs, document);
      AllMeans(engine, cs, event);
    }
    forall cs | document == AnyOf(cs)
      ensures Disjunction(Outcomes(engine, cs, event), Meaning(engine, document, event))
    {
      NestedValid(engine, c, cs, document);
      AnyMeans(engine, cs, event);
    }
    forall child | document == NotOf(child)
      ensures Meaning(engine, document, event).Matches? <==> Meaning(engine, child, event).Fails?
      ensures Meaning(engine, document, event).Fails? <==> Meaning(engine, child, event).Matches?
    {
      NotMeans(engine, child, event);
    }
  }

  lemma ValidTests(engine: Engine, c: EventClass, document: Value, event: Value)
    requires NodesValid(engine, c, document)
    ensures TestSays(engine, document, event, Meaning(engine, document, event))
  {
    hide Meaning, NodesValid, Resolve, Split, Says, Test, Present;
    forall path, op, value | document == Test(path, op, value) && op != "regex"
      ensures var field := Resolve(event, Split(path));
        Meaning(engine, document, event) == Holds(field.Some? && Says(engine, op, field.value, value))
    {
      ValidTest(engine, c, path, op, value);
      TestMeans(engine, path, op, value, event);
    }
    forall path, pattern | document == Test(path, "regex", Str(pattern))
      ensures var field := Resolve(event, Split(path));
        Meaning(engine, document, event)
          == if field.Some? && field.value.Str? then engine.search(pattern, field.value.s) else Fails
    {
      RegexMeans(engine, path, pattern, event);
    }
    forall path | document == Present(path)
      ensures Meaning(engine, document, event) == Holds(Resolve(event, Split(path)).Some?)
    {
      PresentMeans(engine, path, event);
    }
  }

  lemma ValidTest(engine: Engine, c: EventClass, path: string, op: string, value: Value)
    requires NodesValid(engine, c, Test(path, op, value))
    ensures OpNamed(op).Some? && op != "exists"
  {
    TestReads(path, op, value);
    hide Read, ValidPath;
  }

  // ---- the size of a document

  /** One more than the highest of the children. */
  ghost predicate HigherThan(height: nat, children: seq<Value>) {
    && (forall i :: 0 <= i < |children| ==> Height(children[i]) < height)
    && exists i :: 0 <= i < |children| && Height(children[i]) + 1 == height
  }

  /** A node is one higher than the highest of its children, and has their leaves; a test is one leaf. */
  lemma {:induction false} SizeOfNested(children: seq<Value>)
    requires 1 <= |children| <= MAX_CHILDREN
    ensures HigherThan(Height(AllOf(children)), children) && Leaves(AllOf(children)) == SumOfLeaves(children)
    ensures HigherThan(Height(AnyOf(children)), children) && Leaves(AnyOf(children)) == SumOfLeaves(children)
  {
    ReadsAll(children);
    ReadsAny(children);
    hide Read;
    HighestOf(AllOf(children), children);
    HighestOf(AnyOf(children), children);
    LeavesSum(AllOf(children), children);
    LeavesSum(AnyOf(children), children);
    hide Highest, LeavesOf, SumOfLeaves;
  }

  lemma SizeOfNot(child: Value, path: string, op: string, value: Value)
    ensures Height(NotOf(child)) == Height(child) + 1 && Leaves(NotOf(child)) == Leaves(child)
    ensures Height(Test(path, op, value)) == 1 && Leaves(Test(path, op, value)) == 1
    ensures Height(Present(path)) == 1 && Leaves(Present(path)) == 1
  {
    assert NotOf(child).fields.Keys == {"not"} && Read(NotOf(child)) == Not(child);
    TestReads(path, op, value);
    hide Read;
  }

  function SumOfLeaves(children: seq<Value>): nat {
    if children == [] then 0 else Leaves(children[0]) + SumOfLeaves(children[1..])
  }

  lemma {:induction false} HighestOf(v: Value, children: seq<Value>)
    requires Below(v, children)
    ensures forall i :: 0 <= i < |children| ==> Height(children[i]) <= Highest(v, children)
    ensures children != [] ==> exists i :: 0 <= i < |children| && Height(children[i]) == Highest(v, children)
    decreases |children|
  {
    hide Height;
    if children != [] {
      var init, k := children[..|children| - 1], |children| - 1;
      HighestOf(v, init);
      assert forall i :: 0 <= i < k ==> init[i] == children[i];
      if Highest(v, children) == Highest(v, init) && init != [] {
        var i :| 0 <= i < |init| && Height(init[i]) == Highest(v, init);
        assert Height(children[i]) == Highest(v, children);
      } else {
        assert Height(children[k]) == Highest(v, children);
      }
    }
  }

  lemma {:induction false} LeavesSum(v: Value, children: seq<Value>)
    requires Below(v, children)
    ensures LeavesOf(v, children) == SumOfLeaves(children)
    decreases |children|
  {
    hide Leaves;
    if children != [] {
      var init, last := children[..|children| - 1], children[|children| - 1];
      LeavesSum(v, init);
      SumSnoc(init, last);
      assert children == init + [last];
    }
  }

  lemma {:induction false} SumSnoc(children: seq<Value>, last: Value)
    ensures SumOfLeaves(children + [last]) == SumOfLeaves(children) + Leaves(last)
  {
    hide Leaves;
    if children != [] {
      assert (children + [last])[1..] == children[1..] + [last];
      SumSnoc(children[1..], last);
    }
  }
}
