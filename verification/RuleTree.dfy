/** Detection rules: documents, what a condition tree means on an event, and which trees are valid. */
module RuleTree {
  import opened Basics

  /** A decoded YAML or JSON value. */
  datatype Value =
    | Null
    | Bool(b: bool)
    | Num(n: real)
    | Str(s: string)
    | List(items: seq<Value>)
    | Obj(fields: map<string, Value>)

  /** A condition matches, fails to match, or gives up because a regex search took too long. */
  datatype Outcome = Matches | Fails | TimedOut

  datatype EventClass = ProcessActivity | NetworkActivity | Authentication | Generic

  /** Case folding, and the regex engine: which patterns it takes, and what a search finds. */
  datatype Engine = Engine(fold: string -> string, accepts: string -> bool, search: (string, string) -> Outcome)

  const MAX_TREE_DEPTH := 8
  const MAX_LEAVES := 64
  const MAX_STRING_CHARS := 1024
  const MAX_LIST_ENTRIES := 64
  const MAX_CHILDREN := 32
  const MAX_REGEX_CHARS := 512

  // ---- strings

  function Split(path: string): (segments: seq<string>)
    ensures segments != []
  {
    if path == [] then [""]
    else
      var init := Split(path[..|path| - 1]);
      var c := path[|path| - 1];
      if c == '.' then init + [""] else init[|init| - 1 := init[|init| - 1] + [c]]
  }

  predicate HasAt(s: string, i: nat, needle: string) {
    i + |needle| <= |s| && s[i..i + |needle|] == needle
  }

  predicate Contains(s: string, needle: string) {
    exists i :: 0 <= i <= |s| && HasAt(s, i, needle)
  }

  predicate StartsWith(s: string, needle: string) {
    HasAt(s, 0, needle)
  }

  predicate EndsWith(s: string, needle: string) {
    |needle| <= |s| && HasAt(s, |s| - |needle|, needle)
  }

  // ---- field paths

  const ENVELOPE: set<string> := {
    "activity", "event_time", "time_inferred", "source_type", "source_event_id", "severity_hint",
    "host.hostname", "host.os_family", "host.os_name", "host.os_version", "host.ip", "host.mac",
    "source.vendor", "source.product", "source.agent_version"}

  function ClassFields(c: EventClass): set<string> {
    match c
    case ProcessActivity => {
      "process.pid", "process.name", "process.exe_path", "process.cmd_line", "process.sha256",
      "process.created_time", "parent.pid", "parent.name", "parent.exe_path", "user.name", "user.domain",
      "user.uid", "exit_code"}
    case NetworkActivity => {
      "direction", "protocol", "src.ip", "src.port", "dst.ip", "dst.port", "dst.hostname", "process.pid",
      "process.name", "process.exe_path", "bytes_sent", "bytes_received", "user.name", "user.domain", "user.uid"}
    case Authentication => {
      "status", "logon_type", "user.name", "user.domain", "user.uid", "src_ip", "session_id", "failure_reason"}
    case Generic => {"message", "category", "raw_truncated"}
  }

  const NEVER: set<string> := {
    "tenant_id", "event_id", "batch_id", "ingest_time", "schema_version", "event_class",
    "source.device_id", "source.ingest_key_id"}

  /** A path that a rule of the class may test. */
  predicate ValidPath(path: string, c: EventClass) {
    var segments := Split(path);
    && path != "" && "" !in segments
    && path !in NEVER && segments[0] !in NEVER
    && segments[0] != "raw" && segments[0] != "unmapped"
    && (path in ENVELOPE || path in ClassFields(c) || (c.Generic? && |segments| == 2 && segments[0] == "fields"))
  }

  /** The scalar at the end of the path, if there is one. */
  function Resolve(event: Value, segments: seq<string>): Option<Value> {
    if segments == [] then
      if event.Null? || event.List? || event.Obj? then None else Some(event)
    else if event.Obj? && segments[0] in event.fields then Resolve(event.fields[segments[0]], segments[1..])
    else None
  }

  // ---- the meaning of one test

  function Holds(b: bool): Outcome {
    if b then Matches else Fails
  }

  /** Equality without coercion: the same kind of scalar, and the same value. */
  predicate ScalarEquals(field: Option<Value>, rule: Value) {
    && field.Some?
    && match rule
       case Bool(b) => field.value == Bool(b)
       case Num(n) => field.value == Num(n)
       case Str(s) => field.value == Str(s)
       case _ => false
  }

  datatype TextTest = Containing | Starting | Ending

  datatype Comparison = Gt | Gte | Lt | Lte

  datatype Op =
    | Exists
    | Equals
    | IEquals
    | Text(test: TextTest, insensitive: bool)
    | In
    | IIn
    | Compare(comparison: Comparison)
    | Regex

  /** The operators by their names. */
  function OpNamed(name: string): Option<Op> {
    if name == "exists" then Some(Exists)
    else if name == "equals" then Some(Equals)
    else if name == "iequals" then Some(IEquals)
    else if name == "contains" then Some(Text(Containing, false))
    else if name == "icontains" then Some(Text(Containing, true))
    else if name == "startswith" then Some(Text(Starting, false))
    else if name == "istartswith" then Some(Text(Starting, true))
    else if name == "endswith" then Some(Text(Ending, false))
    else if name == "iendswith" then Some(Text(Ending, true))
    else if name == "in" then Some(In)
    else if name == "iin" then Some(IIn)
    else if name == "gt" then Some(Compare(Gt))
    else if name == "gte" then Some(Compare(Gte))
    else if name == "lt" then Some(Compare(Lt))
    else if name == "lte" then Some(Compare(Lte))
    else if name == "regex" then Some(Regex)
    else None
  }

  predicate StringTest(test: TextTest, text: string, needle: string) {
    match test
    case Containing => Contains(text, needle)
    case Starting => StartsWith(text, needle)
    case Ending => EndsWith(text, needle)
  }

  predicate NumberTest(c: Comparison, x: real, y: real) {
    match c
    case Gt => x > y
    case Gte => x >= y
    case Lt => x < y
    case Lte => x <= y
  }

  /** The needles of a test: its value, or the entries of its list. */
  function Needles(value: Value): set<string> {
    if value.Str? then {value.s}
    else if value.List? then set v | v in value.items && v.Str? :: v.s
    else {}
  }

  function Folded(engine: Engine, insensitive: bool, s: string): string {
    if insensitive then engine.fold(s) else s
  }

  predicate PassesAny(engine: Engine, test: TextTest, insensitive: bool, text: string, needles: set<string>) {
    exists x :: x in needles && StringTest(test, Folded(engine, insensitive, text), Folded(engine, insensitive, x))
  }

  /** What a leaf says of an event, read off the format's table of operators. */
  function LeafMeaning(engine: Engine, op: Op, path: string, value: Option<Value>, event: Value): Outcome {
    var field := Resolve(event, Split(path));
    if field.None? then Fails
    else if value.None? then Holds(op.Exists?)
    else
      var v, f := value.value, field.value;
      match op
      case Exists => Matches
      case Equals => Holds(ScalarEquals(field, v))
      case In => Holds(v.List? && exists x :: x in v.items && ScalarEquals(field, x))
      case IEquals => Holds(f.Str? && v.Str? && engine.fold(f.s) == engine.fold(v.s))
      case IIn => Holds(f.Str? && exists x :: x in Needles(v) && engine.fold(f.s) == engine.fold(x))
      case Text(test, insensitive) => Holds(f.Str? && PassesAny(engine, test, insensitive, f.s, Needles(v)))
      case Compare(c) => Holds(f.Num? && v.Num? && NumberTest(c, f.n, v.n))
      case Regex => if f.Str? && v.Str? then engine.search(v.s, f.s) else Fails
  }

  // ---- which tests are valid

  predicate ShortString(v: Value) {
    v.Str? && |v.s| <= MAX_STRING_CHARS
  }

  predicate ValidScalar(v: Value) {
    v.Bool? || v.Num? || ShortString(v)
  }

  predicate ValidStrings(v: Value) {
    ShortString(v) || (v.List? && 1 <= |v.items| <= MAX_LIST_ENTRIES && forall x :: x in v.items ==> ShortString(x))
  }

  /** What Python's engine has and the linear-time subset has not. */
  const FORBIDDEN: seq<string> :=
    ["(?=", "(?!", "(?<=", "(?<!", "(?>", "(?(", "(?P=", "(?P>", "(?R", "\\g", "\\k"]

  predicate BackreferenceAt(p: string, i: nat) {
    i + 1 < |p| && p[i] == '\\' && '1' <= p[i + 1] <= '9'
  }

  predicate InSubset(p: string) {
    && |p| <= MAX_REGEX_CHARS
    && (forall needle :: needle in FORBIDDEN ==> !Contains(p, needle))
    && !exists i :: 0 <= i < |p| && BackreferenceAt(p, i)
  }

  /** The format also rules out possessive groups, but they are not among the forbidden texts, so a
  pattern with one is left to the engine. */
  lemma PossessiveIsInSubset()
    ensures InSubset("a++")
  {
    forall needle | needle in FORBIDDEN
      ensures !Contains("a++", needle)
    {
      var k :| 0 <= k < |FORBIDDEN| && FORBIDDEN[k] == needle;
      assert needle[0] == '(' || needle[0] == '\\';
      forall i | 0 <= i <= 3
        ensures !HasAt("a++", i, needle)
      {
        if i + |needle| <= 3 {
          assert "a++"[i..i + |needle|][0] == "a++"[i];
        }
      }
    }
  }

  predicate ValidOp(engine: Engine, op: Op, value: Option<Value>) {
    if value.None? then op.Exists?
    else
      var v := value.value;
      match op
      case Exists => false
      case Equals => ValidScalar(v)
      case IEquals => ShortString(v)
      case Text(_, _) => ValidStrings(v)
      case In => v.List? && 1 <= |v.items| <= MAX_LIST_ENTRIES && forall x :: x in v.items ==> ValidScalar(x)
      case IIn => v.List? && ValidStrings(v)
      case Compare(_) => v.Num?
      case Regex => ShortString(v) && InSubset(v.s) && engine.accepts(v.s)
  }

  // ---- trees

  /** How a node reads. */
  datatype Node =
    | Leaf(op: Option<Op>, path: string, value: Option<Value>)
    | Not(child: Value)
    | All(children: seq<Value>)
    | Any(children: seq<Value>)
    | Malformed

  function Get(fields: map<string, Value>, key: string): Option<Value> {
    if key in fields then Some(fields[key]) else None
  }

  predicate IsText(v: Option<Value>) {
    v.Some? && v.value.Str?
  }

  predicate IsChildren(v: Value) {
    v.List? && 1 <= |v.items| <= MAX_CHILDREN
  }

  /** A node is a leaf with no more than its three keys, or has `all`, `any` or `not` as its
  only key. */
  function Read(v: Value): (node: Node)
    ensures node.Not? ==> node.child < v
    ensures node.All? || node.Any? ==> Below(v, node.children)
  {
    if !v.Obj? then Malformed
    else if "field" in v.fields then
      if v.fields.Keys <= {"field", "op", "value"} && IsText(Get(v.fields, "op")) && v.fields["field"].Str?
      then Leaf(OpNamed(v.fields["op"].s), v.fields["field"].s, Get(v.fields, "value")) else Malformed
    else if v.fields.Keys == {"not"} then Not(v.fields["not"])
    else if v.fields.Keys == {"all"} && IsChildren(v.fields["all"]) then All(v.fields["all"].items)
    else if v.fields.Keys == {"any"} && IsChildren(v.fields["any"]) then Any(v.fields["any"].items)
    else Malformed
  }

  /** The values are parts of `v`. */
  ghost predicate Below(v: Value, parts: seq<Value>) {
    forall i :: 0 <= i < |parts| ==> parts[i] < v
  }

  function Negate(o: Outcome): Outcome {
    match o
    case Matches => Fails
    case Fails => Matches
    case TimedOut => TimedOut
  }

  /** The outcome of a tree; `all` and `any` stop at the first child that decides. */
  function Meaning(engine: Engine, v: Value, event: Value): Outcome
    decreases v
  {
    match Read(v)
    case Leaf(op, path, value) => if op.Some? then LeafMeaning(engine, op.value, path, value, event) else Fails
    case Not(child) => Negate(Meaning(engine, child, event))
    case All(children) => Chain(engine, v, children, Matches, event)
    case Any(children) => Chain(engine, v, children, Fails, event)
    case Malformed => Fails
  }

  /** The children's outcomes from left to right, as long as they are `go`. */
  function Chain(engine: Engine, ghost v: Value, children: seq<Value>, go: Outcome, event: Value): Outcome
    requires Below(v, children)
    decreases v, |children|
  {
    if children == [] then go
    else
      var first := Meaning(engine, children[0], event);
      if first != go then first else Chain(engine, v, children[1..], go, event)
  }

  /** Every node of the tree is valid on its own. */
  predicate NodesValid(engine: Engine, c: EventClass, v: Value)
    decreases v
  {
    match Read(v)
    case Leaf(op, path, value) => ValidPath(path, c) && op.Some? && ValidOp(engine, op.value, value)
    case Not(child) => NodesValid(engine, c, child)
    case All(children) => ChildrenValid(engine, c, v, children)
    case Any(children) => ChildrenValid(engine, c, v, children)
    case Malformed => false
  }

  predicate ChildrenValid(engine: Engine, c: EventClass, ghost v: Value, children: seq<Value>)
    requires Below(v, children)
    decreases v, |children|
  {
    forall i :: 0 <= i < |children| ==> NodesValid(engine, c, children[i])
  }

  /** The number of nodes on the longest path down. */
  function Height(v: Value): nat
    decreases v
  {
    match Read(v)
    case Not(child) => 1 + Height(child)
    case All(children) => 1 + Highest(v, children)
    case Any(children) => 1 + Highest(v, children)
    case _ => 1
  }

  function Highest(ghost v: Value, children: seq<Value>): nat
    requires Below(v, children)
    decreases v, |children|
  {
    if children == [] then 0
    else
      var before, last := Highest(v, children[..|children| - 1]), Height(children[|children| - 1]);
      if before < last then last else before
  }

  function Leaves(v: Value): nat
    decreases v
  {
    match Read(v)
    case Leaf(_, _, _) => 1
    case Not(child) => Leaves(child)
    case All(children) => LeavesOf(v, children)
    case Any(children) => LeavesOf(v, children)
    case Malformed => 0
  }

  function LeavesOf(ghost v: Value, children: seq<Value>): nat
    requires Below(v, children)
    decreases v, |children|
  {
    if children == [] then 0
    else LeavesOf(v, children[..|children| - 1]) + Leaves(children[|children| - 1])
  }

  /** The trees a rule may have. */
  predicate Acceptable(engine: Engine, c: EventClass, v: Value) {
    NodesValid(engine, c, v) && Height(v) <= MAX_TREE_DEPTH && Leaves(v) <= MAX_LEAVES
  }
}
