/** The alert queue's pages: a query with a keyset condition returns one page and a cursor, and
following the cursors walks through the whole queue. */
module AlertPaging {
  import opened Basics

  /** An alert, as far as order and filters need it.  `id` is its place in the database's order of
  the text ids. */
  datatype Alert = Alert(id: int, priority: int, lastSeen: int, state: string, severity: string,
                         aiSeverity: Option<string>, ruleId: string, host: Option<string>,
                         group: Option<string>)

  datatype Sort = PriorityDown | PriorityUp | NewestFirst | OldestFirst

  datatype Cursor = Cursor(sort: Sort, priority: int, lastSeen: int, id: int)

  /** The filters of a request; an absent one and an empty one are the same. */
  datatype Filters = Filters(state: seq<string>, severity: seq<string>, aiSeverity: seq<string>,
                             ruleId: string, host: string, group: string, from: string, to: string)

  /** A field of a cursor's payload that should be a number or a time. */
  datatype Field = Missing | Unreadable | Read(n: int)

  /** The decoded fields of a cursor. */
  datatype Payload = Payload(s: Option<string>, ps: Field, ls: Field, id: Option<int>)

  /** The cursor of a request; an empty text is none. */
  datatype Given = NoCursor | Undecodable | Decoded(payload: Payload)

  /** Lower-casing and the reading of times. */
  datatype Env = Env(lower: string -> string, time: string -> Option<int>)

  /** `total` counts what the filters let through, whatever the cursor. */
  datatype Page = Page(items: seq<Alert>, next: Option<Payload>, total: nat)

  datatype ApiError = ValidationError

  const DEFAULT_LIMIT := 50
  const MAX_LIMIT := 200

  function SortNamed(name: string): Option<Sort> {
    if name == "-priority" then Some(PriorityDown)
    else if name == "priority" then Some(PriorityUp)
    else if name == "-last_seen" then Some(NewestFirst)
    else if name == "last_seen" then Some(OldestFirst)
    else None
  }

  function SortName(sort: Sort): (name: string)
    ensures SortNamed(name) == Some(sort)
  {
    match sort
    case PriorityDown => "-priority"
    case PriorityUp => "priority"
    case NewestFirst => "-last_seen"
    case OldestFirst => "last_seen"
  }

  // ---- the two sides of `_SORTS`

  /** The columns to order by, each ascending: a descending one is negated. */
  function SortKey(sort: Sort, a: Alert): (int, int, int) {
    match sort
    case PriorityDown => (-a.priority, -a.lastSeen, a.id)
    case PriorityUp => (a.priority, -a.lastSeen, a.id)
    case NewestFirst => (0, -a.lastSeen, a.id)
    case OldestFirst => (0, a.lastSeen, a.id)
  }

  /** `ORDER BY` */
  predicate Before(sort: Sort, a: Alert, b: Alert) {
    var (a0, a1, a2) := SortKey(sort, a);
    var (b0, b1, b2) := SortKey(sort, b);
    a0 < b0 || (a0 == b0 && a1 < b1) || (a0 == b0 && a1 == b1 && a2 < b2)
  }

  /** The keyset condition of the query. */
  predicate Beyond(c: Cursor, a: Alert) {
    match c.sort
    case PriorityDown =>
      a.priority < c.priority || (a.priority == c.priority && a.lastSeen < c.lastSeen)
      || (a.priority == c.priority && a.lastSeen == c.lastSeen && a.id > c.id)
    case PriorityUp =>
      a.priority > c.priority || (a.priority == c.priority && a.lastSeen < c.lastSeen)
      || (a.priority == c.priority && a.lastSeen == c.lastSeen && a.id > c.id)
    case NewestFirst => a.lastSeen < c.lastSeen || (a.lastSeen == c.lastSeen && a.id > c.id)
    case OldestFirst => a.lastSeen > c.lastSeen || (a.lastSeen == c.lastSeen && a.id > c.id)
  }

  function CursorOf(sort: Sort, a: Alert): Cursor {
    Cursor(sort, a.priority, a.lastSeen, a.id)
  }

  /** In all four sorts the keyset condition selects exactly what comes after the cursor's row. */
  lemma BeyondIsAfter(sort: Sort, a: Alert, b: Alert)
    ensures Beyond(CursorOf(sort, a), b) <==> Before(sort, a, b)
  {
  }

  // ---- the query

  function Select(rows: seq<Alert>, where: Alert -> bool): seq<Alert> {
    if rows == [] then []
    else if where(rows[0]) then [rows[0]] + Select(rows[1..], where)
    else Select(rows[1..], where)
  }

  function Insert(sort: Sort, a: Alert, sorted: seq<Alert>): seq<Alert> {
    if sorted == [] then [a]
    else if Before(sort, a, sorted[0]) then [a] + sorted
    else [sorted[0]] + Insert(sort, a, sorted[1..])
  }

  function Ordered(sort: Sort, rows: seq<Alert>): seq<Alert> {
    if rows == [] then [] else Insert(sort, rows[0], Ordered(sort, rows[1..]))
  }

  function Take(rows: seq<Alert>, n: nat): seq<Alert> {
    if |rows| <= n then rows else rows[..n]
  }

  /** The rows of the table that pass the filters, in order. */
  function Queue(rows: seq<Alert>, filter: Alert -> bool, sort: Sort): seq<Alert> {
    Ordered(sort, Select(rows, filter))
  }

  function Limit(limit: Option<int>): Option<nat> {
    if limit.None? then Some(DEFAULT_LIMIT)
    else if limit.value < 1 || limit.value > MAX_LIMIT then None
    else Some(limit.value)
  }

  /** The payload of the cursor that a row gives. */
  function PayloadOf(sort: Sort, a: Alert): Payload {
    Payload(Some(SortName(sort)), Read(a.priority), Read(a.lastSeen), Some(a.id))
  }

  /** What a request's cursor says in a given sort; no priority at all is priority 0. */
  function ReadCursor(p: Payload, sort: string): Option<Cursor> {
    if SortNamed(sort).None? || p.s != Some(sort) || p.ps.Unreadable? || !p.ls.Read? || p.id.None? then None
    else Some(Cursor(SortNamed(sort).value, if p.ps.Read? then p.ps.n else 0, p.ls.n, p.id.value))
  }

  predicate IsState(name: string) {
    name == "new" || name == "acknowledged" || name == "closed"
  }

  predicate IsSeverity(name: string) {
    name == "low" || name == "medium" || name == "high" || name == "critical"
  }

  /** No filter is refused. */
  predicate Valid(env: Env, f: Filters) {
    && (forall x | x in f.state :: IsState(x))
    && (forall x | x in f.severity + f.aiSeverity :: IsSeverity(x))
    && (f.from != "" ==> env.time(f.from).Some?)
    && (f.to != "" ==> env.time(f.to).Some?)
  }

  /** The filters that are there, all of them. */
  predicate Passes(env: Env, f: Filters, a: Alert) {
    && (f.state != [] ==> a.state in f.state)
    && (f.severity != [] ==> a.severity in f.severity)
    && (f.aiSeverity != [] ==> a.aiSeverity.Some? && a.aiSeverity.value in f.aiSeverity)
    && (f.ruleId != "" ==> a.ruleId == f.ruleId)
    && (f.host != "" ==> a.host == Some(env.lower(f.host)))
    && (f.group != "" ==> a.group == Some(f.group))
    && (f.from != "" && env.time(f.from).Some? ==> a.lastSeen >= env.time(f.from).value)
    && (f.to != "" && env.time(f.to).Some? ==> a.lastSeen <= env.time(f.to).value)
  }

  function Where(env: Env, f: Filters): Alert -> bool {
    a => Passes(env, f, a)
  }

  /** One page: a row more than the page holds is asked for, to know whether there is another. */
  function PageOf(found: seq<Alert>, sort: Sort, n: nat, total: nat): Page
    requires n >= 1
  {
    var rows := Take(found, n + 1);
    var items := Take(rows, n);
    Page(items, if |rows| > n && items != [] then Some(PayloadOf(sort, items[|items| - 1])) else None, total)
  }

  /** The filters and the keyset condition together. */
  function Narrowed(filter: Alert -> bool, c: Cursor): Alert -> bool {
    a => filter(a) && Beyond(c, a)
  }

  /** `list_alerts` */
  function ListAlerts(env: Env, rows: seq<Alert>, f: Filters, sort: string, limit: Option<int>, given: Given)
    : Result<Page, ApiError>
  {
    var order, n, filter := SortNamed(sort), Limit(limit), Where(env, f);
    if order.None? || n.None? || !Valid(env, f) then Err(ValidationError)
    else
      var total := |Select(rows, filter)|;
      match given
      case NoCursor => Ok(PageOf(Queue(rows, filter, order.value), order.value, n.value, total))
      case Undecodable => Err(ValidationError)
      case Decoded(payload) =>
        var c := ReadCursor(payload, sort);
        if c.None? then Err(ValidationError)
        else Ok(PageOf(Queue(rows, Narrowed(filter, c.value), order.value), order.value, n.value, total))
  }

  // ---- the order

  /** The table's primary key. */
  ghost predicate DistinctIds(rows: seq<Alert>) {
    forall i, j :: 0 <= i < j < |rows| ==> rows[i].id != rows[j].id
  }

  ghost predicate Ascends(sort: Sort, rows: seq<Alert>) {
    forall i, j :: 0 <= i < j < |rows| ==> Before(sort, rows[i], rows[j])
  }

  ghost predicate SameMembers(a: seq<Alert>, b: seq<Alert>) {
    forall x :: x in a <==> x in b
  }

  lemma Trichotomy(sort: Sort, a: Alert, b: Alert)
    requires a.id != b.id
    ensures Before(sort, a, b) <==> !Before(sort, b, a)
  {
  }

  lemma Transitive(sort: Sort, a: Alert, b: Alert, c: Alert)
    requires Before(sort, a, b) && Before(sort, b, c)
    ensures Before(sort, a, c)
  {
  }

  lemma {:induction false} InsertKeeps(sort: Sort, a: Alert, sorted: seq<Alert>)
    requires Ascends(sort, sorted) && forall x :: x in sorted ==> x.id != a.id
    ensures Ascends(sort, Insert(sort, a, sorted))
    ensures forall x :: x in Insert(sort, a, sorted) <==> x == a || x in sorted
  {
    hide Before;
    if sorted != [] {
      var rest := sorted[1..];
      assert sorted[0] in sorted;
      assert forall x :: x in sorted <==> x == sorted[0] || x in rest;
      if Before(sort, a, sorted[0]) {
        forall i | 0 < i < |sorted|
          ensures Before(sort, a, sorted[i])
        {
          Transitive(sort, a, sorted[0], sorted[i]);
        }
      } else {
        Trichotomy(sort, a, sorted[0]);
        InsertKeeps(sort, a, rest);
        HeadFirst(sort, sorted[0], Insert(sort, a, rest));
      }
    }
  }

  lemma HeadFirst(sort: Sort, a: Alert, rest: seq<Alert>)
    requires Ascends(sort, rest) && forall x :: x in rest ==> Before(sort, a, x)
    ensures Ascends(sort, [a] + rest)
  {
    hide Before;
    assert forall i :: 0 <= i < |rest| ==> rest[i] in rest;
  }

  lemma {:induction false} OrderedKeeps(sort: Sort, rows: seq<Alert>)
    requires DistinctIds(rows)
    ensures Ascends(sort, Ordered(sort, rows)) && SameMembers(Ordered(sort, rows), rows)
  {
    hide Before, Insert;
    if rows != [] {
      OrderedKeeps(sort, rows[1..]);
      assert forall x :: x in rows <==> x == rows[0] || x in rows[1..];
      InsertKeeps(sort, rows[0], Ordered(sort, rows[1..]));
    }
  }

  lemma {:induction false} SelectKeeps(rows: seq<Alert>, where: Alert -> bool)
    requires DistinctIds(rows)
    ensures DistinctIds(Select(rows, where))
    ensures forall x :: x in Select(rows, where) <==> x in rows && where(x)
  {
    if rows != [] {
      SelectKeeps(rows[1..], where);
      assert forall x :: x in rows <==> x == rows[0] || x in rows[1..];
      var rest := Select(rows[1..], where);
      assert forall i :: 0 <= i < |rest| ==> rest[i] in rest;
    }
  }

  lemma HasMember(rows: seq<Alert>)
    ensures rows == [] || exists x :: x in rows
  {
    if rows != [] {
      assert rows[0] in rows;
    }
  }

  /** There is only one way to put rows in order. */
  lemma {:induction false} OneOrder(sort: Sort, a: seq<Alert>, b: seq<Alert>)
    requires Ascends(sort, a) && Ascends(sort, b) && SameMembers(a, b)
    ensures a == b
  {
    HasMember(a);
    HasMember(b);
    if a != [] {
      assert a[0] in a && a[0] in b;
      assert b[0] in b && b[0] in a;
      SameHead(sort, a, b);
      SameHead(sort, b, a);
      TailMembers(sort, a, b);
      TailMembers(sort, b, a);
      OneOrder(sort, a[1..], b[1..]);
    }
  }

  /** Two ordered sequences that have each other's first row start with the same one. */
  lemma SameHead(sort: Sort, a: seq<Alert>, b: seq<Alert>)
    requires Ascends(sort, a) && Ascends(sort, b) && a != [] && b != [] && a[0] in b && b[0] in a
    ensures a[0] == b[0]
  {
    var i :| 0 <= i < |b| && b[i] == a[0];
    var j :| 0 <= j < |a| && a[j] == b[0];
  }

  lemma TailMembers(sort: Sort, a: seq<Alert>, b: seq<Alert>)
    requires Ascends(sort, a) && a != [] && b != [] && a[0] == b[0] && forall x :: x in a ==> x in b
    ensures forall x :: x in a[1..] ==> x in b[1..]
  {
    forall x | x in a[1..]
      ensures x in b[1..]
    {
      var i :| 0 <= i < |a[1..]| && a[1..][i] == x;
      assert a[i + 1] == x && Before(sort, a[0], x);
      assert x in a;
      var j :| 0 <= j < |b| && b[j] == x;
      assert j > 0 ==> b[1..][j - 1] == x;
    }
  }

  // ---- following the cursors

  /** The query with the cursor of the row at `i` finds exactly the rows that come after it. */
  lemma RestOfQueue(rows: seq<Alert>, filter: Alert -> bool, sort: Sort, i: nat)
    requires DistinctIds(rows) && i < |Queue(rows, filter, sort)|
    ensures var queue := Queue(rows, filter, sort);
      Queue(rows, Narrowed(filter, CursorOf(sort, queue[i])), sort) == queue[i + 1..]
  {
    hide Before, Beyond, Ordered, Select;
    var queue := Queue(rows, filter, sort);
    var c := CursorOf(sort, queue[i]);
    var beyond := Narrowed(filter, c);
    SelectKeeps(rows, filter);
    OrderedKeeps(sort, Select(rows, filter));
    SelectKeeps(rows, beyond);
    OrderedKeeps(sort, Select(rows, beyond));
    AfterInQueue(sort, queue, i);
    OneOrder(sort, Queue(rows, beyond, sort), queue[i + 1..]);
  }

  lemma LaterInOrder(sort: Sort, queue: seq<Alert>, i: nat, j: nat)
    requires Ascends(sort, queue) && i < |queue| && j < |queue| && Before(sort, queue[i], queue[j])
    ensures j > i
  {
    var backwards := Before(sort, queue[j], queue[i]);
  }

  lemma AfterInQueue(sort: Sort, queue: seq<Alert>, i: nat)
    requires Ascends(sort, queue) && i < |queue|
    ensures Ascends(sort, queue[i + 1..])
    ensures forall x :: x in queue[i + 1..] <==> x in queue && Beyond(CursorOf(sort, queue[i]), x)
  {
    forall x
      ensures x in queue[i + 1..] <==> x in queue && Beyond(CursorOf(sort, queue[i]), x)
    {
      BeyondIsAfter(sort, queue[i], x);
      if x in queue[i + 1..] {
        var j :| 0 <= j < |queue[i + 1..]| && queue[i + 1..][j] == x;
        assert queue[i + 1 + j] == x;
      }
      if x in queue && Before(sort, queue[i], x) {
        var j :| 0 <= j < |queue| && queue[j] == x;
        LaterInOrder(sort, queue, i, j);
        assert queue[i + 1..][j - i - 1] == x;
      }
    }
  }

  /** Where a reader stands: at the start, or behind the row its cursor came from. */
  ghost predicate At(sort: Sort, queue: seq<Alert>, seen: nat, given: Given) {
    && seen <= |queue|
    && match given
       case NoCursor => seen == 0
       case Undecodable => false
       case Decoded(payload) => seen > 0 && payload == PayloadOf(sort, queue[seen - 1])
  }

  /** A page's cursor is read back as its last row's, in the sort it came from and in no other. */
  lemma CursorReadBack(sort: Sort, a: Alert, name: string)
    ensures ReadCursor(PayloadOf(sort, a), name)
      == if SortNamed(name) == Some(sort) then Some(CursorOf(sort, a)) else None
  {
    assert SortNamed(name) == Some(sort) ==> name == SortName(sort);
  }

  lemma {:induction false} OrderedCounts(sort: Sort, rows: seq<Alert>)
    ensures |Ordered(sort, rows)| == |rows|
  {
    if rows != [] {
      OrderedCounts(sort, rows[1..]);
      InsertCounts(sort, rows[0], Ordered(sort, rows[1..]));
    }
  }

  lemma {:induction false} InsertCounts(sort: Sort, a: Alert, sorted: seq<Alert>)
    ensures |Insert(sort, a, sorted)| == |sorted| + 1
  {
    hide Before;
    if sorted != [] {
      InsertCounts(sort, a, sorted[1..]);
    }
  }

  /** A page holds the next rows of the queue, as many as it can, its cursor is there exactly when
  there are more, and its total is the length of the whole queue. */
  lemma PageIsNext(env: Env, rows: seq<Alert>, f: Filters, sort: string, limit: Option<int>,
                   seen: nat, given: Given)
    requires DistinctIds(rows) && SortNamed(sort).Some? && Limit(limit).Some? && Valid(env, f)
    requires At(SortNamed(sort).value, Queue(rows, Where(env, f), SortNamed(sort).value), seen, given)
    ensures var order, n := SortNamed(sort).value, Limit(limit).value;
      var queue, r := Queue(rows, Where(env, f), order), ListAlerts(env, rows, f, sort, limit, given);
      && r.Ok?
      && n == (if limit.None? then 50 else limit.value)
      && seen + |r.value.items| <= |queue| == r.value.total
      && r.value.items == queue[seen..seen + |r.value.items|]
      && (r.value.next.Some? <==> seen + |r.value.items| < |queue|)
      && (r.value.next.Some? ==>
            |r.value.items| == n && At(order, queue, seen + n, Decoded(r.value.next.value)))
  {
    hide Beyond, SortNamed, SortName, Before, Select, Ordered, PageOf, Valid, Passes, PayloadOf, ReadCursor;
    var order, n, filter := SortNamed(sort).value, Limit(limit).value, Where(env, f);
    var queue := Queue(rows, filter, order);
    OrderedCounts(order, Select(rows, filter));
    hide Queue;
    if given.Decoded? {
      CursorReadBack(order, queue[seen - 1], sort);
      RestOfQueue(rows, filter, order, seen - 1);
    } else {
      assert queue[0..] == queue;
    }
    assert ListAlerts(env, rows, f, sort, limit, given) == Ok(PageOf(queue[seen..], order, n, |queue|));
    hide ListAlerts;
    PageOfRest(queue, seen, order, n);
  }

  lemma PageOfRest(queue: seq<Alert>, seen: nat, sort: Sort, n: nat)
    requires seen <= |queue| && n >= 1
    ensures var page := PageOf(queue[seen..], sort, n, |queue|);
      && seen + |page.items| <= |queue| == page.total
      && page.items == queue[seen..seen + |page.items|]
      && (page.next.Some? <==> seen + |page.items| < |queue|)
      && (page.next.Some? ==> |page.items| == n && At(sort, queue, seen + n, Decoded(page.next.value)))
  {
    hide PayloadOf;
  }

  /** Which requests are refused: those with an unknown sort, a limit out of range, a name no state
  or severity has, a time that cannot be read, or a cursor that does not decode, is of another
  sort, lacks its time or id, or has a time or priority that cannot be read. */
  lemma RefusedIff(env: Env, rows: seq<Alert>, f: Filters, sort: string, limit: Option<int>, given: Given)
    ensures ListAlerts(env, rows, f, sort, limit, given).Err? <==>
      || sort !in {"-priority", "priority", "-last_seen", "last_seen"}
      || (limit.Some? && !(1 <= limit.value <= 200))
      || (exists x :: x in f.state && x !in {"new", "acknowledged", "closed"})
      || (exists x :: (x in f.severity || x in f.aiSeverity) && x !in {"low", "medium", "high", "critical"})
      || (f.from != "" && env.time(f.from).None?) || (f.to != "" && env.time(f.to).None?)
      || given.Undecodable?
      || (given.Decoded? && var p := given.payload;
            p.s != Some(sort) || p.ls.Missing? || p.ls.Unreadable? || p.ps.Unreadable? || p.id.None?)
  {
    hide Passes, PageOf, Queue;
    assert Valid(env, f) <==>
      && (forall x | x in f.state :: IsState(x)) && (forall x | x in f.severity :: IsSeverity(x))
      && (forall x | x in f.aiSeverity :: IsSeverity(x))
      && (f.from != "" ==> env.time(f.from).Some?) && (f.to != "" ==> env.time(f.to).Some?);
  }

  /** A reader that follows `next_cursor` to the end, with any page sizes, sees every row that
  passes the filters exactly once, in order; every page gives the number of all of them. */
  method ReadAll(env: Env, rows: seq<Alert>, f: Filters, sort: string, limits: nat -> Option<int>)
    returns (all: seq<Alert>, totals: seq<nat>)
    requires DistinctIds(rows) && Valid(env, f) && SortNamed(sort).Some? && forall k :: Limit(limits(k)).Some?
    ensures Ascends(SortNamed(sort).value, all) && InNamedOrder(sort, all) && DistinctIds(all)
    ensures forall a :: a in all <==> a in rows && LetThrough(env, f, a)
    ensures totals != [] && forall total :: total in totals ==> total == |all|
  {
    hide SortNamed, Queue, ListAlerts, Valid, Passes, PayloadOf;
    var given := NoCursor;
    var more, page := true, 0;
    ghost var order := SortNamed(sort).value;
    ghost var queue := Queue(rows, Where(env, f), order);
    all, totals := [], [];
    while more
      invariant |all| <= |queue| && all == queue[..|all|]
      invariant if more then At(order, queue, |all|, given) else |all| == |queue| && totals != []
      invariant forall total :: total in totals ==> total == |queue|
      decreases |queue| - |all|, more
    {
      PageIsNext(env, rows, f, sort, limits(page), |all|, given);
      var r := ListAlerts(env, rows, f, sort, limits(page), given);
      all, totals := all + r.value.items, totals + [r.value.total];
      more := r.value.next.Some?;
      if more {
        given := Decoded(r.value.next.value);
      }
      page := page + 1;
    }
    QueueIsOrdered(rows, Where(env, f), order);
    SelectKeeps(rows, Where(env, f));
    assert all == queue;
    NamedOrder(order, sort, all);
    forall a ensures Passes(env, f, a) <==> LetThrough(env, f, a) { PassesMeans(env, f, a); }
  }

  /** Each sort by its name: the column it is called after, downwards if there is a minus; then the
  later seen first; then by id. */
  ghost predicate InNamedOrder(sort: string, rows: seq<Alert>) {
    forall i, j :: 0 <= i < j < |rows| ==>
      var a, b := rows[i], rows[j];
      var laterFirst := a.lastSeen > b.lastSeen || (a.lastSeen == b.lastSeen && a.id < b.id);
      && (sort == "-priority" ==> a.priority > b.priority || (a.priority == b.priority && laterFirst))
      && (sort == "priority" ==> a.priority < b.priority || (a.priority == b.priority && laterFirst))
      && (sort == "-last_seen" ==> laterFirst)
      && (sort == "last_seen" ==> a.lastSeen < b.lastSeen || (a.lastSeen == b.lastSeen && a.id < b.id))
  }

  lemma NamedOrder(order: Sort, sort: string, rows: seq<Alert>)
    requires SortNamed(sort) == Some(order) && Ascends(order, rows)
    ensures InNamedOrder(sort, rows)
  {
    forall i, j | 0 <= i < j < |rows|
      ensures Before(order, rows[i], rows[j])
    {
    }
  }

  /** The row has one of the states and severities asked for, if any are, the rule, host and group
  asked for, and was last seen from the one time to the other. */
  ghost predicate LetThrough(env: Env, f: Filters, a: Alert)
    requires Valid(env, f)
  {
    && (f.state == [] || a.state in f.state)
    && (f.severity == [] || a.severity in f.severity)
    && (f.aiSeverity == [] || exists x :: x in f.aiSeverity && a.aiSeverity == Some(x))
    && (f.ruleId == "" || f.ruleId == a.ruleId)
    && (f.host == "" || (a.host.Some? && a.host.value == env.lower(f.host)))
    && (f.group == "" || (a.group.Some? && a.group.value == f.group))
    && (f.from == "" || env.time(f.from).value <= a.lastSeen)
    && (f.to == "" || a.lastSeen <= env.time(f.to).value)
  }

  lemma PassesMeans(env: Env, f: Filters, a: Alert)
    requires Valid(env, f)
    ensures Passes(env, f, a) <==> LetThrough(env, f, a)
  {
    hide IsState, IsSeverity;
  }

  lemma QueueIsOrdered(rows: seq<Alert>, filter: Alert -> bool, sort: Sort)
    requires DistinctIds(rows)
    ensures var queue := Queue(rows, filter, sort);
      Ascends(sort, queue) && SameMembers(queue, Select(rows, filter)) && DistinctIds(queue)
  {
    SelectKeeps(rows, filter);
    OrderedKeeps(sort, Select(rows, filter));
    hide Ordered, Select;
    var queue := Queue(rows, filter, sort);
    var selected := Select(rows, filter);
    forall i, j | 0 <= i < j < |queue|
      ensures queue[i].id != queue[j].id
    {
      assert queue[i] in selected && queue[j] in selected;
      assert Before(sort, queue[i], queue[j]);
    }
  }
}
