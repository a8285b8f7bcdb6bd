/** Oldest-first replay: the items of one class, and the merge of the three classes. */
module Replay {
  import opened Basics
  import opened Lines
  import opened LineFormat

  /** One event as a batch takes it: `lines` and `bytes` include the corrupt lines skipped before it. */
  datatype Item = Item(cls: nat, rec: Record, lines: nat, bytes: nat)

  /** The items in the given lines, when `n` lines of `b` bytes were skipped just before them. */
  function ItemsFrom(cls: nat, ls: seq<string>, n: nat, b: nat): seq<Item> {
    if ls == [] then []
    else match ParseLine(ls[0])
      case None => ItemsFrom(cls, ls[1..], n + 1, b + |ls[0]|)
      case Some(rec) => [Item(cls, rec, n + 1, b + |ls[0]|)] + ItemsFrom(cls, ls[1..], 0, 0)
  }

  function ItemsOf(cls: nat, ls: seq<string>): seq<Item> {
    ItemsFrom(cls, ls, 0, 0)
  }

  function LineCount(items: seq<Item>): nat {
    if items == [] then 0 else items[0].lines + LineCount(items[1..])
  }

  function ByteCount(items: seq<Item>): nat {
    if items == [] then 0 else items[0].bytes + ByteCount(items[1..])
  }

  /** Bytes of event JSON, one separator each: what the batch limit bounds. */
  function Cost(items: seq<Item>): nat {
    if items == [] then 0 else |items[0].rec.json| + 1 + Cost(items[1..])
  }

  function Jsons(items: seq<Item>): (js: seq<string>)
    ensures |js| == |items|
  {
    seq(|items|, i requires 0 <= i < |items| => items[i].rec.json)
  }

  function OfClass(items: seq<Item>, c: nat): seq<Item> {
    if items == [] then []
    else (if items[0].cls == c then [items[0]] else []) + OfClass(items[1..], c)
  }

  lemma CountsCons(head: Item, rest: seq<Item>, j: nat)
    requires j <= |rest|
    ensures LineCount(([head] + rest)[..j + 1]) == head.lines + LineCount(rest[..j])
    ensures ByteCount(([head] + rest)[..j + 1]) == head.bytes + ByteCount(rest[..j])
    ensures ([head] + rest)[j + 1..] == rest[j..]
  {
    assert ([head] + rest)[..j + 1] == [head] + rest[..j];
    assert ([head] + rest[..j])[1..] == rest[..j];
  }

  lemma SizeCons(ls: seq<string>, m: nat)
    requires ls != [] && m <= |ls[1..]|
    ensures Size(ls[..m + 1]) == |ls[0]| + Size(ls[1..][..m])
    ensures ls[m + 1..] == ls[1..][m..]
  {
    assert ls[..m + 1][1..] == ls[1..][..m];
  }

  /** The first j > 0 items account for a whole prefix of the lines and for what was skipped before it. */
  lemma {:induction false} ItemsSplit(cls: nat, ls: seq<string>, n: nat, b: nat, j: nat) returns (m: nat)
    requires 0 < j <= |ItemsFrom(cls, ls, n, b)|
    ensures 0 < m <= |ls|
    ensures LineCount(ItemsFrom(cls, ls, n, b)[..j]) == n + m
    ensures ByteCount(ItemsFrom(cls, ls, n, b)[..j]) == b + Size(ls[..m])
    ensures ItemsFrom(cls, ls[m..], 0, 0) == ItemsFrom(cls, ls, n, b)[j..]
    decreases |ls|
  {
    hide ParseLine, Size, LineCount, ByteCount;
    var tail := ls[1..];
    match ParseLine(ls[0]) {
      case None =>
        m := ItemsSplit(cls, tail, n + 1, b + |ls[0]|, j);
      case Some(rec) =>
        var head, rest := Item(cls, rec, n + 1, b + |ls[0]|), ItemsFrom(cls, tail, 0, 0);
        CountsCons(head, rest, j - 1);
        if j == 1 {
          m := 0;
          NoneTaken(rest, tail);
        } else {
          m := ItemsSplit(cls, tail, 0, 0, j - 1);
        }
    }
    SizeCons(ls, m);
    m := m + 1;
  }

  lemma NoneTaken(rest: seq<Item>, ls: seq<string>)
    ensures LineCount(rest[..0]) == ByteCount(rest[..0]) == Size(ls[..0]) == 0
    ensures rest[0..] == rest && ls[0..] == ls
  {
  }

  /** Taking the first j items of a class consumes exactly the lines and bytes they account for. */
  lemma ItemsDrop(cls: nat, ls: seq<string>, j: nat)
    requires j <= |ItemsOf(cls, ls)|
    ensures var taken := ItemsOf(cls, ls)[..j]; var n := LineCount(taken);
      && n <= |ls|
      && ByteCount(taken) == Size(ls[..n])
      && ItemsOf(cls, ls[n..]) == ItemsOf(cls, ls)[j..]
      && (j > 0 ==> n > 0)
  {
    if j == 0 {
      NoneTaken(ItemsOf(cls, ls), ls);
    } else {
      var m := ItemsSplit(cls, ls, 0, 0, j);
    }
  }

  lemma {:induction false} ItemsHaveClass(cls: nat, ls: seq<string>, n: nat, b: nat)
    ensures forall it | it in ItemsFrom(cls, ls, n, b) :: it.cls == cls
    decreases |ls|
  {
    if ls != [] {
      ItemsHaveClass(cls, ls[1..], 0, 0);
      ItemsHaveClass(cls, ls[1..], n + 1, b + |ls[0]|);
    }
  }

  // ----------------------------------------------------------------------- merge

  type Streams = hs: seq<seq<Item>> | |hs| == 3 witness [[], [], []]

  /** Among the first i streams, the one whose head has the smallest sequence; the first on ties. */
  function Pick(hs: Streams, i: nat): (p: Option<nat>)
    requires i <= 3
    ensures p.Some? ==> p.value < i && hs[p.value] != []
    ensures p.None? ==> forall k | 0 <= k < i :: hs[k] == []
  {
    if i == 0 then None
    else
      var best := Pick(hs, i - 1);
      if hs[i - 1] != [] && (best.None? || hs[i - 1][0].rec.seq_ < hs[best.value][0].rec.seq_)
      then Some(i - 1) else best
  }

  function Pop(hs: Streams, i: nat): Streams
    requires i < 3 && hs[i] != []
  {
    hs[i := hs[i][1..]]
  }

  function Merge(hs: Streams): seq<Item>
    decreases |hs[0]| + |hs[1]| + |hs[2]|
  {
    match Pick(hs, 3)
    case None => []
    case Some(i) => [hs[i][0]] + Merge(Pop(hs, i))
  }

  ghost predicate Classed(hs: Streams) {
    forall c, it | 0 <= c < 3 && it in hs[c] :: it.cls == c
  }

  ghost predicate Ascending(items: seq<Item>) {
    forall i, j | 0 <= i < j < |items| :: items[i].rec.seq_ < items[j].rec.seq_
  }

  lemma PickIsLeast(hs: Streams, i: nat, c: nat)
    requires i <= 3 && c < i && hs[c] != []
    ensures Pick(hs, i).Some? && hs[Pick(hs, i).value][0].rec.seq_ <= hs[c][0].rec.seq_
  {
  }

  /** The merge neither loses, duplicates nor reorders anything of any class. */
  lemma {:induction false} MergeKeepsClasses(hs: Streams, c: nat)
    requires Classed(hs) && c < 3
    ensures OfClass(Merge(hs), c) == hs[c]
    decreases |hs[0]| + |hs[1]| + |hs[2]|
  {
    match Pick(hs, 3)
    case None =>
    case Some(i) =>
      var rest := Pop(hs, i);
      MergeKeepsClasses(rest, c);
      assert Merge(hs)[1..] == Merge(rest);
      assert hs[i] == [hs[i][0]] + hs[i][1..];
      assert hs[i][0] in hs[i];
  }

  lemma {:induction false} MergeMembers(hs: Streams)
    ensures forall it | it in Merge(hs) :: it in hs[0] || it in hs[1] || it in hs[2]
    decreases |hs[0]| + |hs[1]| + |hs[2]|
  {
    match Pick(hs, 3)
    case None =>
    case Some(i) => MergeMembers(Pop(hs, i));
  }

  ghost predicate Distinct(hs: Streams) {
    forall c, d, i, j | 0 <= c < d < 3 && 0 <= i < |hs[c]| && 0 <= j < |hs[d]| ::
      hs[c][i].rec.seq_ != hs[d][j].rec.seq_
  }

  lemma PopKeepsOrder(hs: Streams, i: nat)
    requires i < 3 && hs[i] != []
    requires (forall c | 0 <= c < 3 :: Ascending(hs[c])) && Distinct(hs)
    ensures (forall c | 0 <= c < 3 :: Ascending(Pop(hs, i)[c])) && Distinct(Pop(hs, i))
  {
    var rest := Pop(hs, i);
    assert forall c, k | 0 <= c < 3 && 0 <= k < |rest[c]| :: rest[c][k] == if c == i then hs[c][k + 1] else hs[c][k];
    forall c, d, x, y | 0 <= c < d < 3 && 0 <= x < |rest[c]| && 0 <= y < |rest[d]|
      ensures rest[c][x].rec.seq_ != rest[d][y].rec.seq_
    {
      var x', y' := if c == i then x + 1 else x, if d == i then y + 1 else y;
      assert hs[c][x'].rec.seq_ != hs[d][y'].rec.seq_;
    }
  }

  lemma PickIsSmaller(hs: Streams, c: nat, k: nat)
    requires (forall c | 0 <= c < 3 :: Ascending(hs[c])) && Distinct(hs)
    requires c < 3 && k < |hs[c]|
    requires Pick(hs, 3).Some? && (Pick(hs, 3).value == c ==> k > 0)
    ensures hs[Pick(hs, 3).value][0].rec.seq_ < hs[c][k].rec.seq_
  {
    PickIsLeast(hs, 3, c);
    assert Ascending(hs[c]);
  }

  /** Sorted classes with globally unique sequences merge into one sorted sequence. */
  lemma {:induction false} MergeAscends(hs: Streams)
    requires (forall c | 0 <= c < 3 :: Ascending(hs[c])) && Distinct(hs)
    ensures Ascending(Merge(hs))
    decreases |hs[0]| + |hs[1]| + |hs[2]|
  {
    match Pick(hs, 3)
    case None =>
    case Some(i) =>
      var rest := Pop(hs, i);
      PopKeepsOrder(hs, i);
      MergeAscends(rest);
      MergeMembers(rest);
      forall it | it in Merge(rest) ensures hs[i][0].rec.seq_ < it.rec.seq_ {
        var c :| 0 <= c < 3 && it in rest[c];
        var k :| 0 <= k < |rest[c]| && rest[c][k] == it;
        PickIsSmaller(hs, c, if c == i then k + 1 else k);
      }
      ConsAscends(hs[i][0], Merge(rest));
  }

  lemma ConsAscends(head: Item, rest: seq<Item>)
    requires Ascending(rest) && forall it | it in rest :: head.rec.seq_ < it.rec.seq_
    ensures Ascending([head] + rest)
  {
  }

  /** The streams left after the first n items of the merge were taken. */
  function After(hs: Streams, n: nat): Streams
    requires n <= |Merge(hs)|
    decreases n
  {
    if n == 0 then hs else After(Pop(hs, Pick(hs, 3).value), n - 1)
  }

  /** Taking n items takes a prefix of every class, and the rest merges to the rest. */
  lemma {:induction false} AfterIsRest(hs: Streams, n: nat, c: nat)
    requires Classed(hs) && n <= |Merge(hs)| && c < 3
    ensures Merge(After(hs, n)) == Merge(hs)[n..]
    ensures hs[c] == OfClass(Merge(hs)[..n], c) + After(hs, n)[c]
    ensures Classed(After(hs, n))
    decreases n
  {
    if n == 0 {
      assert Merge(hs)[..0] == [] && Merge(hs)[0..] == Merge(hs);
    } else {
      var i := Pick(hs, 3).value;
      var rest := Pop(hs, i);
      AfterPop(hs, n);
      hide Pick, After, OfClass, Pop;
      AfterIsRest(rest, n - 1, c);
      TakeOne(hs, i, Merge(rest)[..n - 1], After(rest, n - 1)[c], c);
      ConsSlices(hs[i][0], Merge(rest), n - 1);
    }
  }

  lemma AfterPop(hs: Streams, n: nat)
    requires 0 < n <= |Merge(hs)|
    ensures Pick(hs, 3).Some? && After(hs, n) == After(Pop(hs, Pick(hs, 3).value), n - 1)
  {
  }

  lemma ConsSlices(head: Item, rest: seq<Item>, n: nat)
    requires n <= |rest|
    ensures ([head] + rest)[..n + 1] == [head] + rest[..n] && ([head] + rest)[n + 1..] == rest[n..]
  {
  }

  lemma TakeOne(hs: Streams, i: nat, taken: seq<Item>, left: seq<Item>, c: nat)
    requires Classed(hs) && i < 3 && hs[i] != [] && c < 3
    requires Pop(hs, i)[c] == OfClass(taken, c) + left
    ensures hs[c] == OfClass([hs[i][0]] + taken, c) + left
  {
    var head := hs[i][0];
    assert head in hs[i] && ([head] + taken)[1..] == taken;
    if c == i { Assoc([head], OfClass(taken, c), left); }
  }

  /** One more pick extends what was taken by the head of the merge. */
  lemma {:induction false} AfterOneMore(hs: Streams, n: nat)
    requires n < |Merge(hs)|
    ensures var left := After(hs, n); var p := Pick(left, 3);
      p.Some? && left[p.value][0] == Merge(hs)[n] && After(hs, n + 1) == Pop(left, p.value)
    ensures |Merge(After(hs, n))| == |Merge(hs)| - n
    decreases n
  {
    if n == 0 {
      assert After(hs, 1) == After(Pop(hs, Pick(hs, 3).value), 0);
    } else {
      AfterOneMore(Pop(hs, Pick(hs, 3).value), n - 1);
    }
  }

  lemma {:induction false} AfterAll(hs: Streams)
    ensures Pick(After(hs, |Merge(hs)|), 3).None?
    decreases |hs[0]| + |hs[1]| + |hs[2]|
  {
    if Pick(hs, 3).Some? { AfterAll(Pop(hs, Pick(hs, 3).value)); }
  }

  // ----------------------------------------------------------------------- batch

  /** `taken[c]` is (entries, bytes) to be consumed from class c. */
  datatype Batch = Batch(items: seq<string>, totalEventBytes: nat, taken: seq<(nat, nat)>)

  function TakenOf(items: seq<Item>, c: nat): (nat, nat) {
    (LineCount(OfClass(items, c)), ByteCount(OfClass(items, c)))
  }

  function BatchOf(items: seq<Item>): Batch {
    Batch(Jsons(items), Cost(items), [TakenOf(items, 0), TakenOf(items, 1), TakenOf(items, 2)])
  }

  /** A prefix fits when it has at most one item or stays within the byte limit. */
  predicate Fits(items: seq<Item>, n: nat, maxEvents: nat, maxBytes: nat) {
    n <= |items| && n <= maxEvents && (n <= 1 || Cost(items[..n]) <= maxBytes)
  }

  /** n is the length of the longest prefix that fits. */
  ghost predicate IsLongest(items: seq<Item>, n: nat, maxEvents: nat, maxBytes: nat) {
    Fits(items, n, maxEvents, maxBytes) && forall m: nat | Fits(items, m, maxEvents, maxBytes) :: m <= n
  }

  lemma {:induction false} CostAppend(a: seq<Item>, b: seq<Item>)
    ensures Cost(a + b) == Cost(a) + Cost(b)
  {
    if a == [] {
      assert a + b == b;
    } else {
      assert (a + b)[1..] == a[1..] + b;
      CostAppend(a[1..], b);
    }
  }

  lemma {:induction false} OfClassAppend(a: seq<Item>, b: seq<Item>, c: nat)
    ensures OfClass(a + b, c) == OfClass(a, c) + OfClass(b, c)
  {
    if a == [] {
      assert a + b == b;
    } else {
      assert (a + b)[1..] == a[1..] + b;
      OfClassAppend(a[1..], b, c);
    }
  }

  lemma {:induction false} CountsAppend(a: seq<Item>, b: seq<Item>)
    ensures LineCount(a + b) == LineCount(a) + LineCount(b)
    ensures ByteCount(a + b) == ByteCount(a) + ByteCount(b)
  {
    if a == [] {
      assert a + b == b;
    } else {
      assert (a + b)[1..] == a[1..] + b;
      CountsAppend(a[1..], b);
    }
  }

  /** A longer prefix costs at least as much, so the first that does not fit ends the batch. */
  lemma StopsAtFirstMisfit(items: seq<Item>, n: nat, maxEvents: nat, maxBytes: nat)
    requires Fits(items, n, maxEvents, maxBytes)
    requires n == maxEvents || n == |items| || !Fits(items, n + 1, maxEvents, maxBytes)
    ensures IsLongest(items, n, maxEvents, maxBytes)
  {
    forall m: nat | Fits(items, m, maxEvents, maxBytes) ensures m <= n {
      if m > n {
        assert items[..m] == items[..n + 1] + items[n + 1..m];
        CostAppend(items[..n + 1], items[n + 1..m]);
      }
    }
  }

  /** Adding the next item to a batch. */
  lemma BatchGrows(items: seq<Item>, n: nat, c: nat)
    requires n < |items| && c < 3
    ensures Jsons(items[..n + 1]) == Jsons(items[..n]) + [items[n].rec.json]
    ensures Cost(items[..n + 1]) == Cost(items[..n]) + |items[n].rec.json| + 1
    ensures TakenOf(items[..n + 1], c) ==
      if items[n].cls == c then (TakenOf(items[..n], c).0 + items[n].lines, TakenOf(items[..n], c).1 + items[n].bytes)
      else TakenOf(items[..n], c)
  {
    var one := [items[n]];
    assert items[..n + 1] == items[..n] + one;
    assert one[1..] == [];
    CostAppend(items[..n], one);
    OfClassAppend(items[..n], one, c);
    CountsAppend(OfClass(items[..n], c), OfClass(one, c));
  }
}
