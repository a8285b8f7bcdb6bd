/** Reopening the buffer directory after a stop or a crash. */
module Recovery {
  import opened Basics
  import opened Lines
  import opened LineFormat
  import opened Ordering
  import opened Replay
  import opened ClassQueueModule
  import opened DiskBufferModule
  import Q = SegmentQueue
  import B = BufferModel

  /** One class directory: file name to file content. */
  type Directory = map<string, string>

  predicate IsSegmentName(name: string) {
    |name| >= 8 && name[..4] == "seg-" && name[|name| - 4..] == ".log"
  }

  // -------------------------------------------------------------------- sorting

  function Insert(name: string, sorted: seq<string>): seq<string> {
    if sorted == [] || Before(name, sorted[0]) then [name] + sorted
    else [sorted[0]] + Insert(name, sorted[1..])
  }

  /** The sorted segment names of a directory listing. */
  function SortedNames(listing: seq<string>): seq<string> {
    if listing == [] then []
    else if IsSegmentName(listing[0]) then Insert(listing[0], SortedNames(listing[1..]))
    else SortedNames(listing[1..])
  }

  ghost predicate StrictlySorted(names: seq<string>) {
    forall i, j | 0 <= i < j < |names| :: Before(names[i], names[j])
  }

  ghost predicate NoDuplicates(names: seq<string>) {
    forall i, j | 0 <= i < j < |names| :: names[i] != names[j]
  }

  lemma {:induction false} InsertSorts(name: string, sorted: seq<string>)
    requires StrictlySorted(sorted) && name !in sorted
    ensures StrictlySorted(Insert(name, sorted))
    ensures forall n :: n in Insert(name, sorted) <==> n == name || n in sorted
  {
    hide Before;
    if sorted != [] {
      if Before(name, sorted[0]) {
        forall n | n in sorted ensures Before(name, n) {
          if n != sorted[0] {
            var i :| 0 <= i < |sorted| && sorted[i] == n;
            BeforeIsTransitive(name, sorted[0], n);
          }
        }
      } else {
        BeforeIsTotal(name, sorted[0]);
        var tail := sorted[1..];
        assert forall i | 0 <= i < |tail| :: tail[i] == sorted[i + 1];
        InsertSorts(name, tail);
        forall n | n in Insert(name, tail) ensures Before(sorted[0], n) {
          if n != name {
            var i :| 0 <= i < |tail| && tail[i] == n;
          }
        }
        assert forall n :: n in sorted <==> n == sorted[0] || n in tail;
      }
    }
  }

  lemma {:induction false} SortedNamesSort(listing: seq<string>)
    requires NoDuplicates(listing)
    ensures StrictlySorted(SortedNames(listing))
    ensures forall n :: n in SortedNames(listing) <==> n in listing && IsSegmentName(n)
  {
    hide Before, IsSegmentName, Insert;
    if listing != [] {
      var tail := listing[1..];
      assert forall i | 0 <= i < |tail| :: tail[i] == listing[i + 1];
      SortedNamesSort(tail);
      assert forall n :: n in listing <==> n == listing[0] || n in tail;
      if IsSegmentName(listing[0]) { InsertSorts(listing[0], SortedNames(tail)); }
    }
  }

  /** A set of names has one sorted listing, so the order of the directory does not matter. */
  lemma {:induction false} SortedIsUnique(a: seq<string>, b: seq<string>)
    requires StrictlySorted(a) && StrictlySorted(b)
    requires forall n :: n in a <==> n in b
    ensures a == b
  {
    hide Before;
    assert b != [] ==> b[0] in b;
    if a != [] {
      assert a[0] in a;
      var j :| 0 <= j < |b| && b[j] == a[0];
      assert b[0] in b;
      var i :| 0 <= i < |a| && a[i] == b[0];
      if i > 0 && j > 0 { BeforeIsStrict(a[0], a[i]); }
      if i == 0 && j > 0 { BeforeIsStrict(b[0], b[j]); }
      if j == 0 && i > 0 { BeforeIsStrict(a[0], a[i]); }
      TailsMatch(a, b);
      SortedIsUnique(a[1..], b[1..]);
    }
  }

  lemma TailsMatch(a: seq<string>, b: seq<string>)
    requires a != [] && b != [] && a[0] == b[0]
    requires StrictlySorted(a) && StrictlySorted(b)
    requires forall n :: n in a <==> n in b
    ensures forall n :: n in a[1..] <==> n in b[1..]
    ensures StrictlySorted(a[1..]) && StrictlySorted(b[1..])
  {
    hide Before;
    assert forall i | 0 <= i < |a[1..]| :: a[1..][i] == a[i + 1];
    assert forall i | 0 <= i < |b[1..]| :: b[1..][i] == b[i + 1];
    HeadNotInTail(a);
    HeadNotInTail(b);
    forall n ensures n in a[1..] <==> n in b[1..] {
      assert n in a <==> n == a[0] || n in a[1..];
      assert n in b <==> n == b[0] || n in b[1..];
    }
  }

  lemma HeadNotInTail(a: seq<string>)
    requires a != [] && StrictlySorted(a)
    ensures a[0] !in a[1..]
  {
    if a[0] in a[1..] {
      var i :| 0 <= i < |a[1..]| && a[1..][i] == a[0];
      assert Before(a[0], a[i + 1]);
      BeforeIsStrict(a[0], a[i + 1]);
    }
  }

  // ----------------------------------------------------------------------- scan

  function MaxSeq(ls: seq<string>): nat {
    if ls == [] then 0
    else
      var rest := MaxSeq(ls[..|ls| - 1]);
      if SeqOf(ls[|ls| - 1]) > rest then SeqOf(ls[|ls| - 1]) else rest
  }

  /** Entries, bytes and largest sequence of a segment file. */
  method ScanSegment(file: string) returns (entries: nat, bytes: nat, lastSeq: nat)
    ensures entries == |Reads(file)| && bytes == |file| && lastSeq == MaxSeq(Reads(file))
  {
    hide FirstNewline, ParseLine;
    var rest := file;
    entries, bytes, lastSeq := 0, 0, 0;
    assert file[0..] == file;
    while rest != []
      invariant entries <= |Reads(file)| && Reads(file)[entries..] == Reads(rest)
      invariant bytes + |rest| == |file|
      invariant lastSeq == MaxSeq(Reads(file)[..entries])
      decreases |rest|
    {
      var i := FirstNewline(rest);
      var n := if i < |rest| then i + 1 else i;
      var line := rest[..n];
      ReadsUnfold(rest);
      HeadOfSuffix(Reads(file), entries, line, Reads(rest[n..]));
      match ParseLine(line) {
        case Some(rec) => lastSeq := if rec.seq_ > lastSeq then rec.seq_ else lastSeq;
        case None =>
      }
      rest := rest[n..];
      entries := entries + 1;
      bytes := bytes + n;
    }
    ReadsEmpty();
    assert Reads(file)[..entries] == Reads(file);
  }

  lemma ReadsEmpty()
    ensures Reads("") == []
  {
  }

  lemma {:induction false} ReadsUnfold(s: string)
    requires s != []
    ensures var i := FirstNewline(s); var n := if i < |s| then i + 1 else i;
      n > 0 && Reads(s) == [s[..n]] + Reads(s[n..])
  {
    var i := FirstNewline(s);
    if i == |s| {
      FirstNewlineIsFirst(s);
      NoNewline(s);
      assert s[..|s|] == s && s[|s|..] == "";
    } else {
      var l, r := SplitLine(s);
      assert l == s[..i + 1] && r == s[i + 1..] by { SplitAt(s, l, r); }
      Assoc([l], Complete(r), if Torn(r) == [] then [] else [Torn(r)]);
    }
  }

  lemma SplitAt(s: string, l: string, r: string)
    requires s == l + r && IsLine(l) && FirstNewline(s) < |s|
    ensures l == s[..FirstNewline(s) + 1] && r == s[FirstNewline(s) + 1..]
  {
    FirstNewlineIsFirst(l);
    NewlineAt(s, |l| - 1);
  }

  lemma HeadOfSuffix(ls: seq<string>, k: nat, line: string, rest: seq<string>)
    requires k <= |ls| && ls[k..] == [line] + rest
    ensures k < |ls| && ls[k] == line && ls[k + 1..] == rest
    ensures MaxSeq(ls[..k + 1]) == var m := MaxSeq(ls[..k]); if SeqOf(line) > m then SeqOf(line) else m
  {
    hide SeqOf;
    assert ls[k] == ls[k..][0];
    assert ls[k + 1..] == ls[k..][1..];
    assert ls[..k + 1][..k] == ls[..k];
  }

  // ------------------------------------------------------------------------ open

  function Scanned(name: string, file: string): Q.Segment {
    var kept := TruncateTorn(file);
    Q.Segment(name, kept, |kept|, |Reads(kept)|)
  }

  /** The segments with at least one entry, in the order of their names. */
  function RecoveredSegments(names: seq<string>, dir: Directory): seq<Q.Segment>
    requires forall n | n in names :: n in dir
  {
    if names == [] then []
    else
      var seg := Scanned(names[0], dir[names[0]]);
      (if seg.entries > 0 then [seg] else []) + RecoveredSegments(names[1..], dir)
  }

  /** The largest sequence number in the lines of the given segments. */
  function MaxSeqOf(segs: seq<Q.Segment>): nat {
    if segs == [] then 0
    else
      var rest := MaxSeqOf(segs[..|segs| - 1]);
      var last := MaxSeq(Reads(segs[|segs| - 1].file));
      if last > rest then last else rest
  }

  lemma SortedNamesListed(listing: seq<string>)
    ensures forall n | n in SortedNames(listing) :: n in listing
  {
    if listing != [] {
      SortedNamesListed(listing[1..]);
      InsertMembers(listing[0], SortedNames(listing[1..]));
    }
  }

  lemma {:induction false} InsertMembers(name: string, names: seq<string>)
    ensures forall n :: n in Insert(name, names) ==> n == name || n in names
  {
    hide Before;
    if names != [] { InsertMembers(name, names[1..]); }
  }

  function RecoveredClass(listing: seq<string>, dir: Directory): seq<Q.Segment>
    requires forall n | n in listing :: n in dir
  {
    SortedNamesListed(listing);
    RecoveredSegments(SortedNames(listing), dir)
  }

  /** `ClassQueue::open`: the queue, its bytes on disk and its largest sequence number. */
  method OpenClass(listing: seq<string>, dir: Directory) returns (q: ClassQueue, totalBytes: nat, maxSeq: nat)
    requires forall n | n in listing :: n in dir
    ensures fresh(q)
    ensures var segs := RecoveredClass(listing, dir);
      && q.Snapshot() == Q.Queue(segs, None, 0, 0)
      && totalBytes == Q.Bytes(segs)
      && maxSeq == MaxSeqOf(segs)
  {
    hide Complete, Torn, TruncateTorn, Reads, SortedNames, MaxSeq;
    SortedNamesListed(listing);
    var names := SortedNames(listing);
    var segments: seq<Q.Segment> := [];
    totalBytes, maxSeq := 0, 0;
    assert names[0..] == names;
    for i := 0 to |names|
      invariant RecoveredSegments(names, dir) == segments + RecoveredSegments(names[i..], dir)
      invariant totalBytes == Q.Bytes(segments) && maxSeq == MaxSeqOf(segments)
    {
      var kept := TruncateTorn(dir[names[i]]);
      var entries, bytes, lastSeq := ScanSegment(kept);
      var seg := Q.Segment(names[i], kept, bytes, entries);
      RecoverNext(names, i, dir);
      if entries > 0 {
        AddSegment(segments, seg, RecoveredSegments(names[i + 1..], dir));
        totalBytes := totalBytes + bytes;
        maxSeq := if lastSeq > maxSeq then lastSeq else maxSeq;
        segments := segments + [seg];
      }
    }
    q := new ClassQueue(segments);
  }

  lemma RecoverNext(names: seq<string>, i: nat, dir: Directory)
    requires i < |names| && forall n | n in names :: n in dir
    ensures var seg, rest := Scanned(names[i], dir[names[i]]), RecoveredSegments(names[i + 1..], dir);
      RecoveredSegments(names[i..], dir) == if seg.entries > 0 then [seg] + rest else rest
  {
    hide TruncateTorn, Reads;
    assert names[i..][1..] == names[i + 1..];
  }

  lemma AddSegment(segs: seq<Q.Segment>, seg: Q.Segment, later: seq<Q.Segment>)
    ensures segs + ([seg] + later) == (segs + [seg]) + later
    ensures Q.Bytes(segs + [seg]) == Q.Bytes(segs) + seg.bytes
    ensures MaxSeqOf(segs + [seg]) ==
      var m, last := MaxSeqOf(segs), MaxSeq(Reads(seg.file)); if last > m then last else m
  {
    hide MaxSeq, Reads;
    Assoc(segs, [seg], later);
    Q.LinesOfAppend(segs, [seg]);
    Q.LinesOfOne(seg);
    assert (segs + [seg])[..|segs|] == segs;
  }

  /** `DiskBuffer::open` over the three class directories. */
  method OpenBuffer(maxTotal: nat, segmentMax: nat, listings: seq<seq<string>>, dirs: seq<Directory>)
    returns (buffer: DiskBuffer)
    requires |listings| == |dirs| == 3
    requires forall c, n | 0 <= c < 3 && n in listings[c] :: n in dirs[c]
    ensures buffer.Valid() && buffer.Snapshot() == Reopened(maxTotal, segmentMax, listings, dirs)
  {
    hide Complete, SortedNames, RecoveredSegments, MaxSeqOf, Q.Bytes;
    var q0, bytes0, seq0 := OpenClass(listings[0], dirs[0]);
    var q1, bytes1, seq1 := OpenClass(listings[1], dirs[1]);
    var q2, bytes2, seq2 := OpenClass(listings[2], dirs[2]);
    buffer := new DiskBuffer(maxTotal, segmentMax, q0, q1, q2, Max3(seq0, seq1, seq2), bytes0 + bytes1 + bytes2);
  }

  function Max3(a: nat, b: nat, c: nat): nat {
    if a >= b && a >= c then a else if b >= c then b else c
  }

  function Reopened(maxTotal: nat, segmentMax: nat, listings: seq<seq<string>>, dirs: seq<Directory>): B.Three
    requires |listings| == |dirs| == 3
    requires forall c, n | 0 <= c < 3 && n in listings[c] :: n in dirs[c]
  {
    FreshBuffer(maxTotal, segmentMax, RecoveredClass(listings[0], dirs[0]), RecoveredClass(listings[1], dirs[1]),
                RecoveredClass(listings[2], dirs[2]))
  }

  function FreshBuffer(maxTotal: nat, segmentMax: nat, s0: seq<Q.Segment>, s1: seq<Q.Segment>, s2: seq<Q.Segment>)
    : B.Three
  {
    B.Buffer(maxTotal, segmentMax, [Q.Queue(s0, None, 0, 0), Q.Queue(s1, None, 0, 0), Q.Queue(s2, None, 0, 0)],
             Max3(MaxSeqOf(s0), MaxSeqOf(s1), MaxSeqOf(s2)) + 1,
             Q.Bytes(s0) + Q.Bytes(s1) + Q.Bytes(s2), [0, 0, 0], [0, 0, 0])
  }

  // ---------------------------------------------------------------------- crashes

  /** What a crash can leave beside whole segments: nothing, the first bytes of a line after the
  last segment, or the first bytes of a line in a segment file of their own. */
  datatype Debris = Nothing | TornTail(bytes: string) | TornFile(name: string, bytes: string)

  function NameOf(segs: seq<Q.Segment>, debris: Debris): seq<string> {
    seq(|segs|, i requires 0 <= i < |segs| => segs[i].name)
    + if debris.TornFile? then [debris.name] else []
  }

  /** The directory holds exactly these segments and this debris, beside foreign files. */
  ghost predicate Holds(dir: Directory, segs: seq<Q.Segment>, debris: Debris) {
    && (forall i | 0 <= i < |segs| ::
          segs[i].name in dir
          && dir[segs[i].name] == segs[i].file + (if debris.TornTail? && i == |segs| - 1 then debris.bytes else ""))
    && (debris.TornFile? ==> debris.name in dir && dir[debris.name] == debris.bytes)
    && (forall n :: n in dir && IsSegmentName(n) ==> n in NameOf(segs, debris))
    && (forall n :: n in NameOf(segs, debris) ==> IsSegmentName(n))
  }

  /** Debris of an interrupted write of the line with sequence number `next`. */
  ghost predicate DebrisOf(debris: Debris, segs: seq<Q.Segment>, next: nat) {
    && (debris.TornTail? ==> segs != [] && '\n' !in debris.bytes)
    && (debris.TornFile? ==> debris.name == SegmentName(next) && '\n' !in debris.bytes)
  }

  // --------------------------------------------------------------------- exactness

  lemma {:induction false} FirstLineAt(segs: seq<Q.Segment>, j: nat)
    requires j < |segs| && Complete(segs[j].file) != []
    ensures var k := |Q.LinesOf(segs[..j])|;
      k < |Q.LinesOf(segs)| && Q.LinesOf(segs)[k] == Complete(segs[j].file)[0]
      && |Q.LinesOf(segs[..j + 1])| == k + |Complete(segs[j].file)|
  {
    hide Complete;
    assert segs == segs[..j] + segs[j..];
    Q.LinesOfAppend(segs[..j], segs[j..]);
    assert Q.LinesOf(segs[j..]) == Complete(segs[j].file) + Q.LinesOf(segs[j..][1..]);
    assert segs[..j + 1] == segs[..j] + [segs[j]];
    Q.LinesOfAppend(segs[..j], [segs[j]]);
    Q.LinesOfOne(segs[j]);
  }

  lemma {:induction false} PrefixLinesGrow(segs: seq<Q.Segment>, i: nat, j: nat)
    requires i < j <= |segs| && forall s | s in segs :: Complete(s.file) != []
    ensures |Q.LinesOf(segs[..i])| < |Q.LinesOf(segs[..j])|
    decreases j
  {
    hide Complete, Q.LinesOf;
    assert segs[j - 1] in segs;
    FirstLineAt(segs, j - 1);
    if i < j - 1 { PrefixLinesGrow(segs, i, j - 1); }
  }

  lemma NamesAscend(segs: seq<Q.Segment>, next: nat, i: nat, j: nat)
    requires TidySegments(segs, next) && next <= U64_MAX + 1 && i < j < |segs|
    ensures Before(segs[i].name, segs[j].name)
  {
    hide Complete, Q.LinesOf, SeqOf, ParseLine, Before, SegmentName;
    assert Named(segs[i]) && Named(segs[j]);
    FirstLineAt(segs, i);
    FirstLineAt(segs, j);
    PrefixLinesGrow(segs, i, j);
    SegmentNameOrder(SeqOf(Complete(segs[i].file)[0]), SeqOf(Complete(segs[j].file)[0]));
  }

  lemma NameBelow(segs: seq<Q.Segment>, next: nat, i: nat)
    requires TidySegments(segs, next) && next <= U64_MAX && i < |segs|
    ensures Before(segs[i].name, SegmentName(next))
  {
    hide Complete, Q.LinesOf, SeqOf, ParseLine, Before, SegmentName;
    assert Named(segs[i]);
    FirstLineAt(segs, i);
    SegmentNameOrder(SeqOf(Complete(segs[i].file)[0]), next);
  }

  /** Sorted by name, a directory lists its segments oldest first, debris last. */
  lemma ListedInOrder(listing: seq<string>, dir: Directory, segs: seq<Q.Segment>, debris: Debris, next: nat)
    requires NoDuplicates(listing) && forall n :: n in listing <==> n in dir
    requires TidySegments(segs, next) && next <= U64_MAX + 1
    requires Holds(dir, segs, debris) && DebrisOf(debris, segs, next)
    requires debris.TornFile? ==> next <= U64_MAX
    ensures SortedNames(listing) == NameOf(segs, debris)
  {
    hide TidySegments, Before, IsSegmentName, SortedNames, SegmentName;
    var names := NameOf(segs, debris);
    forall i, j | 0 <= i < j < |names| ensures Before(names[i], names[j]) {
      if j < |segs| { NamesAscend(segs, next, i, j); } else { NameBelow(segs, next, i); }
    }
    SortedNamesSort(listing);
    forall n ensures n in names <==> n in SortedNames(listing) {
      if n in names { NameIsHeld(dir, segs, debris, n); }
    }
    SortedIsUnique(SortedNames(listing), names);
  }

  lemma NameIsHeld(dir: Directory, segs: seq<Q.Segment>, debris: Debris, n: string)
    requires Holds(dir, segs, debris) && n in NameOf(segs, debris)
    ensures n in dir
  {
    var i :| 0 <= i < |NameOf(segs, debris)| && NameOf(segs, debris)[i] == n;
    if i < |segs| { assert segs[i].name in dir; }
  }

  /** Truncating and scanning a segment with a torn tail gives back the segment. */
  lemma ScanRestores(seg: Q.Segment, torn: string)
    requires Q.WfSegment(seg) && '\n' !in torn
    ensures Scanned(seg.name, seg.file + torn) == seg
  {
    hide Complete, TruncateTorn;
    var a := SplitTorn(seg.file);
    assert seg.file == a;
    TruncateStops(seg.file, torn);
  }

  lemma {:induction false} RecoverFrom(dir: Directory, segs: seq<Q.Segment>, debris: Debris, next: nat, i: nat)
    requires Holds(dir, segs, debris) && DebrisOf(debris, segs, next) && i <= |segs|
    requires forall s | s in segs :: Q.WfSegment(s)
    requires forall n | n in NameOf(segs, debris) :: n in dir
    ensures RecoveredSegments(NameOf(segs, debris)[i..], dir) == segs[i..]
    decreases |segs| - i
  {
    hide Q.WfSegment, Holds, DebrisOf, NameOf, Scanned;
    var names := NameOf(segs, debris);
    NamesCount(segs, debris);
    if i == |segs| {
      if debris.TornFile? {
        assert names[i..] == [names[i]] && names[i..][1..] == [];
        TornFileIsEmpty(dir, segs, debris, next);
      } else {
        assert names[i..] == [];
      }
    } else {
      RecoverFrom(dir, segs, debris, next, i + 1);
      RecoverNext(names, i, dir);
      SegmentRestored(dir, segs, debris, next, i);
      assert segs[i..] == [segs[i]] + segs[i + 1..];
    }
  }

  lemma NamesCount(segs: seq<Q.Segment>, debris: Debris)
    ensures |NameOf(segs, debris)| == |segs| + if debris.TornFile? then 1 else 0
  {
  }

  lemma SegmentRestored(dir: Directory, segs: seq<Q.Segment>, debris: Debris, next: nat, i: nat)
    requires Holds(dir, segs, debris) && DebrisOf(debris, segs, next) && i < |segs|
    requires forall s | s in segs :: Q.WfSegment(s)
    ensures var name := NameOf(segs, debris)[i];
      name in dir && Scanned(name, dir[name]) == segs[i] && segs[i].entries > 0
  {
    hide Q.WfSegment, TruncateTorn, Reads, IsSegmentName, SegmentName, Scanned;
    assert segs[i] in segs && NameOf(segs, debris)[i] == segs[i].name;
    ScanRestores(segs[i], if debris.TornTail? && i == |segs| - 1 then debris.bytes else "");
    HasEntries(segs[i]);
  }

  lemma TornFileIsEmpty(dir: Directory, segs: seq<Q.Segment>, debris: Debris, next: nat)
    requires Holds(dir, segs, debris) && DebrisOf(debris, segs, next) && debris.TornFile?
    ensures var name := NameOf(segs, debris)[|segs|]; name in dir && Scanned(name, dir[name]).entries == 0
  {
    hide TruncateTorn, Complete, Torn, IsSegmentName, SegmentName;
    TruncateStops("", debris.bytes);
    assert "" + debris.bytes == debris.bytes;
    ReadsEmpty();
  }

  lemma HasEntries(s: Q.Segment)
    requires Q.WfSegment(s)
    ensures s.entries > 0
  {
  }

  /** Opening a class directory after a crash gives back exactly the segments that were whole:
  whatever the order of the listing, whatever foreign files are there, and wherever in a line
  the last write was cut. */
  lemma RecoverExact(listing: seq<string>, dir: Directory, segs: seq<Q.Segment>, debris: Debris, next: nat)
    requires NoDuplicates(listing) && forall n :: n in listing <==> n in dir
    requires (forall s | s in segs :: Q.WfSegment(s)) && TidySegments(segs, next) && next <= U64_MAX + 1
    requires Holds(dir, segs, debris) && DebrisOf(debris, segs, next)
    requires debris.TornFile? ==> next <= U64_MAX
    ensures RecoveredClass(listing, dir) == segs
  {
    hide Q.WfSegment, TidySegments, Holds, DebrisOf, SortedNames;
    ListedInOrder(listing, dir, segs, debris, next);
    SortedNamesListed(listing);
    RecoverFrom(dir, segs, debris, next, 0);
    assert NameOf(segs, debris)[0..] == NameOf(segs, debris) && segs[0..] == segs;
  }

  lemma {:induction false} MaxSeqBounds(ls: seq<string>)
    ensures forall l | l in ls :: SeqOf(l) <= MaxSeq(ls)
    ensures MaxSeq(ls) == 0 || exists l :: l in ls && SeqOf(l) == MaxSeq(ls)
  {
    hide SeqOf;
    if ls != [] {
      MaxSeqBounds(ls[..|ls| - 1]);
      assert ls == ls[..|ls| - 1] + [ls[|ls| - 1]];
    }
  }

  lemma {:induction false} MaxSeqOfBounds(segs: seq<Q.Segment>)
    requires forall s | s in segs :: Q.WfSegment(s)
    ensures forall l | l in Q.LinesOf(segs) :: SeqOf(l) <= MaxSeqOf(segs)
    ensures MaxSeqOf(segs) == 0 || exists l :: l in Q.LinesOf(segs) && SeqOf(l) == MaxSeqOf(segs)
    decreases |segs|
  {
    hide SeqOf, Complete, Torn;
    if segs != [] {
      var front, last := segs[..|segs| - 1], segs[|segs| - 1];
      MaxSeqOfBounds(front);
      MaxSeqBounds(Reads(last.file));
      assert segs == front + [last];
      Q.LinesOfAppend(front, [last]);
      Q.LinesOfOne(last);
      assert Q.WfSegment(last);
      assert Reads(last.file) == Complete(last.file);
    }
  }

  /** The buffer before the crash; `gone[c]` segments of class c were already deleted from disk. */
  ghost predicate CrashImage(b: B.Three, gone: seq<nat>, debris: seq<Debris>, dirs: seq<Directory>) {
    && |gone| == |debris| == |dirs| == 3
    && (forall c | 0 <= c < 3 ::
          && gone[c] <= |Q.Segs(b.queues[c])|
          && Holds(dirs[c], Q.Segs(b.queues[c])[gone[c]..], debris[c])
          && DebrisOf(debris[c], Q.Segs(b.queues[c])[gone[c]..], b.nextSeq)
          && (debris[c].TornFile? ==> b.nextSeq <= U64_MAX))
  }

  lemma {:induction false} SuffixWhole(b: B.Three, c: nat, n: nat)
    requires B.Wf(b) && Tidy(b) && c < 3 && n <= |Q.Segs(b.queues[c])|
    ensures var segs := Q.Segs(b.queues[c])[n..];
      (forall s | s in segs :: Q.WfSegment(s)) && TidySegments(segs, b.nextSeq)
    ensures var m := |Q.LinesOf(Q.Segs(b.queues[c])[..n])|;
      m <= |StoredLines(b, c)| && Q.LinesOf(Q.Segs(b.queues[c])[n..]) == StoredLines(b, c)[m..]
  {
    hide Q.LinesOf, SeqOf, ParseLine, Complete;
    var all := Q.Segs(b.queues[c]);
    assert all == all[..n] + all[n..];
    Q.LinesOfAppend(all[..n], all[n..]);
    SuffixSorted(Q.LinesOf(all), |Q.LinesOf(all[..n])|, b.nextSeq, b.nextSeq);
  }

  /** A class whose segments were all recovered: nothing consumed, everything pending. */
  lemma {:induction false} FreshClass(segs: seq<Q.Segment>, bound: nat, next: nat)
    requires (forall s | s in segs :: Q.WfSegment(s)) && TidySegments(segs, bound) && bound <= U64_MAX + 1
    requires MaxSeqOf(segs) < next
    ensures var q := Q.Queue(segs, None, 0, 0);
      Q.Segs(q) == segs && Q.Wf(q) && Q.Pending(q) == Q.LinesOf(segs) && TidySegments(segs, next)
    ensures forall l | l in Q.LinesOf(segs) :: SeqOf(l) < next
    ensures MaxSeqOf(segs) <= U64_MAX
  {
    hide SeqOf, ParseLine, MaxSeqOf, Q.LinesOf, Complete, Torn, Named;
    MaxSeqOfBounds(segs);
    FreshQueue(segs);
  }

  lemma FreshQueue(segs: seq<Q.Segment>)
    requires forall s | s in segs :: Q.WfSegment(s)
    ensures var q := Q.Queue(segs, None, 0, 0);
      Q.Segs(q) == segs && Q.Wf(q) && Q.Pending(q) == Q.LinesOf(segs)
  {
    hide Q.LinesOf, Complete, Torn;
    var q, ls := Q.Queue(segs, None, 0, 0), Q.LinesOf(segs);
    assert ls[..0] == [] && ls[0..] == ls && Size([]) == 0;
    assert Q.Segs(q) == segs;
    if segs != [] { assert Q.WfSegment(segs[0]); }
  }

  lemma FreshBufferParts(maxTotal: nat, segmentMax: nat, parts: seq<seq<Q.Segment>>, c: nat)
    requires |parts| == 3 && c < 3
    ensures var b := FreshBuffer(maxTotal, segmentMax, parts[0], parts[1], parts[2]);
      && b.queues[c] == Q.Queue(parts[c], None, 0, 0)
      && MaxSeqOf(parts[c]) < b.nextSeq
  {
    hide MaxSeqOf, Q.Bytes;
  }

  lemma {:induction false} FreshBufferWf(maxTotal: nat, segmentMax: nat, b: B.Three, gone: seq<nat>,
                                                parts: seq<seq<Q.Segment>>)
    requires |parts| == |gone| == 3 && B.Wf(b) && Tidy(b)
    requires forall c | 0 <= c < 3 :: gone[c] <= |Q.Segs(b.queues[c])| && parts[c] == Q.Segs(b.queues[c])[gone[c]..]
    ensures var b' := FreshBuffer(maxTotal, segmentMax, parts[0], parts[1], parts[2]);
      && B.Wf(b') && Tidy(b')
      && (forall c | 0 <= c < 3 ::
            && Q.Segs(b'.queues[c]) == parts[c]
            && B.Pending(b', c) == StoredLines(b', c)
            && (forall l | l in StoredLines(b', c) :: SeqOf(l) < b'.nextSeq))
  {
    hide MaxSeqOf, Q.Bytes, Q.LinesOf, SeqOf, Q.Wf, Q.WfSegment, TidySegments, DistinctLines, Q.Pending, Max3;
    var b' := FreshBuffer(maxTotal, segmentMax, parts[0], parts[1], parts[2]);
    forall c | 0 <= c < 3
      ensures Q.Wf(b'.queues[c]) && TidySegments(Q.Segs(b'.queues[c]), b'.nextSeq)
      ensures Q.Segs(b'.queues[c]) == parts[c] && MaxSeqOf(parts[c]) <= U64_MAX
      ensures B.Pending(b', c) == StoredLines(b', c)
      ensures forall l | l in StoredLines(b', c) :: SeqOf(l) < b'.nextSeq
    {
      SuffixWhole(b, c, gone[c]);
      FreshBufferParts(maxTotal, segmentMax, parts, c);
      FreshClass(parts[c], b.nextSeq, b'.nextSeq);
    }
    forall c, d | 0 <= c < d < 3 ensures DistinctLines(StoredLines(b', c), StoredLines(b', d)) {
      SuffixWhole(b, c, gone[c]);
      SuffixWhole(b, d, gone[d]);
      assert DistinctLines(StoredLines(b, c), StoredLines(b, d));
      DistinctSuffix(StoredLines(b, c), |Q.LinesOf(Q.Segs(b.queues[c])[..gone[c]])|,
                     StoredLines(b, d), |Q.LinesOf(Q.Segs(b.queues[d])[..gone[d]])|);
    }
    NextIsBounded(maxTotal, segmentMax, parts);
  }

  lemma NextIsBounded(maxTotal: nat, segmentMax: nat, parts: seq<seq<Q.Segment>>)
    requires |parts| == 3 && forall c | 0 <= c < 3 :: MaxSeqOf(parts[c]) <= U64_MAX
    ensures FreshBuffer(maxTotal, segmentMax, parts[0], parts[1], parts[2]).nextSeq <= U64_MAX + 1
  {
    hide MaxSeqOf, Q.Bytes;
  }

  /** Reopening after a crash at any point, including in the middle of a line: every class holds
  exactly the lines of the segments still on disk, all pending again; the byte count is right;
  and the next sequence number is above every surviving one. */
  lemma {:induction false} ReopenExact(b: B.Three, gone: seq<nat>, debris: seq<Debris>, dirs: seq<Directory>,
                    listings: seq<seq<string>>, maxTotal: nat, segmentMax: nat)
    requires B.Wf(b) && Tidy(b) && CrashImage(b, gone, debris, dirs)
    requires |listings| == 3
    requires forall c | 0 <= c < 3 :: NoDuplicates(listings[c]) && forall n :: n in listings[c] <==> n in dirs[c]
    ensures var b' := Reopened(maxTotal, segmentMax, listings, dirs);
      && B.Wf(b') && Tidy(b')
      && (forall c | 0 <= c < 3 ::
            && Q.Segs(b'.queues[c]) == Q.Segs(b.queues[c])[gone[c]..]
            && B.Pending(b', c) == StoredLines(b', c)
            && (forall l | l in StoredLines(b', c) :: SeqOf(l) < b'.nextSeq))
  {
    hide TidySegments, Holds, DebrisOf, Tidy, B.Wf, SeqOf, RecoveredClass, FreshBuffer, Q.LinesOf;
    var parts := [RecoveredClass(listings[0], dirs[0]), RecoveredClass(listings[1], dirs[1]),
                  RecoveredClass(listings[2], dirs[2])];
    forall c | 0 <= c < 3 ensures parts[c] == Q.Segs(b.queues[c])[gone[c]..] {
      SuffixWhole(b, c, gone[c]);
      NextBounded(b);
      RecoverExact(listings[c], dirs[c], Q.Segs(b.queues[c])[gone[c]..], debris[c], b.nextSeq);
    }
    FreshBufferWf(maxTotal, segmentMax, b, gone, parts);
  }

  lemma NextBounded(b: B.Three)
    requires Tidy(b)
    ensures b.nextSeq <= U64_MAX + 1
  {
  }

  /** A crash while nothing of the class is being deleted loses nothing that was pending, reorders
  nothing, and brings back only consumed lines of the front segment, which has others. */
  lemma {:induction false} ReopenKeepsPending(b: B.Three, gone: seq<nat>, debris: seq<Debris>, dirs: seq<Directory>,
      listings: seq<seq<string>>, maxTotal: nat, segmentMax: nat, c: nat)
    requires B.Wf(b) && Tidy(b) && CrashImage(b, gone, debris, dirs) && |listings| == 3 && c < 3 && gone[c] == 0
    requires forall d | 0 <= d < 3 :: NoDuplicates(listings[d]) && forall f :: f in listings[d] <==> f in dirs[d]
    ensures var again, e := Reopened(maxTotal, segmentMax, listings, dirs), b.queues[c].consumedEntries;
      && e <= |StoredLines(b, c)|
      && B.Pending(again, c) == StoredLines(b, c)[..e] + B.Pending(b, c)
      && (Q.Segs(b.queues[c]) != [] ==> e < Q.Segs(b.queues[c])[0].entries)
  {
    ReopenExact(b, gone, debris, dirs, listings, maxTotal, segmentMax);
    hide Tidy, CrashImage, Reopened, Q.LinesOf, Q.Segs, Q.Wf, Q.Pending, B.StoredBytes;
    assert Q.Segs(b.queues[c])[0..] == Q.Segs(b.queues[c]);
    KeptFromFront(b.queues[c]);
  }

  lemma KeptFromFront(q: Q.Queue)
    requires Q.Wf(q)
    ensures var ls, e := Q.LinesOf(Q.Segs(q)), q.consumedEntries;
      e <= |ls| && ls == ls[..e] + Q.Pending(q) && (Q.Segs(q) != [] ==> e < Q.Segs(q)[0].entries)
  {
    hide Q.LinesOf, Q.WfSegment;
  }

  /** How many segments a commit of k lines deletes from the class, one after the other. */
  function Deletes(q: Q.Queue, k: nat): int
    requires k <= |Q.Pending(q)|
  {
    |Q.Segs(q)| - |Q.Segs(Q.Advance(q, k, Size(Q.Pending(q)[..k])).0)|
  }

  /** However many of its deletions a commit of k lines has made, only consumed and just committed
  lines are gone from disk: what is left are some of those lines, followed by everything that
  remains to be delivered. */
  lemma {:induction false} DeletedWereConsumed(q: Q.Queue, k: nat, j: nat) returns (m: nat)
    requires Q.Wf(q) && k <= |Q.Pending(q)| && j <= Deletes(q, k)
    ensures var ls, e := Q.LinesOf(Q.Segs(q)), q.consumedEntries + k;
      && j <= |Q.Segs(q)| && m <= e <= |ls|
      && Q.LinesOf(Q.Segs(q)[j..]) == ls[m..e] + Q.Pending(q)[k..]
  {
    hide Q.LinesOf, Q.Advance, Complete, Torn, Size, Q.Bytes;
    var segs := Q.Segs(q);
    var n := Q.AdvanceExact(q, k);
    assert segs[..n] == segs[..j] + segs[j..n] && segs == segs[..j] + segs[j..];
    Q.LinesOfAppend(segs[..j], segs[j..n]);
    Q.LinesOfAppend(segs[..j], segs[j..]);
    m := |Q.LinesOf(segs[..j])|;
    var ls, e := Q.LinesOf(segs), q.consumedEntries;
    Shift(ls, e, k);
    assert ls[m..] == ls[m..e + k] + ls[e + k..];
  }

  /** The lines from m to e, and then the others. */
  ghost predicate TailThen(ls: seq<string>, m: nat, e: nat, others: seq<string>, all: seq<string>) {
    m <= e <= |ls| && all == ls[m..e] + others
  }

  /** A class after a crash in a commit that was to have consumed its first e lines: a tail of
  those lines, then exactly what the commit was to leave. */
  ghost predicate ComesBack(before: B.Three, after: B.Three, again: B.Three, c: nat, e: nat)
    requires c < 3
  {
    exists m: nat :: TailThen(StoredLines(before, c), m, e, B.Pending(after, c), B.Pending(again, c))
  }

  /** Crash anywhere in the commit of a batch that was read, between any two of its deletions in
  any class, and reopen: every class has a tail of the lines already consumed or committed,
  followed by everything that the commit was to leave pending, in order.  With nothing deleted
  yet this covers a crash before the commit, and with everything deleted one after it. */
  lemma {:induction false} CrashInCommit(b: B.Three, batch: Batch, gone: seq<nat>, debris: seq<Debris>,
      dirs: seq<Directory>, listings: seq<seq<string>>, maxTotal: nat, segmentMax: nat)
    requires B.Wf(b) && Tidy(b) && B.TakesPrefixes(b, batch.taken)
    requires CrashImage(b, gone, debris, dirs) && |listings| == 3
    requires forall c | 0 <= c < 3 :: NoDuplicates(listings[c]) && forall f :: f in listings[c] <==> f in dirs[c]
    requires forall c | 0 <= c < 3 ::
      gone[c] + |Q.Segs(B.Commit(b, batch).queues[c])| <= |Q.Segs(b.queues[c])|
    ensures var again := Reopened(maxTotal, segmentMax, listings, dirs);
      && B.Wf(again) && Tidy(again)
      && forall c | 0 <= c < 3 ::
           ComesBack(b, B.Commit(b, batch), again, c, b.queues[c].consumedEntries + batch.taken[c].0)
  {
    ReopenExact(b, gone, debris, dirs, listings, maxTotal, segmentMax);
    hide B.Wf, Tidy, CrashImage, Reopened, ComesBack, B.Commit, Q.Segs, B.TakesPrefixes;
    var again := Reopened(maxTotal, segmentMax, listings, dirs);
    forall c | 0 <= c < 3
      ensures ComesBack(b, B.Commit(b, batch), again, c, b.queues[c].consumedEntries + batch.taken[c].0)
    {
      ClassComesBack(b, batch, again, c, gone[c]);
    }
  }

  lemma {:induction false} ClassComesBack(b: B.Three, batch: Batch, again: B.Three, c: nat, j: nat)
    requires B.Wf(b) && c < 3 && B.TakesPrefixes(b, batch.taken)
    requires j + |Q.Segs(B.Commit(b, batch).queues[c])| <= |Q.Segs(b.queues[c])|
    requires B.Pending(again, c) == StoredLines(again, c) && Q.Segs(again.queues[c]) == Q.Segs(b.queues[c])[j..]
    ensures ComesBack(b, B.Commit(b, batch), again, c, b.queues[c].consumedEntries + batch.taken[c].0)
  {
    hide Q.Wf, Q.Pending, Q.LinesOf, Q.Advance, Q.Segs, Size, B.StoredBytes, B.Commit, TailThen;
    var q, k := b.queues[c], batch.taken[c].0;
    CommittedQueue(b, batch, c);
    B.CommitTakenSpec(b, batch);
    var n := Q.AdvanceExact(q, k);
    var m := DeletedWereConsumed(q, k, j);
    IsTail(StoredLines(b, c), m, q.consumedEntries + k, Q.Pending(q)[k..], Q.LinesOf(Q.Segs(q)[j..]));
  }

  lemma IsTail(ls: seq<string>, m: nat, e: nat, others: seq<string>, all: seq<string>)
    requires m <= e <= |ls| && all == ls[m..e] + others
    ensures TailThen(ls, m, e, others, all)
  {
  }

  /** A commit advances exactly the classes it took from. */
  lemma CommittedQueue(b: B.Three, batch: Batch, c: nat)
    requires c < 3 && B.TakesPrefixes(b, batch.taken)
    ensures var q, k := b.queues[c], batch.taken[c].0;
      B.Commit(b, batch).queues[c] == if k == 0 then q else Q.Advance(q, k, Size(Q.Pending(q)[..k])).0
  {
    hide Q.Pending, Q.Advance;
    assert batch.taken[c].0 == 0 ==> Q.Pending(b.queues[c])[..0] == [];
  }
}
