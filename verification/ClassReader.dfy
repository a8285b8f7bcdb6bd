/** Lazy oldest-first reader over the segment files of one class. */
module ClassReaderModule {
  import opened Basics
  import opened Lines
  import opened LineFormat
  import opened Replay
  import Q = SegmentQueue

  datatype ReadEntry = ReadEntry(rec: Record, lineLen: nat)

  function LinesIn(files: seq<string>): seq<string> {
    if files == [] then [] else Complete(files[0]) + LinesIn(files[1..])
  }

  /** What is left of a file after seeking to an offset, possibly past its end. */
  function Seek(file: string, offset: nat): string {
    if offset <= |file| then file[offset..] else ""
  }

  /** The newline-terminated lines a fresh reader will see. */
  function Readable(files: seq<string>, skip: nat): seq<string> {
    if files == [] then [] else Complete(Seek(files[0], skip)) + LinesIn(files[1..])
  }

  /** Seeking by the consumed bytes shows the reader exactly the pending lines. */
  lemma ReaderSeesPending(q: Q.Queue)
    requires Q.Wf(q)
    ensures Readable(Q.Files(Q.Segs(q)), q.consumedBytes) == Q.Pending(q)
  {
    var segs := Q.Segs(q);
    if segs != [] {
      var file, k := segs[0].file, q.consumedEntries;
      assert Q.WfSegment(segs[0]);
      Q.LinesOfFront(segs);
      assert Q.LinesOf(segs)[..k] == Complete(file)[..k];
      SeekDropsLines(file, k);
      assert Q.Files(segs)[1..] == Q.Files(segs[1..]);
      LinesInFiles(segs[1..]);
      assert Q.LinesOf(segs)[k..] == Complete(file)[k..] + Q.LinesOf(segs[1..]);
    }
  }

  lemma {:induction false} LinesInFiles(segs: seq<Q.Segment>)
    ensures LinesIn(Q.Files(segs)) == Q.LinesOf(segs)
  {
    if segs != [] {
      assert Q.Files(segs)[1..] == Q.Files(segs[1..]);
      LinesInFiles(segs[1..]);
    }
  }

  /** The lines a reader has still to see, from its position. */
  function UnreadAt(files: seq<string>, skip: nat, fileIdx: nat, rest: Option<string>): seq<string>
    requires fileIdx <= |files| && (rest.Some? ==> fileIdx < |files|)
  {
    if rest.Some? then Complete(rest.value) + LinesIn(files[fileIdx + 1..])
    else if fileIdx == 0 then Readable(files, skip)
    else LinesIn(files[fileIdx..])
  }

  lemma NothingLeft(cls: nat, files: seq<string>, skip: nat, n: nat, b: nat)
    ensures ItemsFrom(cls, UnreadAt(files, skip, |files|, None), n, b) == []
  {
    assert files[|files|..] == [];
  }

  lemma OpenFile(files: seq<string>, skip: nat, fileIdx: nat)
    requires fileIdx < |files|
    ensures var text := if fileIdx == 0 && skip > 0 then Seek(files[fileIdx], skip) else files[fileIdx];
      UnreadAt(files, skip, fileIdx, Some(text)) == UnreadAt(files, skip, fileIdx, None)
  {
    assert files[fileIdx..][1..] == files[fileIdx + 1..];
    assert Seek(files[fileIdx], 0) == files[fileIdx];
  }

  /** `read_line` finds the end of the file or a torn tail. */
  lemma ReadEnd(files: seq<string>, skip: nat, fileIdx: nat, text: string)
    requires fileIdx < |files| && FirstNewline(text) == |text|
    ensures UnreadAt(files, skip, fileIdx, Some(text)) == UnreadAt(files, skip, fileIdx + 1, None)
  {
    hide LinesIn, Readable, FirstNewline;
    assert Complete(text) == [];
  }

  /** `read_line` takes the next line. */
  lemma {:induction false} ReadLine(files: seq<string>, skip: nat, fileIdx: nat, text: string)
    requires fileIdx < |files| && FirstNewline(text) < |text|
    ensures var i := FirstNewline(text);
      UnreadAt(files, skip, fileIdx, Some(text)) ==
        [text[..i + 1]] + UnreadAt(files, skip, fileIdx, Some(text[i + 1..]))
  {
    hide Complete, FirstNewline, LinesIn, Readable;
    var i := FirstNewline(text);
    CompleteUnfold(text);
    Assoc([text[..i + 1]], Complete(text[i + 1..]), LinesIn(files[fileIdx + 1..]));
  }

  lemma ItemsCons(cls: nat, line: string, later: seq<string>, n: nat, b: nat)
    ensures ItemsFrom(cls, [line] + later, n, b) ==
      match ParseLine(line)
      case None => ItemsFrom(cls, later, n + 1, b + |line|)
      case Some(rec) => [Item(cls, rec, n + 1, b + |line|)] + ItemsFrom(cls, later, 0, 0)
  {
    assert ([line] + later)[1..] == later;
  }

  class ClassReader {
    const classIdx: nat
    const files: seq<string>
    const initialSkip: nat
    var fileIdx: nat
    /** The unread part of the open file. */
    var rest: Option<string>
    var peeked: Option<ReadEntry>
    var skippedEntries: nat
    var skippedBytes: nat

    ghost predicate Valid()
      reads this
    {
      fileIdx <= |files| && (rest.Some? ==> fileIdx < |files|)
    }

    ghost function Unread(): seq<string>
      reads this
      requires Valid()
    {
      UnreadAt(files, initialSkip, fileIdx, rest)
    }

    /** The items still to come, the peeked one first. */
    ghost function Ahead(): seq<Item>
      reads this
      requires Valid()
    {
      if peeked.None? then ItemsFrom(classIdx, Unread(), skippedEntries, skippedBytes)
      else [Item(classIdx, peeked.value.rec, skippedEntries + 1, skippedBytes + peeked.value.lineLen)]
           + ItemsFrom(classIdx, Unread(), 0, 0)
    }

    constructor (classIdx: nat, files: seq<string>, initialSkip: nat)
      ensures Valid() && this.classIdx == classIdx
      ensures Ahead() == ItemsOf(classIdx, Readable(files, initialSkip))
    {
      this.classIdx, this.files, this.initialSkip := classIdx, files, initialSkip;
      fileIdx, rest, peeked, skippedEntries, skippedBytes := 0, None, None, 0, 0;
    }

    /** The next line that parses; lines that do not are counted as skipped. */
    method ReadNext() returns (r: Option<ReadEntry>)
      requires Valid() && peeked.None?
      modifies this
      ensures Valid() && peeked == None
      ensures match r
        case None => old(Ahead()) == [] && Ahead() == []
        case Some(entry) =>
          old(Ahead()) == [Item(classIdx, entry.rec, skippedEntries + 1, skippedBytes + entry.lineLen)]
                          + ItemsFrom(classIdx, Unread(), 0, 0)
    {
      hide UnreadAt, FirstNewline, ParseLine, ItemsFrom;
      while true
        invariant Valid() && peeked == None
        invariant Ahead() == old(Ahead())
        decreases |files| - fileIdx, rest.None?, if rest.Some? then |rest.value| else 0
      {
        if rest.None? {
          if fileIdx >= |files| {
            NothingLeft(classIdx, files, initialSkip, skippedEntries, skippedBytes);
            return None;
          }
          var file := files[fileIdx];
          OpenFile(files, initialSkip, fileIdx);
          rest := Some(if fileIdx == 0 && initialSkip > 0 then Seek(file, initialSkip) else file);
        }
        var text := rest.value;
        var i := FirstNewline(text);
        if i == |text| {
          // end of file, or a torn line
          ReadEnd(files, initialSkip, fileIdx, text);
          rest := None;
          fileIdx := fileIdx + 1;
          continue;
        }
        ReadLine(files, initialSkip, fileIdx, text);
        var line := text[..i + 1];
        rest := Some(text[i + 1..]);
        ItemsCons(classIdx, line, Unread(), skippedEntries, skippedBytes);
        match ParseLine(line)
        case Some(rec) =>
          return Some(ReadEntry(rec, |line|));
        case None =>
          skippedEntries := skippedEntries + 1;
          skippedBytes := skippedBytes + |line|;
      }
      assert false;
    }

    /** Makes the next item, if any, available without consuming it. */
    method Peek() returns (r: Option<ReadEntry>)
      requires Valid()
      modifies this
      ensures Valid() && r == peeked
      ensures Ahead() == old(Ahead()) && (peeked.None? <==> Ahead() == [])
    {
      hide UnreadAt, ItemsFrom;
      if peeked.None? {
        peeked := ReadNext();
      }
      r := peeked;
    }

    /** `take` and `take_skipped`: consumes the peeked entry with the lines skipped before it. */
    method TakeWithSkipped() returns (entry: ReadEntry, skipped: (nat, nat))
      requires Valid() && peeked.Some?
      modifies this
      ensures Valid()
      ensures Ahead() == old(Ahead())[1..]
      ensures old(Ahead())[0] == Item(classIdx, entry.rec, skipped.0 + 1, skipped.1 + entry.lineLen)
    {
      hide UnreadAt, ItemsFrom;
      entry := peeked.value;
      peeked := None;
      skipped := (skippedEntries, skippedBytes);
      skippedEntries, skippedBytes := 0, 0;
    }
  }
}
