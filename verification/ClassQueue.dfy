/** The per-class queue of the disk buffer: its methods update the fields in place. */
module ClassQueueModule {
  import opened Basics
  import opened LineFormat
  import Q = SegmentQueue

  class ClassQueue {
    var segments: seq<Q.Segment>
    var active: Option<Q.Segment>
    var consumedEntries: nat
    var consumedBytes: nat

    function Snapshot(): Q.Queue
      reads this
    {
      Q.Queue(segments, active, consumedEntries, consumedBytes)
    }

    /** A queue over the recovered segments: nothing is active, nothing is consumed. */
    constructor (recovered: seq<Q.Segment>)
      ensures Snapshot() == Q.Queue(recovered, None, 0, 0)
    {
      segments, active, consumedEntries, consumedBytes := recovered, None, 0, 0;
    }

    method Append(line: string, seq_: nat, segmentMax: nat)
      modifies this
      ensures Snapshot() == Q.Append(old(Snapshot()), line, seq_, segmentMax)
    {
      if active.None? {
        active := Some(Q.Segment(SegmentName(seq_), "", 0, 0));
      }
      var seg := active.value;
      active := Some(Q.Segment(seg.name, seg.file + line, seg.bytes + |line|, seg.entries + 1));
      if active.value.bytes >= segmentMax {
        Rotate();
      }
    }

    method Rotate()
      modifies this
      ensures Snapshot() == Q.Rotate(old(Snapshot()))
    {
      if active.Some? {
        if active.value.entries > 0 {
          segments := segments + [active.value];
        }
        active := None;
      }
    }

    method DropFront() returns (r: Option<(nat, nat)>)
      modifies this
      ensures (Snapshot(), r) == Q.DropFront(old(Snapshot()))
    {
      if segments == [] {
        if active.None? || active.value.entries == 0 {
          return None;
        }
        Rotate();
      }
      var seg := segments[0];
      segments := segments[1..];
      r := Some((SaturatingSub(seg.entries, consumedEntries), seg.bytes));
      consumedEntries, consumedBytes := 0, 0;
    }

    method Advance(entries: nat, bytes: nat) returns (freed: nat)
      modifies this
      ensures (Snapshot(), freed) == Q.Advance(old(Snapshot()), entries, bytes)
    {
      consumedEntries := consumedEntries + entries;
      consumedBytes := consumedBytes + bytes;
      ghost var start := Snapshot();
      freed := 0;
      while true
        invariant Q.Reclaim(start) == (Q.Reclaim(Snapshot()).0, freed + Q.Reclaim(Snapshot()).1)
        decreases |segments|
      {
        if segments != [] {
          var front := segments[0];
          if consumedEntries >= front.entries {
            segments := segments[1..];
            consumedEntries := consumedEntries - front.entries;
            consumedBytes := SaturatingSub(consumedBytes, front.bytes);
            freed := freed + front.bytes;
            continue;
          }
          break;
        } else if active.Some? {
          var seg := active.value;
          if seg.entries > 0 && consumedEntries >= seg.entries {
            active := None;
            consumedEntries := consumedEntries - seg.entries;
            consumedBytes := SaturatingSub(consumedBytes, seg.bytes);
            freed := freed + seg.bytes;
          }
          break;
        } else {
          break;
        }
      }
    }

    method PendingEntries() returns (n: nat)
      ensures Q.Wf(Snapshot()) ==> n == |Q.Pending(Snapshot())|
    {
      var total: nat := 0;
      for i := 0 to |segments|
        invariant Q.Wf(Snapshot()) ==> total == |Q.LinesOf(segments[..i])|
      {
        if Q.Wf(Snapshot()) {
          Q.LinesOfAppend(segments[..i], [segments[i]]);
          Q.LinesOfOne(segments[i]);
          assert segments[..i] + [segments[i]] == segments[..i + 1];
          assert segments[i] in Q.Segs(Snapshot());
        }
        total := total + segments[i].entries;
      }
      if Q.Wf(Snapshot()) {
        assert segments[..|segments|] == segments;
        if active.Some? {
          Q.LinesOfAppend(segments, [active.value]);
          Q.LinesOfOne(active.value);
          assert active.value in Q.Segs(Snapshot());
        } else {
          assert Q.Segs(Snapshot()) == segments;
        }
      }
      if active.Some? { total := total + active.value.entries; }
      n := SaturatingSub(total, consumedEntries);
    }

    /** The readable files, front to active. */
    method FileSnapshot() returns (files: seq<string>)
      ensures Q.Wf(Snapshot()) ==> files == Q.Files(Q.Segs(Snapshot()))
    {
      files := [];
      for i := 0 to |segments|
        invariant files == Q.Files(segments[..i])
      {
        files := files + [segments[i].file];
      }
      if active.Some? && active.value.entries > 0 {
        files := files + [active.value.file];
      }
      if Q.Wf(Snapshot()) && active.Some? {
        assert active.value in Q.Segs(Snapshot());
      }
    }
  }
}
