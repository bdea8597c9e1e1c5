// The track layout shared by every simulator variant: an ordered list of
// segments laid end to end from the start line, and the lookup of the
// segment under a given distance.

module Tracks {
  import opened Common

  /**
   * One track segment. The source keeps a dictionary per segment; the
   * variants differ in which keys they fill (name, type and speed limit in
   * the real-circuit tracks, banking and elevation in the generic one,
   * aero_limited in the portfolio copy); the model carries all of them.
   */
  datatype Segment = Segment(
    name: string,
    start: real,
    end: real,
    length: real,
    radius: Radius,
    kind: string,
    speedLimit: Option<real>,
    banking: real,
    elevation: real,
    aeroLimited: bool)

  /** The lookup's half-open test start <= d < end. */
  predicate Contains(s: Segment, d: real)
  {
    s.start <= d < s.end
  }

  function SumLengths(segs: seq<Segment>): real
  {
    if |segs| == 0 then 0.0 else SumLengths(segs[..|segs| - 1]) + segs[|segs| - 1].length
  }

  /** Each segment starts where the lengths before it add up to and ends one length later. */
  predicate LaidEndToEnd(segs: seq<Segment>)
  {
    forall i :: 0 <= i < |segs| ==>
      segs[i].start == SumLengths(segs[..i]) && segs[i].end == segs[i].start + segs[i].length
  }

  predicate NonNegativeLengths(segs: seq<Segment>)
  {
    forall i :: 0 <= i < |segs| ==> segs[i].length >= 0.0
  }

  /** The first segment whose [start, end) holds d, or |segs| when there is none. */
  function FirstContaining(segs: seq<Segment>, d: real): (k: nat)
    ensures k <= |segs|
    ensures k < |segs| ==> Contains(segs[k], d)
    ensures forall j :: 0 <= j < k ==> !Contains(segs[j], d)
  {
    if |segs| == 0 then 0
    else if Contains(segs[0], d) then 0
    else 1 + FirstContaining(segs[1..], d)
  }

  /**
   * get_segment_at_distance: the first segment containing d, else the last
   * segment. None stands for the IndexError of segments[-1] on an empty track.
   */
  function SegmentAt(segs: seq<Segment>, d: real): (r: Option<Segment>)
    ensures r.Some? <==> |segs| > 0
    ensures r.Some? ==> r.value in segs
  {
    if |segs| == 0 then None
    else
      var k := FirstContaining(segs, d);
      Some(if k < |segs| then segs[k] else segs[|segs| - 1])
  }

  // ---------------------------------------------------------------------
  // Layout lemmas

  lemma PrefixLaidEndToEnd(segs: seq<Segment>, n: nat)
    requires LaidEndToEnd(segs) && n <= |segs|
    ensures LaidEndToEnd(segs[..n])
  {
    forall i | 0 <= i < n
      ensures segs[..n][i].start == SumLengths(segs[..n][..i])
    {
      assert segs[..n][..i] == segs[..i];
    }
  }

  /** Appending at the running total keeps the layout and adds the length to the total. */
  lemma AppendKeepsLayout(segs: seq<Segment>, x: Segment)
    requires LaidEndToEnd(segs)
    requires x.start == SumLengths(segs) && x.end == x.start + x.length
    ensures LaidEndToEnd(segs + [x])
    ensures SumLengths(segs + [x]) == SumLengths(segs) + x.length
  {
    var t := segs + [x];
    assert t[..|t| - 1] == segs;
    forall i | 0 <= i < |t|
      ensures t[i].start == SumLengths(t[..i])
    {
      if i < |segs| {
        assert t[..i] == segs[..i];
      } else {
        assert t[..i] == segs;
      }
    }
  }

  /** Consecutive segments are contiguous, the first starts at 0 and the last ends at the total. */
  lemma {:induction false} LayoutIsContiguous(segs: seq<Segment>)
    requires LaidEndToEnd(segs)
    ensures |segs| > 0 ==> segs[0].start == 0.0 && segs[|segs| - 1].end == SumLengths(segs)
    ensures forall i :: 0 < i < |segs| ==> segs[i].start == segs[i - 1].end
  {
    forall i | 0 < i < |segs|
      ensures segs[i].start == segs[i - 1].end
    {
      assert segs[..i][..i - 1] == segs[..i - 1];
    }
    if |segs| > 0 {
      assert segs[..|segs| - 1][..|segs| - 1] == segs[..|segs| - 1];
    }
  }

  lemma {:induction false} PrefixSumMonotone(segs: seq<Segment>, i: nat, j: nat)
    requires NonNegativeLengths(segs) && i <= j <= |segs|
    ensures SumLengths(segs[..i]) <= SumLengths(segs[..j])
    decreases j - i
  {
    if i < j {
      PrefixSumMonotone(segs, i, j - 1);
      assert segs[..j][..j - 1] == segs[..j - 1];
    }
  }

  /** With non-negative lengths every segment lies inside [0, total]. */
  lemma SegmentWithinTrack(segs: seq<Segment>, i: nat)
    requires LaidEndToEnd(segs) && NonNegativeLengths(segs) && i < |segs|
    ensures 0.0 <= segs[i].start <= segs[i].end <= SumLengths(segs)
  {
    assert segs[..0] == [];
    PrefixSumMonotone(segs, 0, i);
    PrefixSumMonotone(segs, i + 1, |segs|);
    assert segs[..i + 1][..i] == segs[..i];
    assert segs[..|segs|] == segs;
  }

  /** With non-negative lengths a segment ends no later than any later one starts. */
  lemma EndsBeforeLaterStarts(segs: seq<Segment>, i: nat, j: nat)
    requires LaidEndToEnd(segs) && NonNegativeLengths(segs) && i < j < |segs|
    ensures segs[i].end <= segs[j].start
  {
    PrefixSumMonotone(segs, i + 1, j);
    assert segs[..i + 1][..i] == segs[..i];
  }

  lemma {:induction false} SomeSegmentContains(segs: seq<Segment>, d: real) returns (i: nat)
    requires LaidEndToEnd(segs) && NonNegativeLengths(segs)
    requires 0.0 <= d < SumLengths(segs)
    ensures i < |segs| && Contains(segs[i], d)
    decreases |segs|
  {
    var n := |segs| - 1;
    var prefix := segs[..n];
    assert segs[..n + 1] == segs;
    if d < SumLengths(prefix) {
      PrefixLaidEndToEnd(segs, n);
      assert NonNegativeLengths(prefix);
      i := SomeSegmentContains(prefix, d);
      assert prefix[i] == segs[i];
    } else {
      i := n;
    }
  }

  /**
   * On a well-formed track, a distance in [0, total) finds a segment that
   * contains it, and no other segment contains it.
   */
  lemma LookupFindsTheContainingSegment(segs: seq<Segment>, d: real)
    requires LaidEndToEnd(segs) && NonNegativeLengths(segs)
    requires 0.0 <= d < SumLengths(segs)
    ensures FirstContaining(segs, d) < |segs|
    ensures SegmentAt(segs, d) == Some(segs[FirstContaining(segs, d)])
    ensures forall j :: 0 <= j < |segs| && Contains(segs[j], d) ==> j == FirstContaining(segs, d)
  {
    var i := SomeSegmentContains(segs, d);
    var k := FirstContaining(segs, d);
    forall j | 0 <= j < |segs| && Contains(segs[j], d)
      ensures j == k
    {
      if j < k {
      } else if k < j {
        EndsBeforeLaterStarts(segs, k, j);
      }
    }
  }

  /** Off the track (before 0 or at/after the total) the lookup falls back to the last segment. */
  lemma LookupOffTrackGivesLast(segs: seq<Segment>, d: real)
    requires LaidEndToEnd(segs) && NonNegativeLengths(segs) && |segs| > 0
    requires d < 0.0 || d >= SumLengths(segs)
    ensures FirstContaining(segs, d) == |segs|
    ensures SegmentAt(segs, d) == Some(segs[|segs| - 1])
  {
    var k := FirstContaining(segs, d);
    if k < |segs| {
      SegmentWithinTrack(segs, k);
      assert false;
    }
  }

  // ---------------------------------------------------------------------

  /**
   * A track: its metadata, the segment list and the running total length.
   * The same class serves the generic Track and the RealF1Track of every
   * source file; the generic one has no record lap time.
   */
  class Track {
    const name: string
    /** The declared circuit length; nothing checks it against the segments. */
    const length: real
    const recordLapTime: real
    const recordHolder: string
    const year: int
    var segments: seq<Segment>
    var totalLength: real

    ghost predicate Valid()
      reads this
    {
      LaidEndToEnd(segments) && totalLength == SumLengths(segments)
    }

    constructor (name: string, length: real, recordLapTime: real, recordHolder: string, year: int)
      ensures Valid()
      ensures this.name == name && this.length == length && this.recordLapTime == recordLapTime
      ensures this.recordHolder == recordHolder && this.year == year
      ensures segments == [] && totalLength == 0.0
    {
      this.name := name;
      this.length := length;
      this.recordLapTime := recordLapTime;
      this.recordHolder := recordHolder;
      this.year := year;
      segments := [];
      totalLength := 0.0;
    }

    /** add_segment: append a segment that starts at the running total, then grow the total. */
    method AddSegment(name: string, length: real, radius: Radius, kind: string,
                      speedLimit: Option<real>, banking: real, elevation: real, aeroLimited: bool)
      requires Valid()
      modifies this
      ensures Valid()
      ensures segments == old(segments) + [Segment(name, old(totalLength), old(totalLength) + length, length,
                                                   radius, kind, speedLimit, banking, elevation, aeroLimited)]
      ensures totalLength == old(totalLength) + length
    {
      var seg := Segment(name, totalLength, totalLength + length, length, radius, kind, speedLimit,
                         banking, elevation, aeroLimited);
      AppendKeepsLayout(segments, seg);
      segments := segments + [seg];
      totalLength := totalLength + length;
    }

    /** get_segment_at_distance: a linear scan for the first containing segment. */
    method SegmentAtDistance(distance: real) returns (seg: Option<Segment>)
      ensures seg == SegmentAt(segments, distance)
    {
      var i := 0;
      while i < |segments|
        invariant 0 <= i <= |segments|
        invariant forall j :: 0 <= j < i ==> !Contains(segments[j], distance)
      {
        if segments[i].start <= distance < segments[i].end {
          return Some(segments[i]);
        }
        i := i + 1;
      }
      if |segments| == 0 {
        return None;
      }
      return Some(segments[|segments| - 1]);
    }
  }
}
