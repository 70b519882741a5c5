/** Walking the marker segments in front of the scan: `dimensions` of `native/src/jpeg.rs` and `avi1_counter` of
    `native/src/recording.rs`. Marker segments are those of section B.1.1.4 of ITU-T T.81. */
module JpegHeader {
  import opened Prelude

  datatype Size = Size(width: nat, height: nat)

  /** SOF0 to SOF15 without DHT, JPG and DAC. */
  predicate IsFrameHeader(code: Byte) {
    0xc0 <= code <= 0xcf && code != 0xc4 && code != 0xc8 && code != 0xcc
  }

  function Be16(p: seq<Byte>, at: nat): nat
    requires at + 1 < |p|
  {
    256 * p[at] as int + p[at + 1] as int
  }

  predicate StartsWith(p: seq<Byte>, prefix: seq<Byte>) {
    |prefix| <= |p| && p[..|prefix|] == prefix
  }

  const SOI_BYTES: seq<Byte> := [0xff, 0xd8]

  // `dimensions`

  /** The first byte at or behind `from` that is not a fill byte. */
  function SkipFill(p: seq<Byte>, from: nat): (k: nat)
    requires from <= |p|
    ensures from <= k <= |p|
    decreases |p| - from
  {
    if from < |p| && p[from] == 0xff then SkipFill(p, from + 1) else from
  }

  datatype Outcome = Continue(cursor: nat) | Stop(size: Option<Size>)

  /** What follows the fill bytes: a marker at `at`, perhaps with a segment behind it. */
  function AtMarker(p: seq<Byte>, at: nat): (r: Outcome)
    requires at <= |p|
    ensures r.Continue? ==> at < r.cursor <= |p|
  {
    if at == |p| then Stop(None)
    else if p[at] == 0xd8 || p[at] == 0xd9 then Continue(at + 1)
    else if p[at] == 0xda || at + 2 >= |p| then Stop(None)
    else
      var length := Be16(p, at + 1);
      if length < 2 || at + 1 + length > |p| then Stop(None)
      else if !IsFrameHeader(p[at]) then Continue(at + 1 + length)
      else if length < 7 then Stop(None)
      else Stop(Some(Size(Be16(p, at + 6), Be16(p, at + 4))))
  }

  function SizeFrom(p: seq<Byte>, cursor: nat): Option<Size>
    decreases |p| - cursor
  {
    if cursor + 4 > |p| then None
    else if p[cursor] != 0xff then SizeFrom(p, cursor + 1)
    else
      match AtMarker(p, SkipFill(p, cursor))
      case Stop(size) => size
      case Continue(next) => if cursor < next then SizeFrom(p, next) else None
  }

  method Dimensions(p: seq<Byte>) returns (r: Option<Size>)
    ensures r == if StartsWith(p, SOI_BYTES) then SizeFrom(p, 2) else None
  {
    if |p| < 2 || p[..2] != SOI_BYTES {
      return None;
    }
    var cursor := 2;
    while cursor + 4 <= |p|
      invariant 2 <= cursor <= |p|
      invariant SizeFrom(p, 2) == SizeFrom(p, cursor)
      decreases |p| - cursor
    {
      if p[cursor] != 0xff {
        cursor := cursor + 1;
        continue;
      }
      ghost var start := cursor;
      while cursor < |p| && p[cursor] == 0xff
        invariant start <= cursor <= |p|
        invariant SkipFill(p, start) == SkipFill(p, cursor)
      {
        cursor := cursor + 1;
      }
      if cursor == |p| {
        return None;
      }
      var marker := p[cursor];
      cursor := cursor + 1;
      if marker == 0xd8 || marker == 0xd9 {
        continue;
      }
      if marker == 0xda || cursor + 1 >= |p| {
        return None;
      }
      var length := Be16(p, cursor);
      if length < 2 || cursor + length > |p| {
        return None;
      }
      if IsFrameHeader(marker) {
        if length < 7 {
          return None;
        }
        return Some(Size(Be16(p, cursor + 5), Be16(p, cursor + 3)));
      }
      cursor := cursor + length;
    }
    return None;
  }

  // `avi1_counter`

  const AVI1: seq<Byte> := [0x41, 0x56, 0x49, 0x31, 0, 1, 1, 1]

  predicate IsAvi1(code: Byte, data: seq<Byte>) {
    code == 0xe0 && |data| == 31 && StartsWith(data, AVI1)
  }

  function Be24(data: seq<Byte>, at: nat): nat
    requires at + 2 < |data|
  {
    65_536 * data[at] as int + 256 * data[at + 1] as int + data[at + 2] as int
  }

  function CounterFrom(p: seq<Byte>, offset: nat): Option<nat>
    decreases |p| - offset
  {
    if offset + 4 > |p| || p[offset] != 0xff || p[offset + 1] == 0xda || p[offset + 1] == 0xd9 then None
    else
      var length := Be16(p, offset + 2);
      if length < 2 || offset + 2 + length > |p| then None
      else
        var data := p[offset + 4..offset + 2 + length];
        if IsAvi1(p[offset + 1], data) then Some(Be24(data, 10)) else CounterFrom(p, offset + 2 + length)
  }

  method Avi1Counter(jpeg: seq<Byte>) returns (r: Option<nat>)
    ensures r == if StartsWith(jpeg, SOI_BYTES) then CounterFrom(jpeg, 2) else None
  {
    if |jpeg| < 2 || jpeg[..2] != SOI_BYTES {
      return None;
    }
    var offset := 2;
    while offset + 4 <= |jpeg|
      invariant 2 <= offset <= |jpeg|
      invariant CounterFrom(jpeg, 2) == CounterFrom(jpeg, offset)
      decreases |jpeg| - offset
    {
      if jpeg[offset] != 0xff {
        return None;
      }
      var marker := jpeg[offset + 1];
      if marker == 0xda || marker == 0xd9 {
        return None;
      }
      var length := Be16(jpeg, offset + 2);
      if length < 2 || offset + 2 + length > |jpeg| {
        return None;
      }
      var data := jpeg[offset + 4..offset + 2 + length];
      if IsAvi1(marker, data) {
        return Some(Be24(data, 10));
      }
      offset := offset + 2 + length;
    }
    return None;
  }

  // Round trip: an encoder of marker segments

  /** A marker segment: fill bytes, the marker, the length, the data. */
  datatype MarkerSegment = MarkerSegment(fill: nat, code: Byte, data: seq<Byte>)

  predicate SegmentOk(s: MarkerSegment) {
    s.code != 0xff && |s.data| + 2 <= U16_MAX
  }

  function Fill(n: nat): (r: seq<Byte>)
    ensures |r| == n
  {
    if n == 0 then [] else [0xff] + Fill(n - 1)
  }

  function Encoded(s: MarkerSegment): (r: seq<Byte>)
    requires SegmentOk(s)
    ensures |r| == SizeOf(s)
  {
    Fill(s.fill + 1) + [s.code, (|s.data| + 2) / 256, (|s.data| + 2) % 256] + s.data
  }

  function SizeOf(s: MarkerSegment): nat { s.fill + 4 + |s.data| }

  predicate FillAt(p: seq<Byte>, at: nat, end: nat) {
    at <= end <= |p| && forall i {:trigger p[i]} :: at <= i < end ==> p[i] == 0xff
  }

  /** The segment stands in the payload at that place. */
  predicate Holds(p: seq<Byte>, at: nat, s: MarkerSegment) {
    var m := at + s.fill + 1;
    && at + SizeOf(s) <= |p|
    && FillAt(p, at, m)
    && p[m] == s.code && Be16(p, m + 1) == |s.data| + 2
    && p[m + 3..m + 3 + |s.data|] == s.data
  }

  lemma {:induction false} FillIsFill(n: nat)
    ensures FillAt(Fill(n), 0, n)
  {
    if n > 0 {
      FillIsFill(n - 1);
    }
  }

  lemma {:induction false} EncodedHolds(s: MarkerSegment)
    requires SegmentOk(s)
    ensures Holds(Encoded(s), 0, s)
  {
    var e, m := Encoded(s), s.fill + 1;
    FillIsFill(m);
    assert e[..m] == Fill(m);
    assert forall i :: 0 <= i < m ==> e[i] == e[..m][i];
    assert e[m + 3..m + 3 + |s.data|] == s.data;
  }

  /** A segment that stands in a slice of the payload stands in the payload. */
  lemma {:induction false} HoldsInSlice(p: seq<Byte>, e: seq<Byte>, at: nat, s: MarkerSegment)
    requires at + |e| <= |p| && p[at..at + |e|] == e && Holds(e, 0, s)
    ensures Holds(p, at, s)
  {
    var m := s.fill + 1;
    assert forall i {:trigger p[i]} :: at <= i < at + |e| ==> p[i] == e[i - at];
    assert p[at + m + 3..at + m + 3 + |s.data|] == p[at..at + |e|][m + 3..m + 3 + |s.data|];
  }

  lemma {:induction false} FillEnds(p: seq<Byte>, at: nat, m: nat)
    requires m < |p| && p[m] != 0xff && FillAt(p, at, m)
    ensures SkipFill(p, at) == m
    decreases m - at
  {
    if at < m {
      FillEnds(p, at + 1, m);
    }
  }

  /** The codes from 0xc0 to 0xcf that open a frame: all but the multiples of four behind the first. */
  predicate OpensFrame(code: Byte) {
    code == 0xc0 || (code / 16 == 12 && code % 4 != 0)
  }

  /** A segment `dimensions` walks over. */
  predicate Skipped(s: MarkerSegment) {
    SegmentOk(s) && s.code != 0xd8 && s.code != 0xd9 && s.code != 0xda && !OpensFrame(s.code)
  }

  /** A frame header for pictures of this size: precision, height, width and the rest. */
  predicate FrameOf(s: MarkerSegment, width: nat, height: nat) {
    && SegmentOk(s) && OpensFrame(s.code) && width <= U16_MAX && height <= U16_MAX && |s.data| >= 5
    && s.data[1..5] == [height / 256, height % 256, width / 256, width % 256]
  }

  lemma {:induction false} SizeSkips(p: seq<Byte>, at: nat, s: MarkerSegment)
    requires Skipped(s) && Holds(p, at, s)
    ensures SizeFrom(p, at) == SizeFrom(p, at + SizeOf(s))
  {
    FillEnds(p, at, at + s.fill + 1);
  }

  /** `dimensions` also passes over a byte that is not a marker, and over the markers that have no length. */
  lemma {:induction false} StrayBytesArePassed(p: seq<Byte>, at: nat, m: nat)
    requires at + 4 <= |p| && m < |p| && FillAt(p, at, m)
    requires if at == m then p[at] != 0xff else p[m] == 0xd8 || p[m] == 0xd9
    ensures SizeFrom(p, at) == SizeFrom(p, m + 1)
  {
    if at < m {
      FillEnds(p, at, m);
    }
  }

  predicate AllOk(ss: seq<MarkerSegment>) {
    forall i {:trigger ss[i]} :: 0 <= i < |ss| ==> SegmentOk(ss[i])
  }

  predicate AllSkipped(ss: seq<MarkerSegment>) {
    forall i {:trigger ss[i]} :: 0 <= i < |ss| ==> Skipped(ss[i])
  }

  predicate AllPassed(ss: seq<MarkerSegment>) {
    forall i {:trigger ss[i]} :: 0 <= i < |ss| ==> Passed(ss[i])
  }

  function EncodedAll(ss: seq<MarkerSegment>): seq<Byte>
    requires AllOk(ss)
  {
    if |ss| == 0 then [] else Encoded(ss[0]) + EncodedAll(ss[1..])
  }

  /** The segments stand one behind the other, from `at` to `end`. */
  predicate Walk(p: seq<Byte>, at: nat, ss: seq<MarkerSegment>, end: nat)
    decreases |ss|
  {
    if |ss| == 0 then at == end
    else Holds(p, at, ss[0]) && Walk(p, at + SizeOf(ss[0]), ss[1..], end)
  }

  lemma {:induction false} HeldInFront(p: seq<Byte>, at: nat, s: MarkerSegment, rest: seq<Byte>)
    requires SegmentOk(s) && at <= |p| && StartsWith(p[at..], Encoded(s) + rest)
    ensures Holds(p, at, s)
    ensures StartsWith(p[at + SizeOf(s)..], rest)
  {
    var e := Encoded(s);
    assert p[at..at + |e|] == p[at..][..|e + rest|][..|e|];
    assert p[at + |e|..][..|rest|] == p[at..][..|e + rest|][|e|..];
    EncodedHolds(s);
    HoldsInSlice(p, e, at, s);
  }

  lemma {:induction false} FirstInFront(p: seq<Byte>, at: nat, ss: seq<MarkerSegment>, rest: seq<Byte>)
    requires AllOk(ss) && |ss| > 0 && at <= |p| && StartsWith(p[at..], EncodedAll(ss) + rest)
    ensures Holds(p, at, ss[0]) && StartsWith(p[at + SizeOf(ss[0])..], EncodedAll(ss[1..]) + rest)
    ensures |EncodedAll(ss)| == SizeOf(ss[0]) + |EncodedAll(ss[1..])|
  {
    var e, more := Encoded(ss[0]), EncodedAll(ss[1..]);
    assert EncodedAll(ss) + rest == e + (more + rest);
    HeldInFront(p, at, ss[0], more + rest);
  }

  lemma {:induction false} WalkBehind(p: seq<Byte>, at: nat, ss: seq<MarkerSegment>, rest: seq<Byte>)
    requires AllOk(ss) && at <= |p| && StartsWith(p[at..], EncodedAll(ss) + rest)
    ensures at + |EncodedAll(ss)| <= |p| && StartsWith(p[at + |EncodedAll(ss)|..], rest)
    ensures Walk(p, at, ss, at + |EncodedAll(ss)|)
    decreases |ss|
  {
    if |ss| > 0 {
      FirstInFront(p, at, ss, rest);
      WalkBehind(p, at + SizeOf(ss[0]), ss[1..], rest);
    } else {
      NothingInFront(ss, rest);
    }
  }

  lemma {:induction false} NothingInFront(ss: seq<MarkerSegment>, rest: seq<Byte>)
    requires |ss| == 0
    ensures |EncodedAll(ss)| == 0 && EncodedAll(ss) + rest == rest
  {
  }

  lemma {:induction false} SizeBehind(p: seq<Byte>, at: nat, ss: seq<MarkerSegment>, end: nat)
    requires AllSkipped(ss) && Walk(p, at, ss, end)
    ensures SizeFrom(p, at) == SizeFrom(p, end)
    decreases |ss|
  {
    if |ss| > 0 {
      SizeSkips(p, at, ss[0]);
      SizeBehind(p, at + SizeOf(ss[0]), ss[1..], end);
    }
  }

  /** A payload that begins with these segments and one more. */
  predicate BeginsWith(p: seq<Byte>, ss: seq<MarkerSegment>, last: MarkerSegment) {
    AllOk(ss) && SegmentOk(last) && StartsWith(p, SOI_BYTES + EncodedAll(ss) + Encoded(last))
  }

  lemma {:induction false} Placed(p: seq<Byte>, ss: seq<MarkerSegment>, last: MarkerSegment)
    requires BeginsWith(p, ss, last)
    ensures Walk(p, 2, ss, 2 + |EncodedAll(ss)|) && Holds(p, 2 + |EncodedAll(ss)|, last)
    ensures StartsWith(p, SOI_BYTES)
  {
    BehindSoi(p, EncodedAll(ss), Encoded(last));
    WalkBehind(p, 2, ss, Encoded(last));
    HeldAlone(p, 2 + |EncodedAll(ss)|, last);
  }

  lemma {:induction false} HeldAlone(p: seq<Byte>, at: nat, s: MarkerSegment)
    requires SegmentOk(s) && at <= |p| && StartsWith(p[at..], Encoded(s))
    ensures Holds(p, at, s)
  {
    assert Encoded(s) + [] == Encoded(s);
    HeldInFront(p, at, s, []);
  }

  lemma {:induction false} BehindSoi(p: seq<Byte>, a: seq<Byte>, b: seq<Byte>)
    requires StartsWith(p, SOI_BYTES + a + b)
    ensures StartsWith(p, SOI_BYTES) && StartsWith(p[2..], a + b)
  {
    var all := SOI_BYTES + a + b;
    assert all[2..] == a + b && all[..2] == SOI_BYTES;
    assert p[2..][..|a + b|] == p[..|all|][2..];
    assert p[..2] == p[..|all|][..2];
  }

  lemma {:induction false} SizeAtFrame(p: seq<Byte>, at: nat, frame: MarkerSegment, width: nat, height: nat)
    requires FrameOf(frame, width, height) && Holds(p, at, frame)
    ensures SizeFrom(p, at) == Some(Size(width, height))
  {
    var m, d := at + frame.fill + 1, frame.data[1..5];
    FillEnds(p, at, m);
    var data := p[m + 3..m + 3 + |frame.data|];
    assert data[1] == p[m + 4] && data[2] == p[m + 5] && data[3] == p[m + 6] && data[4] == p[m + 7];
    assert d[0] == data[1] && d[1] == data[2] && d[2] == data[3] && d[3] == data[4];
  }

  lemma {:induction false} SizeBehindWalk(p: seq<Byte>, at: nat, ss: seq<MarkerSegment>, end: nat,
                                          frame: MarkerSegment, width: nat, height: nat)
    requires AllSkipped(ss) && Walk(p, at, ss, end) && Holds(p, end, frame) && FrameOf(frame, width, height)
    ensures SizeFrom(p, at) == Some(Size(width, height))
  {
    SizeBehind(p, at, ss, end);
    SizeAtFrame(p, end, frame, width, height);
  }

  /** Behind any list of other segments, `dimensions` reads back the size that the frame header encodes, whatever comes
      after it. */
  lemma {:induction false} DimensionsReadBack(p: seq<Byte>, ss: seq<MarkerSegment>, frame: MarkerSegment,
                                              width: nat, height: nat)
    requires BeginsWith(p, ss, frame) && AllSkipped(ss) && FrameOf(frame, width, height)
    ensures StartsWith(p, SOI_BYTES) && SizeFrom(p, 2) == Some(Size(width, height))
  {
    Placed(p, ss, frame);
    SizeBehindWalk(p, 2, ss, 2 + |EncodedAll(ss)|, frame, width, height);
  }

  /** A whole frame header of this size stands in the payload behind `from`. */
  ghost predicate FrameStandsBehind(p: seq<Byte>, from: nat, size: Size) {
    exists m: nat {:trigger FrameAt(p, m, size)} :: from < m && FrameAt(p, m, size)
  }

  predicate FrameAt(p: seq<Byte>, m: nat, size: Size) {
    && 0 < m < |p| - 7 && p[m - 1] == 0xff && OpensFrame(p[m])
    && 7 <= 256 * p[m + 1] as int + p[m + 2] as int < |p| - m
    && size.width == 256 * p[m + 6] as int + p[m + 7] as int
    && size.height == 256 * p[m + 4] as int + p[m + 5] as int
  }

  /** A size is never made up: a frame header that fits the payload says so, behind the start of the search. */
  lemma {:induction false} DimensionsAreFound(p: seq<Byte>, from: nat)
    requires SizeFrom(p, from).Some?
    ensures FrameStandsBehind(p, from, SizeFrom(p, from).value)
    decreases |p| - from
  {
    if p[from] != 0xff {
      DimensionsAreFound(p, from + 1);
    } else {
      var m := SkipFill(p, from);
      FillIsSkipped(p, from);
      if AtMarker(p, m).Continue? {
        DimensionsAreFound(p, AtMarker(p, m).cursor);
      } else {
        assert FrameAt(p, m, SizeFrom(p, from).value);
      }
    }
  }

  lemma {:induction false} FillIsSkipped(p: seq<Byte>, from: nat)
    requires from < |p| && p[from] == 0xff
    ensures from < SkipFill(p, from) && p[SkipFill(p, from) - 1] == 0xff
    decreases |p| - from
  {
    if from + 1 < |p| && p[from + 1] == 0xff {
      FillIsSkipped(p, from + 1);
    }
  }

  lemma {:induction false} NoSizeAtScan(p: seq<Byte>, at: nat, scan: MarkerSegment)
    requires SegmentOk(scan) && scan.code == 0xda && Holds(p, at, scan)
    ensures SizeFrom(p, at) == None
  {
    FillEnds(p, at, at + scan.fill + 1);
  }

  lemma {:induction false} NoSizeBehindWalk(p: seq<Byte>, at: nat, ss: seq<MarkerSegment>, end: nat,
                                            scan: MarkerSegment)
    requires AllSkipped(ss) && Walk(p, at, ss, end) && Holds(p, end, scan) && SegmentOk(scan) && scan.code == 0xda
    ensures SizeFrom(p, at) == None
  {
    SizeBehind(p, at, ss, end);
    NoSizeAtScan(p, end, scan);
  }

  /** A start of scan in front of the frame header ends the search. */
  lemma {:induction false} ScanEndsTheSearch(p: seq<Byte>, ss: seq<MarkerSegment>, scan: MarkerSegment)
    requires BeginsWith(p, ss, scan) && AllSkipped(ss) && scan.code == 0xda
    ensures SizeFrom(p, 2) == None
  {
    Placed(p, ss, scan);
    NoSizeBehindWalk(p, 2, ss, 2 + |EncodedAll(ss)|, scan);
  }

  /** An AVI1 segment in the vendor's layout, with this counter. */
  predicate CounterOf(s: MarkerSegment, counter: nat) {
    && s.fill == 0 && HoldsAvi1(s.code, s.data)
    && counter < 0x100_0000
    && s.data[10..13] == [counter / 0x1_0000, counter / 0x100 % 0x100, counter % 0x100]
  }

  predicate HoldsAvi1(code: Byte, data: seq<Byte>) {
    code == 0xe0 && |data| == 31 && data[..4] == [0x41, 0x56, 0x49, 0x31] && data[4..8] == [0, 1, 1, 1]
  }

  lemma {:induction false} Avi1Prefix(code: Byte, data: seq<Byte>)
    ensures IsAvi1(code, data) <==> HoldsAvi1(code, data)
  {
    if |data| == 31 {
      assert data[..8] == data[..4] + data[4..8];
      assert AVI1 == [0x41, 0x56, 0x49, 0x31] + [0, 1, 1, 1];
      assert data[..4] == data[..8][..4] && data[4..8] == data[..8][4..];
    }
  }

  /** A segment `avi1_counter` walks over: it takes no fill bytes. */
  predicate Passed(s: MarkerSegment) {
    SegmentOk(s) && s.fill == 0 && s.code != 0xd9 && s.code != 0xda && !HoldsAvi1(s.code, s.data)
  }

  lemma {:induction false} CounterSkips(p: seq<Byte>, at: nat, s: MarkerSegment)
    requires SegmentOk(s) && s.fill == 0 && s.code != 0xd9 && s.code != 0xda && Holds(p, at, s)
    ensures CounterFrom(p, at)
         == if HoldsAvi1(s.code, s.data) then Some(Be24(s.data, 10)) else CounterFrom(p, at + SizeOf(s))
  {
    assert p[at] == 0xff;
    Avi1Prefix(s.code, s.data);
  }

  lemma {:induction false} CounterBehind(p: seq<Byte>, at: nat, ss: seq<MarkerSegment>, end: nat)
    requires AllPassed(ss) && Walk(p, at, ss, end)
    ensures CounterFrom(p, at) == CounterFrom(p, end)
    decreases |ss|
  {
    if |ss| > 0 {
      CounterSkips(p, at, ss[0]);
      CounterBehind(p, at + SizeOf(ss[0]), ss[1..], end);
    }
  }

  lemma {:induction false} CounterAtAvi1(p: seq<Byte>, at: nat, avi: MarkerSegment, counter: nat)
    requires CounterOf(avi, counter) && Holds(p, at, avi)
    ensures CounterFrom(p, at) == Some(counter)
  {
    CounterSkips(p, at, avi);
    var d := avi.data[10..13];
    assert d[0] == avi.data[10] && d[1] == avi.data[11] && d[2] == avi.data[12];
  }

  /** Behind any list of other segments, `avi1_counter` reads back the 24-bit counter of the first AVI1 segment. */
  lemma {:induction false} CounterReadsBack(p: seq<Byte>, ss: seq<MarkerSegment>, avi: MarkerSegment, counter: nat)
    requires BeginsWith(p, ss, avi) && AllPassed(ss) && CounterOf(avi, counter)
    ensures StartsWith(p, SOI_BYTES) && CounterFrom(p, 2) == Some(counter)
  {
    Placed(p, ss, avi);
    CounterBehind(p, 2, ss, 2 + |EncodedAll(ss)|);
    CounterAtAvi1(p, 2 + |EncodedAll(ss)|, avi, counter);
  }

  /** A scan, an end of image or anything but a marker in front of the AVI1 segment ends the search. */
  lemma {:induction false} NoCounterBehind(p: seq<Byte>, ss: seq<MarkerSegment>, from: nat)
    requires AllPassed(ss) && Walk(p, 2, ss, from) && from + 1 < |p|
    requires p[from] != 0xff || p[from + 1] == 0xda || p[from + 1] == 0xd9
    ensures CounterFrom(p, 2) == None
  {
    CounterBehind(p, 2, ss, from);
  }
}
