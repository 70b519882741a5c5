/** Segment boundaries of a take: `RecordingSegmentPlanner` of `native/src/recording.rs`. Times are exact reals. */
module SegmentPlanner {
  import opened Prelude
  import opened Arithmetic

  datatype Planner = Planner(segmentFrames: nat, framesWritten: nat, segmentCount: nat, coveredFrames: nat,
                             boundaryRecord: map<nat, nat>, boundaryElapsed: map<nat, real>)

  datatype Plan = Plan(ordinal: nat, segmentIndex: nat, segmentFrame: nat, framesWritten: nat, boundaryRecorded: bool)

  datatype Boundary = Boundary(frame: nat, time: real)

  function NewPlanner(segmentFrames: nat): Planner {
    Planner(segmentFrames, 0, 0, 0, map[], map[])
  }

  /** `entry(key).or_insert(value)`. */
  function OrInsert<V>(m: map<nat, V>, key: nat, value: V): map<nat, V> {
    if key in m then m else m[key := value]
  }

  function Marked(p: Planner, record: nat, elapsed: real): Planner {
    p.(boundaryRecord := OrInsert(p.boundaryRecord, p.framesWritten, record),
       boundaryElapsed := OrInsert(p.boundaryElapsed, p.framesWritten, elapsed))
  }

  /** `next_frame`. */
  function NextFrame(p: Planner, record: nat, elapsed: real): (Result<Plan>, Planner)
    requires p.segmentFrames > 0
  {
    if elapsed < 0.0 then (Err(SegmentInvalid), p)
    else
      var n := p.framesWritten;
      var opens := n % p.segmentFrames == 0;
      var marked := if opens then Marked(p, record, elapsed) else p;
      if n + 1 > U64_MAX then (Err(CounterOverflow), marked)
      else (Ok(Plan(n, n / p.segmentFrames, n % p.segmentFrames, n + 1, opens && n !in p.boundaryRecord)),
            marked.(framesWritten := n + 1))
  }

  /** `register_segment`. */
  function Registered(p: Planner, index: nat, start: nat, end: nat): (Result<()>, Planner) {
    if end <= start || index != p.segmentCount || start != p.coveredFrames then (Err(SegmentInvalid), p)
    else if p.segmentCount + 1 > U64_MAX then (Err(CounterOverflow), p.(coveredFrames := end))
    else (Ok(()), p.(coveredFrames := end, segmentCount := p.segmentCount + 1))
  }

  /** `finish`: the end boundary is inserted before coverage is checked. */
  function Finished(p: Planner, submitted: nat, frameDomain: nat, duration: real): (Result<()>, Planner) {
    if duration < 0.0 || submitted != p.framesWritten then (Err(SegmentInvalid), p)
    else
      var marked := Marked(p, frameDomain, duration);
      if p.coveredFrames != p.framesWritten then (Err(SegmentInvalid), marked) else (Ok(()), marked)
  }

  /** `boundary`. */
  function BoundaryAt(p: Planner, ordinal: nat, duration: real): Result<Boundary> {
    if duration < 0.0 || ordinal !in p.boundaryRecord || ordinal !in p.boundaryElapsed then Err(SegmentInvalid)
    else
      var elapsed := p.boundaryElapsed[ordinal];
      Ok(Boundary(p.boundaryRecord[ordinal], if elapsed <= duration then elapsed else duration))
  }

  // Boundaries

  /** The ordinals below n that open a segment. */
  function SegmentStarts(segmentFrames: nat, n: nat): set<nat>
    requires segmentFrames > 0
  {
    set k | 0 <= k < n && k % segmentFrames == 0
  }

  lemma {:induction false} SegmentStartsStep(segmentFrames: nat, n: nat)
    requires segmentFrames > 0
    ensures SegmentStarts(segmentFrames, n + 1)
         == SegmentStarts(segmentFrames, n) + (if n % segmentFrames == 0 then {n} else {})
  {
  }

  lemma {:induction false} SegmentStartsCount(segmentFrames: nat, n: nat)
    requires segmentFrames > 0
    ensures |SegmentStarts(segmentFrames, n)| == CeilDiv(n, segmentFrames)
  {
    if n == 0 {
      DivModUnique(0, segmentFrames, 0, 0);
    } else {
      SegmentStartsCount(segmentFrames, n - 1);
      SegmentStartsStep(segmentFrames, n - 1);
      CeilDivStep(n - 1, segmentFrames);
    }
  }

  /** As long as the take is not finished there is one boundary per opened segment. */
  ghost predicate Regular(p: Planner) {
    && p.segmentFrames > 0
    && p.boundaryRecord.Keys == SegmentStarts(p.segmentFrames, p.framesWritten)
    && p.boundaryElapsed.Keys == p.boundaryRecord.Keys
  }

  /** The frame path passes every frame its own ordinal and times that never go back; `latest` is the last of them. */
  ghost predicate PathOk(p: Planner, latest: real) {
    && Regular(p)
    && (forall k :: k in p.boundaryRecord ==> p.boundaryRecord[k] == k)
    && (forall k :: k in p.boundaryElapsed ==> 0.0 <= p.boundaryElapsed[k] <= latest)
    && (forall j, k :: j in p.boundaryElapsed && k in p.boundaryElapsed && j <= k ==>
          p.boundaryElapsed[j] <= p.boundaryElapsed[k])
  }

  lemma {:induction false} NextFrameKeepsRegular(p: Planner, record: nat, elapsed: real)
    requires Regular(p) && NextFrame(p, record, elapsed).0.Ok?
    ensures Regular(NextFrame(p, record, elapsed).1)
  {
    SegmentStartsStep(p.segmentFrames, p.framesWritten);
  }

  lemma {:induction false} NextFrameKeepsPath(p: Planner, latest: real, elapsed: real)
    requires PathOk(p, latest) && 0.0 <= latest <= elapsed && p.framesWritten < U64_MAX
    ensures NextFrame(p, p.framesWritten, elapsed).0.Ok?
    ensures PathOk(NextFrame(p, p.framesWritten, elapsed).1, elapsed)
  {
    NextFrameKeepsRegular(p, p.framesWritten, elapsed);
  }

  /** The boundaries of a finished planner, still as its two maps. */
  lemma {:induction false} FinishedMaps(p: Planner, latest: real, submitted: nat, frameDomain: nat, duration: real)
    requires PathOk(p, latest) && frameDomain == p.framesWritten
    requires Finished(p, submitted, frameDomain, duration).0.Ok?
    ensures p.coveredFrames == p.framesWritten == submitted && duration >= 0.0
    ensures var q := Finished(p, submitted, frameDomain, duration).1;
            && q.boundaryRecord == p.boundaryRecord[submitted := submitted]
            && q.boundaryElapsed == p.boundaryElapsed[submitted := duration]
            && submitted !in p.boundaryRecord && submitted !in p.boundaryElapsed
  {
    assert submitted !in SegmentStarts(p.segmentFrames, submitted);
  }

  lemma {:induction false} FinishedKeys(p: Planner, latest: real, submitted: nat, frameDomain: nat, duration: real)
    requires PathOk(p, latest) && frameDomain == p.framesWritten
    requires Finished(p, submitted, frameDomain, duration).0.Ok?
    ensures var q := Finished(p, submitted, frameDomain, duration).1;
            && q.boundaryRecord.Keys == SegmentStarts(p.segmentFrames, submitted) + {submitted}
            && |q.boundaryRecord.Keys| == CeilDiv(submitted, p.segmentFrames) + 1
  {
    FinishedMaps(p, latest, submitted, frameDomain, duration);
    SegmentStartsCount(p.segmentFrames, submitted);
  }

  /** One boundary: its own ordinal, and its time, which the duration bounds and is at the end. */
  lemma {:induction false} FinishedBoundary(p: Planner, latest: real, submitted: nat, frameDomain: nat, duration: real,
                                            k: nat)
    requires PathOk(p, latest) && frameDomain == p.framesWritten
    requires Finished(p, submitted, frameDomain, duration).0.Ok?
    requires k in Finished(p, submitted, frameDomain, duration).1.boundaryRecord
    ensures var q := Finished(p, submitted, frameDomain, duration).1;
            && k <= submitted
            && (k < submitted ==> k in p.boundaryElapsed)
            && var time := if k == submitted || p.boundaryElapsed[k] > duration then duration else p.boundaryElapsed[k];
               BoundaryAt(q, k, duration) == Ok(Boundary(k, time))
  {
    FinishedMaps(p, latest, submitted, frameDomain, duration);
  }

  /** A successful `finish` of a take whose frames came through the frame path: the registered segments cover exactly
      the frames submitted; there are ceil(n/S)+1 boundaries, at every multiple of S below n and at n itself, each
      mapped to its own ordinal; their times never go back and the last one is the duration. */
  lemma {:induction false} FinishedBoundaries(p: Planner, latest: real, submitted: nat, frameDomain: nat,
                                              duration: real)
    requires PathOk(p, latest) && frameDomain == p.framesWritten
    requires Finished(p, submitted, frameDomain, duration).0.Ok?
    ensures p.coveredFrames == p.framesWritten == submitted
    ensures var q := Finished(p, submitted, frameDomain, duration).1;
            && q.boundaryRecord.Keys == SegmentStarts(p.segmentFrames, submitted) + {submitted}
            && |q.boundaryRecord.Keys| == CeilDiv(submitted, p.segmentFrames) + 1
            && (forall k :: k in q.boundaryRecord ==>
                  BoundaryAt(q, k, duration).Ok? && BoundaryAt(q, k, duration).value.frame == k)
            && (forall j, k :: j in q.boundaryRecord && k in q.boundaryRecord && j <= k ==>
                  BoundaryAt(q, j, duration).value.time <= BoundaryAt(q, k, duration).value.time)
            && BoundaryAt(q, submitted, duration).value.time == duration
  {
    FinishedMaps(p, latest, submitted, frameDomain, duration);
    FinishedKeys(p, latest, submitted, frameDomain, duration);
    var q := Finished(p, submitted, frameDomain, duration).1;
    forall k | k in q.boundaryRecord
      ensures BoundaryAt(q, k, duration).Ok? && BoundaryAt(q, k, duration).value.frame == k
    {
      FinishedBoundary(p, latest, submitted, frameDomain, duration, k);
    }
    forall j, k | j in q.boundaryRecord && k in q.boundaryRecord && j <= k
      ensures BoundaryAt(q, j, duration).value.time <= BoundaryAt(q, k, duration).value.time
    {
      FinishedBoundary(p, latest, submitted, frameDomain, duration, j);
      FinishedBoundary(p, latest, submitted, frameDomain, duration, k);
    }
    FinishedBoundary(p, latest, submitted, frameDomain, duration, submitted);
  }

  // Tiling

  datatype Segment = Segment(start: nat, end: nat)

  /** The segments lie end to end from 0 to n. */
  predicate Tiles(segments: seq<Segment>, n: nat)
    decreases segments
  {
    if segments == [] then n == 0
    else
      var last := segments[|segments| - 1];
      last.start < last.end == n && Tiles(segments[..|segments| - 1], last.start)
  }

  lemma {:induction false} TilesSnoc(segments: seq<Segment>, s: Segment)
    requires Tiles(segments, s.start) && s.start < s.end
    ensures Tiles(segments + [s], s.end)
  {
    assert (segments + [s])[..|segments|] == segments;
  }

  /** Every segment covers at least one frame. */
  lemma {:induction false} TilesAreFew(segments: seq<Segment>, n: nat)
    requires Tiles(segments, n)
    ensures |segments| <= n
    decreases segments
  {
    if segments != [] {
      TilesAreFew(segments[..|segments| - 1], segments[|segments| - 1].start);
    }
  }

  /** Every ordinal below n lies in exactly one segment. */
  lemma {:induction false} TilesPlaceEveryFrame(segments: seq<Segment>, n: nat, k: nat) returns (i: nat)
    requires Tiles(segments, n) && k < n
    ensures i < |segments| && segments[i].start <= k < segments[i].end
    ensures forall j :: 0 <= j < |segments| && segments[j].start <= k < segments[j].end ==> j == i
    decreases segments
  {
    var init, last := segments[..|segments| - 1], segments[|segments| - 1];
    if k < last.start {
      i := TilesPlaceEveryFrame(init, last.start, k);
      assert forall j :: 0 <= j < |init| ==> segments[j] == init[j];
    } else {
      i := |segments| - 1;
      TilesEndBy(init, last.start);
      assert forall j :: 0 <= j < |init| ==> segments[j] == init[j];
    }
  }

  lemma {:induction false} TilesEndBy(segments: seq<Segment>, n: nat)
    requires Tiles(segments, n)
    ensures forall j :: 0 <= j < |segments| ==> segments[j].end <= n
    decreases segments
  {
    if segments != [] {
      var init, last := segments[..|segments| - 1], segments[|segments| - 1];
      TilesEndBy(init, last.start);
      assert forall j :: 0 <= j < |init| ==> segments[j] == init[j];
    }
  }

  class RecordingSegmentPlanner {
    const segmentFrames: nat
    var framesWritten: nat
    var segmentCount: nat
    var coveredFrames: nat
    var boundaryRecord: map<nat, nat>
    var boundaryElapsed: map<nat, real>
    /** The segments registered so far; whether an end boundary was placed; whether a counter overflowed, which
        leaves the planner half updated. */
    ghost var segments: seq<Segment>
    ghost var ended: bool
    ghost var overflowed: bool

    ghost function View(): Planner
      reads this
    {
      Planner(segmentFrames, framesWritten, segmentCount, coveredFrames, boundaryRecord, boundaryElapsed)
    }

    ghost predicate Valid()
      reads this
    {
      && segmentFrames > 0
      && (!ended ==> Regular(View()))
      && (!overflowed ==> |segments| == segmentCount && Tiles(segments, coveredFrames))
    }

    constructor (segmentFrames: nat)
      requires segmentFrames > 0
      ensures Valid() && View() == NewPlanner(segmentFrames) && segments == [] && !ended && !overflowed
    {
      this.segmentFrames := segmentFrames;
      framesWritten, segmentCount, coveredFrames := 0, 0, 0;
      boundaryRecord, boundaryElapsed := map[], map[];
      segments, ended, overflowed := [], false, false;
    }

    /** `next_frame`: frame n lies at n % S of segment n / S. */
    method PlanFrame(record: nat, elapsed: real) returns (r: Result<Plan>)
      requires Valid()
      modifies this
      ensures Valid() && segments == old(segments)
      ensures r != Err(CounterOverflow) ==> ended == old(ended) && overflowed == old(overflowed)
      ensures (r, View()) == NextFrame(old(View()), record, elapsed)
      ensures r.Ok? ==> r.value.segmentIndex * segmentFrames + r.value.segmentFrame == r.value.ordinal
      ensures r.Ok? ==> r.value.ordinal == old(framesWritten) && r.value.segmentFrame < segmentFrames
      ensures r.Ok? <==> elapsed >= 0.0 && old(framesWritten) < U64_MAX
      ensures r.Ok? ==> framesWritten == r.value.framesWritten == old(framesWritten) + 1
      ensures segmentCount == old(segmentCount) && coveredFrames == old(coveredFrames)
      ensures var n := old(framesWritten);
              if elapsed >= 0.0 && n % segmentFrames == 0 && n !in old(boundaryRecord) then
                boundaryRecord == old(boundaryRecord)[n := record] && (r.Ok? ==> r.value.boundaryRecorded)
              else boundaryRecord == old(boundaryRecord) && (r.Ok? ==> !r.value.boundaryRecorded)
    {
      if elapsed < 0.0 {
        return Err(SegmentInvalid);
      }
      if !ended && framesWritten < U64_MAX {
        NextFrameKeepsRegular(View(), record, elapsed);
      }
      var ordinal := framesWritten;
      var recorded := false;
      if ordinal % segmentFrames == 0 {
        recorded := ordinal !in boundaryRecord;
        boundaryRecord := OrInsert(boundaryRecord, ordinal, record);
        boundaryElapsed := OrInsert(boundaryElapsed, ordinal, elapsed);
      }
      var index, frame := ordinal / segmentFrames, ordinal % segmentFrames;
      if framesWritten + 1 > U64_MAX {
        ended, overflowed := true, true;
        return Err(CounterOverflow);
      }
      framesWritten := framesWritten + 1;
      return Ok(Plan(ordinal, index, frame, framesWritten, recorded));
    }

    /** `register_segment`: an accepted segment continues the tiling. */
    method RegisterSegment(index: nat, start: nat, end: nat) returns (r: Result<()>)
      requires Valid()
      modifies this
      ensures Valid() && ended == old(ended)
      ensures r != Err(CounterOverflow) ==> overflowed == old(overflowed)
      ensures (r, View()) == Registered(old(View()), index, start, end)
      ensures segments == old(segments) + (if r.Ok? then [Segment(start, end)] else [])
      ensures r.Ok? <==> start < end && index == old(segmentCount) && start == old(coveredFrames)
                         && old(segmentCount) < U64_MAX
      ensures r.Ok? ==> coveredFrames == end && segmentCount == old(segmentCount) + 1
      ensures framesWritten == old(framesWritten) && (r == Err(SegmentInvalid) ==> View() == old(View()))
    {
      if end <= start {
        return Err(SegmentInvalid);
      }
      if index != segmentCount {
        return Err(SegmentInvalid);
      }
      if start != coveredFrames {
        return Err(SegmentInvalid);
      }
      if !overflowed {
        TilesSnoc(segments, Segment(start, end));
      }
      coveredFrames := end;
      if segmentCount + 1 > U64_MAX {
        overflowed := true;
        return Err(CounterOverflow);
      }
      segmentCount := segmentCount + 1;
      segments := segments + [Segment(start, end)];
      return Ok(());
    }

    /** `finish`: success means that the registered segments tile exactly the frames submitted. */
    method Finish(submitted: nat, frameDomain: nat, duration: real) returns (r: Result<()>)
      requires Valid()
      modifies this
      ensures Valid() && segments == old(segments) && overflowed == old(overflowed)
      ensures (r, View()) == Finished(old(View()), submitted, frameDomain, duration)
      ensures r.Ok? <==> duration >= 0.0 && submitted == framesWritten && coveredFrames == framesWritten
      ensures framesWritten == old(framesWritten) && coveredFrames == old(coveredFrames)
              && segmentCount == old(segmentCount)
      ensures r.Ok? && !overflowed ==>
                Tiles(segments, submitted) && submitted == framesWritten && |segments| == segmentCount
    {
      if duration < 0.0 {
        return Err(SegmentInvalid);
      }
      if submitted != framesWritten {
        return Err(SegmentInvalid);
      }
      boundaryRecord := OrInsert(boundaryRecord, framesWritten, frameDomain);
      boundaryElapsed := OrInsert(boundaryElapsed, framesWritten, duration);
      ended := true;
      if coveredFrames != framesWritten {
        return Err(SegmentInvalid);
      }
      return Ok(());
    }
  }
}
