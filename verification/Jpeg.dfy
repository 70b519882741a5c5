/** JPEG marker scanners: `native/src/jpeg.rs` and `jpeg_payload` of `native/src/recording.rs`.
    Marker codes are those of section B.1.1.3 of ITU-T T.81. */
module Jpeg {
  import opened Prelude

  const SOI: Byte := 0xd8
  const EOI: Byte := 0xd9

  predicate MarkerAt(p: seq<Byte>, k: int, code: Byte) {
    0 <= k && k + 1 < |p| && p[k] == 0xff && p[k + 1] == code
  }

  /** `payload[from..].windows(2).position(..)`, as an absolute offset. */
  function FirstMarker(p: seq<Byte>, from: nat, code: Byte): (r: Option<nat>)
    ensures r.Some? ==> from <= r.value && MarkerAt(p, r.value, code)
    ensures r.Some? ==> forall k :: from <= k < r.value ==> !MarkerAt(p, k, code)
    ensures r.None? ==> forall k :: from <= k ==> !MarkerAt(p, k, code)
    decreases |p| - from
  {
    if from + 1 >= |p| then None
    else if MarkerAt(p, from, code) then Some(from)
    else FirstMarker(p, from + 1, code)
  }

  /** `payload.windows(2).rposition(..)` restricted to offsets below `limit`. */
  function LastMarker(p: seq<Byte>, limit: nat, code: Byte): (r: Option<nat>)
    ensures r.Some? ==> r.value < limit && MarkerAt(p, r.value, code)
    ensures r.Some? ==> forall k :: r.value < k < limit ==> !MarkerAt(p, k, code)
    ensures r.None? ==> forall k :: k < limit ==> !MarkerAt(p, k, code)
  {
    if limit == 0 then None
    else if MarkerAt(p, limit - 1, code) then Some(limit - 1)
    else LastMarker(p, limit - 1, code)
  }

  datatype Span = Span(start: nat, end: nat)

  ghost predicate NoMarkerIn(p: seq<Byte>, from: int, to: int, code: Byte) {
    forall k :: from <= k < to ==> !MarkerAt(p, k, code)
  }

  /** One image: it opens with SOI and closes with the first EOI behind the opening marker. */
  ghost predicate IsImage(p: seq<Byte>, s: Span) {
    && s.start + 4 <= s.end <= |p|
    && MarkerAt(p, s.start, SOI)
    && MarkerAt(p, s.end - 2, EOI)
    && NoMarkerIn(p, s.start + 2, s.end - 2, EOI)
  }

  /** s is the first image that opens at or behind `from`. */
  ghost predicate NextImage(p: seq<Byte>, from: nat, s: Span) {
    from <= s.start && IsImage(p, s) && NoMarkerIn(p, from, s.start, SOI)
  }

  function EndBefore(rs: seq<Span>, i: nat): nat
    requires i <= |rs|
  {
    if i == 0 then 0 else rs[i - 1].end
  }

  /** rs lists, in order, the images found so far: each is the next one behind the end of the one before it. */
  ghost predicate Scanned(p: seq<Byte>, rs: seq<Span>) {
    forall i {:trigger EndBefore(rs, i)} :: 0 <= i < |rs| ==> NextImage(p, EndBefore(rs, i), rs[i])
  }

  /** Nothing at or behind `from` opens an image that is also closed. */
  ghost predicate NoImageFrom(p: seq<Byte>, from: nat) {
    forall i, j :: from <= i && i + 2 <= j && MarkerAt(p, i, SOI) ==> !MarkerAt(p, j, EOI)
  }

  ghost predicate IsScan(p: seq<Byte>, rs: seq<Span>) {
    Scanned(p, rs) && NoImageFrom(p, EndBefore(rs, |rs|))
  }

  lemma {:induction false} ScannedSnoc(p: seq<Byte>, rs: seq<Span>, s: Span)
    requires Scanned(p, rs) && NextImage(p, EndBefore(rs, |rs|), s)
    ensures Scanned(p, rs + [s])
  {
    var t := rs + [s];
    forall i | 0 <= i < |t| ensures NextImage(p, EndBefore(t, i), t[i]) {
      assert EndBefore(t, i) == EndBefore(rs, i);
    }
  }

  /** `ranges`: the cursor loop. */
  method Ranges(p: seq<Byte>) returns (result: seq<Span>)
    ensures IsScan(p, result)
  {
    result := [];
    var cursor: nat := 0;
    while cursor + 1 < |p|
      invariant cursor == EndBefore(result, |result|)
      invariant Scanned(p, result)
      decreases |p| - cursor
    {
      var start := FirstMarker(p, cursor, SOI);
      if start.None? {
        return;
      }
      var close := FirstMarker(p, start.value + 2, EOI);
      if close.None? {
        return;
      }
      var span := Span(start.value, close.value + 2);
      ScannedSnoc(p, result, span);
      result := result + [span];
      cursor := span.end;
    }
  }

  /** The scan is determined by the payload: two lists that both meet IsScan are the same list. */
  lemma {:induction false} ScanIsUnique(p: seq<Byte>, a: seq<Span>, b: seq<Span>)
    requires IsScan(p, a) && IsScan(p, b)
    ensures a == b
  {
    ScansShare(p, a, b, Min(|a|, |b|));
    ScanCannotStop(p, a, b);
    ScanCannotStop(p, b, a);
    assert a == a[..|a|] && b == b[..|a|];
  }

  lemma {:induction false} NextImageIsUnique(p: seq<Byte>, from: nat, x: Span, y: Span)
    requires NextImage(p, from, x) && NextImage(p, from, y)
    ensures x == y
  {
    assert MarkerAt(p, x.start, SOI) && MarkerAt(p, y.start, SOI);
    assert x.start == y.start;
    assert MarkerAt(p, x.end - 2, EOI) && MarkerAt(p, y.end - 2, EOI);
  }

  lemma {:induction false} ScansShare(p: seq<Byte>, a: seq<Span>, b: seq<Span>, n: nat)
    requires Scanned(p, a) && Scanned(p, b) && n <= |a| && n <= |b|
    ensures a[..n] == b[..n]
  {
    if n > 0 {
      ScansShare(p, a, b, n - 1);
      assert n > 1 ==> a[n - 2] == a[..n - 1][n - 2] && b[n - 2] == b[..n - 1][n - 2];
      assert EndBefore(a, n - 1) == EndBefore(b, n - 1);
      NextImageIsUnique(p, EndBefore(a, n - 1), a[n - 1], b[n - 1]);
      assert a[..n] == a[..n - 1] + [a[n - 1]] && b[..n] == b[..n - 1] + [b[n - 1]];
    }
  }

  lemma {:induction false} NextImageIsAnImage(p: seq<Byte>, from: nat, s: Span)
    requires NextImage(p, from, s)
    ensures !NoImageFrom(p, from)
  {
    assert MarkerAt(p, s.start, SOI) && MarkerAt(p, s.end - 2, EOI);
  }

  lemma {:induction false} ScanCannotStop(p: seq<Byte>, a: seq<Span>, b: seq<Span>)
    requires IsScan(p, a) && Scanned(p, b)
    requires a[..Min(|a|, |b|)] == b[..Min(|a|, |b|)]
    ensures |b| <= |a|
  {
    if |a| < |b| {
      assert a == a[..|a|] == b[..|a|];
      assert |a| > 0 ==> a[|a| - 1] == b[|a| - 1];
      assert EndBefore(b, |a|) == EndBefore(a, |a|);
      NextImageIsAnImage(p, EndBefore(b, |a|), b[|a|]);
    }
  }

  lemma {:induction false} EndsIncrease(p: seq<Byte>, rs: seq<Span>, i: nat, j: nat)
    requires Scanned(p, rs) && i < j <= |rs|
    ensures rs[i].end <= EndBefore(rs, j)
  {
    if i < j - 1 {
      EndsIncrease(p, rs, i, j - 1);
      assert NextImage(p, EndBefore(rs, j - 1), rs[j - 1]);
    }
  }

  ghost predicate OpensInside(i: int, rs: seq<Span>) {
    exists k :: 0 <= k < |rs| && rs[k].start <= i && i + 2 <= rs[k].end
  }

  /** Two images of the payload, the first in front of the second. */
  predicate InOrder(p: seq<Byte>, a: Span, b: Span) {
    a.start < a.end <= b.start < b.end <= |p|
  }

  lemma {:induction false} SpansInOrder(p: seq<Byte>, rs: seq<Span>, i: nat, j: nat)
    requires Scanned(p, rs) && i < j < |rs|
    ensures InOrder(p, rs[i], rs[j])
  {
    EndsIncrease(p, rs, i, j);
    assert NextImage(p, EndBefore(rs, i), rs[i]) && NextImage(p, EndBefore(rs, j), rs[j]);
  }

  /** Spans are in order and disjoint, and every complete SOI..EOI pair of the payload opens inside one of them. */
  lemma {:induction false} ScanCoversEveryPair(p: seq<Byte>, rs: seq<Span>)
    requires IsScan(p, rs)
    ensures forall i, j :: 0 <= i < j < |rs| ==> InOrder(p, rs[i], rs[j])
    ensures forall i, j :: MarkerAt(p, i, SOI) && MarkerAt(p, j, EOI) && i + 2 <= j ==> OpensInside(i, rs)
  {
    forall i, j | 0 <= i < j < |rs| ensures InOrder(p, rs[i], rs[j]) {
      SpansInOrder(p, rs, i, j);
    }
    forall i, j | MarkerAt(p, i, SOI) && MarkerAt(p, j, EOI) && i + 2 <= j ensures OpensInside(i, rs) {
      PairOpensInside(p, rs, i, j, |rs|);
    }
  }

  /** By descent over the spans: a complete pair opens behind the end of the n-th span, or inside one of the first n. */
  lemma {:induction false} PairOpensInside(p: seq<Byte>, rs: seq<Span>, i: int, j: int, n: nat)
    requires IsScan(p, rs) && n <= |rs|
    requires MarkerAt(p, i, SOI) && MarkerAt(p, j, EOI) && i + 2 <= j
    requires n < |rs| ==> i < rs[n].start
    ensures OpensInside(i, rs)
  {
    if EndBefore(rs, n) <= i {
      // Impossible: n == |rs| contradicts NoImageFrom, and n < |rs| puts an SOI in front of the next image.
    } else {
      var s := rs[n - 1];
      assert NextImage(p, EndBefore(rs, n - 1), s);
      if i < s.start {
        PairOpensInside(p, rs, i, j, n - 1);
      } else {
        assert MarkerAt(p, s.end - 2, EOI);
      }
    }
  }

  /** s runs from the first SOI to the end of the last EOI. */
  ghost predicate IsPayload(p: seq<Byte>, s: Span) {
    && s.start + 2 <= s.end <= |p|
    && MarkerAt(p, s.start, SOI) && NoMarkerIn(p, 0, s.start, SOI)
    && MarkerAt(p, s.end - 2, EOI) && NoMarkerIn(p, s.end - 1, |p|, EOI)
  }

  /** The bytes of the payload. */
  ghost predicate PayloadOf(p: seq<Byte>, payload: seq<Byte>) {
    exists s: Span {:trigger IsPayload(p, s)} :: IsPayload(p, s) && payload == p[s.start..s.end]
  }

  /** `jpeg_payload`: from the first SOI to the end of the last EOI, if that one is not in front of it. */
  function JpegPayload(p: seq<Byte>): (r: Result<Span>)
    ensures r.Ok? ==> IsPayload(p, r.value)
  {
    match FirstMarker(p, 0, SOI)
    case None => Err(BadFrame)
    case Some(start) =>
      match LastMarker(p, |p|, EOI)
      case None => Err(BadFrame)
      case Some(end) => if end >= start then Ok(Span(start, end + 2)) else Err(BadFrame)
  }

  lemma {:induction false} MarkerInBytes(p: seq<Byte>, k: nat, code: Byte)
    ensures MarkerAt(p, k, code) <==> k + 2 <= |p| && p[k..k + 2] == [0xff, code]
  {
    if k + 2 <= |p| {
      assert p[k..k + 2] == [p[k], p[k + 1]];
    }
  }

  lemma {:induction false} NoMarkerInBytes(p: seq<Byte>, from: nat, to: nat, code: Byte)
    requires to <= |p|
    ensures NoMarkerIn(p, from, to, code)
       <==> forall k {:trigger p[k]} :: from <= k < to && k + 1 < |p| && p[k] == 0xff ==> p[k + 1] != code
  {
    if NoMarkerIn(p, from, to, code) {
      forall k {:trigger p[k]} | from <= k < to && k + 1 < |p| && p[k] == 0xff ensures p[k + 1] != code {
        assert !MarkerAt(p, k, code);
      }
    }
  }

  /** The payload in bytes: it opens with the first FF D8 and closes with the last FF D9. */
  lemma {:induction false} PayloadInBytes(p: seq<Byte>, s: Span)
    ensures IsPayload(p, s) <==>
              && s.start + 2 <= s.end <= |p|
              && p[s.start..s.start + 2] == [0xff, 0xd8] && p[s.end - 2..s.end] == [0xff, 0xd9]
              && (forall k {:trigger p[k]} :: 0 <= k < s.start && p[k] == 0xff ==> p[k + 1] != 0xd8)
              && (forall k {:trigger p[k]} :: s.end <= k < |p| - 1 && p[k] == 0xff ==> p[k + 1] != 0xd9)
  {
    if s.start + 2 <= s.end <= |p| {
      MarkerInBytes(p, s.start, SOI);
      MarkerInBytes(p, s.end - 2, EOI);
      NoMarkerInBytes(p, 0, s.start, SOI);
      NoMarkerInBytes(p, s.end - 1, |p|, EOI);
      if p[s.end - 2..s.end] == [0xff, 0xd9] {
        assert p[s.end - 1] == p[s.end - 2..s.end][1];
      }
    }
  }

  lemma {:induction false} PayloadIsAPair(p: seq<Byte>)
    ensures JpegPayload(p).Ok? ==> !NoImageFrom(p, 0)
  {
    if JpegPayload(p).Ok? {
      var start, end := JpegPayload(p).value.start, JpegPayload(p).value.end - 2;
      assert MarkerAt(p, start, SOI) && MarkerAt(p, end, EOI) && start + 2 <= end;
    }
  }

  /** The two scanners agree: the enclosing payload exists exactly when there is an image,
      opens with the first one, and contains all of them. */
  lemma {:induction false} ScannersAgree(p: seq<Byte>, rs: seq<Span>)
    requires IsScan(p, rs)
    ensures JpegPayload(p).Ok? <==> rs != []
    ensures JpegPayload(p).Ok? ==> IsPayload(p, JpegPayload(p).value) && JpegPayload(p).value.start == rs[0].start
    ensures JpegPayload(p).Ok? ==> forall i :: 0 <= i < |rs| ==> rs[i].end <= JpegPayload(p).value.end
  {
    if rs == [] {
      PayloadIsAPair(p);
    } else {
      assert NextImage(p, EndBefore(rs, 0), rs[0]);
      assert MarkerAt(p, rs[0].start, SOI) && MarkerAt(p, rs[0].end - 2, EOI);
      assert FirstMarker(p, 0, SOI) == Some(rs[0].start);
      forall i | 0 <= i < |rs| ensures rs[i].end <= JpegPayload(p).value.end {
        assert NextImage(p, EndBefore(rs, i), rs[i]);
        assert MarkerAt(p, rs[i].end - 2, EOI);
      }
    }
  }

  /** There is at most one payload, and it holds every image of the scan. */
  lemma {:induction false} PayloadHoldsTheScan(p: seq<Byte>, s: Span, rs: seq<Span>)
    requires IsPayload(p, s) && IsScan(p, rs)
    ensures JpegPayload(p) == Ok(s) && rs != []
    ensures forall i :: 0 <= i < |rs| ==> s.start <= rs[i].start && rs[i].end <= s.end
  {
    assert MarkerAt(p, s.start, SOI) && MarkerAt(p, s.end - 2, EOI);
    PayloadIsTheOne(p, s);
    ScannersAgree(p, rs);
    forall i | 0 <= i < |rs| ensures s.start <= rs[i].start {
      assert NextImage(p, EndBefore(rs, i), rs[i]);
      assert MarkerAt(p, rs[i].start, SOI);
    }
  }

  lemma {:induction false} PayloadIsTheOne(p: seq<Byte>, s: Span)
    requires IsPayload(p, s)
    ensures JpegPayload(p) == Ok(s)
  {
    assert MarkerAt(p, s.start, SOI) && MarkerAt(p, s.end - 2, EOI);
    assert FirstMarker(p, 0, SOI) == Some(s.start);
    var last := LastMarker(p, |p|, EOI);
    assert last.Some? && last.value >= s.end - 2;
  }
}
