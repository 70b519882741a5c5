/** The two files of an audio checkpoint, the journal of deltas and the header, and how a reader expands them:
    `CheckpointDelta` and `CheckpointHeader` of `native/src/audio.rs` with its test-side `expanded_checkpoint`. */
module CheckpointFormat {
  import opened Prelude
  import opened AudioClock

  const NEWLINE: Byte := 10

  /** A segment as the inventory names it; its path follows from the index. */
  datatype Segment = Segment(index: nat, start: nat, end: nat)

  datatype Delta = Delta(sequence: nat, anchors: seq<Anchor>, segments: seq<Segment>)

  /** The fields that describe the capture and play no part in recovery. */
  datatype Settings = Settings(started: nat, periodFrames: nat, bufferFrames: nat, queuePeak: nat, maxWriteNs: nat)

  datatype Header = Header(journalBytes: nat, journalRecords: nat, digest: seq<Byte>, anchorCount: nat,
                           segmentCount: nat, lastAnchor: Option<Anchor>, sampleCount: nat, settings: Settings)

  /** What one commit publishes. */
  datatype Snapshot = Snapshot(anchors: seq<Anchor>, lastAnchor: Option<Anchor>, segments: seq<Segment>,
                               settings: Settings)

  /** The expanded form of a checkpoint. */
  datatype Inventory = Inventory(anchors: seq<Anchor>, segments: seq<Segment>, sampleCount: nat, settings: Settings)

  /** Record encoding and digest, both left open. */
  datatype Codec = Codec(
    delta: Delta -> seq<Byte>,
    parseDelta: seq<Byte> -> Option<Delta>,
    header: Header -> seq<Byte>,
    parseHeader: seq<Byte> -> Option<Header>,
    digest: seq<Byte> -> seq<Byte>)

  /** The encoding can be read back, and a row is a non-empty line. Nothing is asked of the digest. */
  ghost predicate Good(c: Codec) {
    && (forall d :: c.parseDelta(c.delta(d)) == Some(d))
    && (forall d :: |c.delta(d)| > 0 && NEWLINE !in c.delta(d))
    && (forall h :: c.parseHeader(c.header(h)) == Some(h))
  }

  // Writing

  function Frame(c: Codec, d: Delta): seq<Byte> {
    c.delta(d) + [NEWLINE]
  }

  function FrameAll(c: Codec, rows: seq<Delta>): seq<Byte> {
    if |rows| == 0 then [] else Frame(c, rows[0]) + FrameAll(c, rows[1..])
  }

  /** The anchors and segments that a run of rows adds up to. */
  function Anchors(rows: seq<Delta>): seq<Anchor> {
    if |rows| == 0 then [] else rows[0].anchors + Anchors(rows[1..])
  }

  function Segments(rows: seq<Delta>): seq<Segment> {
    if |rows| == 0 then [] else rows[0].segments + Segments(rows[1..])
  }

  predicate Sequenced(rows: seq<Delta>, first: nat) {
    forall k :: 0 <= k < |rows| ==> rows[k].sequence == first + k
  }

  function SampleCount(segments: seq<Segment>): nat {
    if segments == [] then 0 else segments[|segments| - 1].end
  }

  /** The header over a journal of `journalBytes` whose contents have that digest. */
  function HeaderFor(s: Snapshot, journalBytes: nat, records: nat, digest: seq<Byte>): Header {
    Header(journalBytes, records, digest, |s.anchors|, |s.segments|, s.lastAnchor, SampleCount(s.segments), s.settings)
  }

  // Reading

  function IndexOf(bytes: seq<Byte>, b: Byte): (k: nat)
    ensures k <= |bytes|
  {
    if |bytes| == 0 || bytes[0] == b then 0 else 1 + IndexOf(bytes[1..], b)
  }

  lemma {:induction false} FirstIndex(bytes: seq<Byte>, b: Byte, k: nat)
    requires k < |bytes| && bytes[k] == b && forall j :: 0 <= j < k ==> bytes[j] != b
    ensures IndexOf(bytes, b) == k
    decreases k
  {
    if k > 0 {
      assert bytes[0] != b;
      assert forall j :: 0 <= j < k - 1 ==> bytes[1..][j] == bytes[j + 1];
      FirstIndex(bytes[1..], b, k - 1);
    }
  }

  /** `split` on newlines without the empty pieces. */
  function Lines(bytes: seq<Byte>): seq<seq<Byte>>
    decreases |bytes|
  {
    if |bytes| == 0 then []
    else
      var k := IndexOf(bytes, NEWLINE);
      var rest := if k < |bytes| then Lines(bytes[k + 1..]) else [];
      if k == 0 then rest else [bytes[..k]] + rest
  }

  /** The rows behind the lines; each must decode and carry its own position. */
  function Rows(c: Codec, lines: seq<seq<Byte>>, first: nat): Option<seq<Delta>> {
    if |lines| == 0 then Some([])
    else
      var row := c.parseDelta(lines[0]);
      if row.None? || row.value.sequence != first then None
      else
        var rest := Rows(c, lines[1..], first + 1);
        if rest.None? then None else Some([row.value] + rest.value)
  }

  function WithLast(anchors: seq<Anchor>, last: Option<Anchor>): seq<Anchor> {
    if last.Some? && (anchors == [] || anchors[|anchors| - 1] != last.value) then anchors + [last.value] else anchors
  }

  datatype Recovery = NoCheckpoint | Corrupt | Recovered(inventory: Inventory)

  /** `expanded_checkpoint` over the files that are there. */
  function Recover(c: Codec, header: Option<seq<Byte>>, journal: Option<seq<Byte>>): Recovery {
    if header.None? then NoCheckpoint
    else
      var parsed := c.parseHeader(header.value);
      if parsed.None? || journal.None? || parsed.value.journalBytes > |journal.value| then Corrupt
      else
        var h, prefix := parsed.value, journal.value[..parsed.value.journalBytes];
        var rows := Rows(c, Lines(prefix), 0);
        if c.digest(prefix) != h.digest || rows.None? then Corrupt
        else if |Anchors(rows.value)| != h.anchorCount || |Segments(rows.value)| != h.segmentCount then Corrupt
        else
          Recovered(Inventory(WithLast(Anchors(rows.value), h.lastAnchor), Segments(rows.value), h.sampleCount,
                              h.settings))
  }

  /** Rows are read exactly if every line decodes to a row at its own position. */
  lemma {:induction false} RowsExactly(c: Codec, lines: seq<seq<Byte>>, first: nat, rows: seq<Delta>)
    ensures Rows(c, lines, first) == Some(rows) <==>
              |rows| == |lines| && forall k :: 0 <= k < |rows| ==>
                                     c.parseDelta(lines[k]) == Some(rows[k]) && rows[k].sequence == first + k
    decreases |lines|
  {
    if |lines| > 0 {
      var rest := if |rows| > 0 then rows[1..] else [];
      RowsExactly(c, lines[1..], first + 1, rest);
      if |rows| > 0 {
        assert rows == [rows[0]] + rest;
        assert forall k :: 0 <= k < |rest| ==> rest[k] == rows[k + 1];
      }
    }
  }

  /** A header and a journal that belong together: the journal is long enough, the part the header names has its digest
      and decodes line by line to rows in sequence, with as many anchors and segments as the header counts. */
  ghost predicate BelongTogether(c: Codec, header: seq<Byte>, journal: seq<Byte>, h: Header, rows: seq<Delta>) {
    && c.parseHeader(header) == Some(h) && h.journalBytes <= |journal|
    && var prefix := journal[..h.journalBytes];
       && c.digest(prefix) == h.digest && |rows| == |Lines(prefix)|
       && (forall k :: 0 <= k < |rows| ==>
             c.parseDelta(Lines(prefix)[k]) == Some(rows[k]) && rows[k].sequence == k)
       && |Anchors(rows)| == h.anchorCount && |Segments(rows)| == h.segmentCount
  }

  /** Nothing else is ever recovered: without a header there is no checkpoint, and files that do not belong together are
      corrupt. */
  lemma {:induction false} RecoveryIsChecked(c: Codec, header: Option<seq<Byte>>, journal: Option<seq<Byte>>)
    returns (h: Header, rows: seq<Delta>)
    requires Recover(c, header, journal).Recovered?
    ensures header.Some? && journal.Some? && BelongTogether(c, header.value, journal.value, h, rows)
    ensures var inventory := Recover(c, header, journal).inventory;
            && inventory.segments == Segments(rows) && Anchors(rows) <= inventory.anchors
            && inventory.sampleCount == h.sampleCount && inventory.settings == h.settings
  {
    h := c.parseHeader(header.value).value;
    var lines := Lines(journal.value[..h.journalBytes]);
    rows := Rows(c, lines, 0).value;
    RowsExactly(c, lines, 0, rows);
  }

  /** Files that belong together are recovered, whatever follows in the journal. */
  lemma {:induction false} BelongingIsRecovered(c: Codec, header: seq<Byte>, journal: seq<Byte>, h: Header,
                                                rows: seq<Delta>)
    requires BelongTogether(c, header, journal, h, rows)
    ensures Recover(c, Some(header), Some(journal)).Recovered?
    ensures Recover(c, Some(header), Some(journal)).inventory.segments == Segments(rows)
  {
    RowsExactly(c, Lines(journal[..h.journalBytes]), 0, rows);
  }

  /** What a reader is meant to get from a snapshot. */
  function Expanded(s: Snapshot): Inventory {
    Inventory(WithLast(s.anchors, s.lastAnchor), s.segments, SampleCount(s.segments), s.settings)
  }

  // Round trip

  lemma {:induction false} FirstLine(bytes: seq<Byte>, rest: seq<Byte>)
    requires |bytes| > 0 && NEWLINE !in bytes
    ensures Lines(bytes + [NEWLINE] + rest) == [bytes] + Lines(rest)
  {
    var all := bytes + [NEWLINE] + rest;
    var k := |bytes|;
    assert forall j :: 0 <= j < k ==> all[j] == bytes[j] && bytes[j] in bytes;
    FirstIndex(all, NEWLINE, k);
    assert all[..k] == bytes && all[k + 1..] == rest;
  }

  lemma {:induction false} FramedLines(c: Codec, rows: seq<Delta>)
    requires Good(c) && |rows| > 0
    ensures Lines(FrameAll(c, rows)) == [c.delta(rows[0])] + Lines(FrameAll(c, rows[1..]))
  {
    var rest := FrameAll(c, rows[1..]);
    FirstLine(c.delta(rows[0]), rest);
    assert FrameAll(c, rows) == c.delta(rows[0]) + [NEWLINE] + rest;
  }

  lemma {:induction false} RowsStep(c: Codec, row: Delta, lines: seq<seq<Byte>>, rest: seq<Delta>)
    requires Good(c) && Rows(c, lines, row.sequence + 1) == Some(rest)
    ensures Rows(c, [c.delta(row)] + lines, row.sequence) == Some([row] + rest)
  {
    var all := [c.delta(row)] + lines;
    assert all[0] == c.delta(row) && all[1..] == lines;
  }

  /** Reading back what was framed gives the rows themselves. */
  lemma {:induction false} FramedRowsReadBack(c: Codec, rows: seq<Delta>, first: nat)
    requires Good(c) && Sequenced(rows, first)
    ensures Rows(c, Lines(FrameAll(c, rows)), first) == Some(rows)
    decreases rows
  {
    if |rows| > 0 {
      var lines := Lines(FrameAll(c, rows[1..]));
      FramedRowsReadBack(c, rows[1..], first + 1);
      RowsStep(c, rows[0], lines, rows[1..]);
      assert [rows[0]] + rows[1..] == rows;
      FramedLines(c, rows);
    } else {
      NoRowsReadBack(c, rows, first);
    }
  }

  lemma {:induction false} NoRowsReadBack(c: Codec, rows: seq<Delta>, first: nat)
    requires |rows| == 0
    ensures Rows(c, Lines(FrameAll(c, rows)), first) == Some(rows)
  {
  }

  lemma {:induction false} FrameAllSnoc(c: Codec, rows: seq<Delta>, row: Delta)
    ensures FrameAll(c, rows + [row]) == FrameAll(c, rows) + Frame(c, row)
    ensures Anchors(rows + [row]) == Anchors(rows) + row.anchors
    ensures Segments(rows + [row]) == Segments(rows) + row.segments
    decreases rows
  {
    if |rows| > 0 {
      FrameAllSnoc(c, rows[1..], row);
      SnocAtHead(c, rows, row);
    } else {
      SnocAtEnd(c, rows, row);
    }
  }

  lemma {:induction false} SnocAtHead(c: Codec, rows: seq<Delta>, row: Delta)
    requires |rows| > 0
    requires FrameAll(c, rows[1..] + [row]) == FrameAll(c, rows[1..]) + Frame(c, row)
    requires Anchors(rows[1..] + [row]) == Anchors(rows[1..]) + row.anchors
    requires Segments(rows[1..] + [row]) == Segments(rows[1..]) + row.segments
    ensures FrameAll(c, rows + [row]) == FrameAll(c, rows) + Frame(c, row)
    ensures Anchors(rows + [row]) == Anchors(rows) + row.anchors
    ensures Segments(rows + [row]) == Segments(rows) + row.segments
  {
    var all := rows + [row];
    assert all[1..] == rows[1..] + [row] && all[0] == rows[0];
  }

  lemma {:induction false} SnocAtEnd(c: Codec, rows: seq<Delta>, row: Delta)
    requires |rows| == 0
    ensures FrameAll(c, rows + [row]) == FrameAll(c, rows) + Frame(c, row)
    ensures Anchors(rows + [row]) == Anchors(rows) + row.anchors
    ensures Segments(rows + [row]) == Segments(rows) + row.segments
  {
    var all := rows + [row];
    assert |all[1..]| == 0 && all[0] == row;
  }

  /** The rows add up to the snapshot. */
  predicate RowsOf(s: Snapshot, rows: seq<Delta>) {
    Sequenced(rows, 0) && Anchors(rows) == s.anchors && Segments(rows) == s.segments
  }

  /** The header that publishes a snapshot over exactly these rows. */
  function Published(c: Codec, s: Snapshot, rows: seq<Delta>): seq<Byte> {
    c.header(HeaderFor(s, |FrameAll(c, rows)|, |rows|, c.digest(FrameAll(c, rows))))
  }

  /** A published header over a journal that starts with its rows recovers its snapshot, whatever follows in the
      journal. */
  lemma {:induction false} PublishedRecovers(c: Codec, s: Snapshot, rows: seq<Delta>, journal: seq<Byte>)
    requires Good(c) && RowsOf(s, rows) && FrameAll(c, rows) <= journal
    ensures Recover(c, Some(Published(c, s, rows)), Some(journal)) == Recovered(Expanded(s))
  {
    var bytes := FrameAll(c, rows);
    var h := HeaderFor(s, |bytes|, |rows|, c.digest(bytes));
    assert c.parseHeader(c.header(h)) == Some(h);
    assert journal[..|bytes|] == bytes;
    FramedRowsReadBack(c, rows, 0);
  }
}
