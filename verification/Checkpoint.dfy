/** `commit_checkpoint` of `native/src/audio.rs` as a state machine over its I/O actions. Each action may fail with part
    of its effect, and a crash may fall between any two. */
module Checkpoint {
  import opened Prelude
  import opened AudioClock
  import opened CheckpointFormat
  import opened Disk

  /** `ClockCheckpoint`. */
  datatype Clock = Clock(anchors: seq<Anchor>, lastAnchor: Option<Anchor>, settings: Settings)

  /** The counters of `CheckpointJournal`; `digested` is the input of the running digest. */
  datatype Counters = Counters(created: bool, digested: seq<Byte>, bytes: nat, records: nat, anchors: nat,
                               segments: nat)

  datatype Io =
    | CreateJournal
    | AppendJournal
    | SyncJournal
    | CreateTemporary
    | WriteTemporary
    | SyncTemporary
    | RenameTemporary
    | SyncDirectory

  datatype Pending = Pending(snapshot: Snapshot, row: Delta)

  /** Between commits, before an I/O action, or after one failed, for good: `journal.failed` holds in the last two. */
  datatype Phase = Idle | Before(io: Io, pending: Pending) | Broken(io: Io, pending: Pending, renamed: bool)

  /** `rows` and `published` are the journal and snapshot of the commits that returned `Ok`. */
  datatype Machine = Machine(
    journal: Counters,
    disk: Directory,
    phase: Phase,
    last: Result<()>,
    rows: seq<Delta>,
    published: Option<Snapshot>)

  /** How an I/O action answers; a failing one may have taken effect, or written a part. */
  datatype Answer = Answer(ok: bool, effect: bool, part: nat)

  datatype Action = Commit(clock: Option<Clock>, segments: seq<Segment>) | Perform(answer: Answer)

  // Steps

  function Step(c: Codec, m: Machine, a: Action): Machine {
    match a
    case Commit(clock, segments) => if m.phase.Before? then m else Begun(m, clock, segments)
    case Perform(answer) => if m.phase.Before? then Performed(c, m, answer) else m
  }

  /** `commit_checkpoint` up to its first I/O action. */
  function Begun(m: Machine, clock: Option<Clock>, segments: seq<Segment>): Machine {
    if !m.phase.Idle? then m.(last := Err(WriteFailed))
    else if clock.None? then m.(last := Ok(()))
    else if |clock.value.anchors| < m.journal.anchors then m.(last := Err(AudioFailed))
    else if |segments| < m.journal.segments then m.(last := Err(AudioFailed))
    else
      var snapshot := Snapshot(clock.value.anchors, clock.value.lastAnchor, segments, clock.value.settings);
      var row := Delta(m.journal.records, snapshot.anchors[m.journal.anchors..], segments[m.journal.segments..]);
      m.(phase := Before(if m.journal.created then AppendJournal else CreateJournal, Pending(snapshot, row)))
  }

  function HeaderBytes(c: Codec, j: Counters, p: Pending): seq<Byte> {
    var bytes := Frame(c, p.row);
    c.header(HeaderFor(p.snapshot, j.bytes + |bytes|, j.records + 1, c.digest(j.digested + bytes)))
  }

  function Part(bytes: seq<Byte>, answer: Answer): seq<Byte> {
    if answer.ok || answer.part >= |bytes| then bytes else bytes[..answer.part]
  }

  /** What an I/O action leaves on disk. */
  function Effect(c: Codec, m: Machine, answer: Answer): Directory
    requires m.phase.Before?
  {
    var d, p := m.disk, m.phase.pending;
    match m.phase.io
    case AppendJournal => Appended(d, Part(Frame(c, p.row), answer))
    case WriteTemporary => TemporaryWritten(d, Part(HeaderBytes(c, m.journal, p), answer))
    case CreateJournal => if answer.ok || answer.effect then JournalCreated(d) else d
    case SyncJournal => if answer.ok then JournalSynced(d) else d
    case CreateTemporary => if answer.ok || answer.effect then TemporaryCreated(d) else d
    case SyncTemporary => if answer.ok then TemporarySynced(d) else d
    case RenameTemporary => if answer.ok || answer.effect then Renamed(d) else d
    case SyncDirectory => if answer.ok then DirectorySynced(d) else d
  }

  function Following(io: Io): Io {
    match io
    case CreateJournal => AppendJournal
    case AppendJournal => SyncJournal
    case SyncJournal => CreateTemporary
    case CreateTemporary => WriteTemporary
    case WriteTemporary => SyncTemporary
    case SyncTemporary => RenameTemporary
    case RenameTemporary => SyncDirectory
    case SyncDirectory => SyncDirectory
  }

  function Performed(c: Codec, m: Machine, answer: Answer): Machine
    requires m.phase.Before?
  {
    var io, p := m.phase.io, m.phase.pending;
    var next := m.(disk := Effect(c, m, answer));
    if !answer.ok then
      var renamed := io.SyncDirectory? || (io.RenameTemporary? && answer.effect);
      next.(phase := Broken(io, p, renamed), last := Err(WriteFailed))
    else if io.SyncDirectory? then Committed(c, next, p)
    else next.(phase := Before(Following(io), p), journal := m.journal.(created := true))
  }

  /** The counters move only when everything has succeeded. */
  function Committed(c: Codec, m: Machine, p: Pending): Machine {
    var bytes, j := Frame(c, p.row), m.journal;
    m.(journal := Counters(true, j.digested + bytes, j.bytes + |bytes|, j.records + 1, |p.snapshot.anchors|,
                           |p.snapshot.segments|),
       phase := Idle, last := Ok(()), rows := m.rows + [p.row], published := Some(p.snapshot))
  }

  /** A recorder that has not committed yet over an empty directory. */
  predicate IsNew(m: Machine) {
    && m.journal.created == false && |m.journal.digested| == 0
    && m.journal.bytes == m.journal.records == m.journal.anchors == m.journal.segments == 0
    && m.disk == Directory(None, None, None, {None})
    && m.phase.Idle? && |m.rows| == 0 && m.published.None?
  }

  /** The observers only append: anchors and segments of a commit extend the published ones. */
  predicate Legal(m: Machine, a: Action) {
    a.Commit? && m.published.Some? ==>
      && (a.clock.Some? && |m.published.value.anchors| <= |a.clock.value.anchors| ==>
            m.published.value.anchors <= a.clock.value.anchors)
      && (|m.published.value.segments| <= |a.segments| ==> m.published.value.segments <= a.segments)
  }

  // Invariant

  /** The counters describe exactly the published rows. */
  ghost predicate CountersOk(c: Codec, m: Machine) {
    && m.journal.digested == FrameAll(c, m.rows)
    && m.journal.bytes == |m.journal.digested|
    && m.journal.records == |m.rows|
    && Sequenced(m.rows, 0)
    && |Anchors(m.rows)| == m.journal.anchors && |Segments(m.rows)| == m.journal.segments
    && (m.published.None? <==> |m.rows| == 0)
    && (m.published.Some? ==> RowsOf(m.published.value, m.rows))
    && (m.phase.Idle? ==> (m.journal.created <==> |m.rows| > 0))
  }

  /** The commit in progress continues the published rows. */
  ghost predicate PendingOk(m: Machine) {
    m.phase.Before? || m.phase.Broken? ==>
      && RowsOf(m.phase.pending.snapshot, m.rows + [m.phase.pending.row])
      && (m.published.Some? ==> m.published.value.anchors <= m.phase.pending.snapshot.anchors)
      && (m.published.Some? ==> m.published.value.segments <= m.phase.pending.snapshot.segments)
  }

  /** The journal starts with the published rows, durably, and holds nothing else between commits. */
  ghost predicate JournalOk(c: Codec, m: Machine) {
    var base := m.journal.digested;
    && (|m.rows| > 0 ==> m.disk.journal.Some?)
    && (m.disk.journal.Some? ==>
          var log := m.disk.journal.value;
          && log.stable <= |log.data|
          && base <= log.data && |base| <= log.stable
          && (|m.rows| > 0 ==> log.named)
          && (AppendDue(m.phase) ==> log.data == base)
          && (m.phase.Before? && m.phase.io.SyncJournal? ==> log.data == base + Frame(c, m.phase.pending.row))
          && (JournalDone(m.phase) ==>
                log.named && log.stable == |log.data| && log.data == base + Frame(c, m.phase.pending.row)))
    && (JournalDone(m.phase) || (m.phase.Before? && !m.phase.io.CreateJournal?) ==> m.disk.journal.Some?)
    && (m.phase.Before? && m.phase.io.CreateJournal? ==> m.disk.journal.None?)
    && (m.phase.Idle? && |m.rows| == 0 ==> m.disk.journal.None?)
  }

  predicate AppendDue(p: Phase) {
    p.Idle? || (p.Before? && p.io.AppendJournal?)
  }

  /** The new row is synced. */
  predicate JournalDone(p: Phase) {
    !p.Idle? && !p.io.CreateJournal? && !p.io.AppendJournal? && !p.io.SyncJournal?
  }

  function PublishedCell(c: Codec, m: Machine): Option<Cell> {
    if m.published.None? then None else Some(Cell(Published(c, m.published.value, m.rows), true))
  }

  /** The header under the temporary name, then under its own. */
  ghost predicate HeaderOk(c: Codec, m: Machine) {
    var current := PublishedCell(c, m);
    if m.phase.Idle? then m.disk.temporary.None? && m.disk.header == current && m.disk.exposed == {current}
    else
      var bytes := HeaderBytes(c, m.journal, m.phase.pending);
      var coming := Some(Cell(bytes, true));
      if Renaming(m.phase) then m.disk.header == coming && m.disk.exposed == {current, coming}
                                && (m.phase.Before? ==> m.disk.temporary.None?)
      else
        && m.disk.header == current && m.disk.exposed == {current}
        && (m.phase.Before? ==>
              match m.phase.io
              case WriteTemporary => m.disk.temporary == Some(Cell([], false))
              case SyncTemporary => m.disk.temporary == Some(Cell(bytes, false))
              case RenameTemporary => m.disk.temporary == coming
              case _ => m.disk.temporary.None?)
  }

  /** The rename has taken effect and the directory is not known to be synced. */
  predicate Renaming(p: Phase) {
    (p.Before? && p.io.SyncDirectory?) || (p.Broken? && p.renamed)
  }

  ghost predicate Inv(c: Codec, m: Machine) {
    && CountersOk(c, m) && PendingOk(m) && JournalOk(c, m) && HeaderOk(c, m)
    && (m.phase.Broken? ==> (m.phase.renamed ==> m.phase.io.RenameTemporary? || m.phase.io.SyncDirectory?))
  }

  // Every step keeps the invariant

  /** The header of the commit in progress is the one that publishes its rows. */
  lemma {:induction false} HeaderPublishes(c: Codec, m: Machine, p: Pending)
    requires CountersOk(c, m)
    ensures HeaderBytes(c, m.journal, p) == Published(c, p.snapshot, m.rows + [p.row])
    ensures FrameAll(c, m.rows + [p.row]) == m.journal.digested + Frame(c, p.row)
  {
    FrameAllSnoc(c, m.rows, p.row);
  }

  lemma {:induction false} PrefixSplit<T>(first: seq<T>, all: seq<T>)
    requires first <= all
    ensures first + all[|first|..] == all
  {
  }

  lemma {:induction false} RowsExtend(c: Codec, m: Machine, s: Snapshot, row: Delta)
    requires CountersOk(c, m)
    requires Anchors(m.rows) <= s.anchors && Segments(m.rows) <= s.segments
    requires row == Delta(|m.rows|, s.anchors[|Anchors(m.rows)|..], s.segments[|Segments(m.rows)|..])
    ensures RowsOf(s, m.rows + [row])
  {
    FrameAllSnoc(c, m.rows, row);
    PrefixSplit(Anchors(m.rows), s.anchors);
    PrefixSplit(Segments(m.rows), s.segments);
  }

  lemma {:induction false} BeginKeepsPending(c: Codec, m: Machine, clock: Clock, segments: seq<Segment>)
    requires Inv(c, m) && m.phase.Idle? && Legal(m, Commit(Some(clock), segments))
    requires m.journal.anchors <= |clock.anchors| && m.journal.segments <= |segments|
    ensures PendingOk(Begun(m, Some(clock), segments))
  {
    var s := Snapshot(clock.anchors, clock.lastAnchor, segments, clock.settings);
    var row := Delta(m.journal.records, s.anchors[m.journal.anchors..], segments[m.journal.segments..]);
    if |m.rows| == 0 {
      NoRows(m.rows);
    }
    RowsExtend(c, m, s, row);
  }

  lemma {:induction false} NoRows(rows: seq<Delta>)
    requires |rows| == 0
    ensures |Anchors(rows)| == 0 && |Segments(rows)| == 0
  {
  }

  lemma {:induction false} BeginKeeps(c: Codec, m: Machine, clock: Option<Clock>, segments: seq<Segment>)
    requires Inv(c, m) && !m.phase.Before? && Legal(m, Commit(clock, segments))
    ensures Inv(c, Begun(m, clock, segments))
  {
    var q := Begun(m, clock, segments);
    if q.phase.Before? {
      BeginKeepsPending(c, m, clock.value, segments);
      assert CountersOk(c, q);
      assert JournalOk(c, q);
      assert HeaderOk(c, q);
    } else {
      assert q == m.(last := q.last);
    }
  }

  lemma {:induction false} PerformKeepsJournal(c: Codec, m: Machine, answer: Answer)
    requires Inv(c, m) && m.phase.Before? && !(answer.ok && m.phase.io.SyncDirectory?)
    ensures JournalOk(c, Performed(c, m, answer))
  {
  }

  lemma {:induction false} PerformKeepsHeader(c: Codec, m: Machine, answer: Answer)
    requires Inv(c, m) && m.phase.Before? && !(answer.ok && m.phase.io.SyncDirectory?)
    ensures HeaderOk(c, Performed(c, m, answer))
  {
    var bytes := HeaderBytes(c, m.journal, m.phase.pending);
    assert [] + bytes == bytes;
  }

  lemma {:induction false} CommitKeeps(c: Codec, m: Machine, answer: Answer)
    requires Inv(c, m) && m.phase.Before? && m.phase.io.SyncDirectory? && answer.ok
    ensures Inv(c, Performed(c, m, answer))
  {
    var p, q := m.phase.pending, Performed(c, m, answer);
    HeaderPublishes(c, m, p);
    FrameAllSnoc(c, m.rows, p.row);
    assert CountersOk(c, q);
    assert JournalOk(c, q);
    assert HeaderOk(c, q);
  }

  lemma {:induction false} StepKeeps(c: Codec, m: Machine, a: Action)
    requires Inv(c, m) && Legal(m, a)
    ensures Inv(c, Step(c, m, a))
  {
    match a
    case Commit(clock, segments) =>
      if !m.phase.Before? {
        BeginKeeps(c, m, clock, segments);
      }
    case Perform(answer) =>
      if m.phase.Before? {
        if answer.ok && m.phase.io.SyncDirectory? {
          CommitKeeps(c, m, answer);
        } else {
          PerformKeepsJournal(c, m, answer);
          PerformKeepsHeader(c, m, answer);
        }
      }
  }

  // Runs

  ghost predicate LegalRun(c: Codec, m: Machine, actions: seq<Action>)
    decreases actions
  {
    actions == [] || (Legal(m, actions[0]) && LegalRun(c, Step(c, m, actions[0]), actions[1..]))
  }

  function Run(c: Codec, m: Machine, actions: seq<Action>): Machine
    decreases actions
  {
    if actions == [] then m else Run(c, Step(c, m, actions[0]), actions[1..])
  }

  lemma {:induction false} NewInv(c: Codec, m: Machine)
    requires IsNew(m)
    ensures Inv(c, m)
  {
    NoRows(m.rows);
  }

  lemma {:induction false} RunKeeps(c: Codec, m: Machine, actions: seq<Action>)
    requires Inv(c, m) && LegalRun(c, m, actions)
    ensures Inv(c, Run(c, m, actions))
    decreases actions
  {
    if actions != [] {
      StepKeeps(c, m, actions[0]);
      RunKeeps(c, Step(c, m, actions[0]), actions[1..]);
    }
  }

  // Crash consistency

  function Outcome(s: Option<Snapshot>): Recovery {
    if s.None? then NoCheckpoint else Recovered(Expanded(s.value))
  }

  /** What recovery may find: the last published snapshot, or, from its rename on, the one being published. */
  function Outcomes(m: Machine): set<Recovery> {
    {Outcome(m.published)} + (if Renaming(m.phase) then {Outcome(Some(m.phase.pending.snapshot))} else {})
  }

  lemma {:induction false} JournalPrefixSurvives(d: Directory, image: Image, base: seq<Byte>)
    requires d.journal.Some? && d.journal.value.named && JournalSurvives(d, image)
    requires base <= d.journal.value.data && |base| <= d.journal.value.stable
    ensures image.journal.Some? && base <= image.journal.value
  {
    var log, kept := d.journal.value, image.journal.value;
    assert forall k :: 0 <= k < |base| ==> kept[k] == kept[..log.stable][k] == log.data[..log.stable][k] == base[k];
  }

  /** The old header finds its rows in whatever the crash left of the journal. */
  lemma {:induction false} OldHeaderRecovers(c: Codec, m: Machine, image: Image)
    requires Good(c) && Inv(c, m) && JournalSurvives(m.disk, image)
    requires CellSurvives(PublishedCell(c, m), image.header)
    ensures Recover(c, image.header, image.journal) == Outcome(m.published)
  {
    if m.published.Some? {
      JournalPrefixSurvives(m.disk, image, m.journal.digested);
      PublishedRecovers(c, m.published.value, m.rows, image.journal.value);
    }
  }

  /** So does the new one, once its rename may have taken effect. */
  lemma {:induction false} NewHeaderRecovers(c: Codec, m: Machine, image: Image)
    requires Good(c) && Inv(c, m) && JournalSurvives(m.disk, image) && Renaming(m.phase)
    requires image.header == Some(HeaderBytes(c, m.journal, m.phase.pending))
    ensures Recover(c, image.header, image.journal) == Outcome(Some(m.phase.pending.snapshot))
  {
    var p := m.phase.pending;
    HeaderPublishes(c, m, p);
    JournalPrefixSurvives(m.disk, image, m.journal.digested + Frame(c, p.row));
    PublishedRecovers(c, p.snapshot, m.rows + [p.row], image.journal.value);
  }

  /** Whatever a crash leaves, between any two I/O actions and after any failure, recovery decodes exactly the last
      published snapshot or the one being published, never a mixture and never an error. */
  lemma {:induction false} CrashConsistency(c: Codec, start: Machine, actions: seq<Action>, image: Image)
    requires Good(c) && IsNew(start) && LegalRun(c, start, actions)
    requires Survives(Run(c, start, actions).disk, image)
    ensures Recover(c, image.header, image.journal) in Outcomes(Run(c, start, actions))
  {
    NewInv(c, start);
    RunKeeps(c, start, actions);
    CrashFrom(c, Run(c, start, actions), image);
  }

  lemma {:induction false} CrashFrom(c: Codec, m: Machine, image: Image)
    requires Good(c) && Inv(c, m) && Survives(m.disk, image)
    ensures Recover(c, image.header, image.journal) in Outcomes(m)
  {
    var cell :| cell in m.disk.exposed && CellSurvives(cell, image.header);
    if cell == PublishedCell(c, m) {
      OldHeaderRecovers(c, m, image);
    } else {
      NewHeaderRecovers(c, m, image);
    }
  }

  // Durability

  /** The second inventory contains the first: nothing that was committed is lost or reordered. */
  predicate Extends(before: Option<Snapshot>, after: Option<Snapshot>) {
    before.Some? ==>
      after.Some? && before.value.anchors <= after.value.anchors && before.value.segments <= after.value.segments
  }

  lemma {:induction false} ExtendsChain(a: Option<Snapshot>, b: Option<Snapshot>, d: Option<Snapshot>)
    requires Extends(a, b) && Extends(b, d)
    ensures Extends(a, d)
  {
  }

  lemma {:induction false} StepExtends(c: Codec, m: Machine, a: Action)
    requires Inv(c, m)
    ensures Extends(m.published, Step(c, m, a).published)
  {
  }

  lemma {:induction false} RunExtends(c: Codec, m: Machine, actions: seq<Action>)
    requires Inv(c, m) && LegalRun(c, m, actions)
    ensures Extends(m.published, Run(c, m, actions).published)
    decreases actions
  {
    if actions != [] {
      var q := Step(c, m, actions[0]);
      StepKeeps(c, m, actions[0]);
      StepExtends(c, m, actions[0]);
      RunExtends(c, q, actions[1..]);
      ExtendsChain(m.published, q.published, Run(c, q, actions[1..]).published);
    }
  }

  /** The anchors and segments that recovery returns contain those of a snapshot. */
  predicate Contains(r: Recovery, s: Snapshot) {
    r.Recovered? && s.segments <= r.inventory.segments && s.anchors <= r.inventory.anchors
  }

  /** Once a commit has returned `Ok`, every later crash recovers at least what it published, whatever happens after. */
  lemma {:induction false} CommittedIsDurable(c: Codec, m: Machine, actions: seq<Action>, image: Image)
    requires Good(c) && Inv(c, m) && LegalRun(c, m, actions) && m.published.Some?
    requires Survives(Run(c, m, actions).disk, image)
    ensures Contains(Recover(c, image.header, image.journal), m.published.value)
  {
    var q := Run(c, m, actions);
    RunKeeps(c, m, actions);
    RunExtends(c, m, actions);
    CrashFrom(c, q, image);
    if Renaming(q.phase) {
      ExtendsChain(m.published, q.published, Some(q.phase.pending.snapshot));
    }
  }

  // A failed publication is terminal

  /** After a failed action nothing is written any more and every commit fails: an unpublished tail of the journal is
      never built on. */
  lemma {:induction false} FailureIsTerminal(c: Codec, m: Machine, actions: seq<Action>)
    requires m.phase.Broken? && m.last == Err(WriteFailed)
    ensures Run(c, m, actions) == m
    decreases actions
  {
    if actions != [] {
      assert Step(c, m, actions[0]) == m;
      FailureIsTerminal(c, m, actions[1..]);
    }
  }

  /** Between successful commits the journal holds the published rows and nothing else. */
  lemma {:induction false} NoUnpublishedTail(c: Codec, start: Machine, actions: seq<Action>)
    requires IsNew(start) && LegalRun(c, start, actions) && Run(c, start, actions).phase.Idle?
    ensures var m := Run(c, start, actions);
            if m.published.None? then m.disk.journal.None?
            else m.disk.journal == Some(Log(FrameAll(c, m.rows), |FrameAll(c, m.rows)|, true))
                 && RowsOf(m.published.value, m.rows)
  {
    NewInv(c, start);
    RunKeeps(c, start, actions);
  }
}
