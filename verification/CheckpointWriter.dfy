/** `commit_checkpoint` as the in-place update of a `CheckpointJournal` and its directory, proved to be a run of the
    machine in `Checkpoint`. */
module CheckpointWriter {
  import opened Prelude
  import opened CheckpointFormat
  import opened Disk
  import opened Checkpoint

  function Rank(p: Phase): nat {
    if !p.Before? then 0
    else
      match p.io
      case CreateJournal => 8
      case AppendJournal => 7
      case SyncJournal => 6
      case CreateTemporary => 5
      case WriteTemporary => 4
      case SyncTemporary => 3
      case RenameTemporary => 2
      case SyncDirectory => 1
  }

  /** All I/O actions of one commit, with how each of them will answer. */
  function Completed(c: Codec, m: Machine, answers: Io -> Answer): (q: Machine)
    ensures !q.phase.Before?
    decreases Rank(m.phase)
  {
    if m.phase.Before? then Completed(c, Performed(c, m, answers(m.phase.io)), answers) else m
  }

  /** A commit in one call is a run of the machine. */
  lemma {:induction false} CompletedIsARun(c: Codec, m: Machine, answers: Io -> Answer) returns (actions: seq<Action>)
    ensures Run(c, m, actions) == Completed(c, m, answers)
    ensures LegalRun(c, m, actions)
    decreases Rank(m.phase)
  {
    if m.phase.Before? {
      var a := Perform(answers(m.phase.io));
      var rest := CompletedIsARun(c, Step(c, m, a), answers);
      actions := [a] + rest;
      assert actions[1..] == rest;
    } else {
      actions := [];
    }
  }

  /** A commit in one call keeps the invariant of the machine, however its actions answer. */
  lemma {:induction false} CommitKeepsAll(c: Codec, m: Machine, clock: Option<Clock>, segments: seq<Segment>,
                                          answers: Io -> Answer)
    requires Inv(c, m) && !m.phase.Before? && Legal(m, Action.Commit(clock, segments))
    ensures Inv(c, Completed(c, Begun(m, clock, segments), answers))
  {
    var begun := Begun(m, clock, segments);
    BeginKeeps(c, m, clock, segments);
    var actions := CompletedIsARun(c, begun, answers);
    RunKeeps(c, begun, actions);
  }

  // When a commit succeeds

  /** The I/O actions of a commit, in their order. */
  const IOS: seq<Io> := [CreateJournal, AppendJournal, SyncJournal, CreateTemporary, WriteTemporary, SyncTemporary,
                         RenameTemporary, SyncDirectory]

  /** Those of a journal that does or does not exist yet. */
  function IosOf(created: bool): seq<Io> {
    if created then IOS[1..] else IOS
  }

  ghost predicate AllOk(ios: seq<Io>, answers: Io -> Answer) {
    forall io {:trigger answers(io)} :: io in ios ==> answers(io).ok
  }

  /** One I/O action: it fails the commit, or leads to the next one, or ends it. */
  lemma {:induction false} PerformedExactly(c: Codec, m: Machine, answer: Answer, k: nat)
    requires k < 8 && m.phase.Before? && m.phase.io == IOS[k]
    ensures var q := Performed(c, m, answer);
            if !answer.ok then q.phase.Broken? && q.last == Err(WriteFailed) && q.published == m.published
            else if k < 7 then q.phase == Before(IOS[k + 1], m.phase.pending) && q.published == m.published
            else q.phase.Idle? && q.last == Ok(()) && q.published == Some(m.phase.pending.snapshot)
  {
  }

  /** The first I/O actions succeed, one after the other, up to the first that fails. */
  lemma {:induction false} CompletedExactly(c: Codec, m: Machine, answers: Io -> Answer, k: nat)
    requires k < 8 && m.phase.Before? && m.phase.io == IOS[k]
    ensures var q := Completed(c, m, answers);
            if AllOk(IOS[k..], answers) then
              q.phase.Idle? && q.last == Ok(()) && q.published == Some(m.phase.pending.snapshot)
            else q.phase.Broken? && q.last == Err(WriteFailed) && q.published == m.published
    decreases 8 - k
  {
    var next := Performed(c, m, answers(m.phase.io));
    PerformedExactly(c, m, answers(m.phase.io), k);
    assert Completed(c, m, answers) == Completed(c, next, answers);
    AllOkFrom(answers, k);
    if answers(IOS[k]).ok && k < 7 {
      CompletedExactly(c, next, answers, k + 1);
    }
  }

  lemma {:induction false} AllOkFrom(answers: Io -> Answer, k: nat)
    requires k < 8
    ensures AllOk(IOS[k..], answers) <==> answers(IOS[k]).ok && (k < 7 ==> AllOk(IOS[k + 1..], answers))
  {
    assert IOS[k..] == [IOS[k]] + IOS[k + 1..];
    if k == 7 {
      assert IOS[k + 1..] == [];
    }
  }

  function Performs(ios: seq<Io>, answers: Io -> Answer): seq<Action> {
    if |ios| == 0 then [] else [Perform(answers(ios[0]))] + Performs(ios[1..], answers)
  }

  lemma {:induction false} PerformsComplete(c: Codec, m: Machine, answers: Io -> Answer, k: nat)
    requires k < 8 && m.phase.Before? && m.phase.io == IOS[k]
    ensures Run(c, m, Performs(IOS[k..], answers)) == Completed(c, m, answers)
    decreases 8 - k
  {
    var a, rest := Perform(answers(IOS[k])), Performs(IOS[k..][1..], answers);
    var next := Step(c, m, a);
    assert IOS[k..][0] == IOS[k] && ([a] + rest)[1..] == rest;
    assert IOS[k..][1..] == IOS[k + 1..];
    if a.answer.ok && k < 7 {
      PerformsComplete(c, next, answers, k + 1);
    } else if a.answer.ok {
      assert |IOS[k + 1..]| == 0;
    } else {
      FailureIsTerminal(c, next, rest);
    }
  }

  function SnapshotOf(clock: Clock, segments: seq<Segment>): Snapshot {
    Snapshot(clock.anchors, clock.lastAnchor, segments, clock.settings)
  }

  /** Every image that a crash may leave of the directory recovers exactly the snapshot. */
  ghost predicate Holds(c: Codec, d: Directory, s: Snapshot) {
    forall image {:trigger Survives(d, image)} :: Survives(d, image) ==>
      Recover(c, image.header, image.journal) == Recovered(Expanded(s))
  }

  lemma {:induction false} IdleHolds(c: Codec, m: Machine)
    requires Good(c) && Inv(c, m) && m.phase.Idle? && m.published.Some?
    ensures Holds(c, m.disk, m.published.value)
  {
    forall image | Survives(m.disk, image) ensures Recover(c, image.header, image.journal) == Recovered(
      Expanded(m.published.value))
    {
      CrashFrom(c, m, image);
    }
  }

  /** The observers have only appended since the last commit. */
  predicate Continues(published: Option<Snapshot>, clock: Clock, segments: seq<Segment>) {
    published.Some? ==> published.value.anchors <= clock.anchors && published.value.segments <= segments
  }

  lemma {:induction false} BegunContinues(c: Codec, m: Machine, clock: Clock, segments: seq<Segment>)
    requires Inv(c, m) && m.phase.Idle? && Continues(m.published, clock, segments)
    ensures Legal(m, Action.Commit(Some(clock), segments)) && (m.journal.created <==> m.published.Some?)
    ensures var q := Step(c, m, Action.Commit(Some(clock), segments));
            && q.phase.Before? && q.phase.io == IosOf(m.published.Some?)[0]
            && q.phase.pending.snapshot == SnapshotOf(clock, segments) && q.published == m.published
  {
    if m.published.None? {
      NoRows(m.rows);
    }
  }

  /** A commit over observers that only appended: it succeeds exactly when each of its I/O actions does, and then every
      later reader and every crash finds exactly the anchors and segments given. */
  lemma {:induction false} CommitSucceedsExactly(c: Codec, m: Machine, clock: Clock, segments: seq<Segment>,
                                                 answers: Io -> Answer)
    requires Good(c) && Inv(c, m) && m.phase.Idle? && Continues(m.published, clock, segments)
    ensures var ios := IosOf(m.published.Some?);
            var q := Run(c, m, [Action.Commit(Some(clock), segments)] + Performs(ios, answers));
            if AllOk(ios, answers) then
              q.last == Ok(()) && q.phase.Idle? && q.published == Some(SnapshotOf(clock, segments))
              && Holds(c, q.disk, SnapshotOf(clock, segments))
            else q.last == Err(WriteFailed) && q.phase.Broken? && q.published == m.published
  {
    var ios, a := IosOf(m.published.Some?), Action.Commit(Some(clock), segments);
    var k := if m.published.Some? then 1 else 0;
    assert ios == IOS[k..];
    BegunContinues(c, m, clock, segments);
    StepKeeps(c, m, a);
    var begun := Step(c, m, a);
    assert ([a] + Performs(ios, answers))[1..] == Performs(ios, answers);
    PerformsComplete(c, begun, answers, k);
    CompletedExactly(c, begun, answers, k);
    if AllOk(ios, answers) {
      var actions := CompletedIsARun(c, begun, answers);
      RunKeeps(c, begun, actions);
      IdleHolds(c, Completed(c, begun, answers));
    }
  }

  /** Before any I/O: without a clock nothing is done, and a regressed observer is refused; neither leaves a trace. */
  lemma {:induction false} CommitWithoutIo(c: Codec, m: Machine, clock: Option<Clock>, segments: seq<Segment>)
    requires Inv(c, m) && m.phase.Idle?
    requires clock.Some? ==> m.published.Some? && (|clock.value.anchors| < |m.published.value.anchors|
                                                   || |segments| < |m.published.value.segments|)
    ensures Run(c, m, [Action.Commit(clock, segments)])
         == m.(last := if clock.None? then Ok(()) else Err(AudioFailed))
  {
    var a := Action.Commit(clock, segments);
    assert [a][1..] == [];
    if m.published.None? {
      NoRows(m.rows);
    }
  }

  class CheckpointJournal {
    const codec: Codec
    var created: bool
    var digested: seq<Byte>
    var bytes: nat
    var records: nat
    var anchors: nat
    var segments: nat
    var failed: bool
    var disk: Directory
    ghost var phase: Phase
    ghost var last: Result<()>
    ghost var rows: seq<Delta>
    ghost var published: Option<Snapshot>

    ghost function View(): Machine
      reads this
    {
      Machine(Counters(created, digested, bytes, records, anchors, segments), disk, phase, last, rows, published)
    }

    ghost predicate Valid()
      reads this
    {
      !phase.Before? && (failed <==> !phase.Idle?)
    }

    constructor (codec: Codec)
      ensures Valid() && this.codec == codec && IsNew(View())
    {
      this.codec := codec;
      created, digested, bytes, records, anchors, segments, failed := false, [], 0, 0, 0, 0, false;
      disk := Directory(None, None, None, {None});
      phase, last, rows, published := Idle, Ok(()), [], None;
    }

    /** The first commit creates the journal. */
    method OpenJournal(p: Pending, answers: Io -> Answer) returns (r: Result<()>)
      requires phase == Before(if created then AppendJournal else CreateJournal, p)
      modifies this`created, this`disk, this`phase, this`last
      ensures r.Ok? <==> old(created) || answers(CreateJournal).ok
      ensures Completed(codec, View(), answers) == Completed(codec, old(View()), answers)
      ensures r.Ok? ==> created && phase == Before(AppendJournal, p)
      ensures r.Err? ==> !phase.Idle? && View() == Completed(codec, old(View()), answers) && last == r
    {
      if !created {
        var answer := answers(CreateJournal);
        if answer.ok || answer.effect {
          disk := JournalCreated(disk);
        }
        if !answer.ok {
          phase, last := Broken(CreateJournal, p, false), Err(WriteFailed);
          return Err(WriteFailed);
        }
        created := true;
        phase := Before(AppendJournal, p);
      }
      return Ok(());
    }

    /** Appends the new row to the journal and syncs it. */
    method WriteRow(p: Pending, answers: Io -> Answer) returns (r: Result<()>)
      requires phase == Before(if created then AppendJournal else CreateJournal, p)
      modifies this`created, this`disk, this`phase, this`last
      ensures r.Ok? <==> (old(created) || answers(CreateJournal).ok)
                         && answers(AppendJournal).ok && answers(SyncJournal).ok
      ensures Completed(codec, View(), answers) == Completed(codec, old(View()), answers)
      ensures r.Ok? ==> created && phase == Before(CreateTemporary, p)
      ensures r.Err? ==> !phase.Idle? && View() == Completed(codec, old(View()), answers) && last == r
    {
      r := OpenJournal(p, answers);
      if r.Err? {
        return;
      }
      label append:
      var answer := answers(AppendJournal);
      disk := Appended(disk, Part(Frame(codec, p.row), answer));
      if !answer.ok {
        phase, last := Broken(AppendJournal, p, false), Err(WriteFailed);
        return Err(WriteFailed);
      }
      phase := Before(SyncJournal, p);
      assert Completed(codec, View(), answers) == Completed(codec, old@append(View()), answers);
      answer := answers(SyncJournal);
      if !answer.ok {
        phase, last := Broken(SyncJournal, p, false), Err(WriteFailed);
        return Err(WriteFailed);
      }
      disk := JournalSynced(disk);
      phase := Before(CreateTemporary, p);
      return Ok(());
    }

    /** Writes the header under its temporary name and syncs it. */
    method WriteHeader(p: Pending, encoded: seq<Byte>, answers: Io -> Answer) returns (r: Result<()>)
      requires phase == Before(CreateTemporary, p) && created
      requires encoded == HeaderBytes(codec, View().journal, p)
      modifies this`disk, this`phase, this`last
      ensures r.Ok? <==> answers(CreateTemporary).ok && answers(WriteTemporary).ok && answers(SyncTemporary).ok
      ensures Completed(codec, View(), answers) == Completed(codec, old(View()), answers)
      ensures r.Ok? ==> phase == Before(RenameTemporary, p)
      ensures r.Err? ==> !phase.Idle? && View() == Completed(codec, old(View()), answers) && last == r
    {
      var answer := answers(CreateTemporary);
      if answer.ok || answer.effect {
        disk := TemporaryCreated(disk);
      }
      if !answer.ok {
        phase, last := Broken(CreateTemporary, p, false), Err(WriteFailed);
        return Err(WriteFailed);
      }
      phase := Before(WriteTemporary, p);
      assert Completed(codec, View(), answers) == Completed(codec, old(View()), answers);
      label write:
      answer := answers(WriteTemporary);
      disk := TemporaryWritten(disk, Part(encoded, answer));
      if !answer.ok {
        phase, last := Broken(WriteTemporary, p, false), Err(WriteFailed);
        return Err(WriteFailed);
      }
      phase := Before(SyncTemporary, p);
      assert Completed(codec, View(), answers) == Completed(codec, old@write(View()), answers);
      answer := answers(SyncTemporary);
      if !answer.ok {
        phase, last := Broken(SyncTemporary, p, false), Err(WriteFailed);
        return Err(WriteFailed);
      }
      disk := TemporarySynced(disk);
      phase := Before(RenameTemporary, p);
      return Ok(());
    }

    /** Moves the header to its own name. */
    method MoveHeader(p: Pending, answers: Io -> Answer) returns (r: Result<()>)
      requires phase == Before(RenameTemporary, p) && created
      modifies this`disk, this`phase, this`last
      ensures r.Ok? <==> answers(RenameTemporary).ok
      ensures Completed(codec, View(), answers) == Completed(codec, old(View()), answers)
      ensures r.Ok? ==> phase == Before(SyncDirectory, p)
      ensures r.Err? ==> !phase.Idle? && View() == Completed(codec, old(View()), answers) && last == r
    {
      var answer := answers(RenameTemporary);
      if answer.ok || answer.effect {
        disk := Renamed(disk);
      }
      if !answer.ok {
        phase, last := Broken(RenameTemporary, p, answer.effect), Err(WriteFailed);
        return Err(WriteFailed);
      }
      phase := Before(SyncDirectory, p);
      return Ok(());
    }

    /** Syncs the directory; then the counters move. */
    method SealHeader(p: Pending, digest: seq<Byte>, journalBytes: nat, answers: Io -> Answer) returns (r: Result<()>)
      requires failed && phase == Before(SyncDirectory, p) && created
      requires digest == digested + Frame(codec, p.row) && journalBytes == bytes + |Frame(codec, p.row)|
      modifies this
      ensures Valid()
      ensures r.Ok? <==> answers(SyncDirectory).ok
      ensures View() == Completed(codec, old(View()), answers) && last == r
      ensures r.Ok? ==> published == Some(p.snapshot)
    {
      var answer := answers(SyncDirectory);
      assert Completed(codec, View(), answers) == Performed(codec, View(), answer);
      if !answer.ok {
        phase, last := Broken(SyncDirectory, p, true), Err(WriteFailed);
        return Err(WriteFailed);
      }
      disk := DirectorySynced(disk);
      bytes, records, anchors, segments := journalBytes, records + 1, |p.snapshot.anchors|, |p.snapshot.segments|;
      digested := digest;
      failed := false;
      phase, last, rows, published := Idle, Ok(()), rows + [p.row], Some(p.snapshot);
      return Ok(());
    }

    /** The header over the journal with its new row, written aside, moved into place and sealed. */
    method PublishHeader(p: Pending, answers: Io -> Answer) returns (r: Result<()>)
      requires failed && created && phase == Before(CreateTemporary, p)
      modifies this
      ensures Valid()
      ensures View() == Completed(codec, old(View()), answers) && last == r
      ensures r.Ok? ==> published == Some(p.snapshot)
    {
      var digest := digested + Frame(codec, p.row);
      var journalBytes := bytes + |Frame(codec, p.row)|;
      var header := HeaderFor(p.snapshot, journalBytes, records + 1, codec.digest(digest));
      r := WriteHeader(p, codec.header(header), answers);
      if r.Err? {
        return;
      }
      r := MoveHeader(p, answers);
      if r.Err? {
        return;
      }
      r := SealHeader(p, digest, journalBytes, answers);
    }

    /** Everything from the first I/O action on; the counters move only when all of them have succeeded. */
    method Publish(p: Pending, answers: Io -> Answer) returns (r: Result<()>)
      requires failed && phase == Before(if created then AppendJournal else CreateJournal, p)
      modifies this
      ensures Valid()
      ensures View() == Completed(codec, old(View()), answers) && last == r
      ensures r.Ok? ==> published == Some(p.snapshot)
    {
      r := WriteRow(p, answers);
      if r.Ok? {
        r := PublishHeader(p, answers);
      }
    }

    /** `commit_checkpoint`: after a failed write or publication every later call fails and leaves the disk alone, and a
        regressed observer is refused without that. Otherwise a commit succeeds exactly when each of its I/O actions
        does, and then whatever a crash leaves recovers exactly the anchors and segments given. */
    method Commit(clock: Option<Clock>, inventory: seq<Segment>, answers: Io -> Answer) returns (r: Result<()>)
      requires Valid()
      modifies this
      ensures Valid()
      ensures View() == Completed(codec, Begun(old(View()), clock, inventory), answers) && last == r
      ensures old(failed) ==> r == Err(WriteFailed)
      ensures !old(failed) && clock.None? ==> r == Ok(()) && !failed
      ensures !old(failed) && clock.Some? ==>
                if |clock.value.anchors| < old(anchors) || |inventory| < old(segments)
                then r == Err(AudioFailed) && !failed
                else if AllOk(IosOf(old(created)), answers) then
                  r == Ok(()) && !failed && published == Some(SnapshotOf(clock.value, inventory))
                else r == Err(WriteFailed) && failed && published == old(published)
      ensures (!old(failed) && clock.None?) || old(failed) ==> disk == old(disk)
      ensures Good(codec) && Inv(codec, old(View())) && Legal(old(View()), Action.Commit(clock, inventory)) ==>
                r.Ok? && clock.Some? ==> Holds(codec, disk, SnapshotOf(clock.value, inventory))
    {
      if failed {
        last := Err(WriteFailed);
        return Err(WriteFailed);
      }
      if clock.None? {
        last := Ok(());
        return Ok(());
      }
      if |clock.value.anchors| < anchors || |inventory| < segments {
        last := Err(AudioFailed);
        return Err(AudioFailed);
      }
      ghost var start := View();
      var snapshot := Snapshot(clock.value.anchors, clock.value.lastAnchor, inventory, clock.value.settings);
      var row := Delta(records, clock.value.anchors[anchors..], inventory[segments..]);
      failed := true;
      phase := Before(if created then AppendJournal else CreateJournal, Pending(snapshot, row));
      CompletedExactly(codec, View(), answers, if created then 1 else 0);
      r := Publish(Pending(snapshot, row), answers);
      if Good(codec) && Inv(codec, start) && Legal(start, Action.Commit(clock, inventory)) && r.Ok? {
        CommitKeepsAll(codec, start, clock, inventory, answers);
        IdleHolds(codec, View());
      }
    }
  }
}
