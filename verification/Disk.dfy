/** The directory that holds an audio checkpoint, with what a crash may leave of it. An `fsync` makes a file's bytes and
    name durable; unsynced appends may be kept, lost or torn; a rename is atomic, and until the directory is synced a
    crash may keep either side of it. */
module Disk {
  import opened Prelude

  /** A header file: if its bytes are not durable, a crash may leave any. */
  datatype Cell = Cell(bytes: seq<Byte>, durable: bool)

  /** The append-only journal: its first `stable` bytes survive, and its name does if `named`. */
  datatype Log = Log(data: seq<Byte>, stable: nat, named: bool)

  /** `exposed` are the files that the header name may stand for after a crash. */
  datatype Directory = Directory(journal: Option<Log>, temporary: Option<Cell>, header: Option<Cell>,
                                 exposed: set<Option<Cell>>)

  function JournalCreated(d: Directory): Directory {
    if d.journal.Some? then d else d.(journal := Some(Log([], 0, false)))
  }

  function Appended(d: Directory, bytes: seq<Byte>): Directory {
    if d.journal.None? then d else d.(journal := Some(d.journal.value.(data := d.journal.value.data + bytes)))
  }

  function JournalSynced(d: Directory): Directory {
    if d.journal.None? then d
    else d.(journal := Some(Log(d.journal.value.data, |d.journal.value.data|, true)))
  }

  function TemporaryCreated(d: Directory): Directory {
    d.(temporary := Some(Cell([], false)))
  }

  function TemporaryWritten(d: Directory, bytes: seq<Byte>): Directory {
    if d.temporary.None? then d else d.(temporary := Some(Cell(d.temporary.value.bytes + bytes, false)))
  }

  function TemporarySynced(d: Directory): Directory {
    if d.temporary.None? then d else d.(temporary := Some(d.temporary.value.(durable := true)))
  }

  function Renamed(d: Directory): Directory {
    if d.temporary.None? then d
    else d.(temporary := None, header := d.temporary, exposed := d.exposed + {d.temporary})
  }

  function DirectorySynced(d: Directory): Directory {
    d.(exposed := {d.header})
  }

  /** What a reader finds. */
  datatype Image = Image(header: Option<seq<Byte>>, journal: Option<seq<Byte>>)

  predicate JournalSurvives(d: Directory, image: Image) {
    if d.journal.None? then image.journal.None?
    else if image.journal.None? then !d.journal.value.named
    else
      var log, kept := d.journal.value, image.journal.value;
      log.stable <= |log.data| && log.stable <= |kept| && kept[..log.stable] == log.data[..log.stable]
  }

  predicate CellSurvives(cell: Option<Cell>, found: Option<seq<Byte>>) {
    if cell.None? then found.None? else found.Some? && (cell.value.durable ==> found.value == cell.value.bytes)
  }

  /** The images that a crash at this moment may leave; a plain read finds one of them too. */
  ghost predicate Survives(d: Directory, image: Image) {
    JournalSurvives(d, image) && exists cell :: cell in d.exposed && CellSurvives(cell, image.header)
  }
}
