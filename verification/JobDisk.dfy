/** What the job store keeps in memory and on disk, and what its file operations do to one job directory.

    A file is absent, damaged or whole; a fault of the file system is an argument, so every
    operation has one result for each way it can go wrong. */
module JobDisk {
  import opened Wrappers

  type Id = string
  type Time = int

  datatype Status = Queued | Running | Completed | Failed {
    predicate Terminal() { Completed? || Failed? }
  }

  /** The part of a job that is written to job.json. */
  datatype Record = Record(
    id: Id, status: Status, createdAt: Time, updatedAt: Time, error: Option<string>, downloadUrl: string)

  /** A job in memory: the record, and whether the path of its upload and of its result is known. */
  datatype Job = Job(record: Record, hasInput: bool, hasOutput: bool)

  datatype File<+T> = Absent | Partial | Whole(value: T)

  datatype Dir = Dir(record: File<Record>, temp: File<Record>, input: File<Bytes>, output: File<Bytes>)

  const EMPTY_DIR := Dir(Absent, Absent, Absent, Absent)

  const INTERRUPTED := "job_interrupted"

  /** Which jobs a retention sweep drops. */
  predicate Expired(job: Job, cutoff: Time) {
    job.record.status.Terminal() && job.record.updatedAt < cutoff
  }

  /** How writing a record can end. */
  datatype PersistFault = NoFault | NoDirectory | NotOpened | CutOff | NotRenamed(tempRemoved: bool)

  function DirOrEmpty(dir: Option<Dir>): Dir {
    if dir.Some? then dir.value else EMPTY_DIR
  }

  /** The directory after a record was written through the temporary file, and whether that succeeded. */
  function Persisted(dir: Option<Dir>, rec: Record, fault: PersistFault): (Option<Dir>, bool) {
    var d := DirOrEmpty(dir);
    match fault
    case NoFault => (Some(d.(record := Whole(rec), temp := Absent)), true)
    case NoDirectory => (dir, false)
    case NotOpened => (Some(d), false)
    case CutOff => (Some(d.(temp := Partial)), false)
    case NotRenamed(tempRemoved) => (Some(d.(temp := if tempRemoved then Absent else Whole(rec))), false)
  }

  datatype Part = RecordPart | TempPart | InputPart | OutputPart

  function Without(d: Dir, part: Part): Dir {
    match part
    case RecordPart => d.(record := Absent)
    case TempPart => d.(temp := Absent)
    case InputPart => d.(input := Absent)
    case OutputPart => d.(output := Absent)
  }

  function KeepIf<T>(keep: bool, f: File<T>): File<T> {
    if keep then f else Absent
  }

  /** How removing a directory can end: it is gone, or some of its files are left. */
  datatype Removal = Removed | Kept(parts: set<Part>)

  function AfterRemoval(d: Dir, removal: Removal): Option<Dir> {
    match removal
    case Removed => None
    case Kept(parts) =>
      Some(Dir(KeepIf(RecordPart in parts, d.record), KeepIf(TempPart in parts, d.temp),
               KeepIf(InputPart in parts, d.input), KeepIf(OutputPart in parts, d.output)))
  }

  /** What the start of the service can see of a directory. */
  datatype Sight = Sight(readsRecord: bool, listsInput: bool, listsOutput: bool)

  const CLEAR := Sight(true, true, true)

  function ReadRecord(id: Id, d: Dir, sight: Sight): Option<Record> {
    if sight.readsRecord && d.record.Whole? && d.record.value.id == id then Some(d.record.value) else None
  }

  predicate WasInterrupted(rec: Record) {
    !rec.status.Terminal()
  }

  /** A record as the next start shows it; the timestamps are never touched. */
  function Revived(rec: Record): Record {
    if rec.status.Completed? then rec
    else if rec.status.Failed? then rec.(downloadUrl := "")
    else rec.(downloadUrl := "", status := Failed, error := Some(INTERRUPTED))
  }

  /** The job a directory is loaded as, if it holds a usable record. */
  function Restored(id: Id, d: Dir, sight: Sight): Option<Job> {
    match ReadRecord(id, d, sight)
    case None => None
    case Some(rec) =>
      Some(Job(Revived(rec), sight.listsInput && !d.input.Absent?,
               rec.status.Completed? && sight.listsOutput && !d.output.Absent?))
  }

  /** What loading leaves of a directory. */
  function DirAfterLoad(id: Id, d: Dir, sight: Sight, persist: PersistFault, removal: Removal): Option<Dir> {
    match ReadRecord(id, d, sight)
    case None => AfterRemoval(d, removal)
    case Some(rec) =>
      if WasInterrupted(rec) then Persisted(Some(d), Revived(rec), persist).0 else Some(d)
  }
}
