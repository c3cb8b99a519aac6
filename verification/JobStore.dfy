/** The job store: a map of records in memory, and one directory per job on disk. */
module JobStore {
  import opened Wrappers
  import opened JobDisk

  type Disk = map<Id, Dir>

  /** What goes wrong during one start, directory by directory. */
  datatype StartFaults = StartFaults(sight: Id -> Sight, persist: Id -> PersistFault, removal: Id -> Removal)

  function DirOf(disk: Disk, id: Id): Option<Dir> {
    if id in disk then Some(disk[id]) else None
  }

  function EntryOf(jobs: map<Id, Job>, id: Id): Option<Job> {
    if id in jobs then Some(jobs[id]) else None
  }

  function PutDir(disk: Disk, id: Id, dir: Option<Dir>): Disk {
    match dir
    case None => disk - {id}
    case Some(d) => disk[id := d]
  }

  function RecordOn(disk: Disk, id: Id): File<Record> {
    if id in disk then disk[id].record else Absent
  }

  function DiskAfterRemoval(disk: Disk, id: Id, removal: Removal): Disk {
    if id in disk then PutDir(disk, id, AfterRemoval(disk[id], removal)) else disk
  }

  function ExpiredIds(jobs: map<Id, Job>, cutoff: Time): set<Id> {
    set id | id in jobs && Expired(jobs[id], cutoff)
  }

  function DiskAfterSweep(disk: Disk, expired: set<Id>, removal: Id -> Removal): Disk {
    map id | id in disk && (id in expired ==> AfterRemoval(disk[id], removal(id)).Some?) ::
      if id in expired then AfterRemoval(disk[id], removal(id)).value else disk[id]
  }

  function LoadedDir(disk: Disk, id: Id, f: StartFaults): Option<Dir>
    requires id in disk
  {
    DirAfterLoad(id, disk[id], f.sight(id), f.persist(id), f.removal(id))
  }

  function LoadedJobs(disk: Disk, f: StartFaults): map<Id, Job> {
    map id | id in disk && Restored(id, disk[id], f.sight(id)).Some? :: Restored(id, disk[id], f.sight(id)).value
  }

  function LoadedDisk(disk: Disk, f: StartFaults): Disk {
    map id | id in disk && LoadedDir(disk, id, f).Some? :: LoadedDir(disk, id, f).value
  }

  /** A write replaces the record whole or leaves it, and leaves every other directory. */
  lemma AWriteReplacesOrLeavesTheRecord(disk: Disk, id: Id, rec: Record, fault: PersistFault)
    ensures
      var after := PutDir(disk, id, Persisted(DirOf(disk, id), rec, fault).0);
      && RecordOn(after, id) == (if fault.NoFault? then Whole(rec) else RecordOn(disk, id))
      && (forall other :: other != id ==> DirOf(after, other) == DirOf(disk, other))
  {
  }

  class JobStore {
    var jobs: map<Id, Job>
    var disk: Disk

    /** Every entry is stored under its own, non-empty id. */
    ghost predicate Valid()
      reads this
    {
      forall id :: id in jobs ==> id != "" && jobs[id].record.id == id
    }

    constructor (found: Disk)
      requires "" !in found
      ensures Valid() && jobs == map[] && disk == found
    {
      jobs := map[];
      disk := found;
    }

    /** Opens the store on whatever an earlier process left on disk; there is none when its root cannot be made or
        listed. */
    static method Open(found: Disk, made: bool, listed: bool, faults: StartFaults) returns (store: Option<JobStore>)
      requires "" !in found
      ensures store.Some? <==> made && listed
      ensures store.Some? ==> fresh(store.value) && store.value.Valid()
      ensures store.Some? ==> store.value.jobs == LoadedJobs(found, faults)
      ensures store.Some? ==> store.value.disk == LoadedDisk(found, faults)
    {
      if !made {
        return None;
      }
      var candidate := new JobStore(found);
      var ok := candidate.Load(listed, faults);
      return if ok then Some(candidate) else None;
    }

    method Persist(id: Id, fault: PersistFault) returns (ok: bool)
      requires id in jobs
      modifies this`disk
      ensures disk == PutDir(old(disk), id, Persisted(DirOf(old(disk), id), jobs[id].record, fault).0)
      ensures ok == fault.NoFault?
    {
      var rec := jobs[id].record;
      if fault.NoDirectory? {
        return false;
      }
      var dir := DirOrEmpty(DirOf(disk, id));
      disk := disk[id := dir];
      if fault.NotOpened? {
        return false;
      }
      dir := dir.(temp := Partial);
      disk := disk[id := dir];
      if fault.CutOff? {
        return false;
      }
      dir := dir.(temp := Whole(rec));
      disk := disk[id := dir];
      if fault.NotRenamed? {
        if fault.tempRemoved {
          dir := dir.(temp := Absent);
          disk := disk[id := dir];
        }
        return false;
      }
      dir := dir.(record := dir.temp, temp := Absent);
      disk := disk[id := dir];
      return true;
    }

    /** Records a new job; a job that cannot be recorded leaves neither an entry nor, removal permitting, a file. */
    method Create(job: Job, fault: PersistFault, removal: Removal) returns (ok: bool)
      requires Valid() && job.record.id != ""
      modifies this
      ensures Valid()
      ensures ok == fault.NoFault?
      ensures ok ==> jobs == old(jobs)[job.record.id := job] && RecordOn(disk, job.record.id) == Whole(job.record)
      ensures !ok ==> jobs == old(jobs) - {job.record.id}
      ensures !ok && removal.Removed? ==> disk == old(disk) - {job.record.id}
      ensures
        var written := Persisted(DirOf(old(disk), job.record.id), job.record, fault).0;
        var d := PutDir(old(disk), job.record.id, written);
        disk == if ok then d else DiskAfterRemoval(d, job.record.id, removal)
    {
      var id := job.record.id;
      AWriteReplacesOrLeavesTheRecord(disk, id, job.record, fault);
      jobs := jobs[id := job];
      ok := Persist(id, fault);
      if !ok {
        jobs := jobs - {id};
        if id in disk {
          disk := PutDir(disk, id, AfterRemoval(disk[id], removal));
        }
      }
    }

    /** Memory takes the new record even when the disk keeps the previous one. */
    method Save(job: Job, fault: PersistFault) returns (ok: bool)
      requires Valid() && job.record.id != ""
      modifies this
      ensures Valid()
      ensures ok == fault.NoFault?
      ensures jobs == old(jobs)[job.record.id := job]
      ensures RecordOn(disk, job.record.id) == if ok then Whole(job.record) else RecordOn(old(disk), job.record.id)
      ensures disk == PutDir(old(disk), job.record.id, Persisted(DirOf(old(disk), job.record.id), job.record, fault).0)
    {
      AWriteReplacesOrLeavesTheRecord(disk, job.record.id, job.record, fault);
      jobs := jobs[job.record.id := job];
      ok := Persist(job.record.id, fault);
    }

    method Get(id: Id) returns (job: Option<Job>)
      requires Valid()
      ensures job.Some? <==> id in jobs
      ensures job.Some? ==> job.value == jobs[id] && job.value.record.id == id
    {
      job := if id in jobs then Some(jobs[id]) else None;
    }

    /** Drops the finished jobs last updated before the cutoff; a directory that resists keeps its entry. */
    method DeleteExpired(cutoff: Time, removal: Id -> Removal) returns (deleted: set<Id>, failed: Option<Id>)
      requires Valid()
      modifies this
      ensures Valid()
      ensures deleted == set id | id in ExpiredIds(old(jobs), cutoff) && (id in old(disk) ==> removal(id).Removed?)
      ensures jobs == old(jobs) - deleted
      ensures disk == DiskAfterSweep(old(disk), ExpiredIds(old(jobs), cutoff), removal)
      ensures failed.None? <==> ExpiredIds(old(jobs), cutoff) <= deleted
      ensures failed.Some? ==> failed.value in ExpiredIds(old(jobs), cutoff) - deleted
    {
      hide Expired;
      deleted, failed := {}, None;
      var todo := jobs.Keys;
      ghost var expired := ExpiredIds(jobs, cutoff);
      while todo != {}
        invariant todo <= old(jobs).Keys
        invariant deleted == set id | id in expired - todo && (id in old(disk) ==> removal(id).Removed?)
        invariant jobs == old(jobs) - deleted
        invariant forall id :: DirOf(disk, id) == (if id in expired - todo && id in old(disk)
                                                   then AfterRemoval(old(disk)[id], removal(id))
                                                   else DirOf(old(disk), id))
        invariant failed.None? <==> expired - todo <= deleted
        invariant failed.Some? ==> failed.value in expired - todo - deleted
        decreases todo
      {
        var id :| id in todo;
        todo := todo - {id};
        if !Expired(jobs[id], cutoff) {
          continue;
        }
        if id in disk {
          disk := PutDir(disk, id, AfterRemoval(disk[id], removal(id)));
        }
        if id in disk {
          failed := if failed.None? then Some(id) else failed;
          continue;
        }
        jobs := jobs - {id};
        deleted := deleted + {id};
      }
      assert forall id :: DirOf(disk, id) == DirOf(DiskAfterSweep(old(disk), expired, removal), id);
    }

    /** Reads one directory back, or removes it when it holds no usable record. */
    method LoadDir(id: Id, faults: StartFaults)
      requires Valid() && id in disk && id != ""
      modifies this
      ensures Valid()
      ensures jobs == match Restored(id, old(disk)[id], faults.sight(id))
                      case None => old(jobs)
                      case Some(job) => old(jobs)[id := job]
      ensures disk == PutDir(old(disk), id, LoadedDir(old(disk), id, faults))
    {
      var dir := disk[id];
      var job := Restored(id, dir, faults.sight(id));
      if job.None? {
        disk := PutDir(disk, id, AfterRemoval(dir, faults.removal(id)));
      } else {
        jobs := jobs[id := job.value];
        if WasInterrupted(dir.record.value) {
          var _ := Persist(id, faults.persist(id));
        }
      }
    }

    /** Reads every stored job back, or nothing when the root cannot be listed. */
    method Load(listed: bool, faults: StartFaults) returns (ok: bool)
      requires Valid() && jobs == map[] && "" !in disk
      modifies this
      ensures Valid()
      ensures ok == listed
      ensures jobs == if listed then LoadedJobs(old(disk), faults) else map[]
      ensures disk == if listed then LoadedDisk(old(disk), faults) else old(disk)
    {
      hide Restored, DirAfterLoad;
      if !listed {
        return false;
      }
      var todo := disk.Keys;
      while todo != {}
        invariant todo <= old(disk).Keys
        invariant Valid()
        invariant forall id :: EntryOf(jobs, id) == (if id in old(disk) && id !in todo
                                                     then Restored(id, old(disk)[id], faults.sight(id)) else None)
        invariant forall id :: DirOf(disk, id) == (if id in old(disk) && id !in todo
                                                   then LoadedDir(old(disk), id, faults) else DirOf(old(disk), id))
        decreases todo
      {
        var id :| id in todo;
        todo := todo - {id};
        assert DirOf(disk, id) == DirOf(old(disk), id);
        LoadDir(id, faults);
      }
      assert forall id :: EntryOf(jobs, id) == EntryOf(LoadedJobs(old(disk), faults), id);
      assert forall id :: DirOf(disk, id) == DirOf(LoadedDisk(old(disk), faults), id);
      return true;
    }
  }
}
