/** What the job store promises over restarts, sweeps and failed writes. */
module StoreLaws {
  import opened Wrappers
  import opened JobDisk
  import opened JobStore

  lemma RevivedTwiceIsRevived(rec: Record)
    ensures Revived(Revived(rec)) == Revived(rec)
    ensures Revived(rec).status.Terminal()
    ensures Revived(rec).id == rec.id && Revived(rec).createdAt == rec.createdAt
      && Revived(rec).updatedAt == rec.updatedAt
    ensures Revived(rec).status.Completed? <==> rec.status.Completed?
  {
  }

  /** What one directory is loaded as does not change when an earlier start with the same sight had loaded it first. */
  lemma ReloadedDir(id: Id, d: Dir, sight: Sight, persist: PersistFault, removal: Removal)
    ensures
      var after := DirAfterLoad(id, d, sight, persist, removal);
      (if after.None? then None else Restored(id, after.value, sight)) == Restored(id, d, sight)
  {
    if ReadRecord(id, d, sight).Some? {
      RevivedTwiceIsRevived(d.record.value);
    }
  }

  /** The two starts fail to read the same records and listings, if any. */
  ghost predicate SeeTheSame(f: StartFaults, g: StartFaults) {
    forall id :: f.sight(id) == g.sight(id)
  }

  /** Loading the disk an earlier load left gives the same memory, whatever could not be written or removed, as long as
      both starts could read the same files. */
  lemma ReloadIsIdempotent(disk: Disk, f: StartFaults, g: StartFaults)
    requires SeeTheSame(f, g)
    ensures LoadedJobs(LoadedDisk(disk, f), g) == LoadedJobs(disk, f)
  {
    var once := LoadedDisk(disk, f);
    forall id | id in disk
      ensures id in LoadedJobs(once, g) <==> id in LoadedJobs(disk, f)
      ensures id in LoadedJobs(disk, f) ==> LoadedJobs(once, g)[id] == LoadedJobs(disk, f)[id]
    {
      ReloadedDir(id, disk[id], f.sight(id), f.persist(id), f.removal(id));
      assert f.sight(id) == g.sight(id);
    }
    assert LoadedJobs(once, g).Keys == LoadedJobs(disk, f).Keys;
  }

  /** After a start the entries are exactly the directories iff every orphan could be removed. */
  lemma EntriesAreTheDirectoriesIff(disk: Disk, f: StartFaults)
    ensures LoadedJobs(disk, f).Keys <= LoadedDisk(disk, f).Keys
    ensures LoadedJobs(disk, f).Keys == LoadedDisk(disk, f).Keys
            <==> forall id :: id in disk && Restored(id, disk[id], f.sight(id)).None? ==> f.removal(id).Removed?
  {
    forall id | id in disk
      ensures id in LoadedJobs(disk, f) ==> id in LoadedDisk(disk, f)
      ensures id in LoadedDisk(disk, f) && id !in LoadedJobs(disk, f)
              <==> Restored(id, disk[id], f.sight(id)).None? && f.removal(id).Kept?
    {
    }
    if LoadedJobs(disk, f).Keys == LoadedDisk(disk, f).Keys {
      forall id | id in disk && Restored(id, disk[id], f.sight(id)).None?
        ensures f.removal(id).Removed?
      {
        assert id in LoadedJobs(disk, f).Keys <==> id in LoadedDisk(disk, f).Keys;
      }
    }
  }

  /** A start never changes when a job was created or last updated, and leaves no job unfinished. */
  lemma LoadKeepsTheTimestamps(disk: Disk, f: StartFaults, id: Id)
    requires id in LoadedJobs(disk, f)
    ensures id in disk && disk[id].record.Whole?
    ensures
      var was, now := disk[id].record.value, LoadedJobs(disk, f)[id].record;
      && now.id == id && now.createdAt == was.createdAt && now.updatedAt == was.updatedAt
      && now.status.Terminal()
      && (now.status.Completed? <==> was.status.Completed?)
      && (WasInterrupted(was) ==> now.error == Some(INTERRUPTED))
    ensures id in LoadedDisk(disk, f) && LoadedDisk(disk, f)[id].record.Whole?
    ensures LoadedDisk(disk, f)[id].record.value.updatedAt == disk[id].record.value.updatedAt
    ensures LoadedDisk(disk, f)[id].input == disk[id].input && LoadedDisk(disk, f)[id].output == disk[id].output
  {
    RevivedTwiceIsRevived(disk[id].record.value);
  }

  /** The disk after a number of restarts, each with its own faults. */
  function Restarted(disk: Disk, starts: seq<StartFaults>): Disk {
    if starts == [] then disk else Restarted(LoadedDisk(disk, starts[0]), starts[1..])
  }

  /** However often the service restarted before, and whatever failed, reads included, the next start shows each job it
      shows with the time of its last update, so it is due for deletion at the same moment. */
  lemma {:induction false} RestartsDoNotPostponeDeletion(disk: Disk, starts: seq<StartFaults>, f: StartFaults, id: Id,
          cutoff: Time)
    requires id in LoadedJobs(Restarted(disk, starts), f)
    ensures id in disk && disk[id].record.Whole?
    ensures Expired(LoadedJobs(Restarted(disk, starts), f)[id], cutoff) <==> disk[id].record.value.updatedAt < cutoff
    decreases |starts|
  {
    if starts == [] {
      LoadKeepsTheTimestamps(disk, f, id);
    } else {
      var once := LoadedDisk(disk, starts[0]);
      RestartsDoNotPostponeDeletion(once, starts[1..], f, id, cutoff);
      ARecordLeftByALoad(disk, starts[0], id);
    }
  }

  /** A record a load leaves on disk was there before, with the same times. */
  lemma ARecordLeftByALoad(disk: Disk, f: StartFaults, id: Id)
    requires id in LoadedDisk(disk, f) && LoadedDisk(disk, f)[id].record.Whole?
    ensures id in disk && disk[id].record.Whole?
    ensures LoadedDisk(disk, f)[id].record.value.updatedAt == disk[id].record.value.updatedAt
    ensures LoadedDisk(disk, f)[id].record.value.createdAt == disk[id].record.value.createdAt
  {
    if id in LoadedJobs(disk, f) {
      LoadKeepsTheTimestamps(disk, f, id);
    }
  }

  /** Starts that could read the same files show the same jobs, however many came before. */
  lemma {:induction false} RestartsShowTheSameJobs(disk: Disk, starts: seq<StartFaults>, f: StartFaults)
    requires forall k :: 0 <= k < |starts| ==> SeeTheSame(starts[k], f)
    ensures LoadedJobs(Restarted(disk, starts), f) == LoadedJobs(disk, f)
    decreases |starts|
  {
    if starts != [] {
      RestartsShowTheSameJobs(LoadedDisk(disk, starts[0]), starts[1..], f);
      ReloadIsIdempotent(disk, starts[0], f);
      SightDecides(disk, starts[0], f);
    }
  }

  lemma SightDecides(disk: Disk, f: StartFaults, g: StartFaults)
    requires SeeTheSame(f, g)
    ensures LoadedJobs(disk, f) == LoadedJobs(disk, g)
  {
  }

  /** A swept job is not seen again by any start, and a job the sweep kept is seen as before. */
  lemma SweptJobsStayGone(jobs: map<Id, Job>, disk: Disk, cutoff: Time, removal: Id -> Removal, f: StartFaults)
    ensures
      var expired := ExpiredIds(jobs, cutoff);
      var after := LoadedJobs(DiskAfterSweep(disk, expired, removal), f);
      && (forall id :: id in expired && removal(id).Removed? ==> id !in after)
      && (forall id :: id !in expired ==> (id in after <==> id in LoadedJobs(disk, f)))
      && (forall id :: id !in expired && id in after ==> after[id] == LoadedJobs(disk, f)[id])
  {
  }

  /** Whatever goes wrong while a record is written, the next start finds the old or the new record, never less. */
  lemma AWriteLosesNoJob(disk: Disk, id: Id, rec: Record, fault: PersistFault, f: StartFaults)
    requires f.sight(id).readsRecord && rec.id == id
    ensures
      var after := LoadedJobs(PutDir(disk, id, Persisted(DirOf(disk, id), rec, fault).0), f);
      && (fault.NoFault? ==> id in after && after[id].record == Revived(rec))
      && (!fault.NoFault? ==> (id in after <==> id in LoadedJobs(disk, f)))
      && (!fault.NoFault? && id in after ==> after[id] == LoadedJobs(disk, f)[id])
      && (forall other :: other != id ==> (other in after <==> other in LoadedJobs(disk, f)))
  {
  }

  /** A start keeps a job whose whole record is on disk exactly when it can read it; unread, its directory is removed
      with the upload and the result it holds, removal permitting. */
  lemma AStartKeepsARecordIff(disk: Disk, f: StartFaults, id: Id)
    requires id in disk && disk[id].record.Whole? && disk[id].record.value.id == id
    ensures id in LoadedJobs(disk, f) <==> f.sight(id).readsRecord
    ensures id !in LoadedDisk(disk, f) <==> !f.sight(id).readsRecord && f.removal(id).Removed?
  {
    if WasInterrupted(disk[id].record.value) {
      assert Persisted(Some(disk[id]), Revived(disk[id].record.value), f.persist(id)).0.Some?;
    }
  }

  /** A concrete start that loses an accepted job and its upload. */
  lemma AnUnreadRecordIsRemovedWithItsUpload(id: Id, rec: Record, upload: Bytes)
    requires rec.id == id
    ensures
      var disk: Disk := map[id := Dir(Whole(rec), Absent, Whole(upload), Absent)];
      var f := StartFaults(_ => Sight(false, true, true), _ => NoFault, _ => Removed);
      id !in LoadedJobs(disk, f) && LoadedDisk(disk, f) == map[]
  {
  }
}
