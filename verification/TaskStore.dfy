/**
 The task zip store and its handlers as the program runs them: a directory and
 a table updated one durable sub-step at a time.  The ghost field `journal`
 lists the sub-steps in the order they were taken, so that what is proved of
 `Program` at every crash point is about these methods.
 */
module TaskStore {
  import opened Options
  import opened ControlPlane
  import opened TaskZips

  datatype Outcome = Defined(id: TaskId, existed: bool) | BadZip | NoSuchTask | ShaTaken

  class Tasks {
    var disk: map<FileName, Bytes>
    var rows: map<TaskId, Sha>
    var nextId: TaskId
    ghost var journal: seq<Op>

    constructor ()
      ensures View() == Store(map[], map[], 1) && journal == [] && Safe(View())
    {
      disk, rows, nextId, journal := map[], map[], 1, [];
    }

    ghost function View(): Store
      reads this
    {
      Store(disk, rows, nextId)
    }

    /** These sub-steps were taken, in this order, and nothing else was. */
    twostate predicate Took(ops: seq<Op>)
      reads this
    {
      journal == old(journal) + ops && View() == ExecAll(old(View()), ops)
    }

    /** Write a temporary sibling, then rename it over the final name. */
    method WriteZipAtomically(sha: Sha, zip: Bytes)
      requires sha == Sha(zip)
      modifies this`disk, this`journal
      ensures Took([WriteTmp(zip), Publish(sha)])
    {
      disk := disk[Tmp(sha) := zip];
      disk := disk[Zip(sha) := disk[Tmp(sha)]] - {Tmp(sha)};
      journal := journal + [WriteTmp(zip), Publish(sha)];
      ExecShort(old(View()), WriteTmp(zip), Publish(sha));
    }

    /** `valid` is the verdict of the archive and specification checks. */
    method IngestZip(zip: Bytes, valid: bool) returns (sha: Option<Sha>)
      modifies this`disk, this`journal
      ensures sha == if valid then Some(Sha(zip)) else None
      ensures !valid || Zip(Sha(zip)) in old(disk) ==> disk == old(disk)
      ensures Took(if valid then IngestOps(old(View()), zip) else [])
    {
      if !valid {
        return None;
      }
      var digest := Sha(zip);
      if Zip(digest) !in disk {
        WriteZipAtomically(digest, zip);
      }
      sha := Some(digest);
    }

    method DeleteZip(sha: Sha)
      modifies this`disk, this`journal
      ensures Took([Unlink(sha)])
    {
      disk := disk - {Zip(sha)};
      journal := journal + [Unlink(sha)];
      ExecShort(old(View()), Unlink(sha), Unlink(sha));
    }

    /** The definition with this fingerprint, if any. */
    method BySha(sha: Sha) returns (found: Option<TaskId>)
      ensures found.None? ==> sha !in rows.Values
      ensures found.Some? ==> found.value in rows && rows[found.value] == sha
    {
      if sha in rows.Values {
        var id :| id in rows && rows[id] == sha;
        return Some(id);
      }
      found := None;
    }

    method UploadTask(zip: Bytes, valid: bool) returns (out: Outcome)
      requires Safe(View())
      modifies this
      ensures Safe(View())
      ensures Took(Program(old(View()), UploadZip(zip, valid)))
      ensures !valid <==> out == BadZip
      ensures !valid ==> disk == old(disk)
      ensures rows == if !valid || Sha(zip) in old(rows).Values then old(rows) else old(rows)[old(nextId) := Sha(zip)]
      ensures valid ==> Zip(Sha(zip)) in disk && disk[Zip(Sha(zip))] == zip
      ensures valid ==> out.Defined? && out.id in rows && rows[out.id] == Sha(zip) &&
                        (out.existed <==> Sha(zip) in old(rows).Values)
    {
      FinishedIsSafe(View(), UploadZip(zip, valid));
      hide ExecAll;
      var sha := IngestZip(zip, valid);
      if sha == None {
        return BadZip;
      }
      IngestPublishes(old(View()), zip);
      label ingested:
      var existing := BySha(sha.value);
      if existing.Some? {
        return Defined(existing.value, true);
      }
      var id := nextId;
      rows := rows[id := sha.value];
      nextId := nextId + 1;
      journal := journal + [Insert(sha.value)];
      ExecShort(old@ingested(View()), Insert(sha.value), Insert(sha.value));
      ExecConcat(old(View()), IngestOps(old(View()), zip), [Insert(sha.value)]);
      out := Defined(id, false);
    }

    method UpdateTask(id: TaskId, zip: Bytes, valid: bool) returns (out: Outcome)
      requires Safe(View())
      modifies this
      ensures Safe(View())
      ensures Took(Program(old(View()), UpdateZip(id, zip, valid)))
      ensures rows == if out == Defined(id, false) then old(rows)[id := Sha(zip)] else old(rows)
      ensures out == Defined(id, false) ==>
                Zip(Sha(zip)) in disk && disk[Zip(Sha(zip))] == zip && Zip(old(rows)[id]) !in disk
      ensures forall f | f in old(disk) && f.Zip? && (out == Defined(id, false) ==> f.sha != old(rows)[id]) ::
                f in disk && disk[f] == old(disk)[f]
      ensures out == if id !in old(rows) then NoSuchTask
                     else if !valid then BadZip
                     else if exists k | k in old(rows) :: k != id && old(rows)[k] == Sha(zip) then ShaTaken
                     else Defined(id, old(rows)[id] == Sha(zip))
    {
      FinishedIsSafe(View(), UpdateZip(id, zip, valid));
      hide ExecAll;
      if id !in rows {
        return NoSuchTask;
      }
      var seen := rows[id];
      var sha := IngestZip(zip, valid);
      if sha == None {
        return BadZip;
      }
      IngestPublishes(old(View()), zip);
      ExecConcat(old(View()), IngestOps(old(View()), zip), CommitOps(View(), id, seen, zip));
      out := CommitUpdate(id, seen, sha.value, zip);
    }

    /**
     The update's second half: `seen` is the fingerprint its first half read.  The
     fingerprint column is UNIQUE.
     */
    method CommitUpdate(id: TaskId, seen: Sha, sha: Sha, zip: Bytes) returns (out: Outcome)
      requires sha == Sha(zip)
      requires forall a, b | a in rows && b in rows && a != b :: rows[a] != rows[b]
      modifies this`rows, this`disk, this`journal
      ensures Took(CommitOps(old(View()), id, seen, zip))
      ensures out == if sha == seen then Defined(id, true)
                     else if exists k | k in old(rows) :: k != id && old(rows)[k] == sha then ShaTaken
                     else if id !in old(rows) then NoSuchTask
                     else Defined(id, false)
      ensures rows == if out == Defined(id, false) then old(rows)[id := sha] else old(rows)
      ensures disk == if out == Defined(id, false) then old(disk) - {Zip(seen)} else old(disk)
    {
      if sha == seen {
        return Defined(id, true);
      }
      var holder := BySha(sha);
      if holder.Some? && holder.value != id {
        return ShaTaken;
      }
      if id !in rows {
        return NoSuchTask;
      }
      rows := rows[id := sha];
      journal := journal + [SetSha(id, sha)];
      DeleteZip(seen);
      ExecShort(old(View()), SetSha(id, sha), Unlink(seen));
      out := Defined(id, false);
    }

    method DeleteTask(id: TaskId) returns (out: Outcome)
      requires Safe(View())
      modifies this
      ensures Safe(View())
      ensures Took(Program(old(View()), RemoveTask(id)))
      ensures out == if id in old(rows) then Defined(id, true) else NoSuchTask
      ensures rows == old(rows) - {id}
      ensures disk == if id in old(rows) then old(disk) - {Zip(old(rows)[id])} else old(disk)
    {
      FinishedIsSafe(View(), RemoveTask(id));
      if id !in rows {
        return NoSuchTask;
      }
      var sha := rows[id];
      rows := rows - {id};
      journal := journal + [DropRow(id)];
      DeleteZip(sha);
      ExecShort(old(View()), DropRow(id), Unlink(sha));
      out := Defined(id, true);
    }
  }
}
