/**
 The control plane as it runs: the database's tables and the file store's trees
 are fields updated in place.  Every method is proved against the step function
 of the model, so what is proved of steps and runs holds of these methods.
 */
module Backend {
  import opened Options
  import opened ControlPlane
  import opened Sets

  /** SQL's and Python's "if it is not None". */
  function OrElse<T>(value: Option<T>, otherwise: Option<T>): Option<T> {
    if value.Some? then value else otherwise
  }

  datatype ApplyResult = Missing | Raised | Ignored | AppliedNow

  /** Some pending row is preceded by no other: the claiming SELECT has an answer. */
  lemma {:induction false} NextExists(jobs: map<JobId, Job>, ids: set<JobId>) returns (first: JobId)
    requires ids != {} && ids <= jobs.Keys
    ensures first in ids && forall k | k in ids :: !Ahead(jobs[k], jobs[first])
  {
    first :| first in ids;
    var rest := ids - {first};
    if rest != {} {
      var other: JobId := NextExists(jobs, rest);
      var best: JobId := if Ahead(jobs[other], jobs[first]) then other else first;
      forall k: JobId | k in ids ensures !Ahead(jobs[k], jobs[best]) {
        if k in rest { assert !Ahead(jobs[k], jobs[other]); }
      }
      first := best;
    } else {
      assert ids == {first};
    }
  }

  /** `ids` lists the jobs with this status, each once, the newest first. */
  ghost predicate Lists(ids: seq<JobId>, jobs: map<JobId, Job>, status: Status) {
    && |ids| <= |jobs|
    && (forall k | 0 <= k < |ids| :: ids[k] in jobs && jobs[ids[k]].status == status)
    && (forall i, k | 0 <= i < k < |ids| :: ids[i] != ids[k])
    && (forall id | id in jobs && jobs[id].status == status :: id in ids)
    && (forall i, k | 0 <= i < k < |ids| && ids[i] in jobs && ids[k] in jobs ::
          jobs[ids[i]].createdAt >= jobs[ids[k]].createdAt)
  }

  /** `ids` is the listing as far as it has got; the jobs in `rest` come after it. */
  ghost predicate ListedByAge(ids: seq<JobId>, rest: set<JobId>, jobs: map<JobId, Job>, status: Status) {
    && |ids| + |rest| <= |jobs| && rest <= jobs.Keys
    && (forall k | 0 <= k < |ids| :: ids[k] in jobs && jobs[ids[k]].status == status && ids[k] !in rest)
    && (forall i, k | 0 <= i < k < |ids| :: ids[i] != ids[k])
    && (forall id | id in jobs && jobs[id].status == status :: id in rest || id in ids)
    && (forall id | id in rest :: jobs[id].status == status)
    && (forall i, k | 0 <= i < k < |ids| && ids[i] in jobs && ids[k] in jobs ::
          jobs[ids[i]].createdAt >= jobs[ids[k]].createdAt)
    && (forall r, i | r in rest && 0 <= i < |ids| && ids[i] in jobs :: jobs[ids[i]].createdAt >= jobs[r].createdAt)
  }

  lemma ByAgeOneMore(ids: seq<JobId>, rest: set<JobId>, jobs: map<JobId, Job>, status: Status, id: JobId)
    requires ListedByAge(ids, rest, jobs, status) && id in rest
    requires forall k | k in rest :: jobs[k].createdAt <= jobs[id].createdAt
    ensures ListedByAge(ids + [id], rest - {id}, jobs, status)
  {
  }

  lemma {:induction false} NewestExists(jobs: map<JobId, Job>, ids: set<JobId>) returns (newest: JobId)
    requires ids != {} && ids <= jobs.Keys
    ensures newest in ids && forall k | k in ids :: jobs[k].createdAt <= jobs[newest].createdAt
  {
    newest :| newest in ids;
    var rest := ids - {newest};
    if rest != {} {
      var other: JobId := NewestExists(jobs, rest);
      assert forall k | k in ids :: k in rest || k == newest;
      if jobs[other].createdAt > jobs[newest].createdAt { newest := other; }
    } else {
      assert ids == {newest};
    }
  }

  /** `ids` is the listing as far as it has got; `rest` is still to be listed. */
  ghost predicate Listed(jobs: map<JobId, Job>, ids: seq<JobId>, rest: set<JobId>) {
    && rest !! Elems(ids) && rest + Elems(ids) == Queued(jobs)
    && (forall i, k | 0 <= i < k < |ids| :: ids[i] != ids[k])
    && (forall i, k | 0 <= i < k < |ids| && ids[i] in jobs && ids[k] in jobs :: !Ahead(jobs[ids[k]], jobs[ids[i]]))
    && (forall r, i | r in rest && 0 <= i < |ids| && r in jobs && ids[i] in jobs :: !Ahead(jobs[r], jobs[ids[i]]))
  }

  lemma ListedOneMore(jobs: map<JobId, Job>, ids: seq<JobId>, rest: set<JobId>, first: JobId)
    requires Listed(jobs, ids, rest) && first in rest && rest <= jobs.Keys
    requires forall k | k in rest :: !Ahead(jobs[k], jobs[first])
    ensures Listed(jobs, ids + [first], rest - {first})
  {
    ElemsOneMore(ids, first);
  }

  /** The order of the listing, column by column. */
  lemma ListingMeans(jobs: map<JobId, Job>, ids: seq<JobId>)
    requires IsListing(jobs, ids)
    ensures forall i | 0 <= i < |ids| :: ids[i] in jobs && jobs[ids[i]].status == Pending
    ensures forall i, k | 0 <= i < k < |ids| ::
              && jobs[ids[i]].priority >= jobs[ids[k]].priority
              && (jobs[ids[i]].priority == jobs[ids[k]].priority ==> jobs[ids[i]].createdAt <= jobs[ids[k]].createdAt)
  {
    assert forall i | 0 <= i < |ids| :: ids[i] in Elems(ids);
    assert forall i | 0 <= i < |ids| :: ids[i] in Queued(jobs);
  }

  class Database {
    var jobs: map<JobId, Job>
    var nextJobId: JobId
    var chunkSeqs: map<JobId, map<string, int>>
    var tasks: map<TaskId, TaskDef>

    constructor ()
      ensures jobs == map[] && nextJobId == 1 && chunkSeqs == map[] && tasks == map[]
    {
      jobs, nextJobId, chunkSeqs, tasks := map[], 1, map[], map[];
    }

    method GetJobsByStatus(status: Status) returns (ids: seq<JobId>)
      ensures Lists(ids, jobs, status)
    {
      ids := [];
      var rest := set id | id in jobs && jobs[id].status == status;
      SubsetIsSmaller(rest, jobs.Keys);
      while rest != {}
        invariant ListedByAge(ids, rest, jobs, status)
        decreases |rest|
      {
        ghost var newest := NewestExists(jobs, rest);
        var id :| id in rest && forall k | k in rest :: jobs[k].createdAt <= jobs[id].createdAt;
        ByAgeOneMore(ids, rest, jobs, status, id);
        rest := rest - {id};
        ids := ids + [id];
      }
    }

    method GetPendingJobsOrdered() returns (ids: seq<JobId>)
      ensures IsListing(jobs, ids)
      ensures forall i | 0 <= i < |ids| :: ids[i] in jobs && jobs[ids[i]].status == Pending
      ensures forall i, k | 0 <= i < k < |ids| ::
                && jobs[ids[i]].priority >= jobs[ids[k]].priority
                && (jobs[ids[i]].priority == jobs[ids[k]].priority ==>
                      jobs[ids[i]].createdAt <= jobs[ids[k]].createdAt)
    {
      ids := [];
      var rest := Queued(jobs);
      while rest != {}
        invariant Listed(jobs, ids, rest)
        decreases |rest|
      {
        ghost var any := NextExists(jobs, rest);
        var first :| first in rest && forall k | k in rest :: !Ahead(jobs[k], jobs[first]);
        ListedOneMore(jobs, ids, rest, first);
        rest := rest - {first};
        ids := ids + [first];
      }
      ListingMeans(jobs, ids);
    }

    method CreateJob(crateName: string, version: string, taskId: TaskId, snapshot: TaskDef, now: Time)
      returns (id: JobId)
      modifies this
      ensures id == old(nextJobId) && nextJobId == id + 1
      ensures jobs == old(jobs)[id := NewRow(Create(crateName, version, taskId, snapshot), now)]
      ensures chunkSeqs == old(chunkSeqs) && tasks == old(tasks)
      ensures id in jobs
      ensures var j := jobs[id];
              && j.crateName == crateName && j.version == version && j.taskId == taskId && j.snapshot == snapshot
              && j.status == Pending && j.createdAt == now && j.priority == 0 && j.attempt == 0 && j.lastSyncSeq == 0
              && j.startedAt.None? && j.finishedAt.None? && j.exitCode.None? && j.errorMessage.None?
              && j.message.None? && j.runnerId.None? && j.leaseToken.None? && j.leaseExpiresAt.None?
              && j.lastStateSyncAt.None?
    {
      id := nextJobId;
      jobs := jobs[id := Job(crateName, version, taskId, snapshot, Pending, now, None, None,
                             None, None, None, 0, None, None, None, 0, 0, None)];
      nextJobId := nextJobId + 1;
    }

    /** `pick` is the row the SELECT returned; on ties it may be any of the first. */
    method ClaimPendingJob(runner: string, token: Token, now: Time, ttl: int) returns (pick: Option<JobId>)
      modifies this`jobs
      ensures pick.None? <==> Queued(old(jobs)) == {}
      ensures pick.None? ==> jobs == old(jobs)
      ensures pick.Some? ==>
                && pick.value in old(jobs) && pick.value in jobs && old(jobs)[pick.value].status == Pending
                && (forall k | k in old(jobs) && old(jobs)[k].status == Pending ::
                      var best := old(jobs)[pick.value];
                      && best.priority >= old(jobs)[k].priority
                      && (best.priority == old(jobs)[k].priority ==> best.createdAt <= old(jobs)[k].createdAt))
                && (var j, def := jobs[pick.value], Lookup(tasks, old(jobs)[pick.value].taskId);
                    && j.status == Running && j.runnerId == Some(runner) && j.leaseToken == Some(token)
                    && j.leaseExpiresAt == Some(now + ttl) && j.startedAt == Some(now)
                    && j.lastStateSyncAt == Some(now) && j.lastSyncSeq == 0
                    && j.finishedAt.None? && j.exitCode.None? && j.errorMessage.None? && j.message.None?
                    && j.snapshot == if def.Some? && def.value.sha != old(jobs)[pick.value].snapshot.sha
                                     then def.value else old(jobs)[pick.value].snapshot)
      ensures pick.Some? ==>
                && IsNext(old(jobs), pick.value)
                && var j := old(jobs)[pick.value];
                   jobs == old(jobs)[pick.value := ClaimRow(j, Lookup(tasks, j.taskId), runner, token, now, ttl)]
    {
      if Queued(jobs) == {} { return None; }
      ghost var first := NextExists(jobs, Queued(jobs));
      assert IsNext(jobs, first);
      var id :| id in jobs && IsNext(jobs, id);
      var j := jobs[id];
      var def := Lookup(tasks, j.taskId);
      if def.Some? && def.value.sha != j.snapshot.sha {
        j := j.(snapshot := def.value);
      }
      j := j.(status := Running, runnerId := Some(runner), leaseToken := Some(token),
              leaseExpiresAt := Some(now + ttl), startedAt := Some(now), finishedAt := None,
              exitCode := None, errorMessage := None, message := None,
              lastSyncSeq := 0, lastStateSyncAt := Some(now));
      jobs := jobs[id := j];
      IsNextMeans(old(jobs), id);
      pick := Some(id);
    }

    method ApplyJobSync(id: JobId, now: Time, seqNo: int, status: Option<Status>,
                        exitCode: Option<int>, message: Option<string>) returns (r: ApplyResult)
      modifies this`jobs
      ensures r.Missing? <==> id !in old(jobs)
      ensures id in old(jobs) ==>
                match SyncRow(old(jobs)[id], now, seqNo, status, exitCode, message)
                case Skipped => r.Ignored? && jobs == old(jobs)
                case BadStatus => r.Raised? && jobs == old(jobs)
                case Applied(row) => r.AppliedNow? && jobs == old(jobs)[id := row]
      ensures r.Missing? ==> jobs == old(jobs)
      ensures r.AppliedNow? <==>
                && id in old(jobs) && seqNo > old(jobs)[id].lastSyncSeq && status.Some?
                && !(old(jobs)[id].status !in {Pending, Running} && status == Some(Running))
      ensures r.Raised? <==> id in old(jobs) && seqNo > old(jobs)[id].lastSyncSeq && status.None?
      ensures r.AppliedNow? ==>
                && id in jobs
                && var before, after := old(jobs)[id], jobs[id];
                   && Some(after.status) == status && after.lastSyncSeq == seqNo && after.lastStateSyncAt == Some(now)
                   && after.finishedAt == (if status !in {Some(Pending), Some(Running)} then Some(now)
                                           else before.finishedAt)
                   && after.startedAt == (if status == Some(Running) && before.startedAt.None? then Some(now)
                                          else before.startedAt)
                   && after.exitCode == (if exitCode.Some? then exitCode else before.exitCode)
                   && after.message == (if message.Some? then message else before.message)
    {
      if id !in jobs { return Missing; }
      var j := jobs[id];
      if seqNo <= j.lastSyncSeq { return Ignored; }
      if status.None? { return Raised; }
      var newStatus := status.value;
      if Terminal(j.status) && newStatus.Running? { return Ignored; }
      j := j.(lastSyncSeq := seqNo, lastStateSyncAt := Some(now), status := newStatus);
      if newStatus.Running? {
        if j.startedAt.None? { j := j.(startedAt := Some(now)); }
      } else if Terminal(newStatus) {
        j := j.(finishedAt := Some(now));
      }
      if exitCode.Some? { j := j.(exitCode := exitCode); }
      if message.Some? { j := j.(message := message); }
      jobs := jobs[id := j];
      r := AppliedNow;
    }

    method RecordJobFileChunk(id: JobId, path: string, chunkSeq: int) returns (append: bool)
      modifies this`chunkSeqs
      ensures append <==> (Cell(old(chunkSeqs), id, path).None? || chunkSeq > Cell(old(chunkSeqs), id, path).value)
      ensures chunkSeqs == if append then old(chunkSeqs)[id := Of(old(chunkSeqs), id)[path := chunkSeq]]
                           else old(chunkSeqs)
    {
      var row := Cell(chunkSeqs, id, path);
      if row.Some? && chunkSeq <= row.value { return false; }
      chunkSeqs := chunkSeqs[id := Of(chunkSeqs, id)[path := chunkSeq]];
      append := true;
    }

    method ResetJobFileChunkSequences(id: JobId)
      modifies this`chunkSeqs
      ensures chunkSeqs == old(chunkSeqs) - {id}
    {
      chunkSeqs := chunkSeqs - {id};
    }

    method ExtendRunnerJobLeases(runner: string, now: Time, ttl: int)
      modifies this`jobs
      ensures jobs == RenewAll(old(jobs), runner, now + ttl)
      ensures jobs.Keys == old(jobs).Keys
      ensures forall id | id in jobs ::
                var j := old(jobs)[id];
                jobs[id] == if j.status == Running && j.runnerId == Some(runner)
                            then j.(leaseExpiresAt := Some(now + ttl)) else j
    {
      jobs := map id | id in jobs ::
        if jobs[id].status.Running? && jobs[id].runnerId == Some(runner)
        then jobs[id].(leaseExpiresAt := Some(now + ttl)) else jobs[id];
    }

    method ReconcileExpiredLeases(now: Time) returns (count: nat)
      modifies this`jobs
      ensures jobs == ExpireAll(old(jobs), now)
      ensures jobs.Keys == old(jobs).Keys
      ensures forall id | id in jobs ::
                var j := old(jobs)[id];
                jobs[id] == if j.status == Running && j.leaseExpiresAt.Some? && j.leaseExpiresAt.value <= now
                            then j.(status := Pending, runnerId := None, leaseToken := None, leaseExpiresAt := None,
                                    attempt := j.attempt + 1)
                            else j
      ensures count == |set id | id in old(jobs) && old(jobs)[id].status == Running &&
                                 old(jobs)[id].leaseExpiresAt.Some? && old(jobs)[id].leaseExpiresAt.value <= now|
    {
      var matching := set id | id in jobs && jobs[id].status == Running &&
                               jobs[id].leaseExpiresAt.Some? && jobs[id].leaseExpiresAt.value <= now;
      jobs := map id | id in jobs ::
        if id in matching
        then jobs[id].(status := Pending, runnerId := None, leaseToken := None, leaseExpiresAt := None,
                       attempt := jobs[id].attempt + 1)
        else jobs[id];
      count := |matching|;
    }

    method ReconcileStaleJobs(now: Time, interval: int) returns (count: nat)
      modifies this`jobs
      ensures jobs == StaleAll(old(jobs), now, interval)
      ensures jobs.Keys == old(jobs).Keys
      ensures forall id | id in jobs ::
                var j := old(jobs)[id];
                jobs[id] == if j.status == Running && j.lastStateSyncAt.Some? &&
                               j.lastStateSyncAt.value + interval <= now
                            then j.(status := RunnerFailed, finishedAt := Some(now), lastStateSyncAt := None,
                                    errorMessage := if j.errorMessage.Some? then j.errorMessage
                                                    else Some("Runner stopped sending state sync updates"))
                            else j
      ensures count == |set id | id in old(jobs) && old(jobs)[id].status == Running &&
                                 old(jobs)[id].lastStateSyncAt.Some? &&
                                 old(jobs)[id].lastStateSyncAt.value + interval <= now|
    {
      var matching := set id | id in jobs && jobs[id].status == Running &&
                               jobs[id].lastStateSyncAt.Some? && jobs[id].lastStateSyncAt.value + interval <= now;
      jobs := map id | id in jobs ::
        if id in matching
        then jobs[id].(status := RunnerFailed, finishedAt := Some(now), lastStateSyncAt := None,
                       errorMessage := if jobs[id].errorMessage.Some? then jobs[id].errorMessage
                                       else Some(STALE_MESSAGE))
        else jobs[id];
      count := |matching|;
    }

    /** Columns whose argument is None keep their value. */
    method UpdateJobStatus(id: JobId, status: Status, startedAt: Option<Time>, finishedAt: Option<Time>,
                           exitCode: Option<int>, error: Option<string>, message: Option<string>)
      modifies this`jobs
      ensures jobs.Keys == old(jobs).Keys
      ensures forall k | k in jobs && k != id :: jobs[k] == old(jobs)[k]
      ensures id in jobs ==>
                var j := old(jobs)[id];
                jobs[id] == j.(status := status,
                               startedAt := OrElse(startedAt, j.startedAt),
                               finishedAt := OrElse(finishedAt, j.finishedAt),
                               exitCode := OrElse(exitCode, j.exitCode),
                               errorMessage := OrElse(error, j.errorMessage),
                               message := OrElse(message, j.message))
    {
      if id in jobs {
        var j := jobs[id].(status := status);
        if startedAt.Some? { j := j.(startedAt := startedAt); }
        if finishedAt.Some? { j := j.(finishedAt := finishedAt); }
        if exitCode.Some? { j := j.(exitCode := exitCode); }
        if error.Some? { j := j.(errorMessage := error); }
        if message.Some? { j := j.(message := message); }
        jobs := jobs[id := j];
      }
    }

    /** The call the handlers and the scheduler make. */
    method EndJob(id: JobId, status: Status, finishedAt: Time, error: Option<string>)
      modifies this`jobs
      ensures jobs == if id in old(jobs) then old(jobs)[id := EndRow(old(jobs)[id], status, finishedAt, error)]
                      else old(jobs)
      ensures id in jobs ==>
                jobs[id] == old(jobs)[id].(status := status, finishedAt := Some(finishedAt),
                                           errorMessage := OrElse(error, old(jobs)[id].errorMessage))
    {
      UpdateJobStatus(id, status, None, Some(finishedAt), None, error, None);
    }

    method ResetJobForRetry(id: JobId)
      modifies this`jobs, this`chunkSeqs
      ensures jobs == if id in old(jobs) then old(jobs)[id := RetryRow(old(jobs)[id])] else old(jobs)
      ensures id in jobs ==>
                jobs[id] == old(jobs)[id].(
                  status := Pending, startedAt := None, finishedAt := None, exitCode := None, errorMessage := None,
                  message := None, runnerId := None, leaseToken := None, leaseExpiresAt := None, lastSyncSeq := 0,
                  lastStateSyncAt := None)
      ensures chunkSeqs == old(chunkSeqs) - {id}
    {
      if id in jobs {
        jobs := jobs[id := jobs[id].(
          status := Pending, startedAt := None, finishedAt := None, exitCode := None,
          errorMessage := None, message := None, runnerId := None, leaseToken := None,
          leaseExpiresAt := None, lastSyncSeq := 0, lastStateSyncAt := None)];
      }
      chunkSeqs := chunkSeqs - {id};
    }

    method DeleteJob(id: JobId) returns (deleted: bool)
      modifies this`jobs
      ensures jobs == old(jobs) - {id} && deleted == (id in old(jobs))
    {
      deleted := id in jobs;
      jobs := jobs - {id};
    }
  }

  datatype SaveResult = Written(size: nat) | Oversized | StreamFailed

  const STREAM_CHUNK := 1048576

  /** The copy gets to its n-th read: the pieces before it are not empty and fit. */
  predicate ReadIsReached(n: nat, size: nat, limit: nat) {
    n > 0 ==>
      && (n - 1) * STREAM_CHUNK < size
      && Copied(n, size) <= limit
  }

  /** How much of the stream the first n pieces hold. */
  function Copied(n: nat, size: nat): nat {
    if n * STREAM_CHUNK <= size then n * STREAM_CHUNK else size
  }

  lemma FirstReadIsReached(size: nat, limit: nat)
    ensures ReadIsReached(0, size, limit) && Copied(0, size) == 0
  {
  }

  lemma OneMorePiece(n: nat, size: nat, limit: nat)
    requires ReadIsReached(n, size, limit)
    ensures Copied(n, size) <= Copied(n + 1, size) <= size
    ensures var more := Copied(n, size) + STREAM_CHUNK; Copied(n + 1, size) == if more < size then more else size
    ensures Copied(n, size) < size && Copied(n + 1, size) <= limit ==> ReadIsReached(n + 1, size, limit)
    ensures Copied(n, size) == size || Copied(n + 1, size) > limit ==>
              forall k | k > n :: !ReadIsReached(k, size, limit)
  {
    if Copied(n, size) == size || Copied(n + 1, size) > limit {
      forall k | k > n ensures !ReadIsReached(k, size, limit) {
        assert k * STREAM_CHUNK >= (n + 1) * STREAM_CHUNK;
      }
    }
  }

  class JobFileStore {
    const fullModeMaxBytes: nat
    const artifactMaxBytes: nat
    var files: map<JobId, map<FileKey, Bytes>>
    var artifacts: map<JobId, map<FileKey, Bytes>>

    constructor (fullMax: nat, artifactMax: nat)
      ensures fullModeMaxBytes == fullMax && artifactMaxBytes == artifactMax
      ensures files == map[] && artifacts == map[]
    {
      fullModeMaxBytes, artifactMaxBytes, files, artifacts := fullMax, artifactMax, map[], map[];
    }

    /** `opens` is the file system's verdict on opening the target. */
    method AppendFile(id: JobId, key: FileKey, content: Bytes, opens: bool) returns (ok: bool)
      modifies this`files
      ensures ok == opens
      ensures files ==
              if ok then old(files)[id := Of(old(files), id)[key := Cell(old(files), id, key).GetOr([]) + content]]
              else old(files)
    {
      if !opens { return false; }
      ok := true;
      var text := Cell(files, id, key).GetOr([]) + content;
      files := files[id := Of(files, id)[key := text]];
    }

    method WriteFull(id: JobId, key: FileKey, content: Bytes, opens: bool) returns (ok: bool)
      modifies this`files
      ensures ok == opens
      ensures !ok ==> files == old(files)
      ensures ok ==> Cell(files, id, key).Some?
      ensures ok ==>
              var kept := Cell(files, id, key).value;
              && files == old(files)[id := Of(old(files), id)[key := kept]]
              && kept == Tail(content, fullModeMaxBytes)
              && |kept| == (if |content| > fullModeMaxBytes > 0 then fullModeMaxBytes else |content|)
              && content == content[..|content| - |kept|] + kept
              && (fullModeMaxBytes > 0 ==> |kept| <= fullModeMaxBytes)
    {
      if !opens { return false; }
      ok := true;
      var data := content;
      if |data| > fullModeMaxBytes && fullModeMaxBytes > 0 {
        data := data[|data| - fullModeMaxBytes..];
      }
      files := files[id := Of(files, id)[key := data]];
    }

    /**
     Stream an upload to disk in pieces.  `failsAt` is the read that raises, if
     one does.  Nothing half-written survives; neither does an earlier artifact
     of the same path.
     */
    method SaveArtifact(id: JobId, key: FileKey, stream: Bytes, failsAt: Option<nat>) returns (r: SaveResult)
      modifies this`artifacts
      ensures r.Written? ==>
                && r.size == |stream| <= artifactMaxBytes
                && artifacts == old(artifacts)[id := Of(old(artifacts), id)[key := stream]]
      ensures !r.Written? ==> artifacts == old(artifacts)[id := Of(old(artifacts), id) - {key}]
      ensures r.StreamFailed? <==> failsAt.Some? && ReadIsReached(failsAt.value, |stream|, artifactMaxBytes)
      ensures !r.StreamFailed? ==> (r.Written? <==> |stream| <= artifactMaxBytes)
    {
      FirstReadIsReached(|stream|, artifactMaxBytes);
      hide Copied, ReadIsReached;
      var earlier := Of(artifacts, id);
      var written: Bytes := [];
      artifacts := artifacts[id := earlier[key := written]];
      var pieces, total := 0, 0;
      while true
        invariant 0 <= total <= |stream| && written == stream[..total] && total <= artifactMaxBytes
        invariant artifacts == old(artifacts)[id := earlier[key := written]]
        invariant total == Copied(pieces, |stream|) && ReadIsReached(pieces, |stream|, artifactMaxBytes)
        invariant failsAt.Some? ==> pieces <= failsAt.value
        decreases |stream| - total
      {
        if failsAt == Some(pieces) {
          artifacts := artifacts[id := earlier - {key}];
          return StreamFailed;
        }
        OneMorePiece(pieces, |stream|, artifactMaxBytes);
        var end := if total + STREAM_CHUNK < |stream| then total + STREAM_CHUNK else |stream|;
        var chunk := stream[total..end];
        pieces := pieces + 1;
        if chunk == [] {
          assert stream[..total] == stream;
          break;
        }
        if total + |chunk| > artifactMaxBytes {
          artifacts := artifacts[id := earlier - {key}];
          return Oversized;
        }
        total := total + |chunk|;
        written := written + chunk;
        artifacts := artifacts[id := earlier[key := written]];
      }
      r := Written(total);
    }

    method ClearJob(id: JobId)
      modifies this`files, this`artifacts
      ensures files == old(files) - {id} && artifacts == old(artifacts) - {id}
    {
      files, artifacts := files - {id}, artifacts - {id};
    }
  }
}
