/**
 The control plane as a transition system: the `jobs` table, the chunk-sequence
 table, the per-job stored files and one atomic step per HTTP handler, scheduler
 sweep or start-up action.  Times are integers; every step is given the clock
 reading it makes.  A lost, duplicated, delayed or reordered request is the same
 event occurring never, twice, late or out of order.
 */
module ControlPlane {
  import opened Options

  type Time = int
  type JobId = nat
  type TaskId = nat
  type Token = nat
  type Byte = b: nat | b < 256
  type Bytes = seq<Byte>
  type FileKey = seq<string>

  // ---------------------------------------------------------------- entities

  datatype Status =
    | Pending | Running
    | Completed | Failed | Cancelled | Timeout | Oom | RunnerFailed

  predicate Terminal(s: Status) {
    s.Completed? || s.Failed? || s.Cancelled? || s.Timeout? || s.Oom? || s.RunnerFailed?
  }

  datatype TaskDef = TaskDef(name: string, sha: string, spec: string)

  /** One row of `jobs`.  The three lease columns are nullable independently. */
  datatype Job = Job(
    crateName: string,
    version: string,
    taskId: TaskId,
    snapshot: TaskDef,
    status: Status,
    createdAt: Time,
    startedAt: Option<Time>,
    finishedAt: Option<Time>,
    exitCode: Option<int>,
    errorMessage: Option<string>,
    message: Option<string>,
    priority: int,
    runnerId: Option<string>,
    leaseToken: Option<Token>,
    leaseExpiresAt: Option<Time>,
    attempt: nat,
    lastSyncSeq: int,
    lastStateSyncAt: Option<Time>)

  /** The durable state.  `nextId` is the AUTOINCREMENT counter: ids are never reused. */
  datatype Server = Server(
    jobs: map<JobId, Job>,
    nextId: JobId,
    chunks: map<JobId, map<string, int>>,
    pushed: map<JobId, map<FileKey, Bytes>>,
    artifacts: map<JobId, map<FileKey, Bytes>>,
    defs: map<TaskId, TaskDef>)

  datatype Config = Config(
    leaseTtl: int,
    maxSyncInterval: int,
    claimLimit: nat,
    fullMaxBytes: nat,
    artifactMaxBytes: nat)

  datatype Mode = Append | Full

  /**
   How a claim's or retry's cleanup ends.  When the process dies in it, the row is
   committed already, only part of what was stored is gone, and no reply is read.
   */
  datatype Cut = Whole | Died(chunksGone: bool, filesGone: set<FileKey>, artifactsGone: set<FileKey>)

  /** A lease as the runner was told of it. */
  datatype Grant = Grant(job: JobId, runner: string, token: Token)

  /**
   The file system's part: `opens` says whether a push's target file can be opened
   (it cannot below a stored file, say), `fails` whether an upload's copy breaks off.
   */
  datatype Event =
    | Create(crateName: string, version: string, taskId: TaskId, snapshot: TaskDef)
    | Claim(runner: string, token: Token, held: nat, maxJobs: nat, pick: JobId, cut: Cut)
    | Sync(runner: string, job: JobId, token: Token, seqNo: int,
           status: Option<Status>, exitCode: Option<int>, message: Option<string>)
    | Push(runner: string, job: JobId, token: Token, path: string, mode: Mode,
           content: Bytes, chunkSeq: Option<int>, opens: bool)
    | Upload(runner: string, job: JobId, token: Token, path: string, content: Bytes, fails: bool)
    | Heartbeat(runner: string)
    | ExpireLeases
    | ReconcileStale
    | Cancel(job: JobId)
    | Retry(job: JobId, cut: Cut)
    | Delete(job: JobId)
    | SetPriority(job: JobId, priority: int)
    | Interrupt(job: JobId, reason: string)
    | PutTask(taskId: TaskId, def: TaskDef)
    | DropTask(taskId: TaskId)

  datatype Reply =
    | Done
    | Created(job: JobId)
    | Claimed(job: JobId, token: Token, expiresAt: Time, sha: string)
    | Synced(applied: bool, lastSyncSeq: int)
    | FileApplied(applied: bool)
    | Saved(size: nat)
    | NoContent
    | BadRequest
    | NotFound
    | Conflict
    | TooLarge
    | Unprocessable
    | ServerError

  datatype Outcome = Outcome(server: Server, reply: Reply)

  // ---------------------------------------------------------------- file paths

  /** The first path component of `path`, up to a slash. */
  function Head(path: string): (r: string)
    ensures |r| <= |path|
  {
    if path == "" || path[0] == '/' then "" else [path[0]] + Head(path[1..])
  }

  /** The components pathlib keeps: empty ones and "." disappear. */
  function Parts(path: string): FileKey
    decreases |path|
  {
    if path == "" then []
    else if path[0] == '/' then Parts(path[1..])
    else
      var h := Head(path);
      (if h == "." then [] else [h]) + Parts(path[|h|..])
  }

  predicate SafePath(path: string) {
    path != "" && path[0] != '/' && ".." !in Parts(path) && Parts(path) != []
  }

  // ---------------------------------------------------------------- row updates

  function NewRow(e: Event, now: Time): Job
    requires e.Create?
  {
    Job(e.crateName, e.version, e.taskId, e.snapshot, Pending, now, None, None,
        None, None, None, 0, None, None, None, 0, 0, None)
  }

  /** A claim refreshes the snapshot from the current definition, if there is one. */
  function ClaimRow(j: Job, def: Option<TaskDef>, runner: string, token: Token, now: Time, ttl: int): Job {
    j.(snapshot := if def.Some? && def.value.sha != j.snapshot.sha then def.value else j.snapshot,
       status := Running, runnerId := Some(runner), leaseToken := Some(token),
       leaseExpiresAt := Some(now + ttl), startedAt := Some(now), finishedAt := None,
       exitCode := None, errorMessage := None, message := None,
       lastSyncSeq := 0, lastStateSyncAt := Some(now))
  }

  datatype SyncResult = Skipped | BadStatus | Applied(row: Job)

  /** `status` is None when the request's string names no status. */
  function SyncRow(j: Job, now: Time, seqNo: int, status: Option<Status>,
                   exitCode: Option<int>, message: Option<string>): SyncResult
  {
    if seqNo <= j.lastSyncSeq then Skipped
    else if status.None? then BadStatus
    else if Terminal(j.status) && status.value.Running? then Skipped
    else
      Applied(j.(lastSyncSeq := seqNo, lastStateSyncAt := Some(now), status := status.value,
                 startedAt := if status.value.Running? && j.startedAt.None? then Some(now) else j.startedAt,
                 finishedAt := if Terminal(status.value) then Some(now) else j.finishedAt,
                 exitCode := if exitCode.Some? then exitCode else j.exitCode,
                 message := if message.Some? then message else j.message))
  }

  function RenewRow(j: Job, runner: string, until: Time): Job {
    if j.status.Running? && j.runnerId == Some(runner) then j.(leaseExpiresAt := Some(until)) else j
  }

  predicate LeaseOver(j: Job, now: Time) {
    j.status.Running? && j.leaseExpiresAt.Some? && j.leaseExpiresAt.value <= now
  }

  function ExpireRow(j: Job, now: Time): Job {
    if LeaseOver(j, now) then
      j.(status := Pending, runnerId := None, leaseToken := None, leaseExpiresAt := None,
         attempt := j.attempt + 1)
    else j
  }

  predicate SyncOverdue(j: Job, now: Time, interval: int) {
    j.status.Running? && j.lastStateSyncAt.Some? && j.lastStateSyncAt.value <= now - interval
  }

  const STALE_MESSAGE := "Runner stopped sending state sync updates"

  function StaleRow(j: Job, now: Time, interval: int): Job {
    if SyncOverdue(j, now, interval) then
      j.(status := RunnerFailed, finishedAt := Some(now), lastStateSyncAt := None,
         errorMessage := if j.errorMessage.Some? then j.errorMessage else Some(STALE_MESSAGE))
    else j
  }

  /** `update_job_status` with the arguments the handlers and the scheduler pass. */
  function EndRow(j: Job, status: Status, now: Time, error: Option<string>): Job {
    j.(status := status, finishedAt := Some(now),
       errorMessage := if error.Some? then error else j.errorMessage)
  }

  function RetryRow(j: Job): Job {
    j.(status := Pending, startedAt := None, finishedAt := None, exitCode := None,
       errorMessage := None, message := None, runnerId := None, leaseToken := None,
       leaseExpiresAt := None, lastSyncSeq := 0, lastStateSyncAt := None)
  }

  // ---------------------------------------------------------------- queue order

  /** `a` is listed strictly before `b`: higher priority, then older. */
  predicate Ahead(a: Job, b: Job) {
    a.priority > b.priority || (a.priority == b.priority && a.createdAt < b.createdAt)
  }

  /** A row the claiming SELECT may return; ties are left to SQLite. */
  predicate IsNext(jobs: map<JobId, Job>, id: JobId) {
    && id in jobs && jobs[id].status.Pending?
    && forall k | k in jobs && jobs[k].status.Pending? :: !Ahead(jobs[k], jobs[id])
  }

  /** The order in terms of the columns it reads. */
  lemma IsNextMeans(jobs: map<JobId, Job>, id: JobId)
    ensures IsNext(jobs, id) <==>
              && id in jobs && jobs[id].status == Pending
              && forall k | k in jobs && jobs[k].status == Pending ::
                   && jobs[id].priority >= jobs[k].priority
                   && (jobs[id].priority == jobs[k].priority ==> jobs[id].createdAt <= jobs[k].createdAt)
  {
  }

  function Queued(jobs: map<JobId, Job>): set<JobId> {
    set id | id in jobs && jobs[id].status.Pending?
  }

  function Elems(ids: seq<JobId>): set<JobId> {
    set i | 0 <= i < |ids| :: ids[i]
  }

  /** `ids` is the answer of get_pending_jobs_ordered on `jobs`. */
  ghost predicate IsListing(jobs: map<JobId, Job>, ids: seq<JobId>) {
    && Elems(ids) == Queued(jobs)
    && (forall i, k | 0 <= i < k < |ids| :: ids[i] != ids[k])
    && (forall i, k | 0 <= i < k < |ids| && ids[i] in jobs && ids[k] in jobs :: !Ahead(jobs[ids[k]], jobs[ids[i]]))
  }

  lemma ElemsOneMore(ids: seq<JobId>, id: JobId)
    ensures Elems(ids + [id]) == Elems(ids) + {id}
  {
    var more := ids + [id];
    assert more[|ids|] == id && forall i | 0 <= i < |ids| :: more[i] == ids[i];
  }

  // ---------------------------------------------------------------- stored files

  function Lookup<K, V>(m: map<K, V>, k: K): Option<V> {
    if k in m then Some(m[k]) else None
  }

  function Of<K, V>(table: map<JobId, map<K, V>>, id: JobId): map<K, V> {
    if id in table then table[id] else map[]
  }

  function Cell<K, V>(table: map<JobId, map<K, V>>, id: JobId, k: K): Option<V> {
    Lookup(Of(table, id), k)
  }

  /** Everything stored for one job beside its row. */
  datatype Storage = Storage(chunks: map<string, int>, pushed: map<FileKey, Bytes>, artifacts: map<FileKey, Bytes>)

  const NOTHING_STORED := Storage(map[], map[], map[])

  function Stored(s: Server, id: JobId): Storage {
    Storage(Of(s.chunks, id), Of(s.pushed, id), Of(s.artifacts, id))
  }

  function Clear(s: Server, id: JobId): Server {
    s.(chunks := s.chunks - {id}, pushed := s.pushed - {id}, artifacts := s.artifacts - {id})
  }

  /** `_clear_job_files`, as far as it gets. */
  function ClearUpTo(s: Server, id: JobId, cut: Cut): Server {
    match cut
    case Whole => Clear(s, id)
    case Died(chunksGone, filesGone, artifactsGone) =>
      s.(chunks := if chunksGone then s.chunks - {id} else s.chunks,
         pushed := s.pushed[id := Of(s.pushed, id) - filesGone],
         artifacts := s.artifacts[id := Of(s.artifacts, id) - artifactsGone])
  }

  /** `data[-max:]` when the data is longer than `max`; Python's `data[-0:]` is all of it. */
  function Tail(data: Bytes, max: nat): Bytes {
    if |data| > max > 0 then data[|data| - max..] else data
  }

  predicate Fresher(s: Server, id: JobId, path: string, chunkSeq: int) {
    var last := Cell(s.chunks, id, path);
    last.None? || chunkSeq > last.value
  }

  // ---------------------------------------------------------------- handlers

  function Lease(s: Server, runner: string, id: JobId, token: Token): Reply {
    if id !in s.jobs then NotFound
    else if s.jobs[id].runnerId != Some(runner) || s.jobs[id].leaseToken != Some(token) then Conflict
    else Done
  }

  function CreateStep(s: Server, now: Time, e: Event): Outcome
    requires e.Create?
  {
    Outcome(s.(jobs := s.jobs[s.nextId := NewRow(e, now)], nextId := s.nextId + 1), Created(s.nextId))
  }

  function ClaimStep(cfg: Config, s: Server, now: Time, e: Event): Outcome
    requires e.Claim?
  {
    if e.maxJobs > cfg.claimLimit || e.held > e.maxJobs then Outcome(s, Unprocessable)
    else if e.held >= e.maxJobs || !IsNext(s.jobs, e.pick) then Outcome(s, NoContent)
    else
      var j := s.jobs[e.pick];
      var row := ClaimRow(j, Lookup(s.defs, j.taskId), e.runner, e.token, now, cfg.leaseTtl);
      Outcome(ClearUpTo(s.(jobs := s.jobs[e.pick := row]), e.pick, e.cut),
              Claimed(e.pick, e.token, now + cfg.leaseTtl, row.snapshot.sha))
  }

  function SyncStep(s: Server, now: Time, e: Event): Outcome
    requires e.Sync?
  {
    var lease := Lease(s, e.runner, e.job, e.token);
    if lease != Done then Outcome(s, lease)
    else
      var j := s.jobs[e.job];
      match SyncRow(j, now, e.seqNo, e.status, e.exitCode, e.message)
      case BadStatus => Outcome(s, ServerError)
      case Skipped => Outcome(s, Synced(false, j.lastSyncSeq))
      case Applied(row) => Outcome(s.(jobs := s.jobs[e.job := row]), Synced(true, row.lastSyncSeq))
  }

  function PushStep(cfg: Config, s: Server, e: Event): Outcome
    requires e.Push?
  {
    var lease := Lease(s, e.runner, e.job, e.token);
    if lease != Done then Outcome(s, lease)
    else if e.mode.Append? && e.chunkSeq.None? then Outcome(s, Unprocessable)
    else if !SafePath(e.path) then Outcome(s, BadRequest)
    else
      var key := Parts(e.path);
      var files := Of(s.pushed, e.job);
      if e.mode.Full? && !e.opens then Outcome(s, ServerError)
      else if e.mode.Full? then
        Outcome(s.(pushed := s.pushed[e.job := files[key := Tail(e.content, cfg.fullMaxBytes)]]), FileApplied(true))
      else if !Fresher(s, e.job, e.path, e.chunkSeq.value) then Outcome(s, FileApplied(false))
      else
        var prior := Lookup(files, key).GetOr([]);
        var taken := s.(chunks := s.chunks[e.job := Of(s.chunks, e.job)[e.path := e.chunkSeq.value]]);
        if !e.opens then Outcome(taken, ServerError)
        else Outcome(taken.(pushed := s.pushed[e.job := files[key := prior + e.content]]), FileApplied(true))
  }

  function UploadStep(cfg: Config, s: Server, e: Event): Outcome
    requires e.Upload?
  {
    var lease := Lease(s, e.runner, e.job, e.token);
    if lease != Done then Outcome(s, lease)
    else if !SafePath(e.path) then Outcome(s, BadRequest)
    else
      var key := Parts(e.path);
      var files := Of(s.artifacts, e.job);
      if e.fails || |e.content| > cfg.artifactMaxBytes then
        Outcome(s.(artifacts := s.artifacts[e.job := files - {key}]), if e.fails then ServerError else TooLarge)
      else
        Outcome(s.(artifacts := s.artifacts[e.job := files[key := e.content]]), Saved(|e.content|))
  }

  function CancelStep(s: Server, now: Time, id: JobId): Outcome {
    if id !in s.jobs then Outcome(s, NotFound)
    else if !s.jobs[id].status.Running? then Outcome(s, BadRequest)
    else Outcome(s.(jobs := s.jobs[id := EndRow(s.jobs[id], Cancelled, now, None)]), Done)
  }

  /** The chunk rows go with the row's reset, before the cleanup. */
  function RetryStep(s: Server, id: JobId, cut: Cut): Outcome {
    if id !in s.jobs then Outcome(s, NotFound)
    else if s.jobs[id].status.Running? || s.jobs[id].taskId !in s.defs then Outcome(s, BadRequest)
    else
      var reset := s.(jobs := s.jobs[id := RetryRow(s.jobs[id])], chunks := s.chunks - {id});
      Outcome(ClearUpTo(reset, id, cut), Done)
  }

  /** The row goes; its chunk rows and files stay behind under an id nobody gets again. */
  function DeleteStep(s: Server, id: JobId): Outcome {
    if id !in s.jobs then Outcome(s, NotFound)
    else if s.jobs[id].status.Running? then Outcome(s, BadRequest)
    else Outcome(s.(jobs := s.jobs - {id}), Done)
  }

  function SetPriorityStep(s: Server, id: JobId, priority: int): Outcome {
    if id !in s.jobs then Outcome(s, NotFound)
    else if !s.jobs[id].status.Pending? then Outcome(s, BadRequest)
    else Outcome(s.(jobs := s.jobs[id := s.jobs[id].(priority := priority)]), Done)
  }

  /** One iteration of the start-up recovery or shutdown cleanup loop. */
  function InterruptStep(s: Server, now: Time, id: JobId, reason: string): Outcome {
    if id in s.jobs && s.jobs[id].status.Running? then
      Outcome(s.(jobs := s.jobs[id := EndRow(s.jobs[id], Failed, now, Some(reason))]), Done)
    else Outcome(s, NotFound)
  }

  function RenewAll(jobs: map<JobId, Job>, runner: string, until: Time): map<JobId, Job> {
    map id | id in jobs :: RenewRow(jobs[id], runner, until)
  }

  function ExpireAll(jobs: map<JobId, Job>, now: Time): map<JobId, Job> {
    map id | id in jobs :: ExpireRow(jobs[id], now)
  }

  function StaleAll(jobs: map<JobId, Job>, now: Time, interval: int): map<JobId, Job> {
    map id | id in jobs :: StaleRow(jobs[id], now, interval)
  }

  function Step(cfg: Config, s: Server, now: Time, e: Event): Outcome {
    match e
    case Create(_, _, _, _) => CreateStep(s, now, e)
    case Claim(_, _, _, _, _, _) => ClaimStep(cfg, s, now, e)
    case Sync(_, _, _, _, _, _, _) => SyncStep(s, now, e)
    case Push(_, _, _, _, _, _, _, _) => PushStep(cfg, s, e)
    case Upload(_, _, _, _, _, _) => UploadStep(cfg, s, e)
    case Heartbeat(runner) =>
      Outcome(s.(jobs := RenewAll(s.jobs, runner, now + cfg.leaseTtl)), Done)
    case ExpireLeases => Outcome(s.(jobs := ExpireAll(s.jobs, now)), Done)
    case ReconcileStale => Outcome(s.(jobs := StaleAll(s.jobs, now, cfg.maxSyncInterval)), Done)
    case Cancel(id) => CancelStep(s, now, id)
    case Retry(id, cut) => RetryStep(s, id, cut)
    case Delete(id) => DeleteStep(s, id)
    case SetPriority(id, priority) => SetPriorityStep(s, id, priority)
    case Interrupt(id, reason) => InterruptStep(s, now, id, reason)
    case PutTask(t, def) => Outcome(s.(defs := s.defs[t := def]), Done)
    case DropTask(t) => Outcome(s.(defs := s.defs - {t}), Done)
  }

  // ---------------------------------------------------------------- runs

  /** The clock's last reading and every token generated so far are history. */
  datatype World = World(server: Server, clock: Time, issued: set<Token>)

  datatype Action = Action(now: Time, event: Event)

  /**
   What a run may contain: clock readings that do not go back, claims with a
   token never generated before and a row the SELECT could return, and syncs
   with one of the seven statuses of the runner protocol (or an unknown string).
   */
  ghost predicate Legal(w: World, a: Action) {
    && w.clock <= a.now
    && (a.event.Claim? ==>
          && a.event.token !in w.issued
          && (Queued(w.server.jobs) != {} ==> IsNext(w.server.jobs, a.event.pick)))
    && (a.event.Sync? ==> a.event.status != Some(Pending))
  }

  function Next(cfg: Config, w: World, a: Action): World {
    World(Step(cfg, w.server, a.now, a.event).server, a.now,
          if a.event.Claim? then w.issued + {a.event.token} else w.issued)
  }

  function ReplyTo(cfg: Config, w: World, a: Action): Reply {
    Step(cfg, w.server, a.now, a.event).reply
  }

  type Trace = seq<Action>

  function Front(tr: Trace): Trace
    requires tr != []
  {
    tr[..|tr| - 1]
  }

  function Last(tr: Trace): Action
    requires tr != []
  {
    tr[|tr| - 1]
  }

  function Run(cfg: Config, w: World, tr: Trace): World {
    if tr == [] then w else Next(cfg, Run(cfg, w, Front(tr)), Last(tr))
  }

  ghost predicate LegalRun(cfg: Config, w: World, tr: Trace) {
    tr == [] || (LegalRun(cfg, w, Front(tr)) && Legal(Run(cfg, w, Front(tr)), Last(tr)))
  }

  /** An empty database and workspace; AUTOINCREMENT starts at 1. */
  function FreshWorld(start: Time): World {
    World(Server(map[], 1, map[], map[], map[], map[]), start, {})
  }

  // ---------------------------------------------------------------- shared vocabulary

  function Row(s: Server, id: JobId): Option<Job> {
    Lookup(s.jobs, id)
  }

  predicate Holds(s: Server, id: JobId, token: Token) {
    id in s.jobs && s.jobs[id].leaseToken == Some(token)
  }

  predicate Live(s: Server, token: Token) {
    exists id | id in s.jobs :: Holds(s, id, token)
  }

  predicate Bears(e: Event, token: Token) {
    (e.Sync? || e.Push? || e.Upload?) && e.token == token
  }
}
