/**
 The accepted requests of a job since its last complete clear, read off the run, and the
 theorem that the job's files, chunk rows, exit code and message are their replay.
 */
module AttemptLog {
  import opened Options
  import opened ControlPlane
  import opened JobInvariant

  datatype Entry =
    | Appended(token: Token, path: string, seqNo: int, content: Bytes)
    | TookNumber(token: Token, path: string, seqNo: int)
    | Rewrote(token: Token, path: string, content: Bytes)
    | SavedArtifact(token: Token, path: string, content: Bytes)
    | DroppedArtifact(token: Token, path: string)
    | Reported(token: Token, exitCode: Option<int>, message: Option<string>)
    | Reopened(chunksGone: bool, filesGone: set<FileKey>, artifactsGone: set<FileKey>)

  type Log = seq<Entry>

  /** The claim that took the job, or an accepted retry of it, starts a new attempt. */
  predicate Opens(e: Event, reply: Reply, id: JobId) {
    || (e.Claim? && reply.Claimed? && reply.job == id)
    || (e.Retry? && e.job == id && reply.Done?)
  }

  /** With its cleanup complete, nothing of the attempts before is left. */
  predicate Clears(e: Event, reply: Reply, id: JobId) {
    Opens(e, reply, id) && e.cut.Whole?
  }

  /**
   What an accepted request contributes to job `id`.  An append whose file could
   not be opened has its number taken all the same; an upload that failed has its
   path cleared.  A new attempt whose cleanup was cut short is itself an entry.
   */
  function EntryOf(e: Event, reply: Reply, id: JobId): Option<Entry> {
    if e.Push? && e.job == id && reply == FileApplied(true) then
      Some(if e.mode.Full? then Rewrote(e.token, e.path, e.content)
           else Appended(e.token, e.path, e.chunkSeq.GetOr(0), e.content))
    else if e.Push? && e.mode.Append? && e.job == id && reply.ServerError? then
      Some(TookNumber(e.token, e.path, e.chunkSeq.GetOr(0)))
    else if e.Upload? && e.job == id && reply.Saved? then Some(SavedArtifact(e.token, e.path, e.content))
    else if e.Upload? && e.job == id && (reply.TooLarge? || reply.ServerError?) then
      Some(DroppedArtifact(e.token, e.path))
    else if e.Sync? && e.job == id && reply.Synced? && reply.applied then
      Some(Reported(e.token, e.exitCode, e.message))
    else if Opens(e, reply, id) && e.cut.Died? then
      Some(Reopened(e.Retry? || e.cut.chunksGone, e.cut.filesGone, e.cut.artifactsGone))
    else None
  }

  function Extend(log: Log, e: Event, reply: Reply, id: JobId): Log {
    if Clears(e, reply, id) then []
    else if EntryOf(e, reply, id).Some? then log + [EntryOf(e, reply, id).value]
    else log
  }

  function LogOf(cfg: Config, w: World, tr: Trace, id: JobId): Log {
    if tr == [] then []
    else
      var before := Run(cfg, w, Front(tr));
      Extend(LogOf(cfg, w, Front(tr), id), Last(tr).event, ReplyTo(cfg, before, Last(tr)), id)
  }

  // ---------------------------------------------------------------- reading a log

  /** The last full write cut to its tail, then every later append, in order. */
  function FileText(cfg: Config, log: Log, key: FileKey): Option<Bytes> {
    if log == [] then None
    else
      var before, last := log[..|log| - 1], log[|log| - 1];
      if last.Rewrote? && Parts(last.path) == key then Some(Tail(last.content, cfg.fullMaxBytes))
      else if last.Appended? && Parts(last.path) == key then
        Some(FileText(cfg, before, key).GetOr([]) + last.content)
      else if last.Reopened? && key in last.filesGone then None
      else FileText(cfg, before, key)
  }

  /** The last upload to the path, unless it was too large. */
  function ArtifactData(log: Log, key: FileKey): Option<Bytes> {
    if log == [] then None
    else
      var before, last := log[..|log| - 1], log[|log| - 1];
      if last.SavedArtifact? && Parts(last.path) == key then Some(last.content)
      else if last.DroppedArtifact? && Parts(last.path) == key then None
      else if last.Reopened? && key in last.artifactsGone then None
      else ArtifactData(before, key)
  }

  function LastSeq(log: Log, path: string): Option<int> {
    if log == [] then None
    else
      var before, last := log[..|log| - 1], log[|log| - 1];
      if Numbers(last, path) then Some(last.seqNo)
      else if Restarts(last) then None
      else LastSeq(before, path)
  }

  /** Chunk numbers start over here. */
  predicate Restarts(e: Entry) {
    e.Reopened? && e.chunksGone
  }

  /** The entry took a chunk number of this path. */
  predicate Numbers(e: Entry, path: string) {
    (e.Appended? || e.TookNumber?) && e.path == path
  }

  function LastExit(log: Log): Option<int> {
    if log == [] then None
    else
      var before, last := log[..|log| - 1], log[|log| - 1];
      if last.Reopened? then None
      else if last.Reported? && last.exitCode.Some? then last.exitCode
      else LastExit(before)
  }

  function LastMessage(log: Log): Option<string> {
    if log == [] then None
    else
      var before, last := log[..|log| - 1], log[|log| - 1];
      if last.Reopened? then None
      else if last.Reported? && last.message.Some? then last.message
      else LastMessage(before)
  }

  /** Every number taken exceeds the one recorded before it. */
  ghost predicate StrictlyIncreasing(log: Log) {
    log != [] ==>
      var before, last := log[..|log| - 1], log[|log| - 1];
      && StrictlyIncreasing(before)
      && (last.Appended? || last.TookNumber? ==>
            LastSeq(before, last.path).None? || LastSeq(before, last.path).value < last.seqNo)
  }

  /** All entries of the current attempt bear this token. */
  ghost predicate OneToken(log: Log, token: Token) {
    log != [] && !log[|log| - 1].Reopened? ==>
      log[|log| - 1].token == token && OneToken(log[..|log| - 1], token)
  }

  /** Entry i belongs to the current attempt. */
  ghost predicate Current(log: Log, i: nat) {
    i < |log| && forall m | i <= m < |log| :: !log[m].Reopened?
  }

  /** Pointwise: a log nobody cut short has one token throughout. */
  lemma {:induction false} CurrentEntriesBear(log: Log, token: Token, i: nat)
    requires OneToken(log, token) && Current(log, i)
    ensures log[i].token == token
    decreases |log|
  {
    assert !log[|log| - 1].Reopened?;
    if i < |log| - 1 {
      var before := log[..|log| - 1];
      assert forall m | 0 <= m < |before| :: before[m] == log[m];
      CurrentEntriesBear(before, token, i);
    }
  }

  /** No numbers started over after entry i. */
  ghost predicate Counted(log: Log, i: nat) {
    i < |log| && forall m | i < m < |log| :: !Restarts(log[m])
  }

  // ---------------------------------------------------------------- the replay relation

  ghost predicate StorageReplays(cfg: Config, st: Storage, log: Log) {
    && (forall key :: Lookup(st.pushed, key) == FileText(cfg, log, key))
    && (forall key :: Lookup(st.artifacts, key) == ArtifactData(log, key))
    && (forall path :: Lookup(st.chunks, path) == LastSeq(log, path))
    && StrictlyIncreasing(log)
  }

  ghost predicate RowReplays(j: Job, log: Log) {
    && j.exitCode == LastExit(log)
    && j.message == LastMessage(log)
    && (j.leaseToken.Some? ==> OneToken(log, j.leaseToken.value))
  }

  ghost predicate Replays(cfg: Config, s: Server, id: JobId, log: Log) {
    && (id >= s.nextId ==> log == [])
    && (id in s.jobs ==> StorageReplays(cfg, Stored(s, id), log) && RowReplays(s.jobs[id], log))
  }

  lemma EmptyLogReplays(cfg: Config)
    ensures StorageReplays(cfg, NOTHING_STORED, [])
  {
  }

  /** The last number taken bounds all the others since numbers last started over. */
  lemma {:induction false} LastSeqIsLargest(log: Log, path: string)
    requires StrictlyIncreasing(log)
    ensures LastSeq(log, path).None? <==> forall i: nat | Counted(log, i) :: !Numbers(log[i], path)
    ensures forall i: nat | Counted(log, i) && Numbers(log[i], path) ::
              LastSeq(log, path).Some? && log[i].seqNo <= LastSeq(log, path).value
  {
    if log != [] {
      var n := |log| - 1;
      var before := log[..n];
      LastSeqIsLargest(before, path);
      assert Counted(log, n);
      forall i: nat | i < n
        ensures before[i] == log[i] && (Counted(log, i) <==> Counted(before, i) && !Restarts(log[n]))
      {
        CountedFront(log, i);
      }
    }
  }

  lemma CountedFront(log: Log, i: nat)
    requires i < |log| - 1
    ensures var n := |log| - 1; Counted(log, i) <==> Counted(log[..n], i) && !Restarts(log[n])
  {
    var n := |log| - 1;
    assert forall m | 0 <= m < n :: log[..n][m] == log[m];
  }

  function AfterEntry(cfg: Config, st: Storage, e: Entry): Storage {
    match e
    case Appended(_, path, seqNo, content) =>
      st.(chunks := st.chunks[path := seqNo],
          pushed := st.pushed[Parts(path) := Lookup(st.pushed, Parts(path)).GetOr([]) + content])
    case TookNumber(_, path, seqNo) => st.(chunks := st.chunks[path := seqNo])
    case Rewrote(_, path, content) => st.(pushed := st.pushed[Parts(path) := Tail(content, cfg.fullMaxBytes)])
    case SavedArtifact(_, path, content) => st.(artifacts := st.artifacts[Parts(path) := content])
    case DroppedArtifact(_, path) => st.(artifacts := st.artifacts - {Parts(path)})
    case Reported(_, _, _) => st
    case Reopened(chunksGone, filesGone, artifactsGone) =>
      Storage(if chunksGone then map[] else st.chunks, st.pushed - filesGone, st.artifacts - artifactsGone)
  }

  /** A log grows by one accepted request exactly as the stored files do. */
  lemma EntryReplays(cfg: Config, st: Storage, log: Log, e: Entry)
    requires StorageReplays(cfg, st, log)
    requires (e.Appended? || e.TookNumber?) && e.path in st.chunks ==> st.chunks[e.path] < e.seqNo
    ensures StorageReplays(cfg, AfterEntry(cfg, st, e), log + [e])
  {
    var st', log' := AfterEntry(cfg, st, e), log + [e];
    assert log'[..|log'| - 1] == log && log'[|log'| - 1] == e;
    forall key ensures Lookup(st'.pushed, key) == FileText(cfg, log', key) {
      assert Lookup(st.pushed, key) == FileText(cfg, log, key);
    }
    forall key ensures Lookup(st'.artifacts, key) == ArtifactData(log', key) {
      assert Lookup(st.artifacts, key) == ArtifactData(log, key);
    }
    forall path ensures Lookup(st'.chunks, path) == LastSeq(log', path) {
      assert Lookup(st.chunks, path) == LastSeq(log, path);
    }
    if e.Appended? || e.TookNumber? {
      assert Lookup(st.chunks, e.path) == LastSeq(log, e.path);
    }
  }

  lemma ReportReplays(j: Job, log: Log, e: Entry)
    requires RowReplays(j, log) && !e.Reopened? && j.leaseToken == Some(e.token)
    ensures LastExit(log + [e]) == if e.Reported? && e.exitCode.Some? then e.exitCode else j.exitCode
    ensures LastMessage(log + [e]) == if e.Reported? && e.message.Some? then e.message else j.message
    ensures OneToken(log + [e], e.token)
  {
    var log' := log + [e];
    assert log'[..|log'| - 1] == log && log'[|log'| - 1] == e;
  }

  // ---------------------------------------------------------------- one step, all runs

  /** An accepted request did to what is stored for `id` what its log entry says. */
  ghost predicate Follows(cfg: Config, s: Server, e: Event, r: Outcome, id: JobId) {
    var entry := EntryOf(e, r.reply, id);
    match entry
    case None => Stored(r.server, id) == Stored(s, id)
    case Some(x) =>
      && Stored(r.server, id) == AfterEntry(cfg, Stored(s, id), x)
      && (!x.Reopened? ==> Holds(s, id, x.token))
      && ((x.Appended? || x.TookNumber?) && x.path in Of(s.chunks, id) ==> Of(s.chunks, id)[x.path] < x.seqNo)
  }

  lemma PushFollows(cfg: Config, s: Server, e: Event)
    requires e.Push?
    ensures Follows(cfg, s, e, PushStep(cfg, s, e), e.job)
  {
  }

  lemma UploadFollows(cfg: Config, s: Server, e: Event)
    requires e.Upload?
    ensures Follows(cfg, s, e, UploadStep(cfg, s, e), e.job)
  {
  }

  lemma ClearStores(cfg: Config, s: Server, now: Time, e: Event, id: JobId)
    requires Clears(e, Step(cfg, s, now, e).reply, id)
    ensures Stored(Step(cfg, s, now, e).server, id) == NOTHING_STORED
    ensures id in s.jobs
  {
  }

  /** A cleanup cut short leaves what its entry says. */
  lemma CutStores(cfg: Config, s: Server, now: Time, e: Event, id: JobId)
    requires Opens(e, Step(cfg, s, now, e).reply, id) && e.cut.Died?
    ensures var entry := EntryOf(e, Step(cfg, s, now, e).reply, id);
            && entry.Some? && entry.value.Reopened?
            && Stored(Step(cfg, s, now, e).server, id) == AfterEntry(cfg, Stored(s, id), entry.value)
  {
  }

  /** Whatever the event, the row and the files of `id` move with its log. */
  lemma StepFollows(cfg: Config, s: Server, now: Time, e: Event, id: JobId)
    requires id in s.jobs && !Clears(e, Step(cfg, s, now, e).reply, id)
    ensures Follows(cfg, s, e, Step(cfg, s, now, e), id)
  {
    hide ClaimStep, PushStep, UploadStep;
    if e.Push? && e.job == id { PushFollows(cfg, s, e); }
    else if e.Upload? && e.job == id { UploadFollows(cfg, s, e); }
    else if Opens(e, Step(cfg, s, now, e).reply, id) { CutStores(cfg, s, now, e, id); }
    else if e.Claim? && e.pick == id { ClaimEffect(cfg, s, now, e); }
    else if !e.Retry? || e.job != id { StoredIsLocal(cfg, s, now, e, id); }
  }

  /** Exit code and message change in an accepted sync and nowhere else. */
  lemma OutcomeFollowsEntry(cfg: Config, s: Server, now: Time, e: Event, id: JobId)
    requires id in s.jobs && id < s.nextId && !Opens(e, Step(cfg, s, now, e).reply, id)
    ensures var r := Step(cfg, s, now, e);
            var x := EntryOf(e, r.reply, id).GetOr(Reported(0, None, None));
            var j := s.jobs[id];
            id in r.server.jobs ==>
              && r.server.jobs[id].exitCode == (if x.Reported? && x.exitCode.Some? then x.exitCode else j.exitCode)
              && r.server.jobs[id].message == (if x.Reported? && x.message.Some? then x.message else j.message)
  {
    hide ClaimStep, PushStep, UploadStep;
    RowAfterIsExact(cfg, s, now, e, id);
    if e.Claim? { ClaimEffect(cfg, s, now, e); }
  }

  lemma OnlyOpeningsBringTokens(cfg: Config, s: Server, now: Time, e: Event, id: JobId)
    requires id in s.jobs && id < s.nextId && !Opens(e, Step(cfg, s, now, e).reply, id)
    ensures var t := Step(cfg, s, now, e).server;
            id in t.jobs ==> t.jobs[id].leaseToken in {None, s.jobs[id].leaseToken}
  {
    hide ClaimStep, PushStep, UploadStep;
    RowAfterIsExact(cfg, s, now, e, id);
    TokenKept(cfg, s, now, e, id, s.jobs[id]);
    if e.Claim? { ClaimEffect(cfg, s, now, e); }
  }

  lemma RowFollowsEntry(cfg: Config, s: Server, now: Time, e: Event, id: JobId, log: Log)
    requires id in s.jobs && id < s.nextId && RowReplays(s.jobs[id], log)
    requires !Clears(e, Step(cfg, s, now, e).reply, id)
    ensures var r := Step(cfg, s, now, e);
            id in r.server.jobs ==> RowReplays(r.server.jobs[id], Extend(log, e, r.reply, id))
  {
    hide Step, RowReplays, EntryOf;
    StepFollows(cfg, s, now, e, id);
    if Opens(e, Step(cfg, s, now, e).reply, id) {
      CutStores(cfg, s, now, e, id);
      OpenedRow(cfg, s, now, e, id);
      ReopeningReplays(Step(cfg, s, now, e).server.jobs[id], log,
                       EntryOf(e, Step(cfg, s, now, e).reply, id).value);
    } else {
      RowFollowsRequest(cfg, s, now, e, id, log);
    }
  }

  lemma RowFollowsRequest(cfg: Config, s: Server, now: Time, e: Event, id: JobId, log: Log)
    requires id in s.jobs && id < s.nextId && RowReplays(s.jobs[id], log)
    requires !Opens(e, Step(cfg, s, now, e).reply, id)
    ensures var r := Step(cfg, s, now, e);
            id in r.server.jobs ==> RowReplays(r.server.jobs[id], Extend(log, e, r.reply, id))
  {
    hide Step;
    StepFollows(cfg, s, now, e, id);
    OutcomeFollowsEntry(cfg, s, now, e, id);
    OnlyOpeningsBringTokens(cfg, s, now, e, id);
    var entry := EntryOf(e, Step(cfg, s, now, e).reply, id);
    if entry.Some? { ReportReplays(s.jobs[id], log, entry.value); }
  }

  lemma ReopeningReplays(j: Job, log: Log, e: Entry)
    requires e.Reopened? && j.exitCode.None? && j.message.None?
    ensures RowReplays(j, log + [e])
  {
    var log' := log + [e];
    assert log'[..|log'| - 1] == log && log'[|log'| - 1] == e;
  }

  lemma StepReplays(cfg: Config, w: World, a: Action, id: JobId, log: Log)
    requires Inv(w) && Legal(w, a) && Replays(cfg, w.server, id, log)
    ensures Replays(cfg, Next(cfg, w, a).server, id, Extend(log, a.event, ReplyTo(cfg, w, a), id))
  {
    hide Step;
    var s, t, e := w.server, Next(cfg, w, a).server, a.event;
    var reply := ReplyTo(cfg, w, a);
    IdsOnlyGrow(cfg, s, a.now, e);
    if id in s.jobs {
      if Clears(e, reply, id) {
        ClearStores(cfg, s, a.now, e, id);
        OpenedRow(cfg, s, a.now, e, id);
        EmptyLogReplays(cfg);
      } else {
        RowFollowsEntry(cfg, s, a.now, e, id, log);
        StepFollows(cfg, s, a.now, e, id);
        if EntryOf(e, reply, id).Some? {
          EntryReplays(cfg, Stored(s, id), log, EntryOf(e, reply, id).value);
        }
      }
    } else {
      AbsentJobLogsNothing(cfg, s, a.now, e, id);
      NewRowsAreCreated(cfg, s, a.now, e, id);
      StoredIsLocal(cfg, s, a.now, e, id);
      EmptyLogReplays(cfg);
    }
  }

  lemma OpenedRow(cfg: Config, s: Server, now: Time, e: Event, id: JobId)
    requires Opens(e, Step(cfg, s, now, e).reply, id)
    ensures var t := Step(cfg, s, now, e).server;
            id in t.jobs && t.jobs[id].exitCode.None? && t.jobs[id].message.None?
  {
  }

  lemma AbsentJobLogsNothing(cfg: Config, s: Server, now: Time, e: Event, id: JobId)
    requires id !in s.jobs
    ensures var reply := Step(cfg, s, now, e).reply;
            !Opens(e, reply, id) && EntryOf(e, reply, id).None?
  {
  }

  /**
   Main result: on every legal run from an empty database, a job's files,
   artifacts, chunk rows, exit code and message are the replay of the requests
   accepted since its last complete clear; and while it holds a token, all of those
   requests bore that token.  A crash in the cleanup of a claim or retry may leave
   files of earlier attempts; those are then the part of the log before `Reopened`.
   */
  lemma {:induction false} StoredStateIsReplay(cfg: Config, start: Time, tr: Trace, id: JobId)
    requires LegalRun(cfg, FreshWorld(start), tr)
    ensures Replays(cfg, Run(cfg, FreshWorld(start), tr).server, id, LogOf(cfg, FreshWorld(start), tr, id))
  {
    hide Next;
    var w := FreshWorld(start);
    if tr == [] {
      EmptyLogReplays(cfg);
    } else {
      StoredStateIsReplay(cfg, start, Front(tr), id);
      RunKeepsInv(cfg, w, Front(tr));
      StepReplays(cfg, Run(cfg, w, Front(tr)), Last(tr), id, LogOf(cfg, w, Front(tr), id));
    }
  }
}
