/**
 What each handler answers, in terms of the columns and arguments it looks at, and
 what path a file may be stored under.
 */
module Answers {
  import opened Options
  import opened ControlPlane

  /** The lease check, spelled out. */
  predicate Leased(s: Server, runner: string, id: JobId, token: Token) {
    id in s.jobs && s.jobs[id].runnerId == Some(runner) && s.jobs[id].leaseToken == Some(token)
  }

  /** The answer to a request without the lease. */
  function Refusal(s: Server, id: JobId): Reply {
    if id in s.jobs then Conflict else NotFound
  }

  lemma CreateAnswer(cfg: Config, s: Server, now: Time, e: Event)
    requires e.Create? && s.nextId !in s.jobs
    ensures var r := Step(cfg, s, now, e);
            && r.reply == Created(s.nextId) && r.server.nextId == s.nextId + 1
            && s.nextId in r.server.jobs && r.server.jobs - {s.nextId} == s.jobs
            && var j := r.server.jobs[s.nextId];
               && j.crateName == e.crateName && j.version == e.version && j.taskId == e.taskId
               && j.snapshot == e.snapshot && j.status == Pending && j.createdAt == now && j.priority == 0
               && j.attempt == 0 && j.runnerId.None? && j.leaseToken.None? && j.leaseExpiresAt.None?
               && j.startedAt.None? && j.finishedAt.None?
  {
  }

  /** A claim is answered with a job iff the runner has room and the pick is a first of the queue. */
  lemma ClaimAnswer(cfg: Config, s: Server, now: Time, e: Event)
    requires e.Claim?
    ensures var reply := Step(cfg, s, now, e).reply;
            && (reply == Unprocessable <==> e.maxJobs > cfg.claimLimit || e.held > e.maxJobs)
            && (reply.Claimed? <==>
                  && e.held < e.maxJobs <= cfg.claimLimit
                  && e.pick in s.jobs && s.jobs[e.pick].status == Pending
                  && forall k | k in s.jobs && s.jobs[k].status == Pending ::
                       && s.jobs[e.pick].priority >= s.jobs[k].priority
                       && (s.jobs[e.pick].priority == s.jobs[k].priority ==>
                             s.jobs[e.pick].createdAt <= s.jobs[k].createdAt))
            && (reply.Claimed? ==>
                  && reply.job == e.pick && reply.token == e.token && reply.expiresAt == now + cfg.leaseTtl)
            && (!reply.Claimed? && reply != Unprocessable ==> reply == NoContent)
  {
    IsNextMeans(s.jobs, e.pick);
  }

  lemma SyncAnswer(cfg: Config, s: Server, now: Time, e: Event)
    requires e.Sync?
    ensures var reply := Step(cfg, s, now, e).reply;
            if !Leased(s, e.runner, e.job, e.token) then reply == Refusal(s, e.job)
            else
              var j := s.jobs[e.job];
              if e.seqNo <= j.lastSyncSeq then reply == Synced(false, j.lastSyncSeq)
              else if e.status.None? then reply == ServerError
              else if j.status !in {Pending, Running} && e.status == Some(Running)
                then reply == Synced(false, j.lastSyncSeq)
              else reply == Synced(true, e.seqNo)
  {
  }

  /** An acceptable path: relative, not empty, without a parent component. */
  predicate GoodPath(path: string) {
    path != "" && path[0] != '/' && Parts(path) != [] && forall i | 0 <= i < |Parts(path)| :: Parts(path)[i] != ".."
  }

  lemma PushAnswer(cfg: Config, s: Server, now: Time, e: Event)
    requires e.Push?
    ensures var reply := Step(cfg, s, now, e).reply;
            if !Leased(s, e.runner, e.job, e.token) then reply == Refusal(s, e.job)
            else if e.mode == Append && e.chunkSeq.None? then reply == Unprocessable
            else if !GoodPath(e.path) then reply == BadRequest
            else if e.mode == Append && e.path in Of(s.chunks, e.job) && e.chunkSeq.value <= Of(s.chunks, e.job)[e.path]
              then reply == FileApplied(false)
            else reply == if e.opens then FileApplied(true) else ServerError
  {
    hide Parts;
  }

  lemma UploadAnswer(cfg: Config, s: Server, now: Time, e: Event)
    requires e.Upload?
    ensures var reply := Step(cfg, s, now, e).reply;
            if !Leased(s, e.runner, e.job, e.token) then reply == Refusal(s, e.job)
            else if !GoodPath(e.path) then reply == BadRequest
            else if e.fails then reply == ServerError
            else if |e.content| > cfg.artifactMaxBytes then reply == TooLarge
            else reply == Saved(|e.content|)
  {
    hide Parts;
  }

  /** Cancel, interrupt, retry, delete and priority: who is refused, and that a refusal changes nothing. */
  lemma JobCommandAnswers(cfg: Config, s: Server, now: Time, e: Event)
    requires e.Cancel? || e.Retry? || e.Delete? || e.SetPriority? || e.Interrupt?
    ensures var r := Step(cfg, s, now, e);
            && (r.reply == NotFound <==> e.job !in s.jobs || (e.Interrupt? && s.jobs[e.job].status != Running))
            && (r.reply == Done <==>
                  && e.job in s.jobs
                  && (e.Cancel? || e.Interrupt? ==> s.jobs[e.job].status == Running)
                  && (e.Retry? ==> s.jobs[e.job].status != Running && s.jobs[e.job].taskId in s.defs)
                  && (e.Delete? ==> s.jobs[e.job].status != Running)
                  && (e.SetPriority? ==> s.jobs[e.job].status == Pending))
            && r.reply in {NotFound, BadRequest, Done}
            && (r.reply != Done ==> r.server == s)
            && (e.Delete? && r.reply == Done ==> r.server == s.(jobs := s.jobs - {e.job}))
  {
  }

  // ---------------------------------------------------------------- paths and limits

  /** A full write keeps as much of the end as the limit allows. */
  lemma TailIsLongest(data: Bytes, max: nat)
    ensures var kept := Tail(data, max);
            && |kept| == (if |data| > max > 0 then max else |data|)
            && data == data[..|data| - |kept|] + kept
  {
  }

  /** Reading a path: up to the next slash comes one component, unless it is empty or a dot. */
  lemma PartsOfJoined(head: string, rest: string)
    requires '/' !in head
    ensures Parts(head + "/" + rest) == (if head in {"", "."} then [] else [head]) + Parts(rest)
    ensures Parts(head) == if head in {"", "."} then [] else [head]
  {
    var path := head + "/" + rest;
    HeadOf(head, "/" + rest);
    HeadOf(head, "");
    assert head + "" == head && head + ("/" + rest) == path;
    if head == "" {
      assert path[1..] == rest;
    } else {
      assert path[|head|..] == "/" + rest && ("/" + rest)[1..] == rest;
      assert head[|head|..] == "" && head[0] in head;
      assert Parts("/" + rest) == Parts(rest);
    }
  }

  lemma {:induction false} HeadOf(head: string, tail: string)
    requires '/' !in head && (tail == "" || tail[0] == '/')
    ensures Head(head + tail) == head
    decreases |head|
  {
    if head == "" {
      assert head + tail == tail;
    } else {
      assert head[0] in head && (head + tail)[1..] == head[1..] + tail;
      HeadOf(head[1..], tail);
      assert head == [head[0]] + head[1..];
    }
  }

  /** A component as pathlib keeps it. */
  predicate Clean(part: string) {
    part != "" && part != "." && '/' !in part
  }

  lemma {:induction false} HeadIsClean(path: string)
    ensures '/' !in Head(path)
    ensures path != "" && path[0] != '/' ==> Head(path) != ""
  {
    if path != "" && path[0] != '/' { HeadIsClean(path[1..]); }
  }

  lemma {:induction false} PartsAreClean(path: string)
    ensures forall i | 0 <= i < |Parts(path)| :: Clean(Parts(path)[i])
    decreases |path|
  {
    if path != "" {
      if path[0] == '/' {
        PartsAreClean(path[1..]);
      } else {
        HeadIsClean(path);
        PartsAreClean(path[|Head(path)|..]);
      }
    }
  }

  /** A stored file lies below its job's directory: no component leads up, none is empty. */
  predicate Inside(key: FileKey) {
    key != [] && forall i | 0 <= i < |key| :: Clean(key[i]) && key[i] != ".."
  }

  ghost predicate AllInside(s: Server) {
    && (forall id, key | key in Of(s.pushed, id) :: Inside(key))
    && (forall id, key | key in Of(s.artifacts, id) :: Inside(key))
  }

  lemma GoodPathIsInside(path: string)
    requires SafePath(path)
    ensures Inside(Parts(path))
  {
    PartsAreClean(path);
  }

  /** What a step may newly store under. */
  lemma NewKeys(cfg: Config, s: Server, now: Time, e: Event, id: JobId, key: FileKey)
    ensures var t := Step(cfg, s, now, e).server;
            && (key in Of(t.pushed, id) ==>
                  key in Of(s.pushed, id) || (e.Push? && SafePath(e.path) && key == Parts(e.path)))
            && (key in Of(t.artifacts, id) ==>
                  key in Of(s.artifacts, id) || (e.Upload? && SafePath(e.path) && key == Parts(e.path)))
  {
    hide Parts, SafePath, Tail, ClaimStep, PushStep, UploadStep;
    if e.Claim? { NewKeysOfClaim(cfg, s, now, e, id, key); }
    else if e.Push? { NewKeysOfPush(cfg, s, e, id, key); }
    else if e.Upload? { NewKeysOfUpload(cfg, s, e, id, key); }
  }

  lemma NewKeysOfClaim(cfg: Config, s: Server, now: Time, e: Event, id: JobId, key: FileKey)
    requires e.Claim?
    ensures var t := ClaimStep(cfg, s, now, e).server;
            && (key in Of(t.pushed, id) ==> key in Of(s.pushed, id))
            && (key in Of(t.artifacts, id) ==> key in Of(s.artifacts, id))
  {
    hide IsNext, ClaimRow;
  }

  lemma NewKeysOfPush(cfg: Config, s: Server, e: Event, id: JobId, key: FileKey)
    requires e.Push?
    ensures var t := PushStep(cfg, s, e).server;
            && (key in Of(t.pushed, id) ==> key in Of(s.pushed, id) || (SafePath(e.path) && key == Parts(e.path)))
            && t.artifacts == s.artifacts
  {
    hide Parts, SafePath, Tail, Fresher;
  }

  lemma NewKeysOfUpload(cfg: Config, s: Server, e: Event, id: JobId, key: FileKey)
    requires e.Upload?
    ensures var t := UploadStep(cfg, s, e).server;
            && (key in Of(t.artifacts, id) ==> key in Of(s.artifacts, id) || (SafePath(e.path) && key == Parts(e.path)))
            && t.pushed == s.pushed
  {
    hide Parts, SafePath;
  }

  /** Main result: on every run, every stored file and artifact lies inside its job's directory. */
  lemma {:induction false} EverythingStoredIsInside(cfg: Config, start: Time, tr: Trace)
    ensures AllInside(Run(cfg, FreshWorld(start), tr).server)
    decreases |tr|
  {
    hide Step, Inside, SafePath;
    if tr != [] {
      EverythingStoredIsInside(cfg, start, Front(tr));
      var s, a := Run(cfg, FreshWorld(start), Front(tr)).server, Last(tr);
      var t := Step(cfg, s, a.now, a.event).server;
      forall id, key | key in Of(t.pushed, id) ensures Inside(key) {
        NewKeys(cfg, s, a.now, a.event, id, key);
        if key !in Of(s.pushed, id) { GoodPathIsInside(a.event.path); }
      }
      forall id, key | key in Of(t.artifacts, id) ensures Inside(key) {
        NewKeys(cfg, s, a.now, a.event, id, key);
        if key !in Of(s.artifacts, id) { GoodPathIsInside(a.event.path); }
      }
    }
  }
}
