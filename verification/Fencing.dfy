/**
 Lease tokens as fencing tokens.  A request bearing a token that no job holds
 changes nothing, now or ever.
 */
module Fencing {
  import opened ControlPlane
  import opened JobInvariant

  // ---------------------------------------------------------------- dead tokens

  /** A request reaches only the job that holds its token. */
  lemma RequestReachesOnlyItsHolder(cfg: Config, w: World, a: Action, token: Token, id: JobId)
    requires Inv(w) && Bears(a.event, token) && !Holds(w.server, id, token)
    ensures Row(Next(cfg, w, a).server, id) == Row(w.server, id)
    ensures Stored(Next(cfg, w, a).server, id) == Stored(w.server, id)
  {
    hide PushStep, UploadStep, SyncStep;
    var s, e := w.server, a.event;
    if id in s.jobs { RowAfterIsExact(cfg, s, a.now, e, id); } else { NewRowsAreCreated(cfg, s, a.now, e, id); }
    if !WritesTo(e, id) || id !in s.jobs {
      StoredIsLocal(cfg, s, a.now, e, id);
    } else {
      UnheldIsRejected(cfg, s, a.now, e);
    }
  }

  lemma UnheldIsRejected(cfg: Config, s: Server, now: Time, e: Event)
    requires e.Sync? || e.Push? || e.Upload?
    requires !Holds(s, e.job, e.token)
    ensures Step(cfg, s, now, e).server == s
    ensures Step(cfg, s, now, e).reply == if e.job in s.jobs then Conflict else NotFound
  {
  }

  lemma DeadStaysDead(cfg: Config, w: World, a: Action, token: Token)
    requires Inv(w) && Legal(w, a) && token in w.issued && !Live(w.server, token)
    ensures !Live(Next(cfg, w, a).server, token) && token in Next(cfg, w, a).issued
  {
    hide Step;
    var s := w.server;
    var t := Step(cfg, s, a.now, a.event).server;
    forall id | id in t.jobs ensures !Holds(t, id, token) {
      if id in s.jobs {
        assert !Holds(s, id, token);
        RowAfterIsExact(cfg, s, a.now, a.event, id);
        TokenKept(cfg, s, a.now, a.event, id, s.jobs[id]);
      } else {
        NewRowsAreCreated(cfg, s, a.now, a.event, id);
      }
    }
  }

  lemma {:induction false} DeadForever(cfg: Config, w: World, tr: Trace, token: Token)
    requires Inv(w) && LegalRun(cfg, w, tr) && token in w.issued && !Live(w.server, token)
    ensures !Live(Run(cfg, w, tr).server, token)
    ensures token in Run(cfg, w, tr).issued
  {
    hide Next;
    if tr != [] {
      DeadForever(cfg, w, Front(tr), token);
      RunKeepsInv(cfg, w, Front(tr));
      DeadStaysDead(cfg, Run(cfg, w, Front(tr)), Last(tr), token);
    }
  }

  /**
   Main result: once a token is cleared or replaced, after any further run a
   request bearing it is refused and leaves every row and every file alone.
   */
  lemma FencedForever(cfg: Config, w: World, tr: Trace, token: Token, a: Action)
    requires Inv(w) && LegalRun(cfg, w, tr)
    requires token in w.issued && !Live(w.server, token)
    requires Bears(a.event, token)
    ensures var now := Run(cfg, w, tr);
            Next(cfg, now, a).server == now.server && ReplyTo(cfg, now, a) in {NotFound, Conflict}
  {
    DeadForever(cfg, w, tr, token);
    var s := Run(cfg, w, tr).server;
    assert !Holds(s, a.event.job, token);
    UnheldIsRejected(cfg, s, a.now, a.event);
  }
}
