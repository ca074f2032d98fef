/** The pending queue: listing order, mutual exclusion of claims, bounded waiting. */
module Queue {
  import opened ControlPlane
  import opened JobInvariant
  import opened Sets

  // ---------------------------------------------------------------- draining in listing order

  ghost predicate DistinctKeys(jobs: map<JobId, Job>) {
    forall a, b | a in Queued(jobs) && b in Queued(jobs) && a != b ::
      Ahead(jobs[a], jobs[b]) || Ahead(jobs[b], jobs[a])
  }

  /** A run of answered claims and nothing else. */
  ghost predicate AllClaimed(cfg: Config, w: World, tr: Trace) {
    tr != [] ==>
      && AllClaimed(cfg, w, Front(tr))
      && Last(tr).event.Claim?
      && ReplyTo(cfg, Run(cfg, w, Front(tr)), Last(tr)).Claimed?
  }

  function Picks(tr: Trace): seq<JobId> {
    if tr == [] then [] else Picks(Front(tr)) + (if Last(tr).event.Claim? then [Last(tr).event.pick] else [])
  }

  ghost predicate SameKeys(before: map<JobId, Job>, after: map<JobId, Job>) {
    forall id | id in before ::
      id in after && after[id].priority == before[id].priority && after[id].createdAt == before[id].createdAt
  }

  lemma ClaimTakesNext(cfg: Config, s: Server, now: Time, e: Event)
    requires e.Claim? && Step(cfg, s, now, e).reply.Claimed?
    ensures IsNext(s.jobs, e.pick)
    ensures var t := Step(cfg, s, now, e).server;
            Queued(t.jobs) == Queued(s.jobs) - {e.pick} && SameKeys(s.jobs, t.jobs)
  {
  }

  /** `a` has the higher priority, or the same and is no younger. */
  predicate NotAfter(a: Job, b: Job) {
    a.priority >= b.priority && (a.priority == b.priority ==> a.createdAt <= b.createdAt)
  }

  ghost predicate Drained(s0: Server, s: Server, picks: seq<JobId>) {
    && SameKeys(s0.jobs, s.jobs)
    && Queued(s.jobs) == Queued(s0.jobs) - Elems(picks)
    && (forall i | 0 <= i < |picks| :: picks[i] in Queued(s0.jobs))
    && (forall i, k | 0 <= i < k < |picks| :: picks[i] != picks[k])
    && (forall i, k | 0 <= i < k < |picks| && picks[i] in s0.jobs && picks[k] in s0.jobs ::
          !Ahead(s0.jobs[picks[k]], s0.jobs[picks[i]]))
    && (forall r, i | r in Queued(s.jobs) && 0 <= i < |picks| && r in s0.jobs && picks[i] in s0.jobs ::
          !Ahead(s0.jobs[r], s0.jobs[picks[i]]))
  }

  lemma DrainOneMore(s0: Server, s: Server, t: Server, picks: seq<JobId>, p: JobId)
    requires Drained(s0, s, picks)
    requires IsNext(s.jobs, p) && Queued(t.jobs) == Queued(s.jobs) - {p} && SameKeys(s.jobs, t.jobs)
    ensures Drained(s0, t, picks + [p])
  {
    var more := picks + [p];
    ElemsOneMore(picks, p);
    assert p in Queued(s.jobs);
    assert forall r | r in Queued(t.jobs) :: r in Queued(s.jobs);
  }

  /**
   Main result: claims alone, with any ties, hand out distinct pending jobs; along
   the picks priorities never rise, within one priority the creation times never
   fall, and no job still queued ranks before a pick.
   */
  lemma ClaimsDrainInOrder(cfg: Config, w: World, tr: Trace)
    requires AllClaimed(cfg, w, tr)
    ensures Drained(w.server, Run(cfg, w, tr).server, Picks(tr)) && |Picks(tr)| == |tr|
    ensures var jobs, left, picks := w.server.jobs, Run(cfg, w, tr).server.jobs, Picks(tr);
            && (forall i | 0 <= i < |picks| :: picks[i] in jobs && jobs[picks[i]].status == Pending)
            && (forall i, k | 0 <= i < k < |picks| :: picks[i] != picks[k] && NotAfter(jobs[picks[i]], jobs[picks[k]]))
            && (forall id | id in jobs && jobs[id].status == Pending && id !in Elems(picks) ::
                  && id in left && left[id].status == Pending
                  && forall i | 0 <= i < |picks| :: NotAfter(jobs[picks[i]], jobs[id]))
  {
    ClaimsDrain(cfg, w, tr);
    DrainedMeans(w.server, Run(cfg, w, tr).server, Picks(tr));
  }

  lemma DrainedMeans(s0: Server, s: Server, picks: seq<JobId>)
    requires Drained(s0, s, picks)
    ensures var jobs, left := s0.jobs, s.jobs;
            && (forall i | 0 <= i < |picks| :: picks[i] in jobs && jobs[picks[i]].status == Pending)
            && (forall i, k | 0 <= i < k < |picks| :: picks[i] != picks[k] && NotAfter(jobs[picks[i]], jobs[picks[k]]))
            && (forall id | id in jobs && jobs[id].status == Pending && id !in Elems(picks) ::
                  && id in left && left[id].status == Pending
                  && forall i | 0 <= i < |picks| :: NotAfter(jobs[picks[i]], jobs[id]))
  {
    forall id | id in s0.jobs && s0.jobs[id].status == Pending && id !in Elems(picks)
      ensures id in s.jobs && s.jobs[id].status == Pending
      ensures forall i | 0 <= i < |picks| :: NotAfter(s0.jobs[picks[i]], s0.jobs[id])
    {
      assert id in Queued(s0.jobs);
      assert id in Queued(s.jobs);
    }
    assert forall i | 0 <= i < |picks| :: picks[i] in Queued(s0.jobs);
  }

  lemma {:induction false} ClaimsDrain(cfg: Config, w: World, tr: Trace)
    requires AllClaimed(cfg, w, tr)
    ensures Drained(w.server, Run(cfg, w, tr).server, Picks(tr)) && |Picks(tr)| == |tr|
  {
    hide Step;
    if tr != [] {
      ClaimsDrain(cfg, w, Front(tr));
      var before, a := Run(cfg, w, Front(tr)), Last(tr);
      ClaimTakesNext(cfg, before.server, a.now, a.event);
      DrainOneMore(w.server, before.server, Next(cfg, before, a).server, Picks(Front(tr)), a.event.pick);
    }
  }

  /** With distinct keys, n claims return the first n jobs of the listing. */
  lemma {:induction false} ClaimsFollowListing(cfg: Config, w: World, tr: Trace, ids: seq<JobId>)
    requires AllClaimed(cfg, w, tr) && IsListing(w.server.jobs, ids) && DistinctKeys(w.server.jobs)
    ensures |tr| <= |ids| && Picks(tr) == ids[..|tr|]
  {
    hide Step, Next, Drained, IsListing, DistinctKeys;
    if tr != [] {
      ClaimsFollowListing(cfg, w, Front(tr), ids);
      ClaimsDrain(cfg, w, Front(tr));
      var before, a := Run(cfg, w, Front(tr)), Last(tr);
      var n := |tr| - 1;
      ClaimTakesNext(cfg, before.server, a.now, a.event);
      NextInListing(w.server, before.server, ids, n, a.event.pick);
    }
  }

  lemma NextInListing(s0: Server, s: Server, ids: seq<JobId>, n: nat, p: JobId)
    requires n <= |ids| && IsListing(s0.jobs, ids) && DistinctKeys(s0.jobs)
    requires Drained(s0, s, ids[..n]) && IsNext(s.jobs, p)
    ensures n < |ids| && p == ids[n]
  {
    var taken := Elems(ids[..n]);
    assert p in Queued(s.jobs) && p in Queued(s0.jobs);
    var m :| 0 <= m < |ids| && ids[m] == p;
    assert forall i | 0 <= i < n :: ids[..n][i] in taken && ids[i] == ids[..n][i];
    assert m >= n;
    assert ids[n] in Queued(s0.jobs) && ids[n] !in taken;
    assert ids[n] in Queued(s.jobs);
    assert !Ahead(s.jobs[ids[n]], s.jobs[p]);
    if m != n { assert false; }
  }

  // ---------------------------------------------------------------- mutual exclusion

  /** This action returns a claimed job to the queue. */
  ghost predicate Releases(cfg: Config, w: World, a: Action, id: JobId) {
    && id in w.server.jobs
    && (|| (a.event.ExpireLeases? && w.server.jobs[id].status == Running &&
            w.server.jobs[id].leaseExpiresAt.Some? && w.server.jobs[id].leaseExpiresAt.value <= a.now)
        || (a.event.Retry? && a.event.job == id && ReplyTo(cfg, w, a).Done?))
  }

  ghost predicate Busy(s: Server, id: JobId) {
    id < s.nextId && (id in s.jobs ==> !s.jobs[id].status.Pending?)
  }

  lemma BusyStep(cfg: Config, w: World, a: Action, id: JobId)
    requires Inv(w) && Legal(w, a) && Busy(w.server, id) && !Releases(cfg, w, a, id)
    ensures Busy(Next(cfg, w, a).server, id)
  {
    hide ClaimStep, PushStep, UploadStep, SyncStep;
    var s := w.server;
    IdsOnlyGrow(cfg, s, a.now, a.event);
    if id in s.jobs {
      RowAfterIsExact(cfg, s, a.now, a.event, id);
    } else {
      NewRowsAreCreated(cfg, s, a.now, a.event, id);
    }
  }

  lemma {:induction false} BusyUntilReleased(cfg: Config, w: World, tr: Trace, id: JobId)
    requires Inv(w) && LegalRun(cfg, w, tr) && Busy(w.server, id)
    requires forall m | 0 <= m < |tr| :: !Releases(cfg, Run(cfg, w, tr[..m]), tr[m], id)
    ensures Busy(Run(cfg, w, tr).server, id)
  {
    hide Next;
    if tr != [] {
      var n := |tr| - 1;
      assert tr[..n] == Front(tr);
      forall m | 0 <= m < n ensures !Releases(cfg, Run(cfg, w, Front(tr)[..m]), Front(tr)[m], id) {
        assert Front(tr)[..m] == tr[..m];
      }
      BusyUntilReleased(cfg, w, Front(tr), id);
      RunKeepsInv(cfg, w, Front(tr));
      BusyStep(cfg, Run(cfg, w, Front(tr)), Last(tr), id);
    }
  }

  /**
   Main result: between two answered claims of one job there is an expiry of
   its lease or an accepted retry of it.
   */
  lemma NeverClaimedTwice(cfg: Config, w: World, first: Action, tr: Trace, second: Action, id: JobId)
    requires Inv(w) && Legal(w, first) && LegalRun(cfg, Next(cfg, w, first), tr)
    requires var r := ReplyTo(cfg, w, first); r.Claimed? && r.job == id
    requires var r := ReplyTo(cfg, Run(cfg, Next(cfg, w, first), tr), second); r.Claimed? && r.job == id
    ensures exists m | 0 <= m < |tr| :: Releases(cfg, Run(cfg, Next(cfg, w, first), tr[..m]), tr[m], id)
  {
    hide Step;
    var w1 := Next(cfg, w, first);
    StepKeepsInv(cfg, w, first);
    OnlyClaimsAnswerClaimed(cfg, w.server, first.now, first.event);
    ClaimTakesNext(cfg, w.server, first.now, first.event);
    ClaimEffect(cfg, w.server, first.now, first.event);
    assert Busy(w1.server, id);
    if forall m | 0 <= m < |tr| :: !Releases(cfg, Run(cfg, w1, tr[..m]), tr[m], id) {
      BusyUntilReleased(cfg, w1, tr, id);
      var w2 := Run(cfg, w1, tr);
      OnlyClaimsAnswerClaimed(cfg, w2.server, second.now, second.event);
      ClaimEffect(cfg, w2.server, second.now, second.event);
      ClaimTakesNext(cfg, w2.server, second.now, second.event);
      assert false;
    }
  }

  // ---------------------------------------------------------------- bounded waiting

  /** The pending jobs that a claim might return before `id`. */
  function Rivals(jobs: map<JobId, Job>, id: JobId): set<JobId>
    requires id in jobs
  {
    set k | k in jobs && jobs[k].status == Pending && k != id && NotAfter(jobs[k], jobs[id])
  }

  function AnsweredClaims(cfg: Config, w: World, tr: Trace): nat {
    if tr == [] then 0
    else AnsweredClaims(cfg, w, Front(tr)) + if ReplyTo(cfg, Run(cfg, w, Front(tr)), Last(tr)).Claimed? then 1 else 0
  }

  /** `id` stays queued throughout and no action puts a new rival ahead of it. */
  ghost predicate Waits(cfg: Config, w: World, tr: Trace, id: JobId) {
    && id in Queued(Run(cfg, w, tr).server.jobs)
    && (tr != [] ==>
          && Waits(cfg, w, Front(tr), id)
          && Rivals(Run(cfg, w, tr).server.jobs, id) <= Rivals(Run(cfg, w, Front(tr)).server.jobs, id))
  }

  /**
   Main result: while a job waits and nobody enters ahead of it, at most as many
   claims are answered as it had rivals; with k jobs ahead it is gone by the
   (k+1)-th answered claim.
   */
  lemma {:induction false} WaitIsBounded(cfg: Config, w: World, tr: Trace, id: JobId)
    requires Waits(cfg, w, tr, id) && Waits(cfg, w, [], id)
    ensures |Rivals(Run(cfg, w, tr).server.jobs, id)| + AnsweredClaims(cfg, w, tr) <= |Rivals(w.server.jobs, id)|
  {
    hide Step;
    if tr != [] {
      WaitIsBounded(cfg, w, Front(tr), id);
      var before, a := Run(cfg, w, Front(tr)), Last(tr);
      var after := Next(cfg, before, a);
      var r0, r1 := Rivals(before.server.jobs, id), Rivals(after.server.jobs, id);
      if ReplyTo(cfg, before, a).Claimed? {
        OnlyClaimsAnswerClaimed(cfg, before.server, a.now, a.event);
        ClaimTakesNext(cfg, before.server, a.now, a.event);
        assert a.event.pick in r0 && r1 <= r0 - {a.event.pick};
        SubsetIsSmaller(r1, r0 - {a.event.pick});
      } else {
        SubsetIsSmaller(r1, r0);
      }
    }
  }
}
