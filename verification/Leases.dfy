/** What a claim is good for: which job it hands out, how long its lease lasts, and what its
    result does (challenge_ingestion/worker.py, challenge_ingestion/publication.py). */
module Leases {
  import opened Schema
  import opened Validation
  import opened Worker
  import opened Publication
  import Books

  // ----- validation claims -----------------------------------------------------------------------

  /** Job `j` waits for a validation at this time: it is due or its worker was lost, its
      submission is validating, and it has an attempt left. */
  predicate Due(p: Pond, j: Id, now: Time)
    requires j in p.jobs && p.jobs[j].key.submission in p.submissions
  {
    var job := p.jobs[j];
    && job.key.action == Validate
    && (match job.status
        case Queued => job.availableAt <= now
        case RetryWait => job.availableAt <= now
        case Running => job.lease.Some? && job.lease.value.expires <= now
        case _ => false)
    && p.submissions[job.key.submission].status == Validating
    && job.attempts < job.maxAttempts
  }

  function DueJobs(p: Pond, now: Time): set<Id>
    requires JobsHaveRows(p)
  {
    set j | j in p.jobs && Due(p, j, now)
  }

  /** No two eligible jobs are about one submission. */
  ghost predicate Apart(p: Pond, now: Time) {
    forall j, k :: j in EligibleJobs(p, now) && k in EligibleJobs(p, now) && j != k ==>
      p.jobs[j].key.submission != p.jobs[k].key.submission
  }

  /** The claim is owned exactly until its lease runs out. */
  ghost predicate Lasts(p: Pond, action: Action, c: Claim, end: Time) {
    forall t :: Owns(p, action, c, t) <==> t < end
  }

  lemma IssueLasts(p: Pond, id: Id, w: Settings, token: Token, now: Time)
    requires id in p.jobs
    ensures Lasts(Issue(p, id, w, token, now), p.jobs[id].key.action, Held(id, p.jobs[id].key.submission, token),
                  now + w.leaseSeconds)
  {
  }

  /** A claim that is handed out holds for the time of a lease, and not longer. */
  lemma {:induction false} ClaimLasts(p: Pond, w: Settings, token: Token, now: Time)
    requires JobsHaveRows(p)
    ensures var (q, r) := ClaimNext(p, w, token, now); r.Some? ==> Lasts(q, Validate, r.value, now + w.leaseSeconds)
    decreases |EligibleJobs(p, now)|
  {
    hide Lasts, Issue, Settle, CancelJob;
    if EligibleJobs(p, now) != {} {
      var id := First(p, now);
      var job := p.jobs[id];
      if p.submissions[job.key.submission].status != Validating {
        Books.CancelledIsDone(p, id, now);
        Fewer(p, CancelJob(p, id, now), id, now);
        ClaimLasts(CancelJob(p, id, now), w, token, now);
      } else if job.attempts >= job.maxAttempts {
        var q := Settle(p, id, LIMIT_REPORT, true, now, w.retrySeconds);
        Books.SettledIsDone(p, id, now, w.retrySeconds);
        Fewer(p, q, id, now);
        ClaimLasts(q, w, token, now);
      } else {
        IssueLasts(p, id, w, token, now);
      }
    }
  }

  /** What retiring job `id` leaves of the others. */
  ghost predicate Retires(p: Pond, q: Pond, id: Id, now: Time)
    requires JobsHaveRows(p) && JobsHaveRows(q) && id in p.jobs
  {
    && id in q.jobs && q.jobs == p.jobs[id := q.jobs[id]] && !Eligible(q.jobs[id], now)
    && q.submissions.Keys == p.submissions.Keys
    && forall s <- p.submissions :: s != p.jobs[id].key.submission ==> q.submissions[s] == p.submissions[s]
  }

  lemma DueIsEligible(p: Pond, now: Time)
    requires JobsHaveRows(p)
    ensures DueJobs(p, now) <= EligibleJobs(p, now)
  {
  }

  lemma RetiredDue(p: Pond, q: Pond, id: Id, now: Time)
    requires JobsHaveRows(p) && JobsHaveRows(q) && id in EligibleJobs(p, now) && Retires(p, q, id, now)
    requires Apart(p, now) && !Due(p, id, now)
    ensures DueJobs(q, now) == DueJobs(p, now) && Apart(q, now)
  {
    DueIsEligible(p, now);
    DueIsEligible(q, now);
    forall j ensures j in DueJobs(q, now) <==> j in DueJobs(p, now) {
      if j != id && j in p.jobs && (j in EligibleJobs(p, now) || j in EligibleJobs(q, now)) {
        assert q.jobs[j] == p.jobs[j] && j in EligibleJobs(p, now);
      }
    }
    assert forall j :: j in EligibleJobs(q, now) ==> j in EligibleJobs(p, now) && q.jobs[j] == p.jobs[j];
  }

  /** The claim is on the job that is first among those that are due: available earliest, of
      several such the one with the lowest number. */
  ghost predicate Takes(p: Pond, now: Time, token: Token, r: Option<Claim>)
    requires JobsHaveRows(p)
  {
    match r
    case None => DueJobs(p, now) == {}
    case Some(c) =>
      && c.job in DueJobs(p, now)
      && (forall j <- DueJobs(p, now) ::
            || p.jobs[c.job].availableAt < p.jobs[j].availableAt
            || (p.jobs[c.job].availableAt == p.jobs[j].availableAt && c.job <= j))
      && c == Held(c.job, p.jobs[c.job].key.submission, token)
  }

  /** A claim hands out the first due job, under the given token, and fails only when there
      is none. */
  lemma {:induction false} ClaimTakes(p: Pond, w: Settings, token: Token, now: Time)
    requires JobsHaveRows(p) && Apart(p, now)
    ensures Takes(p, now, token, ClaimNext(p, w, token, now).1)
    decreases |EligibleJobs(p, now)|
  {
    hide Issue, Settle, CancelJob, Takes, Apart, Retires;
    DueIsEligible(p, now);
    if EligibleJobs(p, now) == {} {
      NothingDue(p, now, token);
    } else {
      var id := First(p, now);
      var job := p.jobs[id];
      if p.submissions[job.key.submission].status != Validating {
        var q := CancelJob(p, id, now);
        Books.CancelledIsDone(p, id, now);
        CancelRetires(p, id, now);
        RetiredTakes(p, q, id, w, token, now);
      } else if job.attempts >= job.maxAttempts {
        var q := Settle(p, id, LIMIT_REPORT, true, now, w.retrySeconds);
        Books.SettledIsDone(p, id, now, w.retrySeconds);
        SettleRetires(p, id, now, w.retrySeconds);
        RetiredTakes(p, q, id, w, token, now);
      } else {
        FirstTakes(p, id, token, now);
      }
    }
  }

  lemma NothingDue(p: Pond, now: Time, token: Token)
    requires JobsHaveRows(p) && EligibleJobs(p, now) == {}
    ensures Takes(p, now, token, None)
  {
    DueIsEligible(p, now);
  }

  lemma FirstTakes(p: Pond, id: Id, token: Token, now: Time)
    requires JobsHaveRows(p) && IsFirst(p, now, id)
    requires p.submissions[p.jobs[id].key.submission].status == Validating
    requires p.jobs[id].attempts < p.jobs[id].maxAttempts
    ensures Takes(p, now, token, Some(Held(id, p.jobs[id].key.submission, token)))
  {
    DueIsEligible(p, now);
  }

  lemma CancelRetires(p: Pond, id: Id, now: Time)
    requires JobsHaveRows(p) && id in p.jobs && JobsHaveRows(CancelJob(p, id, now))
    ensures Retires(p, CancelJob(p, id, now), id, now)
  {
  }

  lemma SettleRetires(p: Pond, id: Id, now: Time, retrySeconds: nat)
    requires JobsHaveRows(p) && id in p.jobs && JobsHaveRows(Settle(p, id, LIMIT_REPORT, true, now, retrySeconds))
    ensures Retires(p, Settle(p, id, LIMIT_REPORT, true, now, retrySeconds), id, now)
  {
    Books.SettledIsDone(p, id, now, retrySeconds);
    hide SettledJob, SettledStatus, Recheck, Notify, WillRetry, Eligible;
  }

  lemma RetiredTakes(p: Pond, q: Pond, id: Id, w: Settings, token: Token, now: Time)
    requires JobsHaveRows(p) && JobsHaveRows(q) && id in EligibleJobs(p, now) && Retires(p, q, id, now)
    requires Apart(p, now) && !Due(p, id, now)
    ensures Takes(p, now, token, ClaimNext(q, w, token, now).1)
    decreases |EligibleJobs(p, now)|, 0
  {
    hide Issue, Settle, CancelJob, Takes, Apart, ClaimNext;
    RetiredDue(p, q, id, now);
    Fewer(p, q, id, now);
    ClaimTakes(q, w, token, now);
    SameTakes(p, q, now, token, ClaimNext(q, w, token, now).1, id);
  }

  lemma SameTakes(p: Pond, q: Pond, now: Time, token: Token, r: Option<Claim>, id: Id)
    requires JobsHaveRows(p) && JobsHaveRows(q) && DueJobs(p, now) == DueJobs(q, now)
    requires id in p.jobs && id in q.jobs && q.jobs == p.jobs[id := q.jobs[id]] && id !in DueJobs(q, now)
    requires Takes(q, now, token, r)
    ensures Takes(p, now, token, r)
  {
  }

  // ----- renewal ------------------------------------------------------------------------------------

  /** Renewal succeeds exactly for the owner, and then the claim holds for another lease from
      this moment; nothing else about the jobs changes. */
  lemma RenewLasts(p: Pond, action: Action, c: Claim, now: Time, leaseSeconds: nat)
    ensures Renew(p, action, c, now, leaseSeconds).Committed? <==> Owns(p, action, c, now)
    ensures var r := Renew(p, action, c, now, leaseSeconds);
            r.Committed? ==>
              && Lasts(r.pond, action, c, now + leaseSeconds)
              && r.pond.jobs.Keys == p.jobs.Keys
              && (forall j <- p.jobs :: j != c.job ==> r.pond.jobs[j] == p.jobs[j])
              && r.pond == p.(jobs := r.pond.jobs)
  {
  }

  // ----- publication claims --------------------------------------------------------------------------

  lemma IssuePublishLasts(p: Pond, id: Id, w: Settings, token: Token, now: Time)
    requires id in p.jobs
    ensures Lasts(IssuePublish(p, id, w, token, now), p.jobs[id].key.action,
                  Held(id, p.jobs[id].key.submission, token), now + w.leaseSeconds)
  {
  }

  /** A publication claim holds for the time of a lease, and is on the lowest job that is
      queued and due. */
  lemma PublishClaimLasts(p: Pond, order: seq<Id>, w: Settings, token: Token, now: Time)
    requires JobsHaveRows(p) && forall j <- order :: j in p.jobs
    ensures var (q, r) := ClaimPublish(p, order, w, token, now);
            r.Some? ==>
              && Lasts(q, Publish, r.value, now + w.leaseSeconds)
              && r.value.token == token
              && IsLowest(QueuedJobs(FailAll(p, order, now).jobs, now), r.value.job)
  {
    hide Lasts, FailAll, FailJob, IssuePublish;
    var mid := FailAll(p, order, now);
    if QueuedJobs(mid.jobs, now) != {} {
      IssuePublishLasts(mid, Lowest(QueuedJobs(mid.jobs, now)), w, token, now);
    }
  }

  // ----- what a result does ----------------------------------------------------------------------------

  /** The verdict of a report: nothing found, a check that could not run, or something to
      correct. */
  datatype Judgement = Clean | Infrastructure | Content

  function VerdictOf(report: seq<Finding>): Judgement {
    if report == [] then Clean
    else if exists f <- report :: f.code in {CheckUnavailable, StorageUnavailable, InvalidInventory} then Infrastructure
    else Content
  }

  /** The committed result of a run: the status of the submission and of the job, when the
      job may be claimed again, the findings, the checks of the files, and at most one notice. */
  lemma SettleTells(p: Pond, id: Id, report: seq<Finding>, now: Time, retrySeconds: nat)
    requires id in p.jobs && p.jobs[id].key.submission in p.submissions && p.jobs[id].key.action == Validate
    ensures var q, s := Settle(p, id, report, false, now, retrySeconds), p.jobs[id].key.submission;
            var again := VerdictOf(report) == Infrastructure && p.jobs[id].attempts < p.jobs[id].maxAttempts;
            && q.submissions[s].status == (match VerdictOf(report)
                                           case Clean => ReadyForReview
                                           case Content => NeedsChanges
                                           case Infrastructure => if again then Validating else ValidationFailed)
            && q.jobs[id].status == (if again then RetryWait
                                     else if VerdictOf(report) == Infrastructure then Failed else Succeeded)
            && (forall t :: Eligible(q.jobs[id], t) <==> again && now + retrySeconds <= t)
            && q.jobs[id].attempts == p.jobs[id].attempts && q.issues[id] == report
            && |q.audit| == |p.audit| + 1 && (again ==> q.outbox == p.outbox)
            && (!again && !HasKey(p.outbox, ValidationTerminal(id, p.submissions[s].owner)) ==>
                  q.outbox == p.outbox + [Notice(s, p.submissions[s].owner, q.submissions[s].status,
                                                 ValidationTerminal(id, p.submissions[s].owner))])
  {
    hide HasKey, Recheck;
    VerdictSuggests(report);
  }

  lemma VerdictSuggests(report: seq<Finding>)
    ensures SuggestedStatus(report) == match VerdictOf(report)
                                       case Clean => ReadyForReview
                                       case Infrastructure => ValidationFailed
                                       case Content => NeedsChanges
  {
    assert forall f <- report ::
        Technical(f.code) <==> f.code in {CheckUnavailable, StorageUnavailable, InvalidInventory};
  }

  /** The check of each file row: all pass with a clean report; otherwise those fail that a
      finding names which is no failed check, and the rest is open. */
  lemma FilesTell(p: Pond, id: Id, report: seq<Finding>, now: Time, retrySeconds: nat, f: Id)
    requires id in p.jobs && p.jobs[id].key.submission in p.submissions && f in p.files
    ensures var q := Settle(p, id, report, false, now, retrySeconds);
            && q.files.Keys == p.files.Keys
            && q.files[f] == p.files[f].(check := q.files[f].check)
            && (p.files[f].submission != p.jobs[id].key.submission ==> q.files[f] == p.files[f])
            && (p.files[f].submission == p.jobs[id].key.submission ==>
                  && (q.files[f].check == Passed <==> report == [])
                  && (q.files[f].check == NotPassed <==>
                        exists x <- report ::
                          x.file == Some(f) && x.code != CheckUnavailable && x.code != StorageUnavailable))
  {
  }
}
