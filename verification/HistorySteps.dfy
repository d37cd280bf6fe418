/** Every step of the pipeline makes a later state, so every run does. */
module HistorySteps {
  import opened Schema
  import opened Validation
  import opened Worker
  import opened Review
  import opened Publication
  import opened Intake
  import opened Invariant
  import WorkerKeeps
  import PublicationKeeps
  import opened Books
  import opened Safety
  import opened History

  // ----- validation ------------------------------------------------------------------------------

  lemma SettleLasts(p: Pond, q: Pond, id: Id, report: seq<Finding>, exhausted: bool, now: Time, retrySeconds: nat)
    requires id in p.jobs && p.jobs[id].key.action == Validate && p.jobs[id].status == Running
    requires p.jobs[id].key.submission in p.submissions && p.submissions[p.jobs[id].key.submission].status == Validating
    requires q == Settle(p, id, report, exhausted, now, retrySeconds).(commits := q.commits)
    requires q.commits == p.commits
             || (p.jobs[id].lease.Some? && p.jobs[id].lease.value.token in p.runs
                 && p.runs[p.jobs[id].lease.value.token].job == id
                 && q.commits == p.commits + [p.jobs[id].lease.value.token])
    ensures Lasts(p, q)
  {
    SettleBooks(p, id, report, exhausted, now, retrySeconds);
    SamePlanSelf(p.jobs[id].journal);
    hide SamePlan, SnapshotOf, Lasts;
    assert Edits(p, q, p.jobs[id].key.submission, id);
    EditLasts(p, q, p.jobs[id].key.submission, id);
  }

  lemma IssueLasts(p: Pond, id: Id, w: Settings, token: Token, now: Time)
    requires id in p.jobs && Active(p.jobs[id].status) && p.jobs[id].key.submission in p.submissions && token !in p.runs
    ensures Lasts(p, Issue(p, id, w, token, now))
    ensures Lasts(p, IssuePublish(p, id, w, token, now))
  {
    SamePlanSelf(p.jobs[id].journal);
    hide SamePlan, Lasts;
    var s := p.jobs[id].key.submission;
    assert p.submissions == p.submissions[s := p.submissions[s]];
    assert Edits(p, Issue(p, id, w, token, now), s, id);
    EditLasts(p, Issue(p, id, w, token, now), s, id);
    assert Edits(p, IssuePublish(p, id, w, token, now), s, id);
    EditLasts(p, IssuePublish(p, id, w, token, now), s, id);
  }

  lemma RunningWhenExhausted(p: Pond, id: Id)
    requires Inv(p) && id in p.jobs && Active(p.jobs[id].status) && p.jobs[id].attempts >= p.jobs[id].maxAttempts
    ensures p.jobs[id].status == Running
  {
    hide Locals, LiveTemplates, UniqueNotices, Reservations, LeasesOk, Memories, IndexOk;
  }

  /** One turn of the claim loop that hands nothing out. */
  lemma RetireLasts(p: Pond, id: Id, w: Settings, now: Time)
    requires Inv(p) && id in EligibleJobs(p, now) && p.jobs[id].attempts >= p.jobs[id].maxAttempts
    ensures p.jobs[id].key.submission in p.submissions
    ensures var q := Settle(p, id, LIMIT_REPORT, true, now, w.retrySeconds);
            Inv(q) && Lasts(p, q) && q.runs == p.runs && |EligibleJobs(q, now)| < |EligibleJobs(p, now)|
  {
    TableFacts(p);
    EligibleRowHere(p, id, now);
    hide Inv, Lasts, Eligible, EligibleJobs, LIMIT_REPORT;
    RunningWhenExhausted(p, id);
    var q := Settle(p, id, LIMIT_REPORT, true, now, w.retrySeconds);
    WorkerKeeps.SettleKeeps(p, p.jobs[id].key.submission, id, LIMIT_REPORT, true, now, w.retrySeconds);
    SettleLasts(p, q, id, LIMIT_REPORT, true, now, w.retrySeconds);
    SettledIsDone(p, id, now, w.retrySeconds);
    Fewer(p, q, id, now);
  }

  lemma FirstIsEligible(p: Pond, now: Time)
    requires EligibleJobs(p, now) != {}
    ensures First(p, now) in EligibleJobs(p, now)
  {
    assert IsFirst(p, now, First(p, now));
  }

  lemma ClaimTurn(p: Pond, w: Settings, token: Token, now: Time)
    requires JobsHaveRows(p) && EligibleJobs(p, now) != {}
    requires p.submissions[p.jobs[First(p, now)].key.submission].status == Validating
    ensures var id := First(p, now);
            if p.jobs[id].attempts >= p.jobs[id].maxAttempts
            then var q := Settle(p, id, LIMIT_REPORT, true, now, w.retrySeconds);
                 JobsHaveRows(q) && ClaimNext(p, w, token, now) == ClaimNext(q, w, token, now)
            else ClaimNext(p, w, token, now).0 == Issue(p, id, w, token, now)
  {
    var id := First(p, now);
    if p.jobs[id].attempts >= p.jobs[id].maxAttempts {
      SettledIsDone(p, id, now, w.retrySeconds);
    }
    hide Settle, Issue, IsFirst, Eligible;
  }

  lemma {:induction false} ClaimLasts(p: Pond, w: Settings, token: Token, now: Time)
    requires Inv(p) && token !in p.runs
    ensures JobsHaveRows(p) && Lasts(p, ClaimNext(p, w, token, now).0)
    decreases |EligibleJobs(p, now)|
  {
    TableFacts(p);
    hide Inv, Lasts, Settle, Issue, EligibleJobs, IsFirst, JobsHaveRows;
    LastsReflexive(p);
    if EligibleJobs(p, now) != {} {
      var id := First(p, now);
      FirstIsEligible(p, now);
      EligibleRowHere(p, id, now);
      ClaimTurn(p, w, token, now);
      hide ClaimNext;
      if p.jobs[id].attempts >= p.jobs[id].maxAttempts {
        var q := Settle(p, id, LIMIT_REPORT, true, now, w.retrySeconds);
        RetireLasts(p, id, w, now);
        ClaimLasts(q, w, token, now);
        LastsTransitive(p, q, ClaimNext(q, w, token, now).0);
      } else {
        IssueLasts(p, id, w, token, now);
      }
    }
  }

  lemma EligibleRowHere(p: Pond, id: Id, now: Time)
    requires Inv(p) && id in EligibleJobs(p, now)
    ensures id in p.jobs && Active(p.jobs[id].status) && p.jobs[id].key == JobKey(Validate, p.jobs[id].key.submission)
    ensures p.jobs[id].key.submission in p.submissions
    ensures p.submissions[p.jobs[id].key.submission].status == Validating
  {
    hide Tables, Locals, LiveTemplates, UniqueNotices, Reservations, LeasesOk, Memories;
    WorkerKeeps.EligibleRow(p, id, now);
  }

  lemma FinishLasts(p: Pond, c: Claim, report: seq<Finding>, seen: Snapshot, now: Time, retrySeconds: nat)
    requires Inv(p) && Finish(p, c, report, seen, now, retrySeconds).Committed?
    ensures Lasts(p, Finish(p, c, report, seen, now, retrySeconds).pond)
  {
    hide Tables, Locals, LiveTemplates, UniqueNotices, Reservations, CountsOk, CommitsOk, HoldersOk, Memories, Settle,
      SnapshotOf, Lasts;
    WorkerKeeps.OwnerRun(p, Validate, c, now);
    var checked := if SnapshotOf(p, c.submission, None) == seen then report else [Finding(ContentChanged, None)];
    var q := Finish(p, c, report, seen, now, retrySeconds).pond;
    assert q == Settle(p, c.job, checked, false, now, retrySeconds).(commits := p.commits + [c.token]);
    SettleCommits(p, c.job, checked, now, retrySeconds);
    SettleLasts(p, q, c.job, checked, false, now, retrySeconds);
  }

  lemma SettleCommits(p: Pond, id: Id, report: seq<Finding>, now: Time, retrySeconds: nat)
    requires id in p.jobs && p.jobs[id].key.submission in p.submissions
    ensures Settle(p, id, report, false, now, retrySeconds).commits == p.commits
  {
  }

  /** One job is written and its row is not. */
  lemma JobEditLasts(p: Pond, q: Pond, id: Id)
    requires id in p.jobs && id in q.jobs && p.jobs[id].key.submission in p.submissions
    requires q == p.(jobs := p.jobs[id := q.jobs[id]], runs := q.runs)
    requires forall t <- p.runs ::
               t in q.runs && q.runs[t].job == p.runs[t].job && q.runs[t].attempt == p.runs[t].attempt
    requires JobLasts(p.jobs[id], q.jobs[id])
    requires q.jobs[id].lease.Some? ==>
             p.jobs[id].lease.Some? && q.jobs[id].lease.value.token == p.jobs[id].lease.value.token
    ensures Lasts(p, q)
  {
    hide JobLasts, Lasts;
    var s := p.jobs[id].key.submission;
    assert q.submissions == p.submissions[s := p.submissions[s]];
    assert Edits(p, q, s, id);
    EditLasts(p, q, s, id);
  }

  lemma RenewLasts(p: Pond, action: Action, c: Claim, now: Time, leaseSeconds: nat)
    requires JobsHaveRows(p) && Renew(p, action, c, now, leaseSeconds).Committed?
    ensures Lasts(p, Renew(p, action, c, now, leaseSeconds).pond)
  {
    SamePlanSelf(p.jobs[c.job].journal);
    hide SamePlan, Lasts;
    JobEditLasts(p, Renew(p, action, c, now, leaseSeconds).pond, c.job);
  }

  /** Only what a worker remembers is written. */
  lemma MemoryLasts(p: Pond, t: Token, run: Run)
    requires t in p.runs && run.job == p.runs[t].job && run.attempt == p.runs[t].attempt
    ensures Lasts(p, p.(runs := p.runs[t := run]))
  {
    var q := p.(runs := p.runs[t := run]);
    forall j <- p.jobs ensures JobLasts(p.jobs[j], q.jobs[j]) {
      SamePlanSelf(p.jobs[j].journal);
    }
  }

  lemma ExamineLasts(p: Pond, c: Claim, now: Time)
    requires Examine(p, c, now).Committed?
    ensures Lasts(p, Examine(p, c, now).pond)
  {
    hide Lasts, SnapshotOf;
    var q := Examine(p, c, now).pond;
    MemoryLasts(p, c.token, q.runs[c.token]);
  }

  // ----- review ----------------------------------------------------------------------------------

  lemma DecideLasts(p: Pond, s: Id, actor: Id, form: Form, now: Time)
    requires Decide(p, s, actor, form, now).Committed?
    ensures Lasts(p, Decide(p, s, actor, form, now).pond)
  {
    var q := Decide(p, s, actor, form, now).pond;
    if q == p {
      LastsReflexive(p);
    } else {
      hide Lasts, SamePlan, RecordsOf, MayApprove, FormCurrent;
      SamePlanSelf(p.jobs[form.job].journal);
      assert p.jobs == p.jobs[form.job := p.jobs[form.job]];
      assert Edits(p, q, s, form.job);
      EditLasts(p, q, s, form.job);
    }
  }

  // ----- publication -------------------------------------------------------------------------------

  lemma FailLasts(p: Pond, q: Pond, id: Id, code: FailureCode, now: Time)
    requires id in p.jobs && p.jobs[id].key.action == Publish && p.jobs[id].status == Running
    requires p.jobs[id].key.submission in p.submissions && p.submissions[p.jobs[id].key.submission].status == Importing
    requires q == FailJob(p, id, code, now).(commits := q.commits)
    requires q.commits == p.commits
             || (p.jobs[id].lease.Some? && p.jobs[id].lease.value.token in p.runs
                 && p.runs[p.jobs[id].lease.value.token].job == id
                 && q.commits == p.commits + [p.jobs[id].lease.value.token])
    ensures Lasts(p, q)
  {
    SamePlanSelf(p.jobs[id].journal);
    hide SamePlan, Lasts;
    assert Edits(p, q, p.jobs[id].key.submission, id);
    EditLasts(p, q, p.jobs[id].key.submission, id);
  }

  lemma ExpiredRow(p: Pond, id: Id)
    requires Inv(p) && id in p.jobs && p.jobs[id].key.action == Publish && Active(p.jobs[id].status)
    ensures p.jobs[id].key.submission in p.submissions
    ensures p.submissions[p.jobs[id].key.submission].status == Importing
    ensures p.jobs[id].status == Queued ==> p.jobs[id].attempts < p.jobs[id].maxAttempts
  {
    hide Tables, Locals, LiveTemplates, UniqueNotices, Reservations, LeasesOk, Memories;
    PublicationKeeps.ImportingRow(p, id);
  }

  ghost predicate AllExpired(jobs: map<Id, Job>, order: seq<Id>, now: Time) {
    && (forall j <- order :: j in jobs && Expired(jobs[j], now))
    && (forall i, k :: 0 <= i < k < |order| ==> order[i] != order[k])
  }

  lemma RestExpired(jobs: map<Id, Job>, order: seq<Id>, job: Job, now: Time)
    requires AllExpired(jobs, order, now) && order != []
    ensures AllExpired(jobs[order[0] := job], order[1..], now)
  {
    hide Expired;
    forall j <- order[1..] ensures j in jobs && j != order[0] && Expired(jobs[j], now) {
      assert j in order;
    }
  }

  lemma FailOneLasts(p: Pond, order: seq<Id>, now: Time)
    requires Inv(p) && AllExpired(p.jobs, order, now) && order != []
    ensures order[0] in p.jobs && p.jobs[order[0]].key.submission in p.submissions
    ensures var q := FailIfImporting(p, order[0], now);
            Inv(q) && Lasts(p, q) && AllExpired(q.jobs, order[1..], now)
  {
    var id := order[0];
    assert id in order;
    ExpiredIsRunning(p.jobs[id], now);
    RestExpiredAfter(p, order, now);
    hide Inv, Lasts, AllExpired, FailJob;
    ExpiredRow(p, id);
    FailShape(p, id, LeaseExpiredReconcile, now);
    FailLasts(p, FailJob(p, id, LeaseExpiredReconcile, now), id, LeaseExpiredReconcile, now);
    PublicationKeeps.FailKeeps(p, id, LeaseExpiredReconcile, now);
  }

  lemma RestExpiredAfter(p: Pond, order: seq<Id>, now: Time)
    requires AllExpired(p.jobs, order, now) && order != []
    ensures order[0] in p.jobs
    ensures p.jobs[order[0]].key.submission in p.submissions ==>
              AllExpired(FailJob(p, order[0], LeaseExpiredReconcile, now).jobs, order[1..], now)
  {
    assert order[0] in order;
    hide AllExpired, Expired;
    assert order[0] in p.jobs by {
      HeadListed(p.jobs, order, now);
    }
    if p.jobs[order[0]].key.submission in p.submissions {
      var q := FailJob(p, order[0], LeaseExpiredReconcile, now);
      RestExpired(p.jobs, order, q.jobs[order[0]], now);
    }
  }

  lemma HeadListed(jobs: map<Id, Job>, order: seq<Id>, now: Time)
    requires AllExpired(jobs, order, now) && order != []
    ensures order[0] in jobs && Expired(jobs[order[0]], now)
  {
  }

  lemma {:induction false} FailAllLasts(p: Pond, order: seq<Id>, now: Time)
    requires Inv(p) && AllExpired(p.jobs, order, now)
    ensures JobsHaveRows(p) && (forall j <- order :: j in p.jobs) && Lasts(p, FailAll(p, order, now))
    decreases |order|
  {
    TableFacts(p);
    assert forall j <- order :: j in p.jobs;
    hide Inv, Lasts, FailIfImporting, AllExpired;
    LastsReflexive(p);
    if order != [] {
      var q := FailIfImporting(p, order[0], now);
      FailOneLasts(p, order, now);
      FailAllLasts(q, order[1..], now);
      LastsTransitive(p, q, FailAll(q, order[1..], now));
    }
  }

  lemma ExpiredIsRunning(job: Job, now: Time)
    requires Expired(job, now)
    ensures job.key.action == Publish && job.status == Running
  {
  }

  lemma FailShape(p: Pond, id: Id, code: FailureCode, now: Time)
    requires id in p.jobs && p.jobs[id].key.submission in p.submissions
    ensures var q := FailJob(p, id, code, now);
            q.commits == p.commits && id in q.jobs && q.jobs == p.jobs[id := q.jobs[id]]
  {
  }

  lemma TakeLasts(p: Pond, id: Id, w: Settings, token: Token, now: Time)
    requires Inv(p) && token !in p.runs && id in p.jobs && p.jobs[id].key.action == Publish
             && p.jobs[id].status == Queued
    ensures p.jobs[id].key.submission in p.submissions && Lasts(p, TakeQueued(p, id, w, token, now).0)
  {
    hide Inv, Lasts;
    ExpiredRow(p, id);
    IssueLasts(p, id, w, token, now);
  }

  lemma ClaimPublishLasts(p: Pond, order: seq<Id>, w: Settings, token: Token, now: Time)
    requires Inv(p) && Lists(order, ExpiredJobs(p.jobs, now)) && token !in p.runs
    ensures JobsHaveRows(p) && (forall j <- order :: j in p.jobs)
    ensures Lasts(p, ClaimPublish(p, order, w, token, now).0)
  {
    hide Inv, Lasts, FailAll, TakeQueued, Lowest, Expired;
    PublicationKeeps.ListedAreExpired(p, order, now);
    FailAllLasts(p, order, now);
    PublicationKeeps.FailAllKeeps(p, order, now);
    var mid := FailAll(p, order, now);
    var queued := QueuedJobs(mid.jobs, now);
    if queued != {} {
      var id := Lowest(queued);
      assert id in queued;
      TakeLasts(mid, id, w, token, now);
      LastsTransitive(p, mid, TakeQueued(mid, id, w, token, now).0);
    }
  }

  lemma QueueAgainLasts(p: Pond, s: Id, id: Id, actor: Id, now: Time)
    requires s in p.submissions && p.submissions[s].status == ImportFailed
    requires id in p.jobs && p.jobs[id].key == JobKey(Publish, s) && p.jobs[id].status == Failed
             && p.jobs[id].lease.None?
    ensures Lasts(p, QueueAgain(p, s, id, actor, now))
  {
    SamePlanSelf(p.jobs[id].journal);
    hide SamePlan, Lasts;
    assert Edits(p, QueueAgain(p, s, id, actor, now), s, id);
    EditLasts(p, QueueAgain(p, s, id, actor, now), s, id);
  }

  lemma QueueFirstLasts(p: Pond, s: Id, actor: Id, retry: bool, now: Time)
    requires s in p.submissions && p.submissions[s].status == Approved && p.next !in p.jobs
    requires forall t <- p.runs :: p.runs[t].job in p.jobs
    ensures Lasts(p, QueueFirst(p, s, actor, retry, now))
  {
    hide Lasts;
    assert Starts(p, QueueFirst(p, s, actor, retry, now), s);
    StartLasts(p, QueueFirst(p, s, actor, retry, now), s);
  }

  lemma RunFacts(p: Pond)
    requires Inv(p)
    ensures p.next !in p.jobs && forall t <- p.runs :: p.runs[t].job in p.jobs
    ensures forall j <- p.jobs :: p.jobs[j].status == Failed ==> p.jobs[j].lease.None?
  {
    hide Locals, LiveTemplates, UniqueNotices, Reservations, HoldersOk, CommitsOk, Memories, IndexOk;
  }

  lemma EnqueueLasts(p: Pond, s: Id, actor: Id, expected: Option<Digest>, retry: bool, adapterReady: bool, now: Time)
    requires Inv(p) && Enqueue(p, s, actor, expected, retry, adapterReady, now).Committed?
    ensures Lasts(p, Enqueue(p, s, actor, expected, retry, adapterReady, now).pond)
  {
    hide Tables, Locals, LiveTemplates, UniqueNotices, Reservations, LeasesOk, Memories, ApprovalStands, QueueAgain,
      QueueFirst, Lasts, Enqueue, VmBased, AnyActive;
    var q := Enqueue(p, s, actor, expected, retry, adapterReady, now).pond;
    PublicationKeeps.EnqueueCases(p, s, actor, expected, retry, adapterReady, now);
    RunFacts(p);
    if q == p {
      LastsReflexive(p);
    } else if p.submissions[s].status == ImportFailed {
      PublicationKeeps.IndexedKey(p, Publish, s);
      QueueAgainLasts(p, s, JobFor(p, Publish, s).value, actor, now);
    } else {
      QueueFirstLasts(p, s, actor, retry, now);
    }
  }

  lemma ReturnLasts(p: Pond, s: Id, actor: Id, expected: Option<Digest>, note: string)
    requires Inv(p) && ReturnForCorrection(p, s, actor, expected, note).Committed?
    ensures Lasts(p, ReturnForCorrection(p, s, actor, expected, note).pond)
  {
    hide Inv, Lasts, AnyActive, SamePlan;
    var id := JobFor(p, Publish, s).value;
    var q := ReturnForCorrection(p, s, actor, expected, note).pond;
    RunFacts(p);
    SamePlanSelf(p.jobs[id].journal);
    assert p.jobs == p.jobs[id := p.jobs[id]];
    assert Edits(p, q, s, id);
    EditLasts(p, q, s, id);
  }

  lemma ExaminePublishLasts(p: Pond, c: Claim, report: seq<Finding>, now: Time)
    requires ExaminePublish(p, c, report, now).Committed?
    ensures Lasts(p, ExaminePublish(p, c, report, now).pond)
  {
    hide Lasts, SnapshotOf, ApprovalStands;
    MemoryLasts(p, c.token, ExaminePublish(p, c, report, now).pond.runs[c.token]);
  }

  lemma StageLasts(p: Pond, t: Token, stage: Stage)
    requires t in p.runs
    ensures Lasts(p, AtStage(p, t, stage))
  {
    hide Lasts;
    MemoryLasts(p, t, p.runs[t].(stage := stage));
  }

  lemma ReadJournalLasts(p: Pond, c: Claim, m: Manifest, now: Time)
    requires ReadJournal(p, c, m, now).Committed?
    ensures Lasts(p, ReadJournal(p, c, m, now).pond)
  {
    hide Lasts, JournalOk, AtStage;
    StageLasts(p, c.token, Planning);
    StageLasts(p, c.token, Prepared);
  }

  lemma WriteJournalLasts(p: Pond, c: Claim, m: Manifest, xs: seq<Proposal>, now: Time)
    requires JobsHaveRows(p) && WriteJournal(p, c, m, xs, now).Committed? && p.jobs[c.job].journal == []
    ensures Lasts(p, WriteJournal(p, c, m, xs, now).pond)
  {
    hide Lasts, ProposalsOk, VmidsLive, VmidsReserved, Plans, Vmids;
    JobEditLasts(p, WriteJournal(p, c, m, xs, now).pond, c.job);
  }

  lemma CheckpointLasts(p: Pond, c: Claim, role: string, state: PlanState, task: Option<string>, now: Time)
    requires JobsHaveRows(p) && Checkpoint(p, c, role, state, task, now).Committed?
    ensures Lasts(p, Checkpoint(p, c, role, state, task, now).pond)
  {
    hide Lasts, Marked;
    var journal := p.jobs[c.job].journal;
    MarkedSamePlan(journal, role, state, task);
    JobEditLasts(p, Checkpoint(p, c, role, state, task, now).pond, c.job);
  }

  lemma MarkedSamePlan(journal: seq<Plan>, role: string, state: PlanState, task: Option<string>)
    ensures SamePlan(journal, Marked(journal, role, state, task))
  {
    PublicationKeeps.MarkedKeepsPlan(journal, role, state, task);
    var after := Marked(journal, role, state, task);
    forall i | 0 <= i < |journal| ensures ProposalOf(journal[i]) == ProposalOf(after[i]) {
      assert Proposals(after)[i] == Proposals(journal)[i];
    }
  }

  lemma FailRunLasts(p: Pond, c: Claim, now: Time)
    requires Inv(p) && FailRun(p, c, now).Committed?
    ensures Lasts(p, FailRun(p, c, now).pond)
  {
    hide Tables, Locals, LiveTemplates, UniqueNotices, Reservations, CountsOk, CommitsOk, HoldersOk, Memories,
      FailJob, Lasts;
    PublicationKeeps.OwnerRun(p, Publish, c, now);
    FailShape(p, c.job, PublicationStopped, now);
    FailLasts(p, FailRun(p, c, now).pond, c.job, PublicationStopped, now);
  }

  lemma LiveLasts(p: Pond, q: Pond, s: Id, id: Id, m: Manifest, token: Token)
    requires PublicationKeeps.WentLive(p, q.(commits := p.commits), s, id, m) && q.commits == p.commits + [token]
    requires p.submissions[s].status == Importing && p.jobs[id].status == Running && p.jobs[id].key.action == Publish
    requires p.jobs[id].lease.Some? && p.jobs[id].lease.value.token == token && token in p.runs
             && p.runs[token].job == id
    requires p.next !in p.challenges
    ensures Lasts(p, q)
  {
    hide Lasts, SamePlan, NewChallenge, NewTemplates, LookupsDefined;
    SamePlanSelf(p.jobs[id].journal);
    assert Edits(p, q, s, id);
    EditLasts(p, q, s, id);
  }

  lemma CommitLiveLasts(p: Pond, c: Claim, seen: Snapshot, m: Manifest, now: Time)
    requires Inv(p) && CommitLive(p, c, seen, m, now).Committed?
    ensures Lasts(p, CommitLive(p, c, seen, m, now).pond)
  {
    hide Tables, Locals, LiveTemplates, UniqueNotices, Reservations, CountsOk, CommitsOk, HoldersOk, Memories, GoLive,
      Lasts, ApprovalStands, SnapshotOf, VmidsLive, WorkstationOk, LookupsDefined, PublicationKeeps.WentLive;
    NoChallengeAhead(p);
    PublicationKeeps.OwnerRun(p, Publish, c, now);
    LiveDigest(p, c.submission);
    PublicationKeeps.GoesLive(p, c, m, now);
    LiveCommits(p, c, m, now);
    LiveLasts(p, CommitLive(p, c, seen, m, now).pond, c.submission, c.job, m, c.token);
  }

  lemma LiveCommits(p: Pond, c: Claim, m: Manifest, now: Time)
    requires c.job in p.jobs && c.submission in p.submissions && LookupsDefined(m, p.jobs[c.job].journal)
    requires p.submissions[c.submission].digest.Some?
    ensures GoLive(p, c, m, now).commits == p.commits
  {
    hide LookupsDefined, NewChallenge, NewTemplates;
  }

  lemma LiveDigest(p: Pond, s: Id)
    requires s in p.submissions && ApprovalStands(p, s)
    ensures p.submissions[s].digest.Some?
  {
  }

  lemma NoChallengeAhead(p: Pond)
    requires Inv(p)
    ensures p.next !in p.challenges
  {
    hide Locals, LiveTemplates, UniqueNotices, Reservations, LeasesOk, Memories, IndexOk;
  }

  // ----- intake --------------------------------------------------------------------------------------

  lemma SubmitLasts(p: Pond, user: Id, s: Id, now: Time)
    requires Inv(p) && Submit(p, user, s, now).Committed?
    ensures Lasts(p, Submit(p, user, s, now).pond)
  {
    hide Inv, Lasts, RecordsOf;
    var q := Submit(p, user, s, now).pond;
    RunFacts(p);
    if q == p {
      LastsReflexive(p);
    } else {
      assert Starts(p, q, s);
      StartLasts(p, q, s);
    }
  }

  lemma IntakeParts(p: Pond)
    requires Inv(p)
    ensures Tables(p) && Locals(p) && forall s <- p.submissions :: s < p.next
  {
    TableFacts(p);
    hide Tables, Locals, LiveTemplates, UniqueNotices, Reservations, LeasesOk, Memories;
  }
}
