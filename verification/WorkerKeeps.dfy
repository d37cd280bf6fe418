/** The validation worker's transactions keep the invariant. */
module WorkerKeeps {
  import opened Schema
  import opened Validation
  import opened Worker
  import opened Publication
  import opened Invariant
  import opened Frames

  /** A validation that is not over belongs to a submission in validation. */
  lemma ActiveValidation(v: View)
    requires Coupled(v) && v.vjob.Some? && Active(v.vjob.value.job.status)
    ensures v.row.status == Validating && v.pjob.None?
  {
  }

  lemma RecheckRecords(files: map<Id, File>, s: Id, report: seq<Finding>)
    ensures RecordsOf(Recheck(files, s, report), s) == RecordsOf(files, s)
    ensures report == [] ==> AllPassed(Recheck(files, s, report), s)
    ensures FilesTouched(files, Recheck(files, s, report), s)
  {
  }

  /** The view of `s` after its report has been recorded. */
  ghost predicate SettledView(before: View, after: View, id: Id, report: seq<Finding>, exhausted: bool, now: Time,
                              retrySeconds: nat)
    requires before.vjob.Some?
  {
    var job := before.vjob.value.job;
    && after.row == before.row.(status := SettledStatus(job, report, exhausted))
    && after.vjob == Some(Placed(id, SettledJob(job, report, exhausted, now, retrySeconds)))
    && after.pjob == before.pjob && after.records == before.records && after.findings == report
    && (report == [] ==> after.passed)
    && after.validation.Some?
    && after.validation.value.entry.event
       == SubmissionValidation(id, job.attempts, after.row.status, |report|,
                               if report == [] then before.row.digest else None)
    && after.keys <= before.keys + {ValidationTerminal(id, after.row.owner)}
    && (WillRetry(job, report, exhausted) ==> after.keys == before.keys)
    && after.live == before.live
  }

  /** The jobs and the findings of `s` after its report has been recorded. */
  lemma SettledJobs(p: Pond, s: Id, id: Id, report: seq<Finding>, exhausted: bool, now: Time, retrySeconds: nat)
    requires Tables(p) && id in p.jobs && p.jobs[id].key == JobKey(Validate, s) && s in p.submissions
    ensures var q := Settle(p, id, report, exhausted, now, retrySeconds);
            && PlacedJob(p, Validate, s) == Some(Placed(id, p.jobs[id]))
            && PlacedJob(q, Validate, s)
               == Some(Placed(id, SettledJob(p.jobs[id], report, exhausted, now, retrySeconds)))
            && PlacedJob(q, Publish, s) == PlacedJob(p, Publish, s) && FindingsOf(q, s) == report
  {
    hide WillRetry, SuggestedStatus, Recheck, RecordsOf, AllPassed, HasKey, JobOk;
    var q := Settle(p, id, report, exhausted, now, retrySeconds);
    var job := SettledJob(p.jobs[id], report, exhausted, now, retrySeconds);
    JobPlace(p, id);
    SwapPlaced(p, q, s, id, job, Validate);
    SwapPlaced(p, q, s, id, job, Publish);
  }

  lemma SettledViewHolds(p: Pond, s: Id, id: Id, report: seq<Finding>, exhausted: bool, now: Time, retrySeconds: nat)
    requires Tables(p) && id in p.jobs && p.jobs[id].key == JobKey(Validate, s) && s in p.submissions
    ensures ViewOf(p, s).vjob == Some(Placed(id, p.jobs[id]))
    ensures SettledView(ViewOf(p, s), ViewOf(Settle(p, id, report, exhausted, now, retrySeconds), s),
                        id, report, exhausted, now, retrySeconds)
  {
    hide Tables, PlacedJob, RecordsOf, AllPassed, Latest, KeysOf, Recheck, SuggestedStatus, FindingsOf, HasKey;
    var q := Settle(p, id, report, exhausted, now, retrySeconds);
    SettledJobs(p, s, id, report, exhausted, now, retrySeconds);
    RecheckRecords(p.files, s, report);
    LatestAppend(p.audit, q.audit[|p.audit|], ValidationKind, s);
    KeysFrame(p.outbox, q.outbox, s);
  }

  lemma SettledLocal(s: Id, before: View, after: View, id: Id, report: seq<Finding>, exhausted: bool, now: Time,
                     retrySeconds: nat)
    requires LocalOk(s, before) && before.vjob.Some? && before.vjob.value.id == id
    requires before.vjob.value.job.status == Running
    requires SettledView(before, after, id, report, exhausted, now, retrySeconds)
    requires report == [] ==> ReferencesOk(before.row.manifest)
    ensures LocalOk(s, after) && after.row.status != Published
  {
    ActiveValidation(before);
    assert forall k <- before.keys :: NoticeFits(s, before, k);
  }

  lemma SettledRewrites(p: Pond, s: Id, id: Id, report: seq<Finding>, exhausted: bool, now: Time, retrySeconds: nat)
    requires id in p.jobs && p.jobs[id].key == JobKey(Validate, s) && s in p.submissions
    ensures var q := Settle(p, id, report, exhausted, now, retrySeconds);
            && Rewrites(p, q, s, id, q.submissions[s], q.jobs[id]) && q.jobs[id].key == p.jobs[id].key
            && q.submissions[s].challenge == p.submissions[s].challenge && FilesTouched(p.files, q.files, s)
            && (forall j <- p.jobs :: j != id ==>
                (j in p.issues <==> j in q.issues) && (j in p.issues ==> q.issues[j] == p.issues[j]))
            && Extends(p.audit, q.audit) && (q.audit != p.audit ==> q.audit[|p.audit|].target == s)
  {
    hide WillRetry, SuggestedStatus, Recheck, RecordsOf, AllPassed, FilesTouched, HasKey;
    RecheckRecords(p.files, s, report);
  }

  lemma SettledRows(p: Pond, s: Id, id: Id, report: seq<Finding>, exhausted: bool, now: Time, retrySeconds: nat)
    requires Tables(p) && id in p.jobs && p.jobs[id].key == JobKey(Validate, s) && p.jobs[id].status == Running
    requires s in p.submissions
    ensures var q := Settle(p, id, report, exhausted, now, retrySeconds);
            && JobOk(q.jobs[id]) && FileRowsOk(q.files, p.submissions, p.next)
            && (q.submissions[s].challenge.Some? ==> q.submissions[s].challenge.value in p.challenges)
  {
    hide SuggestedStatus, IndexOk, HasKey;
  }

  lemma SettledTables(p: Pond, s: Id, id: Id, report: seq<Finding>, exhausted: bool, now: Time, retrySeconds: nat)
    requires Tables(p) && id in p.jobs && p.jobs[id].key == JobKey(Validate, s) && p.jobs[id].status == Running
    requires s in p.submissions
    ensures Tables(Settle(p, id, report, exhausted, now, retrySeconds))
    ensures Touches(p, Settle(p, id, report, exhausted, now, retrySeconds), s)
  {
    SettledRewrites(p, s, id, report, exhausted, now, retrySeconds);
    SettledRows(p, s, id, report, exhausted, now, retrySeconds);
    hide Settle, Rewrites, FilesTouched, FileRowsOk, JobOk, Tables, Touches, Extends;
    var q := Settle(p, id, report, exhausted, now, retrySeconds);
    RewriteTables(p, q, s, id, q.submissions[s], q.jobs[id]);
    RewriteTouches(p, q, s, id, q.submissions[s], q.jobs[id]);
  }

  lemma SettledNotices(p: Pond, s: Id, id: Id, report: seq<Finding>, exhausted: bool, now: Time, retrySeconds: nat)
    requires UniqueNotices(p.outbox) && id in p.jobs && p.jobs[id].key == JobKey(Validate, s) && s in p.submissions
    ensures UniqueNotices(Settle(p, id, report, exhausted, now, retrySeconds).outbox)
  {
    var q := Settle(p, id, report, exhausted, now, retrySeconds);
    if q.outbox != p.outbox {
      UniqueAppend(p.outbox, q.outbox[|p.outbox|]);
    }
  }

  lemma SettledQuiet(p: Pond, s: Id, id: Id, report: seq<Finding>, exhausted: bool, now: Time, retrySeconds: nat)
    requires id in p.jobs && p.jobs[id].key == JobKey(Validate, s) && s in p.submissions
    requires p.submissions[s].approval.None?
    ensures Quiet(p, Settle(p, id, report, exhausted, now, retrySeconds))
    ensures ContentKept(p, Settle(p, id, report, exhausted, now, retrySeconds), s)
  {
    RecheckRecords(p.files, s, report);
  }

  /** Recording a report for a running validation keeps the invariant. */
  lemma SettleKeeps(p: Pond, s: Id, id: Id, report: seq<Finding>, exhausted: bool, now: Time, retrySeconds: nat)
    requires Inv(p) && id in p.jobs && p.jobs[id].key == JobKey(Validate, s) && p.jobs[id].status == Running
    requires s in p.submissions && (report == [] ==> ReferencesOk(p.submissions[s].manifest))
    ensures Inv(Settle(p, id, report, exhausted, now, retrySeconds))
  {
    var q := Settle(p, id, report, exhausted, now, retrySeconds);
    SettledViewHolds(p, s, id, report, exhausted, now, retrySeconds);
    SettledLocal(s, ViewOf(p, s), ViewOf(q, s), id, report, exhausted, now, retrySeconds);
    SettledTables(p, s, id, report, exhausted, now, retrySeconds);
    SettledNotices(p, s, id, report, exhausted, now, retrySeconds);
    ActiveValidation(ViewOf(p, s));
    SettledQuiet(p, s, id, report, exhausted, now, retrySeconds);
    QuietStep(p, q, s);
  }

  // ----- claiming ------------------------------------------------------------------------------

  lemma IssuedLocal(s: Id, v: View, id: Id, job: Job, templates: map<Id, Template>)
    requires LocalOk(s, v) && v.vjob.Some? && v.vjob.value.id == id && Active(v.vjob.value.job.status)
    requires job.key.action == Validate && job.status == Running
    ensures LocalOk(s, WithJob(v, id, job)) && TemplatesOk(templates, WithJob(v, id, job))
  {
    ActiveValidation(v);
    assert forall k <- v.keys :: NoticeFits(s, v, k);
  }

  lemma IssueKeeps(p: Pond, s: Id, id: Id, w: Settings, token: Token, now: Time)
    requires Inv(p) && id in p.jobs && p.jobs[id].key == JobKey(Validate, s) && Active(p.jobs[id].status)
    requires p.jobs[id].attempts < p.jobs[id].maxAttempts && token !in p.runs
    ensures Inv(Issue(p, id, w, token, now))
  {
    hide LocalOk, Tables, Locals, LiveTemplates, Memories, Reservations, LeasesOk, UniqueNotices, ViewOf, TemplatesOk;
    var q := Issue(p, id, w, token, now);
    PlaceView(p, s, id);
    SwapView(p, q, s, id, q.jobs[id]);
    IssuedLocal(s, ViewOf(p, s), id, q.jobs[id], q.templates);
    HandOutKeeps(p, q, s, id, q.jobs[id], token);
  }

  lemma EligibleRow(p: Pond, id: Id, now: Time)
    requires Tables(p) && Locals(p) && id in EligibleJobs(p, now)
    ensures var job := p.jobs[id];
            && job.key.submission in p.submissions && p.submissions[job.key.submission].status == Validating
            && Active(job.status) && (job.attempts >= job.maxAttempts ==> job.status == Running)
  {
    var s := p.jobs[id].key.submission;
    PlaceView(p, s, id);
    hide LocalOk, Tables, Locals;
    LocalIsCoupled(s, ViewOf(p, s));
    ActiveValidation(ViewOf(p, s));
  }

  lemma LocalIsCoupled(s: Id, v: View)
    requires LocalOk(s, v)
    ensures Coupled(v) && Frozen(v)
  {
  }

  lemma RowsForJobs(p: Pond)
    requires Tables(p)
    ensures JobsHaveRows(p)
  {
  }

  /** The whole claim transaction keeps the invariant.  A queued or running validation
      always belongs to a submission in validation, so no job is ever cancelled. */
  lemma {:induction false} ClaimKeeps(p: Pond, w: Settings, token: Token, now: Time)
    requires Inv(p) && token !in p.runs
    ensures JobsHaveRows(p) && Inv(ClaimNext(p, w, token, now).0)
    decreases |EligibleJobs(p, now)|
  {
    hide Tables, Locals, LiveTemplates, Memories, Reservations, LeasesOk, UniqueNotices;
    RowsForJobs(p);
    if EligibleJobs(p, now) != {} {
      var id := First(p, now);
      var job := p.jobs[id];
      var s := job.key.submission;
      EligibleRow(p, id, now);
      if job.attempts >= job.maxAttempts {
        var q := Settle(p, id, LIMIT_REPORT, true, now, w.retrySeconds);
        SettleKeeps(p, s, id, LIMIT_REPORT, true, now, w.retrySeconds);
        Fewer(p, q, id, now);
        ClaimKeeps(q, w, token, now);
      } else {
        IssueKeeps(p, s, id, w, token, now);
      }
    }
  }

  // ----- renewing, examining, finishing ------------------------------------------------------------

  /** The same view but for the lease of one job. */
  predicate Released(v: View, w: View) {
    && w == v.(vjob := w.vjob, pjob := w.pjob) && SameButLease(v.vjob, w.vjob) && SameButLease(v.pjob, w.pjob)
  }

  predicate SameButLease(a: Option<Placed>, b: Option<Placed>) {
    if a.None? then b.None? else b.Some? && b == Some(a.value.(job := a.value.job.(lease := b.value.job.lease)))
  }

  lemma ReleasedCoupled(s: Id, v: View, w: View)
    requires Released(v, w) && LocalOk(s, v)
    ensures Coupled(w) && Frozen(w) && Evidence(w) && JournalKept(w)
  {
    hide SchemaOk, ReferencesOk, JournalOk, NoticeFits, Mirrored;
  }

  lemma ReleasedMirrored(s: Id, v: View, w: View, templates: map<Id, Template>)
    requires Released(v, w) && Mirrored(v) && TemplatesOk(templates, v)
    ensures Mirrored(w) && TemplatesOk(templates, w)
  {
    hide LookupsDefined, NewChallenge;
  }

  lemma ReleasedNotices(s: Id, v: View, w: View)
    requires Released(v, w) && forall k <- v.keys :: NoticeFits(s, v, k)
    ensures forall k <- w.keys :: NoticeFits(s, w, k)
  {
    forall k <- w.keys ensures NoticeFits(s, w, k) {
      assert NoticeFits(s, v, k);
    }
  }

  lemma RenewedLocal(s: Id, v: View, id: Id, job: Job, lease: Lease, templates: map<Id, Template>)
    requires LocalOk(s, v) && TemplatesOk(templates, v)
    requires (job.key.action == Validate && v.vjob == Some(Placed(id, job)))
             || (job.key.action == Publish && v.pjob == Some(Placed(id, job)))
    ensures var w := WithJob(v, id, job.(lease := Some(lease)));
            LocalOk(s, w) && TemplatesOk(templates, w)
  {
    hide Coupled, Frozen, Evidence, JournalKept, Mirrored, NoticeFits, TemplatesOk;
    var w := WithJob(v, id, job.(lease := Some(lease)));
    assert Released(v, w);
    ReleasedCoupled(s, v, w);
    ReleasedMirrored(s, v, w, templates);
    ReleasedNotices(s, v, w);
  }

  /** Renewing a lease keeps the invariant, for either worker. */
  lemma RenewKeeps(p: Pond, action: Action, c: Claim, now: Time, leaseSeconds: nat)
    requires Inv(p) && Renew(p, action, c, now, leaseSeconds).Committed?
    ensures Inv(Renew(p, action, c, now, leaseSeconds).pond)
  {
    hide LocalOk, TemplatesOk, Tables, Memories, Locals, LiveTemplates, Reservations, LeasesOk, ViewOf, UniqueNotices,
      WithJob;
    var q := Renew(p, action, c, now, leaseSeconds).pond;
    var s, job := c.submission, p.jobs[c.job];
    var lease := job.lease.value.(expires := now + leaseSeconds);
    PlaceView(p, s, c.job);
    TemplatesAt(p, s);
    RenewedLocal(s, ViewOf(p, s), c.job, job, lease, p.templates);
    SwapKeeps(p, q, s, c.job, job.(lease := Some(lease)));
  }

  lemma TemplatesAt(p: Pond, s: Id)
    requires LiveTemplates(p) && s in p.submissions
    ensures TemplatesOk(p.templates, ViewOf(p, s))
  {
  }

  /** The claim a worker holds is the one its token was issued for. */
  lemma OwnerRun(p: Pond, action: Action, c: Claim, now: Time)
    requires HoldersOk(p) && Owns(p, action, c, now)
    ensures c.token in p.runs && p.runs[c.token].job == c.job && c.token !in p.commits && Holds(p, c.token)
  {
  }

  lemma ExamineKeeps(p: Pond, c: Claim, now: Time)
    requires Inv(p) && Examine(p, c, now).Committed?
    ensures Inv(Examine(p, c, now).pond)
  {
    hide LocalOk, Locals, LiveTemplates, Reservations, UniqueNotices, Tables, CountsOk, CommitsOk, HoldersOk, RecordsOf;
    var q := Examine(p, c, now).pond;
    OwnerRun(p, Validate, c, now);
    assert MemoryOk(p, c.token);
    assert MemoryOk(q, c.token);
    hide MemoryOk, Memories;
    RememberKeeps(p, q, c.token, q.runs[c.token]);
  }

  lemma SettledRelease(p: Pond, c: Claim, report: seq<Finding>, now: Time, retrySeconds: nat)
    requires HoldersOk(p) && Owns(p, Validate, c, now) && c.submission in p.submissions
    ensures var r := Settle(p, c.job, report, false, now, retrySeconds);
            c.token in r.runs && c.token !in r.commits && Unleased(r, c.token) && r.commits == p.commits
  {
    ReleasedIsFree(p, Settle(p, c.job, report, false, now, retrySeconds), c.job);
  }

  /** A finished run commits its token once, and the invariant is kept. */
  lemma FinishKeeps(p: Pond, c: Claim, report: seq<Finding>, seen: Snapshot, now: Time, retrySeconds: nat)
    requires Inv(p) && Finish(p, c, report, seen, now, retrySeconds).Committed?
    requires report == [] ==> ReferencesOk(seen.manifest)
    ensures Inv(Finish(p, c, report, seen, now, retrySeconds).pond)
  {
    hide Locals, LiveTemplates, Reservations, UniqueNotices, Tables, Memories, HoldersOk, CountsOk, CommitsOk, Settle,
      Unleased, RecordsOf, ReferencesOk;
    var checked := if SnapshotOf(p, c.submission, None) == seen then report else [Finding(ContentChanged, None)];
    SettleKeeps(p, c.submission, c.job, checked, false, now, retrySeconds);
    SettledRelease(p, c, checked, now, retrySeconds);
    CommitKeeps(Settle(p, c.job, checked, false, now, retrySeconds), c.token);
  }
}
