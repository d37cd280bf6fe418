/** When the pipeline accepts what its actors ask for, in every state that any run can reach:
    of all the checks in the code, only those listed here can fail. */
module Decisions {
  import opened Schema
  import opened Validation
  import opened Worker
  import opened Review
  import opened Publication
  import opened Intake
  import opened Invariant
  import opened Pipeline
  import opened Safety
  import opened Guarantees
  import opened Leases

  // ----- what a reachable state says about one submission ------------------------------------------

  lemma QuietRow(p: Pond, limits: Limits, s: Id)
    requires Reachable(p, limits) && s in p.submissions && p.submissions[s].status !in {Validating, Importing}
    ensures !AnyActive(p.jobs, s)
  {
    ReachableIndex(p, limits);
    hide Reachable, Inv, Tables, Locals, LiveTemplates, Reservations, UniqueNotices, LeasesOk, Memories, Active;
    if AnyActive(p.jobs, s) {
      var j :| j in p.jobs && p.jobs[j].key.submission == s && Active(p.jobs[j].status);
      ActiveStatus(p, j);
    }
  }

  lemma RowView(p: Pond, limits: Limits, s: Id)
    requires Reachable(p, limits) && s in p.submissions
    ensures Coupled(ViewOf(p, s)) && Frozen(ViewOf(p, s)) && Evidence(ViewOf(p, s))
    ensures IndexOk(p.keys, p.jobs) && JobsOk(p.jobs, p.submissions, p.next)
  {
    ViewAt(p, limits, s);
    ReachableIndex(p, limits);
    hide Reachable, LocalOk, TemplatesOk, ViewOf, Coupled, Frozen, Evidence, IndexOk, JobsOk, Inv, Locals,
      LiveTemplates, Reservations, UniqueNotices, LeasesOk, Memories;
    LocalCoupled(p, s);
  }

  // ----- review -----------------------------------------------------------------------------------

  /** The form was filled in for the content and the validation run that the row still has. */
  predicate Shows(p: Pond, s: Id, form: Form) {
    && s in p.submissions && p.submissions[s].digest == Some(form.digest)
    && JobKey(Validate, s) in p.keys && p.keys[JobKey(Validate, s)] == form.job
  }

  lemma CurrentIsShown(p: Pond, s: Id, form: Form)
    requires s in p.submissions && Frozen(ViewOf(p, s)) && !AnyActive(p.jobs, s)
    ensures FormCurrent(p, s, form) <==> Shows(p, s, form)
  {
    hide SchemaOk, AllPassed, KeysOf, LiveOf, FindingsOf;
  }

  lemma VouchedMayApprove(p: Pond, s: Id, form: Form)
    requires s in p.submissions && Vouched(ViewOf(p, s)) && Shows(p, s, form) && form.job in p.jobs
    requires p.submissions[s].status == ReadyForReview && p.jobs[form.job].status == Succeeded
    ensures MayApprove(p, s, form)
  {
    hide ReferencesOk, KeysOf, LiveOf, RecordsOf;
  }

  lemma FinishedRun(p: Pond, s: Id, form: Form)
    requires s in p.submissions && Coupled(ViewOf(p, s)) && Shows(p, s, form)
    requires IndexOk(p.keys, p.jobs) && JobsOk(p.jobs, p.submissions, p.next)
    requires p.submissions[s].status in {ReadyForReview, NeedsChanges, ValidationFailed}
    ensures form.job in p.jobs && p.jobs[form.job].completedAt.Some? && p.jobs[form.job].status in {Succeeded, Failed}
    ensures p.submissions[s].status == ReadyForReview ==> p.jobs[form.job].status == Succeeded
  {
    hide RecordsOf, AllPassed, KeysOf, LiveOf, FindingsOf;
    assert JobFor(p, Validate, s) == Some(form.job);
    assert JobOk(p.jobs[form.job]);
  }

  /** An approval is recorded if and only if an active system administrator asks for it with a
      note that is not too long, on a form that shows the present content and run, and the
      submission is ready for review. */
  lemma ApprovesExactly(p: Pond, limits: Limits, s: Id, actor: Id, form: Form, now: Time)
    requires Reachable(p, limits) && form.decision == Approve
    ensures (Decide(p, s, actor, form, now).Committed? && Decide(p, s, actor, form, now).value)
       <==> && IsAdmin(p.users, actor) && |form.note| <= MAX_NOTE
            && Shows(p, s, form) && p.submissions[s].status == ReadyForReview
    ensures Decide(p, s, actor, form, now).Committed? && Decide(p, s, actor, form, now).value ==>
              Recorded(p, Decide(p, s, actor, form, now).pond, s, actor, form, Approved, now)
  {
    hide Reachable, Coupled, Frozen, Evidence, ViewOf, IndexOk, JobsOk, FormCurrent, MayApprove, Vouched, RecordsOf,
      AnyActive;
    if s in p.submissions && p.submissions[s].status == ReadyForReview {
      RowView(p, limits, s);
      QuietRow(p, limits, s);
      CurrentIsShown(p, s, form);
      if Shows(p, s, form) {
        FinishedRun(p, s, form);
        ReadyIsVouched(p, s);
        VouchedMayApprove(p, s, form);
      }
    } else if s in p.submissions {
      NotReadyToApprove(p, s, form);
    }
  }

  lemma ReadyIsVouched(p: Pond, s: Id)
    requires s in p.submissions && Evidence(ViewOf(p, s)) && p.submissions[s].status == ReadyForReview
    ensures Vouched(ViewOf(p, s))
  {
    hide Vouched, Sanctioned, RecordsOf, AllPassed, KeysOf, LiveOf, FindingsOf;
  }

  lemma NotReadyToApprove(p: Pond, s: Id, form: Form)
    requires s in p.submissions && p.submissions[s].status != ReadyForReview
    ensures form.job in p.jobs ==> !MayApprove(p, s, form)
  {
  }

  /** What a recorded decision writes: status and approval of the row, one audit entry in the
      name of the actor, one notice to the author. */
  predicate Recorded(p: Pond, q: Pond, s: Id, actor: Id, form: Form, status: SubmissionStatus, now: Time) {
    && s in p.submissions && s in q.submissions
    && q.submissions[s].status == status
    && q.submissions[s].approval == (if status == Approved then Some(Approval(actor, now)) else None)
    && q.submissions[s].manifest == p.submissions[s].manifest && q.submissions[s].digest == p.submissions[s].digest
    && q.audit == p.audit + [Audit(Some(actor), s, SubmissionReview(form.decision, form.digest, form.job), true)]
    && q.outbox == p.outbox + [Notice(s, p.submissions[s].owner, status, ReviewDecided(s, form.digest, form.decision))]
    && q.jobs == p.jobs && q.files == p.files && q.challenges == p.challenges
  }

  /** A rejection is recorded if and only if an active system administrator asks for it with
      a reason, on a current form, and a finished validation awaits its decision. */
  lemma RejectsExactly(p: Pond, limits: Limits, s: Id, actor: Id, form: Form, now: Time)
    requires Reachable(p, limits) && form.decision == Reject
    ensures (Decide(p, s, actor, form, now).Committed? && Decide(p, s, actor, form, now).value)
       <==> && IsAdmin(p.users, actor) && 1 <= |form.note| <= MAX_NOTE
            && Shows(p, s, form) && p.submissions[s].status in {ReadyForReview, NeedsChanges, ValidationFailed}
    ensures Decide(p, s, actor, form, now).Committed? && Decide(p, s, actor, form, now).value ==>
              Recorded(p, Decide(p, s, actor, form, now).pond, s, actor, form, Rejected, now)
  {
    hide Reachable, Coupled, Frozen, Evidence, ViewOf, IndexOk, JobsOk, FormCurrent, MayApprove, Vouched, RecordsOf,
      AnyActive;
    if s in p.submissions && p.submissions[s].status in {ReadyForReview, NeedsChanges, ValidationFailed} {
      RowView(p, limits, s);
      QuietRow(p, limits, s);
      CurrentIsShown(p, s, form);
      if Shows(p, s, form) {
        FinishedRun(p, s, form);
      }
    }
  }

  // ----- publication --------------------------------------------------------------------------------

  /** Publication is queued, or already was, if and only if an active administrator asks for
      the present content, the approver still is one, machines find their adapter, and the
      submission is approved and not yet failed for good. */
  lemma EnqueuesExactly(p: Pond, limits: Limits, s: Id, actor: Id, expected: Option<Digest>, retry: bool,
                        adapterReady: bool, now: Time)
    requires Reachable(p, limits)
    ensures Enqueue(p, s, actor, expected, retry, adapterReady, now).Committed?
       <==> && IsAdmin(p.users, actor) && s in p.submissions && p.submissions[s].digest == expected
            && p.submissions[s].status in {Approved, Importing, ImportFailed, Published}
            && p.submissions[s].approval.Some? && IsAdmin(p.users, p.submissions[s].approval.value.admin)
            && (VmBased(p.submissions[s].manifest) ==> adapterReady)
            && (p.submissions[s].status == ImportFailed ==> retry && MayRetry(p, s))
  {
    if s in p.submissions {
      if AfterApproval(p.submissions[s].status) {
        ApprovalStandsWhileAdmin(p, limits, s);
        RowView(p, limits, s);
        hide Reachable, Coupled, Frozen, Evidence, IndexOk, JobsOk, ApprovalStands, VmBased, QueueAgain, QueueFirst,
          AnyActive;
        PublishJob(p, limits, s);
      }
    }
  }

  /** What is queued can be claimed from that moment on; what was queued before stays as it is. */
  lemma EnqueuedIsDue(p: Pond, limits: Limits, s: Id, actor: Id, expected: Option<Digest>, retry: bool,
                      adapterReady: bool, now: Time)
    requires Reachable(p, limits) && Enqueue(p, s, actor, expected, retry, adapterReady, now).Committed?
    ensures var (q, id) := (Enqueue(p, s, actor, expected, retry, adapterReady, now).pond,
                            Enqueue(p, s, actor, expected, retry, adapterReady, now).value);
            && s in p.submissions && s in q.submissions && q.submissions[s].status in {Importing, Published}
            && JobFor(q, Publish, s) == Some(id)
            && (if p.submissions[s].status in {Approved, ImportFailed}
                then id in QueuedJobs(q.jobs, now) && q.jobs[id].key == JobKey(Publish, s)
                     && q.submissions[s] == p.submissions[s].(status := Importing)
                else q == p)
  {
    ReachableIndex(p, limits);
    hide Reachable, Inv, Tables, Locals, LiveTemplates, Reservations, UniqueNotices, LeasesOk, Memories, Enqueue,
      QueueAgain, QueueFirst, IndexOk;
    EnqueueCases(p, s, actor, expected, retry, adapterReady, now);
    QueuedFirst(p, s, actor, retry, now);
    if JobFor(p, Publish, s).Some? {
      QueuedAgain(p, s, actor, now);
    }
  }

  lemma EnqueueCases(p: Pond, s: Id, actor: Id, expected: Option<Digest>, retry: bool, adapterReady: bool, now: Time)
    requires Enqueue(p, s, actor, expected, retry, adapterReady, now).Committed?
    ensures var (q, id) := (Enqueue(p, s, actor, expected, retry, adapterReady, now).pond,
                            Enqueue(p, s, actor, expected, retry, adapterReady, now).value);
            && s in p.submissions
            && match p.submissions[s].status
               case Approved => q == QueueFirst(p, s, actor, retry, now) && id == p.next
               case ImportFailed => JobFor(p, Publish, s) == Some(id) && id in p.jobs
                                    && q == QueueAgain(p, s, id, actor, now)
               case Importing => q == p && JobFor(p, Publish, s) == Some(id)
               case Published => q == p && JobFor(p, Publish, s) == Some(id)
               case _ => false
  {
    hide QueueFirst, QueueAgain, ApprovalStands, VmBased, AnyActive;
  }

  lemma QueuedFirst(p: Pond, s: Id, actor: Id, retry: bool, now: Time)
    requires s in p.submissions
    ensures var q := QueueFirst(p, s, actor, retry, now);
            && JobFor(q, Publish, s) == Some(p.next) && p.next in QueuedJobs(q.jobs, now)
            && q.jobs[p.next].key == JobKey(Publish, s)
            && q.submissions == p.submissions[s := p.submissions[s].(status := Importing)]
  {
    hide LogAdmin;
  }

  lemma QueuedAgain(p: Pond, s: Id, actor: Id, now: Time)
    requires s in p.submissions && JobKey(Publish, s) in p.keys && IndexOk(p.keys, p.jobs)
    ensures var id := p.keys[JobKey(Publish, s)];
            id in p.jobs
            && var q := QueueAgain(p, s, id, actor, now);
               && JobFor(q, Publish, s) == Some(id) && id in QueuedJobs(q.jobs, now)
               && q.jobs[id].key == JobKey(Publish, s)
               && q.submissions == p.submissions[s := p.submissions[s].(status := Importing)]
  {
    hide LogAdmin;
  }

  /** The failed publication of `s` has an attempt left. */
  predicate MayRetry(p: Pond, s: Id) {
    && JobKey(Publish, s) in p.keys && p.keys[JobKey(Publish, s)] in p.jobs
    && p.jobs[p.keys[JobKey(Publish, s)]].attempts < MAX_ATTEMPTS
  }

  lemma PublishJob(p: Pond, limits: Limits, s: Id)
    requires Reachable(p, limits) && s in p.submissions && AfterApproval(p.submissions[s].status)
    requires Coupled(ViewOf(p, s)) && IndexOk(p.keys, p.jobs) && JobsOk(p.jobs, p.submissions, p.next)
    ensures p.submissions[s].status == Approved ==> JobFor(p, Publish, s).None? && !AnyActive(p.jobs, s)
    ensures p.submissions[s].status in {Importing, Published} ==> JobFor(p, Publish, s).Some?
    ensures p.submissions[s].status == ImportFailed ==>
              && JobFor(p, Publish, s).Some? && JobFor(p, Publish, s).value in p.jobs
              && p.jobs[JobFor(p, Publish, s).value].status == Failed
              && p.jobs[JobFor(p, Publish, s).value].maxAttempts == MAX_ATTEMPTS
  {
    hide Reachable, RecordsOf, AllPassed, KeysOf, LiveOf, FindingsOf, AnyActive, Latest;
    if p.submissions[s].status == Approved {
      QuietRow(p, limits, s);
    }
    if JobKey(Publish, s) in p.keys {
      assert JobOk(p.jobs[p.keys[JobKey(Publish, s)]]);
    }
  }

  /** A failed import is returned if and only if an active administrator gives a reason for
      the present content. */
  lemma ReturnsExactly(p: Pond, limits: Limits, s: Id, actor: Id, expected: Option<Digest>, note: string)
    requires Reachable(p, limits)
    ensures ReturnForCorrection(p, s, actor, expected, note).Committed?
       <==> && 1 <= |note| <= MAX_NOTE && IsAdmin(p.users, actor) && s in p.submissions
            && p.submissions[s].status == ImportFailed && p.submissions[s].digest == expected
  {
    if s in p.submissions && p.submissions[s].status == ImportFailed {
      RowView(p, limits, s);
      hide Reachable, Frozen, Evidence, IndexOk, JobsOk, AnyActive;
      PublishJob(p, limits, s);
      QuietRow(p, limits, s);
    }
  }

  // ----- intake ---------------------------------------------------------------------------------------

  /** Active managers handle their own submissions, active administrators all. */
  predicate Handles(p: Pond, user: Id, s: Id) {
    && user in p.users && p.users[user].active && s in p.submissions
    && (p.users[user].role == Sysadmin || (p.users[user].role == Manager && p.submissions[s].owner == user))
  }

  /** A draft can be submitted by whoever handles it, and submitting again gives the same job:
      nothing else is asked. */
  lemma SubmitsExactly(p: Pond, limits: Limits, user: Id, s: Id, now: Time)
    requires Reachable(p, limits)
    ensures Submit(p, user, s, now).Committed? <==> p.intake == Idle && Handles(p, user, s)
    ensures Submit(p, user, s, now).Committed? ==>
              var q := Submit(p, user, s, now).pond;
              && s in p.submissions && s in q.submissions
              && JobFor(q, Validate, s) == Some(Submit(p, user, s, now).value)
              && (p.submissions[s].status != Draft ==> q == p)
              && (p.submissions[s].status == Draft ==>
                    && q.submissions[s].status == Validating && JobsHaveRows(q) && p.next in DueJobs(q, now)
                    && q.submissions[s].digest == Some(ContentDigest(p.submissions[s].manifest, RecordsOf(p.files, s))))
  {
    if s in p.submissions {
      RowView(p, limits, s);
      ReachableIndex(p, limits);
      hide Reachable, Frozen, Evidence, IndexOk, JobsOk, RecordsOf, LogAdmin, Inv, Locals, LiveTemplates, Reservations,
        UniqueNotices, LeasesOk, Memories;
      SubmittedBefore(p, s);
      Submittable(p, user, s, now);
    }
    HandlesTell(p, user, s);
    hide Handles, MayHandle;
  }

  lemma HandlesTell(p: Pond, user: Id, s: Id)
    ensures MayHandle(p, user, s) <==> Handles(p, user, s)
  {
  }

  /** An upload begins if and only if the size is that of an image, no other intake is under
      way, the user handles the draft, one of its machines brings this image, there is no such
      file yet, and the quotas allow it. */
  lemma UploadsExactly(p: Pond, limits: Limits, user: Id, s: Id, path: string, declared: nat, free: bool)
    ensures BeginUpload(p, limits, user, s, path, declared, free).Committed?
       <==> && 1 <= declared <= 20 * 1024 * 1024 * 1024 && p.intake == Idle && Handles(p, user, s)
            && p.submissions[s].status == Draft
            && (exists v <- p.submissions[s].manifest.vms :: v.source == Image(path))
            && (forall f <- p.files :: p.files[f].submission == s ==> p.files[f].path != path)
            && QuotaAllows(p, limits, p.submissions[s].owner, Some(s), declared, free)
  {
    hide QuotaAllows;
    HandlesTell(p, user, s);
    if s in p.submissions {
      PathIsBrought(p.submissions[s].manifest.vms, path);
    }
  }

  lemma PathIsBrought(vms: seq<VmSpec>, path: string)
    ensures path in ImagePaths(vms) <==> exists v <- vms :: v.source == Image(path)
  {
    if v :| v in vms && v.source == Image(path) {
      assert v.source.path in ImagePaths(vms);
    }
  }

  /** A revision begins if and only if the user handles a submission that was sent back or
      failed, has drafts left, the files are listed once each, and the quotas allow them. */
  lemma RevisesExactly(p: Pond, limits: Limits, user: Id, s: Id, order: seq<Id>, free: bool)
    ensures BeginRevise(p, limits, user, s, order, free).Committed?
       <==> && p.intake == Idle && Handles(p, user, s)
            && p.submissions[s].status in {NeedsChanges, ValidationFailed, Rejected}
            && |DraftsOf(p.submissions, user)| < 20
            && Lists(order, FilesOf(p.files, s))
            && QuotaAllows(p, limits, user, None, Sum(p.files, FilesOf(p.files, s)), free)
  {
    hide QuotaAllows, Lists, DraftsOf, FilesOf, Sum;
    HandlesTell(p, user, s);
  }

  lemma SubmittedBefore(p: Pond, s: Id)
    requires s in p.submissions && Coupled(ViewOf(p, s)) && IndexOk(p.keys, p.jobs)
    ensures JobFor(p, Validate, s).None? <==> p.submissions[s].status == Draft
  {
    hide RecordsOf, AllPassed, KeysOf, LiveOf, FindingsOf;
  }

  lemma Submittable(p: Pond, user: Id, s: Id, now: Time)
    requires Tables(p) && s in p.submissions && (JobFor(p, Validate, s).None? <==> p.submissions[s].status == Draft)
    ensures Submit(p, user, s, now).Committed? <==> p.intake == Idle && MayHandle(p, user, s)
    ensures Submit(p, user, s, now).Committed? ==>
              var q := Submit(p, user, s, now).pond;
              && JobFor(q, Validate, s) == Some(Submit(p, user, s, now).value)
              && (p.submissions[s].status != Draft ==> q == p)
              && (p.submissions[s].status == Draft ==>
                    && q.submissions[s].status == Validating && JobsHaveRows(q) && p.next in DueJobs(q, now)
                    && q.submissions[s].digest == Some(ContentDigest(p.submissions[s].manifest, RecordsOf(p.files, s))))
  {
    hide RecordsOf, LogAdmin, IndexOk, JobOk;
  }

  // ----- claims ---------------------------------------------------------------------------------------

  lemma JobsApart(p: Pond, limits: Limits, now: Time)
    requires Reachable(p, limits)
    ensures Apart(p, now)
  {
    hide Reachable;
    forall j, k | j in EligibleJobs(p, now) && k in EligibleJobs(p, now) && j != k
      ensures p.jobs[j].key.submission != p.jobs[k].key.submission
    {
      if p.jobs[j].key.submission == p.jobs[k].key.submission {
        OneActiveJob(p, limits, j, k);
      }
    }
  }

  lemma RowsOfJobs(p: Pond, limits: Limits)
    requires Reachable(p, limits)
    ensures JobsHaveRows(p)
  {
    ReachableIndex(p, limits);
    hide Reachable, Inv, Locals, LiveTemplates, Reservations, UniqueNotices, LeasesOk, Memories;
    TableFacts(p);
  }

  /** A claim hands out the first due validation, for the time of a lease, and hands out
      nothing only when none is due. */
  lemma ClaimsExactly(p: Pond, limits: Limits, w: Settings, token: Token, now: Time)
    requires Reachable(p, limits)
    ensures JobsHaveRows(p) && Takes(p, now, token, ClaimNext(p, w, token, now).1)
    ensures var (q, r) := ClaimNext(p, w, token, now); r.Some? ==> Lasts(q, Validate, r.value, now + w.leaseSeconds)
  {
    hide Reachable, Takes, Lasts, ClaimNext, Apart, JobsHaveRows;
    RowsOfJobs(p, limits);
    JobsApart(p, limits, now);
    ClaimTakes(p, w, token, now);
    ClaimLasts(p, w, token, now);
  }

  /** Every expired import fails, and nothing else happens to any job. */
  ghost predicate ImportsFailed(p: Pond, q: Pond, order: seq<Id>)
    requires JobsHaveRows(p) && JobsHaveRows(q)
  {
    && q.jobs.Keys == p.jobs.Keys && q.submissions.Keys == p.submissions.Keys
    && (forall j <- order :: j in q.jobs && q.jobs[j].status == Failed
                             && q.submissions[q.jobs[j].key.submission].status == ImportFailed)
    && (forall j <- p.jobs :: q.jobs[j].key == p.jobs[j].key && (j !in order ==> q.jobs[j] == p.jobs[j]))
    && (forall s <- p.submissions :: (forall j <- order :: j in p.jobs && p.jobs[j].key.submission != s) ==>
          q.submissions[s] == p.submissions[s])
  }

  /** Each is importing, and no two are about one submission. */
  ghost predicate Imports(p: Pond, order: seq<Id>)
    requires JobsHaveRows(p)
  {
    && (forall j <- order :: j in p.jobs && p.submissions[p.jobs[j].key.submission].status == Importing)
    && (forall i, k :: 0 <= i < k < |order| && order[i] in p.jobs && order[k] in p.jobs ==>
          order[i] != order[k] && p.jobs[order[i]].key.submission != p.jobs[order[k]].key.submission)
  }

  lemma FailStep(p: Pond, order: seq<Id>, now: Time)
    requires JobsHaveRows(p) && Imports(p, order) && order != []
    ensures var q := FailIfImporting(p, order[0], now);
            JobsHaveRows(q) && Imports(q, order[1..]) && ImportsFailed(p, q, [order[0]])
  {
    var q := FailIfImporting(p, order[0], now);
    assert order[0] in order;
    forall j <- order[1..]
      ensures j in q.jobs && q.jobs[j] == p.jobs[j] && q.submissions[q.jobs[j].key.submission].status == Importing
    {
      var k :| 0 < k < |order| && order[k] == j;
      assert order[k] in order;
    }
  }

  lemma OthersApart(p: Pond, order: seq<Id>)
    requires JobsHaveRows(p) && order != [] && Imports(p, order)
    ensures order[0] in p.jobs && order[0] !in order[1..]
    ensures forall j <- order[1..] :: j in p.jobs && p.jobs[j].key.submission != p.jobs[order[0]].key.submission
  {
    assert order[0] in order;
    forall j <- order[1..]
      ensures j in p.jobs && j != order[0] && p.jobs[j].key.submission != p.jobs[order[0]].key.submission
    {
      var k :| 0 < k < |order| && order[k] == j;
      assert order[k] in order;
    }
  }

  lemma FailedOne(p: Pond, q: Pond, r: Pond, order: seq<Id>, j: Id)
    requires JobsHaveRows(p) && JobsHaveRows(q) && JobsHaveRows(r) && order != [] && Imports(p, order) && j in order
    requires ImportsFailed(p, q, [order[0]]) && ImportsFailed(q, r, order[1..])
    ensures j in r.jobs && r.jobs[j].status == Failed && r.submissions[r.jobs[j].key.submission].status == ImportFailed
  {
    OthersApart(p, order);
    if j == order[0] {
      assert j in [order[0]];
      assert r.jobs[j] == q.jobs[j];
    } else {
      assert j in order[1..];
    }
  }

  lemma OthersStay(p: Pond, q: Pond, r: Pond, order: seq<Id>, s: Id)
    requires JobsHaveRows(p) && JobsHaveRows(q) && JobsHaveRows(r) && order != [] && s in p.submissions
    requires ImportsFailed(p, q, [order[0]]) && ImportsFailed(q, r, order[1..])
    requires forall j <- order :: j in p.jobs && p.jobs[j].key.submission != s
    ensures s in r.submissions && r.submissions[s] == p.submissions[s]
  {
    assert order[0] in order;
    assert q.submissions[s] == p.submissions[s];
    assert forall j <- order[1..] :: j in order;
  }

  lemma FailedFirst(p: Pond, q: Pond, r: Pond, order: seq<Id>)
    requires JobsHaveRows(p) && JobsHaveRows(q) && JobsHaveRows(r) && order != [] && Imports(p, order)
    requires ImportsFailed(p, q, [order[0]]) && ImportsFailed(q, r, order[1..])
    ensures ImportsFailed(p, r, order)
  {
    hide Imports, JobsHaveRows;
    forall j <- order {
      FailedOne(p, q, r, order, j);
    }
    OthersApart(p, order);
    forall s <- p.submissions | forall j <- order :: j in p.jobs && p.jobs[j].key.submission != s {
      OthersStay(p, q, r, order, s);
    }
    forall j <- p.jobs ensures r.jobs[j].key == p.jobs[j].key && (j !in order ==> r.jobs[j] == p.jobs[j]) {
      assert order == [order[0]] + order[1..];
      assert q.jobs[j].key == p.jobs[j].key;
    }
  }

  lemma {:induction false} FailAllTells(p: Pond, order: seq<Id>, now: Time)
    requires JobsHaveRows(p) && Imports(p, order)
    ensures JobsHaveRows(FailAll(p, order, now)) && ImportsFailed(p, FailAll(p, order, now), order)
    decreases |order|
  {
    hide FailIfImporting;
    if order != [] {
      hide ImportsFailed, Imports, JobsHaveRows;
      FailStep(p, order, now);
      var q := FailIfImporting(p, order[0], now);
      FailAllTells(q, order[1..], now);
      ImportsExist(p, order);
      FailedFirst(p, q, FailAll(q, order[1..], now), order);
    }
  }

  lemma ImportsExist(p: Pond, order: seq<Id>)
    requires JobsHaveRows(p) && Imports(p, order)
    ensures forall j <- order :: j in p.jobs
  {
  }

  lemma ExpiredImports(p: Pond, limits: Limits, order: seq<Id>, now: Time)
    requires Reachable(p, limits) && Lists(order, ExpiredJobs(p.jobs, now)) && JobsHaveRows(p)
    ensures Imports(p, order) && forall j <- order :: j in ExpiredJobs(p.jobs, now)
  {
    hide Reachable, JobsHaveRows;
    NothingToCancel(p, limits, now);
    forall j <- order ensures j in ExpiredJobs(p.jobs, now) {
      assert j in (set x | x in order);
    }
    forall i, k | 0 <= i < k < |order| && order[i] in p.jobs && order[k] in p.jobs
      ensures order[i] != order[k] && p.jobs[order[i]].key.submission != p.jobs[order[k]].key.submission
    {
      assert order[i] in order && order[k] in order;
      if p.jobs[order[i]].key.submission == p.jobs[order[k]].key.submission {
        OneActiveJob(p, limits, order[i], order[k]);
      }
    }
  }

  /** A publication that waits to be claimed. */
  predicate Waits(job: Job, now: Time) {
    job.key.action == Publish && job.status == Queued && job.availableAt <= now
  }

  /** A publication claim takes the lowest waiting job, for the time of a lease, and comes back
      empty only when none waits. */
  lemma PublishClaimsExactly(p: Pond, limits: Limits, order: seq<Id>, w: Settings, token: Token, now: Time)
    requires Reachable(p, limits) && Lists(order, ExpiredJobs(p.jobs, now))
    ensures JobsHaveRows(p) && (forall j <- order :: j in p.jobs)
    ensures var (q, r) := ClaimPublish(p, order, w, token, now);
            && (r.None? <==> forall j <- p.jobs :: !Waits(p.jobs[j], now))
            && (r.Some? ==>
                  && Lasts(q, Publish, r.value, now + w.leaseSeconds) && r.value.token == token
                  && r.value.job in p.jobs && Waits(p.jobs[r.value.job], now)
                  && forall j <- p.jobs :: Waits(p.jobs[j], now) ==> r.value.job <= j)
  {
    hide Reachable, Lasts, FailAll, FailJob, IssuePublish, Imports;
    RowsOfJobs(p, limits);
    ExpiredImports(p, limits, order, now);
    var mid := FailAll(p, order, now);
    FailAllTells(p, order, now);
    SameQueue(p, mid, order, now);
    PublishClaimLasts(p, order, w, token, now);
    QueueWaits(p, now);
    if QueuedJobs(p.jobs, now) != {} {
      var id := Lowest(QueuedJobs(p.jobs, now));
      StillImporting(p, limits, mid, order, id, now);
    }
  }

  lemma QueueWaits(p: Pond, now: Time)
    ensures forall j :: j in QueuedJobs(p.jobs, now) <==> j in p.jobs && Waits(p.jobs[j], now)
    ensures QueuedJobs(p.jobs, now) == {} <==> forall j <- p.jobs :: !Waits(p.jobs[j], now)
  {
    assert forall j <- p.jobs :: Waits(p.jobs[j], now) ==> j in QueuedJobs(p.jobs, now);
  }

  /** The same claim fails the running publications whose lease has run out, and touches no
      other that runs. */
  lemma ExpiredFailExactly(p: Pond, limits: Limits, order: seq<Id>, w: Settings, token: Token, now: Time, j: Id)
    requires Reachable(p, limits) && Lists(order, ExpiredJobs(p.jobs, now))
    requires j in p.jobs && p.jobs[j].key.action == Publish && p.jobs[j].status == Running && p.jobs[j].lease.Some?
    ensures JobsHaveRows(p) && (forall k <- order :: k in p.jobs)
    ensures var q := ClaimPublish(p, order, w, token, now).0;
            && j in q.jobs
            && (if p.jobs[j].lease.value.expires <= now
                then q.jobs[j].status == Failed && p.jobs[j].key.submission in q.submissions
                     && q.submissions[p.jobs[j].key.submission].status == ImportFailed
                else q.jobs[j] == p.jobs[j])
  {
    hide Reachable, FailAll, FailJob, IssuePublish, Imports;
    RowsOfJobs(p, limits);
    ExpiredImports(p, limits, order, now);
    var mid := FailAll(p, order, now);
    FailAllTells(p, order, now);
    SameQueue(p, mid, order, now);
    ExpiredListed(p, order, now, j);
    FailedRow(p, mid, order, j);
    if QueuedJobs(p.jobs, now) != {} {
      var id := Lowest(QueuedJobs(p.jobs, now));
      StillImporting(p, limits, mid, order, id, now);
      hide ImportsFailed, JobsHaveRows, QueuedJobs, ExpiredJobs;
      TakenLeavesOthers(mid, id, w, token, now, j);
    }
  }

  lemma ExpiredListed(p: Pond, order: seq<Id>, now: Time, j: Id)
    requires Lists(order, ExpiredJobs(p.jobs, now)) && j in p.jobs && p.jobs[j].lease.Some?
    requires p.jobs[j].key.action == Publish && p.jobs[j].status == Running
    ensures j in order <==> p.jobs[j].lease.value.expires <= now
    ensures j !in QueuedJobs(p.jobs, now)
  {
    assert j in (set x | x in order) <==> j in order;
    assert j in ExpiredJobs(p.jobs, now) <==> Expired(p.jobs[j], now);
  }

  lemma FailedRow(p: Pond, mid: Pond, order: seq<Id>, j: Id)
    requires JobsHaveRows(p) && JobsHaveRows(mid) && ImportsFailed(p, mid, order) && j in p.jobs
    ensures j in mid.jobs && mid.jobs[j].key == p.jobs[j].key && p.jobs[j].key.submission in mid.submissions
    ensures j !in order ==> mid.jobs[j] == p.jobs[j]
    ensures j in order ==> mid.jobs[j].status == Failed
                           && mid.submissions[p.jobs[j].key.submission].status == ImportFailed
  {
  }

  lemma TakenLeavesOthers(mid: Pond, id: Id, w: Settings, token: Token, now: Time, j: Id)
    requires id in mid.jobs && mid.jobs[id].key.submission in mid.submissions && j in mid.jobs && j != id
    requires mid.submissions[mid.jobs[id].key.submission].status == Importing
    requires mid.jobs[id].attempts < mid.jobs[id].maxAttempts
    ensures var q := TakeQueued(mid, id, w, token, now).0;
            j in q.jobs && q.jobs[j] == mid.jobs[j] && q.submissions == mid.submissions
  {
  }

  lemma SameQueue(p: Pond, q: Pond, order: seq<Id>, now: Time)
    requires JobsHaveRows(p) && JobsHaveRows(q) && ImportsFailed(p, q, order)
    requires forall j <- order :: j in ExpiredJobs(p.jobs, now)
    ensures QueuedJobs(q.jobs, now) == QueuedJobs(p.jobs, now)
  {
  }

  lemma StillImporting(p: Pond, limits: Limits, mid: Pond, order: seq<Id>, id: Id, now: Time)
    requires Reachable(p, limits) && JobsHaveRows(p) && JobsHaveRows(mid) && ImportsFailed(p, mid, order)
    requires (forall j <- order :: j in ExpiredJobs(p.jobs, now)) && id in QueuedJobs(p.jobs, now)
    ensures id in mid.jobs && mid.jobs[id].key.submission in mid.submissions
    ensures mid.submissions[mid.jobs[id].key.submission].status == Importing
    ensures mid.jobs[id].attempts < mid.jobs[id].maxAttempts
  {
    hide Reachable;
    NothingToCancel(p, limits, now);
    forall j <- order ensures p.jobs[j].key.submission != p.jobs[id].key.submission {
      if p.jobs[j].key.submission == p.jobs[id].key.submission {
        OneActiveJob(p, limits, j, id);
      }
    }
  }

  /** No validation is ever stuck: from some time on the next claim can take it up, whatever
      became of its worker. */
  lemma ValidationNeverStuck(p: Pond, limits: Limits, s: Id) returns (j: Id, end: Time)
    requires Reachable(p, limits) && s in p.submissions && p.submissions[s].status == Validating
    ensures j in p.jobs && p.jobs[j].key == JobKey(Validate, s)
    ensures forall now :: end <= now ==> j in EligibleJobs(p, now)
  {
    j, end := ActiveEnd(p, limits, s, Validate);
  }

  /** No import is ever stuck: from some time on the next claim runs or fails it. */
  lemma ImportNeverStuck(p: Pond, limits: Limits, s: Id) returns (j: Id, end: Time)
    requires Reachable(p, limits) && s in p.submissions && p.submissions[s].status == Importing
    ensures j in p.jobs && p.jobs[j].key == JobKey(Publish, s)
    ensures forall now :: end <= now ==> j in QueuedJobs(p.jobs, now) + ExpiredJobs(p.jobs, now)
  {
    j, end := ActiveEnd(p, limits, s, Publish);
  }

  lemma ActiveEnd(p: Pond, limits: Limits, s: Id, action: Action) returns (j: Id, end: Time)
    requires Reachable(p, limits) && s in p.submissions && p.submissions[s].status == ActiveFor(action)
    ensures j in p.jobs && p.jobs[j].key == JobKey(action, s) && Active(p.jobs[j].status) && JobOk(p.jobs[j])
    ensures p.jobs[j].status == Running ==> p.jobs[j].lease.Some? && end == p.jobs[j].lease.value.expires
    ensures p.jobs[j].status != Running ==> end == p.jobs[j].availableAt
  {
    StatusTellsActiveJob(p, limits, s);
    RowView(p, limits, s);
    hide Reachable, IndexOk, Coupled, Frozen, Evidence, ViewOf;
    j :| j in p.jobs && p.jobs[j].key == JobKey(action, s) && Active(p.jobs[j].status);
    end := if p.jobs[j].status == Running then p.jobs[j].lease.value.expires else p.jobs[j].availableAt;
  }
}
