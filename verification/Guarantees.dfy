/** What the pipeline guarantees in every state that any run can reach. */
module Guarantees {
  import opened Schema
  import opened Validation
  import opened Worker
  import opened Publication
  import opened Intake
  import opened Invariant
  import opened Frames
  import WorkerKeeps
  import PublicationKeeps
  import opened Conservation
  import opened Coverage
  import opened Pipeline
  import opened Safety
  import opened History
  import opened HistorySteps
  import opened Runs
  import opened Orphans

  ghost predicate Reachable(p: Pond, limits: Limits) {
    exists start, steps :: Initial(start) && p == Exec(start, limits, steps)
  }

  lemma ReachableGood(p: Pond, limits: Limits)
    requires Reachable(p, limits)
    ensures Good(p, limits)
  {
    hide Good, Initial, Exec;
    var start, steps :| Initial(start) && p == Exec(start, limits, steps);
    ReachableIsGood(start, limits, steps);
  }

  /** Whatever follows a reachable state is reachable, so that everything below holds at every
      later point of a run too. */
  lemma ReachableStays(p: Pond, limits: Limits, steps: seq<Step>)
    requires Reachable(p, limits)
    ensures Reachable(Exec(p, limits, steps), limits)
  {
    hide Initial, Exec;
    var start, first :| Initial(start) && p == Exec(start, limits, first);
    ExecSplits(start, limits, first, steps);
  }

  lemma ViewAt(p: Pond, limits: Limits, s: Id)
    requires Reachable(p, limits) && s in p.submissions
    ensures LocalOk(s, ViewOf(p, s)) && TemplatesOk(p.templates, ViewOf(p, s))
  {
    hide Reachable, LocalOk, TemplatesOk, Conserved, Tables, UniqueNotices, Reservations, LeasesOk, Memories, ViewOf;
    ReachableGood(p, limits);
  }

  // ----- provenance of published challenges -------------------------------------------------

  /** Audit entry `v`: a finished validation of the current content of `s` found nothing. */
  predicate AttestedAt(p: Pond, s: Id, job: Id, v: nat)
    requires s in p.submissions
  {
    && v < |p.audit| && p.audit[v].target == s && p.audit[v].event.SubmissionValidation?
    && var e := p.audit[v].event;
       && e.job == job && e.status == ReadyForReview && e.issueCount == 0
       && e.attested == Some(ContentDigest(p.submissions[s].manifest, RecordsOf(p.files, s)))
  }

  /** Audit entry `r`: the recorded approver, then an active system administrator,
      approved the current content of `s` on the strength of that validation. */
  predicate ApprovedAt(p: Pond, s: Id, job: Id, r: nat)
    requires s in p.submissions
  {
    && r < |p.audit| && p.submissions[s].approval.Some?
    && p.audit[r] == Audit(Some(p.submissions[s].approval.value.admin), s,
                           SubmissionReview(Approve, ContentDigest(p.submissions[s].manifest, RecordsOf(p.files, s)),
                                            job),
                           true)
  }

  ghost predicate Sourced(p: Pond, s: Id)
    requires s in p.submissions
  {
    exists v, r, j :: v < r && j in p.jobs && p.jobs[j].key == JobKey(Validate, s) && p.jobs[j].status == Succeeded
                      && AttestedAt(p, s, j, v) && ApprovedAt(p, s, j, r)
  }

  lemma SourcedView(p: Pond, s: Id)
    requires s in p.submissions && Vouched(ViewOf(p, s)) && Sanctioned(ViewOf(p, s)) && Frozen(ViewOf(p, s))
    requires JobIs(ViewOf(p, s).vjob, {Succeeded}) && ViewOf(p, s).row.status != Draft
    requires IndexOk(p.keys, p.jobs)
    ensures Sourced(p, s)
  {
    hide SchemaOk, ReferencesOk, RecordsOf, AllPassed, KeysOf;
    var v := ViewOf(p, s);
    var j := v.vjob.value.id;
    assert JobKey(Validate, s) in p.keys && p.jobs[j].key == JobKey(Validate, s);
    assert AttestedAt(p, s, j, v.validation.value.index);
    assert ApprovedAt(p, s, j, v.review.value.index);
  }

  lemma SourcedLocal(p: Pond, s: Id)
    requires s in p.submissions && LocalOk(s, ViewOf(p, s)) && AfterApproval(p.submissions[s].status)
    requires IndexOk(p.keys, p.jobs)
    ensures Sourced(p, s)
  {
    hide JournalKept, Mirrored, NoticeFits, Sourced, Vouched, Sanctioned, Frozen, RecordsOf;
    SourcedView(p, s);
  }

  /** Whatever is approved, importing or published was first attested with no finding and
      then approved by an active system administrator, for exactly its current content. */
  lemma ApprovedContentIsSourced(p: Pond, limits: Limits, s: Id)
    requires Reachable(p, limits) && s in p.submissions && AfterApproval(p.submissions[s].status)
    ensures Sourced(p, s)
  {
    ReachableIndex(p, limits);
    ViewAt(p, limits, s);
    hide Reachable, LocalOk, TemplatesOk, ViewOf, Sourced;
    SourcedLocal(p, s);
  }

  lemma ReachableIndex(p: Pond, limits: Limits)
    requires Reachable(p, limits)
    ensures Inv(p) && Tables(p) && IndexOk(p.keys, p.jobs) && LeasesOk(p) && UniqueNotices(p.outbox)
            && Reservations(p.jobs)
    ensures Locals(p) && Memories(p) && LiveTemplates(p)
  {
    hide Reachable, Conserved, Locals, LiveTemplates, UniqueNotices, Reservations, LeasesOk, Memories, IndexOk,
      JobsOk, RowsOk, FileRowsOk;
    ReachableGood(p, limits);
  }

  /** The live challenge of a published submission. */
  ghost predicate LiveFrom(p: Pond, s: Id, j: Id)
    requires s in p.submissions && p.submissions[s].challenge.Some? && j in p.jobs
  {
    var row, c := p.submissions[s], p.submissions[s].challenge.value;
    && c in p.challenges && ReferencesOk(row.manifest)
    && LookupsDefined(row.manifest, p.jobs[j].journal)
    && p.challenges[c] == NewChallenge(row.manifest, p.jobs[j].journal, c + 1, row.owner)
    && TemplatesMatch(p.templates, row.manifest, p.jobs[j].journal, c + 1)
    && |p.jobs[j].journal| == |row.manifest.vms|
    && (p.jobs[j].journal != [] ==> JournalOk(row.manifest.vms, j, p.jobs[j].journal))
  }

  lemma LiveLocal(p: Pond, s: Id)
    requires s in p.submissions && LocalOk(s, ViewOf(p, s)) && TemplatesOk(p.templates, ViewOf(p, s))
    requires p.submissions[s].status == Published && IndexOk(p.keys, p.jobs)
    ensures p.submissions[s].challenge.Some? && JobFor(p, Publish, s).Some? && JobFor(p, Publish, s).value in p.jobs
    ensures LiveFrom(p, s, JobFor(p, Publish, s).value)
  {
    hide SchemaOk, ReferencesOk, RecordsOf, AllPassed, KeysOf, JournalOk, NoticeFits, LookupsDefined, TemplatesMatch,
      NewChallenge, Sanctioned, Frozen, Coupled;
  }

  /** Provenance: a published submission was attested and approved for the content it
      still has, and its live challenge and templates are the image of that manifest and
      of the journal of its publication. */
  lemma PublishedIsSourced(p: Pond, limits: Limits, s: Id)
    requires Reachable(p, limits) && s in p.submissions && p.submissions[s].status == Published
    ensures Sourced(p, s)
    ensures p.submissions[s].challenge.Some? && JobFor(p, Publish, s).Some? && JobFor(p, Publish, s).value in p.jobs
    ensures LiveFrom(p, s, JobFor(p, Publish, s).value)
  {
    ApprovedContentIsSourced(p, limits, s);
    ReachableIndex(p, limits);
    ViewAt(p, limits, s);
    hide Reachable, LocalOk, TemplatesOk, ViewOf, Sourced, LiveFrom, Tables, LeasesOk, UniqueNotices, Reservations,
      Locals, Memories, LiveTemplates, Inv;
    LiveLocal(p, s);
  }

  /** Published machines: each one of the manifest runs, with its own size and boot order. */
  lemma PublishedMachinesRun(p: Pond, limits: Limits, s: Id, vm: VmSpec)
    requires Reachable(p, limits) && s in p.submissions && p.submissions[s].status == Published
    requires vm in p.submissions[s].manifest.vms
    ensures p.submissions[s].challenge.Some? && p.submissions[s].challenge.value in p.challenges
    ensures exists a <- p.challenges[p.submissions[s].challenge.value].assignments :: Serves(vm, a, p.templates)
  {
    PublishedIsSourced(p, limits, s);
    LiveMachine(p, s, JobFor(p, Publish, s).value, vm);
  }

  lemma LiveMachine(p: Pond, s: Id, j: Id, vm: VmSpec)
    requires s in p.submissions && p.submissions[s].challenge.Some? && j in p.jobs && LiveFrom(p, s, j)
    requires vm in p.submissions[s].manifest.vms
    ensures exists a <- p.challenges[p.submissions[s].challenge.value].assignments :: Serves(vm, a, p.templates)
  {
    hide Serves, TemplatesMatch, JournalOk, ReferencesOk, LookupsDefined, NewAssignments;
    MachinesServed(p.submissions[s].manifest, j, p.jobs[j].journal, p.submissions[s].challenge.value + 1, p.templates,
                   vm);
  }

  // ----- checks that are made again never fail ------------------------------------------------

  lemma RememberedContent(p: Pond, action: Action, c: Claim, now: Time)
    requires Tables(p) && Memories(p) && HoldersOk(p) && Owns(p, action, c, now) && c.token in p.runs
    requires p.runs[c.token].snapshot.Some?
    ensures c.submission in p.submissions
    ensures var seen, row := p.runs[c.token].snapshot.value, p.submissions[c.submission];
            && seen.(approval := None) == SnapshotOf(p, c.submission, None)
            && (action == Validate ==> seen.approval.None?)
            && (action == Publish ==>
                  (row.approval.Some? ==> seen.approval == row.approval) && ReferencesOk(row.manifest))
  {
    hide Tables, Memories, RecordsOf, ReferencesOk, HoldersOk;
    WorkerKeeps.OwnerRun(p, action, c, now);
    PublicationKeeps.MemoryAt(p, c.token);
  }

  /** A worker that still owns its claim always commits the report it made: the content
      check of `finish` never replaces it. */
  lemma FinishKeepsTheReport(p: Pond, limits: Limits, c: Claim, report: seq<Finding>, now: Time, retrySeconds: nat)
    requires Reachable(p, limits) && Owns(p, Validate, c, now) && AtStageOf(p, c.token, Examined)
    ensures c.job in p.jobs && p.jobs[c.job].key.submission in p.submissions
    ensures Finish(p, c, report, p.runs[c.token].snapshot.value, now, retrySeconds)
         == Committed(Settle(p, c.job, report, false, now, retrySeconds).(commits := p.commits + [c.token]), ())
  {
    ReachableIndex(p, limits);
    OwnerRow(p, Validate, c, now);
    hide Reachable, Tables, Memories, Locals, LiveTemplates, Reservations, UniqueNotices, CountsOk, CommitsOk, Settle,
      RecordsOf, Inv, HoldersOk;
    RememberedContent(p, Validate, c, now);
  }

  /** Owning a claim means that the submission is where the claim found it. */
  lemma OwnerRow(p: Pond, action: Action, c: Claim, now: Time)
    requires Tables(p) && Locals(p) && Owns(p, action, c, now)
    ensures c.submission in p.submissions
    ensures p.submissions[c.submission].status == (if action == Validate then Validating else Importing)
  {
    hide Locals, LocalOk, Tables, ViewOf;
    PlaceView(p, c.submission, c.job);
    LocalCoupled(p, c.submission);
  }

  lemma LocalCoupled(p: Pond, s: Id)
    requires s in p.submissions && LocalOk(s, ViewOf(p, s))
    ensures Coupled(ViewOf(p, s)) && Frozen(ViewOf(p, s)) && Evidence(ViewOf(p, s)) && JournalKept(ViewOf(p, s))
  {
    hide Coupled, Frozen, Evidence, JournalKept, ViewOf;
  }

  lemma StandingView(p: Pond, s: Id)
    requires s in p.submissions && Evidence(ViewOf(p, s)) && Frozen(ViewOf(p, s))
             && AfterApproval(p.submissions[s].status)
    ensures p.submissions[s].approval.Some? && p.submissions[s].digest.Some?
    ensures ApprovalStands(p, s) <==> IsAdmin(p.users, p.submissions[s].approval.value.admin)
  {
    hide Vouched, SchemaOk, AllPassed, KeysOf;
  }

  /** The re-check of approval and digest fails only when the approver lost the role. */
  lemma ApprovalStandsWhileAdmin(p: Pond, limits: Limits, s: Id)
    requires Reachable(p, limits) && s in p.submissions && AfterApproval(p.submissions[s].status)
    ensures p.submissions[s].approval.Some?
    ensures ApprovalStands(p, s) <==> IsAdmin(p.users, p.submissions[s].approval.value.admin)
  {
    ViewAt(p, limits, s);
    LocalCoupled(p, s);
    hide Reachable, LocalOk, TemplatesOk, ViewOf, Evidence, Frozen, ApprovalStands;
    StandingView(p, s);
  }

  lemma OwnersPlan(p: Pond, c: Claim, now: Time)
    requires Tables(p) && Locals(p) && Owns(p, Publish, c, now) && c.submission in p.submissions
    requires |p.jobs[c.job].journal| == |p.submissions[c.submission].manifest.vms|
    requires ReferencesOk(p.submissions[c.submission].manifest)
    ensures LookupsDefined(p.submissions[c.submission].manifest, p.jobs[c.job].journal)
  {
    PlaceView(p, c.submission, c.job);
    LocalCoupled(p, c.submission);
    hide Locals, LocalOk, Tables, Coupled, Evidence, RecordsOf, AllPassed, KeysOf, ReferencesOk, LookupsDefined,
      JournalOk;
    var m, journal := p.submissions[c.submission].manifest, p.jobs[c.job].journal;
    if journal == [] {
      NoMachinesPlan(m);
    } else {
      LookupsAreDefined(m, c.job, journal);
    }
  }

  lemma NoMachinesPlan(m: Manifest)
    requires SchemaOk(m) && m.vms == []
    ensures LookupsDefined(m, [])
  {
  }

  lemma CommitLiveCases(p: Pond, c: Claim, seen: Snapshot, m: Manifest, now: Time)
    requires Owns(p, Publish, c, now) && c.submission in p.submissions
             && p.submissions[c.submission].status == Importing
    requires SnapshotOf(p, c.submission, p.submissions[c.submission].approval) == seen
    requires |p.jobs[c.job].journal| == |m.vms| ==> LookupsDefined(m, p.jobs[c.job].journal)
    ensures var journal := p.jobs[c.job].journal;
            CommitLive(p, c, seen, m, now).Committed?
            <==> && ApprovalStands(p, c.submission) && |journal| == |m.vms|
                 && (forall x <- journal :: x.state == ReadyVm)
                 && !VmidsLive(p.templates, Vmids(journal)) && WorkstationOk(p, m)
  {
    hide ApprovalStands, LookupsDefined, VmidsLive, WorkstationOk, GoLive, SnapshotOf;
  }

  lemma SeenIsCurrent(p: Pond, s: Id, seen: Snapshot)
    requires s in p.submissions && seen.(approval := None) == SnapshotOf(p, s, None)
    requires seen.approval == p.submissions[s].approval
    ensures seen == SnapshotOf(p, s, p.submissions[s].approval) && seen.manifest == p.submissions[s].manifest
  {
    hide RecordsOf;
  }

  /** No planned number belongs to a template, and the workstation that the manifest names is
      an active template. */
  predicate ResourcesThere(p: Pond, m: Manifest, journal: seq<Plan>) {
    && (forall x <- journal, t <- p.templates :: p.templates[t].vmid != x.vmid)
    && (m.workstation.Some? ==> m.workstation.value in p.templates && p.templates[m.workstation.value].active)
  }

  lemma ResourcesTell(p: Pond, m: Manifest, journal: seq<Plan>)
    ensures ResourcesThere(p, m, journal) <==> !VmidsLive(p.templates, Vmids(journal)) && WorkstationOk(p, m)
  {
    forall x <- journal ensures x.vmid in Vmids(journal) {
    }
  }

  /** Going live is refused to the owner of the claim only for a reason outside the
      submission: the approver, the readiness of resources, a VM number taken by a live
      template, or the workstation template.  No role lookup fails. */
  lemma GoingLiveFailsOnlyOutside(p: Pond, limits: Limits, c: Claim, now: Time)
    requires Reachable(p, limits) && Owns(p, Publish, c, now)
    requires c.token in p.runs && p.runs[c.token].snapshot.Some?
    ensures c.submission in p.submissions && p.submissions[c.submission].approval.Some?
    ensures var m, journal := p.submissions[c.submission].manifest, p.jobs[c.job].journal;
            && m == p.runs[c.token].snapshot.value.manifest
            && (CommitLive(p, c, p.runs[c.token].snapshot.value, m, now).Committed?
                <==> && IsAdmin(p.users, p.submissions[c.submission].approval.value.admin)
                     && |journal| == |m.vms| && (forall x <- journal :: x.state == ReadyVm)
                     && ResourcesThere(p, m, journal))
  {
    ReachableIndex(p, limits);
    OwnerRow(p, Publish, c, now);
    ApprovalStandsWhileAdmin(p, limits, c.submission);
    hide Reachable, Memories, Locals, LiveTemplates, Reservations, UniqueNotices, LeasesOk, RecordsOf, Inv, Tables,
      ApprovalStands, ReferencesOk, LookupsDefined, VmidsLive, WorkstationOk, CommitLive, SnapshotOf;
    OwnersMemory(p, c, now);
    ResourcesTell(p, p.submissions[c.submission].manifest, p.jobs[c.job].journal);
    hide ResourcesThere;
    if |p.jobs[c.job].journal| == |p.submissions[c.submission].manifest.vms| {
      OwnersPlan(p, c, now);
    }
    CommitLiveCases(p, c, p.runs[c.token].snapshot.value, p.submissions[c.submission].manifest, now);
  }

  lemma OwnersMemory(p: Pond, c: Claim, now: Time)
    requires Tables(p) && Memories(p) && LeasesOk(p) && Owns(p, Publish, c, now) && c.token in p.runs
    requires p.runs[c.token].snapshot.Some? && c.submission in p.submissions
             && p.submissions[c.submission].approval.Some?
    ensures var seen, row := p.runs[c.token].snapshot.value, p.submissions[c.submission];
            seen == SnapshotOf(p, c.submission, row.approval) && seen.manifest == row.manifest
            && ReferencesOk(row.manifest)
  {
    hide Tables, Memories, SnapshotOf, ReferencesOk, HoldersOk, CountsOk, CommitsOk;
    RememberedContent(p, Publish, c, now);
    SeenIsCurrent(p, c.submission, p.runs[c.token].snapshot.value);
  }

  // ----- status and jobs ---------------------------------------------------------------------------

  /** The active jobs of `s` are exactly one job of this action. */
  ghost predicate OnlyActive(jobs: map<Id, Job>, s: Id, action: Action) {
    exists j :: j in jobs && jobs[j].key == JobKey(action, s) && Active(jobs[j].status)
                && forall k <- jobs :: jobs[k].key.submission == s && Active(jobs[k].status) ==> k == j
  }

  lemma ActiveStatus(p: Pond, j: Id)
    requires Tables(p) && Locals(p) && j in p.jobs && Active(p.jobs[j].status)
    ensures var k := p.jobs[j].key;
            k.submission in p.submissions && k in p.keys && p.keys[k] == j
            && p.submissions[k.submission].status == (if k.action == Validate then Validating else Importing)
  {
    var s := p.jobs[j].key.submission;
    JobPlace(p, j);
    hide Tables, Locals, LocalOk, ViewOf, Coupled, PlacedJob;
    PlaceView(p, s, j);
    LocalCoupled(p, s);
    if p.jobs[j].key.action == Validate {
      WorkerKeeps.ActiveValidation(ViewOf(p, s));
    } else {
      PublicationKeeps.ActivePublication(s, ViewOf(p, s));
    }
  }

  lemma StatusHasJob(p: Pond, s: Id, action: Action)
    requires IndexOk(p.keys, p.jobs) && s in p.submissions && Coupled(ViewOf(p, s))
    requires p.submissions[s].status == (if action == Validate then Validating else Importing)
    ensures JobKey(action, s) in p.keys && p.keys[JobKey(action, s)] in p.jobs
    ensures p.jobs[p.keys[JobKey(action, s)]].key == JobKey(action, s)
            && Active(p.jobs[p.keys[JobKey(action, s)]].status)
  {
    hide RecordsOf, AllPassed, KeysOf;
  }

  function ActiveFor(action: Action): SubmissionStatus {
    if action == Validate then Validating else Importing
  }

  /** An active job of a submission in this status is the one that the index gives. */
  lemma ActiveIsIndexed(p: Pond, s: Id, action: Action, k: Id)
    requires Tables(p) && Locals(p) && s in p.submissions && p.submissions[s].status == ActiveFor(action)
    requires k in p.jobs && p.jobs[k].key.submission == s && Active(p.jobs[k].status)
    ensures JobKey(action, s) in p.keys && k == p.keys[JobKey(action, s)]
  {
    hide Tables, Locals, Active;
    ActiveStatus(p, k);
    assert p.jobs[k].key == JobKey(p.jobs[k].key.action, s);
  }

  lemma StatusGivesActive(p: Pond, s: Id, action: Action)
    requires Tables(p) && Locals(p) && s in p.submissions && p.submissions[s].status == ActiveFor(action)
    ensures OnlyActive(p.jobs, s, action)
  {
    hide Tables, Locals, Coupled, ViewOf, IndexOk, Active;
    LocalCoupledAt(p, s);
    TablesIndex(p);
    StatusHasJob(p, s, action);
    var j := p.keys[JobKey(action, s)];
    forall k <- p.jobs | p.jobs[k].key.submission == s && Active(p.jobs[k].status) ensures k == j {
      ActiveIsIndexed(p, s, action, k);
    }
  }

  lemma OneActionActive(p: Pond, s: Id, action: Action)
    requires Tables(p) && Locals(p) && s in p.submissions
    ensures p.submissions[s].status == ActiveFor(action) <==> OnlyActive(p.jobs, s, action)
  {
    hide Tables, Locals, Active;
    if OnlyActive(p.jobs, s, action) {
      var j :| j in p.jobs && p.jobs[j].key == JobKey(action, s) && Active(p.jobs[j].status);
      ActiveStatus(p, j);
    }
    if p.submissions[s].status == ActiveFor(action) {
      StatusGivesActive(p, s, action);
    }
  }

  lemma LocalCoupledAt(p: Pond, s: Id)
    requires Locals(p) && s in p.submissions
    ensures Coupled(ViewOf(p, s))
  {
    hide LocalOk, ViewOf, Coupled;
    LocalCoupled(p, s);
  }

  lemma TablesIndex(p: Pond)
    requires Tables(p)
    ensures IndexOk(p.keys, p.jobs)
  {
    hide IndexOk;
  }

  /** A submission is in validation, or importing, exactly when its only active job is one
      validate, or one publish, job. */
  lemma StatusTellsActiveJob(p: Pond, limits: Limits, s: Id)
    requires Reachable(p, limits) && s in p.submissions
    ensures p.submissions[s].status == Validating <==> OnlyActive(p.jobs, s, Validate)
    ensures p.submissions[s].status == Importing <==> OnlyActive(p.jobs, s, Publish)
  {
    ReachableIndex(p, limits);
    hide Reachable, Memories, Locals, LiveTemplates, Reservations, UniqueNotices, LeasesOk, Inv, Tables, OnlyActive;
    OneActionActive(p, s, Validate);
    OneActionActive(p, s, Publish);
  }

  /** The partial unique index on active jobs is never violated. */
  lemma OneActiveJob(p: Pond, limits: Limits, j: Id, k: Id)
    requires Reachable(p, limits) && j in p.jobs && k in p.jobs && p.jobs[j].key.submission == p.jobs[k].key.submission
    requires Active(p.jobs[j].status) && Active(p.jobs[k].status)
    ensures j == k
  {
    ReachableIndex(p, limits);
    hide Reachable, Memories, Locals, LiveTemplates, Reservations, UniqueNotices, LeasesOk, Inv, Tables;
    ActiveStatus(p, j);
    ActiveStatus(p, k);
  }

  // ----- branches that are never taken ----------------------------------------------------------------

  /** No claim ever finds a job to cancel, and no publication is claimed out of attempts. */
  lemma NothingToCancel(p: Pond, limits: Limits, now: Time)
    requires Reachable(p, limits)
    ensures forall j <- p.jobs :: p.jobs[j].status != Cancelled
    ensures forall j <- EligibleJobs(p, now) ::
              p.jobs[j].key.submission in p.submissions && p.submissions[p.jobs[j].key.submission].status == Validating
    ensures forall j <- QueuedJobs(p.jobs, now) + ExpiredJobs(p.jobs, now) ::
              p.jobs[j].key.submission in p.submissions && p.submissions[p.jobs[j].key.submission].status == Importing
    ensures forall j <- QueuedJobs(p.jobs, now) :: p.jobs[j].attempts < p.jobs[j].maxAttempts
  {
    ReachableIndex(p, limits);
    JobsAreOk(p);
    hide Reachable, Inv, Tables, JobOk, Locals, LiveTemplates, Reservations, UniqueNotices, LeasesOk, Memories,
      Eligible;
    forall j <- EligibleJobs(p, now)
      ensures p.jobs[j].key.submission in p.submissions && p.submissions[p.jobs[j].key.submission].status == Validating
    {
      EligibleRowHere(p, j, now);
    }
    PublishableRows(p, now);
  }

  lemma PublishableRows(p: Pond, now: Time)
    requires Inv(p)
    ensures forall j <- QueuedJobs(p.jobs, now) + ExpiredJobs(p.jobs, now) ::
              p.jobs[j].key.submission in p.submissions && p.submissions[p.jobs[j].key.submission].status == Importing
    ensures forall j <- QueuedJobs(p.jobs, now) :: p.jobs[j].attempts < p.jobs[j].maxAttempts
  {
    hide Inv;
    forall j <- QueuedJobs(p.jobs, now) + ExpiredJobs(p.jobs, now)
      ensures p.jobs[j].key.submission in p.submissions && p.submissions[p.jobs[j].key.submission].status == Importing
      ensures j in QueuedJobs(p.jobs, now) ==> p.jobs[j].attempts < p.jobs[j].maxAttempts
    {
      ExpiredRow(p, j);
    }
  }

  lemma JobsAreOk(p: Pond)
    requires Tables(p)
    ensures forall j <- p.jobs ::
              JobOk(p.jobs[j]) && p.jobs[j].status != Cancelled && p.jobs[j].attempts <= MAX_ATTEMPTS
  {
    hide IndexOk, RowsOk, FileRowsOk;
  }

  // ----- leases ---------------------------------------------------------------------------------------

  /** Attempts are claims issued, at most three; tokens that committed are issued and
      distinct. */
  lemma AttemptsAreClaims(p: Pond, limits: Limits)
    requires Reachable(p, limits)
    ensures forall j <- p.jobs :: p.jobs[j].attempts == |Issued(p.runs, j)| <= MAX_ATTEMPTS
    ensures forall i, k :: 0 <= i < k < |p.commits| ==> p.commits[i] != p.commits[k] && p.commits[i] in p.runs
  {
    ReachableIndex(p, limits);
    JobsAreOk(p);
    hide Reachable, Inv, Tables, JobOk, Locals, LiveTemplates, Reservations, UniqueNotices, Memories, HoldersOk;
  }

  lemma LateCommit(p: Pond, q: Pond, t: Token)
    requires Lasts(p, q) && t in p.runs && !Holds(p, t)
    ensures t in q.commits <==> t in p.commits
  {
    hide RowsLast, JobsLast, Holds;
    if t in q.commits {
      var i :| 0 <= i < |q.commits| && q.commits[i] == t;
      assert i < |p.commits| ==> q.commits[i] == p.commits[i];
    }
  }

  /** Lease exclusion: a claim that has been superseded, released or let lapse into another
      claim commits nothing in any continuation, whatever the clocks show. */
  lemma SupersededNeverCommits(p: Pond, limits: Limits, steps: seq<Step>, t: Token)
    requires Reachable(p, limits) && t in p.runs && !Holds(p, t)
    ensures t in Exec(p, limits, steps).commits <==> t in p.commits
  {
    hide Reachable, Good, Exec, Lasts, Holds;
    ReachableGood(p, limits);
    RunLasts(p, limits, steps);
    LateCommit(p, Exec(p, limits, steps), t);
  }

  /** A claim commits at most one result: once it is in the list it never enters again. */
  lemma CommitsOnce(p: Pond, limits: Limits, steps: seq<Step>, i: nat, k: nat)
    requires Reachable(p, limits) && i < |p.commits| && k < |Exec(p, limits, steps).commits|
    requires Exec(p, limits, steps).commits[k] == p.commits[i]
    ensures k == i
  {
    hide Inv, Conserved, Exec, RowsLast, JobsLast, ClaimsLast, Reachable;
    ReachableGood(p, limits);
    RunLasts(p, limits, steps);
    AlwaysGood(p, limits, steps);
    DistinctCommits(Exec(p, limits, steps));
  }

  lemma DistinctCommits(p: Pond)
    requires Inv(p)
    ensures forall i, k :: 0 <= i < k < |p.commits| ==> p.commits[i] != p.commits[k]
  {
    hide Tables, Locals, LiveTemplates, Reservations, UniqueNotices, Memories, HoldersOk, CountsOk;
  }

  // ----- what never changes -----------------------------------------------------------------------------

  /** Content that left draft, finished jobs, frozen plans and published rows stay as they
      are for ever, and so does every live challenge. */
  lemma WhatStays(p: Pond, limits: Limits, steps: seq<Step>)
    requires Reachable(p, limits)
    ensures var q := Exec(p, limits, steps);
            && (forall s <- p.submissions :: s in q.submissions && RowLasts(p, q, s))
            && (forall j <- p.jobs :: j in q.jobs && JobLasts(p.jobs[j], q.jobs[j]))
            && (forall c <- p.challenges :: c in q.challenges && q.challenges[c] == p.challenges[c])
            && p.audit <= q.audit
  {
    hide Reachable, Good, Exec, ClaimsLast, JobLasts, RowLasts;
    ReachableGood(p, limits);
    RunLasts(p, limits, steps);
  }

  // ----- VM numbers and notices ----------------------------------------------------------------------------

  /** Across all publish jobs ever, planned VM numbers are pairwise distinct. */
  lemma PlannedVmidsDistinct(p: Pond, limits: Limits, j: Id, k: Id, a: nat, b: nat)
    requires Reachable(p, limits) && j in p.jobs && k in p.jobs && a < |p.jobs[j].journal| && b < |p.jobs[k].journal|
    requires p.jobs[j].journal[a].vmid == p.jobs[k].journal[b].vmid
    ensures j == k && a == b
  {
    ReachableIndex(p, limits);
    hide Reachable, Inv, Tables, Locals, LiveTemplates, UniqueNotices, Memories, LeasesOk;
    assert p.jobs[j].journal[a].vmid in Vmids(p.jobs[j].journal);
    assert p.jobs[k].journal[b].vmid in Vmids(p.jobs[k].journal);
  }

  /** The unique column of the outbox never rejects an insertion. */
  lemma NoticesNeverCollide(p: Pond, limits: Limits, i: nat, k: nat)
    requires Reachable(p, limits) && i < |p.outbox| && k < |p.outbox| && p.outbox[i].key == p.outbox[k].key
    ensures i == k
  {
    ReachableIndex(p, limits);
    hide Reachable, Inv, Tables, Locals, LiveTemplates, Reservations, Memories, LeasesOk;
  }

  // ----- the books of intake --------------------------------------------------------------------------------

  /** Between intake operations every quota holds, nobody has more than 20 drafts, and the
      quarantine holds the objects of the file rows, with equal sizes and hashes, and
      besides them only what a broken intake left behind. */
  lemma IntakeBooksBalance(p: Pond, limits: Limits, u: Id, s: Id)
    requires Reachable(p, limits) && p.intake == Idle
    ensures Total(p) <= limits.total && OfUser(p, u) <= limits.user && OfSubmission(p, s) <= MAX_TOTAL_IMAGE_BYTES
    ensures |DraftsOf(p.submissions, u)| <= MAX_DRAFTS
    ensures p.objects.Keys == FileKeys(p.files) + p.orphans && FileKeys(p.files) !! p.orphans
    ensures forall f <- p.files :: p.files[f].key in p.objects
                                   && p.objects[p.files[f].key] == Blob(p.files[f].size, p.files[f].hash)
    ensures forall f, g :: f in p.files && g in p.files && f != g ==> p.files[f].key != p.files[g].key
  {
    hide Reachable, Inv, Total, OfUser, OfSubmission, DraftsOf;
    ReachableGood(p, limits);
    BooksAt(p, limits);
  }

  lemma BooksAt(p: Pond, limits: Limits)
    requires Conserved(p, limits) && p.intake == Idle
    ensures p.objects.Keys == FileKeys(p.files) + p.orphans && FileKeys(p.files) !! p.orphans
    ensures forall f <- p.files :: p.files[f].key in p.objects
                                   && p.objects[p.files[f].key] == Blob(p.files[f].size, p.files[f].hash)
  {
    hide WithinQuotas, DraftsBounded, PathsDistinct, KeysDistinct;
    forall f <- p.files ensures p.files[f].key in p.objects {
      assert p.files[f].key in FileKeys(p.files);
    }
  }

  /** Between intake operations the quarantine holds exactly the objects of the file rows, if
      and only if no step of the run left one behind. */
  lemma NothingOrphaned(start: Pond, limits: Limits, steps: seq<Step>)
    requires Initial(start) && Exec(start, limits, steps).intake == Idle
    ensures Exec(start, limits, steps).objects.Keys == FileKeys(Exec(start, limits, steps).files)
       <==> !SomeLeaves(start, limits, steps)
  {
    hide Initial, Exec, Inv, SomeLeaves, Conserved;
    ReachableIsGood(start, limits, []);
    ExecNothing(start, limits);
    ReachableIsGood(start, limits, steps);
    RunLeaves(start, limits, steps);
    NoneAtFirst(start);
    BooksAt(Exec(start, limits, steps), limits);
    OnlyRows(Exec(start, limits, steps));
  }

  lemma ExecNothing(p: Pond, limits: Limits)
    ensures Exec(p, limits, []) == p
  {
  }

  lemma OnlyRows(p: Pond)
    requires p.objects.Keys == FileKeys(p.files) + p.orphans && FileKeys(p.files) !! p.orphans
    ensures p.objects.Keys == FileKeys(p.files) <==> p.orphans == {}
  {
    if p.orphans != {} {
      var k :| k in p.orphans;
      assert k in p.objects.Keys && k !in FileKeys(p.files);
    }
  }

  lemma NoneAtFirst(start: Pond)
    requires Initial(start)
    ensures start.orphans == {}
  {
  }
}
