/** Every reachable state of the pipeline satisfies the invariant and the books. */
module Safety {
  import opened Schema
  import opened Validation
  import opened Worker
  import opened Review
  import opened Publication
  import opened Intake
  import opened Invariant
  import opened Frames
  import WorkerKeeps
  import ReviewKeeps
  import PublicationKeeps
  import IntakeKeeps
  import opened Conservation
  import opened Books
  import opened Pipeline
  import opened Shapes

  ghost predicate Good(p: Pond, limits: Limits) {
    Inv(p) && Conserved(p, limits)
  }

  // ----- what the invariant says about the tables ------------------------------------------

  lemma TableFacts(p: Pond)
    requires Inv(p)
    ensures JobsHaveRows(p) && (forall s <- p.submissions :: s < p.next)
    ensures forall f <- p.files :: f < p.next && p.files[f].submission in p.submissions
    ensures p.next !in p.files && forall t <- p.templates :: t < p.next
  {
    hide Locals, LiveTemplates, UniqueNotices, Reservations, LeasesOk, Memories, IndexOk, JobOk;
  }

  lemma HonestReports(report: seq<Finding>, s: Id, seen: Snapshot)
    requires Honest(report, s, seen) && report == []
    ensures ReferencesOk(seen.manifest)
  {
    hide SchemaOk, InventoryOk, FilesOk, ChecksPass, ReferencesOk, Entries;
  }

  // ----- intake ------------------------------------------------------------------------------

  predicate OfIntake(step: Step) {
    step.CreateDraft? || step.EditManifest? || step.DropFile? || step.SubmitDraft? || step.StartUpload?
    || step.SaveUpload? || step.FinishUpload? || step.StartRevision? || step.CopyFile? || step.FinishRevision?
    || step.GiveUpIntake? || step.BreakIntake? || step.LoseFile?
  }

  /** Steps of intake that touch only its lock and the stored objects. */
  lemma AsideStep(p: Pond, q: Pond)
    requires Inv(p) && q == p.(objects := q.objects, orphans := q.orphans, intake := q.intake)
    ensures Inv(q)
  {
    hide Inv;
    TableFacts(p);
    IntakeKeeps.AsideKeeps(p, q);
  }

  lemma LoseStep(p: Pond, user: Id, s: Id, f: Id)
    requires Inv(p)
    ensures Inv(LostFile(p, user, s, f))
  {
    hide Inv, RemoveFile;
    if RemoveFile(p, user, s, f).Committed? {
      IntakeKeeps.RemoveKeeps(p, user, s, f);
      LostShape(p, user, s, f);
      AsideStep(RemoveFile(p, user, s, f).pond, LostFile(p, user, s, f));
    }
  }

  lemma IntakeInv(p: Pond, limits: Limits, step: Step)
    requires Inv(p) && OfIntake(step) && Enabled(p, step) && JobsHaveRows(p)
    ensures Inv(Act(p, limits, step))
  {
    hide Inv, Create, UpdateManifest, RemoveFile, Submit, RecordUpload, RecordRevision, ClaimNext, ClaimPublish;
    var q := Act(p, limits, step);
    if q != p {
      match step {
        case CreateDraft(user, m) => IntakeKeeps.CreateKeeps(p, user, m);
        case EditManifest(user, s, m) => IntakeKeeps.UpdateKeeps(p, user, s, m);
        case DropFile(user, s, f) => IntakeKeeps.RemoveKeeps(p, user, s, f);
        case LoseFile(user, s, f) => LoseStep(p, user, s, f);
        case SubmitDraft(user, s, now) => IntakeKeeps.SubmitKeeps(p, user, s, now);
        case FinishUpload => IntakeKeeps.RecordUploadKeeps(p);
        case FinishRevision => IntakeKeeps.RecordRevisionKeeps(p);
        case _ =>
          AsideShape(p, limits, step);
          AsideStep(p, q);
      }
    }
  }

  lemma AsideShape(p: Pond, limits: Limits, step: Step)
    requires Enabled(p, step) && JobsHaveRows(p)
    requires step.StartUpload? || step.SaveUpload? || step.StartRevision? || step.CopyFile? || step.GiveUpIntake?
             || step.BreakIntake?
    ensures var q := Act(p, limits, step); q == p.(objects := q.objects, orphans := q.orphans, intake := q.intake)
  {
    hide BeginUpload, StoreUpload, BeginRevise, CopyNext, AbortIntake;
    match step {
      case StartUpload(user, s, path, declared, free) => UploadShapes(p, limits, user, s, path, declared, free);
      case SaveUpload(key, blob) => StoreShapes(p, key, blob);
      case StartRevision(user, s, order, free) => ReviseShapes(p, limits, user, s, order, free);
      case CopyFile(key) => CopyShapes(p, key);
      case GiveUpIntake => AbortShapes(p);
      case BreakIntake(kept, stray) => BreakShapes(p, kept, stray);
    }
  }

  lemma IntakeConserves(p: Pond, limits: Limits, step: Step)
    requires Inv(p) && Conserved(p, limits) && OfIntake(step) && Enabled(p, step) && JobsHaveRows(p)
    ensures Conserved(Act(p, limits, step), limits)
  {
    TableFacts(p);
    hide Inv, Conserved, Enabled, JobsHaveRows;
    if step.BreakIntake? || step.LoseFile? {
      BreakagesConserve(p, limits, step);
    } else if step.CreateDraft? || step.EditManifest? || step.DropFile? || step.SubmitDraft? || step.GiveUpIntake? {
      DraftingConserves(p, limits, step);
    } else {
      StoringConserves(p, limits, step);
    }
  }

  lemma BreakagesConserve(p: Pond, limits: Limits, step: Step)
    requires Conserved(p, limits) && Enabled(p, step) && JobsHaveRows(p) && (step.BreakIntake? || step.LoseFile?)
    ensures Conserved(Act(p, limits, step), limits)
  {
    hide Conserved, BrokenIntake, LostFile, ClaimNext, ClaimPublish;
    match step {
      case BreakIntake(kept, stray) => BreakConserves(p, limits, kept, stray);
      case LoseFile(user, s, f) => LoseConserves(p, limits, user, s, f);
    }
  }

  lemma DraftingConserves(p: Pond, limits: Limits, step: Step)
    requires Conserved(p, limits) && Enabled(p, step) && JobsHaveRows(p)
    requires (forall s <- p.submissions :: s < p.next) && forall f <- p.files :: p.files[f].submission in p.submissions
    requires step.CreateDraft? || step.EditManifest? || step.DropFile? || step.SubmitDraft? || step.GiveUpIntake?
    ensures Conserved(Act(p, limits, step), limits)
  {
    hide Conserved, Create, UpdateManifest, RemoveFile, Submit, AbortIntake, ClaimNext, ClaimPublish;
    match step {
      case CreateDraft(user, m) =>
        if Create(p, user, m).Committed? {
          CreateConserves(p, limits, user, m);
        }
      case EditManifest(user, s, m) =>
        if UpdateManifest(p, user, s, m).Committed? {
          UpdateConserves(p, limits, user, s, m);
        }
      case DropFile(user, s, f) =>
        if RemoveFile(p, user, s, f).Committed? {
          RemoveConserves(p, limits, user, s, f);
        }
      case SubmitDraft(user, s, now) =>
        if Submit(p, user, s, now).Committed? {
          SubmitConserves(p, limits, user, s, now);
        }
      case GiveUpIntake => AbortConserves(p, limits);
    }
  }

  lemma StoringConserves(p: Pond, limits: Limits, step: Step)
    requires Conserved(p, limits) && Enabled(p, step) && JobsHaveRows(p) && p.next !in p.files
    requires forall s <- p.submissions :: s < p.next
    requires forall f <- p.files :: f < p.next && p.files[f].submission in p.submissions
    requires step.StartUpload? || step.SaveUpload? || step.FinishUpload? || step.StartRevision? || step.CopyFile?
             || step.FinishRevision?
    ensures Conserved(Act(p, limits, step), limits)
  {
    hide Conserved, RecordUpload, RecordRevision, BeginUpload, StoreUpload, BeginRevise, CopyNext, ClaimNext,
      ClaimPublish;
    match step {
      case StartUpload(user, s, path, declared, free) =>
        if BeginUpload(p, limits, user, s, path, declared, free).Committed? {
          BeginUploadConserves(p, limits, user, s, path, declared, free);
        }
      case SaveUpload(key, blob) =>
        if StoreUpload(p, key, blob).Committed? {
          StoreUploadConserves(p, limits, key, blob);
        }
      case FinishUpload =>
        if RecordUpload(p).Committed? {
          RecordUploadConserves(p, limits);
        }
      case StartRevision(user, s, order, free) =>
        if BeginRevise(p, limits, user, s, order, free).Committed? {
          BeginReviseConserves(p, limits, user, s, order, free);
        }
      case CopyFile(key) =>
        if CopyNext(p, key).Committed? {
          CopyNextConserves(p, limits, key);
        }
      case FinishRevision =>
        if RecordRevision(p).Committed? {
          RecordRevisionConserves(p, limits);
        }
    }
  }

  // ----- validation, review, publication ----------------------------------------------------------

  predicate OfWorkers(step: Step) {
    step.ClaimValidation? || step.RenewClaim? || step.ReadRevision? || step.FinishValidation? || step.ReviewRevision?
  }

  lemma FinishStep(p: Pond, c: Claim, report: seq<Finding>, seen: Snapshot, now: Time, retrySeconds: nat)
    requires Inv(p) && Honest(report, c.submission, seen) && Finish(p, c, report, seen, now, retrySeconds).Committed?
    ensures Inv(Finish(p, c, report, seen, now, retrySeconds).pond)
  {
    hide Inv, Finish, Honest, ReferencesOk;
    if report == [] {
      HonestReports(report, c.submission, seen);
    }
    WorkerKeeps.FinishKeeps(p, c, report, seen, now, retrySeconds);
  }

  lemma WorkersInv(p: Pond, limits: Limits, step: Step)
    requires Inv(p) && OfWorkers(step) && Enabled(p, step) && JobsHaveRows(p)
    ensures Inv(Act(p, limits, step))
  {
    hide Inv, ClaimNext, Renew, Examine, Finish, Decide, ClaimPublish, Honest;
    if Act(p, limits, step) != p {
      match step {
        case ClaimValidation(w, token, now) => WorkerKeeps.ClaimKeeps(p, w, token, now);
        case RenewClaim(action, c, now, leaseSeconds) => WorkerKeeps.RenewKeeps(p, action, c, now, leaseSeconds);
        case ReadRevision(c, now) => WorkerKeeps.ExamineKeeps(p, c, now);
        case FinishValidation(c, report, now, retrySeconds) =>
          FinishStep(p, c, report, p.runs[c.token].snapshot.value, now, retrySeconds);
        case ReviewRevision(s, actor, form, now) => ReviewKeeps.DecideKeeps(p, s, actor, form, now);
      }
    }
  }

  predicate OfPublication(step: Step) {
    step.QueuePublication? || step.ReturnRevision? || step.ClaimPublication? || step.ReadApproved? || step.ReadPlan?
    || step.WritePlan? || step.MarkPlan? || step.PutLive? || step.StopPublication?
  }

  lemma ReadApprovedStep(p: Pond, c: Claim, report: seq<Finding>, now: Time)
    requires Inv(p) && Enabled(p, ReadApproved(c, report, now)) && ExaminePublish(p, c, report, now).Committed?
    ensures Inv(ExaminePublish(p, c, report, now).pond)
  {
    hide Inv, Honest, ApprovalStands;
    HonestReports(report, c.submission, SnapshotOf(p, c.submission, p.submissions[c.submission].approval));
    PublicationKeeps.ExaminePublishKeeps(p, c, report, now);
  }

  lemma PublicationInv(p: Pond, limits: Limits, step: Step)
    requires Inv(p) && OfPublication(step) && Enabled(p, step) && JobsHaveRows(p)
    ensures Inv(Act(p, limits, step))
  {
    hide Inv, Enqueue, ReturnForCorrection, ClaimPublish, ClaimNext, ReadJournal, WriteJournal, ExaminePublish,
      Checkpoint, CommitLive, FailRun, Honest, VmBased, Lists;
    if Act(p, limits, step) != p {
      match step {
        case QueuePublication(s, actor, expected, retry, adapterReady, now) =>
          PublicationKeeps.EnqueueKeeps(p, s, actor, expected, retry, adapterReady, now);
        case ReturnRevision(s, actor, expected, note) =>
          PublicationKeeps.ReturnForCorrectionKeeps(p, s, actor, expected, note);
        case ClaimPublication(order, w, token, now) => PublicationKeeps.ClaimPublishKeeps(p, order, w, token, now);
        case ReadApproved(c, report, now) => ReadApprovedStep(p, c, report, now);
        case PutLive(c, _, now) =>
          var seen := p.runs[c.token].snapshot.value;
          PublicationKeeps.CommitLiveKeeps(p, c, seen, seen.manifest, now);
        case StopPublication(c, now) => PublicationKeeps.FailRunKeeps(p, c, now);
        case _ => JournalInv(p, limits, step);
      }
    }
  }

  lemma JournalInv(p: Pond, limits: Limits, step: Step)
    requires Inv(p) && (step.ReadPlan? || step.WritePlan? || step.MarkPlan?) && Enabled(p, step) && JobsHaveRows(p)
    requires Act(p, limits, step) != p
    ensures Inv(Act(p, limits, step))
  {
    hide Inv, ReadJournal, WriteJournal, Checkpoint;
    match step {
      case ReadPlan(c, now) =>
        PublicationKeeps.ReadJournalKeeps(p, c, p.runs[c.token].snapshot.value.manifest, now);
      case WritePlan(c, xs, now) =>
        PublicationKeeps.WriteJournalKeeps(p, c, p.runs[c.token].snapshot.value.manifest, xs, now);
      case MarkPlan(c, role, state, task, now) => PublicationKeeps.CheckpointKeeps(p, c, role, state, task, now);
    }
  }

  lemma OthersBooks(p: Pond, limits: Limits, step: Step)
    requires !OfIntake(step) && Enabled(p, step) && JobsHaveRows(p)
    ensures BooksKept(p, Act(p, limits, step))
  {
    hide BooksKept, Enqueue, ReturnForCorrection, ClaimPublish, ClaimNext, ReadJournal, WriteJournal, ExaminePublish,
      Checkpoint, CommitLive, FailRun, Honest, VmBased, Lists, Renew, Examine, Finish, Decide;
    var q := Act(p, limits, step);
    SameBooks(p);
    if q != p {
      match step {
        case ClaimValidation(w, token, now) => ClaimBooks(p, w, token, now);
        case FinishValidation(c, report, now, retrySeconds) =>
          FinishBooks(p, c, report, p.runs[c.token].snapshot.value, now, retrySeconds);
        case ReviewRevision(s, actor, form, now) => DecideBooks(p, s, actor, form, now);
        case QueuePublication(s, actor, expected, retry, adapterReady, now) =>
          EnqueueBooks(p, s, actor, expected, retry, adapterReady, now);
        case ReturnRevision(s, actor, expected, note) => ReturnBooks(p, s, actor, expected, note);
        case ClaimPublication(order, w, token, now) =>
          ExpiredListed(p, order, now);
          ClaimPublishBooks(p, order, w, token, now);
        case PutLive(c, _, now) =>
          var seen := p.runs[c.token].snapshot.value;
          CommitLiveBooks(p, c, seen, seen.manifest, now);
        case StopPublication(c, now) => FailRunBooks(p, c, now);
        case _ =>
          JobsOnlyShape(p, limits, step);
          JobsOnlyBooks(p, q);
      }
    }
  }

  lemma JobsOnlyShape(p: Pond, limits: Limits, step: Step)
    requires Enabled(p, step) && JobsHaveRows(p)
    requires step.RenewClaim? || step.ReadRevision? || step.ReadApproved? || step.ReadPlan? || step.WritePlan?
             || step.MarkPlan? || step.ChangeUser? || step.AddTemplate? || step.SwitchTemplate?
    ensures RowsAlone(p, Act(p, limits, step))
  {
    hide Act, Enabled, JobsHaveRows, RowsAlone;
    if step.RenewClaim? || step.ReadRevision? || step.ReadApproved? {
      ReadingShape(p, limits, step);
    } else if step.ReadPlan? || step.WritePlan? || step.MarkPlan? {
      PlanningShape(p, limits, step);
    } else {
      EnvironmentShapes(p, limits, step);
    }
  }

  lemma ReadingShape(p: Pond, limits: Limits, step: Step)
    requires Enabled(p, step) && JobsHaveRows(p) && (step.RenewClaim? || step.ReadRevision? || step.ReadApproved?)
    ensures RowsAlone(p, Act(p, limits, step))
  {
    hide Honest, VmBased, Renew, Examine, ExaminePublish, Done, RowsAlone;
    match step {
      case RenewClaim(action, c, now, leaseSeconds) => WorkerShapes(p, action, c, now, leaseSeconds);
      case ReadRevision(c, now) => WorkerShapes(p, Validate, c, now, 0);
      case ReadApproved(c, report, now) => ExamineShapes(p, c, report, now);
    }
  }

  lemma PlanningShape(p: Pond, limits: Limits, step: Step)
    requires Enabled(p, step) && JobsHaveRows(p) && (step.ReadPlan? || step.WritePlan? || step.MarkPlan?)
    ensures RowsAlone(p, Act(p, limits, step))
  {
    hide Honest, VmBased, ReadJournal, WriteJournal, Checkpoint, Done, RowsAlone;
    match step {
      case ReadPlan(c, now) => ReadShapes(p, c, p.runs[c.token].snapshot.value.manifest, now);
      case WritePlan(c, xs, now) => WriteShapes(p, c, p.runs[c.token].snapshot.value.manifest, xs, now);
      case MarkPlan(c, role, state, task, now) => MarkShapes(p, c, role, state, task, now);
    }
  }

  /** Users and templates change from outside. */
  predicate Outside(p: Pond, q: Pond) {
    q == p.(users := q.users, templates := q.templates, next := q.next) && p.next <= q.next
  }

  lemma OutsideAlone(p: Pond, q: Pond)
    ensures Outside(p, q) ==> RowsAlone(p, q)
  {
  }

  lemma EnvironmentShapes(p: Pond, limits: Limits, step: Step)
    requires Enabled(p, step) && JobsHaveRows(p) && (step.ChangeUser? || step.AddTemplate? || step.SwitchTemplate?)
    ensures RowsAlone(p, Act(p, limits, step)) && Outside(p, Act(p, limits, step))
  {
    hide RowsAlone, Honest, VmBased, Lists, Done, ClaimNext, ClaimPublish, CommitLive, Finish, ReadJournal,
      WriteJournal;
    var q := Act(p, limits, step);
    OutsideAlone(p, q);
    match step {
      case ChangeUser(u, account) => assert q == p.(users := p.users[u := account]);
      case AddTemplate(t) => assert q == p.(templates := p.templates[p.next := t], next := p.next + 1);
      case SwitchTemplate(id, active) => assert q == p.(templates := q.templates);
    }
  }

  lemma EnvironmentTemplates(p: Pond, limits: Limits, step: Step)
    requires Enabled(p, step) && JobsHaveRows(p) && (step.ChangeUser? || step.AddTemplate? || step.SwitchTemplate?)
    requires forall t <- p.templates :: t < p.next
    ensures TemplatesKept(p.templates, Act(p, limits, step).templates)
    ensures forall t <- Act(p, limits, step).templates :: t < Act(p, limits, step).next
  {
    hide TemplatesKept;
    match step {
      case ChangeUser(u, account) => UserTemplates(p);
      case AddTemplate(t) => NewTemplateKept(p.templates, p.next, t);
      case SwitchTemplate(id, active) => SwitchKept(p.templates, id, active);
    }
  }

  lemma EnvironmentInv(p: Pond, limits: Limits, step: Step)
    requires Inv(p) && (step.ChangeUser? || step.AddTemplate? || step.SwitchTemplate?) && Enabled(p, step)
             && JobsHaveRows(p)
    ensures Inv(Act(p, limits, step))
  {
    TableFacts(p);
    EnvironmentShapes(p, limits, step);
    EnvironmentTemplates(p, limits, step);
    hide Inv, Act, Enabled, JobsHaveRows, TemplatesKept;
    IntakeKeeps.AsideKeeps(p, Act(p, limits, step));
  }

  lemma UserTemplates(p: Pond)
    ensures TemplatesKept(p.templates, p.templates)
  {
  }

  lemma NewTemplateKept(templates: map<Id, Template>, id: Id, t: Template)
    requires forall k <- templates :: k < id
    ensures TemplatesKept(templates, templates[id := t])
  {
  }

  lemma SwitchKept(templates: map<Id, Template>, id: Id, active: bool)
    requires id in templates
    ensures TemplatesKept(templates, templates[id := templates[id].(active := active)])
  {
  }

  // ----- every step, every run -------------------------------------------------------------------------

  lemma OthersInv(p: Pond, limits: Limits, step: Step)
    requires Inv(p) && !OfIntake(step) && Enabled(p, step) && JobsHaveRows(p)
    ensures Inv(Act(p, limits, step))
  {
    hide Inv, Act, Enabled, JobsHaveRows;
    if OfWorkers(step) {
      WorkersInv(p, limits, step);
    } else if OfPublication(step) {
      PublicationInv(p, limits, step);
    } else {
      EnvironmentInv(p, limits, step);
    }
  }

  lemma StepKeeps(p: Pond, limits: Limits, step: Step)
    requires Good(p, limits)
    ensures Good(Next(p, limits, step), limits)
  {
    TableFacts(p);
    hide Inv, Conserved, Act, Enabled, OfIntake;
    if Enabled(p, step) {
      if OfIntake(step) {
        IntakeInv(p, limits, step);
        IntakeConserves(p, limits, step);
      } else {
        OthersBooks(p, limits, step);
        BooksKeptConserved(p, Act(p, limits, step), limits);
        OthersInv(p, limits, step);
      }
    }
  }

  lemma InitialInv(p: Pond)
    requires Initial(p)
    ensures Inv(p)
  {
  }

  lemma InitialBooks(p: Pond, limits: Limits)
    requires Initial(p)
    ensures Conserved(p, limits)
  {
    assert p.files.Keys == {};
    assert p.objects.Keys == {};
    forall u ensures FilesOwnedBy(p, u) == {} && DraftsOf(p.submissions, u) == {} {
    }
    forall s ensures FilesOf(p.files, s) == {} {
    }
  }

  /** Safety over all runs: whatever the actors and the environment do, in whatever order,
      the invariant and the books hold. */
  lemma {:induction false} AlwaysGood(p: Pond, limits: Limits, steps: seq<Step>)
    requires Good(p, limits)
    ensures Good(Exec(p, limits, steps), limits)
    decreases |steps|
  {
    hide Good, Next;
    if steps != [] {
      StepKeeps(p, limits, steps[0]);
      AlwaysGood(Next(p, limits, steps[0]), limits, steps[1..]);
    }
  }

  lemma ReachableIsGood(p: Pond, limits: Limits, steps: seq<Step>)
    requires Initial(p)
    ensures Good(Exec(p, limits, steps), limits)
  {
    hide Inv, Conserved, Exec;
    InitialInv(p);
    InitialBooks(p, limits);
    AlwaysGood(p, limits, steps);
  }
}
