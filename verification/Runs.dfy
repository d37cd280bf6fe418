/** Whole runs: any state of a run lasts into every later one. */
module Runs {
  import opened Schema
  import opened Validation
  import opened Worker
  import opened Review
  import opened Publication
  import opened Intake
  import opened Invariant
  import opened Conservation
  import IntakeKeeps
  import PublicationKeeps
  import opened Pipeline
  import opened Safety
  import opened Shapes
  import opened History
  import opened HistorySteps

  lemma RevisionStepLasts(p: Pond)
    requires Inv(p) && RecordRevision(p).Committed?
    ensures Lasts(p, RecordRevision(p).pond)
  {
    IntakeParts(p);
    hide Inv, Lasts, Tables, Locals, IntakeKeeps.Drafts, AbortIntake, CopiedRows, OwnedProblem;
    var q := RecordRevision(p).pond;
    if RecordRevision(p).value.Some? {
      IntakeKeeps.RevisionDrafts(p);
      DraftLasts(p, q, p.next, q.submissions[p.next]);
    } else {
      AbortShapes(p);
      AsideLasts(p, q);
    }
  }

  lemma UploadStepLasts(p: Pond)
    requires Inv(p) && RecordUpload(p).Committed?
    ensures Lasts(p, RecordUpload(p).pond)
  {
    IntakeParts(p);
    hide Inv, Lasts, Tables, Locals, IntakeKeeps.Drafts;
    var q := RecordUpload(p).pond;
    if RecordUpload(p).value {
      IntakeKeeps.UploadDrafts(p);
      DraftLasts(p, q, p.intake.submission, p.submissions[p.intake.submission]);
    } else {
      AsideLasts(p, q);
    }
  }

  lemma CreateLasts(p: Pond, user: Id, m: Manifest)
    requires Inv(p) && Create(p, user, m).Committed?
    ensures Lasts(p, Create(p, user, m).pond)
  {
    IntakeParts(p);
    hide Inv, Lasts, Tables, Locals, Create, IntakeKeeps.Drafts;
    IntakeKeeps.CreateDrafts(p, user, m);
    DraftLasts(p, Create(p, user, m).pond, p.next, NewRow(user, m, None));
  }

  lemma UpdateLasts(p: Pond, user: Id, s: Id, m: Manifest)
    requires Inv(p) && UpdateManifest(p, user, s, m).Committed?
    ensures Lasts(p, UpdateManifest(p, user, s, m).pond)
  {
    IntakeParts(p);
    hide Inv, Lasts, Tables, Locals, UpdateManifest, IntakeKeeps.Drafts;
    var q := UpdateManifest(p, user, s, m).pond;
    IntakeKeeps.UpdateDrafts(p, user, s, m);
    DraftLasts(p, q, s, q.submissions[s]);
  }

  lemma RemoveLasts(p: Pond, user: Id, s: Id, f: Id)
    requires Inv(p) && RemoveFile(p, user, s, f).Committed?
    ensures Lasts(p, RemoveFile(p, user, s, f).pond)
  {
    IntakeParts(p);
    hide Inv, Lasts, Tables, Locals, RemoveFile, IntakeKeeps.Drafts;
    IntakeKeeps.RemoveDrafts(p, user, s, f);
    DraftLasts(p, RemoveFile(p, user, s, f).pond, s, p.submissions[s]);
  }

  lemma LoseLasts(p: Pond, user: Id, s: Id, f: Id)
    requires Inv(p) && RemoveFile(p, user, s, f).Committed?
    ensures Lasts(p, LostFile(p, user, s, f))
  {
    hide Inv, Lasts, RemoveFile;
    var r, q := RemoveFile(p, user, s, f).pond, LostFile(p, user, s, f);
    RemoveLasts(p, user, s, f);
    LostShape(p, user, s, f);
    AsideLasts(r, q);
    LastsTransitive(p, r, q);
  }

  lemma IntakeLasts(p: Pond, limits: Limits, step: Step)
    requires Inv(p) && OfIntake(step) && Enabled(p, step) && JobsHaveRows(p)
    ensures Lasts(p, Act(p, limits, step))
  {
    hide Inv, Lasts, Create, UpdateManifest, RemoveFile, Submit, RecordUpload, RecordRevision, ClaimNext, ClaimPublish;
    var q := Act(p, limits, step);
    LastsReflexive(p);
    if q != p {
      match step {
        case CreateDraft(user, m) => CreateLasts(p, user, m);
        case EditManifest(user, s, m) => UpdateLasts(p, user, s, m);
        case DropFile(user, s, f) => RemoveLasts(p, user, s, f);
        case LoseFile(user, s, f) => LoseLasts(p, user, s, f);
        case SubmitDraft(user, s, now) => SubmitLasts(p, user, s, now);
        case FinishUpload => UploadStepLasts(p);
        case FinishRevision => RevisionStepLasts(p);
        case _ =>
          AsideShape(p, limits, step);
          AsideLasts(p, q);
      }
    }
  }

  lemma WorkersLast(p: Pond, limits: Limits, step: Step)
    requires Inv(p) && OfWorkers(step) && Enabled(p, step) && JobsHaveRows(p)
    ensures Lasts(p, Act(p, limits, step))
  {
    hide Inv, Lasts, ClaimNext, Renew, Examine, Finish, Decide, ClaimPublish, Honest;
    LastsReflexive(p);
    if Act(p, limits, step) != p {
      match step {
        case ClaimValidation(w, token, now) => ClaimLasts(p, w, token, now);
        case RenewClaim(action, c, now, leaseSeconds) => RenewLasts(p, action, c, now, leaseSeconds);
        case ReadRevision(c, now) => ExamineLasts(p, c, now);
        case FinishValidation(c, report, now, retrySeconds) =>
          FinishLasts(p, c, report, p.runs[c.token].snapshot.value, now, retrySeconds);
        case ReviewRevision(s, actor, form, now) => DecideLasts(p, s, actor, form, now);
      }
    }
  }

  lemma WritePlanLasts(p: Pond, c: Claim, xs: seq<Proposal>, now: Time)
    requires Inv(p) && JobsHaveRows(p) && AtStageOf(p, c.token, Planning)
    requires WriteJournal(p, c, p.runs[c.token].snapshot.value.manifest, xs, now).Committed?
    ensures Lasts(p, WriteJournal(p, c, p.runs[c.token].snapshot.value.manifest, xs, now).pond)
  {
    hide Inv, Lasts, WriteJournal;
    var m := p.runs[c.token].snapshot.value.manifest;
    PublicationKeeps.WriteJournalKeeps(p, c, m, xs, now);
    WriteJournalLasts(p, c, m, xs, now);
  }

  lemma QueueingLasts(p: Pond, limits: Limits, step: Step)
    requires Inv(p) && (step.QueuePublication? || step.ReturnRevision? || step.ClaimPublication?)
    requires Enabled(p, step) && JobsHaveRows(p) && Act(p, limits, step) != p
    ensures Lasts(p, Act(p, limits, step))
  {
    hide Inv, Lasts, Enqueue, ReturnForCorrection, ClaimPublish, ClaimNext, Lists;
    match step {
      case QueuePublication(s, actor, expected, retry, adapterReady, now) =>
        EnqueueLasts(p, s, actor, expected, retry, adapterReady, now);
      case ReturnRevision(s, actor, expected, note) => ReturnLasts(p, s, actor, expected, note);
      case ClaimPublication(order, w, token, now) => ClaimPublishLasts(p, order, w, token, now);
    }
  }

  lemma PublicationLasts(p: Pond, limits: Limits, step: Step)
    requires Inv(p) && OfPublication(step) && Enabled(p, step) && JobsHaveRows(p)
    ensures Lasts(p, Act(p, limits, step))
  {
    hide Inv, Lasts, Enqueue, ReturnForCorrection, ClaimPublish, ClaimNext, ReadJournal, WriteJournal, ExaminePublish,
      Checkpoint, CommitLive, FailRun, Honest, VmBased, Lists;
    LastsReflexive(p);
    if Act(p, limits, step) != p {
      match step {
        case QueuePublication(_, _, _, _, _, _) => QueueingLasts(p, limits, step);
        case ReturnRevision(_, _, _, _) => QueueingLasts(p, limits, step);
        case ClaimPublication(_, _, _, _) => QueueingLasts(p, limits, step);
        case ReadApproved(c, report, now) => ExaminePublishLasts(p, c, report, now);
        case ReadPlan(c, now) => ReadJournalLasts(p, c, p.runs[c.token].snapshot.value.manifest, now);
        case WritePlan(c, xs, now) => WritePlanLasts(p, c, xs, now);
        case MarkPlan(c, role, state, task, now) => CheckpointLasts(p, c, role, state, task, now);
        case PutLive(c, _, now) =>
          var seen := p.runs[c.token].snapshot.value;
          CommitLiveLasts(p, c, seen, seen.manifest, now);
        case StopPublication(c, now) => FailRunLasts(p, c, now);
      }
    }
  }

  lemma EnvironmentLasts(p: Pond, limits: Limits, step: Step)
    requires (step.ChangeUser? || step.AddTemplate? || step.SwitchTemplate?) && Enabled(p, step) && JobsHaveRows(p)
    ensures Lasts(p, Act(p, limits, step))
  {
    hide Lasts;
    AsideLasts(p, Act(p, limits, step));
  }

  lemma StepLasts(p: Pond, limits: Limits, step: Step)
    requires Inv(p)
    ensures Lasts(p, Next(p, limits, step))
  {
    TableFacts(p);
    hide Inv, Act, Enabled, Lasts;
    if Enabled(p, step) {
      if OfIntake(step) {
        IntakeLasts(p, limits, step);
      } else if OfWorkers(step) {
        WorkersLast(p, limits, step);
      } else if OfPublication(step) {
        PublicationLasts(p, limits, step);
      } else {
        EnvironmentLasts(p, limits, step);
      }
    } else {
      LastsReflexive(p);
    }
  }

  /** From any good state, whatever follows: logs only grow, content that left draft never
      changes, finished jobs and published rows never change, plans keep their identities,
      and no superseded claim commits. */
  lemma {:induction false} RunLasts(p: Pond, limits: Limits, steps: seq<Step>)
    requires Good(p, limits)
    ensures Lasts(p, Exec(p, limits, steps))
    decreases |steps|
  {
    hide Inv, Conserved, Next, Lasts;
    LastsReflexive(p);
    if steps != [] {
      var q := Next(p, limits, steps[0]);
      StepKeeps(p, limits, steps[0]);
      StepLasts(p, limits, steps[0]);
      RunLasts(q, limits, steps[1..]);
      LastsTransitive(p, q, Exec(q, limits, steps[1..]));
    }
  }

  /** A run may be cut anywhere. */
  lemma {:induction false} ExecSplits(p: Pond, limits: Limits, first: seq<Step>, rest: seq<Step>)
    ensures Exec(p, limits, first + rest) == Exec(Exec(p, limits, first), limits, rest)
    decreases |first|
  {
    if first == [] {
      assert first + rest == rest;
    } else {
      assert (first + rest)[1..] == first[1..] + rest;
      ExecSplits(Next(p, limits, first[0]), limits, first[1..], rest);
    }
  }
}
