/** Which columns the smaller steps can write. */
module Shapes {
  import opened Schema
  import opened Validation
  import opened Worker
  import opened Publication
  import opened Intake
  import opened Pipeline

  lemma UploadShapes(p: Pond, limits: Limits, user: Id, s: Id, path: string, declared: nat, free: bool)
    ensures var r := BeginUpload(p, limits, user, s, path, declared, free);
            r.Committed? ==> r.pond == p.(intake := r.pond.intake)
  {
    hide QuotaAllows, OwnedProblem, ImagePaths;
  }

  lemma StoreShapes(p: Pond, key: StorageKey, blob: Blob)
    ensures var r := StoreUpload(p, key, blob);
            r.Committed? ==> r.pond == p.(objects := r.pond.objects, intake := r.pond.intake)
  {
    var r := StoreUpload(p, key, blob);
    if r.Committed? && blob.size != p.intake.declared {
      assert r.pond == p.(objects := p.objects, intake := Idle);
    }
  }

  lemma ReviseShapes(p: Pond, limits: Limits, user: Id, s: Id, order: seq<Id>, free: bool)
    ensures var r := BeginRevise(p, limits, user, s, order, free);
            r.Committed? ==> r.pond == p.(intake := r.pond.intake)
  {
    hide QuotaAllows, OwnedProblem, Lists, FilesOf, Sum;
  }

  lemma AbortShapes(p: Pond)
    ensures var q := AbortIntake(p); q == p.(objects := q.objects, intake := q.intake)
  {
    hide CopyKeys;
    match p.intake {
      case Idle =>
      case Uploading(_, _, _, _) =>
      case Stored(_, _, _, key, _) => assert AbortIntake(p) == p.(objects := p.objects - {key}, intake := Idle);
      case Revising(_, _, _, copies) =>
        assert AbortIntake(p) == p.(objects := p.objects - CopyKeys(copies), intake := Idle);
    }
  }

  lemma BreakShapes(p: Pond, kept: set<StorageKey>, stray: map<StorageKey, Blob>)
    ensures var q := BrokenIntake(p, kept, stray);
            q == p.(objects := q.objects, orphans := q.orphans, intake := q.intake)
  {
    hide PendingKeys;
    var q := BrokenIntake(p, kept, stray);
    assert q == p.(objects := q.objects, orphans := q.orphans, intake := Idle);
  }

  /** The lost object is all that tells this from removing the file. */
  lemma LostShape(p: Pond, user: Id, s: Id, f: Id)
    requires RemoveFile(p, user, s, f).Committed?
    ensures var r, q := RemoveFile(p, user, s, f).pond, LostFile(p, user, s, f);
            q == r.(objects := q.objects, orphans := q.orphans, intake := q.intake)
  {
    hide OwnedProblem;
    var r, q := RemoveFile(p, user, s, f).pond, LostFile(p, user, s, f);
    assert q == r.(objects := q.objects, orphans := q.orphans, intake := r.intake);
  }

  lemma CopyShapes(p: Pond, key: StorageKey)
    ensures var r := CopyNext(p, key);
            r.Committed? ==> r.pond == p.(objects := r.pond.objects, intake := r.pond.intake)
  {
    hide AbortIntake;
    AbortShapes(p);
  }

  predicate RowsAlone(p: Pond, q: Pond) {
    && q.files == p.files && q.submissions == p.submissions && q.objects == p.objects && q.orphans == p.orphans
    && q.intake == p.intake
  }

  lemma WorkerShapes(p: Pond, action: Action, c: Claim, now: Time, leaseSeconds: nat)
    ensures RowsAlone(p, Done(p, Renew(p, action, c, now, leaseSeconds)))
    ensures RowsAlone(p, Done(p, Examine(p, c, now)))
  {
    hide SnapshotOf, Owns;
    OwnedJob(p, action, c, now);
  }

  lemma OwnedJob(p: Pond, action: Action, c: Claim, now: Time)
    ensures Owns(p, action, c, now) ==> c.job in p.jobs && p.jobs[c.job].lease.Some?
  {
  }

  lemma StageAlone(p: Pond, t: Token, stage: Stage)
    requires t in p.runs
    ensures RowsAlone(p, AtStage(p, t, stage))
  {
  }

  lemma ReadShapes(p: Pond, c: Claim, m: Manifest, now: Time)
    ensures RowsAlone(p, Done(p, ReadJournal(p, c, m, now)))
  {
    OwnedJob(p, Publish, c, now);
    assert RowsAlone(p, p);
    hide JournalOk, Owns, AtStage, RowsAlone;
    if c.token in p.runs {
      StageAlone(p, c.token, Planning);
      StageAlone(p, c.token, Prepared);
    }
  }

  lemma WriteShapes(p: Pond, c: Claim, m: Manifest, xs: seq<Proposal>, now: Time)
    ensures RowsAlone(p, Done(p, WriteJournal(p, c, m, xs, now)))
  {
    hide ProposalsOk, VmidsLive, VmidsReserved, Plans, Vmids, Owns;
    OwnedJob(p, Publish, c, now);
  }

  lemma ExamineShapes(p: Pond, c: Claim, report: seq<Finding>, now: Time)
    ensures RowsAlone(p, Done(p, ExaminePublish(p, c, report, now)))
  {
    hide ApprovalStands, SnapshotOf;
  }

  lemma MarkShapes(p: Pond, c: Claim, role: string, state: PlanState, task: Option<string>, now: Time)
    ensures RowsAlone(p, Done(p, Checkpoint(p, c, role, state, task, now)))
  {
    hide Marked;
  }
}
