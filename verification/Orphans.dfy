/** When objects without a row are left in storage. */
module Orphans {
  import opened Schema
  import opened Validation
  import opened Worker
  import opened Publication
  import opened Intake
  import opened Pipeline
  import opened Shapes
  import opened Safety
  import opened Invariant
  import opened Conservation

  predicate Breaks(step: Step) {
    step.BreakIntake? || step.LoseFile?
  }

  /** The step leaves an object without a row: a broken intake that kept an object of its
      own, or the removal of a file whose object stays. */
  ghost predicate Leaves(p: Pond, step: Step) {
    match step
    case BreakIntake(kept, stray) => MayStray(p, stray) && (PendingKeys(p.intake) * kept != {} || stray != map[])
    case LoseFile(user, s, f) => RemoveFile(p, user, s, f).Committed?
    case _ => false
  }

  /** Some step of the run does. */
  ghost predicate SomeLeaves(p: Pond, limits: Limits, steps: seq<Step>)
    decreases |steps|
  {
    steps != [] && (Leaves(p, steps[0]) || SomeLeaves(Next(p, limits, steps[0]), limits, steps[1..]))
  }

  lemma SubmitOrphans(p: Pond, user: Id, s: Id, now: Time)
    ensures Submit(p, user, s, now).Committed? ==> Submit(p, user, s, now).pond.orphans == p.orphans
  {
    hide OwnedProblem, JobFor, LogAdmin;
  }

  lemma AbortOrphans(p: Pond)
    ensures AbortIntake(p).orphans == p.orphans
  {
    hide AbortIntake;
    AbortShapes(p);
  }

  lemma UploadedOrphans(p: Pond)
    ensures RecordUpload(p).Committed? ==> RecordUpload(p).pond.orphans == p.orphans
  {
    hide OwnedProblem;
    if RecordUpload(p).Committed? {
      var q := RecordUpload(p).pond;
      if RecordUpload(p).value {
        assert q == p.(files := q.files, next := q.next, intake := Idle);
      } else {
        assert q == p.(objects := q.objects, intake := Idle);
      }
    }
  }

  lemma RevisedOrphans(p: Pond)
    ensures RecordRevision(p).Committed? ==> RecordRevision(p).pond.orphans == p.orphans
  {
    hide OwnedProblem, CopiedRows, AbortIntake;
    AbortOrphans(p);
  }

  lemma CopyOrphans(p: Pond, key: StorageKey)
    ensures CopyNext(p, key).Committed? ==> CopyNext(p, key).pond.orphans == p.orphans
  {
    hide AbortIntake;
    AbortOrphans(p);
  }

  lemma UploadOrphans(p: Pond, limits: Limits, step: Step)
    requires Enabled(p, step) && JobsHaveRows(p) && (step.StartUpload? || step.StartRevision? || step.SaveUpload?)
    ensures Act(p, limits, step).orphans == p.orphans
  {
    hide BeginUpload, BeginRevise, ClaimNext, ClaimPublish;
    match step {
      case StartUpload(user, s, path, declared, free) => UploadShapes(p, limits, user, s, path, declared, free);
      case StartRevision(user, s, order, free) => ReviseShapes(p, limits, user, s, order, free);
      case SaveUpload(key, blob) => StoreShapes(p, key, blob);
    }
  }

  lemma DraftOrphans(p: Pond, limits: Limits, step: Step)
    requires Enabled(p, step) && JobsHaveRows(p)
    requires step.CreateDraft? || step.EditManifest? || step.DropFile? || step.SubmitDraft?
    ensures Act(p, limits, step).orphans == p.orphans
  {
    hide Submit, OwnedProblem, SchemaOk, DraftsOf, LogAdmin, ClaimNext, ClaimPublish;
    match step {
      case SubmitDraft(user, s, now) => SubmitOrphans(p, user, s, now);
      case _ =>
    }
  }

  lemma IntakeOrphans(p: Pond, limits: Limits, step: Step)
    requires Enabled(p, step) && JobsHaveRows(p) && OfIntake(step) && !Breaks(step)
    ensures Act(p, limits, step).orphans == p.orphans
  {
    hide Create, UpdateManifest, RemoveFile, Submit, RecordUpload, RecordRevision, BeginUpload, BeginRevise, CopyNext,
      AbortIntake, ClaimNext, ClaimPublish;
    if step.StartUpload? || step.StartRevision? || step.SaveUpload? {
      UploadOrphans(p, limits, step);
    } else {
      match step {
        case FinishUpload => UploadedOrphans(p);
        case FinishRevision => RevisedOrphans(p);
        case CopyFile(key) => CopyOrphans(p, key);
        case GiveUpIntake => AbortOrphans(p);
        case _ => DraftOrphans(p, limits, step);
      }
    }
  }

  lemma StepOrphans(p: Pond, limits: Limits, step: Step)
    requires Enabled(p, step) && JobsHaveRows(p) && !Breaks(step)
    ensures Act(p, limits, step).orphans == p.orphans
  {
    hide Act, Enabled, JobsHaveRows, OfIntake;
    if OfIntake(step) {
      IntakeOrphans(p, limits, step);
    } else {
      OthersBooks(p, limits, step);
    }
  }

  lemma BreakOrphans(p: Pond, step: Step)
    requires step.BreakIntake? && MayStray(p, step.stray)
    ensures BrokenIntake(p, step.kept, step.stray).orphans == {} <==> p.orphans == {} && !Leaves(p, step)
  {
    hide PendingKeys, MayStray;
    NothingIn(p.orphans, PendingKeys(p.intake) * step.kept, step.stray);
  }

  lemma NothingIn(a: set<StorageKey>, b: set<StorageKey>, c: map<StorageKey, Blob>)
    ensures a + b + c.Keys == {} <==> a == {} && b == {} && c == map[]
  {
    assert a <= a + b + c.Keys && b <= a + b + c.Keys && c.Keys <= a + b + c.Keys;
  }

  lemma LoseOrphans(p: Pond, step: Step)
    requires step.LoseFile?
    ensures LostFile(p, step.user, step.submission, step.file).orphans == {} <==> p.orphans == {} && !Leaves(p, step)
  {
    hide OwnedProblem;
  }

  /** After a step nothing is left behind if and only if nothing was before and the step
      leaves nothing. */
  lemma StepLeaves(p: Pond, limits: Limits, step: Step)
    requires JobsHaveRows(p)
    ensures Next(p, limits, step).orphans == {} <==> p.orphans == {} && !Leaves(p, step)
  {
    hide JobsHaveRows, BrokenIntake, LostFile, RemoveFile, MayStray, ClaimNext, ClaimPublish, CommitLive, Finish;
    if step.BreakIntake? {
      if MayStray(p, step.stray) {
        BreakOrphans(p, step);
      }
    } else if step.LoseFile? {
      LoseOrphans(p, step);
    } else if Enabled(p, step) {
      StepOrphans(p, limits, step);
    }
  }

  lemma {:induction false} RunLeaves(p: Pond, limits: Limits, steps: seq<Step>)
    requires Good(p, limits)
    ensures Exec(p, limits, steps).orphans == {} <==> p.orphans == {} && !SomeLeaves(p, limits, steps)
    decreases |steps|
  {
    hide Next, Good, Leaves, JobsHaveRows;
    if steps != [] {
      var next := Next(p, limits, steps[0]);
      GoodRows(p, limits);
      StepLeaves(p, limits, steps[0]);
      StepKeeps(p, limits, steps[0]);
      RunLeaves(next, limits, steps[1..]);
    }
  }

  lemma GoodRows(p: Pond, limits: Limits)
    requires Good(p, limits)
    ensures JobsHaveRows(p)
  {
    hide Inv, Conserved;
    TableFacts(p);
  }

  // ----- a run that leaves an object -------------------------------------------------------------

  /** Draft, check, save, crash. */
  function CrashedUpload(user: Id, m: Manifest, s: Id, path: string, key: StorageKey, blob: Blob): seq<Step> {
    [CreateDraft(user, m), StartUpload(user, s, path, blob.size, true), SaveUpload(key, blob),
     BreakIntake({key}, map[])]
  }

  lemma FirstDraft(start: Pond, limits: Limits, user: Id, m: Manifest)
    requires Initial(start) && IsStaff(start.users, user) && SchemaOk(m)
    ensures Next(start, limits, CreateDraft(user, m))
         == start.(submissions := map[start.next := NewRow(user, m, None)],
                   audit := LogAdmin(start, user, start.next, SubmissionDraft), next := start.next + 1)
  {
    hide SchemaOk, LogAdmin;
    assert DraftsOf(start.submissions, user) == {};
  }

  lemma FirstUpload(p: Pond, limits: Limits, user: Id, m: Manifest, s: Id, path: string, declared: nat)
    requires JobsHaveRows(p) && p.intake == Idle && p.files == map[] && s in p.submissions
    requires IsStaff(p.users, user) && p.submissions[s] == NewRow(user, m, None) && path in ImagePaths(m.vms)
    requires 0 < declared <= MAX_IMAGE_BYTES && declared <= limits.user && declared <= limits.total
    ensures Next(p, limits, StartUpload(user, s, path, declared, true))
         == p.(intake := Uploading(user, s, path, declared))
  {
    hide ImagePaths;
    assert p.files.Keys == {} && FilesOwnedBy(p, user) == {} && FilesOf(p.files, s) == {};
    assert QuotaAllows(p, limits, user, Some(s), declared, true);
  }

  lemma SavedAndLost(p: Pond, limits: Limits, key: StorageKey, blob: Blob)
    requires JobsHaveRows(p) && p.intake.Uploading? && p.intake.declared == blob.size && p.objects == map[]
             && p.orphans == {}
    ensures var q := Next(Next(p, limits, SaveUpload(key, blob)), limits, BreakIntake({key}, map[]));
            q.intake == Idle && q.objects.Keys == {key} && q.files == p.files
  {
    hide Next, JobsHaveRows, BrokenIntake;
    Saved(p, limits, key, blob);
    var q := Next(p, limits, SaveUpload(key, blob));
    BrokenNow(q, limits, key);
    Broken(q, key);
  }

  lemma Saved(p: Pond, limits: Limits, key: StorageKey, blob: Blob)
    requires JobsHaveRows(p) && p.intake.Uploading? && p.intake.declared == blob.size && p.objects == map[]
    ensures var up, q := p.intake, Next(p, limits, SaveUpload(key, blob));
            && JobsHaveRows(q) && q.intake == Stored(up.user, up.submission, up.path, key, blob)
            && q.objects == map[key := blob] && q.files == p.files
  {
  }

  lemma BrokenNow(q: Pond, limits: Limits, key: StorageKey)
    requires JobsHaveRows(q)
    ensures Next(q, limits, BreakIntake({key}, map[])) == BrokenIntake(q, {key}, map[])
  {
    hide BrokenIntake;
  }

  lemma Broken(q: Pond, key: StorageKey)
    requires q.intake.Stored? && q.intake.key == key
    ensures var r := BrokenIntake(q, {key}, map[]); r.intake == Idle && r.objects == q.objects && r.files == q.files
  {
    assert {key} - {key} == {};
    assert q.objects - {} + map[] == q.objects;
  }

  lemma FourSteps(p: Pond, limits: Limits, a: Step, b: Step, c: Step, d: Step)
    ensures Exec(p, limits, [a, b, c, d])
         == Next(Next(Next(Next(p, limits, a), limits, b), limits, c), limits, d)
  {
    hide Next;
    assert [a, b, c, d][1..] == [b, c, d] && [b, c, d][1..] == [c, d] && [c, d][1..] == [d] && [d][1..] == [];
    var p1 := Next(p, limits, a);
    var p2 := Next(p1, limits, b);
    var p3 := Next(p2, limits, c);
    assert Exec(p, limits, [a, b, c, d]) == Exec(p1, limits, [b, c, d]) == Exec(p2, limits, [c, d])
        == Exec(p3, limits, [d]) == Exec(Next(p3, limits, d), limits, []);
  }

  /** For every first upload of a required image: when the process dies behind the save, the
      object stays and no row names it. */
  lemma CrashLeavesObject(start: Pond, limits: Limits, user: Id, m: Manifest, path: string, key: StorageKey, blob: Blob)
    requires Initial(start) && IsStaff(start.users, user) && SchemaOk(m) && path in ImagePaths(m.vms)
    requires 0 < blob.size <= MAX_IMAGE_BYTES && blob.size <= limits.user && blob.size <= limits.total
    ensures var end := Exec(start, limits, CrashedUpload(user, m, start.next, path, key, blob));
            end.intake == Idle && end.files == map[] && end.objects.Keys == {key}
  {
    hide Next, Exec, SchemaOk, ImagePaths, LogAdmin;
    var s, steps := start.next, CrashedUpload(user, m, start.next, path, key, blob);
    FirstDraft(start, limits, user, m);
    var p := Next(start, limits, steps[0]);
    FirstUpload(p, limits, user, m, s, path, blob.size);
    SavedAndLost(Next(p, limits, steps[1]), limits, key, blob);
    FourSteps(start, limits, steps[0], steps[1], steps[2], steps[3]);
  }
}
