/** The whole pipeline as a state machine: every transaction of every actor, in any
    interleaving, with any clock readings, crashes, retries and changes of users. */
module Pipeline {
  import opened Schema
  import opened Validation
  import opened Worker
  import opened Review
  import opened Publication
  import opened Intake

  /** One transaction or one act of the environment.  A crashed worker simply takes no
      further step, and a crash of intake gives up its lock; `now` is whatever the clock of
      the acting process shows. */
  datatype Step =
    | CreateDraft(user: Id, manifest: Manifest)
    | EditManifest(user: Id, submission: Id, manifest: Manifest)
    | DropFile(user: Id, submission: Id, file: Id)
    | SubmitDraft(user: Id, submission: Id, now: Time)
    | StartUpload(user: Id, submission: Id, path: string, declared: nat, free: bool)
    | SaveUpload(key: StorageKey, blob: Blob)
    | FinishUpload
    | StartRevision(user: Id, submission: Id, order: seq<Id>, free: bool)
    | CopyFile(key: StorageKey)
    | FinishRevision
    | GiveUpIntake
    | BreakIntake(kept: set<StorageKey>, stray: map<StorageKey, Blob>)
    | LoseFile(user: Id, submission: Id, file: Id)
    | ClaimValidation(worker: Settings, token: Token, now: Time)
    | RenewClaim(action: Action, claim: Claim, now: Time, leaseSeconds: nat)
    | ReadRevision(claim: Claim, now: Time)
    | FinishValidation(claim: Claim, report: seq<Finding>, now: Time, retrySeconds: nat)
    | ReviewRevision(submission: Id, actor: Id, form: Form, now: Time)
    | QueuePublication(submission: Id, actor: Id, expected: Option<Digest>, retry: bool, adapterReady: bool, now: Time)
    | ReturnRevision(submission: Id, actor: Id, expected: Option<Digest>, note: string)
    | ClaimPublication(order: seq<Id>, worker: Settings, token: Token, now: Time)
    | ReadApproved(claim: Claim, report: seq<Finding>, now: Time)
    | ReadPlan(claim: Claim, now: Time)
    | WritePlan(claim: Claim, proposals: seq<Proposal>, now: Time)
    | MarkPlan(claim: Claim, role: string, state: PlanState, task: Option<string>, now: Time)
    | PutLive(claim: Claim, report: seq<Finding>, now: Time)
    | StopPublication(claim: Claim, now: Time)
    | ChangeUser(user: Id, account: User)
    | AddTemplate(template: Template)
    | SwitchTemplate(id: Id, active: bool)

  /** An empty report comes only from a validation that accepted the revision. */
  ghost predicate Honest(report: seq<Finding>, s: Id, seen: Snapshot) {
    report == [] ==> exists files, checks ::
      Entries(files) == seen.records.Values
      && Acceptable(seen.manifest, files, s, seen.challengeType, seen.schemaVersion, seen.digest, checks)
  }

  predicate AtStageOf(p: Pond, t: Token, stage: Stage) {
    t in p.runs && p.runs[t].stage == stage && p.runs[t].snapshot.Some?
  }

  /** When a step can happen at all: tokens are fresh, and a process acts on what it
      itself has read. */
  ghost predicate Enabled(p: Pond, step: Step) {
    match step
    case ClaimValidation(_, token, _) => token !in p.runs
    case FinishValidation(c, report, _, _) =>
      AtStageOf(p, c.token, Examined) && Honest(report, c.submission, p.runs[c.token].snapshot.value)
    case ClaimPublication(order, _, token, now) => token !in p.runs && Lists(order, ExpiredJobs(p.jobs, now))
    case ReadApproved(c, report, _) =>
      c.submission in p.submissions
      && Honest(report, c.submission, SnapshotOf(p, c.submission, p.submissions[c.submission].approval))
    case ReadPlan(c, _) => AtStageOf(p, c.token, Examined) && VmBased(p.runs[c.token].snapshot.value.manifest)
    case WritePlan(c, _, _) => AtStageOf(p, c.token, Planning)
    case PutLive(c, report, _) =>
      c.token in p.runs && p.runs[c.token].snapshot.Some?
      && Honest(report, c.submission, p.runs[c.token].snapshot.value)
      && p.runs[c.token].stage == (if VmBased(p.runs[c.token].snapshot.value.manifest) then Prepared else Examined)
    case SwitchTemplate(id, _) => id in p.templates
    case BreakIntake(_, stray) => MayStray(p, stray)
    case _ => true
  }

  /** A refused transaction is rolled back. */
  function Done<T>(p: Pond, r: Outcome<T>): Pond {
    match r
    case Committed(q, _) => q
    case Refused(_) => p
  }

  /** What one enabled step does. */
  ghost function Act(p: Pond, limits: Limits, step: Step): Pond
    requires Enabled(p, step) && JobsHaveRows(p)
  {
    match step
    case CreateDraft(user, m) => Done(p, Create(p, user, m))
    case EditManifest(user, s, m) => Done(p, UpdateManifest(p, user, s, m))
    case DropFile(user, s, f) => Done(p, RemoveFile(p, user, s, f))
    case SubmitDraft(user, s, now) => Done(p, Submit(p, user, s, now))
    case StartUpload(user, s, path, declared, free) => Done(p, BeginUpload(p, limits, user, s, path, declared, free))
    case SaveUpload(key, blob) => Done(p, StoreUpload(p, key, blob))
    case FinishUpload => Done(p, RecordUpload(p))
    case StartRevision(user, s, order, free) => Done(p, BeginRevise(p, limits, user, s, order, free))
    case CopyFile(key) => Done(p, CopyNext(p, key))
    case FinishRevision => Done(p, RecordRevision(p))
    case GiveUpIntake => AbortIntake(p)
    case BreakIntake(kept, stray) => BrokenIntake(p, kept, stray)
    case LoseFile(user, s, f) => LostFile(p, user, s, f)
    case ClaimValidation(w, token, now) => ClaimNext(p, w, token, now).0
    case RenewClaim(action, c, now, leaseSeconds) => Done(p, Renew(p, action, c, now, leaseSeconds))
    case ReadRevision(c, now) => Done(p, Examine(p, c, now))
    case FinishValidation(c, report, now, retrySeconds) =>
      Done(p, Finish(p, c, report, p.runs[c.token].snapshot.value, now, retrySeconds))
    case ReviewRevision(s, actor, form, now) => Done(p, Decide(p, s, actor, form, now))
    case QueuePublication(s, actor, expected, retry, adapterReady, now) =>
      Done(p, Enqueue(p, s, actor, expected, retry, adapterReady, now))
    case ReturnRevision(s, actor, expected, note) => Done(p, ReturnForCorrection(p, s, actor, expected, note))
    case ClaimPublication(order, w, token, now) =>
      ExpiredListed(p, order, now);
      ClaimPublish(p, order, w, token, now).0
    case ReadApproved(c, report, now) => Done(p, ExaminePublish(p, c, report, now))
    case ReadPlan(c, now) => Done(p, ReadJournal(p, c, p.runs[c.token].snapshot.value.manifest, now))
    case WritePlan(c, xs, now) => Done(p, WriteJournal(p, c, p.runs[c.token].snapshot.value.manifest, xs, now))
    case MarkPlan(c, role, state, task, now) => Done(p, Checkpoint(p, c, role, state, task, now))
    case PutLive(c, report, now) =>
      if report != [] then p  // the second revalidation failed, and the run is given up
      else Done(p, CommitLive(p, c, p.runs[c.token].snapshot.value, p.runs[c.token].snapshot.value.manifest, now))
    case StopPublication(c, now) => Done(p, FailRun(p, c, now))
    case ChangeUser(u, account) => p.(users := p.users[u := account])
    case AddTemplate(t) => p.(templates := p.templates[p.next := t], next := p.next + 1)
    case SwitchTemplate(id, active) => p.(templates := p.templates[id := p.templates[id].(active := active)])
  }

  lemma ExpiredListed(p: Pond, order: seq<Id>, now: Time)
    requires Lists(order, ExpiredJobs(p.jobs, now))
    ensures forall j <- order :: j in p.jobs
  {
    forall j <- order ensures j in p.jobs {
      assert j in ExpiredJobs(p.jobs, now);
    }
  }

  /** A step that is not enabled does not happen. */
  ghost function Next(p: Pond, limits: Limits, step: Step): Pond {
    if Enabled(p, step) && JobsHaveRows(p) then Act(p, limits, step) else p
  }

  ghost function Exec(p: Pond, limits: Limits, steps: seq<Step>): Pond
    decreases |steps|
  {
    if steps == [] then p else Exec(Next(p, limits, steps[0]), limits, steps[1..])
  }

  /** Users and templates may exist before the first submission; nothing else does. */
  predicate Initial(p: Pond) {
    && p.submissions == map[] && p.jobs == map[] && p.keys == map[] && p.files == map[] && p.issues == map[]
    && p.audit == [] && p.outbox == [] && p.challenges == map[] && p.objects == map[] && p.orphans == {}
    && p.runs == map[] && p.commits == [] && p.intake == Idle && forall t <- p.templates :: t < p.next
  }
}
