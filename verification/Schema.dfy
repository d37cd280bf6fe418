/** The rows of the submission tables and the values they hold.

    Primary keys are drawn from one increasing counter.  Columns that are always
    written together (lease columns, approval columns, publication columns) are
    one optional value.  Timestamps are integers; a lease token, a storage key and
    a content hash are opaque numbers. */
module Schema {

  datatype Option<+T> = None | Some(value: T)

  type Id = nat
  type Time = int
  type Token = nat
  type StorageKey = nat
  type Hash = nat

  // ----- users -----------------------------------------------------------------

  datatype UserRole = Participant | Manager | Sysadmin
  datatype User = User(active: bool, role: UserRole)

  // ----- manifests -------------------------------------------------------------

  datatype ChallengeType = PlainVm | ScoredVm | ContainerLab | Offline
  datatype Source = ApprovedTemplate(reference: string) | Image(path: string)
  datatype VmSpec = VmSpec(role: string, source: Source, cpu: nat, memory: nat, disk: nat,
                           bootOrder: nat, accessible: bool)
  datatype Flag = Flag(vmRole: Option<string>, name: string, hash: Hash, points: nat, sequence: Option<nat>)
  datatype NetworkRule = NetworkRule(fromRole: string, toRole: string, protocol: string, port: nat)

  /** `text` stands for the descriptive fields that are copied unread. */
  datatype Manifest = Manifest(schemaVersion: nat, challengeType: ChallengeType, title: string, text: string,
                               workstation: Option<Id>, vms: seq<VmSpec>, rules: seq<NetworkRule>, flags: seq<Flag>)

  // ----- files and digests -----------------------------------------------------

  datatype FileCheck = Pending | Passed | NotPassed
  datatype File = File(submission: Id, path: string, role: string, key: StorageKey, size: nat, hash: Hash,
                       check: FileCheck)

  /** What the content digest covers of a file row. */
  datatype Entry = Entry(path: string, role: string, key: StorageKey, size: nat, hash: Hash)

  function EntryOf(f: File): Entry {
    Entry(f.path, f.role, f.key, f.size, f.hash)
  }

  /** The digest of a frozen revision.  A collision-free hash of the canonical text
      is the text; module Digests shows that the canonical text is determined by,
      and determines, the manifest and the set of entries. */
  datatype Digest = Digest(manifest: Manifest, inventory: set<Entry>)

  // ----- submissions -----------------------------------------------------------

  datatype SubmissionStatus =
    | Draft | Validating | ValidationFailed | NeedsChanges | ReadyForReview
    | Approved | Importing | ImportFailed | Published | Rejected

  datatype Approval = Approval(admin: Id, time: Time)

  datatype Submission = Submission(
    owner: Id, manifest: Manifest, challengeType: ChallengeType, schemaVersion: nat,
    status: SubmissionStatus, supersedes: Option<Id>, digest: Option<Digest>,
    approval: Option<Approval>, challenge: Option<Id>)

  // ----- jobs ------------------------------------------------------------------

  datatype Action = Validate | Publish
  datatype JobStatus = Queued | Running | RetryWait | Succeeded | Failed | Cancelled

  /** The idempotency key: each submission has at most one job of each action. */
  datatype JobKey = JobKey(action: Action, submission: Id)

  datatype Lease = Lease(token: Token, worker: string, expires: Time)

  datatype PlanState = Planned | Reserved | ImportingVm | ReadyVm | FailedVm

  /** One entry of the publication journal; `job` and `role` make the operation key. */
  datatype Plan = Plan(role: string, node: string, vmid: nat, templateName: string, owned: bool,
                       operation: (Id, string), state: PlanState, task: Option<string>)

  datatype Job = Job(
    key: JobKey, requestedBy: Id, status: JobStatus, attempts: nat, maxAttempts: nat,
    availableAt: Time, lease: Option<Lease>, journal: seq<Plan>, completedAt: Option<Time>)

  predicate Active(status: JobStatus) {
    status in {Queued, Running, RetryWait}
  }

  // ----- findings, audit, notices ----------------------------------------------

  datatype Code =
    | CheckUnavailable | StorageUnavailable | InvalidInventory | ContentChanged
    | InvalidField | SubmissionMismatch | DuplicateVmRole | DuplicateTemplate | UnknownVmRole | DuplicateFlag
    | PackageTooLarge | MissingImage | UnexpectedFile | WrongFileRole | InvalidFileSize
    | TemplateRejected | FileChanged | InvalidImageFormat | ImageRejected

  datatype Finding = Finding(code: Code, file: Option<Id>)

  datatype Decision = Approve | Reject
  datatype FailureCode = LeaseExpiredReconcile | AttemptLimit | PublicationStopped

  datatype Event =
    | SubmissionDraft
    | SubmissionQueued
    | SubmissionRevision
    | SubmissionValidation(job: Id, attempt: nat, status: SubmissionStatus, issueCount: nat, attested: Option<Digest>)
    | SubmissionReview(decision: Decision, reviewed: Digest, job: Id)
    | PublicationQueued(job: Id, retry: bool)
    | PublicationReturned(job: Id)
    | PublicationFailed(job: Id, attempt: nat, code: FailureCode)
    | SubmissionPublished(job: Id, challenge: Id, published: Digest)

  /** `byAdmin` is not a column: it remembers whether the actor was an active system
      administrator when the entry was written. */
  datatype Audit = Audit(actor: Option<Id>, target: Id, event: Event, byAdmin: bool)

  datatype NoticeKey =
    | ValidationTerminal(job: Id, user: Id)
    | ReviewDecided(submission: Id, digest: Digest, decision: Decision)
    | PublishFailed(job: Id, attempt: nat)
    | ReturnedForCorrection(submission: Id)
    | PublishedNotice(submission: Id)

  datatype Notice = Notice(submission: Id, recipient: Id, event: SubmissionStatus, key: NoticeKey)

  // ----- the live side ---------------------------------------------------------

  datatype Template = Template(name: string, vmid: nat, node: string, cpu: nat, memory: nat, disk: nat, active: bool)
  datatype Assignment = Assignment(role: string, template: Id, bootOrder: nat, accessible: bool)
  datatype LiveFlag = LiveFlag(template: Option<Id>, name: string, hash: Hash, points: nat, sequence: Option<nat>)
  datatype Challenge = Challenge(title: string, text: string, vmBased: bool, owner: Id,
                                 assignments: seq<Assignment>, flags: seq<LiveFlag>, rules: seq<NetworkRule>)

  // ----- storage, process memory -----------------------------------------------

  datatype Blob = Blob(size: nat, hash: Hash)

  /** What a worker process remembers of the revision it examined. */
  datatype Snapshot = Snapshot(digest: Option<Digest>, challengeType: ChallengeType, schemaVersion: nat, owner: Id,
                               manifest: Manifest, records: map<Id, Entry>, approval: Option<Approval>)

  /** How far the process holding a claim has come. */
  datatype Stage = Claimed | Examined | Planning | Prepared

  /** One issued claim: its job, the attempt it was issued for, and the worker's memory. */
  datatype Run = Run(job: Id, attempt: nat, stage: Stage, snapshot: Option<Snapshot>)

  /** File `file` has been copied to the object `key`. */
  datatype Copy = Copy(file: Id, key: StorageKey)

  /** The intake operation that holds the intake lock, between its two transactions. */
  datatype Operation =
    | Idle
    | Uploading(user: Id, submission: Id, path: string, declared: nat)
    | Stored(user: Id, submission: Id, path: string, key: StorageKey, blob: Blob)
    | Revising(user: Id, source: Id, todo: seq<Id>, copies: seq<Copy>)

  // ----- everything ------------------------------------------------------------

  /** The database, the quarantine directory, and what the running processes remember.
      `keys` is the unique index on the idempotency key of jobs.  `runs` lists every
      claim ever issued and `commits` the tokens of claims that committed a result;
      `orphans` are the objects that a crash of intake left behind. */
  datatype Pond = Pond(
    users: map<Id, User>,
    submissions: map<Id, Submission>,
    jobs: map<Id, Job>,
    keys: map<JobKey, Id>,
    files: map<Id, File>,
    issues: map<Id, seq<Finding>>,
    audit: seq<Audit>,
    outbox: seq<Notice>,
    challenges: map<Id, Challenge>,
    templates: map<Id, Template>,
    objects: map<StorageKey, Blob>,
    orphans: set<StorageKey>,
    runs: map<Token, Run>,
    commits: seq<Token>,
    intake: Operation,
    next: Id)

  datatype Refusal =
    | Forbidden | NotFound | Busy | FrozenRevision | QuotaExceeded | TooManyDrafts | Invalid | Stale | NotReady
    | LeaseLost | Unsafe | NotAuthorized | NothingToDo

  /** A transaction either commits with a value or is rolled back. */
  datatype Outcome<+T> = Committed(pond: Pond, value: T) | Refused(why: Refusal)

  predicate IsAdmin(users: map<Id, User>, u: Id) {
    u in users && users[u].active && users[u].role == Sysadmin
  }

  predicate IsStaff(users: map<Id, User>, u: Id) {
    u in users && users[u].active && users[u].role in {Manager, Sysadmin}
  }

  /** The file records of submission `s`, by file number. */
  function RecordsOf(files: map<Id, File>, s: Id): map<Id, Entry> {
    map f | f in files && files[f].submission == s :: EntryOf(files[f])
  }

  /** `content_digest` of a manifest and file records. */
  function ContentDigest(m: Manifest, records: map<Id, Entry>): Digest {
    Digest(m, records.Values)
  }

  /** The job of the given action on submission `s`, found through the unique index. */
  function JobFor(p: Pond, action: Action, s: Id): Option<Id> {
    var key := JobKey(action, s);
    if key in p.keys then Some(p.keys[key]) else None
  }

  predicate AnyActive(jobs: map<Id, Job>, s: Id) {
    exists j <- jobs :: jobs[j].key.submission == s && Active(jobs[j].status)
  }

  predicate AllPassed(files: map<Id, File>, s: Id) {
    forall f <- files :: files[f].submission == s ==> files[f].check == Passed
  }

  /** The kinds of audit entry that are looked up again. */
  datatype Kind = ValidationKind | ReviewKind | OtherKind

  function KindOf(e: Event): Kind {
    match e
    case SubmissionValidation(_, _, _, _, _) => ValidationKind
    case SubmissionReview(_, _, _) => ReviewKind
    case _ => OtherKind
  }

  datatype Logged = Logged(index: nat, entry: Audit)

  /** The newest audit entry of a kind about submission `s`, with its position. */
  function Latest(audit: seq<Audit>, kind: Kind, s: Id): (r: Option<Logged>)
    ensures r.Some? ==> r.value.index < |audit| && audit[r.value.index] == r.value.entry
    ensures r.Some? ==> r.value.entry.target == s && KindOf(r.value.entry.event) == kind
    ensures forall i :: (if r.Some? then r.value.index + 1 else 0) <= i < |audit| ==>
              !(audit[i].target == s && KindOf(audit[i].event) == kind)
  {
    if audit == [] then None
    else
      var n := |audit| - 1;
      if audit[n].target == s && KindOf(audit[n].event) == kind then Some(Logged(n, audit[n]))
      else Latest(audit[..n], kind, s)
  }

  /** Rows inserted together get consecutive numbers. */
  function Numbered<T>(rows: seq<T>, base: Id): (r: map<Id, T>)
    ensures forall t :: t in r <==> base <= t < base + |rows|
    ensures forall t :: t in r ==> r[t] == rows[t - base]
  {
    if rows == [] then map[]
    else
      var n := |rows| - 1;
      Numbered(rows[..n], base)[base + n := rows[n]]
  }
}
