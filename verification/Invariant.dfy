/** What holds of the pipeline's tables after every step, submission by submission. */
module Invariant {
  import opened Schema
  import opened Validation
  import opened Worker
  import opened Publication

  // ----- one submission and everything about it ------------------------------------------

  datatype Placed = Placed(id: Id, job: Job)

  datatype View = View(
    row: Submission, vjob: Option<Placed>, pjob: Option<Placed>, records: map<Id, Entry>, passed: bool,
    findings: seq<Finding>, validation: Option<Logged>, review: Option<Logged>, keys: set<NoticeKey>,
    live: Option<Challenge>)

  function PlacedJob(p: Pond, action: Action, s: Id): Option<Placed> {
    var j := JobFor(p, action, s);
    if j.Some? && j.value in p.jobs then Some(Placed(j.value, p.jobs[j.value])) else None
  }

  function FindingsOf(p: Pond, s: Id): seq<Finding> {
    var j := JobFor(p, Validate, s);
    if j.Some? && j.value in p.issues then p.issues[j.value] else []
  }

  function KeysOf(outbox: seq<Notice>, s: Id): set<NoticeKey> {
    set n | n in outbox && n.submission == s :: n.key
  }

  function LiveOf(p: Pond, row: Submission): Option<Challenge> {
    if row.challenge.Some? && row.challenge.value in p.challenges then Some(p.challenges[row.challenge.value]) else None
  }

  function ViewOf(p: Pond, s: Id): View
    requires s in p.submissions
  {
    var row := p.submissions[s];
    View(row, PlacedJob(p, Validate, s), PlacedJob(p, Publish, s), RecordsOf(p.files, s), AllPassed(p.files, s),
         FindingsOf(p, s), Latest(p.audit, ValidationKind, s), Latest(p.audit, ReviewKind, s),
         KeysOf(p.outbox, s), LiveOf(p, row))
  }

  // ----- status and jobs --------------------------------------------------------------------

  predicate JobIs(j: Option<Placed>, allowed: set<JobStatus>) {
    j.Some? && j.value.job.status in allowed
  }

  /** The status of a submission says exactly which jobs it has and how far they are. */
  predicate Coupled(v: View) {
    match v.row.status
    case Draft => v.vjob.None? && v.pjob.None?
    case Validating => JobIs(v.vjob, {Queued, Running, RetryWait}) && v.pjob.None?
    case ValidationFailed => JobIs(v.vjob, {Failed}) && v.pjob.None?
    case NeedsChanges => JobIs(v.vjob, {Succeeded}) && v.pjob.None?
    case ReadyForReview => JobIs(v.vjob, {Succeeded}) && v.pjob.None?
    case Approved => JobIs(v.vjob, {Succeeded}) && v.pjob.None?
    case Importing => JobIs(v.vjob, {Succeeded}) && JobIs(v.pjob, {Queued, Running})
    case ImportFailed => JobIs(v.vjob, {Succeeded}) && JobIs(v.pjob, {Failed})
    case Published => JobIs(v.vjob, {Succeeded}) && JobIs(v.pjob, {Succeeded})
    case Rejected => JobIs(v.vjob, {Succeeded, Failed}) && (v.pjob.None? || JobIs(v.pjob, {Failed}))
  }

  // ----- content, attestation, approval -------------------------------------------------------

  /** Only a draft can differ from its digest; a draft has none. */
  predicate Frozen(v: View) {
    && SchemaOk(v.row.manifest)
    && v.row.challengeType == v.row.manifest.challengeType && v.row.schemaVersion == v.row.manifest.schemaVersion
    && v.row.digest == (if v.row.status == Draft then None else Some(ContentDigest(v.row.manifest, v.records)))
  }

  /** A finished validation run found nothing and recorded the digest. */
  ghost predicate Vouched(v: View) {
    && v.vjob.Some? && v.validation.Some? && v.validation.value.entry.event.SubmissionValidation?
    && v.validation.value.entry.event.job == v.vjob.value.id
    && v.validation.value.entry.event.status == ReadyForReview
    && v.validation.value.entry.event.issueCount == 0
    && v.validation.value.entry.event.attested == v.row.digest
    && v.findings == [] && v.passed
    && ReferencesOk(v.row.manifest)
  }

  /** Later, an active system administrator approved that digest for that job. */
  predicate Sanctioned(v: View) {
    && v.row.approval.Some? && v.review.Some? && v.vjob.Some? && v.validation.Some? && v.row.digest.Some?
    && v.review.value.entry == Audit(Some(v.row.approval.value.admin), v.review.value.entry.target,
                                     SubmissionReview(Approve, v.row.digest.value, v.vjob.value.id), true)
    && v.validation.value.index < v.review.value.index
  }

  predicate AfterApproval(status: SubmissionStatus) {
    status in {Approved, Importing, ImportFailed, Published}
  }

  ghost predicate Evidence(v: View) {
    && (v.row.status == ReadyForReview || AfterApproval(v.row.status) ==> Vouched(v))
    && (if AfterApproval(v.row.status) then Sanctioned(v) else v.row.approval.None?)
  }

  // ----- journals, live challenges, notices ----------------------------------------------------

  ghost predicate JournalKept(v: View) {
    v.pjob.Some? && v.pjob.value.job.journal != [] ==>
      JournalOk(v.row.manifest.vms, v.pjob.value.id, v.pjob.value.job.journal) && ReferencesOk(v.row.manifest)
  }

  /** A published submission has the challenge made from its manifest and journal, and
      no other submission has one. */
  ghost predicate Mirrored(v: View) {
    && (v.row.challenge.Some? <==> v.row.status == Published)
    && (v.row.status == Published ==>
          && v.pjob.Some?
          && |v.pjob.value.job.journal| == |v.row.manifest.vms|
          && LookupsDefined(v.row.manifest, v.pjob.value.job.journal)
          && v.live == Some(NewChallenge(v.row.manifest, v.pjob.value.job.journal, v.row.challenge.value + 1,
                                         v.row.owner)))
  }

  predicate Undecided(status: SubmissionStatus) {
    status in {Draft, Validating, ValidationFailed, NeedsChanges, ReadyForReview}
  }

  /** Which notices a submission can already have caused. */
  predicate NoticeFits(s: Id, v: View, k: NoticeKey) {
    match k
    case ValidationTerminal(j, _) => JobIs(v.vjob, {Succeeded, Failed}) && v.vjob.value.id == j
    case ReviewDecided(t, _, _) => t == s && !Undecided(v.row.status)
    case PublishFailed(j, a) =>
      && v.pjob.Some? && v.pjob.value.id == j
      && (a < v.pjob.value.job.attempts
          || (a == v.pjob.value.job.attempts && v.pjob.value.job.status in {Failed, Queued}))
    case ReturnedForCorrection(t) => t == s && v.row.status == Rejected
    case PublishedNotice(t) => t == s && v.row.status == Published
  }

  ghost predicate LocalOk(s: Id, v: View) {
    && Coupled(v) && Frozen(v) && Evidence(v) && JournalKept(v) && Mirrored(v)
    && forall k <- v.keys :: NoticeFits(s, v, k)
  }

  // ----- across submissions -------------------------------------------------------------------

  predicate JobOk(job: Job) {
    && job.maxAttempts == MAX_ATTEMPTS
    && job.attempts <= job.maxAttempts
    && (job.status in {Queued, RetryWait} ==> job.attempts < job.maxAttempts)
    && (job.status == Running <==> job.lease.Some?)
    && (job.status in {Succeeded, Failed} ==> job.completedAt.Some?)
    && job.status != Cancelled
    && (job.key.action == Validate ==> job.journal == [])
    && (job.key.action == Publish ==> job.status != RetryWait)
  }

  /** The unique index on the idempotency key. */
  ghost predicate IndexOk(keys: map<JobKey, Id>, jobs: map<Id, Job>) {
    && (forall k <- keys :: keys[k] in jobs && jobs[keys[k]].key == k)
    && (forall j <- jobs :: jobs[j].key in keys && keys[jobs[j].key] == j)
  }

  ghost predicate JobsOk(jobs: map<Id, Job>, submissions: map<Id, Submission>, next: Id) {
    forall j <- jobs :: j < next && jobs[j].key.submission in submissions && JobOk(jobs[j])
  }

  ghost predicate RowsOk(submissions: map<Id, Submission>, challenges: map<Id, Challenge>, next: Id) {
    && (forall s <- submissions :: s < next)
    && (forall s <- submissions :: submissions[s].challenge.Some? ==> submissions[s].challenge.value in challenges)
  }

  ghost predicate FileRowsOk(files: map<Id, File>, submissions: map<Id, Submission>, next: Id) {
    forall f <- files :: f < next && files[f].submission in submissions
  }

  ghost predicate Tables(p: Pond) {
    && IndexOk(p.keys, p.jobs)
    && JobsOk(p.jobs, p.submissions, p.next)
    && RowsOk(p.submissions, p.challenges, p.next)
    && FileRowsOk(p.files, p.submissions, p.next)
    && (forall c <- p.challenges :: c < p.next)
    && (forall t <- p.templates :: t < p.next)
    && (forall i <- p.issues :: i in p.jobs)
    && (forall n <- p.outbox :: n.submission in p.submissions)
  }

  ghost predicate UniqueNotices(outbox: seq<Notice>) {
    forall i, j :: 0 <= i < j < |outbox| ==> outbox[i].key != outbox[j].key
  }

  ghost predicate VmidsDistinct(journal: seq<Plan>) {
    forall i, j :: 0 <= i < j < |journal| ==> journal[i].vmid != journal[j].vmid
  }

  /** No VM number is planned twice, by one job or by two. */
  ghost predicate Reservations(jobs: map<Id, Job>) {
    && (forall j <- jobs :: VmidsDistinct(jobs[j].journal))
    && (forall j, k :: j in jobs && k in jobs && j != k ==> Vmids(jobs[j].journal) !! Vmids(jobs[k].journal))
  }

  // ----- claims ----------------------------------------------------------------------------------

  function Issued(runs: map<Token, Run>, j: Id): set<Token> {
    set t | t in runs && runs[t].job == j
  }

  predicate Holds(p: Pond, t: Token) {
    && t in p.runs && p.runs[t].job in p.jobs
    && p.jobs[p.runs[t].job].lease.Some? && p.jobs[p.runs[t].job].lease.value.token == t
  }

  /** A leased job is leased to the claim of its latest attempt, which has not committed. */
  ghost predicate HoldersOk(p: Pond) {
    forall j <- p.jobs :: p.jobs[j].lease.Some? ==>
      var t := p.jobs[j].lease.value.token;
      t in p.runs && p.runs[t].job == j && p.runs[t].attempt == p.jobs[j].attempts && t !in p.commits
  }

  /** The attempts of a job are the claims issued for it. */
  ghost predicate CountsOk(jobs: map<Id, Job>, runs: map<Token, Run>) {
    && (forall t <- runs :: runs[t].job in jobs)
    && (forall j <- jobs :: |Issued(runs, j)| == jobs[j].attempts)
  }

  /** Only issued tokens commit, and each at most once. */
  ghost predicate CommitsOk(runs: map<Token, Run>, commits: seq<Token>) {
    && (forall t <- commits :: t in runs)
    && (forall i, k :: 0 <= i < k < |commits| ==> commits[i] != commits[k])
  }

  ghost predicate LeasesOk(p: Pond) {
    HoldersOk(p) && CountsOk(p.jobs, p.runs) && CommitsOk(p.runs, p.commits)
  }

  /** What a worker remembers is what the tables say, for as long as it may matter. */
  ghost predicate MemoryOk(p: Pond, t: Token)
    requires t in p.runs && p.runs[t].job in p.jobs && p.jobs[p.runs[t].job].key.submission in p.submissions
  {
    var run, job := p.runs[t], p.jobs[p.runs[t].job];
    var row := p.submissions[job.key.submission];
    && (run.stage != Claimed <==> run.snapshot.Some?)
    && (run.stage in {Planning, Prepared} ==> job.key.action == Publish)
    && (run.snapshot.Some? ==>
          && run.snapshot.value.(approval := None) == SnapshotOf(p, job.key.submission, None)
          && (if job.key.action == Validate then run.snapshot.value.approval.None?
              else (row.approval.Some? ==> run.snapshot.value.approval == row.approval) && ReferencesOk(row.manifest)))
    && (run.stage == Planning && Holds(p, t) ==> job.journal == [])
  }

  ghost predicate Memories(p: Pond) {
    forall t <- p.runs ::
      p.runs[t].job in p.jobs && p.jobs[p.runs[t].job].key.submission in p.submissions && MemoryOk(p, t)
  }

  // ----- live templates --------------------------------------------------------------------------

  /** The template rows numbered from `base` carry the journal and the manifest. */
  ghost predicate TemplatesMatch(templates: map<Id, Template>, m: Manifest, journal: seq<Plan>, base: Id)
    requires LookupsDefined(m, journal)
  {
    var rows := NewTemplates(m.vms, journal, base);
    forall t :: t in rows ==> t in templates && templates[t].(active := true) == rows[t]
  }

  ghost predicate TemplatesOk(templates: map<Id, Template>, v: View) {
    v.row.status == Published && Mirrored(v) ==>
      TemplatesMatch(templates, v.row.manifest, v.pjob.value.job.journal, v.row.challenge.value + 1)
  }

  // ----- everything ---------------------------------------------------------------------------------

  ghost predicate Locals(p: Pond) {
    forall s <- p.submissions :: LocalOk(s, ViewOf(p, s))
  }

  ghost predicate LiveTemplates(p: Pond) {
    forall s <- p.submissions :: TemplatesOk(p.templates, ViewOf(p, s))
  }

  ghost predicate Inv(p: Pond) {
    && Tables(p)
    && Locals(p)
    && LiveTemplates(p)
    && UniqueNotices(p.outbox)
    && Reservations(p.jobs)
    && LeasesOk(p)
    && Memories(p)
  }

  // ----- framing --------------------------------------------------------------------------------------

  ghost predicate RowsTouched(p: Pond, q: Pond, s: Id) {
    && (forall r <- p.submissions :: r in q.submissions && (r != s ==> q.submissions[r] == p.submissions[r]))
    && (forall r <- q.submissions :: r != s ==> r in p.submissions)
    && (forall c <- p.challenges :: c in q.challenges && q.challenges[c] == p.challenges[c])
    && p.next <= q.next
  }

  ghost predicate JobsTouched(p: Pond, q: Pond, s: Id) {
    && (forall k <- p.keys :: k in q.keys && q.keys[k] == p.keys[k])
    && (forall k <- q.keys :: k.submission != s ==> k in p.keys)
    && (forall j <- p.jobs :: j in q.jobs && q.jobs[j].key == p.jobs[j].key
                              && (p.jobs[j].key.submission != s ==> q.jobs[j] == p.jobs[j]))
    && (forall j <- q.jobs :: j !in p.jobs ==> q.jobs[j].key.submission == s)
    && (forall j <- p.jobs :: p.jobs[j].key.submission != s ==>
          (j in p.issues <==> j in q.issues) && (j in p.issues ==> q.issues[j] == p.issues[j]))
  }

  ghost predicate FilesTouched(p: map<Id, File>, q: map<Id, File>, s: Id) {
    && (forall f <- p :: p[f].submission != s ==> f in q && q[f] == p[f])
    && (forall f <- q :: q[f].submission != s ==> f in p && q[f] == p[f])
  }

  ghost predicate LogsTouched(p: Pond, q: Pond, s: Id) {
    && Extends(p.audit, q.audit) && (q.audit != p.audit ==> q.audit[|p.audit|].target == s)
    && Extends(p.outbox, q.outbox) && (q.outbox != p.outbox ==> q.outbox[|p.outbox|].submission == s)
  }

  /** Everything that step `p` to `q` changed is about submission `s`. */
  ghost predicate Touches(p: Pond, q: Pond, s: Id) {
    RowsTouched(p, q, s) && JobsTouched(p, q, s) && FilesTouched(p.files, q.files, s) && LogsTouched(p, q, s)
  }

  /** `b` is `a` with at most one more element. */
  predicate Extends<T(==)>(a: seq<T>, b: seq<T>) {
    b == a || (|b| == |a| + 1 && b[..|a|] == a)
  }

  lemma LatestAppend(audit: seq<Audit>, e: Audit, kind: Kind, s: Id)
    ensures Latest(audit + [e], kind, s)
         == if e.target == s && KindOf(e.event) == kind then Some(Logged(|audit|, e)) else Latest(audit, kind, s)
  {
    assert (audit + [e])[..|audit|] == audit;
  }

  lemma LatestFrame(a: seq<Audit>, b: seq<Audit>, kind: Kind, s: Id)
    requires Extends(a, b) && (b != a ==> b[|a|].target != s || KindOf(b[|a|].event) != kind)
    ensures Latest(b, kind, s) == Latest(a, kind, s)
  {
    if b != a {
      assert b == a + [b[|a|]];
      LatestAppend(a, b[|a|], kind, s);
    }
  }

  lemma KeysFrame(a: seq<Notice>, b: seq<Notice>, s: Id)
    requires Extends(a, b)
    ensures KeysOf(b, s) == KeysOf(a, s) + (if b != a && b[|a|].submission == s then {b[|a|].key} else {})
  {
    if b != a {
      assert b == a + [b[|a|]];
    }
  }

  lemma JobFrame(p: Pond, q: Pond, s: Id, r: Id, action: Action)
    requires Tables(p) && JobsTouched(p, q, s) && r != s
    ensures PlacedJob(q, action, r) == PlacedJob(p, action, r)
    ensures action == Validate ==> FindingsOf(q, r) == FindingsOf(p, r)
  {
    var key := JobKey(action, r);
    assert key in p.keys <==> key in q.keys;
  }

  lemma FilesFrame(p: map<Id, File>, q: map<Id, File>, s: Id, r: Id)
    requires FilesTouched(p, q, s) && r != s
    ensures RecordsOf(q, r) == RecordsOf(p, r) && AllPassed(q, r) == AllPassed(p, r)
  {
  }

  /** A step about `s` leaves the view of every other submission alone. */
  lemma ViewFrame(p: Pond, q: Pond, s: Id, r: Id)
    requires Tables(p) && Touches(p, q, s) && r in p.submissions && r != s
    ensures ViewOf(q, r) == ViewOf(p, r)
  {
    hide RecordsOf, AllPassed, Latest, KeysOf, PlacedJob, FindingsOf, IndexOk, JobOk;
    LatestFrame(p.audit, q.audit, ValidationKind, r);
    LatestFrame(p.audit, q.audit, ReviewKind, r);
    KeysFrame(p.outbox, q.outbox, r);
    FilesFrame(p.files, q.files, s, r);
    JobFrame(p, q, s, r, Validate);
    JobFrame(p, q, s, r, Publish);
    assert LiveOf(q, q.submissions[r]) == LiveOf(p, p.submissions[r]);
  }

  lemma LocalsFrame(p: Pond, q: Pond, s: Id)
    requires Tables(p) && Touches(p, q, s) && Locals(p)
    requires s in q.submissions ==> LocalOk(s, ViewOf(q, s))
    ensures Locals(q)
  {
    forall r <- q.submissions ensures LocalOk(r, ViewOf(q, r)) {
      if r != s {
        ViewFrame(p, q, s, r);
      }
    }
  }
}
