/** Draft intake under the intake lock (challenge_ingestion/intake.py): what each
    session of each operation does to the whole state.

    The lock is held from the first to the last session of an operation, so an
    operation that streams bytes appears as several steps; other actors may act
    between them, other intake operations may not. */
module Intake {
  import opened Schema
  import opened Validation
  import opened Publication

  const MAX_DRAFTS := 20

  datatype Limits = Limits(user: nat, total: nat)

  // ----- sums and counts ---------------------------------------------------------------

  function FilesOf(files: map<Id, File>, s: Id): set<Id> {
    set f | f in files && files[f].submission == s
  }

  function FilesOwnedBy(p: Pond, owner: Id): set<Id> {
    set f | f in p.files && p.files[f].submission in p.submissions
            && p.submissions[p.files[f].submission].owner == owner
  }

  ghost function Sum(files: map<Id, File>, ids: set<Id>): nat
    requires ids <= files.Keys
    decreases |ids|
  {
    if ids == {} then 0
    else
      var f :| f in ids;
      files[f].size + Sum(files, ids - {f})
  }

  function DraftsOf(submissions: map<Id, Submission>, owner: Id): set<Id> {
    set s | s in submissions && submissions[s].owner == owner && submissions[s].status == Draft
  }

  /** `_quota` raises nothing; `free` says whether the disk has room. */
  ghost predicate QuotaAllows(p: Pond, limits: Limits, owner: Id, s: Option<Id>, additional: nat, free: bool) {
    && Sum(p.files, p.files.Keys) + additional <= limits.total
    && Sum(p.files, FilesOwnedBy(p, owner)) + additional <= limits.user
    && (if s.Some? then Sum(p.files, FilesOf(p.files, s.value)) else 0) + additional <= MAX_TOTAL_IMAGE_BYTES
    && free
  }

  predicate MayHandle(p: Pond, user: Id, s: Id) {
    && IsStaff(p.users, user)
    && s in p.submissions
    && (p.submissions[s].owner == user || p.users[user].role == Sysadmin)
  }

  function OwnedProblem(p: Pond, user: Id, s: Id): Option<Refusal> {
    if !IsStaff(p.users, user) then Some(Forbidden)
    else if !MayHandle(p, user, s) then Some(NotFound)
    else None
  }

  // ----- operations of one session ----------------------------------------------------------

  function NewRow(owner: Id, m: Manifest, supersedes: Option<Id>): Submission {
    Submission(owner, m, m.challengeType, m.schemaVersion, Draft, supersedes, None, None, None)
  }

  function Create(p: Pond, user: Id, m: Manifest): Outcome<Id> {
    if !SchemaOk(m) then Refused(Invalid)
    else if p.intake != Idle then Refused(Busy)
    else if !IsStaff(p.users, user) then Refused(Forbidden)
    else if |DraftsOf(p.submissions, user)| >= MAX_DRAFTS then Refused(TooManyDrafts)
    else Committed(p.(submissions := p.submissions[p.next := NewRow(user, m, None)],
                      audit := LogAdmin(p, user, p.next, SubmissionDraft),
                      next := p.next + 1), p.next)
  }

  function UpdateManifest(p: Pond, user: Id, s: Id, m: Manifest): Outcome<()> {
    if !SchemaOk(m) then Refused(Invalid)
    else if p.intake != Idle then Refused(Busy)
    else if OwnedProblem(p, user, s).Some? then Refused(OwnedProblem(p, user, s).value)
    else if p.submissions[s].status != Draft then Refused(FrozenRevision)
    else
      var row := p.submissions[s].(manifest := m, challengeType := m.challengeType, schemaVersion := m.schemaVersion);
      Committed(p.(submissions := p.submissions[s := row]), ())
  }

  function RemoveFile(p: Pond, user: Id, s: Id, f: Id): Outcome<()> {
    if p.intake != Idle then Refused(Busy)
    else if OwnedProblem(p, user, s).Some? then Refused(OwnedProblem(p, user, s).value)
    else if p.submissions[s].status != Draft then Refused(FrozenRevision)
    else if f !in p.files || p.files[f].submission != s then Refused(NotFound)
    else Committed(p.(files := p.files - {f}, objects := p.objects - {p.files[f].key}), ())
  }

  /** `submit` freezes the draft under its digest and queues its validation; a repeated
      submit returns the same job. */
  function Submit(p: Pond, user: Id, s: Id, now: Time): Outcome<Id> {
    if p.intake != Idle then Refused(Busy)
    else if OwnedProblem(p, user, s).Some? then Refused(OwnedProblem(p, user, s).value)
    else if JobFor(p, Validate, s).Some? then Committed(p, JobFor(p, Validate, s).value)
    else if p.submissions[s].status != Draft then Refused(FrozenRevision)
    else
      var row, key := p.submissions[s], JobKey(Validate, s);
      var digest := ContentDigest(row.manifest, RecordsOf(p.files, s));
      Committed(p.(submissions := p.submissions[s := row.(digest := Some(digest), status := Validating)],
                   jobs := p.jobs[p.next := NewJob(key, user, now)],
                   keys := p.keys[key := p.next],
                   audit := LogAdmin(p, user, s, SubmissionQueued),
                   next := p.next + 1), p.next)
  }

  // ----- upload: check, store, record --------------------------------------------------------

  ghost function BeginUpload(p: Pond, limits: Limits, user: Id, s: Id, path: string, declared: nat, free: bool)
    : Outcome<()>
  {
    if !(0 < declared <= MAX_IMAGE_BYTES) then Refused(Invalid)
    else if p.intake != Idle then Refused(Busy)
    else if OwnedProblem(p, user, s).Some? then Refused(OwnedProblem(p, user, s).value)
    else if p.submissions[s].status != Draft then Refused(FrozenRevision)
    else if path !in ImagePaths(p.submissions[s].manifest.vms) then Refused(Invalid)
    else if exists f <- p.files :: p.files[f].submission == s && p.files[f].path == path then Refused(Invalid)
    else if !QuotaAllows(p, limits, p.submissions[s].owner, Some(s), declared, free) then Refused(QuotaExceeded)
    else Committed(p.(intake := Uploading(user, s, path, declared)), ())
  }

  /** The stream has been saved as a fresh object, within the declared size. */
  function StoreUpload(p: Pond, key: StorageKey, blob: Blob): Outcome<()> {
    if !p.intake.Uploading? || key in p.objects || blob.size > p.intake.declared then Refused(Invalid)
    else if blob.size != p.intake.declared then Committed(p.(intake := Idle), ())  // incomplete: deleted again
    else
      Committed(p.(objects := p.objects[key := blob],
                   intake := Stored(p.intake.user, p.intake.submission, p.intake.path, key, blob)), ())
  }

  /** The second session: record the object, or delete it when the caller lost access. */
  function RecordUpload(p: Pond): Outcome<bool> {
    if !p.intake.Stored? then Refused(Invalid)
    else
      var up := p.intake;
      if OwnedProblem(p, up.user, up.submission).Some? || p.submissions[up.submission].status != Draft then
        Committed(p.(objects := p.objects - {up.key}, intake := Idle), false)
      else
        var row := File(up.submission, up.path, "image", up.key, up.blob.size, up.blob.hash, Pending);
        Committed(p.(files := p.files[p.next := row], next := p.next + 1, intake := Idle), true)
  }

  /** Whatever went wrong, the operation ends and its own objects are deleted. */
  function AbortIntake(p: Pond): Pond {
    match p.intake
    case Idle => p
    case Uploading(_, _, _, _) => p.(intake := Idle)
    case Stored(_, _, _, key, _) => p.(objects := p.objects - {key}, intake := Idle)
    case Revising(_, _, _, copies) => p.(objects := p.objects - CopyKeys(copies), intake := Idle)
  }

  function CopyKeys(copies: seq<Copy>): set<StorageKey> {
    set c | c in copies :: c.key
  }

  /** Objects that the intake operation under way has written and no row names yet. */
  function PendingKeys(op: Operation): set<StorageKey> {
    match op
    case Stored(_, _, _, key, _) => {key}
    case Revising(_, _, _, copies) => CopyKeys(copies)
    case _ => {}
  }

  /** At most one object can be in storage before its operation knows of it. */
  predicate MayStray(p: Pond, stray: map<StorageKey, Blob>) {
    stray != map[] ==> |stray| == 1 && stray.Keys !! p.objects.Keys && (p.intake.Uploading? || p.intake.Revising?)
  }

  /** The operation and its lock end without the full cleaning up: the process dies, or a
      deletion fails.  Of its objects, those in `kept` and `stray` stay. */
  function BrokenIntake(p: Pond, kept: set<StorageKey>, stray: map<StorageKey, Blob>): Pond {
    p.(objects := (p.objects - (PendingKeys(p.intake) - kept)) + stray,
       orphans := p.orphans + PendingKeys(p.intake) * kept + stray.Keys,
       intake := Idle)
  }

  /** `remove_file` has committed, and then the process dies or the deletion fails. */
  function LostFile(p: Pond, user: Id, s: Id, f: Id): Pond {
    match RemoveFile(p, user, s, f)
    case Committed(q, _) => q.(objects := p.objects, orphans := p.orphans + {p.files[f].key})
    case Refused(_) => p
  }

  // ----- revise: check, copy every file, record ------------------------------------------------

  predicate Revisable(status: SubmissionStatus) {
    status in {NeedsChanges, ValidationFailed, Rejected}
  }

  ghost function BeginRevise(p: Pond, limits: Limits, user: Id, s: Id, order: seq<Id>, free: bool): Outcome<()>
  {
    if p.intake != Idle then Refused(Busy)
    else if OwnedProblem(p, user, s).Some? then Refused(OwnedProblem(p, user, s).value)
    else if !Revisable(p.submissions[s].status) then Refused(NotReady)
    else if |DraftsOf(p.submissions, user)| >= MAX_DRAFTS then Refused(TooManyDrafts)
    else if !Lists(order, FilesOf(p.files, s)) then Refused(Invalid)
    else if !QuotaAllows(p, limits, user, None, Sum(p.files, FilesOf(p.files, s)), free) then Refused(QuotaExceeded)
    else Committed(p.(intake := Revising(user, s, order, [])), ())
  }

  /** One turn of the copying loop: a faithful copy under a fresh key, or the end of
      the whole operation. */
  function CopyNext(p: Pond, key: StorageKey): Outcome<bool> {
    if !p.intake.Revising? || p.intake.todo == [] || key in p.objects then Refused(Invalid)
    else
      var work := p.intake;
      var f := work.todo[0];
      if f !in p.files || p.files[f].key !in p.objects
         || p.objects[p.files[f].key] != Blob(p.files[f].size, p.files[f].hash)
      then Committed(AbortIntake(p), false)
      else Committed(p.(objects := p.objects[key := p.objects[p.files[f].key]],
                        intake := work.(todo := work.todo[1..], copies := work.copies + [Copy(f, key)])), true)
  }

  function CopiedRow(files: map<Id, File>, c: Copy, s: Id): File
    requires c.file in files
  {
    files[c.file].(submission := s, key := c.key, check := Pending)
  }

  /** File rows of the revision `s` for the copies, numbered from `base`. */
  function CopiedRows(files: map<Id, File>, copies: seq<Copy>, s: Id, base: Id): (r: map<Id, File>)
    requires forall c <- copies :: c.file in files
    ensures forall f :: f in r <==> base <= f < base + |copies|
    ensures forall f :: f in r ==> r[f] == CopiedRow(files, copies[f - base], s)
  {
    Numbered(seq(|copies|, i requires 0 <= i < |copies| => CopiedRow(files, copies[i], s)), base)
  }

  /** A new draft of the same manifest with the copied files. */
  function Revised(p: Pond, user: Id, source: Id, copies: seq<Copy>): Pond
    requires source in p.submissions && forall c <- copies :: c.file in p.files
  {
    var s := p.next;
    p.(submissions := p.submissions[s := NewRow(user, p.submissions[source].manifest, Some(source))],
       files := p.files + CopiedRows(p.files, copies, s, s + 1),
       audit := LogAdmin(p, user, s, SubmissionRevision),
       intake := Idle,
       next := s + 1 + |copies|)
  }

  /** The last session: the revision is recorded, or its copies are deleted. */
  function RecordRevision(p: Pond): Outcome<Option<Id>> {
    if !p.intake.Revising? || p.intake.todo != [] || exists c <- p.intake.copies :: c.file !in p.files
    then Refused(Invalid)
    else
      var work := p.intake;
      if OwnedProblem(p, work.user, work.source).Some? then Committed(AbortIntake(p), None)
      else Committed(Revised(p, work.user, work.source, work.copies), Some(p.next))
  }
}
