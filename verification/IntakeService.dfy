/** The intake service on the shared store: each session of
    challenge_ingestion/intake.py, statement by statement, proved against what module
    Intake says it does to the whole state. */
module IntakeSessions {
  import opened Schema
  import opened Store
  import opened Validation
  import opened Publication
  import opened Intake
  import opened Conservation

  class IntakeService {
    const store: Store
    const limits: Limits

    constructor (store: Store, limits: Limits)
      ensures this.store == store && this.limits == limits
    {
      this.store, this.limits := store, limits;
    }

    // ----- accounting --------------------------------------------------------------------

    /** `SUM(size_bytes)` over the given rows. */
    method SumSizes(ids: set<Id>) returns (total: nat)
      requires ids <= store.pond.files.Keys
      ensures total == Sum(store.pond.files, ids)
    {
      total := 0;
      var todo := ids;
      while todo != {}
        invariant todo <= ids
        invariant total + Sum(store.pond.files, todo) == Sum(store.pond.files, ids)
        decreases |todo|
      {
        var f :| f in todo;
        SumInsert(store.pond.files, todo - {f}, f);
        assert (todo - {f}) + {f} == todo;
        total := total + store.pond.files[f].size;
        todo := todo - {f};
      }
    }

    /** `_quota`: total, personal and submission sums, then the disk. */
    method WithinQuota(owner: Id, s: Option<Id>, additional: nat, free: bool) returns (ok: bool)
      ensures ok <==> QuotaAllows(store.pond, limits, owner, s, additional, free)
    {
      var files := store.pond.files;
      var total := SumSizes(files.Keys);
      var personal := SumSizes(FilesOwnedBy(store.pond, owner));
      var submission := 0;
      if s.Some? {
        submission := SumSizes(FilesOf(files, s.value));
      }
      if total + additional > limits.total || personal + additional > limits.user
         || submission + additional > MAX_TOTAL_IMAGE_BYTES {
        return false;
      }
      return free;
    }

    /** `_draft_capacity`: the drafts of the owner are counted. */
    method HasDraftCapacity(owner: Id) returns (ok: bool)
      ensures ok <==> |DraftsOf(store.pond.submissions, owner)| < MAX_DRAFTS
    {
      hide DraftsOf;
      var rows := store.pond.submissions;
      AllSeen(rows, owner);
      var todo, count := rows.Keys, 0;
      ghost var seen: set<Id> := {};
      while todo != {}
        invariant seen !! todo && seen + todo == rows.Keys
        invariant count == |DraftsOf(rows, owner) * seen|
        decreases |todo|
      {
        var s :| s in todo;
        OneMoreSeen(rows, owner, seen, s);
        if rows[s].owner == owner && rows[s].status == Draft {
          count := count + 1;
        }
        todo, seen := todo - {s}, seen + {s};
      }
      assert seen == rows.Keys;
      return count < MAX_DRAFTS;
    }

    /** `owned`: the refusal that `owned` raises, if any. */
    method OwnedRow(user: Id, s: Id) returns (problem: Option<Refusal>)
      ensures problem == OwnedProblem(store.pond, user, s)
    {
      var p := store.pond;
      if !IsStaff(p.users, user) {
        return Some(Forbidden);
      }
      if s !in p.submissions || (p.submissions[s].owner != user && p.users[user].role != Sysadmin) {
        return Some(NotFound);
      }
      return None;
    }

    // ----- operations of one session ---------------------------------------------------------

    method CreateDraft(user: Id, m: Manifest) returns (r: Outcome<Id>)
      modifies store
      ensures r == Create(old(store.pond), user, m)
      ensures store.pond == if r.Committed? then r.pond else old(store.pond)
    {
      if !SchemaOk(m) {
        return Refused(Invalid);
      }
      if store.pond.intake != Idle {
        return Refused(Busy);
      }
      if !IsStaff(store.pond.users, user) {
        return Refused(Forbidden);
      }
      var room := HasDraftCapacity(user);
      if !room {
        return Refused(TooManyDrafts);
      }
      var p := store.pond;
      var id := p.next;
      p := p.(submissions := p.submissions[id := NewRow(user, m, None)], next := id + 1);
      p := p.(audit := LogAdmin(p, user, id, SubmissionDraft));
      store.pond := p;
      return Committed(p, id);
    }

    method EditManifest(user: Id, s: Id, m: Manifest) returns (r: Outcome<()>)
      modifies store
      ensures r == UpdateManifest(old(store.pond), user, s, m)
      ensures store.pond == if r.Committed? then r.pond else old(store.pond)
    {
      if !SchemaOk(m) {
        return Refused(Invalid);
      }
      if store.pond.intake != Idle {
        return Refused(Busy);
      }
      var problem := OwnedRow(user, s);
      if problem.Some? {
        return Refused(problem.value);
      }
      var row := store.pond.submissions[s];
      if row.status != Draft {
        return Refused(FrozenRevision);
      }
      row := row.(manifest := m);
      row := row.(challengeType := m.challengeType, schemaVersion := m.schemaVersion);
      store.pond := store.pond.(submissions := store.pond.submissions[s := row]);
      return Committed(store.pond, ());
    }

    method DropFile(user: Id, s: Id, f: Id) returns (r: Outcome<()>)
      modifies store
      ensures r == RemoveFile(old(store.pond), user, s, f)
      ensures store.pond == if r.Committed? then r.pond else old(store.pond)
    {
      if store.pond.intake != Idle {
        return Refused(Busy);
      }
      var problem := OwnedRow(user, s);
      if problem.Some? {
        return Refused(problem.value);
      }
      if store.pond.submissions[s].status != Draft {
        return Refused(FrozenRevision);
      }
      if f !in store.pond.files || store.pond.files[f].submission != s {
        return Refused(NotFound);
      }
      var key := store.pond.files[f].key;
      store.pond := store.pond.(files := store.pond.files - {f});
      store.pond := store.pond.(objects := store.pond.objects - {key});
      return Committed(store.pond, ());
    }

    method SubmitDraft(user: Id, s: Id, now: Time) returns (r: Outcome<Id>)
      modifies store
      ensures r == Submit(old(store.pond), user, s, now)
      ensures store.pond == if r.Committed? then r.pond else old(store.pond)
    {
      if store.pond.intake != Idle {
        return Refused(Busy);
      }
      var problem := OwnedRow(user, s);
      if problem.Some? {
        return Refused(problem.value);
      }
      var p := store.pond;
      var existing := JobFor(p, Validate, s);
      if existing.Some? {
        return Committed(p, existing.value);
      }
      var row := p.submissions[s];
      if row.status != Draft {
        return Refused(FrozenRevision);
      }
      row := row.(digest := Some(ContentDigest(row.manifest, RecordsOf(p.files, s))));
      row := row.(status := Validating);
      var id := p.next;
      p := p.(submissions := p.submissions[s := row], jobs := p.jobs[id := NewJob(JobKey(Validate, s), user, now)]);
      p := p.(keys := p.keys[JobKey(Validate, s) := id], next := id + 1);
      p := p.(audit := LogAdmin(p, user, s, SubmissionQueued));
      store.pond := p;
      return Committed(p, id);
    }

    // ----- upload ------------------------------------------------------------------------------

    /** First session of `upload`: everything that is checked before bytes flow. */
    method CheckUpload(user: Id, s: Id, path: string, declared: nat, free: bool) returns (r: Outcome<()>)
      modifies store
      ensures r == BeginUpload(old(store.pond), limits, user, s, path, declared, free)
      ensures store.pond == if r.Committed? then r.pond else old(store.pond)
    {
      hide QuotaAllows;
      if !(0 < declared <= MAX_IMAGE_BYTES) {
        return Refused(Invalid);
      }
      if store.pond.intake != Idle {
        return Refused(Busy);
      }
      var problem := OwnedRow(user, s);
      if problem.Some? {
        return Refused(problem.value);
      }
      var row := store.pond.submissions[s];
      if row.status != Draft {
        return Refused(FrozenRevision);
      }
      if path !in ImagePaths(row.manifest.vms) {
        return Refused(Invalid);
      }
      if exists f <- store.pond.files :: store.pond.files[f].submission == s && store.pond.files[f].path == path {
        return Refused(Invalid);
      }
      var ok := WithinQuota(row.owner, Some(s), declared, free);
      if !ok {
        return Refused(QuotaExceeded);
      }
      store.pond := store.pond.(intake := Uploading(user, s, path, declared));
      return Committed(store.pond, ());
    }

    /** Last session of `upload`: the row is added, or the object goes away again. */
    method RecordObject() returns (r: Outcome<bool>)
      modifies store
      ensures r == RecordUpload(old(store.pond))
      ensures store.pond == if r.Committed? then r.pond else old(store.pond)
    {
      if !store.pond.intake.Stored? {
        return Refused(Invalid);
      }
      var up := store.pond.intake;
      var problem := OwnedRow(up.user, up.submission);
      var recorded := problem.None? && store.pond.submissions[up.submission].status == Draft;
      if recorded {
        var row := File(up.submission, up.path, "image", up.key, up.blob.size, up.blob.hash, Pending);
        store.pond := store.pond.(files := store.pond.files[store.pond.next := row], next := store.pond.next + 1);
      } else {
        store.pond := store.pond.(objects := store.pond.objects - {up.key});
      }
      store.pond := store.pond.(intake := Idle);
      return Committed(store.pond, recorded);
    }

    // ----- revise ---------------------------------------------------------------------------------

    /** First session of `revise`; `order` is the order in which the query listed the files. */
    method CheckRevision(user: Id, s: Id, order: seq<Id>, free: bool) returns (r: Outcome<()>)
      requires s in store.pond.submissions ==> Lists(order, FilesOf(store.pond.files, s))
      modifies store
      ensures r == BeginRevise(old(store.pond), limits, user, s, order, free)
      ensures store.pond == if r.Committed? then r.pond else old(store.pond)
    {
      hide QuotaAllows, Lists;
      if store.pond.intake != Idle {
        return Refused(Busy);
      }
      var problem := OwnedRow(user, s);
      if problem.Some? {
        return Refused(problem.value);
      }
      if store.pond.submissions[s].status !in {NeedsChanges, ValidationFailed, Rejected} {
        return Refused(NotReady);
      }
      var room := HasDraftCapacity(user);
      if !room {
        return Refused(TooManyDrafts);
      }
      var bytes := SumSizes(FilesOf(store.pond.files, s));
      var ok := WithinQuota(user, None, bytes, free);
      if !ok {
        return Refused(QuotaExceeded);
      }
      store.pond := store.pond.(intake := Revising(user, s, order, []));
      return Committed(store.pond, ());
    }

    /** Last session of `revise`: a new draft, then one file row for each copy. */
    method RecordCopies() returns (r: Outcome<Option<Id>>)
      modifies store
      ensures r == RecordRevision(old(store.pond))
      ensures store.pond == if r.Committed? then r.pond else old(store.pond)
    {
      var p := store.pond;
      if !p.intake.Revising? || p.intake.todo != [] || exists c <- p.intake.copies :: c.file !in p.files {
        return Refused(Invalid);
      }
      var work := p.intake;
      var problem := OwnedRow(work.user, work.source);
      if problem.Some? {
        store.pond := p.(objects := p.objects - CopyKeys(work.copies), intake := Idle);
        return Committed(store.pond, None);
      }
      hide Revised;
      WriteRevision(work.user, work.source, work.copies);
      return Committed(store.pond, Some(p.next));
    }

    method WriteRevision(user: Id, source: Id, copies: seq<Copy>)
      requires source in store.pond.submissions && forall c <- copies :: c.file in store.pond.files
      modifies store
      ensures store.pond == Revised(old(store.pond), user, source, copies)
    {
      hide CopiedRows, NewRow, LogAdmin, CopiedRow;
      var p := store.pond;
      var s := p.next;
      var row, log := NewRow(user, p.submissions[source].manifest, Some(source)),
          LogAdmin(p, user, s, SubmissionRevision);
      var rows := AddCopies(p.files, copies, s);
      store.pond := p.(submissions := p.submissions[s := row], files := p.files + rows, audit := log, intake := Idle,
                       next := s + 1 + |copies|);
    }

    method AddCopies(files: map<Id, File>, copies: seq<Copy>, s: Id) returns (rows: map<Id, File>)
      requires forall c <- copies :: c.file in files
      ensures rows == CopiedRows(files, copies, s, s + 1)
    {
      hide CopiedRow;
      rows := map[];
      assert copies[..0] == [];
      for i := 0 to |copies|
        invariant rows == CopiedRows(files, copies[..i], s, s + 1)
      {
        assert copies[..i + 1][..i] == copies[..i];
        assert copies[i] in copies;
        RowsStep(files, copies[..i + 1], i, s, s + 1);
        rows := rows[s + 1 + i := CopiedRow(files, copies[i], s)];
      }
      assert copies[..|copies|] == copies;
    }

    /** The exception path of `revise`: the copies made so far are deleted one by one. */
    method DropCopies(copies: seq<Copy>)
      modifies store
      ensures store.pond == old(store.pond).(objects := old(store.pond).objects - CopyKeys(copies))
    {
      for i := 0 to |copies|
        invariant store.pond == old(store.pond).(objects := old(store.pond).objects - CopyKeys(copies[..i]))
      {
        assert copies[..i + 1] == copies[..i] + [copies[i]];
        store.pond := store.pond.(objects := store.pond.objects - {copies[i].key});
        assert CopyKeys(copies[..i + 1]) == CopyKeys(copies[..i]) + {copies[i].key};
      }
      assert copies[..|copies|] == copies;
    }
  }

  lemma OneMoreSeen(rows: map<Id, Submission>, owner: Id, seen: set<Id>, s: Id)
    requires s in rows && s !in seen
    ensures |DraftsOf(rows, owner) * (seen + {s})|
         == |DraftsOf(rows, owner) * seen| + if rows[s].owner == owner && rows[s].status == Draft then 1 else 0
  {
    var drafts := DraftsOf(rows, owner);
    if s in drafts {
      assert drafts * (seen + {s}) == drafts * seen + {s};
    } else {
      assert drafts * (seen + {s}) == drafts * seen;
    }
  }

  lemma AllSeen(rows: map<Id, Submission>, owner: Id)
    ensures DraftsOf(rows, owner) * rows.Keys == DraftsOf(rows, owner)
  {
  }
}
