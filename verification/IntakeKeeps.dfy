/** Intake and the environment keep the pipeline invariant. */
module IntakeKeeps {
  import opened Schema
  import opened Validation
  import opened Intake
  import opened Invariant
  import opened Frames

  predicate DraftRow(row: Submission) {
    && row.status == Draft && row.digest.None? && row.approval.None? && row.challenge.None?
    && SchemaOk(row.manifest)
    && row.challengeType == row.manifest.challengeType && row.schemaVersion == row.manifest.schemaVersion
  }

  /** Only a draft, old or new, and its files are written. */
  ghost predicate Drafts(p: Pond, q: Pond, s: Id, row: Submission) {
    && DraftRow(row) && q.submissions == p.submissions[s := row]
    && (if s in p.submissions then p.submissions[s].status == Draft else p.next <= s < q.next)
    && FilesTouched(p.files, q.files, s) && FileRowsOk(q.files, q.submissions, q.next)
    && q.jobs == p.jobs && q.keys == p.keys && q.issues == p.issues && q.outbox == p.outbox
    && q.challenges == p.challenges && q.templates == p.templates && q.runs == p.runs && q.commits == p.commits
    && p.next <= q.next
    && Extends(p.audit, q.audit) && (q.audit != p.audit ==> q.audit[|p.audit|].target == s)
  }

  lemma DraftView(s: Id, v: View)
    requires LocalOk(s, v) && v.row.status == Draft
    ensures v.vjob.None? && v.pjob.None? && v.keys == {}
  {
    assert forall k <- v.keys :: NoticeFits(s, v, k);
  }

  lemma NoIndexNoJobs(p: Pond, s: Id)
    requires IndexOk(p.keys, p.jobs) && JobKey(Validate, s) !in p.keys && JobKey(Publish, s) !in p.keys
    ensures forall j <- p.jobs :: p.jobs[j].key.submission != s
  {
    forall j <- p.jobs ensures p.jobs[j].key.submission != s {
      assert p.jobs[j].key in p.keys;
      match p.jobs[j].key {
        case JobKey(Validate, _) =>
        case JobKey(Publish, _) =>
      }
    }
  }

  lemma NewRowHasNothing(p: Pond, s: Id)
    requires Tables(p) && p.next <= s
    ensures JobKey(Validate, s) !in p.keys && JobKey(Publish, s) !in p.keys && KeysOf(p.outbox, s) == {}
  {
  }

  lemma DraftHasNoJobs(p: Pond, s: Id)
    requires Tables(p) && Locals(p)
    requires if s in p.submissions then p.submissions[s].status == Draft else p.next <= s
    ensures forall j <- p.jobs :: p.jobs[j].key.submission != s
    ensures JobKey(Validate, s) !in p.keys && JobKey(Publish, s) !in p.keys
    ensures KeysOf(p.outbox, s) == {}
  {
    hide Locals, LocalOk, JobsOk, RowsOk, FileRowsOk, RecordsOf, AllPassed, KeysOf;
    if s in p.submissions {
      LocalAt(p, s);
      DraftView(s, ViewOf(p, s));
    } else {
      NewRowHasNothing(p, s);
    }
    NoIndexNoJobs(p, s);
  }

  lemma DraftLocal(p: Pond, q: Pond, s: Id, row: Submission)
    requires Tables(p) && Locals(p) && Drafts(p, q, s, row)
    ensures LocalOk(s, ViewOf(q, s))
  {
    hide Tables, Locals, RecordsOf, AllPassed, KeysOf, Latest, FilesTouched, FileRowsOk;
    DraftHasNoJobs(p, s);
  }

  lemma DraftRows(p: Pond, q: Pond, s: Id, row: Submission)
    requires Tables(p) && Drafts(p, q, s, row)
    ensures RowsTouched(p, q, s) && Quiet(p, q) && TemplatesKept(p.templates, q.templates)
  {
    hide JobOk, SchemaOk, IndexOk, FilesTouched, FileRowsOk;
  }

  lemma DraftJobs(p: Pond, q: Pond, s: Id, row: Submission)
    requires Tables(p) && Drafts(p, q, s, row)
    ensures JobsTouched(p, q, s) && LogsTouched(p, q, s) && IndexOk(q.keys, q.jobs)
            && JobsOk(q.jobs, q.submissions, q.next)
  {
    hide JobOk, SchemaOk, IndexOk, FilesTouched, FileRowsOk;
  }

  lemma DraftTables(p: Pond, q: Pond, s: Id, row: Submission)
    requires Tables(p) && Drafts(p, q, s, row)
    ensures Tables(q) && Touches(p, q, s) && Quiet(p, q) && TemplatesKept(p.templates, q.templates)
  {
    DraftRows(p, q, s, row);
    DraftJobs(p, q, s, row);
    hide JobOk, SchemaOk, IndexOk, JobsOk, FilesTouched, FileRowsOk, RowsTouched, JobsTouched, LogsTouched, Quiet,
      TemplatesKept;
  }

  lemma DraftKeeps(p: Pond, q: Pond, s: Id, row: Submission)
    requires Inv(p) && Drafts(p, q, s, row)
    ensures Inv(q)
  {
    hide LocalOk, TemplatesOk, Tables, Touches, Memories, Locals, LiveTemplates, Reservations, LeasesOk, ViewOf,
      Quiet, TemplatesKept, UniqueNotices, FilesTouched, FileRowsOk, ContentKept, KeysOf;
    DraftHasNoJobs(p, s);
    DraftLocal(p, q, s, row);
    DraftTables(p, q, s, row);
    NotPublished(q, s);
    QuietStep(p, q, s);
  }

  // ----- columns the invariant does not look at -----------------------------------------------

  lemma AsideView(p: Pond, q: Pond, s: Id)
    requires q == p.(users := q.users, objects := q.objects, orphans := q.orphans, intake := q.intake,
                    templates := q.templates, next := q.next)
    requires s in p.submissions
    ensures ViewOf(q, s) == ViewOf(p, s)
  {
    hide RecordsOf, AllPassed, Latest, KeysOf;
  }

  lemma AsideLocals(p: Pond, q: Pond)
    requires Locals(p) && LiveTemplates(p)
    requires q == p.(users := q.users, objects := q.objects, orphans := q.orphans, intake := q.intake,
                    templates := q.templates, next := q.next)
    requires TemplatesKept(p.templates, q.templates)
    ensures Locals(q) && LiveTemplates(q)
  {
    hide LocalOk, TemplatesOk, TemplatesKept, ViewOf;
    forall s <- q.submissions ensures LocalOk(s, ViewOf(q, s)) && TemplatesOk(q.templates, ViewOf(q, s)) {
      AsideView(p, q, s);
      TemplatesMono(p.templates, q.templates, ViewOf(p, s));
    }
  }

  lemma AsideRest(p: Pond, q: Pond)
    requires LeasesOk(p) && Memories(p)
    requires q == p.(users := q.users, objects := q.objects, orphans := q.orphans, intake := q.intake,
                    templates := q.templates, next := q.next)
    ensures LeasesOk(q) && Memories(q)
  {
    forall t <- q.runs
      ensures q.runs[t].job in q.jobs && q.jobs[q.runs[t].job].key.submission in q.submissions && MemoryOk(q, t)
    {
      assert MemoryOk(p, t);
    }
  }

  lemma AsideTables(p: Pond, q: Pond)
    requires Tables(p) && p.next <= q.next && forall t <- q.templates :: t < q.next
    requires q == p.(users := q.users, objects := q.objects, orphans := q.orphans, intake := q.intake,
                    templates := q.templates, next := q.next)
    ensures Tables(q)
  {
    hide JobOk;
  }

  /** Users, stored objects, the intake lock and further templates may change freely. */
  lemma AsideKeeps(p: Pond, q: Pond)
    requires Inv(p) && p.next <= q.next && forall t <- q.templates :: t < q.next
    requires q == p.(users := q.users, objects := q.objects, orphans := q.orphans, intake := q.intake,
                    templates := q.templates, next := q.next)
    requires TemplatesKept(p.templates, q.templates)
    ensures Inv(q)
  {
    hide Tables, Locals, LiveTemplates, Memories, LeasesOk, UniqueNotices, Reservations, TemplatesKept;
    AsideTables(p, q);
    AsideLocals(p, q);
    AsideRest(p, q);
  }

  // ----- the operations -----------------------------------------------------------------------

  lemma CreateDrafts(p: Pond, user: Id, m: Manifest)
    requires Tables(p) && Create(p, user, m).Committed?
    ensures Drafts(p, Create(p, user, m).pond, p.next, NewRow(user, m, None))
  {
    hide SchemaOk, DraftsOf, JobsOk, IndexOk;
  }

  lemma CreateKeeps(p: Pond, user: Id, m: Manifest)
    requires Inv(p) && Create(p, user, m).Committed?
    ensures Inv(Create(p, user, m).pond)
  {
    hide Locals, LiveTemplates, Memories, LeasesOk, UniqueNotices, Reservations, Drafts, Tables, Create;
    CreateDrafts(p, user, m);
    DraftKeeps(p, Create(p, user, m).pond, p.next, NewRow(user, m, None));
  }

  lemma UpdateDrafts(p: Pond, user: Id, s: Id, m: Manifest)
    requires Tables(p) && Locals(p) && UpdateManifest(p, user, s, m).Committed?
    ensures var q := UpdateManifest(p, user, s, m).pond; s in q.submissions && Drafts(p, q, s, q.submissions[s])
  {
    hide SchemaOk, JobsOk, IndexOk, Locals, RowsOk;
    DraftAt(p, s);
  }

  lemma UpdateKeeps(p: Pond, user: Id, s: Id, m: Manifest)
    requires Inv(p) && UpdateManifest(p, user, s, m).Committed?
    ensures Inv(UpdateManifest(p, user, s, m).pond)
  {
    hide LiveTemplates, Memories, LeasesOk, UniqueNotices, Reservations, Drafts, Tables, Locals, UpdateManifest;
    UpdateDrafts(p, user, s, m);
    var q := UpdateManifest(p, user, s, m).pond;
    DraftKeeps(p, q, s, q.submissions[s]);
  }

  /** A draft row carries nothing of a frozen one. */
  lemma DraftAt(p: Pond, s: Id)
    requires Locals(p) && s in p.submissions && p.submissions[s].status == Draft
    ensures DraftRow(p.submissions[s])
  {
    hide RecordsOf, Latest, KeysOf, JournalKept, NoticeFits, SchemaOk;
    assert LocalOk(s, ViewOf(p, s));
  }

  lemma RemoveDrafts(p: Pond, user: Id, s: Id, f: Id)
    requires Tables(p) && Locals(p) && RemoveFile(p, user, s, f).Committed?
    ensures s in p.submissions && Drafts(p, RemoveFile(p, user, s, f).pond, s, p.submissions[s])
  {
    hide SchemaOk, JobsOk, IndexOk, Locals, RowsOk;
    DraftAt(p, s);
    assert p.submissions == p.submissions[s := p.submissions[s]];
  }

  lemma RemoveKeeps(p: Pond, user: Id, s: Id, f: Id)
    requires Inv(p) && RemoveFile(p, user, s, f).Committed?
    ensures Inv(RemoveFile(p, user, s, f).pond)
  {
    hide LiveTemplates, Memories, LeasesOk, UniqueNotices, Reservations, Drafts, Tables, Locals, RemoveFile;
    RemoveDrafts(p, user, s, f);
    DraftKeeps(p, RemoveFile(p, user, s, f).pond, s, p.submissions[s]);
  }

  lemma UploadDrafts(p: Pond)
    requires Tables(p) && Locals(p) && RecordUpload(p).Committed? && RecordUpload(p).value
    ensures p.intake.submission in p.submissions
    ensures Drafts(p, RecordUpload(p).pond, p.intake.submission, p.submissions[p.intake.submission])
  {
    hide SchemaOk, JobsOk, IndexOk, Locals, RowsOk;
    var s := p.intake.submission;
    DraftAt(p, s);
    assert p.submissions == p.submissions[s := p.submissions[s]];
  }

  lemma RecordUploadKeeps(p: Pond)
    requires Inv(p) && RecordUpload(p).Committed?
    ensures Inv(RecordUpload(p).pond)
  {
    hide LiveTemplates, Memories, LeasesOk, UniqueNotices, Reservations, Drafts, Locals, JobsOk, IndexOk, RowsOk;
    var q := RecordUpload(p).pond;
    if RecordUpload(p).value {
      UploadDrafts(p);
      DraftKeeps(p, q, p.intake.submission, p.submissions[p.intake.submission]);
    } else {
      AsideKeeps(p, q);
    }
  }

  lemma CopiesAreNew(p: Pond)
    requires FileRowsOk(p.files, p.submissions, p.next) && p.intake.Revising?
    requires forall c <- p.intake.copies :: c.file in p.files
    ensures CopiedRows(p.files, p.intake.copies, p.next, p.next + 1).Keys !! p.files.Keys
  {
    var rows := CopiedRows(p.files, p.intake.copies, p.next, p.next + 1);
    forall f <- rows ensures f !in p.files {
      assert f >= p.next + 1;
    }
  }

  lemma RevisionFiles(p: Pond, q: Pond)
    requires FileRowsOk(p.files, p.submissions, p.next)
    requires RecordRevision(p).Committed? && RecordRevision(p).value.Some? && q == RecordRevision(p).pond
    ensures FilesTouched(p.files, q.files, p.next) && FileRowsOk(q.files, q.submissions, q.next)
  {
    CopiesAreNew(p);
    hide RecordsOf, SchemaOk;
  }

  lemma RevisionDrafts(p: Pond)
    requires Tables(p) && Locals(p) && RecordRevision(p).Committed? && RecordRevision(p).value.Some?
    ensures var q := RecordRevision(p).pond; p.next in q.submissions && Drafts(p, q, p.next, q.submissions[p.next])
  {
    hide SchemaOk, JobsOk, IndexOk, Locals, FileRowsOk, FilesTouched, CopiedRows;
    FrozenManifest(p, p.intake.source);
    RevisionFiles(p, RecordRevision(p).pond);
  }

  lemma RecordRevisionKeeps(p: Pond)
    requires Inv(p) && RecordRevision(p).Committed?
    ensures Inv(RecordRevision(p).pond)
  {
    hide LiveTemplates, Memories, LeasesOk, UniqueNotices, Reservations, JobsOk, IndexOk, Locals, FileRowsOk, Drafts,
      FilesTouched, CopiedRows;
    var q := RecordRevision(p).pond;
    if RecordRevision(p).value.Some? {
      RevisionDrafts(p);
      DraftKeeps(p, q, p.next, q.submissions[p.next]);
    } else {
      AsideKeeps(p, q);
    }
  }

  lemma FrozenManifest(p: Pond, s: Id)
    requires Locals(p) && s in p.submissions
    ensures SchemaOk(p.submissions[s].manifest)
  {
    hide RecordsOf, Latest, KeysOf, JournalKept, NoticeFits, SchemaOk, Coupled, Evidence, Mirrored;
    assert LocalOk(s, ViewOf(p, s));
  }

  lemma SubmittedLocal(s: Id, v: View, row: Submission, id: Id, job: Job)
    requires LocalOk(s, v) && v.row.status == Draft && v.keys == {} && v.pjob.None?
    requires row == v.row.(digest := Some(ContentDigest(v.row.manifest, v.records)), status := Validating)
    requires job.key == JobKey(Validate, s) && job.status == Queued
    ensures LocalOk(s, WithJob(v, id, job).(row := row, findings := []))
  {
    hide SchemaOk;
  }

  lemma SubmitKeeps(p: Pond, user: Id, s: Id, now: Time)
    requires Inv(p) && Submit(p, user, s, now).Committed?
    ensures Inv(Submit(p, user, s, now).pond)
  {
    hide LiveTemplates, Memories, LeasesOk, UniqueNotices, Reservations, SchemaOk, Tables, Locals, ViewOf, RecordsOf,
      KeysOf, LocalOk;
    var q := Submit(p, user, s, now).pond;
    if q != p {
      LocalAt(p, s);
      DraftHasNoJobs(p, s);
      RecordsInView(p, s);
      SubmittedLocal(s, ViewOf(p, s), q.submissions[s], p.next, q.jobs[p.next]);
      AddView(p, q, s, q.submissions[s], q.jobs[p.next]);
      AddKeeps(p, q, s, q.submissions[s], q.jobs[p.next]);
    }
  }

  lemma RecordsInView(p: Pond, s: Id)
    requires s in p.submissions
    ensures ViewOf(p, s).records == RecordsOf(p.files, s)
    ensures JobKey(Publish, s) !in p.keys ==> ViewOf(p, s).pjob.None?
  {
    hide RecordsOf;
  }
}
