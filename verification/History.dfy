/** What a later state of a run still remembers of an earlier one: logs only grow, frozen
    content stays, finished jobs stay finished, plans keep their identities, and a claim
    that was superseded never commits. */
module History {
  import opened Schema
  import opened Worker
  import opened Publication
  import opened Invariant
  import IntakeKeeps

  // ----- the relation ------------------------------------------------------------------------

  predicate LogsGrow(p: Pond, q: Pond) {
    p.audit <= q.audit && p.outbox <= q.outbox && p.commits <= q.commits
  }

  /** A row that left draft keeps its content for ever, a published row keeps everything. */
  predicate RowLasts(p: Pond, q: Pond, s: Id)
    requires s in p.submissions && s in q.submissions
  {
    p.submissions[s].status != Draft ==>
      && q.submissions[s].status != Draft
      && SnapshotOf(q, s, None) == SnapshotOf(p, s, None)
      && (p.submissions[s].status == Published ==> q.submissions[s] == p.submissions[s])
  }

  ghost predicate RowsLast(p: Pond, q: Pond) {
    && (forall s <- p.submissions :: s in q.submissions && RowLasts(p, q, s))
    && (forall c <- p.challenges :: c in q.challenges && q.challenges[c] == p.challenges[c])
  }

  /** Role, node, VM number and operation of every entry are the same. */
  ghost predicate SamePlan(a: seq<Plan>, b: seq<Plan>) {
    |a| == |b| && forall i :: 0 <= i < |a| ==> ProposalOf(a[i]) == ProposalOf(b[i]) && a[i].operation == b[i].operation
  }

  predicate Terminal(job: Job) {
    if job.key.action == Validate then job.status in {Succeeded, Failed} else job.status == Succeeded
  }

  ghost predicate JobLasts(a: Job, b: Job) {
    && b.key == a.key && a.attempts <= b.attempts
    && (Terminal(a) ==> b == a)
    && (a.journal != [] ==> SamePlan(a.journal, b.journal))
  }

  ghost predicate JobsLast(p: Pond, q: Pond) {
    forall j <- p.jobs :: j in q.jobs && JobLasts(p.jobs[j], q.jobs[j])
  }

  /** Claims stay as issued, nobody regains a lost claim, and what commits was held. */
  ghost predicate ClaimsLast(p: Pond, q: Pond) {
    && (forall t <- p.runs :: t in q.runs && q.runs[t].job == p.runs[t].job && q.runs[t].attempt == p.runs[t].attempt
                              && (Holds(q, t) ==> Holds(p, t)))
    && |p.commits| <= |q.commits|
    && (forall i :: |p.commits| <= i < |q.commits| ==> q.commits[i] in p.runs ==> Holds(p, q.commits[i]))
  }

  ghost predicate Lasts(p: Pond, q: Pond) {
    LogsGrow(p, q) && RowsLast(p, q) && JobsLast(p, q) && ClaimsLast(p, q)
  }

  // ----- it is a preorder --------------------------------------------------------------------

  lemma LastsReflexive(p: Pond)
    ensures Lasts(p, p)
  {
  }

  lemma RowsTransitive(a: Pond, b: Pond, c: Pond)
    requires RowsLast(a, b) && RowsLast(b, c)
    ensures RowsLast(a, c)
  {
    hide RecordsOf;
    forall s <- a.submissions ensures s in c.submissions && RowLasts(a, c, s) {
      assert RowLasts(a, b, s) && RowLasts(b, c, s);
    }
  }

  lemma JobsTransitive(a: Pond, b: Pond, c: Pond)
    requires JobsLast(a, b) && JobsLast(b, c)
    ensures JobsLast(a, c)
  {
    forall j <- a.jobs ensures j in c.jobs && JobLasts(a.jobs[j], c.jobs[j]) {
      assert JobLasts(a.jobs[j], b.jobs[j]) && JobLasts(b.jobs[j], c.jobs[j]);
      if a.jobs[j].journal != [] {
        assert |b.jobs[j].journal| != 0;
      }
    }
  }

  lemma ClaimsTransitive(a: Pond, b: Pond, c: Pond)
    requires ClaimsLast(a, b) && ClaimsLast(b, c) && b.commits <= c.commits
    ensures ClaimsLast(a, c)
  {
    hide Holds;
    forall i | |a.commits| <= i < |c.commits| ensures c.commits[i] in a.runs ==> Holds(a, c.commits[i]) {
      if i < |b.commits| {
        assert c.commits[i] == b.commits[i];
      }
    }
  }

  lemma LastsTransitive(a: Pond, b: Pond, c: Pond)
    requires Lasts(a, b) && Lasts(b, c)
    ensures Lasts(a, c)
  {
    hide RowsLast, JobsLast, ClaimsLast;
    RowsTransitive(a, b, c);
    JobsTransitive(a, b, c);
    ClaimsTransitive(a, b, c);
  }

  // ----- shapes of steps -----------------------------------------------------------------------

  /** One frozen row and one job are written; the holder of the job may commit. */
  ghost predicate Edits(p: Pond, q: Pond, s: Id, id: Id) {
    && s in p.submissions && s in q.submissions && id in p.jobs && id in q.jobs
    && q.submissions == p.submissions[s := q.submissions[s]] && q.jobs == p.jobs[id := q.jobs[id]]
    && (forall t <- p.runs :: t in q.runs && q.runs[t].job == p.runs[t].job && q.runs[t].attempt == p.runs[t].attempt)
    && q.files.Keys == p.files.Keys
    && (forall f <- p.files ::
          q.files[f].submission == p.files[f].submission && EntryOf(q.files[f]) == EntryOf(p.files[f]))
    && (forall c <- p.challenges :: c in q.challenges && q.challenges[c] == p.challenges[c])
    && p.audit <= q.audit && p.outbox <= q.outbox
    && JobLasts(p.jobs[id], q.jobs[id])
    && RowEdited(p.submissions[s], q.submissions[s])
    && (q.jobs[id].lease.Some? ==>
          q.jobs[id].lease.value.token !in p.runs
          || (p.jobs[id].lease.Some? && q.jobs[id].lease.value.token == p.jobs[id].lease.value.token))
    && (q.commits == p.commits
        || (p.jobs[id].lease.Some? && p.jobs[id].lease.value.token in p.runs
            && p.runs[p.jobs[id].lease.value.token].job == id
            && q.commits == p.commits + [p.jobs[id].lease.value.token]))
  }

  predicate RowEdited(a: Submission, b: Submission) {
    || b == a
    || (a.status !in {Draft, Published} && b.status != Draft
        && b.digest == a.digest && b.challengeType == a.challengeType && b.schemaVersion == a.schemaVersion
        && b.owner == a.owner && b.manifest == a.manifest)
  }

  lemma SameRecords(p: map<Id, File>, q: map<Id, File>, r: Id)
    requires q.Keys == p.Keys && forall f <- p :: q[f].submission == p[f].submission && EntryOf(q[f]) == EntryOf(p[f])
    ensures RecordsOf(q, r) == RecordsOf(p, r)
  {
  }

  lemma EditRows(p: Pond, q: Pond, s: Id, id: Id)
    requires Edits(p, q, s, id)
    ensures RowsLast(p, q)
  {
    hide JobLasts;
    forall r <- p.submissions ensures r in q.submissions && RowLasts(p, q, r) {
      SameRecords(p.files, q.files, r);
    }
  }

  lemma EditClaims(p: Pond, q: Pond, s: Id, id: Id)
    requires Edits(p, q, s, id)
    ensures ClaimsLast(p, q)
  {
    hide JobLasts, RowEdited;
  }

  lemma EditJobs(p: Pond, q: Pond, s: Id, id: Id)
    requires Edits(p, q, s, id)
    ensures JobsLast(p, q)
  {
    hide RowEdited, SamePlan;
    forall j <- p.jobs ensures j in q.jobs && JobLasts(p.jobs[j], q.jobs[j]) {
      if j != id {
        SamePlanSelf(p.jobs[j].journal);
      }
    }
  }

  lemma SamePlanSelf(a: seq<Plan>)
    ensures SamePlan(a, a)
  {
  }

  lemma EditLasts(p: Pond, q: Pond, s: Id, id: Id)
    requires Edits(p, q, s, id)
    ensures Lasts(p, q)
  {
    hide RowsLast, JobsLast, ClaimsLast, JobLasts, RowEdited;
    EditRows(p, q, s, id);
    EditJobs(p, q, s, id);
    EditClaims(p, q, s, id);
  }

  /** A draft and its files are written. */
  lemma DraftRows(p: Pond, q: Pond, s: Id, row: Submission)
    requires IntakeKeeps.Drafts(p, q, s, row) && forall r <- p.submissions :: r < p.next
    ensures RowsLast(p, q)
  {
    hide IntakeKeeps.DraftRow, FileRowsOk;
    forall r <- p.submissions ensures r in q.submissions && RowLasts(p, q, r) {
      if r != s {
        FilesFrame(p.files, q.files, s, r);
      }
    }
  }

  lemma SameJobsLast(p: Pond, q: Pond)
    requires q.jobs == p.jobs && q.runs == p.runs && q.commits == p.commits
    ensures JobsLast(p, q) && ClaimsLast(p, q)
  {
    forall j <- p.jobs ensures JobLasts(p.jobs[j], q.jobs[j]) {
      SamePlanSelf(p.jobs[j].journal);
    }
  }

  lemma DraftLasts(p: Pond, q: Pond, s: Id, row: Submission)
    requires IntakeKeeps.Drafts(p, q, s, row) && forall r <- p.submissions :: r < p.next
    ensures Lasts(p, q)
  {
    hide IntakeKeeps.DraftRow, FileRowsOk, FilesTouched, RowsLast, JobsLast, ClaimsLast;
    DraftRows(p, q, s, row);
    SameJobsLast(p, q);
  }

  /** Nothing that lasts is written. */
  lemma AsideLasts(p: Pond, q: Pond)
    requires q == p.(users := q.users, objects := q.objects, orphans := q.orphans, intake := q.intake,
                    templates := q.templates, next := q.next)
    ensures Lasts(p, q)
  {
    hide JobsLast, ClaimsLast;
    SameJobsLast(p, q);
  }

  /** A new job, and its row leaves draft or goes on. */
  ghost predicate Starts(p: Pond, q: Pond, s: Id) {
    && s in p.submissions && s in q.submissions && q.submissions == p.submissions[s := q.submissions[s]]
    && (p.submissions[s].status == Draft || RowEdited(p.submissions[s], q.submissions[s]))
    && p.next !in p.jobs && p.next in q.jobs && q.jobs == p.jobs[p.next := q.jobs[p.next]]
    && q.runs == p.runs && q.files == p.files && q.challenges == p.challenges && q.commits == p.commits
    && p.audit <= q.audit && p.outbox <= q.outbox
    && forall t <- p.runs :: p.runs[t].job in p.jobs
  }

  lemma StartLasts(p: Pond, q: Pond, s: Id)
    requires Starts(p, q, s)
    ensures Lasts(p, q)
  {
    hide RecordsOf;
    forall j <- p.jobs ensures j in q.jobs && JobLasts(p.jobs[j], q.jobs[j]) {
      SamePlanSelf(p.jobs[j].journal);
    }
  }
}
