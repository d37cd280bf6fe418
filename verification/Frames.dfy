/** How the parts of the invariant survive a step that leaves most of them alone. */
module Frames {
  import opened Schema
  import opened Worker
  import opened Publication
  import opened Invariant

  // ----- tables ---------------------------------------------------------------------------

  /** Rewriting one job and one submission, with at most one notice about it more. */
  ghost predicate Rewrites(p: Pond, q: Pond, s: Id, id: Id, row: Submission, job: Job) {
    && s in p.submissions && id in p.jobs
    && q.submissions == p.submissions[s := row]
    && q.jobs == p.jobs[id := job]
    && q.keys == p.keys && q.challenges == p.challenges && q.templates == p.templates && q.next == p.next
    && (forall i <- q.issues :: i == id || i in p.issues)
    && Extends(p.outbox, q.outbox) && (q.outbox != p.outbox ==> q.outbox[|p.outbox|].submission == s)
  }

  lemma RewriteJobs(p: Pond, q: Pond, s: Id, id: Id, row: Submission, job: Job)
    requires Tables(p) && Rewrites(p, q, s, id, row, job)
    requires job.key == p.jobs[id].key && JobOk(job)
    ensures IndexOk(q.keys, q.jobs) && JobsOk(q.jobs, q.submissions, q.next)
  {
    hide JobOk;
  }

  lemma RewriteTables(p: Pond, q: Pond, s: Id, id: Id, row: Submission, job: Job)
    requires Tables(p) && Rewrites(p, q, s, id, row, job)
    requires job.key == p.jobs[id].key && JobOk(job)
    requires row.challenge.Some? ==> row.challenge.value in p.challenges
    requires FileRowsOk(q.files, p.submissions, p.next)
    ensures Tables(q)
  {
    hide JobOk, IndexOk, JobsOk;
    RewriteJobs(p, q, s, id, row, job);
    if q.outbox != p.outbox {
      assert q.outbox == p.outbox + [q.outbox[|p.outbox|]];
    }
  }

  lemma RowsRewritten(p: Pond, q: Pond, s: Id, id: Id, row: Submission, job: Job)
    requires Rewrites(p, q, s, id, row, job)
    ensures RowsTouched(p, q, s)
  {
  }

  lemma JobsRewritten(p: Pond, q: Pond, s: Id, id: Id, row: Submission, job: Job)
    requires Rewrites(p, q, s, id, row, job) && job.key == p.jobs[id].key && job.key.submission == s
    requires forall j <- p.jobs :: j != id ==>
             (j in p.issues <==> j in q.issues) && (j in p.issues ==> q.issues[j] == p.issues[j])
    ensures JobsTouched(p, q, s)
  {
  }

  lemma LogsRewritten(p: Pond, q: Pond, s: Id, id: Id, row: Submission, job: Job)
    requires Rewrites(p, q, s, id, row, job)
    requires Extends(p.audit, q.audit) && (q.audit != p.audit ==> q.audit[|p.audit|].target == s)
    ensures LogsTouched(p, q, s)
  {
    hide Extends;
  }

  lemma RewriteTouches(p: Pond, q: Pond, s: Id, id: Id, row: Submission, job: Job)
    requires Tables(p) && Rewrites(p, q, s, id, row, job)
    requires job.key == p.jobs[id].key && job.key.submission == s
    requires FilesTouched(p.files, q.files, s)
    requires forall j <- p.jobs :: j != id ==>
             (j in p.issues <==> j in q.issues) && (j in p.issues ==> q.issues[j] == p.issues[j])
    requires Extends(p.audit, q.audit) && (q.audit != p.audit ==> q.audit[|p.audit|].target == s)
    ensures Touches(p, q, s)
  {
    hide Tables, Rewrites, RowsTouched, JobsTouched, FilesTouched, LogsTouched, Extends;
    RowsRewritten(p, q, s, id, row, job);
    JobsRewritten(p, q, s, id, row, job);
    LogsRewritten(p, q, s, id, row, job);
  }

  // ----- notices --------------------------------------------------------------------------

  /** The submission that an occurrence of this key must concern. */
  predicate About(p: Pond, k: NoticeKey, s: Id) {
    match k
    case ValidationTerminal(j, _) => j in p.jobs && p.jobs[j].key.submission == s
    case ReviewDecided(t, _, _) => t == s
    case PublishFailed(j, _) => j in p.jobs && p.jobs[j].key.submission == s
    case ReturnedForCorrection(t) => t == s
    case PublishedNotice(t) => t == s
  }

  lemma KeysAreAbout(p: Pond, s: Id, k: NoticeKey)
    requires Tables(p) && s in p.submissions && LocalOk(s, ViewOf(p, s)) && k in KeysOf(p.outbox, s)
    ensures About(p, k, s)
  {
    assert NoticeFits(s, ViewOf(p, s), k);
  }

  /** A key that `s` has not used is used nowhere. */
  lemma FreshKey(p: Pond, s: Id, k: NoticeKey)
    requires Tables(p) && Locals(p)
    requires About(p, k, s) && k !in KeysOf(p.outbox, s)
    ensures !HasKey(p.outbox, k)
  {
    if HasKey(p.outbox, k) {
      var n :| n in p.outbox && n.key == k;
      KeysAreAbout(p, n.submission, k);
    }
  }

  lemma UniqueAppend(outbox: seq<Notice>, n: Notice)
    requires UniqueNotices(outbox) && !HasKey(outbox, n.key)
    ensures UniqueNotices(outbox + [n])
  {
  }

  // ----- reservations ------------------------------------------------------------------------

  lemma ReservationsFrame(p: map<Id, Job>, q: map<Id, Job>)
    requires Reservations(p)
    requires forall j <- q :: if j in p then q[j].journal == p[j].journal else q[j].journal == []
    ensures Reservations(q)
  {
    assert forall j <- q :: VmidsDistinct(q[j].journal);
  }

  // ----- leases ---------------------------------------------------------------------------------

  /** No claim was issued; leases were kept, renewed or dropped. */
  ghost predicate ClaimsKept(p: Pond, q: Pond) {
    && q.runs == p.runs
    && (forall j <- p.jobs :: j in q.jobs && q.jobs[j].attempts == p.jobs[j].attempts && q.jobs[j].key == p.jobs[j].key
          && (q.jobs[j].lease.Some? ==>
              p.jobs[j].lease.Some? && q.jobs[j].lease.value.token == p.jobs[j].lease.value.token))
    && (forall j <- q.jobs :: j !in p.jobs ==> q.jobs[j].attempts == 0 && q.jobs[j].lease.None?)
  }

  lemma CountsKept(p: map<Id, Job>, q: map<Id, Job>, runs: map<Token, Run>)
    requires CountsOk(p, runs)
    requires forall j <- p :: j in q && q[j].attempts == p[j].attempts
    requires forall j <- q :: j !in p ==> q[j].attempts == 0
    ensures CountsOk(q, runs)
  {
    forall j <- q ensures |Issued(runs, j)| == q[j].attempts {
      if j !in p {
        assert Issued(runs, j) == {};
      }
    }
  }

  lemma LeasesKept(p: Pond, q: Pond)
    requires LeasesOk(p) && ClaimsKept(p, q) && q.commits == p.commits
    ensures LeasesOk(q)
  {
    CountsKept(p.jobs, q.jobs, p.runs);
  }

  lemma IssuedAfter(runs: map<Token, Run>, token: Token, run: Run, j: Id)
    requires token !in runs
    ensures |Issued(runs[token := run], j)| == |Issued(runs, j)| + if run.job == j then 1 else 0
  {
    var before, after := Issued(runs, j), Issued(runs[token := run], j);
    if run.job == j {
      assert after == before + {token};
    } else {
      assert after == before;
    }
  }

  lemma CountsIssued(p: map<Id, Job>, q: map<Id, Job>, runs: map<Token, Run>, id: Id, token: Token, run: Run)
    requires CountsOk(p, runs) && id in p && q.Keys == p.Keys && token !in runs && run.job == id
    requires forall j <- p :: q[j].attempts == p[j].attempts + if j == id then 1 else 0
    ensures CountsOk(q, runs[token := run])
  {
    var after := runs[token := run];
    forall j <- q ensures |Issued(after, j)| == q[j].attempts {
      IssuedAfter(runs, token, run, j);
    }
  }

  /** One claim was issued: job `id` has one attempt and one token more. */
  lemma LeasesIssued(p: Pond, q: Pond, id: Id, job: Job, token: Token, run: Run)
    requires LeasesOk(p) && id in p.jobs && token !in p.runs
    requires q.jobs == p.jobs[id := job] && q.runs == p.runs[token := run] && q.commits == p.commits
    requires job.lease.Some? && job.lease.value.token == token && job.attempts == p.jobs[id].attempts + 1
    requires run.job == id && run.attempt == job.attempts
    ensures LeasesOk(q)
  {
    CountsIssued(p.jobs, q.jobs, p.runs, id, token, run);
    assert HoldersOk(q);
  }

  // ----- memories -----------------------------------------------------------------------------------

  /** The content of `s` is what it was; its approval is the same, withdrawn, or new
      before any publication began. */
  predicate ContentKept(p: Pond, q: Pond, s: Id) {
    && s in p.submissions && s in q.submissions
    && SnapshotOf(q, s, None) == SnapshotOf(p, s, None)
    && (q.submissions[s].approval.None? || q.submissions[s].approval == p.submissions[s].approval
        || JobFor(p, Publish, s).None?)
  }

  /** The rows of another submission than `s`, as a claim of it sees them. */
  lemma RowsElsewhere(p: Pond, q: Pond, s: Id, id: Id)
    requires Tables(p) && Touches(p, q, s) && id in p.jobs && p.jobs[id].key.submission != s
    ensures var r := p.jobs[id].key.submission;
            && id in q.jobs && q.jobs[id] == p.jobs[id] && r in p.submissions && r in q.submissions
            && q.submissions[r] == p.submissions[r] && SnapshotOf(q, r, None) == SnapshotOf(p, r, None)
  {
    FilesFrame(p.files, q.files, s, p.jobs[id].key.submission);
    hide RecordsOf, IndexOk, JobOk;
  }

  lemma MemoryHere(p: Pond, q: Pond, s: Id, t: Token)
    requires t in p.runs && t in q.runs && q.runs[t] == p.runs[t] && p.runs[t].job in p.jobs
    requires p.jobs[p.runs[t].job].key.submission == s && ContentKept(p, q, s) && JobsTouched(p, q, s)
    requires IndexOk(p.keys, p.jobs) && MemoryOk(p, t)
    requires Holds(q, t) ==> Holds(p, t) && q.jobs[p.runs[t].job].journal == p.jobs[p.runs[t].job].journal
    ensures MemoryOk(q, t)
  {
    hide Holds, RecordsOf;
  }

  lemma MemoryFrame(p: Pond, q: Pond, s: Id, t: Token)
    requires Tables(p) && Touches(p, q, s) && LeasesOk(p)
    requires t in p.runs && t in q.runs && q.runs[t] == p.runs[t] && MemoryOk(p, t)
    requires p.jobs[p.runs[t].job].key.submission == s ==> ContentKept(p, q, s)
    requires Holds(q, t) ==> Holds(p, t) && q.jobs[p.runs[t].job].journal == p.jobs[p.runs[t].job].journal
    ensures q.jobs[q.runs[t].job].key.submission in q.submissions && MemoryOk(q, t)
  {
    hide SnapshotOf, JobOk, Holds;
    if p.jobs[p.runs[t].job].key.submission != s {
      RowsElsewhere(p, q, s, p.runs[t].job);
    } else {
      MemoryHere(p, q, s, t);
    }
  }

  lemma MemoriesKept(p: Pond, q: Pond, s: Id)
    requires Tables(p) && Touches(p, q, s) && LeasesOk(p) && ClaimsKept(p, q) && Memories(p)
    requires ContentKept(p, q, s) || forall j <- p.jobs :: p.jobs[j].key.submission != s
    requires forall j <- p.jobs :: q.jobs[j].journal == p.jobs[j].journal
    ensures Memories(q)
  {
    forall t <- q.runs
      ensures q.runs[t].job in q.jobs && q.jobs[q.runs[t].job].key.submission in q.submissions && MemoryOk(q, t)
    {
      MemoryFrame(p, q, s, t);
    }
  }

  // ----- templates --------------------------------------------------------------------------------------

  ghost predicate TemplatesKept(p: map<Id, Template>, q: map<Id, Template>) {
    forall t <- p :: t in q && q[t].(active := true) == p[t].(active := true)
  }

  lemma TemplatesMono(p: map<Id, Template>, q: map<Id, Template>, v: View)
    requires TemplatesKept(p, q) && TemplatesOk(p, v)
    ensures TemplatesOk(q, v)
  {
  }

  lemma TemplatesFrame(p: Pond, q: Pond, s: Id)
    requires Tables(p) && Touches(p, q, s) && TemplatesKept(p.templates, q.templates) && LiveTemplates(p)
    requires s in q.submissions ==> TemplatesOk(q.templates, ViewOf(q, s))
    ensures LiveTemplates(q)
  {
    forall r <- q.submissions ensures TemplatesOk(q.templates, ViewOf(q, r)) {
      if r != s {
        ViewFrame(p, q, s, r);
        TemplatesMono(p.templates, q.templates, ViewOf(p, r));
      }
    }
  }

  // ----- all together -------------------------------------------------------------------------------------

  /** Leases are kept, renewed or dropped, and journals stay. */
  ghost predicate Quiet(p: Pond, q: Pond) {
    && ClaimsKept(p, q) && q.commits == p.commits
    && (forall j <- p.jobs :: q.jobs[j].journal == p.jobs[j].journal)
    && (forall j <- q.jobs :: j !in p.jobs ==> q.jobs[j].journal == [])
  }

  /** A quiet step about `s` keeps the invariant when it keeps the tables, the notices and
      the view of `s` in order. */
  lemma QuietStep(p: Pond, q: Pond, s: Id)
    requires Inv(p) && Tables(q) && Touches(p, q, s) && Quiet(p, q) && UniqueNotices(q.outbox)
    requires s in q.submissions ==> LocalOk(s, ViewOf(q, s)) && TemplatesOk(q.templates, ViewOf(q, s))
    requires TemplatesKept(p.templates, q.templates)
    requires ContentKept(p, q, s) || forall j <- p.jobs :: p.jobs[j].key.submission != s
    ensures Inv(q)
  {
    LocalsFrame(p, q, s);
    TemplatesFrame(p, q, s);
    ReservationsFrame(p.jobs, q.jobs);
    LeasesKept(p, q);
    MemoriesKept(p, q, s);
  }

  // ----- commits -----------------------------------------------------------------------------------------

  predicate Unleased(p: Pond, t: Token) {
    forall j <- p.jobs :: p.jobs[j].lease.Some? ==> p.jobs[j].lease.value.token != t
  }

  lemma ViewIgnoresClaims(p: Pond, q: Pond, s: Id)
    requires q == p.(runs := q.runs, commits := q.commits) && s in p.submissions
    ensures ViewOf(q, s) == ViewOf(p, s)
  {
    hide RecordsOf, AllPassed, Latest, KeysOf;
  }

  /** Views do not depend on claims. */
  lemma LocalsIgnoreClaims(p: Pond, q: Pond)
    requires Locals(p) && LiveTemplates(p) && q == p.(runs := q.runs, commits := q.commits)
    ensures Locals(q) && LiveTemplates(q)
  {
    hide LocalOk, TemplatesOk, ViewOf;
    forall s <- q.submissions ensures LocalOk(s, ViewOf(q, s)) && TemplatesOk(q.templates, ViewOf(q, s)) {
      ViewIgnoresClaims(p, q, s);
    }
  }

  lemma TablesIgnoreCommits(p: Pond, q: Pond)
    requires Tables(p) && q == p.(commits := q.commits)
    ensures Tables(q)
  {
  }

  lemma MemoriesIgnoreCommits(p: Pond, q: Pond)
    requires Memories(p) && q == p.(commits := q.commits)
    ensures Memories(q)
  {
    forall t <- q.runs
      ensures q.runs[t].job in q.jobs && q.jobs[q.runs[t].job].key.submission in q.submissions && MemoryOk(q, t)
    {
      assert MemoryOk(p, t);
    }
  }

  /** A token that nobody holds any more may be entered as committed, once. */
  lemma CommitKeeps(p: Pond, t: Token)
    requires Inv(p) && t in p.runs && t !in p.commits && Unleased(p, t)
    ensures Inv(p.(commits := p.commits + [t]))
  {
    hide Locals, LiveTemplates, Memories, Tables, Reservations;
    var q := p.(commits := p.commits + [t]);
    TablesIgnoreCommits(p, q);
    LocalsIgnoreClaims(p, q);
    MemoriesIgnoreCommits(p, q);
    assert LeasesOk(q);
  }

  /** The holder of a job that has just been released may commit. */
  lemma ReleasedIsFree(p: Pond, q: Pond, id: Id)
    requires HoldersOk(p) && id in p.jobs && p.jobs[id].lease.Some?
    requires q.jobs.Keys == p.jobs.Keys && q.jobs[id].lease.None? && q.runs == p.runs && q.commits == p.commits
    requires forall j <- p.jobs :: j != id ==> q.jobs[j].lease == p.jobs[j].lease
    ensures var t := p.jobs[id].lease.value.token; t in q.runs && t !in q.commits && Unleased(q, t)
  {
  }

  // ----- one job rewritten -----------------------------------------------------------------------------------

  function WithJob(v: View, id: Id, job: Job): View {
    if job.key.action == Validate then v.(vjob := Some(Placed(id, job))) else v.(pjob := Some(Placed(id, job)))
  }

  /** The rows that job `id` and its submission are found at. */
  lemma JobPlace(p: Pond, id: Id)
    requires Tables(p) && id in p.jobs
    ensures var k := p.jobs[id].key;
            && k.submission in p.submissions && k in p.keys && p.keys[k] == id
            && PlacedJob(p, k.action, k.submission) == Some(Placed(id, p.jobs[id]))
  {
  }

  /** The view of `s` that job `id` leads to. */
  lemma PlaceView(p: Pond, s: Id, id: Id)
    requires Tables(p) && Locals(p) && id in p.jobs && p.jobs[id].key.submission == s
    ensures s in p.submissions && LocalOk(s, ViewOf(p, s)) && JobOk(p.jobs[id])
    ensures p.jobs[id].key.action == Validate ==> ViewOf(p, s).vjob == Some(Placed(id, p.jobs[id]))
    ensures p.jobs[id].key.action == Publish ==> ViewOf(p, s).pjob == Some(Placed(id, p.jobs[id]))
    ensures ViewOf(p, s).row == p.submissions[s]
  {
    JobPlace(p, id);
    hide LocalOk;
  }

  lemma LocalAt(p: Pond, s: Id)
    requires Locals(p) && s in p.submissions
    ensures LocalOk(s, ViewOf(p, s))
    ensures ViewOf(p, s).row == p.submissions[s] && ViewOf(p, s).keys == KeysOf(p.outbox, s)
    ensures ViewOf(p, s).validation.Some? ==> ViewOf(p, s).validation.value.index < |p.audit|
    ensures forall t :: ViewOf(p, s).row.status != Published ==> TemplatesOk(t, ViewOf(p, s))
    ensures IndexOk(p.keys, p.jobs) && JobFor(p, Validate, s).Some? ==>
              ViewOf(p, s).vjob == Some(Placed(JobFor(p, Validate, s).value, p.jobs[JobFor(p, Validate, s).value]))
    ensures IndexOk(p.keys, p.jobs) && ViewOf(p, s).pjob.None? ==> JobFor(p, Publish, s).None?
  {
    hide LocalOk, RecordsOf, AllPassed;
  }

  lemma NotPublished(q: Pond, s: Id)
    requires s in q.submissions && q.submissions[s].status != Published
    ensures TemplatesOk(q.templates, ViewOf(q, s))
  {
    hide RecordsOf, AllPassed, KeysOf;
  }

  /** Looking a job up after job `id` was rewritten finds it, or what was found before. */
  lemma SwapPlaced(p: Pond, q: Pond, s: Id, id: Id, job: Job, action: Action)
    requires IndexOk(p.keys, p.jobs) && id in p.jobs && p.jobs[id].key.submission == s && job.key == p.jobs[id].key
    requires q.jobs == p.jobs[id := job] && q.keys == p.keys
    ensures PlacedJob(q, action, s) == if action == job.key.action then Some(Placed(id, job))
            else PlacedJob(p, action, s)
    ensures JobFor(q, action, s) == JobFor(p, action, s)
  {
    assert p.keys[job.key] == id;
    if action == job.key.action {
      assert job.key == JobKey(action, s);
    } else if JobKey(action, s) in p.keys {
      assert p.jobs[p.keys[JobKey(action, s)]].key == JobKey(action, s);
    }
  }

  lemma SwapView(p: Pond, q: Pond, s: Id, id: Id, job: Job)
    requires Tables(p) && id in p.jobs && p.jobs[id].key.submission == s && job.key == p.jobs[id].key
    requires q == p.(jobs := p.jobs[id := job], runs := q.runs) && s in p.submissions
    ensures ViewOf(q, s) == WithJob(ViewOf(p, s), id, job)
  {
    SwapPlaced(p, q, s, id, job, Validate);
    SwapPlaced(p, q, s, id, job, Publish);
    hide Tables, PlacedJob, JobFor, RecordsOf, AllPassed, Latest, KeysOf;
  }

  // ----- claims --------------------------------------------------------------------------------------------

  /** Job `id` of `s` was handed out under the fresh token. */
  ghost predicate HandsOut(p: Pond, q: Pond, s: Id, id: Id, job: Job, token: Token) {
    && id in p.jobs && token !in p.runs && p.jobs[id].key.submission == s
    && job.key == p.jobs[id].key && job.journal == p.jobs[id].journal
    && job.lease.Some? && job.lease.value.token == token && job.attempts == p.jobs[id].attempts + 1
    && q == p.(jobs := p.jobs[id := job], runs := p.runs[token := Run(id, job.attempts, Claimed, None)])
  }

  lemma HandOutMemory(p: Pond, q: Pond, s: Id, id: Id, job: Job, token: Token, t: Token)
    requires HandsOut(p, q, s, id, job, token) && t in p.runs
    requires p.runs[t].job in p.jobs && p.jobs[p.runs[t].job].key.submission in p.submissions && MemoryOk(p, t)
    ensures q.runs[t] == p.runs[t] && q.runs[t].job in q.jobs && q.jobs[q.runs[t].job].key.submission in q.submissions
    ensures MemoryOk(q, t)
  {
    hide RecordsOf;
    assert Holds(q, t) ==> Holds(p, t);
  }

  lemma HandOutMemories(p: Pond, q: Pond, s: Id, id: Id, job: Job, token: Token)
    requires Tables(p) && Memories(p) && HandsOut(p, q, s, id, job, token) && LeasesOk(p)
    ensures Memories(q)
  {
    hide MemoryOk, LeasesOk;
    forall t <- q.runs
      ensures q.runs[t].job in q.jobs && q.jobs[q.runs[t].job].key.submission in q.submissions && MemoryOk(q, t)
    {
      if t != token {
        HandOutMemory(p, q, s, id, job, token, t);
      } else {
        FreshMemory(p, q, s, id, job, token);
      }
    }
  }

  lemma FreshMemory(p: Pond, q: Pond, s: Id, id: Id, job: Job, token: Token)
    requires Tables(p) && HandsOut(p, q, s, id, job, token)
    ensures q.runs[token].job in q.jobs && q.jobs[id].key.submission in q.submissions && MemoryOk(q, token)
  {
    hide RecordsOf, JobOk, IndexOk;
  }

  lemma HandOutTables(p: Pond, q: Pond, s: Id, id: Id, job: Job, token: Token)
    requires Tables(p) && HandsOut(p, q, s, id, job, token) && JobOk(job)
    ensures s in p.submissions && Tables(q) && Touches(p, q, s)
  {
    RewriteTables(p, q, s, id, p.submissions[s], job);
    RewriteTouches(p, q, s, id, p.submissions[s], job);
  }

  lemma HandOutKeeps(p: Pond, q: Pond, s: Id, id: Id, job: Job, token: Token)
    requires Inv(p) && HandsOut(p, q, s, id, job, token) && JobOk(job)
    requires s in q.submissions ==> LocalOk(s, ViewOf(q, s)) && TemplatesOk(q.templates, ViewOf(q, s))
    ensures Inv(q)
  {
    hide LocalOk, TemplatesOk, Tables, Touches, Memories, JobOk, Locals, LiveTemplates, LeasesOk, Reservations,
      UniqueNotices;
    HandOutTables(p, q, s, id, job, token);
    LocalsFrame(p, q, s);
    TemplatesFrame(p, q, s);
    ReservationsFrame(p.jobs, q.jobs);
    LeasesIssued(p, q, id, job, token, q.runs[token]);
    HandOutMemories(p, q, s, id, job, token);
  }

  // ----- what a worker remembers ------------------------------------------------------------------------------

  lemma LeasesIgnoreMemory(p: Pond, q: Pond, t: Token, run: Run)
    requires LeasesOk(p) && t in p.runs && run.job == p.runs[t].job && run.attempt == p.runs[t].attempt
    requires q == p.(runs := p.runs[t := run])
    ensures LeasesOk(q)
  {
    forall j <- q.jobs ensures |Issued(q.runs, j)| == q.jobs[j].attempts {
      assert Issued(q.runs, j) == Issued(p.runs, j);
    }
  }

  lemma MemoryIgnoresOthers(p: Pond, q: Pond, u: Token)
    requires u in p.runs && p.runs[u].job in p.jobs && p.jobs[p.runs[u].job].key.submission in p.submissions
    requires MemoryOk(p, u) && u in q.runs && q.runs[u] == p.runs[u] && q == p.(runs := q.runs)
    ensures MemoryOk(q, u)
  {
  }

  lemma RememberMemories(p: Pond, q: Pond, t: Token)
    requires Memories(p) && t in p.runs && t in q.runs && q == p.(runs := p.runs[t := q.runs[t]])
    requires q.runs[t].job in q.jobs && q.jobs[q.runs[t].job].key.submission in q.submissions && MemoryOk(q, t)
    ensures Memories(q)
  {
    hide MemoryOk;
    forall u <- q.runs
      ensures q.runs[u].job in q.jobs && q.jobs[q.runs[u].job].key.submission in q.submissions && MemoryOk(q, u)
    {
      if u != t {
        MemoryIgnoresOthers(p, q, u);
      }
    }
  }

  lemma TablesIgnoreRuns(p: Pond, q: Pond)
    requires Tables(p) && q == p.(runs := q.runs)
    ensures Tables(q)
  {
  }

  /** A worker may remember what the tables say. */
  lemma RememberKeeps(p: Pond, q: Pond, t: Token, run: Run)
    requires Inv(p) && t in p.runs && run.job == p.runs[t].job && run.attempt == p.runs[t].attempt
    requires q == p.(runs := p.runs[t := run])
    requires run.job in q.jobs && q.jobs[run.job].key.submission in q.submissions && MemoryOk(q, t)
    ensures Inv(q)
  {
    hide MemoryOk, Memories, Tables, Locals, LiveTemplates, LeasesOk, Reservations, UniqueNotices;
    TablesIgnoreRuns(p, q);
    LocalsIgnoreClaims(p, q);
    LeasesIgnoreMemory(p, q, t, run);
    RememberMemories(p, q, t);
  }

  // ----- leases renewed, jobs requeued --------------------------------------------------------------------------

  lemma SwapTables(p: Pond, q: Pond, s: Id, id: Id, job: Job)
    requires Tables(p) && id in p.jobs && p.jobs[id].key.submission == s && job.key == p.jobs[id].key && JobOk(job)
    requires q == p.(jobs := p.jobs[id := job]) && s in p.submissions
    ensures Tables(q) && Touches(p, q, s) && ContentKept(p, q, s)
  {
    RewriteTables(p, q, s, id, p.submissions[s], job);
    RewriteTouches(p, q, s, id, p.submissions[s], job);
  }

  lemma SwapQuiet(p: Pond, q: Pond, id: Id, job: Job)
    requires id in p.jobs && job.key == p.jobs[id].key && q == p.(jobs := p.jobs[id := job])
    requires job.attempts == p.jobs[id].attempts && job.journal == p.jobs[id].journal
    requires job.lease.Some? ==> p.jobs[id].lease.Some? && job.lease.value.token == p.jobs[id].lease.value.token
    ensures Quiet(p, q) && TemplatesKept(p.templates, q.templates)
  {
  }

  /** Rewriting one job without touching its attempts, journal or token is quiet. */
  lemma SwapKeeps(p: Pond, q: Pond, s: Id, id: Id, job: Job)
    requires Inv(p) && id in p.jobs && p.jobs[id].key.submission == s && job.key == p.jobs[id].key && JobOk(job)
    requires q == p.(jobs := p.jobs[id := job]) && s in p.submissions
    requires job.attempts == p.jobs[id].attempts && job.journal == p.jobs[id].journal
    requires job.lease.Some? ==> p.jobs[id].lease.Some? && job.lease.value.token == p.jobs[id].lease.value.token
    requires LocalOk(s, WithJob(ViewOf(p, s), id, job)) && TemplatesOk(p.templates, WithJob(ViewOf(p, s), id, job))
    ensures Inv(q)
  {
    hide LocalOk, TemplatesOk, Tables, Touches, Memories, Locals, LiveTemplates, Reservations, LeasesOk, JobOk,
      ContentKept, ViewOf, WithJob, Quiet, TemplatesKept, UniqueNotices;
    SwapView(p, q, s, id, job);
    SwapTables(p, q, s, id, job);
    SwapQuiet(p, q, id, job);
    QuietStep(p, q, s);
  }

  // ----- one job and one row rewritten ----------------------------------------------------------------------------

  /** Job `id` and row `s` are rewritten, one audit entry is written and perhaps a notice. */
  ghost predicate Amends(p: Pond, q: Pond, s: Id, id: Id, row: Submission, job: Job) {
    && s in p.submissions && id in p.jobs && p.jobs[id].key.submission == s && job.key == p.jobs[id].key
    && SnapshotOf(p, s, None) == SnapshotOf(q.(submissions := p.submissions[s := row]), s, None)
    && q.files == p.files && q.issues == p.issues && q.challenges == p.challenges && q.templates == p.templates
    && q.runs == p.runs && q.commits == p.commits && q.keys == p.keys && q.next == p.next
    && q.submissions == p.submissions[s := row] && q.jobs == p.jobs[id := job]
    && |q.audit| == |p.audit| + 1 && q.audit[..|p.audit|] == p.audit && q.audit[|p.audit|].target == s
    && KindOf(q.audit[|p.audit|].event) == OtherKind
    && Extends(p.outbox, q.outbox) && (q.outbox != p.outbox ==> q.outbox[|p.outbox|].submission == s)
  }

  function AmendedView(v: View, row: Submission, id: Id, job: Job, keys: set<NoticeKey>): View {
    WithJob(v, id, job).(row := row, keys := v.keys + keys)
  }

  function NewKeys(p: seq<Notice>, q: seq<Notice>): set<NoticeKey>
    requires |q| >= |p|
  {
    if |q| > |p| then {q[|p|].key} else {}
  }

  lemma AmendView(p: Pond, q: Pond, s: Id, id: Id, row: Submission, job: Job)
    requires Tables(p) && Amends(p, q, s, id, row, job) && row.challenge == p.submissions[s].challenge
    ensures ViewOf(q, s) == AmendedView(ViewOf(p, s), row, id, job, NewKeys(p.outbox, q.outbox))
  {
    hide Tables, PlacedJob, JobFor, RecordsOf, AllPassed, Latest, KeysOf, SnapshotOf;
    AmendJobs(p, q, s, id, row, job);
    LatestFrame(p.audit, q.audit, ValidationKind, s);
    LatestFrame(p.audit, q.audit, ReviewKind, s);
    KeysFrame(p.outbox, q.outbox, s);
  }

  lemma AmendJobs(p: Pond, q: Pond, s: Id, id: Id, row: Submission, job: Job)
    requires Tables(p) && Amends(p, q, s, id, row, job)
    ensures PlacedJob(q, Validate, s) == if job.key.action == Validate then Some(Placed(id, job))
            else PlacedJob(p, Validate, s)
    ensures PlacedJob(q, Publish, s) == if job.key.action == Publish then Some(Placed(id, job))
            else PlacedJob(p, Publish, s)
    ensures FindingsOf(q, s) == FindingsOf(p, s)
  {
    SwapPlaced(p, q, s, id, job, Validate);
    SwapPlaced(p, q, s, id, job, Publish);
  }

  lemma AmendRewrites(p: Pond, q: Pond, s: Id, id: Id, row: Submission, job: Job)
    requires Amends(p, q, s, id, row, job)
    ensures Rewrites(p, q, s, id, row, job) && FilesTouched(p.files, q.files, s)
            && TemplatesKept(p.templates, q.templates)
    ensures Extends(p.audit, q.audit) && (q.audit != p.audit ==> q.audit[|p.audit|].target == s)
  {
    hide SnapshotOf;
  }

  lemma AmendTables(p: Pond, q: Pond, s: Id, id: Id, row: Submission, job: Job)
    requires Tables(p) && Amends(p, q, s, id, row, job) && JobOk(job) && row.challenge == p.submissions[s].challenge
    ensures Tables(q) && Touches(p, q, s) && TemplatesKept(p.templates, q.templates)
  {
    hide Rewrites, FilesTouched, TemplatesKept, Touches, IndexOk, JobsOk, JobOk, Extends;
    AmendRewrites(p, q, s, id, row, job);
    RewriteTables(p, q, s, id, row, job);
    RewriteTouches(p, q, s, id, row, job);
  }

  lemma AmendQuiet(p: Pond, q: Pond, s: Id, id: Id, row: Submission, job: Job)
    requires Amends(p, q, s, id, row, job)
    requires job.attempts == p.jobs[id].attempts && job.journal == p.jobs[id].journal
    requires job.lease.Some? ==> p.jobs[id].lease.Some? && job.lease.value.token == p.jobs[id].lease.value.token
    requires row.approval.None? || row.approval == p.submissions[s].approval
    ensures Quiet(p, q) && ContentKept(p, q, s)
  {
  }

  /** An amendment that keeps attempts, journal and token keeps the invariant when the view
      of `s` stays in order and a new notice has a new key. */
  lemma AmendKeeps(p: Pond, q: Pond, s: Id, id: Id, row: Submission, job: Job)
    requires Inv(p) && Amends(p, q, s, id, row, job) && JobOk(job)
    requires job.attempts == p.jobs[id].attempts && job.journal == p.jobs[id].journal
    requires job.lease.Some? ==> p.jobs[id].lease.Some? && job.lease.value.token == p.jobs[id].lease.value.token
    requires row.challenge == p.submissions[s].challenge && row.status != Published
    requires row.approval.None? || row.approval == p.submissions[s].approval
    requires LocalOk(s, AmendedView(ViewOf(p, s), row, id, job, NewKeys(p.outbox, q.outbox)))
    requires forall k <- NewKeys(p.outbox, q.outbox) :: About(p, k, s) && k !in KeysOf(p.outbox, s)
    ensures Inv(q)
  {
    hide LocalOk, TemplatesOk, Tables, Touches, Memories, Locals, LiveTemplates, Reservations, LeasesOk, JobOk,
      ContentKept, ViewOf, AmendedView, Quiet, TemplatesKept, KeysOf, SnapshotOf;
    AmendView(p, q, s, id, row, job);
    AmendTables(p, q, s, id, row, job);
    AmendQuiet(p, q, s, id, row, job);
    NotPublished(q, s);
    if q.outbox != p.outbox {
      FreshKey(p, s, q.outbox[|p.outbox|].key);
      UniqueAppend(p.outbox, q.outbox[|p.outbox|]);
      assert q.outbox == p.outbox + [q.outbox[|p.outbox|]];
    }
    QuietStep(p, q, s);
  }

  // ----- one job added -----------------------------------------------------------------------------------------------

  /** Row `s` is rewritten and gets its first job of an action, numbered `p.next`. */
  ghost predicate Adds(p: Pond, q: Pond, s: Id, row: Submission, job: Job) {
    && s in p.submissions && job.key.submission == s && job.key !in p.keys
    && job.attempts == 0 && job.lease.None? && job.journal == []
    && q.jobs == p.jobs[p.next := job] && q.keys == p.keys[job.key := p.next] && q.next == p.next + 1
    && q.submissions == p.submissions[s := row] && row.challenge == p.submissions[s].challenge
    && q.files == p.files && q.issues == p.issues && q.challenges == p.challenges && q.templates == p.templates
    && q.runs == p.runs && q.commits == p.commits && q.outbox == p.outbox
    && |q.audit| == |p.audit| + 1 && q.audit[..|p.audit|] == p.audit && q.audit[|p.audit|].target == s
    && KindOf(q.audit[|p.audit|].event) == OtherKind
  }

  lemma AddIndex(p: Pond, q: Pond, s: Id, row: Submission, job: Job)
    requires Tables(p) && Adds(p, q, s, row, job) && JobOk(job)
    ensures IndexOk(q.keys, q.jobs) && JobsOk(q.jobs, q.submissions, q.next)
  {
    hide JobOk, RowsOk, FileRowsOk;
    assert p.next !in p.jobs;
    assert forall j <- q.jobs :: j == p.next || j in p.jobs;
  }

  lemma AddTables(p: Pond, q: Pond, s: Id, row: Submission, job: Job)
    requires Tables(p) && Adds(p, q, s, row, job) && JobOk(job)
    ensures Tables(q)
  {
    hide JobOk, IndexOk, JobsOk;
    AddIndex(p, q, s, row, job);
  }

  lemma AddJobsTouched(p: Pond, q: Pond, s: Id, row: Submission, job: Job)
    requires Tables(p) && Adds(p, q, s, row, job)
    ensures JobsTouched(p, q, s)
  {
    hide JobOk, RowsOk, FileRowsOk, IndexOk;
    assert p.next !in p.jobs;
  }

  lemma AddTouches(p: Pond, q: Pond, s: Id, row: Submission, job: Job)
    requires Tables(p) && Adds(p, q, s, row, job)
    ensures Touches(p, q, s)
  {
    hide Tables, JobsTouched;
    AddJobsTouched(p, q, s, row, job);
  }

  lemma AddQuiet(p: Pond, q: Pond, s: Id, row: Submission, job: Job)
    requires Tables(p) && Adds(p, q, s, row, job)
    ensures Quiet(p, q) && TemplatesKept(p.templates, q.templates)
  {
    hide JobOk;
    assert p.next !in p.jobs;
  }

  lemma AddPlaced(p: Pond, q: Pond, s: Id, row: Submission, job: Job)
    requires Tables(p) && Adds(p, q, s, row, job)
    ensures forall a :: PlacedJob(q, a, s) == if a == job.key.action then Some(Placed(p.next, job))
            else PlacedJob(p, a, s)
    ensures FindingsOf(q, s) == if job.key.action == Validate then [] else FindingsOf(p, s)
  {
    hide JobOk, RowsOk, FileRowsOk;
    assert p.next !in p.jobs;
    assert job.key == JobKey(job.key.action, s);
  }

  lemma AddView(p: Pond, q: Pond, s: Id, row: Submission, job: Job)
    requires Tables(p) && Adds(p, q, s, row, job)
    ensures ViewOf(q, s) == (if job.key.action == Validate
                             then WithJob(ViewOf(p, s), p.next, job).(row := row, findings := [])
                             else WithJob(ViewOf(p, s), p.next, job).(row := row))
  {
    hide Tables, PlacedJob, JobFor, RecordsOf, AllPassed, Latest, KeysOf, FindingsOf;
    AddPlaced(p, q, s, row, job);
    LatestFrame(p.audit, q.audit, ValidationKind, s);
    LatestFrame(p.audit, q.audit, ReviewKind, s);
  }

  /** Adding the first job of an action keeps the invariant when the view of `s` stays in
      order; the content may change only while `s` has no job at all. */
  lemma AddKeeps(p: Pond, q: Pond, s: Id, row: Submission, job: Job)
    requires Inv(p) && Adds(p, q, s, row, job) && JobOk(job) && row.status != Published
    requires LocalOk(s, ViewOf(q, s))
    requires ContentKept(p, q, s) || forall j <- p.jobs :: p.jobs[j].key.submission != s
    ensures Inv(q)
  {
    hide LocalOk, TemplatesOk, Tables, Touches, Memories, Locals, LiveTemplates, Reservations, LeasesOk, JobOk,
      ContentKept, ViewOf, Quiet, TemplatesKept, UniqueNotices;
    AddTables(p, q, s, row, job);
    AddTouches(p, q, s, row, job);
    AddQuiet(p, q, s, row, job);
    NotPublished(q, s);
    QuietStep(p, q, s);
  }

  // ----- a journal written ---------------------------------------------------------------------------------

  lemma JournalReservations(p: map<Id, Job>, id: Id, job: Job)
    requires Reservations(p) && id in p && VmidsDistinct(job.journal)
    requires forall j <- p :: j != id ==> Vmids(p[j].journal) !! Vmids(job.journal)
    ensures Reservations(p[id := job])
  {
    hide VmidsDistinct, Vmids;
  }

  lemma JournalMemories(p: Pond, q: Pond, id: Id, job: Job)
    requires Memories(p) && id in p.jobs && q == p.(jobs := p.jobs[id := job])
    requires job.key == p.jobs[id].key && job.lease == p.jobs[id].lease
    requires forall t <- p.runs :: p.runs[t].job == id && Holds(p, t) ==> p.runs[t].stage != Planning
    ensures Memories(q)
  {
    hide RecordsOf;
    forall t <- q.runs
      ensures q.runs[t].job in q.jobs && q.jobs[q.runs[t].job].key.submission in q.submissions && MemoryOk(q, t)
    {
      assert MemoryOk(p, t);
    }
  }

  lemma JournalLeases(p: Pond, q: Pond, id: Id, job: Job)
    requires LeasesOk(p) && id in p.jobs && q == p.(jobs := p.jobs[id := job])
    requires job.key == p.jobs[id].key && job.lease == p.jobs[id].lease && job.attempts == p.jobs[id].attempts
    ensures LeasesOk(q)
  {
    LeasesKept(p, q);
  }

  /** A journal may be written into a job whose holder is not planning any more. */
  lemma JournalKeeps(p: Pond, q: Pond, s: Id, id: Id, job: Job)
    requires Inv(p) && id in p.jobs && p.jobs[id].key.submission == s && JobOk(job)
    requires q == p.(jobs := p.jobs[id := job]) && job == p.jobs[id].(journal := job.journal) && s in p.submissions
    requires LocalOk(s, WithJob(ViewOf(p, s), id, job)) && TemplatesOk(p.templates, WithJob(ViewOf(p, s), id, job))
    requires VmidsDistinct(job.journal)
    requires forall j <- p.jobs :: j != id ==> Vmids(p.jobs[j].journal) !! Vmids(job.journal)
    requires forall t <- p.runs :: p.runs[t].job == id && Holds(p, t) ==> p.runs[t].stage != Planning
    ensures Inv(q)
  {
    hide LocalOk, TemplatesOk, Tables, Touches, Memories, Locals, LiveTemplates, Reservations, LeasesOk, JobOk,
      ContentKept, ViewOf, WithJob, UniqueNotices, VmidsDistinct, Vmids, Holds;
    SwapView(p, q, s, id, job);
    SwapTables(p, q, s, id, job);
    LocalsFrame(p, q, s);
    TemplatesFrame(p, q, s);
    JournalReservations(p.jobs, id, job);
    JournalLeases(p, q, id, job);
    JournalMemories(p, q, id, job);
  }
}
