/** No worker, reviewer or administrator touches the books that intake keeps. */
module Books {
  import opened Schema
  import opened Validation
  import opened Worker
  import opened Review
  import opened Publication
  import opened Conservation

  lemma BooksTransitive(a: Pond, b: Pond, c: Pond)
    requires BooksKept(a, b) && BooksKept(b, c)
    ensures BooksKept(a, c)
  {
    forall f <- a.files
      ensures EntryOf(c.files[f]) == EntryOf(a.files[f]) && c.files[f].submission == a.files[f].submission
    {
      assert EntryOf(b.files[f]) == EntryOf(a.files[f]);
      assert EntryOf(c.files[f]) == EntryOf(b.files[f]);
    }
  }

  lemma SettleBooks(p: Pond, id: Id, report: seq<Finding>, exhausted: bool, now: Time, retrySeconds: nat)
    requires id in p.jobs && p.jobs[id].key.submission in p.submissions
    ensures BooksKept(p, Settle(p, id, report, exhausted, now, retrySeconds))
  {
  }

  lemma CancelBooks(p: Pond, id: Id, now: Time)
    requires id in p.jobs
    ensures BooksKept(p, CancelJob(p, id, now))
  {
  }

  lemma CancelledIsDone(p: Pond, id: Id, now: Time)
    requires id in p.jobs && JobsHaveRows(p)
    ensures var q := CancelJob(p, id, now);
            id in q.jobs && !Eligible(q.jobs[id], now) && q.jobs == p.jobs[id := q.jobs[id]] && JobsHaveRows(q)
  {
  }

  lemma IssueBooks(p: Pond, id: Id, w: Settings, token: Token, now: Time)
    requires id in p.jobs
    ensures BooksKept(p, Issue(p, id, w, token, now))
  {
  }

  lemma {:induction false} ClaimBooks(p: Pond, w: Settings, token: Token, now: Time)
    requires JobsHaveRows(p)
    ensures BooksKept(p, ClaimNext(p, w, token, now).0)
    decreases |EligibleJobs(p, now)|
  {
    hide BooksKept, CancelJob, Settle, Issue;
    if EligibleJobs(p, now) == {} {
      SameBooks(p);
    } else {
      var id := First(p, now);
      var job := p.jobs[id];
      if p.submissions[job.key.submission].status != Validating {
        var q := CancelJob(p, id, now);
        CancelBooks(p, id, now);
        CancelledIsDone(p, id, now);
        Fewer(p, q, id, now);
        ClaimBooks(q, w, token, now);
        BooksTransitive(p, q, ClaimNext(q, w, token, now).0);
      } else if job.attempts >= job.maxAttempts {
        var q := Settle(p, id, LIMIT_REPORT, true, now, w.retrySeconds);
        SettleBooks(p, id, LIMIT_REPORT, true, now, w.retrySeconds);
        SettledIsDone(p, id, now, w.retrySeconds);
        Fewer(p, q, id, now);
        ClaimBooks(q, w, token, now);
        BooksTransitive(p, q, ClaimNext(q, w, token, now).0);
      } else {
        IssueBooks(p, id, w, token, now);
      }
    }
  }

  lemma SameBooks(p: Pond)
    ensures BooksKept(p, p)
  {
  }

  lemma SettledIsDone(p: Pond, id: Id, now: Time, retrySeconds: nat)
    requires id in p.jobs && p.jobs[id].key.submission in p.submissions && JobsHaveRows(p)
    ensures var q := Settle(p, id, LIMIT_REPORT, true, now, retrySeconds);
            id in q.jobs && !Eligible(q.jobs[id], now) && q.jobs == p.jobs[id := q.jobs[id]] && JobsHaveRows(q)
  {
    assert LIMIT_REPORT[0] in LIMIT_REPORT;
  }

  lemma FinishBooks(p: Pond, c: Claim, report: seq<Finding>, seen: Snapshot, now: Time, retrySeconds: nat)
    requires Finish(p, c, report, seen, now, retrySeconds).Committed?
    ensures BooksKept(p, Finish(p, c, report, seen, now, retrySeconds).pond)
  {
    hide SnapshotOf;
    var checked := if SnapshotOf(p, c.submission, None) == seen then report else [Finding(ContentChanged, None)];
    SettleBooks(p, c.job, checked, false, now, retrySeconds);
    hide Settle;
  }

  lemma DecideBooks(p: Pond, s: Id, actor: Id, form: Form, now: Time)
    requires Decide(p, s, actor, form, now).Committed?
    ensures BooksKept(p, Decide(p, s, actor, form, now).pond)
  {
    hide RecordsOf, MayApprove, AnyActive;
  }

  lemma FailBooks(p: Pond, id: Id, code: FailureCode, now: Time)
    requires id in p.jobs && p.jobs[id].key.submission in p.submissions
    ensures BooksKept(p, FailJob(p, id, code, now))
  {
  }

  lemma {:induction false} FailAllBooks(p: Pond, order: seq<Id>, now: Time)
    requires JobsHaveRows(p) && forall j <- order :: j in p.jobs
    ensures BooksKept(p, FailAll(p, order, now))
    decreases |order|
  {
    if order != [] {
      var q := FailIfImporting(p, order[0], now);
      FailBooks(p, order[0], LeaseExpiredReconcile, now);
      FailAllBooks(q, order[1..], now);
      BooksTransitive(p, q, FailAll(q, order[1..], now));
    }
  }

  lemma TakeQueuedBooks(p: Pond, id: Id, w: Settings, token: Token, now: Time)
    requires id in p.jobs && p.jobs[id].key.submission in p.submissions
    ensures BooksKept(p, TakeQueued(p, id, w, token, now).0)
  {
    hide BooksKept, FailJob;
    if p.submissions[p.jobs[id].key.submission].status == Importing && p.jobs[id].attempts >= p.jobs[id].maxAttempts {
      FailBooks(p, id, AttemptLimit, now);
    } else {
      JobsOnlyBooks(p, TakeQueued(p, id, w, token, now).0);
    }
  }

  lemma ClaimPublishBooks(p: Pond, order: seq<Id>, w: Settings, token: Token, now: Time)
    requires JobsHaveRows(p) && forall j <- order :: j in p.jobs
    ensures BooksKept(p, ClaimPublish(p, order, w, token, now).0)
  {
    hide FailAll, Lowest, TakeQueued, BooksKept;
    var mid := FailAll(p, order, now);
    FailAllBooks(p, order, now);
    if QueuedJobs(mid.jobs, now) != {} {
      var id := Lowest(QueuedJobs(mid.jobs, now));
      TakeQueuedBooks(mid, id, w, token, now);
      BooksTransitive(p, mid, TakeQueued(mid, id, w, token, now).0);
    } else {
      assert BooksKept(p, mid);
    }
  }

  lemma EnqueueBooks(p: Pond, s: Id, actor: Id, expected: Option<Digest>, retry: bool, adapterReady: bool, now: Time)
    requires Enqueue(p, s, actor, expected, retry, adapterReady, now).Committed?
    ensures BooksKept(p, Enqueue(p, s, actor, expected, retry, adapterReady, now).pond)
  {
    EnqueueRow(p, s, actor, expected, retry, adapterReady, now);
    hide Enqueue, QueueAgain, QueueFirst;
  }

  lemma EnqueueRow(p: Pond, s: Id, actor: Id, expected: Option<Digest>, retry: bool, adapterReady: bool, now: Time)
    requires Enqueue(p, s, actor, expected, retry, adapterReady, now).Committed?
    ensures var q := Enqueue(p, s, actor, expected, retry, adapterReady, now).pond;
            && q.files == p.files && q.objects == p.objects && q.orphans == p.orphans && q.intake == p.intake
            && s in p.submissions
            && (q.submissions == p.submissions
                || q.submissions == p.submissions[s := p.submissions[s].(status := Importing)])
  {
    hide ApprovalStands, AnyActive, VmBased, QueueAgain, QueueFirst;
    var status, job := p.submissions[s].status, JobFor(p, Publish, s);
    if status == ImportFailed {
      AgainRow(p, s, job.value, actor, now);
    } else if !(status in {Published, Importing} && job.Some?) {
      FirstRow(p, s, actor, retry, now);
    }
  }

  /** Only the status of the row changes. */
  ghost predicate RowQueued(p: Pond, q: Pond, s: Id) {
    && q.files == p.files && q.objects == p.objects && q.orphans == p.orphans && q.intake == p.intake
    && s in p.submissions && q.submissions == p.submissions[s := p.submissions[s].(status := Importing)]
  }

  lemma AgainRow(p: Pond, s: Id, job: Id, actor: Id, now: Time)
    requires s in p.submissions && job in p.jobs
    ensures RowQueued(p, QueueAgain(p, s, job, actor, now), s)
  {
    hide LogAdmin;
  }

  lemma FirstRow(p: Pond, s: Id, actor: Id, retry: bool, now: Time)
    requires s in p.submissions
    ensures RowQueued(p, QueueFirst(p, s, actor, retry, now), s)
  {
    hide LogAdmin, NewJob;
  }

  lemma ReturnBooks(p: Pond, s: Id, actor: Id, expected: Option<Digest>, note: string)
    requires ReturnForCorrection(p, s, actor, expected, note).Committed?
    ensures BooksKept(p, ReturnForCorrection(p, s, actor, expected, note).pond)
  {
    hide AnyActive;
  }

  lemma CommitLiveBooks(p: Pond, c: Claim, seen: Snapshot, m: Manifest, now: Time)
    requires CommitLive(p, c, seen, m, now).Committed?
    ensures BooksKept(p, CommitLive(p, c, seen, m, now).pond)
  {
    hide ApprovalStands, SnapshotOf, LookupsDefined, VmidsLive, NewChallenge, NewTemplates;
    LiveRow(p, c, seen, m, now);
    hide CommitLive;
  }

  lemma LiveRow(p: Pond, c: Claim, seen: Snapshot, m: Manifest, now: Time)
    requires CommitLive(p, c, seen, m, now).Committed?
    ensures var q := CommitLive(p, c, seen, m, now).pond;
            && q.files == p.files && q.objects == p.objects && q.orphans == p.orphans && q.intake == p.intake
            && c.submission in p.submissions && c.submission in q.submissions
            && q.submissions == p.submissions[c.submission := q.submissions[c.submission]]
            && q.submissions[c.submission].owner == p.submissions[c.submission].owner
            && q.submissions[c.submission].status == Published
  {
    hide ApprovalStands, SnapshotOf, VmidsLive, NewTemplates, NewChallenge;
  }

  lemma FailRunBooks(p: Pond, c: Claim, now: Time)
    requires FailRun(p, c, now).Committed?
    ensures BooksKept(p, FailRun(p, c, now).pond)
  {
    FailBooks(p, c.job, PublicationStopped, now);
    hide FailJob;
  }

  /** Steps that write jobs and worker memory only. */
  lemma JobsOnlyBooks(p: Pond, q: Pond)
    requires q.files == p.files && q.submissions == p.submissions && q.intake == p.intake
    requires q.objects == p.objects && q.orphans == p.orphans
    ensures BooksKept(p, q)
  {
  }
}
