/** The lease-based validation worker (challenge_ingestion/worker.py).

    Each transaction is given twice: as a function on the whole state, which the
    invariants are about, and as a method of `ValidationWorker` that does it step by
    step on the shared store. */
module Worker {
  import opened Schema
  import opened Store
  import opened Validation

  datatype Claim = Held(job: Id, submission: Id, token: Token)

  // ----- ownership -------------------------------------------------------------------

  predicate Owns(p: Pond, action: Action, c: Claim, now: Time) {
    && c.job in p.jobs
    && var job := p.jobs[c.job];
       && job.key == JobKey(action, c.submission) && job.status == Running
       && job.lease.Some? && job.lease.value.token == c.token && now < job.lease.value.expires
  }

  /** What identifies the content a worker looked at. */
  function SnapshotOf(p: Pond, s: Id, approval: Option<Approval>): Snapshot
    requires s in p.submissions
  {
    var row := p.submissions[s];
    Snapshot(row.digest, row.challengeType, row.schemaVersion, row.owner, row.manifest, RecordsOf(p.files, s), approval)
  }

  // ----- settling a job with a report ----------------------------------------------

  predicate CannotRun(code: Code) {
    code in {CheckUnavailable, StorageUnavailable}
  }

  function CheckOf(report: seq<Finding>, f: Id): FileCheck {
    if report == [] then Passed
    else if exists x <- report :: x.file == Some(f) && !CannotRun(x.code) then NotPassed
    else Pending
  }

  function Recheck(files: map<Id, File>, s: Id, report: seq<Finding>): map<Id, File> {
    map f | f in files :: if files[f].submission == s then files[f].(check := CheckOf(report, f)) else files[f]
  }

  predicate WillRetry(job: Job, report: seq<Finding>, exhausted: bool) {
    SuggestedStatus(report) == ValidationFailed && !exhausted && job.attempts < job.maxAttempts
  }

  function SettledStatus(job: Job, report: seq<Finding>, exhausted: bool): SubmissionStatus {
    if WillRetry(job, report, exhausted) then Validating else SuggestedStatus(report)
  }

  function SettledJob(job: Job, report: seq<Finding>, exhausted: bool, now: Time, retrySeconds: nat): Job {
    var retry := WillRetry(job, report, exhausted);
    job.(status := if retry then RetryWait else if SuggestedStatus(report) == ValidationFailed then Failed
         else Succeeded,
         availableAt := now + retrySeconds,
         completedAt := if retry then None else Some(now),
         lease := None)
  }

  predicate HasKey(outbox: seq<Notice>, key: NoticeKey) {
    exists n <- outbox :: n.key == key
  }

  function Notify(outbox: seq<Notice>, id: Id, s: Id, owner: Id, status: SubmissionStatus): seq<Notice> {
    var key := ValidationTerminal(id, owner);
    if HasKey(outbox, key) then outbox else outbox + [Notice(s, owner, status, key)]
  }

  /** `_result`: one transaction body that records a report for job `id`. */
  function Settle(p: Pond, id: Id, report: seq<Finding>, exhausted: bool, now: Time, retrySeconds: nat): Pond
    requires id in p.jobs && p.jobs[id].key.submission in p.submissions
  {
    var job := p.jobs[id];
    var s := job.key.submission;
    var row := p.submissions[s];
    var status := SettledStatus(job, report, exhausted);
    var entry := SubmissionValidation(id, job.attempts, status, |report|, if report == [] then row.digest else None);
    p.(submissions := p.submissions[s := row.(status := status)],
       jobs := p.jobs[id := SettledJob(job, report, exhausted, now, retrySeconds)],
       issues := p.issues[id := report],
       files := Recheck(p.files, s, report),
       audit := p.audit + [Audit(None, s, entry, false)],
       outbox := if WillRetry(job, report, exhausted) then p.outbox else Notify(p.outbox, id, s, row.owner, status))
  }

  // ----- claiming ----------------------------------------------------------------------

  predicate Eligible(job: Job, now: Time) {
    && job.key.action == Validate
    && (|| (job.status in {Queued, RetryWait} && job.availableAt <= now)
        || (job.status == Running && job.lease.Some? && job.lease.value.expires <= now))
  }

  predicate Before(jobs: map<Id, Job>, a: Id, b: Id)
    requires a in jobs && b in jobs
  {
    jobs[a].availableAt < jobs[b].availableAt || (jobs[a].availableAt == jobs[b].availableAt && a <= b)
  }

  function EligibleJobs(p: Pond, now: Time): set<Id> {
    set j | j in p.jobs && Eligible(p.jobs[j], now)
  }

  ghost predicate Least(jobs: map<Id, Job>, ids: set<Id>, id: Id)
    requires ids <= jobs.Keys
  {
    id in ids && forall j :: j in ids ==> Before(jobs, id, j)
  }

  lemma {:induction false} LeastExists(jobs: map<Id, Job>, ids: set<Id>)
    requires ids != {} && ids <= jobs.Keys
    ensures exists id :: Least(jobs, ids, id)
    decreases |ids|
  {
    var id :| id in ids;
    var rest := ids - {id};
    assert forall j :: j in ids ==> j == id || j in rest;
    if rest == {} {
      assert Least(jobs, ids, id);
    } else {
      LeastExists(jobs, rest);
      var other :| Least(jobs, rest, other);
      if Before(jobs, other, id) {
        assert Least(jobs, ids, other);
      } else {
        assert Least(jobs, ids, id);
      }
    }
  }

  ghost predicate IsFirst(p: Pond, now: Time, id: Id) {
    Least(p.jobs, EligibleJobs(p, now), id)
  }

  /** The eligible job that comes first by availability and then by number. */
  ghost function First(p: Pond, now: Time): (id: Id)
    requires EligibleJobs(p, now) != {}
    ensures IsFirst(p, now, id)
  {
    LeastExists(p.jobs, EligibleJobs(p, now));
    var id :| Least(p.jobs, EligibleJobs(p, now), id);
    id
  }

  datatype Settings = Settings(worker: string, leaseSeconds: nat, retrySeconds: nat)

  function CancelJob(p: Pond, id: Id, now: Time): Pond
    requires id in p.jobs
  {
    p.(jobs := p.jobs[id := p.jobs[id].(status := Cancelled, completedAt := Some(now), lease := None)])
  }

  const LIMIT_REPORT: seq<Finding> := [Finding(CheckUnavailable, None)]

  /** Hand out a fresh token for one more attempt at job `id`. */
  function Issue(p: Pond, id: Id, w: Settings, token: Token, now: Time): Pond
    requires id in p.jobs
  {
    var job := p.jobs[id];
    p.(jobs := p.jobs[id := job.(status := Running, attempts := job.attempts + 1, completedAt := None,
                                 lease := Some(Lease(token, w.worker, now + w.leaseSeconds)))],
       runs := p.runs[token := Run(id, job.attempts + 1, Claimed, None)])
  }

  predicate JobsHaveRows(p: Pond) {
    forall j <- p.jobs :: p.jobs[j].key.submission in p.submissions
  }

  /** `claim`: jobs that cannot be run are retired until one can be handed out. */
  ghost function ClaimNext(p: Pond, w: Settings, token: Token, now: Time): (r: (Pond, Option<Claim>))
    requires JobsHaveRows(p)
    decreases |EligibleJobs(p, now)|
  {
    if EligibleJobs(p, now) == {} then (p, None)
    else
      var id := First(p, now);
      var job := p.jobs[id];
      var s := job.key.submission;
      if p.submissions[s].status != Validating then
        var q := CancelJob(p, id, now);
        Fewer(p, q, id, now);
        ClaimNext(q, w, token, now)
      else if job.attempts >= job.maxAttempts then
        var q := Settle(p, id, LIMIT_REPORT, true, now, w.retrySeconds);
        Fewer(p, q, id, now);
        ClaimNext(q, w, token, now)
      else (Issue(p, id, w, token, now), Some(Held(id, s, token)))
  }

  /** Retiring an eligible job leaves strictly fewer: the loop of `claim` ends. */
  lemma Fewer(p: Pond, q: Pond, id: Id, now: Time)
    requires id in EligibleJobs(p, now) && id in q.jobs && !Eligible(q.jobs[id], now)
    requires q.jobs == p.jobs[id := q.jobs[id]]
    ensures |EligibleJobs(q, now)| < |EligibleJobs(p, now)|
  {
    assert EligibleJobs(q, now) == EligibleJobs(p, now) - {id};
  }

  function Renew(p: Pond, action: Action, c: Claim, now: Time, leaseSeconds: nat): Outcome<()> {
    if !Owns(p, action, c, now) then Refused(LeaseLost)
    else
      var job := p.jobs[c.job];
      Committed(p.(jobs := p.jobs[c.job := job.(lease := Some(job.lease.value.(expires := now + leaseSeconds)))]), ())
  }

  // ----- examining and finishing ---------------------------------------------------------

  /** The worker reads the revision it is about to check, under its claim. */
  function Examine(p: Pond, c: Claim, now: Time): Outcome<Snapshot> {
    if !Owns(p, Validate, c, now) || c.submission !in p.submissions || c.token !in p.runs then Refused(LeaseLost)
    else
      var snapshot := SnapshotOf(p, c.submission, None);
      Committed(p.(runs := p.runs[c.token := p.runs[c.token].(stage := Examined, snapshot := Some(snapshot))]),
                snapshot)
  }

  function Finish(p: Pond, c: Claim, report: seq<Finding>, seen: Snapshot, now: Time, retrySeconds: nat): Outcome<()> {
    if !Owns(p, Validate, c, now) || c.submission !in p.submissions then Refused(LeaseLost)
    else if p.submissions[c.submission].status != Validating then Refused(LeaseLost)
    else
      var checked := if SnapshotOf(p, c.submission, None) == seen then report else [Finding(ContentChanged, None)];
      Committed(Settle(p, c.job, checked, false, now, retrySeconds).(commits := p.commits + [c.token]), ())
  }

  // ----- the worker object ---------------------------------------------------------------

  class ValidationWorker {
    const store: Store
    const settings: Settings

    constructor (store: Store, settings: Settings)
      ensures this.store == store && this.settings == settings
    {
      this.store, this.settings := store, settings;
    }

    /** The findings of an earlier run of the job are replaced, one row at a time. */
    method ReplaceIssues(issues: map<Id, seq<Finding>>, id: Id, report: seq<Finding>)
      returns (updated: map<Id, seq<Finding>>)
      ensures updated == issues[id := report]
    {
      var rows: seq<Finding> := [];
      for i := 0 to |report|
        invariant rows == report[..i]
      {
        rows := rows + [report[i]];
      }
      assert report[..|report|] == report;
      updated := issues[id := rows];
    }

    /** Every file row of the submission gets the verdict of the report. */
    method RecheckFiles(files: map<Id, File>, s: Id, report: seq<Finding>) returns (updated: map<Id, File>)
      ensures updated == Recheck(files, s, report)
    {
      updated := files;
      var todo := files.Keys;
      while todo != {}
        invariant todo <= files.Keys == updated.Keys
        invariant forall f <- files :: updated[f] == if f in todo then files[f] else Recheck(files, s, report)[f]
        decreases |todo|
      {
        var f :| f in todo;
        if files[f].submission == s {
          updated := updated[f := files[f].(check := CheckOf(report, f))];
        }
        todo := todo - {f};
      }
    }

    /** `_result`: the rows are rewritten one table after the other. */
    method Result(id: Id, report: seq<Finding>, exhausted: bool, now: Time)
      requires id in store.pond.jobs && store.pond.jobs[id].key.submission in store.pond.submissions
      modifies store
      ensures store.pond == Settle(old(store.pond), id, report, exhausted, now, settings.retrySeconds)
    {
      hide SuggestedStatus, Recheck, Notify;
      var p := store.pond;
      var job := p.jobs[id];
      var s := job.key.submission;
      var row := p.submissions[s];
      var technical := SuggestedStatus(report) == ValidationFailed;
      var retry := technical && !exhausted && job.attempts < job.maxAttempts;
      var issues := ReplaceIssues(p.issues, id, report);
      row := row.(status := if retry then Validating else SuggestedStatus(report));
      job := job.(status := if retry then RetryWait else if technical then Failed else Succeeded);
      job := job.(availableAt := now + settings.retrySeconds, completedAt := if retry then None else Some(now));
      job := job.(lease := None);
      var files := RecheckFiles(p.files, s, report);
      var entry := SubmissionValidation(id, job.attempts, row.status, |report|, if report == [] then row.digest
                                        else None);
      var outbox := p.outbox;
      if !retry {
        outbox := Notify(outbox, id, s, row.owner, row.status);
      }
      assert retry == WillRetry(p.jobs[id], report, exhausted);
      assert row.status == SettledStatus(p.jobs[id], report, exhausted);
      assert job == SettledJob(p.jobs[id], report, exhausted, now, settings.retrySeconds);
      store.pond := p.(submissions := p.submissions[s := row], jobs := p.jobs[id := job], issues := issues,
                       files := files, audit := p.audit + [Audit(None, s, entry, false)], outbox := outbox);
    }

    /** The query of `claim`: the first eligible job, if any. */
    method SelectFirst(now: Time) returns (id: Option<Id>)
      ensures id.None? <==> EligibleJobs(store.pond, now) == {}
      ensures id.Some? ==> IsFirst(store.pond, now, id.value)
    {
      var p := store.pond;
      var todo := p.jobs.Keys;
      id := None;
      while todo != {}
        invariant todo <= p.jobs.Keys
        invariant id.Some? ==> id.value in EligibleJobs(p, now) && id.value !in todo
        invariant id.None? ==> EligibleJobs(p, now) <= todo
        invariant id.Some? ==> forall j <- EligibleJobs(p, now) - todo :: Before(p.jobs, id.value, j)
        decreases |todo|
      {
        var j :| j in todo;
        ghost var seen := EligibleJobs(p, now) - todo;
        assert EligibleJobs(p, now) - (todo - {j}) <= seen + {j};
        if Eligible(p.jobs[j], now) && (id.None? || Before(p.jobs, j, id.value)) {
          id := Some(j);
        }
        todo := todo - {j};
        assert id.Some? ==> forall k <- seen + {j} :: k in EligibleJobs(p, now) ==> Before(p.jobs, id.value, k);
      }
    }

    /** `claim`: one transaction, a loop that ends because every round that hands
        nothing out leaves fewer eligible jobs. */
    method Claim(token: Token, now: Time) returns (claim: Option<Claim>)
      requires JobsHaveRows(store.pond)
      modifies store
      ensures (store.pond, claim) == ClaimNext(old(store.pond), settings, token, now)
    {
      claim := None;
      while true
        invariant JobsHaveRows(store.pond)
        invariant ClaimNext(store.pond, settings, token, now) == ClaimNext(old(store.pond), settings, token, now)
        decreases |EligibleJobs(store.pond, now)|
      {
        var found := SelectFirst(now);
        if found.None? {
          return;
        }
        var id := found.value;
        ghost var before := store.pond;
        FirstUnique(before, now, id);
        var job := store.pond.jobs[id];
        var s := job.key.submission;
        if store.pond.submissions[s].status != Validating {
          store.pond := CancelJob(store.pond, id, now);
          Fewer(before, store.pond, id, now);
          continue;
        }
        if job.attempts >= job.maxAttempts {
          Result(id, LIMIT_REPORT, true, now);
          Fewer(before, store.pond, id, now);
          continue;
        }
        job := job.(status := Running, attempts := job.attempts + 1);
        job := job.(lease := Some(Lease(token, settings.worker, now + settings.leaseSeconds)), completedAt := None);
        store.pond := store.pond.(jobs := store.pond.jobs[id := job],
                                  runs := store.pond.runs[token := Run(id, job.attempts, Claimed, None)]);
        return Some(Held(id, s, token));
      }
    }

    method RenewLease(c: Claim, now: Time) returns (ok: bool)
      modifies store
      ensures var r := Renew(old(store.pond), Validate, c, now, settings.leaseSeconds);
              ok == r.Committed? && store.pond == if ok then r.pond else old(store.pond)
    {
      ok := Owns(store.pond, Validate, c, now);
      if ok {
        var job := store.pond.jobs[c.job];
        var lease := job.lease.value.(expires := now + settings.leaseSeconds);
        store.pond := store.pond.(jobs := store.pond.jobs[c.job := job.(lease := Some(lease))]);
      }
    }

    /** `finish`: the claim, the workflow state and the content are checked again
        before the report is recorded. */
    method FinishRun(c: Claim, report: seq<Finding>, seen: Snapshot, now: Time) returns (ok: bool)
      modifies store
      ensures var r := Finish(old(store.pond), c, report, seen, now, settings.retrySeconds);
              ok == r.Committed? && store.pond == if ok then r.pond else old(store.pond)
    {
      if !Owns(store.pond, Validate, c, now) || c.submission !in store.pond.submissions {
        return false;
      }
      if store.pond.submissions[c.submission].status != Validating {
        return false;
      }
      var current := SnapshotOf(store.pond, c.submission, None);
      var checked := report;
      if current != seen {
        checked := [Finding(ContentChanged, None)];
      }
      Result(c.job, checked, false, now);
      store.pond := store.pond.(commits := store.pond.commits + [c.token]);
      return true;
    }
  }

  /** The order of the query is total, so its first row is determined. */
  lemma FirstUnique(p: Pond, now: Time, id: Id)
    requires IsFirst(p, now, id)
    ensures First(p, now) == id
  {
  }
}
