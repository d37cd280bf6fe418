/** The sysadmin review of a frozen revision (challenge_ingestion/review.py). */
module Review {
  import opened Schema
  import opened Store

  const MAX_NOTE := 2000

  /** What the reviewer's form says; `note` is already stripped. */
  datatype Form = Form(decision: Decision, digest: Digest, job: Id, note: string)

  function FinalStatus(d: Decision): SubmissionStatus {
    match d
    case Approve => Approved
    case Reject => Rejected
  }

  predicate FormOk(form: Form) {
    |form.note| <= MAX_NOTE && (form.decision == Reject ==> form.note != "")
  }

  /** The row, its latest validation run and its content still are what the form shows,
      and nothing is being processed. */
  predicate FormCurrent(p: Pond, s: Id, form: Form)
    requires s in p.submissions
  {
    var row := p.submissions[s];
    && row.digest == Some(form.digest)
    && JobFor(p, Validate, s) == Some(form.job)
    && !AnyActive(p.jobs, s)
    && row.challengeType == row.manifest.challengeType && row.schemaVersion == row.manifest.schemaVersion
    && ContentDigest(row.manifest, RecordsOf(p.files, s)) == form.digest
  }

  /** The newest validation record vouches for exactly this job and digest. */
  predicate Attests(audit: seq<Audit>, s: Id, job: Id, digest: Digest) {
    var last := Latest(audit, ValidationKind, s);
    && last.Some?
    && var e := last.value.entry.event;
       e.job == job && e.status == ReadyForReview && e.attested == Some(digest) && e.issueCount == 0
  }

  predicate MayApprove(p: Pond, s: Id, form: Form)
    requires s in p.submissions && form.job in p.jobs
  {
    && p.submissions[s].status == ReadyForReview && p.jobs[form.job].status == Succeeded
    && (form.job in p.issues ==> p.issues[form.job] == [])
    && AllPassed(p.files, s)
    && Attests(p.audit, s, form.job, form.digest)
  }

  function Decided(p: Pond, s: Id, actor: Id, form: Form, now: Time): Pond
    requires s in p.submissions
  {
    var row := p.submissions[s];
    var status := FinalStatus(form.decision);
    p.(submissions := p.submissions[s := row.(status := status,
                                              approval := if form.decision == Approve then Some(Approval(actor, now))
                                                          else None)],
       audit := p.audit + [Audit(Some(actor), s, SubmissionReview(form.decision, form.digest, form.job),
                                 IsAdmin(p.users, actor))],
       outbox := p.outbox + [Notice(s, row.owner, status, ReviewDecided(s, form.digest, form.decision))])
  }

  /** `decide`: true when a decision was recorded, false when the same decision
      already stands. */
  function Decide(p: Pond, s: Id, actor: Id, form: Form, now: Time): Outcome<bool> {
    if !FormOk(form) then Refused(Invalid)
    else if !IsAdmin(p.users, actor) then Refused(Forbidden)
    else if s !in p.submissions then Refused(NotFound)
    else if !FormCurrent(p, s, form) then Refused(Stale)
    else if p.submissions[s].status == FinalStatus(form.decision) then Committed(p, false)
    else if p.submissions[s].status !in {ReadyForReview, NeedsChanges, ValidationFailed} then Refused(NotReady)
    else if form.job !in p.jobs then Refused(Stale)
    else if p.jobs[form.job].status !in {Succeeded, Failed} || p.jobs[form.job].completedAt.None? then Refused(NotReady)
    else if form.decision == Approve && !MayApprove(p, s, form) then Refused(NotReady)
    else Committed(Decided(p, s, actor, form, now), true)
  }

  class ReviewService {
    const store: Store

    constructor (store: Store)
      ensures this.store == store
    {
      this.store := store;
    }

    /** One transaction: every refusal rolls back, a repeated decision changes nothing. */
    method DecideSubmission(s: Id, actor: Id, form: Form, now: Time) returns (r: Outcome<bool>)
      modifies store
      ensures r == Decide(old(store.pond), s, actor, form, now)
      ensures store.pond == if r.Committed? then r.pond else old(store.pond)
    {
      var p := store.pond;
      if |form.note| > MAX_NOTE || (form.decision == Reject && form.note == "") {
        return Refused(Invalid);
      }
      if !IsAdmin(p.users, actor) {
        return Refused(Forbidden);
      }
      if s !in p.submissions {
        return Refused(NotFound);
      }
      var row := p.submissions[s];
      if row.digest != Some(form.digest) || JobFor(p, Validate, s) != Some(form.job) || AnyActive(p.jobs, s) {
        return Refused(Stale);
      }
      if row.challengeType != row.manifest.challengeType || row.schemaVersion != row.manifest.schemaVersion {
        return Refused(Stale);
      }
      if ContentDigest(row.manifest, RecordsOf(p.files, s)) != form.digest {
        return Refused(Stale);
      }
      var status := FinalStatus(form.decision);
      if row.status == status {
        return Committed(p, false);
      }
      if row.status !in {ReadyForReview, NeedsChanges, ValidationFailed} {
        return Refused(NotReady);
      }
      if form.job !in p.jobs {
        return Refused(Stale);
      }
      var job := p.jobs[form.job];
      if job.status !in {Succeeded, Failed} || job.completedAt.None? {
        return Refused(NotReady);
      }
      if form.decision == Approve {
        if row.status != ReadyForReview || job.status != Succeeded {
          return Refused(NotReady);
        }
        if form.job in p.issues && p.issues[form.job] != [] {
          return Refused(NotReady);
        }
        if !AllPassed(p.files, s) {
          return Refused(NotReady);
        }
        if !Attests(p.audit, s, form.job, form.digest) {
          return Refused(NotReady);
        }
      }
      row := row.(status := status);
      row := row.(approval := if form.decision == Approve then Some(Approval(actor, now)) else None);
      var entry := SubmissionReview(form.decision, form.digest, form.job);
      p := p.(submissions := p.submissions[s := row]);
      p := p.(audit := p.audit + [Audit(Some(actor), s, entry, IsAdmin(p.users, actor))]);
      p := p.(outbox := p.outbox + [Notice(s, row.owner, status, ReviewDecided(s, form.digest, form.decision))]);
      store.pond := p;
      return Committed(p, true);
    }
  }
}
