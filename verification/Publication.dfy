/** Publication of approved revisions (challenge_ingestion/publication.py): what each
    transaction does to the whole state. */
module Publication {
  import opened Schema
  import opened Validation
  import opened Review
  import opened Worker

  // ----- approval --------------------------------------------------------------------

  /** The newest review record approves this digest in the name of the recorded approver. */
  predicate Endorsed(audit: seq<Audit>, s: Id, digest: Digest, admin: Id) {
    var last := Latest(audit, ReviewKind, s);
    && last.Some? && last.value.entry.actor == Some(admin)
    && last.value.entry.event.decision == Approve && last.value.entry.event.reviewed == digest
  }

  /** `_approval` raises nothing. */
  predicate ApprovalStands(p: Pond, s: Id)
    requires s in p.submissions
  {
    var row := p.submissions[s];
    && row.approval.Some?
    && IsAdmin(p.users, row.approval.value.admin)
    && row.digest == Some(ContentDigest(row.manifest, RecordsOf(p.files, s)))
    && Endorsed(p.audit, s, row.digest.value, row.approval.value.admin)
  }

  // ----- queueing and returning --------------------------------------------------------

  function LogAdmin(p: Pond, actor: Id, s: Id, event: Event): seq<Audit> {
    p.audit + [Audit(Some(actor), s, event, IsAdmin(p.users, actor))]
  }

  function QueueAgain(p: Pond, s: Id, id: Id, actor: Id, now: Time): Pond
    requires s in p.submissions && id in p.jobs
  {
    p.(submissions := p.submissions[s := p.submissions[s].(status := Importing)],
       jobs := p.jobs[id := p.jobs[id].(status := Queued, availableAt := now, completedAt := None)],
       audit := LogAdmin(p, actor, s, PublicationQueued(id, true)))
  }

  const MAX_ATTEMPTS := 3

  function NewJob(key: JobKey, actor: Id, now: Time): Job {
    Job(key, actor, Queued, 0, MAX_ATTEMPTS, now, None, [], None)
  }

  function QueueFirst(p: Pond, s: Id, actor: Id, retry: bool, now: Time): Pond
    requires s in p.submissions
  {
    var key := JobKey(Publish, s);
    p.(submissions := p.submissions[s := p.submissions[s].(status := Importing)],
       jobs := p.jobs[p.next := NewJob(key, actor, now)],
       keys := p.keys[key := p.next],
       audit := LogAdmin(p, actor, s, PublicationQueued(p.next, retry)),
       next := p.next + 1)
  }

  /** `enqueue`: returns the stable job number of the publication of `s`. */
  function Enqueue(p: Pond, s: Id, actor: Id, expected: Option<Digest>, retry: bool, adapterReady: bool, now: Time)
    : Outcome<Id>
  {
    if !IsAdmin(p.users, actor) then Refused(Forbidden)
    else if s !in p.submissions then Refused(NotFound)
    else if p.submissions[s].digest != expected then Refused(Stale)
    else if !ApprovalStands(p, s) then Refused(NotAuthorized)
    else if VmBased(p.submissions[s].manifest) && !adapterReady then Refused(NotReady)
    else
      var status, job := p.submissions[s].status, JobFor(p, Publish, s);
      if status in {Published, Importing} && job.Some? then Committed(p, job.value)
      else if status == ImportFailed then
        if !retry || job.None? || job.value !in p.jobs || p.jobs[job.value].status != Failed
           || p.jobs[job.value].attempts >= p.jobs[job.value].maxAttempts
        then Refused(NotReady)
        else Committed(QueueAgain(p, s, job.value, actor, now), job.value)
      else if status == Approved && job.None? then
        if AnyActive(p.jobs, s) then Refused(NotReady)
        else Committed(QueueFirst(p, s, actor, retry, now), p.next)
      else Refused(NotReady)
  }

  function ReturnedPond(p: Pond, s: Id, actor: Id, id: Id): Pond
    requires s in p.submissions
  {
    var row := p.submissions[s];
    p.(submissions := p.submissions[s := row.(status := Rejected, approval := None)],
       audit := LogAdmin(p, actor, s, PublicationReturned(id)),
       outbox := p.outbox + [Notice(s, row.owner, Rejected, ReturnedForCorrection(s))])
  }

  /** `return_for_correction`; `note` is already stripped. */
  function ReturnForCorrection(p: Pond, s: Id, actor: Id, expected: Option<Digest>, note: string): Outcome<()> {
    if note == "" || |note| > MAX_NOTE then Refused(Invalid)
    else if !IsAdmin(p.users, actor) then Refused(Forbidden)
    else if s !in p.submissions then Refused(NotFound)
    else if p.submissions[s].status != ImportFailed || p.submissions[s].digest != expected then Refused(Stale)
    else
      var job := JobFor(p, Publish, s);
      if job.None? || job.value !in p.jobs || p.jobs[job.value].status != Failed || AnyActive(p.jobs, s)
      then Refused(NotReady)
      else Committed(ReturnedPond(p, s, actor, job.value), ())
  }

  // ----- failing and claiming -------------------------------------------------------------

  function FailJob(p: Pond, id: Id, code: FailureCode, now: Time): Pond
    requires id in p.jobs && p.jobs[id].key.submission in p.submissions
  {
    var job := p.jobs[id];
    var s := job.key.submission;
    var row := p.submissions[s];
    p.(jobs := p.jobs[id := job.(status := Failed, completedAt := Some(now), lease := None)],
       submissions := p.submissions[s := row.(status := ImportFailed)],
       audit := p.audit + [Audit(None, s, PublicationFailed(id, job.attempts, code), false)],
       outbox := p.outbox + [Notice(s, row.owner, ImportFailed, PublishFailed(id, job.attempts))])
  }

  predicate Expired(job: Job, now: Time) {
    job.key.action == Publish && job.status == Running && job.lease.Some? && job.lease.value.expires <= now
  }

  function ExpiredJobs(jobs: map<Id, Job>, now: Time): set<Id> {
    set j | j in jobs && Expired(jobs[j], now)
  }

  /** `order` lists the given jobs once each, as a query without ordering may. */
  ghost predicate Lists(order: seq<Id>, ids: set<Id>) {
    && (set j | j in order) == ids
    && forall i, k :: 0 <= i < k < |order| ==> order[i] != order[k]
  }

  function FailIfImporting(p: Pond, id: Id, now: Time): Pond
    requires id in p.jobs && p.jobs[id].key.submission in p.submissions
  {
    if p.submissions[p.jobs[id].key.submission].status == Importing
    then FailJob(p, id, LeaseExpiredReconcile, now) else p
  }

  /** Every listed job whose submission is importing fails, in this order. */
  function FailAll(p: Pond, order: seq<Id>, now: Time): (q: Pond)
    requires JobsHaveRows(p) && forall j <- order :: j in p.jobs
    ensures JobsHaveRows(q) && q.jobs.Keys == p.jobs.Keys
    decreases |order|
  {
    if order == [] then p else FailAll(FailIfImporting(p, order[0], now), order[1..], now)
  }

  function QueuedJobs(jobs: map<Id, Job>, now: Time): set<Id> {
    set j | j in jobs && jobs[j].key.action == Publish && jobs[j].status == Queued && jobs[j].availableAt <= now
  }

  ghost predicate IsLowest(ids: set<Id>, id: Id) {
    id in ids && forall j <- ids :: id <= j
  }

  function IssuePublish(p: Pond, id: Id, w: Settings, token: Token, now: Time): Pond
    requires id in p.jobs
  {
    var job := p.jobs[id];
    p.(jobs := p.jobs[id := job.(status := Running, attempts := job.attempts + 1,
                                 lease := Some(Lease(token, w.worker, now + w.leaseSeconds)))],
       runs := p.runs[token := Run(id, job.attempts + 1, Claimed, None)])
  }

  /** The queued job that the second query of `claim` found is handed out or retired. */
  function TakeQueued(p: Pond, id: Id, w: Settings, token: Token, now: Time): (Pond, Option<Claim>)
    requires id in p.jobs && p.jobs[id].key.submission in p.submissions
  {
    var job := p.jobs[id];
    var s := job.key.submission;
    if p.submissions[s].status != Importing then
      (p.(jobs := p.jobs[id := job.(status := Cancelled, completedAt := Some(now))]), None)
    else if job.attempts >= job.maxAttempts then (FailJob(p, id, AttemptLimit, now), None)
    else (IssuePublish(p, id, w, token, now), Some(Held(id, s, token)))
  }

  lemma {:induction false} LowestExists(ids: set<Id>)
    requires ids != {}
    ensures exists id :: IsLowest(ids, id)
    decreases |ids|
  {
    var id :| id in ids;
    var rest := ids - {id};
    assert forall j :: j in ids ==> j == id || j in rest;
    if rest == {} {
      assert IsLowest(ids, id);
    } else {
      LowestExists(rest);
      var other :| IsLowest(rest, other);
      assert IsLowest(ids, if other <= id then other else id);
    }
  }

  ghost function Lowest(ids: set<Id>): (id: Id)
    requires ids != {}
    ensures IsLowest(ids, id)
  {
    LowestExists(ids);
    var id :| IsLowest(ids, id);
    id
  }

  /** `claim` of the publication worker: the expired jobs, listed in some order, are
      failed; then the lowest queued job is taken. */
  ghost function ClaimPublish(p: Pond, order: seq<Id>, w: Settings, token: Token, now: Time): (Pond, Option<Claim>)
    requires JobsHaveRows(p) && forall j <- order :: j in p.jobs
  {
    var mid := FailAll(p, order, now);
    var queued := QueuedJobs(mid.jobs, now);
    if queued == {} then (mid, None) else TakeQueued(mid, Lowest(queued), w, token, now)
  }

  // ----- the resource plan and its journal --------------------------------------------------

  /** What the deployment adapter proposes for one VM role. */
  datatype Proposal = Proposal(role: string, node: string, vmid: nat, templateName: string, owned: bool)

  /** The last machine with this role, as a dictionary built in order keeps it. */
  function MachineFor(vms: seq<VmSpec>, role: string): (r: Option<VmSpec>)
    ensures r.Some? <==> role in Roles(vms)
    ensures r.Some? ==> r.value in vms && r.value.role == role
  {
    if vms == [] then None
    else
      var last := vms[|vms| - 1];
      assert vms == vms[..|vms| - 1] + [last];
      if last.role == role then Some(last) else MachineFor(vms[..|vms| - 1], role)
  }

  predicate NameOk(name: string) {
    1 <= |name| <= 100
  }

  predicate ProposalOk(vms: seq<VmSpec>, earlier: seq<Proposal>, x: Proposal) {
    && x.role in Roles(vms)
    && (forall e <- earlier :: e.role != x.role && e.vmid != x.vmid)
    && 100 <= x.vmid <= 999999999
    && x.owned == MachineFor(vms, x.role).value.source.Image?
    && NameOk(x.node) && NameOk(x.templateName)
  }

  predicate ProposalsOk(vms: seq<VmSpec>, xs: seq<Proposal>) {
    |xs| == |vms| && forall i :: 0 <= i < |xs| ==> ProposalOk(vms, xs[..i], xs[i])
  }

  function PlanOf(job: Id, x: Proposal): Plan {
    Plan(x.role, x.node, x.vmid, x.templateName, x.owned, (job, x.role), Planned, None)
  }

  function ProposalOf(x: Plan): Proposal {
    Proposal(x.role, x.node, x.vmid, x.templateName, x.owned)
  }

  function Plans(job: Id, xs: seq<Proposal>): seq<Plan> {
    seq(|xs|, i requires 0 <= i < |xs| => PlanOf(job, xs[i]))
  }

  function Proposals(journal: seq<Plan>): seq<Proposal> {
    seq(|journal|, i requires 0 <= i < |journal| => ProposalOf(journal[i]))
  }

  /** A recovered journal is the checked plan of this job, apart from progress. */
  predicate JournalOk(vms: seq<VmSpec>, job: Id, journal: seq<Plan>) {
    && ProposalsOk(vms, Proposals(journal))
    && forall x <- journal :: x.operation == (job, x.role)
  }

  function Vmids(journal: seq<Plan>): set<nat> {
    set x | x in journal :: x.vmid
  }

  predicate VmidsLive(templates: map<Id, Template>, vmids: set<nat>) {
    exists t <- templates :: templates[t].vmid in vmids
  }

  predicate VmidsReserved(jobs: map<Id, Job>, id: Id, vmids: set<nat>) {
    exists j <- jobs :: j != id && jobs[j].key.action == Publish && exists x <- jobs[j].journal :: x.vmid in vmids
  }

  function AtStage(p: Pond, token: Token, stage: Stage): Pond
    requires token in p.runs
  {
    p.(runs := p.runs[token := p.runs[token].(stage := stage)])
  }

  /** First session of `_journal`: an existing journal is checked and kept, otherwise
      the worker goes on to plan. */
  function ReadJournal(p: Pond, c: Claim, m: Manifest, now: Time): Outcome<seq<Plan>> {
    if !Owns(p, Publish, c, now) || c.token !in p.runs then Refused(LeaseLost)
    else
      var journal := p.jobs[c.job].journal;
      if journal == [] then Committed(AtStage(p, c.token, Planning), [])
      else if !JournalOk(m.vms, c.job, journal) then Refused(Unsafe)
      else Committed(AtStage(p, c.token, Prepared), journal)
  }

  /** Second session of `_journal`: the adapter's plan is frozen unless it collides. */
  function WriteJournal(p: Pond, c: Claim, m: Manifest, xs: seq<Proposal>, now: Time): Outcome<seq<Plan>> {
    if !ProposalsOk(m.vms, xs) then Refused(Unsafe)
    else if !Owns(p, Publish, c, now) || c.token !in p.runs then Refused(LeaseLost)
    else
      var journal := Plans(c.job, xs);
      if VmidsLive(p.templates, Vmids(journal)) then Refused(Unsafe)
      else if VmidsReserved(p.jobs, c.job, Vmids(journal)) then Refused(Unsafe)
      else
        var q := AtStage(p, c.token, Prepared);
        Committed(q.(jobs := q.jobs[c.job := q.jobs[c.job].(journal := journal)]), journal)
  }

  /** The first entry of the role gets the new state, and the task when one is given. */
  function Marked(journal: seq<Plan>, role: string, state: PlanState, task: Option<string>): (r: seq<Plan>)
    ensures |r| == |journal|
  {
    if journal == [] then []
    else if journal[0].role == role then
      [journal[0].(state := state, task := if task.Some? then task else journal[0].task)] + journal[1..]
    else [journal[0]] + Marked(journal[1..], role, state, task)
  }

  function Checkpoint(p: Pond, c: Claim, role: string, state: PlanState, task: Option<string>, now: Time): Outcome<()> {
    if state == Planned || (task.Some? && |task.value| > 255) then Refused(Unsafe)
    else if !Owns(p, Publish, c, now) then Refused(LeaseLost)
    else
      var job := p.jobs[c.job];
      if forall x <- job.journal :: x.role != role then Refused(Unsafe)
      else Committed(p.(jobs := p.jobs[c.job := job.(journal := Marked(job.journal, role, state, task))]), ())
  }

  // ----- examining, going live, failing a run --------------------------------------------

  /** The run reads the approved revision; `report` is what revalidation then says. */
  function ExaminePublish(p: Pond, c: Claim, report: seq<Finding>, now: Time): Outcome<Snapshot> {
    if !Owns(p, Publish, c, now) || c.token !in p.runs || c.submission !in p.submissions then Refused(LeaseLost)
    else if !ApprovalStands(p, c.submission) || report != [] then Refused(NotAuthorized)
    else
      var snapshot := SnapshotOf(p, c.submission, p.submissions[c.submission].approval);
      Committed(p.(runs := p.runs[c.token := p.runs[c.token].(stage := Examined, snapshot := Some(snapshot))]),
                snapshot)
  }

  function TemplateOf(x: Plan, vm: VmSpec): Template {
    Template(x.templateName, x.vmid, x.node, vm.cpu, vm.memory, vm.disk, true)
  }

  /** Every role the new records look up is there: plan roles among the machines, flag
      roles among the plans. */
  predicate LookupsDefined(m: Manifest, journal: seq<Plan>) {
    && (forall x <- journal :: x.role in Roles(m.vms))
    && (forall f <- m.flags :: f.vmRole.Some? ==> exists x <- journal :: x.role == f.vmRole.value)
  }

  function LiveTemplate(vms: seq<VmSpec>, x: Plan): Template
    requires x.role in Roles(vms)
  {
    TemplateOf(x, MachineFor(vms, x.role).value)
  }

  function TemplateRows(vms: seq<VmSpec>, journal: seq<Plan>): (r: seq<Template>)
    requires forall x <- journal :: x.role in Roles(vms)
    ensures |r| == |journal|
  {
    seq(|journal|, i requires 0 <= i < |journal| => LiveTemplate(vms, journal[i]))
  }

  /** Template rows for the journal, numbered from `base` in journal order. */
  function NewTemplates(vms: seq<VmSpec>, journal: seq<Plan>, base: Id): (r: map<Id, Template>)
    requires forall x <- journal :: x.role in Roles(vms)
    ensures forall t :: t in r <==> base <= t < base + |journal|
  {
    Numbered(TemplateRows(vms, journal), base)
  }

  predicate HasRole(journal: seq<Plan>, role: string) {
    exists x <- journal :: x.role == role
  }

  /** The last entry of the role, which a dictionary built in order keeps. */
  function PlanIndex(journal: seq<Plan>, role: string): (i: nat)
    requires HasRole(journal, role)
    ensures i < |journal| && journal[i].role == role
  {
    var n := |journal| - 1;
    if journal[n].role == role then n
    else
      assert journal == journal[..n] + [journal[n]];
      PlanIndex(journal[..n], role)
  }

  function NewAssignments(m: Manifest, journal: seq<Plan>, base: Id): seq<Assignment>
    requires LookupsDefined(m, journal)
  {
    seq(|journal|, i requires 0 <= i < |journal| =>
      var vm := MachineFor(m.vms, journal[i].role).value;
      Assignment(vm.role, base + i, vm.bootOrder, vm.accessible))
    + (if m.workstation.Some? then [Assignment("workstation", m.workstation.value, 1, true)] else [])
  }

  function NewFlag(journal: seq<Plan>, base: Id, f: Flag): LiveFlag
    requires f.vmRole.Some? ==> exists x <- journal :: x.role == f.vmRole.value
  {
    LiveFlag(if f.vmRole.Some? then Some(base + PlanIndex(journal, f.vmRole.value)) else None,
             f.name, f.hash, f.points, f.sequence)
  }

  function NewChallenge(m: Manifest, journal: seq<Plan>, base: Id, owner: Id): Challenge
    requires LookupsDefined(m, journal)
  {
    Challenge(m.title, m.text, VmBased(m), owner, NewAssignments(m, journal, base),
              seq(|m.flags|, i requires 0 <= i < |m.flags| => NewFlag(journal, base, m.flags[i])), m.rules)
  }

  /** The rows `_commit_live` adds and changes once every check has passed. */
  function GoLive(p: Pond, c: Claim, m: Manifest, now: Time): Pond
    requires c.job in p.jobs && c.submission in p.submissions && LookupsDefined(m, p.jobs[c.job].journal)
    requires p.submissions[c.submission].digest.Some?
  {
    var job, row := p.jobs[c.job], p.submissions[c.submission];
    var challenge, base := p.next, p.next + 1;
    p.(challenges := p.challenges[challenge := NewChallenge(m, job.journal, base, row.owner)],
       templates := p.templates + NewTemplates(m.vms, job.journal, base),
       submissions := p.submissions[c.submission := row.(status := Published, challenge := Some(challenge))],
       jobs := p.jobs[c.job := job.(status := Succeeded, completedAt := Some(now), lease := None)],
       audit := LogAdmin(p, job.requestedBy, c.submission, SubmissionPublished(c.job, challenge, row.digest.value)),
       outbox := p.outbox + [Notice(c.submission, row.owner, Published, PublishedNotice(c.submission))],
       next := base + |job.journal|)
  }

  predicate WorkstationOk(p: Pond, m: Manifest) {
    m.workstation.Some? ==> m.workstation.value in p.templates && p.templates[m.workstation.value].active
  }

  /** `_commit_live`: approval, content, readiness and collisions are checked once more. */
  function CommitLive(p: Pond, c: Claim, seen: Snapshot, m: Manifest, now: Time): Outcome<Id> {
    if !Owns(p, Publish, c, now) || c.submission !in p.submissions then Refused(LeaseLost)
    else
      var row, journal := p.submissions[c.submission], p.jobs[c.job].journal;
      if row.status != Importing || !ApprovalStands(p, c.submission)
         || SnapshotOf(p, c.submission, row.approval) != seen then Refused(NotAuthorized)
      else if |journal| != |m.vms| || exists x <- journal :: x.state != ReadyVm then Refused(NotReady)
      else if VmidsLive(p.templates, Vmids(journal)) then Refused(Unsafe)
      else if !LookupsDefined(m, journal) || !WorkstationOk(p, m) then Refused(Unsafe)
      else Committed(GoLive(p, c, m, now).(commits := p.commits + [c.token]), p.next)
  }

  /** The failure path of `run_once`. */
  function FailRun(p: Pond, c: Claim, now: Time): Outcome<()> {
    if !Owns(p, Publish, c, now) || c.submission !in p.submissions then Refused(LeaseLost)
    else if p.submissions[c.submission].status != Importing then Refused(LeaseLost)
    else Committed(FailJob(p, c.job, PublicationStopped, now).(commits := p.commits + [c.token]), ())
  }
}
