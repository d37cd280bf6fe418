/** The publication worker on the shared store: each transaction of
    challenge_ingestion/publication.py, statement by statement, proved against what
    module Publication says it does to the whole state. */
module PublishingWorker {
  import opened Schema
  import opened Store
  import opened Validation
  import opened Review
  import opened Worker
  import opened Publication

  /** `numbers` maps every role of the journal to the row number of its last entry. */
  ghost predicate NumbersFit(journal: seq<Plan>, base: Id, numbers: map<string, Id>) {
    forall role :: (role in numbers <==> HasRole(journal, role))
                   && (role in numbers ==> numbers[role] == base + PlanIndex(journal, role))
  }

  class PublicationWorker {
    const store: Store
    const settings: Settings

    constructor (store: Store, settings: Settings)
      ensures this.store == store && this.settings == settings
    {
      this.store, this.settings := store, settings;
    }

    // ----- queueing ------------------------------------------------------------------------

    method QueueSubmission(s: Id, actor: Id, expected: Option<Digest>, retry: bool, adapterReady: bool, now: Time)
      returns (r: Outcome<Id>)
      modifies store
      ensures r == Enqueue(old(store.pond), s, actor, expected, retry, adapterReady, now)
      ensures store.pond == if r.Committed? then r.pond else old(store.pond)
    {
      var p := store.pond;
      if !IsAdmin(p.users, actor) {
        return Refused(Forbidden);
      }
      if s !in p.submissions {
        return Refused(NotFound);
      }
      var row := p.submissions[s];
      if row.digest != expected {
        return Refused(Stale);
      }
      if !ApprovalStands(p, s) {
        return Refused(NotAuthorized);
      }
      if VmBased(row.manifest) && !adapterReady {
        return Refused(NotReady);
      }
      var found := JobFor(p, Publish, s);
      if row.status in {Published, Importing} && found.Some? {
        return Committed(p, found.value);
      }
      var id: Id;
      if row.status == ImportFailed {
        if !retry || found.None? || found.value !in p.jobs || p.jobs[found.value].status != Failed
           || p.jobs[found.value].attempts >= p.jobs[found.value].maxAttempts {
          return Refused(NotReady);
        }
        id := found.value;
        var job := p.jobs[id].(status := Queued);
        job := job.(availableAt := now, completedAt := None);
        p := p.(jobs := p.jobs[id := job]);
      } else if row.status == Approved && found.None? {
        if AnyActive(p.jobs, s) {
          return Refused(NotReady);
        }
        id := p.next;
        p := p.(jobs := p.jobs[id := NewJob(JobKey(Publish, s), actor, now)], keys := p.keys[JobKey(Publish, s) := id]);
        p := p.(next := id + 1);
      } else {
        return Refused(NotReady);
      }
      p := p.(submissions := p.submissions[s := row.(status := Importing)]);
      p := p.(audit := LogAdmin(p, actor, s, PublicationQueued(id, retry)));
      assert row.status == ImportFailed ==> retry;
      store.pond := p;
      return Committed(p, id);
    }

    method ReturnSubmission(s: Id, actor: Id, expected: Option<Digest>, note: string) returns (r: Outcome<()>)
      modifies store
      ensures r == ReturnForCorrection(old(store.pond), s, actor, expected, note)
      ensures store.pond == if r.Committed? then r.pond else old(store.pond)
    {
      var p := store.pond;
      if note == "" || |note| > MAX_NOTE {
        return Refused(Invalid);
      }
      if !IsAdmin(p.users, actor) {
        return Refused(Forbidden);
      }
      if s !in p.submissions {
        return Refused(NotFound);
      }
      var row := p.submissions[s];
      if row.status != ImportFailed || row.digest != expected {
        return Refused(Stale);
      }
      var found := JobFor(p, Publish, s);
      if found.None? || found.value !in p.jobs || p.jobs[found.value].status != Failed || AnyActive(p.jobs, s) {
        return Refused(NotReady);
      }
      row := row.(status := Rejected);
      row := row.(approval := None);
      p := p.(submissions := p.submissions[s := row]);
      p := p.(audit := LogAdmin(p, actor, s, PublicationReturned(found.value)));
      p := p.(outbox := p.outbox + [Notice(s, row.owner, Rejected, ReturnedForCorrection(s))]);
      store.pond := p;
      return Committed(p, ());
    }

    // ----- failing and claiming --------------------------------------------------------------

    method StopJob(id: Id, code: FailureCode, now: Time)
      requires id in store.pond.jobs && store.pond.jobs[id].key.submission in store.pond.submissions
      modifies store
      ensures store.pond == FailJob(old(store.pond), id, code, now)
    {
      var p := store.pond;
      var job := p.jobs[id];
      var s := job.key.submission;
      var row := p.submissions[s];
      job := job.(status := Failed);
      job := job.(completedAt := Some(now));
      job := job.(lease := None);
      row := row.(status := ImportFailed);
      p := p.(jobs := p.jobs[id := job], submissions := p.submissions[s := row]);
      p := p.(audit := p.audit + [Audit(None, s, PublicationFailed(id, job.attempts, code), false)]);
      p := p.(outbox := p.outbox + [Notice(s, row.owner, ImportFailed, PublishFailed(id, job.attempts))]);
      store.pond := p;
    }

    /** The first query of `claim`: the expired running jobs, listed once each. */
    method ListExpired(now: Time) returns (order: seq<Id>)
      ensures Lists(order, ExpiredJobs(store.pond.jobs, now))
    {
      order := [];
      var jobs := store.pond.jobs;
      var todo := jobs.Keys;
      while todo != {}
        invariant todo <= jobs.Keys
        invariant Lists(order, ExpiredJobs(jobs, now) - todo)
        decreases |todo|
      {
        var j :| j in todo;
        ghost var before := order;
        if Expired(jobs[j], now) {
          order := order + [j];
        }
        todo := todo - {j};
        ListMore(before, ExpiredJobs(jobs, now) - (todo + {j}), j);
        assert ExpiredJobs(jobs, now) - todo
            == (ExpiredJobs(jobs, now) - (todo + {j})) + if Expired(jobs[j], now) then {j} else {};
      }
      assert ExpiredJobs(jobs, now) - {} == ExpiredJobs(jobs, now);
    }

    /** The second query of `claim`: the queued job with the lowest number. */
    method LowestOf(ids: set<Id>) returns (id: Option<Id>)
      ensures id.None? <==> ids == {}
      ensures id.Some? ==> IsLowest(ids, id.value)
    {
      var todo := ids;
      ghost var seen: set<Id> := {};
      id := None;
      hide IsLowest;
      while todo != {}
        invariant seen + todo == ids && seen !! todo
        invariant id.None? <==> seen == {}
        invariant id.Some? ==> IsLowest(seen, id.value)
        decreases |todo|
      {
        var j :| j in todo;
        if id.None? {
          id := Some(j);
          LowestAlone(j);
          assert seen + {j} == {j};
        } else {
          LowestStep(seen, id.value, j);
          if j < id.value {
            id := Some(j);
          }
        }
        todo := todo - {j};
        seen := seen + {j};
      }
      assert seen == ids;
    }

    method FailExpired(order: seq<Id>, now: Time)
      requires JobsHaveRows(store.pond) && forall j <- order :: j in store.pond.jobs
      modifies store
      ensures JobsHaveRows(store.pond)
      ensures store.pond == FailAll(old(store.pond), order, now)
    {
      ghost var start := store.pond;
      for i := 0 to |order|
        invariant JobsHaveRows(store.pond) && store.pond.jobs.Keys == start.jobs.Keys
        invariant FailAll(start, order, now) == FailAll(store.pond, order[i..], now)
      {
        assert order[i..][0] == order[i] && order[i..][1..] == order[i + 1..] && order[i] in order;
        var s := store.pond.jobs[order[i]].key.submission;
        if store.pond.submissions[s].status == Importing {
          StopJob(order[i], LeaseExpiredReconcile, now);
        }
      }
      assert order[|order|..] == [];
    }

    method TakeJob(id: Id, token: Token, now: Time) returns (claim: Option<Claim>)
      requires id in store.pond.jobs && store.pond.jobs[id].key.submission in store.pond.submissions
      modifies store
      ensures (store.pond, claim) == TakeQueued(old(store.pond), id, settings, token, now)
    {
      var job := store.pond.jobs[id];
      var s := job.key.submission;
      if store.pond.submissions[s].status != Importing {
        job := job.(status := Cancelled, completedAt := Some(now));
        store.pond := store.pond.(jobs := store.pond.jobs[id := job]);
        return None;
      }
      if job.attempts >= job.maxAttempts {
        StopJob(id, AttemptLimit, now);
        return None;
      }
      job := job.(status := Running, attempts := job.attempts + 1);
      job := job.(lease := Some(Lease(token, settings.worker, now + settings.leaseSeconds)));
      store.pond := store.pond.(jobs := store.pond.jobs[id := job],
                                runs := store.pond.runs[token := Run(id, job.attempts, Claimed, None)]);
      return Some(Held(id, s, token));
    }

    /** `claim`: expired imports are failed in some order, then at most one job is taken. */
    method ClaimJob(token: Token, now: Time) returns (claim: Option<Claim>, order: seq<Id>)
      requires JobsHaveRows(store.pond)
      modifies store
      ensures Lists(order, ExpiredJobs(old(store.pond).jobs, now)) && forall j <- order :: j in old(store.pond).jobs
      ensures (store.pond, claim) == ClaimPublish(old(store.pond), order, settings, token, now)
    {
      hide Lists, TakeQueued, FailAll;
      order := ListExpired(now);
      ListedExist(store.pond.jobs, order, now);
      FailExpired(order, now);
      var queued := QueuedJobs(store.pond.jobs, now);
      var found := LowestOf(queued);
      if found.None? {
        return None, order;
      }
      LowestUnique(queued, found.value);
      claim := TakeJob(found.value, token, now);
    }

    // ----- the plan and its journal -------------------------------------------------------------

    /** `_plans`: the whole list is checked, then it becomes a fresh journal. */
    method CheckPlans(vms: seq<VmSpec>, xs: seq<Proposal>, job: Id) returns (r: Option<seq<Plan>>)
      ensures r.Some? <==> ProposalsOk(vms, xs)
      ensures r.Some? ==> r.value == Plans(job, xs)
    {
      if |xs| != |vms| {
        return None;
      }
      var roles: set<string>, vmids: set<nat>, result: seq<Plan> := {}, {}, [];
      for i := 0 to |xs|
        invariant roles == set x | x in xs[..i] :: x.role
        invariant vmids == set x | x in xs[..i] :: x.vmid
        invariant forall k :: 0 <= k < i ==> ProposalOk(vms, xs[..k], xs[k])
        invariant result == Plans(job, xs[..i])
      {
        var x := xs[i];
        assert xs[..i + 1] == xs[..i] + [x];
        var machine := MachineFor(vms, x.role);
        if machine.None? || x.role in roles || !(100 <= x.vmid <= 999999999) || x.vmid in vmids
           || x.owned != machine.value.source.Image? || !NameOk(x.node) || !NameOk(x.templateName) {
          assert !ProposalOk(vms, xs[..i], xs[i]);
          return None;
        }
        roles, vmids := roles + {x.role}, vmids + {x.vmid};
        result := result + [PlanOf(job, x)];
        assert result == Plans(job, xs[..i + 1]);
      }
      assert xs[..|xs|] == xs;
      return Some(result);
    }

    /** First session of `_journal`. */
    method RecoverJournal(c: Claim, m: Manifest, now: Time) returns (r: Outcome<seq<Plan>>)
      modifies store
      ensures r == ReadJournal(old(store.pond), c, m, now)
      ensures store.pond == if r.Committed? then r.pond else old(store.pond)
    {
      if !Owns(store.pond, Publish, c, now) || c.token !in store.pond.runs {
        return Refused(LeaseLost);
      }
      var journal := store.pond.jobs[c.job].journal;
      if journal == [] {
        store.pond := AtStage(store.pond, c.token, Planning);
        return Committed(store.pond, []);
      }
      var checked := CheckPlans(m.vms, Proposals(journal), c.job);
      if checked.None? {
        return Refused(Unsafe);
      }
      for i := 0 to |journal|
        invariant forall k :: 0 <= k < i ==> journal[k].operation == (c.job, journal[k].role)
      {
        assert checked.value[i] == PlanOf(c.job, Proposals(journal)[i]);
        if journal[i].operation != checked.value[i].operation {
          assert journal[i] in journal;
          return Refused(Unsafe);
        }
      }
      store.pond := AtStage(store.pond, c.token, Prepared);
      return Committed(store.pond, journal);
    }

    /** Second session of `_journal`: `xs` is what the adapter planned. */
    method FreezeJournal(c: Claim, m: Manifest, xs: seq<Proposal>, now: Time) returns (r: Outcome<seq<Plan>>)
      modifies store
      ensures r == WriteJournal(old(store.pond), c, m, xs, now)
      ensures store.pond == if r.Committed? then r.pond else old(store.pond)
    {
      var planned := CheckPlans(m.vms, xs, c.job);
      if planned.None? {
        return Refused(Unsafe);
      }
      if !Owns(store.pond, Publish, c, now) || c.token !in store.pond.runs {
        return Refused(LeaseLost);
      }
      var vmids := Vmids(planned.value);
      if VmidsLive(store.pond.templates, vmids) {
        return Refused(Unsafe);
      }
      var todo := store.pond.jobs.Keys;
      while todo != {}
        invariant todo <= store.pond.jobs.Keys
        invariant forall j <- store.pond.jobs ::
                  j !in todo && j != c.job && store.pond.jobs[j].key.action == Publish ==>
                    forall x <- store.pond.jobs[j].journal :: x.vmid !in vmids
        decreases |todo|
      {
        var j :| j in todo;
        todo := todo - {j};
        if j != c.job && store.pond.jobs[j].key.action == Publish {
          if exists x <- store.pond.jobs[j].journal :: x.vmid in vmids {
            return Refused(Unsafe);
          }
        }
      }
      var p := AtStage(store.pond, c.token, Prepared);
      store.pond := p.(jobs := p.jobs[c.job := p.jobs[c.job].(journal := planned.value)]);
      return Committed(store.pond, planned.value);
    }

    /** `checkpoint`: the first entry of the role is found and rewritten. */
    method MarkEntry(c: Claim, role: string, state: PlanState, task: Option<string>, now: Time) returns (r: Outcome<()>)
      modifies store
      ensures r == Checkpoint(old(store.pond), c, role, state, task, now)
      ensures store.pond == if r.Committed? then r.pond else old(store.pond)
    {
      if state == Planned || (task.Some? && |task.value| > 255) {
        return Refused(Unsafe);
      }
      if !Owns(store.pond, Publish, c, now) {
        return Refused(LeaseLost);
      }
      var job := store.pond.jobs[c.job];
      var journal := job.journal;
      var i := 0;
      while i < |journal| && journal[i].role != role
        invariant i <= |journal| && forall k :: 0 <= k < i ==> journal[k].role != role
      {
        i := i + 1;
      }
      if i == |journal| {
        return Refused(Unsafe);
      }
      MarkedAt(journal, i, role, state, task);
      assert journal[i] in journal;
      ghost var before := journal;
      journal := journal[i := journal[i].(state := state)];
      if task.Some? {
        journal := journal[i := journal[i].(task := task)];
      }
      assert journal == Marked(before, role, state, task);
      store.pond := store.pond.(jobs := store.pond.jobs[c.job := job.(journal := journal)]);
      return Committed(store.pond, ());
    }

    // ----- going live --------------------------------------------------------------------------

    /** New template rows in journal order, and the last row number for each role. */
    method AddTemplates(vms: seq<VmSpec>, journal: seq<Plan>, base: Id)
      returns (rows: map<Id, Template>, numbers: map<string, Id>)
      requires forall x <- journal :: x.role in Roles(vms)
      ensures rows == NewTemplates(vms, journal, base)
      ensures NumbersFit(journal, base, numbers)
    {
      hide LiveTemplate, NewTemplates, NumbersFit;
      NothingNumbered(base);
      NoTemplates(vms, base);
      assert journal[..0] == [];
      rows, numbers := map[], map[];
      for i := 0 to |journal|
        invariant forall x <- journal[..i] :: x.role in Roles(vms)
        invariant rows == NewTemplates(vms, journal[..i], base)
        invariant NumbersFit(journal[..i], base, numbers)
      {
        var plan := journal[i];
        assert plan in journal;
        TemplatesGrow(vms, journal, i, base);
        NumbersGrow(journal, i, base, numbers);
        rows := rows[base + i := LiveTemplate(vms, plan)];
        numbers := numbers[plan.role := base + i];
      }
      assert journal[..|journal|] == journal;
    }

    method AddFlags(m: Manifest, journal: seq<Plan>, base: Id, numbers: map<string, Id>) returns (flags: seq<LiveFlag>)
      requires LookupsDefined(m, journal)
      requires NumbersFit(journal, base, numbers)
      ensures |flags| == |m.flags| && forall i :: 0 <= i < |flags| ==> flags[i] == NewFlag(journal, base, m.flags[i])
    {
      flags := [];
      for i := 0 to |m.flags|
        invariant |flags| == i && forall k :: 0 <= k < i ==> flags[k] == NewFlag(journal, base, m.flags[k])
      {
        var f := m.flags[i];
        assert f in m.flags;
        var template := if f.vmRole.Some? then Some(numbers[f.vmRole.value]) else None;
        flags := flags + [LiveFlag(template, f.name, f.hash, f.points, f.sequence)];
      }
    }

    method AddAssignments(m: Manifest, journal: seq<Plan>, base: Id) returns (rows: seq<Assignment>)
      requires LookupsDefined(m, journal)
      ensures rows == NewAssignments(m, journal, base)
    {
      rows := [];
      for i := 0 to |journal|
        invariant |rows| == i
        invariant forall k :: 0 <= k < i ==>
                    var vm := MachineFor(m.vms, journal[k].role).value;
                    rows[k] == Assignment(vm.role, base + k, vm.bootOrder, vm.accessible)
      {
        assert journal[i] in journal;
        var vm := MachineFor(m.vms, journal[i].role).value;
        rows := rows + [Assignment(vm.role, base + i, vm.bootOrder, vm.accessible)];
      }
      if m.workstation.Some? {
        rows := rows + [Assignment("workstation", m.workstation.value, 1, true)];
      }
    }

    /** The rows of the new challenge. */
    method BuildChallenge(m: Manifest, journal: seq<Plan>, base: Id, owner: Id)
      returns (made: Challenge, rows: map<Id, Template>)
      requires LookupsDefined(m, journal)
      ensures made == NewChallenge(m, journal, base, owner) && rows == NewTemplates(m.vms, journal, base)
    {
      var numbers;
      rows, numbers := AddTemplates(m.vms, journal, base);
      var assignments := AddAssignments(m, journal, base);
      var flags := AddFlags(m, journal, base, numbers);
      made := Challenge(m.title, m.text, VmBased(m), owner, assignments, flags, m.rules);
      assert flags == NewChallenge(m, journal, base, owner).flags;
    }

    /** Every check of `_commit_live`, in order. */
    method MayGoLive(c: Claim, seen: Snapshot, m: Manifest, now: Time) returns (problem: Option<Refusal>)
      ensures problem.None? <==> CommitLive(store.pond, c, seen, m, now).Committed?
      ensures problem.Some? ==> CommitLive(store.pond, c, seen, m, now) == Refused(problem.value)
    {
      hide GoLive, ApprovalStands, SnapshotOf, VmidsLive, LookupsDefined, WorkstationOk;
      var p := store.pond;
      if !Owns(p, Publish, c, now) || c.submission !in p.submissions {
        return Some(LeaseLost);
      }
      var row, journal := p.submissions[c.submission], p.jobs[c.job].journal;
      if row.status != Importing || !ApprovalStands(p, c.submission)
         || SnapshotOf(p, c.submission, row.approval) != seen {
        return Some(NotAuthorized);
      }
      if |journal| != |m.vms| || exists x <- journal :: x.state != ReadyVm {
        return Some(NotReady);
      }
      if VmidsLive(p.templates, Vmids(journal)) {
        return Some(Unsafe);
      }
      if !LookupsDefined(m, journal) || !WorkstationOk(p, m) {
        return Some(Unsafe);
      }
      return None;
    }

    /** `_commit_live`. */
    method PutLive(c: Claim, seen: Snapshot, m: Manifest, now: Time) returns (r: Outcome<Id>)
      modifies store
      ensures r == CommitLive(old(store.pond), c, seen, m, now)
      ensures store.pond == if r.Committed? then r.pond else old(store.pond)
    {
      var problem := MayGoLive(c, seen, m, now);
      if problem.Some? {
        return Refused(problem.value);
      }
      LiveFacts(store.pond, c, seen, m, now);
      hide ApprovalStands, SnapshotOf, VmidsLive, LookupsDefined, WorkstationOk, NewChallenge, NewTemplates,
        CommitLive, GoLive;
      ghost var before := store.pond;
      var p := store.pond;
      var job, row, challenge := p.jobs[c.job], p.submissions[c.submission], p.next;
      var made, templates := BuildChallenge(m, job.journal, challenge + 1, row.owner);
      p := p.(challenges := p.challenges[challenge := made], templates := p.templates + templates);
      p := p.(submissions := p.submissions[c.submission := row.(status := Published, challenge := Some(challenge))],
              jobs := p.jobs[c.job := job.(status := Succeeded, completedAt := Some(now), lease := None)]);
      p := p.(audit := LogAdmin(p, job.requestedBy, c.submission,
                                SubmissionPublished(c.job, challenge, row.digest.value)),
              outbox := p.outbox + [Notice(c.submission, row.owner, Published, PublishedNotice(c.submission))],
              next := challenge + 1 + |job.journal|);
      GoLiveIs(before, p, c, m, now);
      store.pond := p.(commits := p.commits + [c.token]);
      return Committed(store.pond, challenge);
    }

    /** What `run_once` does when anything went wrong. */
    method StopRun(c: Claim, now: Time) returns (r: Outcome<()>)
      modifies store
      ensures r == FailRun(old(store.pond), c, now)
      ensures store.pond == if r.Committed? then r.pond else old(store.pond)
    {
      if !Owns(store.pond, Publish, c, now) || c.submission !in store.pond.submissions {
        return Refused(LeaseLost);
      }
      if store.pond.submissions[c.submission].status != Importing {
        return Refused(LeaseLost);
      }
      StopJob(c.job, PublicationStopped, now);
      store.pond := store.pond.(commits := store.pond.commits + [c.token]);
      return Committed(store.pond, ());
    }
  }

  // ----- about the loops ---------------------------------------------------------------------------

  lemma LiveFacts(p: Pond, c: Claim, seen: Snapshot, m: Manifest, now: Time)
    requires CommitLive(p, c, seen, m, now).Committed?
    ensures c.job in p.jobs && c.submission in p.submissions && LookupsDefined(m, p.jobs[c.job].journal)
    ensures p.submissions[c.submission].digest.Some?
    ensures CommitLive(p, c, seen, m, now) == Committed(GoLive(p, c, m, now).(commits := p.commits + [c.token]), p.next)
  {
    hide SnapshotOf, VmidsLive, LookupsDefined, WorkstationOk, GoLive;
  }

  /** The rows written one after the other are those of going live. */
  lemma GoLiveIs(p: Pond, q: Pond, c: Claim, m: Manifest, now: Time)
    requires c.job in p.jobs && c.submission in p.submissions && LookupsDefined(m, p.jobs[c.job].journal)
    requires p.submissions[c.submission].digest.Some?
    requires var job, row := p.jobs[c.job], p.submissions[c.submission];
             q == p.(challenges := p.challenges[p.next := NewChallenge(m, job.journal, p.next + 1, row.owner)],
                     templates := p.templates + NewTemplates(m.vms, job.journal, p.next + 1),
                     submissions := p.submissions[c.submission := row.(status := Published, challenge := Some(p.next))],
                     jobs := p.jobs[c.job := job.(status := Succeeded, completedAt := Some(now), lease := None)],
                     audit := LogAdmin(p, job.requestedBy, c.submission,
                                       SubmissionPublished(c.job, p.next, row.digest.value)),
                     outbox := p.outbox + [Notice(c.submission, row.owner, Published, PublishedNotice(c.submission))],
                     next := p.next + 1 + |job.journal|)
    ensures q == GoLive(p, c, m, now)
  {
    hide LookupsDefined, NewChallenge, NewTemplates, LogAdmin;
  }

  lemma ListMore(order: seq<Id>, ids: set<Id>, j: Id)
    requires Lists(order, ids) && j !in ids
    ensures Lists(order + [j], ids + {j}) && Lists(order, ids + {})
  {
    assert forall k <- order :: k in ids by {
      assert (set k | k in order) == ids;
      forall k <- order ensures k in ids {
        assert k in (set x | x in order);
      }
    }
    assert ids + {} == ids;
    assert (set k | k in order + [j]) == ids + {j};
  }

  lemma ListedExist(jobs: map<Id, Job>, order: seq<Id>, now: Time)
    requires Lists(order, ExpiredJobs(jobs, now))
    ensures forall j <- order :: j in jobs
  {
    forall j <- order ensures j in jobs {
      assert j in ExpiredJobs(jobs, now);
    }
  }

  lemma LowestUnique(ids: set<Id>, id: Id)
    requires IsLowest(ids, id)
    ensures Lowest(ids) == id
  {
  }

  lemma {:induction false} MarkedAt(journal: seq<Plan>, i: nat, role: string, state: PlanState, task: Option<string>)
    requires i < |journal| && journal[i].role == role && forall k :: 0 <= k < i ==> journal[k].role != role
    ensures Marked(journal, role, state, task)
         == journal[i := journal[i].(state := state, task := if task.Some? then task else journal[i].task)]
  {
    if i > 0 {
      MarkedAt(journal[1..], i - 1, role, state, task);
    }
  }

  lemma TemplatesGrow(vms: seq<VmSpec>, journal: seq<Plan>, n: nat, base: Id)
    requires n < |journal| && (forall x <- journal :: x.role in Roles(vms))
    ensures forall x <- journal[..n + 1] :: x.role in Roles(vms)
    ensures NewTemplates(vms, journal[..n + 1], base)
         == NewTemplates(vms, journal[..n], base)[base + n := LiveTemplate(vms, journal[n])]
  {
    hide Roles;
    var rows := TemplateRows(vms, journal[..n + 1]);
    assert rows[..n] == TemplateRows(vms, journal[..n]);
  }

  lemma RoleGrows(journal: seq<Plan>, n: nat, role: string)
    requires n < |journal|
    ensures HasRole(journal[..n + 1], role) <==> HasRole(journal[..n], role) || role == journal[n].role
    ensures HasRole(journal[..n + 1], role) ==>
              PlanIndex(journal[..n + 1], role) == if role == journal[n].role then n else PlanIndex(journal[..n], role)
  {
    var longer, shorter := journal[..n + 1], journal[..n];
    assert longer == shorter + [journal[n]] && longer[..n] == shorter;
    assert journal[n] in longer;
    if x :| x in shorter && x.role == role {
      assert x in longer;
    }
    if x :| x in longer && x.role == role {
      assert x in shorter || x == journal[n];
    }
  }

  lemma NothingNumbered(base: Id)
    ensures NumbersFit([], base, map[])
  {
  }

  lemma NoTemplates(vms: seq<VmSpec>, base: Id)
    ensures NewTemplates(vms, [], base) == map[]
  {
  }

  lemma NumbersGrow(journal: seq<Plan>, n: nat, base: Id, numbers: map<string, Id>)
    requires n < |journal| && NumbersFit(journal[..n], base, numbers)
    ensures NumbersFit(journal[..n + 1], base, numbers[journal[n].role := base + n])
  {
    hide HasRole, PlanIndex;
    var more := numbers[journal[n].role := base + n];
    forall role
      ensures (role in more <==> HasRole(journal[..n + 1], role))
              && (role in more ==> more[role] == base + PlanIndex(journal[..n + 1], role))
    {
      RoleGrows(journal, n, role);
    }
  }

  lemma LowestAlone(j: Id)
    ensures IsLowest({j}, j)
  {
  }

  lemma LowestStep(seen: set<Id>, id: Id, j: Id)
    requires IsLowest(seen, id)
    ensures IsLowest(seen + {j}, if j < id then j else id)
  {
  }
}
