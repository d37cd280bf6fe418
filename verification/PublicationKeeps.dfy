/** The publication worker's transactions keep the invariant. */
module PublicationKeeps {
  import opened Schema
  import opened Validation
  import opened Worker
  import opened Publication
  import opened Invariant
  import opened Frames

  // ----- a running import and its failure ---------------------------------------------------

  /** An active publication belongs to a submission that is importing. */
  lemma ActivePublication(s: Id, v: View)
    requires LocalOk(s, v) && v.pjob.Some? && Active(v.pjob.value.job.status)
    ensures v.row.status == Importing
  {
  }

  lemma FailedLocal(s: Id, v: View, id: Id, row: Submission, job: Job)
    requires LocalOk(s, v) && v.pjob.Some? && v.pjob.value.id == id && v.pjob.value.job.status == Running
    requires row == v.row.(status := ImportFailed)
    requires job.key.action == Publish && job.status == Failed
    requires job.attempts == v.pjob.value.job.attempts && job.journal == v.pjob.value.job.journal
    ensures LocalOk(s, AmendedView(v, row, id, job, {PublishFailed(id, job.attempts)}))
    ensures PublishFailed(id, job.attempts) !in v.keys
  {
    assert forall k <- v.keys :: NoticeFits(s, v, k);
    ActivePublication(s, v);
  }

  lemma FailAmends(p: Pond, id: Id, code: FailureCode, now: Time)
    requires Tables(p) && id in p.jobs && p.jobs[id].key.submission in p.submissions
    ensures var q, s := FailJob(p, id, code, now), p.jobs[id].key.submission;
            && Amends(p, q, s, id, q.submissions[s], q.jobs[id])
            && NewKeys(p.outbox, q.outbox) == {PublishFailed(id, p.jobs[id].attempts)}
  {
    hide RecordsOf;
  }

  /** A running import may fail, and its failure notice is new. */
  lemma FailKeeps(p: Pond, id: Id, code: FailureCode, now: Time)
    requires Inv(p) && id in p.jobs && p.jobs[id].key.action == Publish && p.jobs[id].status == Running
    ensures p.jobs[id].key.submission in p.submissions && Inv(FailJob(p, id, code, now))
  {
    hide LocalOk, Tables, Locals, LiveTemplates, Memories, Reservations, LeasesOk, ViewOf, TemplatesOk, UniqueNotices,
      Amends, KeysOf, AmendedView, NewKeys;
    var s := p.jobs[id].key.submission;
    PlaceView(p, s, id);
    LocalAt(p, s);
    var q := FailJob(p, id, code, now);
    FailedLocal(s, ViewOf(p, s), id, q.submissions[s], q.jobs[id]);
    FailAmends(p, id, code, now);
    AmendKeeps(p, q, s, id, q.submissions[s], q.jobs[id]);
  }

  /** Running jobs have importing submissions, so the sweep of `claim` fails them all. */
  lemma {:induction false} FailAllKeeps(p: Pond, order: seq<Id>, now: Time)
    requires Inv(p) && (forall j <- order :: j in p.jobs && Expired(p.jobs[j], now))
    requires forall i, k :: 0 <= i < k < |order| ==> order[i] != order[k]
    ensures JobsHaveRows(p) && Inv(FailAll(p, order, now))
    ensures FailAll(p, order, now).runs == p.runs
    decreases |order|
  {
    hide LocalOk, Tables, Locals, LiveTemplates, Memories, Reservations, LeasesOk, UniqueNotices;
    RowsForJobs(p);
    if order != [] {
      var id := order[0];
      ImportingRow(p, id);
      FailKeeps(p, id, LeaseExpiredReconcile, now);
      var q := FailJob(p, id, LeaseExpiredReconcile, now);
      forall j <- order[1..] ensures j in q.jobs && Expired(q.jobs[j], now) {
        assert j != id;
      }
      FailAllKeeps(q, order[1..], now);
    }
  }

  lemma ImportingRow(p: Pond, id: Id)
    requires Tables(p) && Locals(p) && id in p.jobs && p.jobs[id].key.action == Publish && Active(p.jobs[id].status)
    ensures p.jobs[id].key.submission in p.submissions
    ensures p.submissions[p.jobs[id].key.submission].status == Importing
    ensures p.jobs[id].status == Queued ==> p.jobs[id].attempts < p.jobs[id].maxAttempts
  {
    hide LocalOk, Tables, Locals, ViewOf;
    var s := p.jobs[id].key.submission;
    PlaceView(p, s, id);
    ActivePublication(s, ViewOf(p, s));
  }

  lemma RowsForJobs(p: Pond)
    requires Tables(p)
    ensures JobsHaveRows(p)
  {
  }

  // ----- claiming --------------------------------------------------------------------------------

  lemma ClaimedLocal(s: Id, v: View, id: Id, job: Job, templates: map<Id, Template>)
    requires LocalOk(s, v) && v.pjob.Some? && v.pjob.value.id == id && v.pjob.value.job.status == Queued
    requires job.key.action == Publish && job.status == Running && job.journal == v.pjob.value.job.journal
    requires job.attempts == v.pjob.value.job.attempts + 1
    ensures LocalOk(s, WithJob(v, id, job)) && TemplatesOk(templates, WithJob(v, id, job))
  {
    ActivePublication(s, v);
    assert forall k <- v.keys :: NoticeFits(s, v, k);
  }

  lemma IssuePublishKeeps(p: Pond, s: Id, id: Id, w: Settings, token: Token, now: Time)
    requires Inv(p) && id in p.jobs && p.jobs[id].key == JobKey(Publish, s) && p.jobs[id].status == Queued
    requires p.jobs[id].attempts < p.jobs[id].maxAttempts && token !in p.runs
    ensures Inv(IssuePublish(p, id, w, token, now))
  {
    hide LocalOk, Tables, Locals, LiveTemplates, Memories, Reservations, LeasesOk, UniqueNotices, ViewOf, TemplatesOk;
    var q := IssuePublish(p, id, w, token, now);
    PlaceView(p, s, id);
    SwapView(p, q, s, id, q.jobs[id]);
    ClaimedLocal(s, ViewOf(p, s), id, q.jobs[id], q.templates);
    HandOutKeeps(p, q, s, id, q.jobs[id], token);
  }

  /** The claim transaction keeps the invariant.  A queued import belongs to an importing
      submission and has attempts left, so nothing is cancelled and no limit is reached. */
  lemma ClaimPublishKeeps(p: Pond, order: seq<Id>, w: Settings, token: Token, now: Time)
    requires Inv(p) && Lists(order, ExpiredJobs(p.jobs, now)) && token !in p.runs
    ensures JobsHaveRows(p) && (forall j <- order :: j in p.jobs)
    ensures Inv(ClaimPublish(p, order, w, token, now).0)
  {
    hide LocalOk, Tables, Locals, LiveTemplates, Memories, Reservations, LeasesOk, UniqueNotices, FailAll,
      FailIfImporting;
    RowsForJobs(p);
    ListedAreExpired(p, order, now);
    FailAllKeeps(p, order, now);
    var mid := FailAll(p, order, now);
    var queued := QueuedJobs(mid.jobs, now);
    if queued != {} {
      var id := Lowest(queued);
      ImportingRow(mid, id);
      IssuePublishKeeps(mid, mid.jobs[id].key.submission, id, w, token, now);
    }
  }

  lemma ListedAreExpired(p: Pond, order: seq<Id>, now: Time)
    requires Lists(order, ExpiredJobs(p.jobs, now))
    ensures forall j <- order :: j in p.jobs && Expired(p.jobs[j], now)
  {
    forall j <- order ensures j in ExpiredJobs(p.jobs, now) {
      assert j in set k | k in order;
    }
  }

  // ----- queueing and returning --------------------------------------------------------------------

  lemma QueuedAgainLocal(s: Id, v: View, id: Id, row: Submission, job: Job)
    requires LocalOk(s, v) && v.row.status == ImportFailed && v.pjob.Some? && v.pjob.value.id == id
    requires row == v.row.(status := Importing)
    requires job.key.action == Publish && job.status == Queued
    requires job.attempts == v.pjob.value.job.attempts && job.journal == v.pjob.value.job.journal
    ensures LocalOk(s, AmendedView(v, row, id, job, {}))
  {
    assert forall k <- v.keys :: NoticeFits(s, v, k);
  }

  lemma QueueAgainKeeps(p: Pond, s: Id, id: Id, actor: Id, now: Time)
    requires Inv(p) && s in p.submissions && p.submissions[s].status == ImportFailed
    requires id in p.jobs && p.jobs[id].key == JobKey(Publish, s) && p.jobs[id].attempts < p.jobs[id].maxAttempts
    requires p.jobs[id].status == Failed
    ensures Inv(QueueAgain(p, s, id, actor, now))
  {
    hide LocalOk, Tables, Locals, LiveTemplates, Memories, Reservations, LeasesOk, ViewOf, TemplatesOk, UniqueNotices,
      KeysOf, AmendedView, RecordsOf;
    PlaceView(p, s, id);
    LocalAt(p, s);
    var q := QueueAgain(p, s, id, actor, now);
    QueuedAgainLocal(s, ViewOf(p, s), id, q.submissions[s], q.jobs[id]);
    AmendKeeps(p, q, s, id, q.submissions[s], q.jobs[id]);
  }

  lemma ReturnedLocal(s: Id, v: View, id: Id, row: Submission)
    requires LocalOk(s, v) && v.row.status == ImportFailed && v.pjob.Some? && v.pjob.value.id == id
    requires v.pjob.value.job.key.action == Publish
    requires row == v.row.(status := Rejected, approval := None)
    ensures LocalOk(s, AmendedView(v, row, id, v.pjob.value.job, {ReturnedForCorrection(s)}))
    ensures ReturnedForCorrection(s) !in v.keys
  {
    assert forall k <- v.keys :: NoticeFits(s, v, k);
  }

  lemma ReturnKeeps(p: Pond, s: Id, actor: Id, id: Id)
    requires Inv(p) && s in p.submissions && p.submissions[s].status == ImportFailed
    requires id in p.jobs && p.jobs[id].key == JobKey(Publish, s)
    ensures Inv(ReturnedPond(p, s, actor, id))
  {
    hide LocalOk, Tables, Locals, LiveTemplates, Memories, Reservations, LeasesOk, ViewOf, TemplatesOk, UniqueNotices,
      KeysOf, AmendedView, RecordsOf;
    PlaceView(p, s, id);
    LocalAt(p, s);
    var q := ReturnedPond(p, s, actor, id);
    ReturnedLocal(s, ViewOf(p, s), id, q.submissions[s]);
    assert q.jobs == p.jobs[id := p.jobs[id]];
    AmendKeeps(p, q, s, id, q.submissions[s], p.jobs[id]);
  }

  lemma QueuedFirstLocal(s: Id, v: View, row: Submission, id: Id, job: Job)
    requires LocalOk(s, v) && v.row.status == Approved && row == v.row.(status := Importing)
    requires job.key == JobKey(Publish, s) && job.status == Queued && job.journal == []
    ensures LocalOk(s, WithJob(v, id, job).(row := row)) && v.pjob.None?
  {
    assert forall k <- v.keys :: NoticeFits(s, v, k);
  }

  lemma QueueFirstKeeps(p: Pond, s: Id, actor: Id, retry: bool, now: Time)
    requires Inv(p) && s in p.submissions && p.submissions[s].status == Approved && JobFor(p, Publish, s).None?
    ensures Inv(QueueFirst(p, s, actor, retry, now))
  {
    hide LocalOk, Tables, Locals, LiveTemplates, Memories, Reservations, LeasesOk, ViewOf, TemplatesOk, UniqueNotices,
      RecordsOf;
    LocalAt(p, s);
    var q := QueueFirst(p, s, actor, retry, now);
    QueuedFirstLocal(s, ViewOf(p, s), q.submissions[s], p.next, q.jobs[p.next]);
    AddView(p, q, s, q.submissions[s], q.jobs[p.next]);
    AddKeeps(p, q, s, q.submissions[s], q.jobs[p.next]);
  }

  /** What an enqueue that commits has done. */
  lemma EnqueueCases(p: Pond, s: Id, actor: Id, expected: Option<Digest>, retry: bool, adapterReady: bool, now: Time)
    requires Enqueue(p, s, actor, expected, retry, adapterReady, now).Committed?
    ensures var r := Enqueue(p, s, actor, expected, retry, adapterReady, now);
            && s in p.submissions
            && (|| r.pond == p
                || (p.submissions[s].status == ImportFailed && JobFor(p, Publish, s) == Some(r.value)
                    && r.value in p.jobs
                    && p.jobs[r.value].status == Failed && p.jobs[r.value].attempts < p.jobs[r.value].maxAttempts
                    && r.pond == QueueAgain(p, s, r.value, actor, now))
                || (p.submissions[s].status == Approved && JobFor(p, Publish, s).None?
                    && r.pond == QueueFirst(p, s, actor, retry, now)))
  {
    hide ApprovalStands, AnyActive;
  }

  lemma IndexedKey(p: Pond, action: Action, s: Id)
    requires Tables(p) && JobFor(p, action, s).Some?
    ensures JobFor(p, action, s).value in p.jobs && p.jobs[JobFor(p, action, s).value].key == JobKey(action, s)
  {
  }

  lemma EnqueueKeeps(p: Pond, s: Id, actor: Id, expected: Option<Digest>, retry: bool, adapterReady: bool, now: Time)
    requires Inv(p) && Enqueue(p, s, actor, expected, retry, adapterReady, now).Committed?
    ensures Inv(Enqueue(p, s, actor, expected, retry, adapterReady, now).pond)
  {
    hide Tables, Locals, LiveTemplates, Memories, Reservations, LeasesOk, UniqueNotices, Enqueue, JobFor;
    EnqueueCases(p, s, actor, expected, retry, adapterReady, now);
    var r := Enqueue(p, s, actor, expected, retry, adapterReady, now);
    if r.pond != p {
      if p.submissions[s].status == ImportFailed {
        IndexedKey(p, Publish, s);
        QueueAgainKeeps(p, s, r.value, actor, now);
      } else {
        QueueFirstKeeps(p, s, actor, retry, now);
      }
    }
  }

  lemma ReturnForCorrectionKeeps(p: Pond, s: Id, actor: Id, expected: Option<Digest>, note: string)
    requires Inv(p) && ReturnForCorrection(p, s, actor, expected, note).Committed?
    ensures Inv(ReturnForCorrection(p, s, actor, expected, note).pond)
  {
    hide Tables, Locals, LiveTemplates, Memories, Reservations, LeasesOk, UniqueNotices, JobFor, AnyActive,
      ReturnedPond;
    IndexedKey(p, Publish, s);
    ReturnKeeps(p, s, actor, JobFor(p, Publish, s).value);
  }

  // ----- the run ---------------------------------------------------------------------------------------

  lemma OwnerRun(p: Pond, action: Action, c: Claim, now: Time)
    requires HoldersOk(p) && Owns(p, action, c, now)
    ensures c.token in p.runs && p.runs[c.token].job == c.job && c.token !in p.commits && Holds(p, c.token)
  {
  }

  lemma MemoryAt(p: Pond, t: Token)
    requires Memories(p) && t in p.runs
    ensures p.runs[t].job in p.jobs && p.jobs[p.runs[t].job].key.submission in p.submissions && MemoryOk(p, t)
  {
  }

  /** `manifestOk` is what revalidation establishes when it reports nothing. */
  lemma ExaminePublishKeeps(p: Pond, c: Claim, report: seq<Finding>, now: Time)
    requires Inv(p) && ExaminePublish(p, c, report, now).Committed?
    requires ReferencesOk(p.submissions[c.submission].manifest)
    ensures Inv(ExaminePublish(p, c, report, now).pond)
  {
    hide Locals, LiveTemplates, Reservations, UniqueNotices, Tables, CountsOk, CommitsOk, HoldersOk, RecordsOf,
      Memories, ApprovalStands, ReferencesOk;
    var q := ExaminePublish(p, c, report, now).pond;
    OwnerRun(p, Publish, c, now);
    MemoryAt(p, c.token);
    assert MemoryOk(q, c.token);
    RememberKeeps(p, q, c.token, q.runs[c.token]);
  }

  lemma ReadJournalKeeps(p: Pond, c: Claim, m: Manifest, now: Time)
    requires Inv(p) && ReadJournal(p, c, m, now).Committed?
    requires c.token in p.runs && p.runs[c.token].stage == Examined
    ensures Inv(ReadJournal(p, c, m, now).pond)
  {
    hide Locals, LiveTemplates, Reservations, UniqueNotices, Tables, CountsOk, CommitsOk, HoldersOk, RecordsOf,
      Memories, ReferencesOk, JournalOk;
    var q := ReadJournal(p, c, m, now).pond;
    OwnerRun(p, Publish, c, now);
    MemoryAt(p, c.token);
    assert MemoryOk(q, c.token);
    RememberKeeps(p, q, c.token, q.runs[c.token]);
  }

  // ----- the journal -------------------------------------------------------------------------------------

  lemma PlannedJournal(vms: seq<VmSpec>, id: Id, xs: seq<Proposal>)
    requires ProposalsOk(vms, xs)
    ensures JournalOk(vms, id, Plans(id, xs)) && VmidsDistinct(Plans(id, xs))
  {
    var journal := Plans(id, xs);
    assert Proposals(journal) == xs;
    forall i, j | 0 <= i < j < |journal| ensures journal[i].vmid != journal[j].vmid {
      assert ProposalOk(vms, xs[..j], xs[j]);
      assert xs[..j][i] in xs[..j];
    }
  }

  lemma JournalLocal(s: Id, v: View, id: Id, job: Job, templates: map<Id, Template>)
    requires LocalOk(s, v) && v.pjob.Some? && v.pjob.value.id == id && v.pjob.value.job.status == Running
    requires job == v.pjob.value.job.(journal := job.journal) && job.key.action == Publish
    requires JournalOk(v.row.manifest.vms, id, job.journal) && ReferencesOk(v.row.manifest)
    ensures LocalOk(s, WithJob(v, id, job)) && TemplatesOk(templates, WithJob(v, id, job))
  {
    ActivePublication(s, v);
    assert forall k <- v.keys :: NoticeFits(s, v, k);
  }

  lemma OnlyHolder(p: Pond, c: Claim, now: Time)
    requires Owns(p, Publish, c, now) && c.token in p.runs && p.runs[c.token].stage != Planning
    ensures forall t <- p.runs :: p.runs[t].job == c.job && Holds(p, t) ==> p.runs[t].stage != Planning
  {
  }

  lemma UnreservedIsDisjoint(p: Pond, id: Id, vmids: set<nat>)
    requires Tables(p) && !VmidsReserved(p.jobs, id, vmids)
    ensures forall j <- p.jobs :: j != id ==> Vmids(p.jobs[j].journal) !! vmids
  {
  }

  /** Putting a checked, unreserved journal into the held job keeps the invariant. */
  lemma PutJournalKeeps(p: Pond, c: Claim, journal: seq<Plan>, now: Time)
    requires Inv(p) && Owns(p, Publish, c, now) && c.submission in p.submissions
    requires c.token in p.runs && p.runs[c.token].stage != Planning
    requires JournalOk(p.submissions[c.submission].manifest.vms, c.job, journal) && VmidsDistinct(journal)
    requires ReferencesOk(p.submissions[c.submission].manifest)
    requires forall j <- p.jobs :: j != c.job ==> Vmids(p.jobs[j].journal) !! Vmids(journal)
    ensures Inv(p.(jobs := p.jobs[c.job := p.jobs[c.job].(journal := journal)]))
  {
    hide LocalOk, TemplatesOk, Tables, Memories, Locals, LiveTemplates, Reservations, LeasesOk, ViewOf, UniqueNotices,
      WithJob, VmidsDistinct, Vmids, JournalOk, ReferencesOk, Holds;
    var s, job := c.submission, p.jobs[c.job].(journal := journal);
    PlaceView(p, s, c.job);
    JournalLocal(s, ViewOf(p, s), c.job, job, p.templates);
    OnlyHolder(p, c, now);
    JournalKeeps(p, p.(jobs := p.jobs[c.job := job]), s, c.job, job);
  }

  lemma StageKeeps(p: Pond, t: Token, stage: Stage)
    requires Inv(p) && t in p.runs && p.runs[t].stage in {Examined, Planning} && stage == Prepared
    requires p.runs[t].job in p.jobs && p.jobs[p.runs[t].job].key.action == Publish
    ensures Inv(AtStage(p, t, stage))
  {
    hide Locals, LiveTemplates, Reservations, UniqueNotices, Tables, LeasesOk, RecordsOf, Memories, ReferencesOk;
    var q := AtStage(p, t, stage);
    MemoryAt(p, t);
    assert MemoryOk(q, t);
    RememberKeeps(p, q, t, q.runs[t]);
  }

  /** The plan is frozen under the claim that read the empty journal. */
  lemma WriteJournalKeeps(p: Pond, c: Claim, m: Manifest, xs: seq<Proposal>, now: Time)
    requires Inv(p) && WriteJournal(p, c, m, xs, now).Committed?
    requires c.token in p.runs && p.runs[c.token].stage == Planning
    requires p.runs[c.token].snapshot.Some? && m == p.runs[c.token].snapshot.value.manifest
    ensures Inv(WriteJournal(p, c, m, xs, now).pond)
    ensures p.jobs[c.job].journal == []
  {
    hide Locals, LiveTemplates, Reservations, UniqueNotices, Tables, CountsOk, CommitsOk, HoldersOk, RecordsOf,
      Memories, ReferencesOk, JournalOk, VmidsDistinct, Vmids, VmidsLive, VmidsReserved, ProposalsOk, Plans;
    OwnerRun(p, Publish, c, now);
    MemoryAt(p, c.token);
    var journal := Plans(c.job, xs);
    PlannedJournal(m.vms, c.job, xs);
    StageKeeps(p, c.token, Prepared);
    var q := AtStage(p, c.token, Prepared);
    UnreservedIsDisjoint(p, c.job, Vmids(journal));
    PutJournalKeeps(q, c, journal, now);
  }

  lemma {:induction false} MarkedKeepsPlan(journal: seq<Plan>, role: string, state: PlanState, task: Option<string>)
    ensures Proposals(Marked(journal, role, state, task)) == Proposals(journal)
    ensures forall i :: 0 <= i < |journal| ==> Marked(journal, role, state, task)[i].operation == journal[i].operation
    ensures forall i :: 0 <= i < |journal| ==> Marked(journal, role, state, task)[i].vmid == journal[i].vmid
  {
    if journal != [] && journal[0].role != role {
      MarkedKeepsPlan(journal[1..], role, state, task);
      var rest := Marked(journal[1..], role, state, task);
      forall i | 0 <= i < |journal|
        ensures ProposalOf(Marked(journal, role, state, task)[i]) == ProposalOf(journal[i])
      {
        if i > 0 {
          assert Proposals(rest)[i - 1] == Proposals(journal[1..])[i - 1];
        }
      }
    }
  }

  lemma MarkedJournal(vms: seq<VmSpec>, id: Id, journal: seq<Plan>, role: string, state: PlanState,
                      task: Option<string>)
    requires JournalOk(vms, id, journal) && VmidsDistinct(journal)
    ensures JournalOk(vms, id, Marked(journal, role, state, task)) && VmidsDistinct(Marked(journal, role, state, task))
    ensures Vmids(Marked(journal, role, state, task)) == Vmids(journal)
  {
    var after := Marked(journal, role, state, task);
    MarkedKeepsPlan(journal, role, state, task);
    forall i | 0 <= i < |journal| ensures after[i].operation == (id, after[i].role) {
      assert Proposals(after)[i] == Proposals(journal)[i];
      assert journal[i] in journal;
    }
    forall v ensures v in Vmids(after) <==> v in Vmids(journal) {
      if v in Vmids(after) {
        var i :| 0 <= i < |after| && after[i].vmid == v;
        assert journal[i] in journal;
      }
      if v in Vmids(journal) {
        var i :| 0 <= i < |journal| && journal[i].vmid == v;
        assert after[i] in after;
      }
    }
  }

  lemma JournalAt(p: Pond, s: Id, id: Id)
    requires Tables(p) && Locals(p) && Reservations(p.jobs)
    requires id in p.jobs && p.jobs[id].key == JobKey(Publish, s) && p.jobs[id].journal != []
    ensures s in p.submissions && VmidsDistinct(p.jobs[id].journal)
    ensures JournalOk(p.submissions[s].manifest.vms, id, p.jobs[id].journal) && ReferencesOk(p.submissions[s].manifest)
    ensures forall j <- p.jobs :: j != id ==> Vmids(p.jobs[j].journal) !! Vmids(p.jobs[id].journal)
  {
    hide JournalOk, ReferencesOk, Vmids, VmidsDistinct, Coupled, Frozen, Evidence, Mirrored, NoticeFits;
    PlaceView(p, s, id);
  }

  lemma CheckpointKeeps(p: Pond, c: Claim, role: string, state: PlanState, task: Option<string>, now: Time)
    requires Inv(p) && Checkpoint(p, c, role, state, task, now).Committed?
    ensures Inv(Checkpoint(p, c, role, state, task, now).pond)
  {
    hide Locals, LiveTemplates, Reservations, UniqueNotices, Tables, CountsOk, CommitsOk, HoldersOk, RecordsOf,
      Memories, ReferencesOk, JournalOk, VmidsDistinct, Vmids, Marked;
    OwnerRun(p, Publish, c, now);
    MemoryAt(p, c.token);
    var s, journal := c.submission, p.jobs[c.job].journal;
    assert journal != [];
    JournalAt(p, s, c.job);
    MarkedJournal(p.submissions[s].manifest.vms, c.job, journal, role, state, task);
    PutJournalKeeps(p, c, Marked(journal, role, state, task), now);
  }

  // ----- failing a run -----------------------------------------------------------------------------------

  lemma FailedRelease(p: Pond, c: Claim, now: Time)
    requires HoldersOk(p) && Owns(p, Publish, c, now) && c.submission in p.submissions
    ensures var r := FailJob(p, c.job, PublicationStopped, now);
            c.token in r.runs && c.token !in r.commits && Unleased(r, c.token) && r.commits == p.commits
  {
    ReleasedIsFree(p, FailJob(p, c.job, PublicationStopped, now), c.job);
  }

  lemma FailRunKeeps(p: Pond, c: Claim, now: Time)
    requires Inv(p) && FailRun(p, c, now).Committed?
    ensures Inv(FailRun(p, c, now).pond)
  {
    hide Locals, LiveTemplates, Reservations, UniqueNotices, Tables, Memories, HoldersOk, CountsOk, CommitsOk,
      FailJob, Unleased;
    FailKeeps(p, c.job, PublicationStopped, now);
    FailedRelease(p, c, now);
    CommitKeeps(FailJob(p, c.job, PublicationStopped, now), c.token);
  }

  // ----- going live -------------------------------------------------------------------------------------

  /** The rows that `GoLive` writes, read back. */
  ghost predicate WentLive(p: Pond, q: Pond, s: Id, id: Id, m: Manifest) {
    && s in p.submissions && id in p.jobs && LookupsDefined(m, p.jobs[id].journal)
    && q.challenges == p.challenges[p.next := NewChallenge(m, p.jobs[id].journal, p.next + 1, p.submissions[s].owner)]
    && q.templates == p.templates + NewTemplates(m.vms, p.jobs[id].journal, p.next + 1)
    && q.submissions == p.submissions[s := p.submissions[s].(status := Published, challenge := Some(p.next))]
    && id in q.jobs && q.jobs == p.jobs[id := q.jobs[id]]
    && q.jobs[id] == p.jobs[id].(status := Succeeded, completedAt := q.jobs[id].completedAt, lease := None)
    && q.jobs[id].completedAt.Some?
    && q.keys == p.keys && q.files == p.files && q.issues == p.issues && q.runs == p.runs && q.commits == p.commits
    && |q.audit| == |p.audit| + 1 && q.audit[..|p.audit|] == p.audit && q.audit[|p.audit|].target == s
    && KindOf(q.audit[|p.audit|].event) == OtherKind
    && q.outbox == p.outbox + [Notice(s, p.submissions[s].owner, Published, PublishedNotice(s))]
    && q.next == p.next + 1 + |p.jobs[id].journal|
  }

  lemma GoesLive(p: Pond, c: Claim, m: Manifest, now: Time)
    requires c.job in p.jobs && c.submission in p.submissions && LookupsDefined(m, p.jobs[c.job].journal)
    requires p.submissions[c.submission].digest.Some?
    ensures WentLive(p, GoLive(p, c, m, now), c.submission, c.job, m)
  {
    hide LookupsDefined, NewChallenge, NewTemplates;
  }

  lemma LiveIndex(p: Pond, q: Pond, s: Id, id: Id, m: Manifest)
    requires Tables(p) && WentLive(p, q, s, id, m)
    ensures IndexOk(q.keys, q.jobs)
  {
    hide LookupsDefined, NewChallenge, NewTemplates, RowsOk, FileRowsOk, JobsOk;
  }

  lemma LiveJobs(p: Pond, q: Pond, s: Id, id: Id, m: Manifest)
    requires Tables(p) && WentLive(p, q, s, id, m)
    ensures IndexOk(q.keys, q.jobs) && JobsOk(q.jobs, q.submissions, q.next)
  {
    hide LookupsDefined, NewChallenge, NewTemplates, RowsOk, FileRowsOk, IndexOk;
    LiveIndex(p, q, s, id, m);
  }

  lemma LiveTables(p: Pond, q: Pond, s: Id, id: Id, m: Manifest)
    requires Tables(p) && WentLive(p, q, s, id, m)
    ensures Tables(q)
  {
    hide LookupsDefined, NewChallenge, JobOk, IndexOk, JobsOk;
    LiveJobs(p, q, s, id, m);
    assert FileRowsOk(q.files, q.submissions, q.next);
    assert RowsOk(q.submissions, q.challenges, q.next);
  }

  lemma LiveTouches(p: Pond, q: Pond, s: Id, id: Id, m: Manifest)
    requires Tables(p) && WentLive(p, q, s, id, m) && p.jobs[id].key.submission == s
    ensures Touches(p, q, s)
  {
    hide LookupsDefined, NewChallenge, NewTemplates, JobOk, IndexOk, JobsOk, RowsOk, FileRowsOk;
    assert p.next !in p.challenges;
    assert RowsTouched(p, q, s);
    assert JobsTouched(p, q, s);
    assert LogsTouched(p, q, s);
  }

  lemma LiveQuiet(p: Pond, q: Pond, s: Id, id: Id, m: Manifest)
    requires Tables(p) && WentLive(p, q, s, id, m)
    ensures Quiet(p, q) && TemplatesKept(p.templates, q.templates) && ContentKept(p, q, s)
  {
    hide LookupsDefined, NewChallenge, RecordsOf, IndexOk, JobsOk, RowsOk, FileRowsOk;
  }

  lemma LiveView(p: Pond, q: Pond, s: Id, id: Id, m: Manifest)
    requires Tables(p) && WentLive(p, q, s, id, m) && p.jobs[id].key == JobKey(Publish, s)
    ensures ViewOf(q, s) == ViewOf(p, s).(row := q.submissions[s], pjob := Some(Placed(id, q.jobs[id])),
                                          keys := ViewOf(p, s).keys + {PublishedNotice(s)},
                                          live := Some(q.challenges[p.next]))
  {
    hide Tables, PlacedJob, JobFor, RecordsOf, AllPassed, Latest, KeysOf, LookupsDefined, NewChallenge, NewTemplates;
    LivePlaced(p, q, s, id, m);
    LatestFrame(p.audit, q.audit, ValidationKind, s);
    LatestFrame(p.audit, q.audit, ReviewKind, s);
    KeysFrame(p.outbox, q.outbox, s);
  }

  lemma LivePlaced(p: Pond, q: Pond, s: Id, id: Id, m: Manifest)
    requires Tables(p) && WentLive(p, q, s, id, m) && p.jobs[id].key == JobKey(Publish, s)
    ensures PlacedJob(q, Validate, s) == PlacedJob(p, Validate, s) && FindingsOf(q, s) == FindingsOf(p, s)
    ensures PlacedJob(q, Publish, s) == Some(Placed(id, q.jobs[id]))
  {
    SwapPlaced(p, q, s, id, q.jobs[id], Validate);
    SwapPlaced(p, q, s, id, q.jobs[id], Publish);
  }

  lemma LiveLocal(s: Id, v: View, after: View, templates: map<Id, Template>, base: Id)
    requires LocalOk(s, v) && v.row.status == Importing && v.pjob.Some?
    requires after.pjob.Some? && after.pjob == Some(Placed(v.pjob.value.id, after.pjob.value.job))
    requires after.pjob.value.job.status == Succeeded && after.pjob.value.job.journal == v.pjob.value.job.journal
    requires after.pjob.value.job.attempts == v.pjob.value.job.attempts && v.pjob.value.job.status == Running
    requires LookupsDefined(v.row.manifest, v.pjob.value.job.journal)
    requires |v.pjob.value.job.journal| == |v.row.manifest.vms|
    requires after == v.(row := v.row.(status := Published, challenge := Some(base)), pjob := after.pjob,
                         keys := v.keys + {PublishedNotice(s)},
                         live := Some(NewChallenge(v.row.manifest, v.pjob.value.job.journal, base + 1, v.row.owner)))
    requires forall t <- NewTemplates(v.row.manifest.vms, v.pjob.value.job.journal, base + 1) ::
               t in templates && templates[t] == NewTemplates(v.row.manifest.vms, v.pjob.value.job.journal, base + 1)[t]
    ensures LocalOk(s, after) && TemplatesOk(templates, after) && PublishedNotice(s) !in v.keys
  {
    hide NewChallenge, JournalOk, ReferencesOk;
    assert forall k <- v.keys :: NoticeFits(s, v, k);
  }

  /** Publication keeps the invariant, for the manifest the approved snapshot carries. */
  lemma GoLiveKeeps(p: Pond, c: Claim, m: Manifest, now: Time)
    requires Inv(p) && Owns(p, Publish, c, now) && c.submission in p.submissions
    requires p.submissions[c.submission].status == Importing && p.submissions[c.submission].digest.Some?
    requires m == p.submissions[c.submission].manifest && LookupsDefined(m, p.jobs[c.job].journal)
    requires |p.jobs[c.job].journal| == |m.vms|
    ensures Inv(GoLive(p, c, m, now))
  {
    hide LocalOk, TemplatesOk, Tables, Memories, Locals, LiveTemplates, Reservations, LeasesOk, ViewOf, UniqueNotices,
      LookupsDefined, NewChallenge, Touches, Quiet, TemplatesKept, ContentKept, GoLive, KeysOf;
    var s, q := c.submission, GoLive(p, c, m, now);
    GoesLive(p, c, m, now);
    PlaceView(p, s, c.job);
    LocalAt(p, s);
    LiveView(p, q, s, c.job, m);
    LiveLocal(s, ViewOf(p, s), ViewOf(q, s), q.templates, p.next);
    LiveTables(p, q, s, c.job, m);
    LiveTouches(p, q, s, c.job, m);
    LiveQuiet(p, q, s, c.job, m);
    FreshKey(p, s, PublishedNotice(s));
    UniqueAppend(p.outbox, q.outbox[|p.outbox|]);
    QuietStep(p, q, s);
  }

  lemma CommitLiveKeeps(p: Pond, c: Claim, seen: Snapshot, m: Manifest, now: Time)
    requires Inv(p) && CommitLive(p, c, seen, m, now).Committed? && m == seen.manifest
    ensures Inv(CommitLive(p, c, seen, m, now).pond)
  {
    hide Locals, LiveTemplates, Reservations, UniqueNotices, Tables, Memories, HoldersOk, CountsOk, CommitsOk, GoLive,
      Unleased, LookupsDefined, VmidsLive, WorkstationOk, Endorsed, RecordsOf;
    GoLiveKeeps(p, c, m, now);
    GoLiveRelease(p, c, m, now);
    CommitKeeps(GoLive(p, c, m, now), c.token);
  }

  lemma GoLiveRelease(p: Pond, c: Claim, m: Manifest, now: Time)
    requires HoldersOk(p) && Owns(p, Publish, c, now) && c.submission in p.submissions
    requires LookupsDefined(m, p.jobs[c.job].journal) && p.submissions[c.submission].digest.Some?
    ensures var r := GoLive(p, c, m, now);
            c.token in r.runs && c.token !in r.commits && Unleased(r, c.token) && r.commits == p.commits
  {
    hide LookupsDefined, NewChallenge, NewTemplates;
    ReleasedIsFree(p, GoLive(p, c, m, now), c.job);
  }
}
