/** What players get: the published challenge, its flags and its machines, field by field, and
    which content a submission is about. */
module LiveContent {
  import opened Schema
  import opened Validation
  import opened Worker
  import opened Publication
  import opened Intake
  import opened Invariant
  import opened Pipeline
  import opened Coverage
  import opened Decisions
  import opened Guarantees

  // ----- published challenges ---------------------------------------------------------------------

  /** A published challenge has the texts and rules of its manifest, belongs to the author, and
      is based on machines exactly when its manifest is. */
  lemma PublishedTexts(p: Pond, limits: Limits, s: Id)
    requires Reachable(p, limits) && s in p.submissions && p.submissions[s].status == Published
    ensures p.submissions[s].challenge.Some? && p.submissions[s].challenge.value in p.challenges
    ensures var m, c := p.submissions[s].manifest, p.challenges[p.submissions[s].challenge.value];
            && c.title == m.title && c.text == m.text && c.rules == m.rules && c.owner == p.submissions[s].owner
            && (c.vmBased <==> m.challengeType in {PlainVm, ScoredVm})
            && (m.workstation.Some? ==> Assignment("workstation", m.workstation.value, 1, true) in c.assignments)
  {
    PublishedIsSourced(p, limits, s);
    hide Reachable, Sourced, ReferencesOk, TemplatesMatch, JournalOk, LookupsDefined;
    var m, j := p.submissions[s].manifest, JobFor(p, Publish, s).value;
    var made := NewAssignments(m, p.jobs[j].journal, p.submissions[s].challenge.value + 1);
    if m.workstation.Some? {
      assert made[|made| - 1] == Assignment("workstation", m.workstation.value, 1, true);
    }
  }

  /** The template of a machine stands where the plan of its role put it. */
  predicate Placed(x: Plan, vm: VmSpec, a: Assignment, templates: map<Id, Template>) {
    && x.role == vm.role == a.role && a.template in templates
    && templates[a.template].name == x.templateName && templates[a.template].vmid == x.vmid
    && templates[a.template].node == x.node && (x.owned <==> vm.source.Image?)
    && 100 <= x.vmid <= 999_999_999 && 1 <= |x.node| <= 100 && 1 <= |x.templateName| <= 100
  }

  lemma EntryPlaced(m: Manifest, job: Id, journal: seq<Plan>, base: Id, templates: map<Id, Template>, k: nat, i: nat)
    requires JournalOk(m.vms, job, journal) && RolesDistinct(m.vms) && LookupsDefined(m, journal) && k < |m.vms|
    requires TemplatesMatch(templates, m, journal, base) && i < |journal| && journal[i].role == m.vms[k].role
    ensures i < |NewAssignments(m, journal, base)|
    ensures Placed(journal[i], m.vms[k], NewAssignments(m, journal, base)[i], templates)
  {
    hide RolesDistinct, Roles, LookupsDefined, NewAssignments, TemplatesMatch, JournalOk, MachineFor;
    OwnedAsPlanned(m.vms, job, journal, i);
    MachineIsUnique(m.vms, k);
    LiveEntry(m, journal, base, templates, i);
    AssignedEntry(m, journal, base, i);
  }

  lemma PlanPlaced(m: Manifest, job: Id, journal: seq<Plan>, base: Id, templates: map<Id, Template>, k: nat)
    returns (i: nat)
    requires JournalOk(m.vms, job, journal) && ReferencesOk(m) && LookupsDefined(m, journal) && k < |m.vms|
    requires TemplatesMatch(templates, m, journal, base)
    ensures i < |journal| && i < |NewAssignments(m, journal, base)|
    ensures Placed(journal[i], m.vms[k], NewAssignments(m, journal, base)[i], templates)
  {
    hide JournalOk, LookupsDefined, TemplatesMatch, RolesDistinct, NewAssignments, Placed;
    assert m.vms[k].role in Roles(m.vms);
    i := EntryForRole(m, job, journal, m.vms[k].role);
    EntryPlaced(m, job, journal, base, templates, k, i);
  }

  lemma OwnedAsPlanned(vms: seq<VmSpec>, job: Id, journal: seq<Plan>, i: nat)
    requires JournalOk(vms, job, journal) && i < |journal|
    ensures MachineFor(vms, journal[i].role).Some?
    ensures journal[i].owned == MachineFor(vms, journal[i].role).value.source.Image?
    ensures 100 <= journal[i].vmid <= 999_999_999 && 1 <= |journal[i].node| <= 100
    ensures 1 <= |journal[i].templateName| <= 100
  {
    hide MachineFor;
    assert ProposalOk(vms, Proposals(journal)[..i], Proposals(journal)[i]);
  }

  lemma PlacedFrom(p: Pond, s: Id, j: Id, k: nat) returns (x: Plan, a: Assignment)
    requires s in p.submissions && p.submissions[s].challenge.Some? && j in p.jobs && LiveFrom(p, s, j)
    requires k < |p.submissions[s].manifest.vms|
    ensures x in p.jobs[j].journal && a in p.challenges[p.submissions[s].challenge.value].assignments
    ensures Placed(x, p.submissions[s].manifest.vms[k], a, p.templates)
  {
    hide ReferencesOk, TemplatesMatch, JournalOk, LookupsDefined, Placed, NewAssignments;
    var m, journal, base := p.submissions[s].manifest, p.jobs[j].journal, p.submissions[s].challenge.value + 1;
    var i := PlanPlaced(m, j, journal, base, p.templates, k);
    x, a := journal[i], NewAssignments(m, journal, base)[i];
  }

  /** Every machine of a published manifest runs from the template that the journal planned
      for its role: with that name and number, on that node, imported exactly when the
      manifest brings an image. */
  lemma PublishedPlaces(p: Pond, limits: Limits, s: Id, k: nat) returns (x: Plan, a: Assignment)
    requires Reachable(p, limits) && s in p.submissions && p.submissions[s].status == Published
    requires k < |p.submissions[s].manifest.vms|
    ensures p.submissions[s].challenge.Some? && p.submissions[s].challenge.value in p.challenges
    ensures JobFor(p, Publish, s).Some? && JobFor(p, Publish, s).value in p.jobs
    ensures x in p.jobs[JobFor(p, Publish, s).value].journal
    ensures a in p.challenges[p.submissions[s].challenge.value].assignments
    ensures Placed(x, p.submissions[s].manifest.vms[k], a, p.templates)
  {
    hide Reachable, Sourced, ReferencesOk, TemplatesMatch, JournalOk, LookupsDefined, Placed, NewChallenge;
    PublishedIsSourced(p, limits, s);
    x, a := PlacedFrom(p, s, JobFor(p, Publish, s).value, k);
  }

  // ----- checkpoints --------------------------------------------------------------------------------

  /** A checkpoint changes state and task of the entry of its role, and nothing else, in a plan
      whose roles differ. */
  lemma {:induction false} MarkedExactly(journal: seq<Plan>, role: string, state: PlanState, task: Option<string>,
                                         k: nat)
    requires PlanRolesDistinct(journal) && k < |journal|
    ensures var x, y := journal[k], Marked(journal, role, state, task)[k];
            && (x.role != role ==> y == x)
            && (x.role == role ==> y.state == state && y.task == (if task.None? then x.task else task))
            && ProposalOf(y) == ProposalOf(x) && y.operation == x.operation
    decreases |journal|
  {
    if journal[0].role != role {
      assert PlanRolesDistinct(journal[1..]) by {
        assert forall i, j :: 0 <= i < j < |journal| - 1 ==>
            journal[1..][i] == journal[i + 1] && journal[1..][j] == journal[j + 1];
      }
      if k > 0 {
        MarkedExactly(journal[1..], role, state, task, k - 1);
      }
    }
  }

  /** A plan is frozen if and only if it is sound, its claim is current and none of its numbers
      is taken by a template or by the journal of another publication. */
  lemma FreezesExactly(p: Pond, c: Claim, m: Manifest, xs: seq<Proposal>, now: Time)
    ensures WriteJournal(p, c, m, xs, now).Committed?
       <==> && ProposalsOk(m.vms, xs) && Owns(p, Publish, c, now) && c.token in p.runs
            && (forall x <- xs, t <- p.templates :: p.templates[t].vmid != x.vmid)
            && forall x <- xs, j <- p.jobs :: j != c.job && p.jobs[j].key.action == Publish ==>
                 forall y <- p.jobs[j].journal :: y.vmid != x.vmid
  {
    hide ProposalsOk;
    PlannedNumbers(c.job, xs);
  }

  lemma PlannedNumbers(job: Id, xs: seq<Proposal>)
    ensures forall n :: n in Vmids(Plans(job, xs)) <==> exists x <- xs :: x.vmid == n
  {
    var journal := Plans(job, xs);
    forall x <- xs ensures x.vmid in Vmids(journal) {
      var i :| 0 <= i < |xs| && xs[i] == x;
      assert journal[i] in journal;
    }
    forall n | n in Vmids(journal) ensures exists x <- xs :: x.vmid == n {
      var y :| y in journal && y.vmid == n;
      var i :| 0 <= i < |journal| && journal[i] == y;
      assert xs[i] in xs;
    }
  }

  /** A checkpoint is recorded if and only if it reports progress, its text is short, the claim
      is current and the journal has the role. */
  lemma CheckpointExactly(p: Pond, c: Claim, role: string, state: PlanState, task: Option<string>, now: Time)
    ensures Checkpoint(p, c, role, state, task, now).Committed?
       <==> && state in {Reserved, ImportingVm, ReadyVm, FailedVm} && (task.None? || |task.value| <= 255)
            && Owns(p, Publish, c, now) && exists x <- p.jobs[c.job].journal :: x.role == role
    ensures Checkpoint(p, c, role, state, task, now).Committed? ==>
              var journal := Marked(p.jobs[c.job].journal, role, state, task);
              Checkpoint(p, c, role, state, task, now).pond
              == p.(jobs := p.jobs[c.job := p.jobs[c.job].(journal := journal)])
  {
  }

  // ----- the content of a submission -----------------------------------------------------------------

  /** The rules that each type of challenge has for machines, flags and workstation. */
  predicate Typed(m: Manifest) {
    && m.schemaVersion == 1 && |m.vms| <= 8
    && match m.challengeType
       case PlainVm => m.vms != [] && m.flags == [] && m.workstation.None?
       case ScoredVm => m.vms != [] && m.flags != [] && m.workstation.None? && forall f <- m.flags :: f.vmRole.Some?
       case ContainerLab =>
         m.vms == [] && m.rules == [] && m.workstation.Some? && forall f <- m.flags :: f.vmRole.None?
       case Offline => m.vms == [] && m.rules == [] && m.workstation.None? && forall f <- m.flags :: f.vmRole.None?
  }

  /** Every role is there once, and everything that a rule or a flag names is there. */
  ghost predicate RolesConsistent(m: Manifest) {
    && (forall i, j :: 0 <= i < j < |m.vms| ==> m.vms[i].role != m.vms[j].role)
    && (forall r <- m.rules :: (exists v <- m.vms :: v.role == r.fromRole) && exists v <- m.vms :: v.role == r.toRole)
    && (forall f <- m.flags :: f.vmRole.Some? ==> exists v <- m.vms :: v.role == f.vmRole.value)
  }

  /** No two flags have one hash, nor one name or one place in the order on the same machine. */
  ghost predicate FlagsApart(m: Manifest) {
    forall i, j :: 0 <= i < j < |m.flags| ==> Apart(m.flags[i], m.flags[j])
  }

  predicate Apart(a: Flag, b: Flag) {
    && a.hash != b.hash
    && (a.vmRole == b.vmRole ==> a.name != b.name && (a.sequence.Some? ==> a.sequence != b.sequence))
  }

  lemma TypedExactly(m: Manifest)
    ensures SchemaOk(m) <==> Typed(m)
  {
  }

  lemma ConsistentReferences(m: Manifest)
    requires ReferencesOk(m)
    ensures RolesConsistent(m) && FlagsApart(m)
  {
    hide TemplatesDistinct;
    forall i, j | 0 <= i < j < |m.flags| ensures Apart(m.flags[i], m.flags[j]) {
      assert !Clash(m.flags[i], m.flags[j]);
    }
  }

  /** Whatever waits for review or has been approved is a consistent challenge of its type. */
  lemma ReviewedIsConsistent(p: Pond, limits: Limits, s: Id)
    requires Reachable(p, limits) && s in p.submissions
    requires p.submissions[s].status == ReadyForReview || AfterApproval(p.submissions[s].status)
    ensures var m := p.submissions[s].manifest; Typed(m) && RolesConsistent(m) && FlagsApart(m)
  {
    RowView(p, limits, s);
    ConsistentRow(p, s);
  }

  lemma ConsistentRow(p: Pond, s: Id)
    requires s in p.submissions && Frozen(ViewOf(p, s)) && Evidence(ViewOf(p, s))
    requires p.submissions[s].status == ReadyForReview || AfterApproval(p.submissions[s].status)
    ensures var m := p.submissions[s].manifest; Typed(m) && RolesConsistent(m) && FlagsApart(m)
  {
    hide RecordsOf, AllPassed, KeysOf, LiveOf, FindingsOf, SchemaOk, ReferencesOk, Typed, RolesConsistent, FlagsApart;
    assert SchemaOk(p.submissions[s].manifest) && ReferencesOk(p.submissions[s].manifest);
    TypedExactly(p.submissions[s].manifest);
    ConsistentReferences(p.submissions[s].manifest);
  }

  /** What is submitted is the manifest that was written last, under the digest of just that
      and the files of the draft. */
  lemma LastEditIsSubmitted(p: Pond, limits: Limits, user: Id, s: Id, m: Manifest, now: Time)
    requires Reachable(p, limits) && UpdateManifest(p, user, s, m).Committed?
    ensures var edited := UpdateManifest(p, user, s, m).pond;
            && Submit(edited, user, s, now).Committed?
            && var q := Submit(edited, user, s, now).pond;
               s in q.submissions && q.submissions[s].manifest == m && q.submissions[s].status == Validating
               && q.submissions[s].challengeType == m.challengeType && q.submissions[s].owner == p.submissions[s].owner
               && q.submissions[s].digest == Some(ContentDigest(m, RecordsOf(p.files, s))) && q.files == p.files
  {
    RowView(p, limits, s);
    hide Reachable, Coupled, Frozen, Evidence, IndexOk, JobsOk, SchemaOk;
    SubmittedBefore(p, s);
    EditThenSubmit(p, user, s, m, now);
  }

  lemma EditThenSubmit(p: Pond, user: Id, s: Id, m: Manifest, now: Time)
    requires UpdateManifest(p, user, s, m).Committed? && JobFor(p, Validate, s).None?
    ensures var edited := UpdateManifest(p, user, s, m).pond;
            && Submit(edited, user, s, now).Committed?
            && var q := Submit(edited, user, s, now).pond;
               s in q.submissions && q.submissions[s].manifest == m && q.submissions[s].status == Validating
               && q.submissions[s].challengeType == m.challengeType && q.submissions[s].owner == p.submissions[s].owner
               && q.submissions[s].digest == Some(ContentDigest(m, RecordsOf(p.files, s))) && q.files == p.files
  {
    hide RecordsOf, SchemaOk, ContentDigest, LogAdmin;
  }

  lemma RecordedIsRevised(p: Pond)
    requires p.intake.Revising? && RecordRevision(p).Committed? && RecordRevision(p).value.Some?
    ensures var work := p.intake;
            && work.source in p.submissions && (forall c <- work.copies :: c.file in p.files)
            && RecordRevision(p).pond == Revised(p, work.user, work.source, work.copies)
            && RecordRevision(p).value.value == p.next
  {
    hide Revised, AbortIntake;
  }

  /** File row `made` is a copy of `original` under its own key, for submission `s`. */
  predicate CopyOf(made: File, original: File, s: Id, key: StorageKey) {
    && made.submission == s && made.path == original.path && made.size == original.size
    && made.hash == original.hash && made.key == key && made.check == Pending
  }

  lemma CopyTells(files: map<Id, File>, copies: seq<Copy>, s: Id, k: nat)
    requires (forall c <- copies :: c.file in files) && k < |copies|
    ensures copies[k].file in files && s + 1 + k in CopiedRows(files, copies, s, s + 1)
    ensures CopyOf(CopiedRows(files, copies, s, s + 1)[s + 1 + k], files[copies[k].file], s, copies[k].key)
  {
    hide CopiedRows;
    assert copies[k] in copies;
  }

  lemma CopyLands(p: Pond, user: Id, source: Id, copies: seq<Copy>, k: nat)
    requires source in p.submissions && (forall c <- copies :: c.file in p.files) && k < |copies|
    ensures var q := Revised(p, user, source, copies);
            && copies[k].file in p.files && p.next + 1 + k in q.files
            && CopyOf(q.files[p.next + 1 + k], p.files[copies[k].file], p.next, copies[k].key)
  {
    hide LogAdmin, CopiedRows, CopyOf;
    CopyTells(p.files, copies, p.next, k);
  }

  lemma RevisedRow(p: Pond, user: Id, source: Id, copies: seq<Copy>)
    requires source in p.submissions && forall c <- copies :: c.file in p.files
    ensures var q := Revised(p, user, source, copies);
            && q.submissions == p.submissions[p.next := NewRow(user, p.submissions[source].manifest, Some(source))]
            && q.intake == Idle
  {
    hide LogAdmin, NewRow;
  }

  /** A recorded revision is a new draft of the same manifest that names what it supersedes;
      its files are those of the source, under new keys and to be checked again. */
  lemma RevisionTells(p: Pond, k: nat)
    requires p.intake.Revising? && RecordRevision(p).Committed? && RecordRevision(p).value.Some?
    ensures p.intake.source in p.submissions
    ensures var (q, s, work) := (RecordRevision(p).pond, RecordRevision(p).value.value, p.intake);
            && s in q.submissions && q.submissions[s].supersedes == Some(work.source)
            && q.submissions[s].owner == work.user && q.submissions[s].status == Draft
            && q.submissions[s].manifest == p.submissions[work.source].manifest && q.intake == Idle
            && (k < |work.copies| ==>
                  && work.copies[k].file in p.files && s + 1 + k in q.files
                  && CopyOf(q.files[s + 1 + k], p.files[work.copies[k].file], s, work.copies[k].key))
  {
    hide RecordRevision, Revised, CopyOf;
    RecordedIsRevised(p);
    RevisedRow(p, p.intake.user, p.intake.source, p.intake.copies);
    if k < |p.intake.copies| {
      CopyLands(p, p.intake.user, p.intake.source, p.intake.copies, k);
    }
  }
}
