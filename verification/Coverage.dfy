/** A checked plan covers the machines of its manifest one to one. */
module Coverage {
  import opened Schema
  import opened Validation
  import opened Publication
  import opened Invariant

  function PlanRoles(journal: seq<Plan>): set<string> {
    set x | x in journal :: x.role
  }

  ghost predicate PlanRolesDistinct(journal: seq<Plan>) {
    forall i, j :: 0 <= i < j < |journal| ==> journal[i].role != journal[j].role
  }

  lemma {:induction false} CountVmRoles(vms: seq<VmSpec>)
    requires RolesDistinct(vms)
    ensures |Roles(vms)| == |vms|
  {
    if vms == [] {
      assert Roles(vms) == {};
    } else {
      var n := |vms| - 1;
      CountVmRoles(vms[..n]);
      assert vms == vms[..n] + [vms[n]];
      assert Roles(vms) == Roles(vms[..n]) + {vms[n].role};
    }
  }

  lemma {:induction false} CountPlanRoles(journal: seq<Plan>)
    requires PlanRolesDistinct(journal)
    ensures |PlanRoles(journal)| == |journal|
  {
    if journal == [] {
      assert PlanRoles(journal) == {};
    } else {
      var n := |journal| - 1;
      CountPlanRoles(journal[..n]);
      assert journal == journal[..n] + [journal[n]];
      assert PlanRoles(journal) == PlanRoles(journal[..n]) + {journal[n].role};
    }
  }

  lemma {:induction false} FullSubset<T>(a: set<T>, b: set<T>)
    requires a <= b && |a| == |b|
    ensures a == b
    decreases |a|
  {
    if a == {} {
    } else {
      var x :| x in a;
      FullSubset(a - {x}, b - {x});
      assert a == (a - {x}) + {x};
    }
  }

  /** What `JournalOk` says entry by entry. */
  lemma JournalEntries(vms: seq<VmSpec>, job: Id, journal: seq<Plan>)
    requires JournalOk(vms, job, journal)
    ensures |journal| == |vms| && PlanRolesDistinct(journal) && VmidsDistinct(journal)
            && PlanRoles(journal) <= Roles(vms)
  {
    var xs := Proposals(journal);
    forall i | 0 <= i < |journal| ensures journal[i].role in Roles(vms) {
      assert ProposalOk(vms, xs[..i], xs[i]);
    }
    forall i, j | 0 <= i < j < |journal|
      ensures journal[i].role != journal[j].role && journal[i].vmid != journal[j].vmid
    {
      assert ProposalOk(vms, xs[..j], xs[j]);
      assert xs[..j][i] == xs[i];
    }
  }

  /** Pigeonhole: the plans map one to one onto the VM roles. */
  lemma PlansCoverRoles(vms: seq<VmSpec>, job: Id, journal: seq<Plan>)
    requires JournalOk(vms, job, journal) && RolesDistinct(vms)
    ensures PlanRoles(journal) == Roles(vms) && PlanRolesDistinct(journal)
  {
    JournalEntries(vms, job, journal);
    CountVmRoles(vms);
    CountPlanRoles(journal);
    FullSubset(PlanRoles(journal), Roles(vms));
  }

  /** Hence every role that going live looks up is there. */
  lemma LookupsAreDefined(m: Manifest, job: Id, journal: seq<Plan>)
    requires JournalOk(m.vms, job, journal) && ReferencesOk(m)
    ensures LookupsDefined(m, journal)
  {
    PlansCoverRoles(m.vms, job, journal);
    hide JournalOk, RolesDistinct, TemplatesDistinct, Clash;
    forall x <- journal ensures x.role in Roles(m.vms) {
      assert x.role in PlanRoles(journal);
    }
    forall f <- m.flags | f.vmRole.Some? ensures exists x <- journal :: x.role == f.vmRole.value {
      assert f.vmRole.value in PlanRoles(journal);
    }
  }

  // ----- what goes live -------------------------------------------------------------------------

  /** With distinct roles, the machine found for a role is the one that has it. */
  lemma MachineIsUnique(vms: seq<VmSpec>, i: nat)
    requires RolesDistinct(vms) && i < |vms|
    ensures MachineFor(vms, vms[i].role) == Some(vms[i])
  {
    var found := MachineFor(vms, vms[i].role);
    assert vms[i].role in Roles(vms);
    var j :| 0 <= j < |vms| && vms[j] == found.value;
  }

  ghost predicate AssignmentRolesDistinct(assignments: seq<Assignment>) {
    forall i, j :: 0 <= i < j < |assignments| ==> assignments[i].role != assignments[j].role
  }

  /** No role is assigned twice in the new challenge. */
  lemma AssignmentsDistinct(m: Manifest, job: Id, journal: seq<Plan>, base: Id)
    requires SchemaOk(m) && LookupsDefined(m, journal)
    requires journal == [] || (VmBased(m) && JournalOk(m.vms, job, journal))
    ensures AssignmentRolesDistinct(NewAssignments(m, journal, base))
  {
    if journal != [] {
      JournalEntries(m.vms, job, journal);
      hide JournalOk;
      var made := NewAssignments(m, journal, base);
      forall i | 0 <= i < |journal| ensures made[i].role == journal[i].role {
        assert journal[i] in journal;
      }
    }
  }

  /** Machine `vm` of the manifest runs as assignment `a` with a template of its size. */
  predicate Serves(vm: VmSpec, a: Assignment, templates: map<Id, Template>) {
    && a.role == vm.role && a.bootOrder == vm.bootOrder && a.accessible == vm.accessible
    && a.template in templates
    && var t := templates[a.template]; t.cpu == vm.cpu && t.memory == vm.memory && t.disk == vm.disk
  }

  /** Plan entry `i`, once live, serves the machine of its role. */
  lemma EntryServes(m: Manifest, journal: seq<Plan>, base: Id, templates: map<Id, Template>, i: nat, k: nat)
    requires LookupsDefined(m, journal) && TemplatesMatch(templates, m, journal, base) && RolesDistinct(m.vms)
    requires i < |journal| && k < |m.vms| && journal[i].role == m.vms[k].role
    ensures i < |NewAssignments(m, journal, base)| && Serves(m.vms[k], NewAssignments(m, journal, base)[i], templates)
  {
    hide RolesDistinct, Roles, TemplatesMatch, LookupsDefined, NewAssignments, MachineFor;
    MachineIsUnique(m.vms, k);
    LiveEntry(m, journal, base, templates, i);
    AssignedEntry(m, journal, base, i);
  }

  lemma AssignedEntry(m: Manifest, journal: seq<Plan>, base: Id, i: nat)
    requires LookupsDefined(m, journal) && i < |journal|
    ensures MachineFor(m.vms, journal[i].role).Some? && i < |NewAssignments(m, journal, base)|
    ensures var vm := MachineFor(m.vms, journal[i].role).value;
            NewAssignments(m, journal, base)[i] == Assignment(vm.role, base + i, vm.bootOrder, vm.accessible)
  {
    hide Roles, MachineFor;
    assert journal[i] in journal;
  }

  lemma LiveEntry(m: Manifest, journal: seq<Plan>, base: Id, templates: map<Id, Template>, i: nat)
    requires LookupsDefined(m, journal) && TemplatesMatch(templates, m, journal, base) && i < |journal|
    ensures journal[i].role in Roles(m.vms) && base + i in templates
    ensures templates[base + i].(active := true) == TemplateOf(journal[i], MachineFor(m.vms, journal[i].role).value)
  {
    hide Roles;
    var rows := NewTemplates(m.vms, journal, base);
    assert base + i in rows;
    assert journal[i] in journal;
  }

  lemma EntryForRole(m: Manifest, job: Id, journal: seq<Plan>, role: string) returns (i: nat)
    requires JournalOk(m.vms, job, journal) && RolesDistinct(m.vms) && role in Roles(m.vms)
    ensures i < |journal| && journal[i].role == role
  {
    PlansCoverRoles(m.vms, job, journal);
    i :| 0 <= i < |journal| && journal[i].role == role;
  }

  /** Every machine of the manifest is served by an assignment of the new challenge. */
  lemma MachinesServed(m: Manifest, job: Id, journal: seq<Plan>, base: Id, templates: map<Id, Template>, vm: VmSpec)
    requires JournalOk(m.vms, job, journal) && ReferencesOk(m) && LookupsDefined(m, journal) && vm in m.vms
    requires TemplatesMatch(templates, m, journal, base)
    ensures exists a <- NewAssignments(m, journal, base) :: Serves(vm, a, templates)
  {
    hide JournalOk, LookupsDefined, TemplatesMatch, NewAssignments, Serves, RolesDistinct;
    var k :| 0 <= k < |m.vms| && m.vms[k] == vm;
    assert vm.role in Roles(m.vms);
    var i := EntryForRole(m, job, journal, vm.role);
    EntryServes(m, journal, base, templates, i, k);
    assert NewAssignments(m, journal, base)[i] in NewAssignments(m, journal, base);
  }

  /** Every flag of the manifest is a flag of the new challenge, in order, bound to the
      assignment of its role or to none. */
  lemma FlagsBound(m: Manifest, job: Id, journal: seq<Plan>, base: Id, owner: Id, k: nat)
    requires JournalOk(m.vms, job, journal) && ReferencesOk(m) && LookupsDefined(m, journal) && k < |m.flags|
    ensures var c := NewChallenge(m, journal, base, owner);
            && |c.flags| == |m.flags|
            && c.flags[k].name == m.flags[k].name && c.flags[k].hash == m.flags[k].hash
            && c.flags[k].points == m.flags[k].points && c.flags[k].sequence == m.flags[k].sequence
            && (m.flags[k].vmRole.None? <==> c.flags[k].template.None?)
            && (m.flags[k].vmRole.Some? ==>
                  exists a <- c.assignments ::
                  a.role == m.flags[k].vmRole.value && c.flags[k].template == Some(a.template))
  {
    hide JournalOk, ReferencesOk;
    var f := m.flags[k];
    var c := NewChallenge(m, journal, base, owner);
    if f.vmRole.Some? {
      var i := PlanIndex(journal, f.vmRole.value);
      assert journal[i] in journal;
      assert c.assignments[i].role == f.vmRole.value && c.assignments[i].template == base + i;
    }
  }
}
