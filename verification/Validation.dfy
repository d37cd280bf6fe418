/** Read-only validation of a frozen revision (challenge_ingestion/validation.py). */
module Validation {
  import opened Schema

  const SCHEMA_VERSION := 1
  const MAX_VMS := 8
  const MAX_IMAGE_BYTES := 20 * 1024 * 1024 * 1024
  const MAX_TOTAL_IMAGE_BYTES := 40 * 1024 * 1024 * 1024

  /** The cross-field part of the manifest schema. */
  predicate SchemaOk(m: Manifest) {
    && m.schemaVersion == SCHEMA_VERSION
    && |m.vms| <= MAX_VMS
    && (if VmBased(m)
        then |m.vms| >= 1 && forall f <- m.flags :: f.vmRole.Some?
        else m.vms == [] && m.rules == [] && forall f <- m.flags :: f.vmRole.None?)
    && (m.challengeType == ScoredVm ==> m.flags != [])
    && (m.challengeType == PlainVm ==> m.flags == [])
    && (m.challengeType == ContainerLab <==> m.workstation.Some?)
  }

  predicate VmBased(m: Manifest) {
    m.challengeType in {PlainVm, ScoredVm}
  }

  function Roles(vms: seq<VmSpec>): set<string> {
    set v | v in vms :: v.role
  }

  function ImagePaths(vms: seq<VmSpec>): set<string> {
    set v | v in vms && v.source.Image? :: v.source.path
  }

  // ----- what a consistent manifest is -------------------------------------------

  ghost predicate RolesDistinct(vms: seq<VmSpec>) {
    forall i, j :: 0 <= i < j < |vms| ==> vms[i].role != vms[j].role
  }

  ghost predicate TemplatesDistinct(vms: seq<VmSpec>) {
    forall i, j :: 0 <= i < j < |vms| && vms[i].source.ApprovedTemplate? ==> vms[i].source != vms[j].source
  }

  predicate Clash(a: Flag, b: Flag) {
    || (a.vmRole == b.vmRole && a.name == b.name)
    || a.hash == b.hash
    || (b.sequence.Some? && a.vmRole == b.vmRole && a.sequence == b.sequence)
  }

  ghost predicate ReferencesOk(m: Manifest) {
    && RolesDistinct(m.vms)
    && TemplatesDistinct(m.vms)
    && (forall r <- m.rules :: r.fromRole in Roles(m.vms) && r.toRole in Roles(m.vms))
    && (forall f <- m.flags :: f.vmRole.Some? ==> f.vmRole.value in Roles(m.vms))
    && (forall i, j :: 0 <= i < j < |m.flags| ==> !Clash(m.flags[i], m.flags[j]))
  }

  // ----- verdicts ------------------------------------------------------------------

  predicate Technical(c: Code) {
    c in {CheckUnavailable, StorageUnavailable, InvalidInventory}
  }

  function SuggestedStatus(report: seq<Finding>): SubmissionStatus {
    if exists f <- report :: Technical(f.code) then ValidationFailed
    else if report == [] then ReadyForReview
    else NeedsChanges
  }

  /** The answer of an external check: any other return value, an exception or a
      missing adapter is `Unavailable`. */
  datatype Verdict = Accepts | Rejects | Unavailable

  /** What reading a stored object gives: its true size and hash, and whether it
      begins with the QCOW2 magic. */
  datatype Reading = Unreadable | Bytes(size: nat, hash: Hash, qcow2: bool)

  datatype FileRecord = FileRecord(file: Id, submission: Id, path: string, role: string, key: StorageKey,
                                   size: nat, hash: Hash)

  datatype Checks = Checks(template: VmSpec -> Verdict, read: FileRecord -> Reading, inspect: FileRecord -> Verdict)

  function Entries(files: seq<FileRecord>): set<Entry> {
    set r | r in files :: Entry(r.path, r.role, r.key, r.size, r.hash)
  }

  function TotalSize(files: seq<FileRecord>): nat {
    if files == [] then 0 else TotalSize(files[..|files| - 1]) + files[|files| - 1].size
  }

  ghost predicate InventoryOk(s: Id, files: seq<FileRecord>) {
    && |files| <= MAX_VMS
    && (forall r <- files :: r.file > 0 && r.submission == s)
    && (forall i, j :: 0 <= i < j < |files| ==>
          DistinctRecords(files[i], files[j]))
  }

  ghost predicate FilesOk(m: Manifest, files: seq<FileRecord>) {
    && TotalSize(files) <= MAX_TOTAL_IMAGE_BYTES
    && Paths(files) == ImagePaths(m.vms)
    && (forall r <- files :: r.role == "image" && 0 < r.size <= MAX_IMAGE_BYTES)
  }

  predicate BytesOk(r: FileRecord, checks: Checks) {
    var got := checks.read(r);
    got.Bytes? && got.size == r.size && got.hash == r.hash && got.qcow2 && checks.inspect(r) == Accepts
  }

  ghost predicate ChecksPass(m: Manifest, files: seq<FileRecord>, checks: Checks) {
    && (forall v <- m.vms :: v.source.ApprovedTemplate? ==> checks.template(v) == Accepts)
    && (forall r <- files :: BytesOk(r, checks))
  }

  // ----- the validation itself -------------------------------------------------------

  lemma RolesStep(vms: seq<VmSpec>, n: nat)
    requires n < |vms|
    ensures Roles(vms[..n + 1]) == Roles(vms[..n]) + {vms[n].role}
    ensures RolesDistinct(vms[..n + 1]) <==> RolesDistinct(vms[..n]) && vms[n].role !in Roles(vms[..n])
  {
    assert vms[..n + 1] == vms[..n] + [vms[n]];
    assert forall i :: 0 <= i < n ==> vms[..n][i] == vms[i] && vms[i] in vms[..n];
  }

  function TemplateNames(vms: seq<VmSpec>): set<string> {
    set v | v in vms && v.source.ApprovedTemplate? :: v.source.reference
  }

  lemma TemplatesStep(vms: seq<VmSpec>, n: nat)
    requires n < |vms|
    ensures TemplateNames(vms[..n + 1])
         == TemplateNames(vms[..n]) + if vms[n].source.ApprovedTemplate? then {vms[n].source.reference} else {}
    ensures TemplatesDistinct(vms[..n + 1]) <==>
            TemplatesDistinct(vms[..n])
            && (vms[n].source.ApprovedTemplate? ==> vms[n].source.reference !in TemplateNames(vms[..n]))
  {
    assert vms[..n + 1] == vms[..n] + [vms[n]];
    assert forall i :: 0 <= i < n ==> vms[..n][i] == vms[i] && vms[i] in vms[..n];
  }

  method CheckMachines(vms: seq<VmSpec>) returns (issues: seq<Finding>)
    ensures issues == [] <==> RolesDistinct(vms) && TemplatesDistinct(vms)
    ensures forall f <- issues :: !Technical(f.code)
  {
    issues := [];
    var roles: set<string> := {};
    var templates: set<string> := {};
    for i := 0 to |vms|
      invariant roles == Roles(vms[..i]) && templates == TemplateNames(vms[..i])
      invariant issues == [] <==> RolesDistinct(vms[..i]) && TemplatesDistinct(vms[..i])
      invariant forall f <- issues :: !Technical(f.code)
    {
      var vm := vms[i];
      RolesStep(vms, i);
      TemplatesStep(vms, i);
      if vm.role in roles {
        issues := issues + [Finding(DuplicateVmRole, None)];
      }
      roles := roles + {vm.role};
      if vm.source.ApprovedTemplate? {
        if vm.source.reference in templates {
          issues := issues + [Finding(DuplicateTemplate, None)];
        }
        templates := templates + {vm.source.reference};
      }
    }
    assert vms[..|vms|] == vms;
  }

  /** The reference checks report something exactly when a reference is broken. */
  method CheckReferences(m: Manifest) returns (issues: seq<Finding>)
    ensures issues == [] <==> ReferencesOk(m)
    ensures forall f <- issues :: !Technical(f.code)
  {
    issues := CheckMachines(m.vms);
    var roles := Roles(m.vms);
    ghost var early := issues;
    for i := 0 to |m.rules|
      invariant issues == [] <==>
                early == [] && forall k :: 0 <= k < i ==> m.rules[k].fromRole in roles && m.rules[k].toRole in roles
      invariant forall f <- issues :: !Technical(f.code)
    {
      if m.rules[i].fromRole !in roles {
        issues := issues + [Finding(UnknownVmRole, None)];
      }
      if m.rules[i].toRole !in roles {
        issues := issues + [Finding(UnknownVmRole, None)];
      }
    }
    var flagIssues := CheckFlags(m.flags, roles);
    issues := issues + flagIssues;
  }

  method CheckFlags(flags: seq<Flag>, roles: set<string>) returns (issues: seq<Finding>)
    ensures issues == [] <==>
            && (forall f <- flags :: f.vmRole.Some? ==> f.vmRole.value in roles)
            && (forall i, j :: 0 <= i < j < |flags| ==> !Clash(flags[i], flags[j]))
    ensures forall f <- issues :: !Technical(f.code)
  {
    issues := [];
    var names: set<(Option<string>, string)> := {};
    var hashes: set<Hash> := {};
    var sequences: set<(Option<string>, Option<nat>)> := {};
    for i := 0 to |flags|
      invariant names == set k | 0 <= k < i :: (flags[k].vmRole, flags[k].name)
      invariant hashes == set k | 0 <= k < i :: flags[k].hash
      invariant sequences == set k | 0 <= k < i :: (flags[k].vmRole, flags[k].sequence)
      invariant issues == [] <==>
                && (forall k :: 0 <= k < i && flags[k].vmRole.Some? ==> flags[k].vmRole.value in roles)
                && (forall k, j :: 0 <= k < j < i ==> !Clash(flags[k], flags[j]))
      invariant forall f <- issues :: !Technical(f.code)
    {
      var flag := flags[i];
      if flag.vmRole.Some? && flag.vmRole.value !in roles {
        issues := issues + [Finding(UnknownVmRole, None)];
      }
      var name, seq_ := (flag.vmRole, flag.name), (flag.vmRole, flag.sequence);
      if name in names || flag.hash in hashes || (seq_.1.Some? && seq_ in sequences) {
        issues := issues + [Finding(DuplicateFlag, None)];
      }
      names, hashes, sequences := names + {name}, hashes + {flag.hash}, sequences + {seq_};
    }
  }

  ghost predicate DistinctRecords(a: FileRecord, b: FileRecord) {
    a.path != b.path && a.file != b.file && a.key != b.key
  }

  /** The first `n` records are well formed, belong to `s` and share nothing. */
  ghost predicate CleanUpTo(s: Id, files: seq<FileRecord>, n: nat)
    requires n <= |files|
  {
    && (forall r <- files[..n] :: r.file > 0 && r.submission == s)
    && (forall i, j :: 0 <= i < j < n ==> DistinctRecords(files[i], files[j]))
  }

  ghost predicate CleanAt(s: Id, files: seq<FileRecord>, n: nat)
    requires n < |files|
  {
    && files[n].file > 0 && files[n].submission == s
    && (forall i :: 0 <= i < n ==> DistinctRecords(files[i], files[n]))
  }

  function Paths(files: seq<FileRecord>): set<string> {
    set r | r in files :: r.path
  }

  function Identifiers(files: seq<FileRecord>): set<Id> {
    set r | r in files :: r.file
  }

  function Keys(files: seq<FileRecord>): set<StorageKey> {
    set r | r in files :: r.key
  }

  lemma SeenBefore(files: seq<FileRecord>, r: FileRecord)
    ensures (forall i :: 0 <= i < |files| ==> DistinctRecords(files[i], r))
       <==> r.path !in Paths(files) && r.file !in Identifiers(files) && r.key !in Keys(files)
  {
    if forall i :: 0 <= i < |files| ==> DistinctRecords(files[i], r) {
    } else {
      var i :| 0 <= i < |files| && !DistinctRecords(files[i], r);
      assert files[i] in files;
    }
  }

  lemma CleanStep(s: Id, files: seq<FileRecord>, n: nat)
    requires n < |files|
    ensures CleanUpTo(s, files, n + 1) <==> CleanUpTo(s, files, n) && CleanAt(s, files, n)
    ensures CleanAt(s, files, n) <==>
            && files[n].file > 0 && files[n].submission == s
            && files[n].path !in Paths(files[..n]) && files[n].file !in Identifiers(files[..n])
            && files[n].key !in Keys(files[..n])
  {
    assert files[..n + 1] == files[..n] + [files[n]];
    SeenBefore(files[..n], files[n]);
    assert forall i :: 0 <= i < n ==> files[..n][i] == files[i];
  }

  lemma SeenStep(files: seq<FileRecord>, n: nat)
    requires n < |files|
    ensures TotalSize(files[..n + 1]) == TotalSize(files[..n]) + files[n].size
    ensures Paths(files[..n + 1]) == Paths(files[..n]) + {files[n].path}
    ensures Identifiers(files[..n + 1]) == Identifiers(files[..n]) + {files[n].file}
    ensures Keys(files[..n + 1]) == Keys(files[..n]) + {files[n].key}
  {
    assert files[..n + 1] == files[..n] + [files[n]];
    assert files[..n + 1][..n] == files[..n];
  }

  /** The inventory scan reports something exactly when the inventory is malformed,
      and then only infrastructure findings. */
  method CheckInventory(s: Id, files: seq<FileRecord>) returns (issues: seq<Finding>, total: nat)
    ensures issues == [] <==> InventoryOk(s, files)
    ensures forall f <- issues :: f.code == InvalidInventory
    ensures issues == [] ==> total == TotalSize(files)
  {
    issues, total := [], 0;
    if |files| > MAX_VMS {
      return [Finding(InvalidInventory, None)], 0;
    }
    var paths: set<string>, identifiers: set<Id>, keys: set<StorageKey> := {}, {}, {};
    for i := 0 to |files|
      invariant issues == [] <==> CleanUpTo(s, files, i)
      invariant issues == [] ==>
                && paths == Paths(files[..i])
                && identifiers == Identifiers(files[..i])
                && keys == Keys(files[..i])
                && total == TotalSize(files[..i])
      invariant forall f <- issues :: f.code == InvalidInventory
    {
      var record := files[i];
      CleanStep(s, files, i);
      SeenStep(files, i);
      if record.file == 0 || record.submission != s {
        issues := issues + [Finding(InvalidInventory, None)];
      } else {
        if record.path in paths || record.file in identifiers || record.key in keys {
          issues := issues + [Finding(InvalidInventory, None)];
        }
        paths, identifiers, keys := paths + {record.path}, identifiers + {record.file}, keys + {record.key};
        total := total + record.size;
      }
    }
    assert files[..|files|] == files;
  }

  /** The declared files are compared with the image paths of the manifest. */
  method CheckFiles(m: Manifest, files: seq<FileRecord>, total: nat) returns (issues: seq<Finding>)
    requires total == TotalSize(files)
    ensures issues == [] <==> FilesOk(m, files)
    ensures forall f <- issues :: !Technical(f.code)
  {
    issues := [];
    if total > MAX_TOTAL_IMAGE_BYTES {
      issues := [Finding(PackageTooLarge, None)];
    }
    var paths := Paths(files);
    var expected := ImagePaths(m.vms);
    if !(expected <= paths) {
      issues := issues + [Finding(MissingImage, None)];
    }
    ghost var early := issues;
    assert early == [] <==> total <= MAX_TOTAL_IMAGE_BYTES && expected <= paths;
    for i := 0 to |files|
      invariant issues == [] <==>
                && early == []
                && (forall k :: 0 <= k < i ==>
                      files[k].path in expected && files[k].role == "image" && 0 < files[k].size <= MAX_IMAGE_BYTES)
      invariant forall f <- issues :: !Technical(f.code)
    {
      var record := files[i];
      if record.path !in expected {
        issues := issues + [Finding(UnexpectedFile, Some(record.file))];
      }
      if record.role != "image" {
        issues := issues + [Finding(WrongFileRole, Some(record.file))];
      }
      if record.size == 0 || record.size > MAX_IMAGE_BYTES {
        issues := issues + [Finding(InvalidFileSize, Some(record.file))];
      }
    }
    assert paths <= expected <==> forall k :: 0 <= k < |files| ==> files[k].path in expected;
  }

  /** The external checks: template catalogue, stored bytes, image inspection. */
  method RunChecks(m: Manifest, files: seq<FileRecord>, checks: Checks) returns (issues: seq<Finding>)
    ensures issues == [] <==> ChecksPass(m, files, checks)
  {
    issues := [];
    for i := 0 to |m.vms|
      invariant issues == [] <==>
                forall k :: 0 <= k < i && m.vms[k].source.ApprovedTemplate? ==> checks.template(m.vms[k]) == Accepts
    {
      if m.vms[i].source.ApprovedTemplate? {
        match checks.template(m.vms[i])
        case Accepts =>
        case Rejects => issues := issues + [Finding(TemplateRejected, None)];
        case Unavailable => issues := issues + [Finding(CheckUnavailable, None)];
      }
    }
    ghost var early := issues;
    for i := 0 to |files|
      invariant issues == [] <==> early == [] && forall k :: 0 <= k < i ==> BytesOk(files[k], checks)
    {
      var record := files[i];
      match checks.read(record)
      case Unreadable => issues := issues + [Finding(StorageUnavailable, Some(record.file))];
      case Bytes(size, hash, qcow2) =>
        if size != record.size || hash != record.hash {
          issues := issues + [Finding(FileChanged, Some(record.file))];
        } else if !qcow2 {
          issues := issues + [Finding(InvalidImageFormat, Some(record.file))];
        } else {
          match checks.inspect(record)
          case Accepts =>
          case Rejects => issues := issues + [Finding(ImageRejected, Some(record.file))];
          case Unavailable => issues := issues + [Finding(CheckUnavailable, Some(record.file))];
        }
    }
  }

  /** Everything a passed report vouches for. */
  ghost predicate Acceptable(m: Manifest, files: seq<FileRecord>, s: Id, challengeType: ChallengeType,
                             schemaVersion: nat, expected: Option<Digest>, checks: Checks)
  {
    && SchemaOk(m)
    && m.schemaVersion == schemaVersion && m.challengeType == challengeType
    && ReferencesOk(m)
    && InventoryOk(s, files)
    && FilesOk(m, files)
    && expected == Some(Digest(m, Entries(files)))
    && ChecksPass(m, files, checks)
  }

  /** The report is empty exactly for an acceptable revision; a malformed inventory is
      always reported as an infrastructure failure when the manifest parses. */
  method ValidateSubmission(m: Manifest, files: seq<FileRecord>, s: Id, challengeType: ChallengeType,
                            schemaVersion: nat, expected: Option<Digest>, checks: Checks)
    returns (report: seq<Finding>)
    ensures report == [] <==> Acceptable(m, files, s, challengeType, schemaVersion, expected, checks)
    ensures SchemaOk(m) && !InventoryOk(s, files) ==> SuggestedStatus(report) == ValidationFailed
    ensures SchemaOk(m) && InventoryOk(s, files) && !ReferencesOk(m) ==> SuggestedStatus(report) == NeedsChanges
  {
    if !SchemaOk(m) {
      return [Finding(InvalidField, None)];
    }
    report := [];
    if m.schemaVersion != schemaVersion || m.challengeType != challengeType {
      report := [Finding(SubmissionMismatch, None)];
    }
    var references := CheckReferences(m);
    report := report + references;
    var inventory, total := CheckInventory(s, files);
    report := report + inventory;
    if inventory != [] {
      assert inventory[0] in report && Technical(inventory[0].code);
      return;
    }
    var shape := CheckFiles(m, files, total);
    report := report + shape;
    if expected != Some(Digest(m, Entries(files))) {
      report := report + [Finding(ContentChanged, None)];
    }
    if report != [] {
      return;
    }
    report := RunChecks(m, files, checks);
  }
}
