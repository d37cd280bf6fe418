/** What intake conserves: quotas, the draft limit, and the match between file rows and
    stored objects. */
module Conservation {
  import opened Schema
  import opened Validation
  import opened Publication
  import opened Intake

  // ----- sums over file rows -------------------------------------------------------------

  lemma {:induction false} SumInsert(files: map<Id, File>, ids: set<Id>, f: Id)
    requires ids <= files.Keys && f in files && f !in ids
    ensures Sum(files, ids + {f}) == files[f].size + Sum(files, ids)
    decreases |ids|
  {
    var all := ids + {f};
    var g :| g in all && Sum(files, all) == files[g].size + Sum(files, all - {g});
    if g == f {
      assert all - {g} == ids;
    } else {
      assert all - {g} == (ids - {g}) + {f};
      SumInsert(files, ids - {g}, f);
      assert (ids - {g}) + {g} == ids;
      SumInsert(files, ids - {g}, g);
    }
  }

  lemma {:induction false} SumFrame(a: map<Id, File>, b: map<Id, File>, ids: set<Id>)
    requires ids <= a.Keys && ids <= b.Keys && forall f <- ids :: a[f].size == b[f].size
    ensures Sum(a, ids) == Sum(b, ids)
    decreases |ids|
  {
    if ids != {} {
      var f :| f in ids;
      SumFrame(a, b, ids - {f});
      SumInsert(a, ids - {f}, f);
      SumInsert(b, ids - {f}, f);
      assert (ids - {f}) + {f} == ids;
    }
  }

  lemma {:induction false} SumUnion(files: map<Id, File>, a: set<Id>, b: set<Id>)
    requires a <= files.Keys && b <= files.Keys && a !! b
    ensures Sum(files, a + b) == Sum(files, a) + Sum(files, b)
    decreases |b|
  {
    if b == {} {
      assert a + b == a;
    } else {
      var f :| f in b;
      SumUnion(files, a, b - {f});
      SumInsert(files, b - {f}, f);
      SumInsert(files, a + (b - {f}), f);
      assert (b - {f}) + {f} == b;
      assert a + (b - {f}) + {f} == a + b;
    }
  }

  lemma SumShrinks(a: map<Id, File>, b: map<Id, File>, more: set<Id>, less: set<Id>)
    requires more <= a.Keys && less <= b.Keys && less <= more && forall f <- less :: a[f].size == b[f].size
    ensures Sum(b, less) <= Sum(a, more)
  {
    SumFrame(a, b, less);
    SumUnion(a, less, more - less);
    assert less + (more - less) == more;
  }

  // ----- the invariant -----------------------------------------------------------------------

  ghost function Total(p: Pond): nat {
    Sum(p.files, p.files.Keys)
  }

  ghost function OfUser(p: Pond, u: Id): nat {
    Sum(p.files, FilesOwnedBy(p, u))
  }

  ghost function OfSubmission(p: Pond, s: Id): nat {
    Sum(p.files, FilesOf(p.files, s))
  }

  ghost predicate WithinQuotas(p: Pond, limits: Limits) {
    && Total(p) <= limits.total
    && (forall u :: OfUser(p, u) <= limits.user)
    && (forall s :: OfSubmission(p, s) <= MAX_TOTAL_IMAGE_BYTES)
  }

  /** There is still room for `extra` bytes of owner `u`, in submission `s` or a new one. */
  ghost predicate Room(p: Pond, limits: Limits, u: Id, s: Option<Id>, extra: nat) {
    && Total(p) + extra <= limits.total
    && OfUser(p, u) + extra <= limits.user
    && (if s.Some? then OfSubmission(p, s.value) else 0) + extra <= MAX_TOTAL_IMAGE_BYTES
  }

  ghost predicate DraftsBounded(submissions: map<Id, Submission>) {
    forall u :: |DraftsOf(submissions, u)| <= MAX_DRAFTS
  }

  function FileKeys(files: map<Id, File>): set<StorageKey> {
    set f | f in files :: files[f].key
  }

  ghost predicate KeysDistinct(files: map<Id, File>) {
    forall f, g :: f in files && g in files && f != g ==> files[f].key != files[g].key
  }

  ghost predicate PathsDistinct(files: map<Id, File>) {
    forall f, g :: f in files && g in files && f != g && files[f].submission == files[g].submission ==>
      files[f].path != files[g].path
  }

  /** The stored objects are those of the file rows, with equal sizes and hashes, plus
      those that no row names. */
  ghost predicate ObjectsMatch(files: map<Id, File>, objects: map<StorageKey, Blob>, pending: set<StorageKey>) {
    && objects.Keys == FileKeys(files) + pending
    && FileKeys(files) !! pending
    && (forall f <- files :: objects[files[f].key] == Blob(files[f].size, files[f].hash))
  }

  /** The directory holds the objects of rows, of the operation under way, and of crashes. */
  ghost predicate DirectoryOk(p: Pond) {
    && ObjectsMatch(p.files, p.objects, PendingKeys(p.intake) + p.orphans)
    && PendingKeys(p.intake) !! p.orphans
  }

  /** What the operation that holds the lock has checked and done so far. */
  ghost predicate OperationOk(p: Pond, limits: Limits) {
    match p.intake
    case Idle => true
    case Uploading(_, s, path, declared) =>
      && s in p.submissions && Room(p, limits, p.submissions[s].owner, Some(s), declared)
      && (forall f <- p.files :: p.files[f].submission == s ==> p.files[f].path != path)
    case Stored(_, s, path, key, blob) =>
      && s in p.submissions && Room(p, limits, p.submissions[s].owner, Some(s), blob.size)
      && (forall f <- p.files :: p.files[f].submission == s ==> p.files[f].path != path)
      && key in p.objects && p.objects[key] == blob
    case Revising(u, s, todo, copies) =>
      && Room(p, limits, u, None, OfSubmission(p, s)) && |DraftsOf(p.submissions, u)| < MAX_DRAFTS
      && CopiesOk(p.files, p.objects, s, todo, copies)
  }

  /** Done and to-do copies together list the files of `s` once each; every copy made is
      an equal object under its own key. */
  ghost predicate CopiesOk(files: map<Id, File>, objects: map<StorageKey, Blob>, s: Id, todo: seq<Id>,
                           copies: seq<Copy>) {
    && Lists(Copied(copies) + todo, FilesOf(files, s))
    && (forall i, k :: 0 <= i < k < |copies| ==> copies[i].key != copies[k].key)
    && (forall c <- copies :: c.file in files && c.key in objects
                              && objects[c.key] == Blob(files[c.file].size, files[c.file].hash))
  }

  function Copied(copies: seq<Copy>): seq<Id> {
    seq(|copies|, i requires 0 <= i < |copies| => copies[i].file)
  }

  ghost predicate Conserved(p: Pond, limits: Limits) {
    && WithinQuotas(p, limits)
    && DraftsBounded(p.submissions)
    && KeysDistinct(p.files) && PathsDistinct(p.files)
    && DirectoryOk(p)
    && OperationOk(p, limits)
  }

  // ----- steps of other actors -------------------------------------------------------------------

  /** File rows keep everything but their verdict, drafts may only become frozen. */
  ghost predicate BooksKept(p: Pond, q: Pond) {
    && q.files.Keys == p.files.Keys
    && (forall f <- p.files ::
          q.files[f].submission == p.files[f].submission && EntryOf(q.files[f]) == EntryOf(p.files[f]))
    && q.submissions.Keys == p.submissions.Keys
    && (forall s <- p.submissions :: q.submissions[s].owner == p.submissions[s].owner
                                     && (q.submissions[s].status == Draft ==> p.submissions[s].status == Draft))
    && q.objects == p.objects && q.orphans == p.orphans && q.intake == p.intake
  }

  lemma BooksSums(p: Pond, q: Pond)
    requires BooksKept(p, q)
    ensures Total(q) == Total(p)
    ensures forall u :: OfUser(q, u) == OfUser(p, u)
    ensures forall s :: OfSubmission(q, s) == OfSubmission(p, s) && FilesOf(q.files, s) == FilesOf(p.files, s)
  {
    SumFrame(p.files, q.files, p.files.Keys);
    forall u ensures OfUser(q, u) == OfUser(p, u) {
      assert FilesOwnedBy(q, u) == FilesOwnedBy(p, u);
      SumFrame(p.files, q.files, FilesOwnedBy(p, u));
    }
    forall s ensures OfSubmission(q, s) == OfSubmission(p, s) && FilesOf(q.files, s) == FilesOf(p.files, s) {
      assert FilesOf(q.files, s) == FilesOf(p.files, s);
      SumFrame(p.files, q.files, FilesOf(p.files, s));
    }
  }

  lemma DraftsShrink(p: map<Id, Submission>, q: map<Id, Submission>, u: Id)
    requires forall s <- q :: q[s].status == Draft ==> s in p && p[s].status == Draft && p[s].owner == q[s].owner
    ensures |DraftsOf(q, u)| <= |DraftsOf(p, u)|
  {
    SubsetSize(DraftsOf(q, u), DraftsOf(p, u));
  }

  lemma {:induction false} SubsetSize<T>(a: set<T>, b: set<T>)
    requires a <= b
    ensures |a| <= |b|
    decreases |a|
  {
    if a != {} {
      var x :| x in a;
      SubsetSize(a - {x}, b - {x});
    }
  }

  lemma BooksObjects(p: Pond, q: Pond)
    requires BooksKept(p, q)
    ensures FileKeys(q.files) == FileKeys(p.files)
    ensures KeysDistinct(p.files) ==> KeysDistinct(q.files)
    ensures PathsDistinct(p.files) ==> PathsDistinct(q.files)
    ensures DirectoryOk(p) ==> DirectoryOk(q)
  {
    forall f <- p.files ensures q.files[f].key == p.files[f].key && q.files[f].path == p.files[f].path
                                && q.files[f].size == p.files[f].size && q.files[f].hash == p.files[f].hash {
      assert EntryOf(q.files[f]) == EntryOf(p.files[f]);
    }
    assert FileKeys(q.files) == FileKeys(p.files);
  }

  lemma BooksOperation(p: Pond, q: Pond, limits: Limits)
    requires BooksKept(p, q) && OperationOk(p, limits)
    ensures OperationOk(q, limits)
  {
    hide Total, OfUser, OfSubmission, DraftsOf, FilesOf;
    BooksSums(p, q);
    forall f <- p.files ensures q.files[f].path == p.files[f].path
                                && q.files[f].size == p.files[f].size && q.files[f].hash == p.files[f].hash {
      assert EntryOf(q.files[f]) == EntryOf(p.files[f]);
    }
    if p.intake.Revising? {
      DraftsShrink(p.submissions, q.submissions, p.intake.user);
    }
  }

  /** Workers, reviewers and publishers leave the books of intake alone. */
  lemma BooksKeptConserved(p: Pond, q: Pond, limits: Limits)
    requires BooksKept(p, q) && Conserved(p, limits)
    ensures Conserved(q, limits)
  {
    hide KeysDistinct, PathsDistinct, DirectoryOk, OperationOk, Total, OfUser, OfSubmission, DraftsOf;
    BooksSums(p, q);
    BooksObjects(p, q);
    BooksOperation(p, q, limits);
    forall u ensures |DraftsOf(q.submissions, u)| <= MAX_DRAFTS {
      DraftsShrink(p.submissions, q.submissions, u);
    }
  }

  // ----- one draft more ----------------------------------------------------------------------------

  lemma DraftsGrow(p: map<Id, Submission>, s: Id, row: Submission, u: Id)
    requires s !in p && row.status == Draft
    ensures |DraftsOf(p[s := row], u)| == |DraftsOf(p, u)| + if row.owner == u then 1 else 0
  {
    var before, after := DraftsOf(p, u), DraftsOf(p[s := row], u);
    if row.owner == u {
      assert after == before + {s};
    } else {
      assert after == before;
    }
  }

  lemma NewRowSums(p: Pond, q: Pond, s: Id)
    requires q.files == p.files && s !in p.submissions && s in q.submissions
             && q.submissions == p.submissions[s := q.submissions[s]]
    requires forall f <- p.files :: p.files[f].submission in p.submissions
    ensures Total(q) == Total(p) && forall r :: OfSubmission(q, r) == OfSubmission(p, r)
    ensures forall u :: OfUser(q, u) == OfUser(p, u)
  {
    forall u ensures OfUser(q, u) == OfUser(p, u) {
      assert FilesOwnedBy(q, u) == FilesOwnedBy(p, u);
    }
  }

  lemma CreateConserves(p: Pond, limits: Limits, user: Id, m: Manifest)
    requires Conserved(p, limits) && Create(p, user, m).Committed?
    requires (forall s <- p.submissions :: s < p.next) && forall f <- p.files :: p.files[f].submission in p.submissions
    ensures Conserved(Create(p, user, m).pond, limits)
  {
    hide KeysDistinct, PathsDistinct, ObjectsMatch, Total, OfUser, OfSubmission, DraftsOf, SchemaOk;
    var q := Create(p, user, m).pond;
    NewRowSums(p, q, p.next);
    forall u ensures |DraftsOf(q.submissions, u)| <= MAX_DRAFTS {
      DraftsGrow(p.submissions, p.next, q.submissions[p.next], u);
    }
  }

  /** Sums depend on file rows and owners only. */
  lemma SameRowsSameSums(p: Pond, q: Pond)
    requires q.files == p.files && q.submissions == p.submissions
    ensures Total(q) == Total(p)
    ensures forall u :: OfUser(q, u) == OfUser(p, u)
    ensures forall s :: OfSubmission(q, s) == OfSubmission(p, s)
  {
    forall u ensures OfUser(q, u) == OfUser(p, u) {
      assert FilesOwnedBy(q, u) == FilesOwnedBy(p, u);
    }
  }

  // ----- removing a file -------------------------------------------------------------------------------

  /** File rows went away and nothing else about rows changed. */
  ghost predicate Shrunk(p: Pond, q: Pond) {
    && q.submissions == p.submissions && q.files.Keys <= p.files.Keys
    && (forall f <- q.files :: q.files[f] == p.files[f])
  }

  lemma ShrunkSums(p: Pond, q: Pond, limits: Limits)
    requires Shrunk(p, q) && WithinQuotas(p, limits)
    ensures WithinQuotas(q, limits)
  {
    SumShrinks(p.files, q.files, p.files.Keys, q.files.Keys);
    forall u ensures OfUser(q, u) <= limits.user {
      assert FilesOwnedBy(q, u) <= FilesOwnedBy(p, u);
      assert OfUser(p, u) <= limits.user;
      SumShrinks(p.files, q.files, FilesOwnedBy(p, u), FilesOwnedBy(q, u));
    }
    forall r ensures OfSubmission(q, r) <= MAX_TOTAL_IMAGE_BYTES {
      assert OfSubmission(p, r) <= MAX_TOTAL_IMAGE_BYTES;
      SumShrinks(p.files, q.files, FilesOf(p.files, r), FilesOf(q.files, r));
    }
  }

  lemma RemovedObjects(files: map<Id, File>, objects: map<StorageKey, Blob>, lost: set<StorageKey>, f: Id)
    requires f in files && KeysDistinct(files) && ObjectsMatch(files, objects, lost)
    ensures ObjectsMatch(files - {f}, objects - {files[f].key}, lost)
    ensures ObjectsMatch(files - {f}, objects, lost + {files[f].key})
  {
    var after := files - {f};
    forall k ensures k in FileKeys(after) <==> k in FileKeys(files) && k != files[f].key {
      if k in FileKeys(files) && k != files[f].key {
        var g :| g in files && files[g].key == k;
        assert g in after;
      }
    }
  }

  lemma NonePending(p: Pond)
    requires p.intake.Idle? || p.intake.Uploading?
    ensures PendingKeys(p.intake) + p.orphans == p.orphans
  {
  }

  lemma RemoveConserves(p: Pond, limits: Limits, user: Id, s: Id, f: Id)
    requires Conserved(p, limits) && RemoveFile(p, user, s, f).Committed?
    ensures Conserved(RemoveFile(p, user, s, f).pond, limits)
  {
    hide DraftsOf, WithinQuotas, ObjectsMatch, DraftsBounded;
    var q := RemoveFile(p, user, s, f).pond;
    ShrunkSums(p, q, limits);
    NonePending(p);
    RemovedObjects(p.files, p.objects, p.orphans, f);
  }

  /** An object that is not deleted behind the commit stays without its row. */
  lemma LoseConserves(p: Pond, limits: Limits, user: Id, s: Id, f: Id)
    requires Conserved(p, limits)
    ensures Conserved(LostFile(p, user, s, f), limits)
  {
    hide DraftsOf, WithinQuotas, ObjectsMatch, DraftsBounded;
    var q := LostFile(p, user, s, f);
    if RemoveFile(p, user, s, f).Committed? {
      ShrunkSums(p, q, limits);
      NonePending(p);
      NonePending(q);
      RemovedObjects(p.files, p.objects, p.orphans, f);
    }
  }

  // ----- steps that leave the rows alone -------------------------------------------------------------------

  lemma RowsAloneConserves(p: Pond, q: Pond, limits: Limits)
    requires Conserved(p, limits) && q.files == p.files && q.submissions == p.submissions
    requires DirectoryOk(q) && OperationOk(q, limits)
    ensures Conserved(q, limits)
  {
    hide KeysDistinct, PathsDistinct, DirectoryOk, OperationOk, PendingKeys, DraftsBounded, Total, OfUser, OfSubmission;
    SameRowsSameSums(p, q);
  }

  lemma RoomFrame(p: Pond, q: Pond, limits: Limits, u: Id, s: Option<Id>, extra: nat)
    requires q.files == p.files && q.submissions == p.submissions
    ensures Room(p, limits, u, s, extra) <==> Room(q, limits, u, s, extra)
  {
    hide Total, OfUser, OfSubmission;
    SameRowsSameSums(p, q);
  }

  // ----- uploading -----------------------------------------------------------------------------------------

  lemma BeginUploadConserves(p: Pond, limits: Limits, user: Id, s: Id, path: string, declared: nat, free: bool)
    requires Conserved(p, limits) && BeginUpload(p, limits, user, s, path, declared, free).Committed?
    ensures Conserved(BeginUpload(p, limits, user, s, path, declared, free).pond, limits)
  {
    hide DraftsOf, KeysDistinct, PathsDistinct, ImagePaths, ObjectsMatch, WithinQuotas, Room;
    var q := BeginUpload(p, limits, user, s, path, declared, free).pond;
    UploadRoom(p, limits, user, s, path, declared, free);
    hide QuotaAllows;
    RoomFrame(p, q, limits, p.submissions[s].owner, Some(s), declared);
    RowsAloneConserves(p, q, limits);
  }

  lemma UploadRoom(p: Pond, limits: Limits, user: Id, s: Id, path: string, declared: nat, free: bool)
    requires BeginUpload(p, limits, user, s, path, declared, free).Committed?
    ensures s in p.submissions && Room(p, limits, p.submissions[s].owner, Some(s), declared)
  {
    hide DraftsOf, ImagePaths;
  }

  lemma StoredConserves(p: Pond, q: Pond, limits: Limits, key: StorageKey, blob: Blob)
    requires Conserved(p, limits) && p.intake.Uploading? && key !in p.objects && blob.size == p.intake.declared
    requires q == p.(objects := p.objects[key := blob],
                     intake := Stored(p.intake.user, p.intake.submission, p.intake.path, key, blob))
    ensures Conserved(q, limits)
  {
    hide DraftsOf, KeysDistinct, PathsDistinct, WithinQuotas, Room, ObjectsMatch;
    RoomFrame(p, q, limits, p.submissions[p.intake.submission].owner, Some(p.intake.submission), blob.size);
    NonePending(p);
    StoredObjects(p.files, p.objects, p.orphans, key, blob);
    assert p.orphans + {key} == PendingKeys(q.intake) + q.orphans;
    RowsAloneConserves(p, q, limits);
  }

  lemma StoreUploadConserves(p: Pond, limits: Limits, key: StorageKey, blob: Blob)
    requires Conserved(p, limits) && StoreUpload(p, key, blob).Committed?
    ensures Conserved(StoreUpload(p, key, blob).pond, limits)
  {
    hide Conserved;
    var q := StoreUpload(p, key, blob).pond;
    if blob.size == p.intake.declared {
      StoredConserves(p, q, limits, key, blob);
    } else {
      AbortConserves(p, limits);
    }
  }

  lemma StoredObjects(files: map<Id, File>, objects: map<StorageKey, Blob>, pending: set<StorageKey>, key: StorageKey,
                      blob: Blob)
    requires ObjectsMatch(files, objects, pending) && key !in objects
    ensures ObjectsMatch(files, objects[key := blob], pending + {key}) && key !in pending
  {
    assert forall f <- files :: files[f].key in FileKeys(files);
  }

  lemma AddedSums(p: Pond, q: Pond, n: Id, row: File)
    requires n !in p.files && q.files == p.files[n := row] && q.submissions == p.submissions
             && row.submission in p.submissions
    ensures Total(q) == Total(p) + row.size
    ensures forall u :: OfUser(q, u) == OfUser(p, u) + if p.submissions[row.submission].owner == u then row.size else 0
    ensures forall s :: OfSubmission(q, s) == OfSubmission(p, s) + if row.submission == s then row.size else 0
  {
    assert q.files.Keys == p.files.Keys + {n};
    SumFrame(p.files, q.files, p.files.Keys);
    SumInsert(q.files, p.files.Keys, n);
    forall u ensures OfUser(q, u) == OfUser(p, u) + if p.submissions[row.submission].owner == u then row.size else 0 {
      SumFrame(p.files, q.files, FilesOwnedBy(p, u));
      if p.submissions[row.submission].owner == u {
        assert FilesOwnedBy(q, u) == FilesOwnedBy(p, u) + {n};
        SumInsert(q.files, FilesOwnedBy(p, u), n);
      } else {
        assert FilesOwnedBy(q, u) == FilesOwnedBy(p, u);
      }
    }
    forall s ensures OfSubmission(q, s) == OfSubmission(p, s) + if row.submission == s then row.size else 0 {
      SumFrame(p.files, q.files, FilesOf(p.files, s));
      if row.submission == s {
        assert FilesOf(q.files, s) == FilesOf(p.files, s) + {n};
        SumInsert(q.files, FilesOf(p.files, s), n);
      } else {
        assert FilesOf(q.files, s) == FilesOf(p.files, s);
      }
    }
  }

  lemma AddedKeys(files: map<Id, File>, n: Id, row: File)
    requires n !in files
    ensures FileKeys(files[n := row]) == FileKeys(files) + {row.key}
    ensures KeysDistinct(files) && row.key !in FileKeys(files) ==> KeysDistinct(files[n := row])
  {
    var after := files[n := row];
    forall k ensures k in FileKeys(after) <==> k in FileKeys(files) + {row.key} {
      if k in FileKeys(files) {
        var f :| f in files && files[f].key == k;
        assert after[f].key == k;
      }
      assert after[n].key == row.key;
    }
  }

  lemma RecordUploadConserves(p: Pond, limits: Limits)
    requires Conserved(p, limits) && RecordUpload(p).Committed? && p.next !in p.files
    ensures Conserved(RecordUpload(p).pond, limits)
  {
    var q := RecordUpload(p).pond;
    if RecordUpload(p).value {
      RecordedUpload(p, limits, q);
    } else {
      AbortConserves(p, limits);
      assert q == AbortIntake(p);
    }
  }

  /** The stored object of the upload becomes the object of a new row. */
  lemma RowedObjects(files: map<Id, File>, objects: map<StorageKey, Blob>, lost: set<StorageKey>, n: Id, row: File)
    requires ObjectsMatch(files, objects, {row.key} + lost) && n !in files && row.key in objects && row.key !in lost
    requires objects[row.key] == Blob(row.size, row.hash)
    ensures ObjectsMatch(files[n := row], objects, lost)
    ensures KeysDistinct(files) ==> KeysDistinct(files[n := row])
  {
    AddedKeys(files, n, row);
    hide FileKeys;
    forall f <- files ensures files[f].key in FileKeys(files) {
      KeyListed(files, f);
    }
  }

  lemma RowedPaths(files: map<Id, File>, n: Id, row: File)
    requires PathsDistinct(files) && n !in files
    requires forall f <- files :: files[f].submission == row.submission ==> files[f].path != row.path
    ensures PathsDistinct(files[n := row])
  {
  }

  lemma RowedQuotas(p: Pond, q: Pond, limits: Limits, n: Id, row: File)
    requires WithinQuotas(p, limits) && n !in p.files && q.files == p.files[n := row] && q.submissions == p.submissions
    requires row.submission in p.submissions
    requires Room(p, limits, p.submissions[row.submission].owner, Some(row.submission), row.size)
    ensures WithinQuotas(q, limits)
  {
    hide Total, OfUser, OfSubmission;
    AddedSums(p, q, n, row);
  }

  lemma RecordedUpload(p: Pond, limits: Limits, q: Pond)
    requires Conserved(p, limits) && RecordUpload(p).Committed? && p.next !in p.files
    requires RecordUpload(p).value && q == RecordUpload(p).pond
    ensures Conserved(q, limits)
  {
    hide DraftsOf, ObjectsMatch, WithinQuotas, KeysDistinct, PathsDistinct, Room, OwnedProblem;
    var up := p.intake;
    RowedConserves(p, q, limits, p.next,
                   File(up.submission, up.path, "image", up.key, up.blob.size, up.blob.hash, Pending));
  }

  lemma RowedConserves(p: Pond, q: Pond, limits: Limits, n: Id, row: File)
    requires Conserved(p, limits) && p.intake.Stored? && n !in p.files
    requires row == File(p.intake.submission, p.intake.path, row.role, p.intake.key, p.intake.blob.size,
                         p.intake.blob.hash,
                         row.check)
    requires q.files == p.files[n := row] && q.submissions == p.submissions && q.intake == Idle
    requires q.objects == p.objects && q.orphans == p.orphans
    ensures Conserved(q, limits)
  {
    hide DraftsOf, ObjectsMatch, WithinQuotas, KeysDistinct, PathsDistinct, Room, DraftsBounded;
    RowedQuotas(p, q, limits, n, row);
    RowedObjects(p.files, p.objects, p.orphans, n, row);
    NonePending(q);
    RowedPaths(p.files, n, row);
  }

  lemma DroppedObjects(files: map<Id, File>, objects: map<StorageKey, Blob>, pending: set<StorageKey>,
                       lost: set<StorageKey>)
    requires ObjectsMatch(files, objects, pending + lost) && pending !! lost
    ensures ObjectsMatch(files, objects - pending, lost)
  {
    assert forall f <- files :: files[f].key in FileKeys(files);
  }

  lemma AbortShape(p: Pond)
    ensures AbortIntake(p) == p.(objects := p.objects - PendingKeys(p.intake), intake := Idle)
  {
    assert p.objects - {} == p.objects;
  }

  /** Ending an operation deletes its own objects and nothing else. */
  lemma AbortConserves(p: Pond, limits: Limits)
    requires Conserved(p, limits)
    ensures Conserved(AbortIntake(p), limits)
  {
    hide DraftsOf, KeysDistinct, PathsDistinct, WithinQuotas, Room, CopiesOk, ObjectsMatch, CopyKeys, AbortIntake;
    AbortShape(p);
    DroppedObjects(p.files, p.objects, PendingKeys(p.intake), p.orphans);
    NonePending(AbortIntake(p));
    RowsAloneConserves(p, AbortIntake(p), limits);
  }

  lemma KeptObjects(files: map<Id, File>, objects: map<StorageKey, Blob>, pending: set<StorageKey>,
                    lost: set<StorageKey>,
                    kept: set<StorageKey>, stray: map<StorageKey, Blob>)
    requires ObjectsMatch(files, objects, pending + lost) && pending !! lost && stray.Keys !! objects.Keys
    ensures ObjectsMatch(files, (objects - (pending - kept)) + stray, lost + pending * kept + stray.Keys)
  {
    assert forall f <- files :: files[f].key in FileKeys(files);
  }

  /** A broken operation leaves behind what is listed, and nothing else happens. */
  lemma BreakConserves(p: Pond, limits: Limits, kept: set<StorageKey>, stray: map<StorageKey, Blob>)
    requires Conserved(p, limits) && MayStray(p, stray)
    ensures Conserved(BrokenIntake(p, kept, stray), limits)
  {
    hide DraftsOf, KeysDistinct, PathsDistinct, WithinQuotas, Room, CopiesOk, ObjectsMatch, CopyKeys;
    var q := BrokenIntake(p, kept, stray);
    NonePending(q);
    KeptObjects(p.files, p.objects, PendingKeys(p.intake), p.orphans, kept, stray);
    RowsAloneConserves(p, q, limits);
  }

  // ----- revising ----------------------------------------------------------------------------------------------

  lemma BeginReviseConserves(p: Pond, limits: Limits, user: Id, s: Id, order: seq<Id>, free: bool)
    requires Conserved(p, limits) && BeginRevise(p, limits, user, s, order, free).Committed?
    ensures Conserved(BeginRevise(p, limits, user, s, order, free).pond, limits)
  {
    hide DraftsOf, KeysDistinct, PathsDistinct, WithinQuotas, ObjectsMatch, Lists, DraftsBounded;
    var q := BeginRevise(p, limits, user, s, order, free).pond;
    RoomFrame(p, q, limits, user, None, OfSubmission(p, s));
    assert Copied([]) + order == order;
    assert CopyKeys([]) == {};
    hide Room;
    RowsAloneConserves(p, q, limits);
  }

  lemma CopyOneMore(files: map<Id, File>, objects: map<StorageKey, Blob>, s: Id, todo: seq<Id>, copies: seq<Copy>,
                    key: StorageKey)
    requires CopiesOk(files, objects, s, todo, copies) && todo != [] && key !in objects
    requires todo[0] in files
    ensures CopiesOk(files, objects[key := Blob(files[todo[0]].size, files[todo[0]].hash)], s, todo[1..],
                     copies + [Copy(todo[0], key)])
  {
    hide Lists;
    var more := copies + [Copy(todo[0], key)];
    assert Copied(more) + todo[1..] == Copied(copies) + todo;
    forall i, k | 0 <= i < k < |more| ensures more[i].key != more[k].key {
      assert more[i] == copies[i] && copies[i] in copies;
    }
  }

  lemma CopiedConserves(p: Pond, q: Pond, limits: Limits, key: StorageKey)
    requires Conserved(p, limits) && p.intake.Revising? && p.intake.todo != [] && key !in p.objects
    requires p.intake.todo[0] in p.files && p.files[p.intake.todo[0]].key in p.objects
    requires q == p.(objects := p.objects[key := p.objects[p.files[p.intake.todo[0]].key]],
                     intake := p.intake.(todo := p.intake.todo[1..],
                                         copies := p.intake.copies + [Copy(p.intake.todo[0], key)]))
    ensures Conserved(q, limits)
  {
    hide DraftsOf, KeysDistinct, PathsDistinct, WithinQuotas, CopiesOk, Room, FileKeys, DraftsBounded, OfSubmission;
    var f, copies := p.intake.todo[0], p.intake.copies;
    CopyOneMore(p.files, p.objects, p.intake.source, p.intake.todo, copies, key);
    StoredObjects(p.files, p.objects, CopyKeys(copies) + p.orphans, key, p.objects[p.files[f].key]);
    assert CopyKeys(copies + [Copy(f, key)]) == CopyKeys(copies) + {key};
    assert CopyKeys(copies) + p.orphans + {key} == CopyKeys(copies) + {key} + p.orphans;
    hide ObjectsMatch;
    RoomFrame(p, q, limits, p.intake.user, None, OfSubmission(p, p.intake.source));
    SameRowsSameSums(p, q);
    RowsAloneConserves(p, q, limits);
  }

  lemma CopyNextConserves(p: Pond, limits: Limits, key: StorageKey)
    requires Conserved(p, limits) && CopyNext(p, key).Committed?
    ensures Conserved(CopyNext(p, key).pond, limits)
  {
    hide Conserved, AbortIntake;
    if CopyNext(p, key).value {
      CopiedConserves(p, CopyNext(p, key).pond, limits, key);
    } else {
      AbortConserves(p, limits);
    }
  }

  // ----- recording a revision -----------------------------------------------------------------------------------

  ghost predicate Once(ids: seq<Id>) {
    forall i, k :: 0 <= i < k < |ids| ==> ids[i] != ids[k]
  }

  function CopiedIds(copies: seq<Copy>): set<Id> {
    set f | f in Copied(copies)
  }

  lemma PushedSum(files: map<Id, File>, n: Id, row: File)
    requires n !in files
    ensures Sum(files[n := row], files[n := row].Keys) == Sum(files, files.Keys) + row.size
  {
    var after := files[n := row];
    assert after.Keys == files.Keys + {n};
    SumInsert(after, files.Keys, n);
    SumFrame(after, files, files.Keys);
  }

  lemma CopiedIdsStep(copies: seq<Copy>, n: nat)
    requires |copies| == n + 1 && Once(Copied(copies))
    ensures Once(Copied(copies[..n])) && CopiedIds(copies) == CopiedIds(copies[..n]) + {copies[n].file}
    ensures copies[n].file !in CopiedIds(copies[..n])
  {
    var ids := Copied(copies);
    assert Copied(copies[..n]) == ids[..n];
    assert ids == ids[..n] + [copies[n].file];
    if copies[n].file in CopiedIds(copies[..n]) {
      var i :| 0 <= i < n && ids[i] == ids[n];
    }
  }

  lemma RowsStep(files: map<Id, File>, copies: seq<Copy>, n: nat, s: Id, base: Id)
    requires (forall c <- copies :: c.file in files) && |copies| == n + 1
    ensures CopiedRows(files, copies, s, base)
         == CopiedRows(files, copies[..n], s, base)[base + n := CopiedRow(files, copies[n], s)]
  {
    hide CopiedRows, CopiedRow;
    var rows, before := CopiedRows(files, copies, s, base), CopiedRows(files, copies[..n], s, base);
    forall f ensures f in rows <==> f == base + n || f in before {
    }
    forall f | f in before ensures rows[f] == before[f] {
      assert copies[..n][f - base] == copies[f - base];
    }
  }

  /** The new rows carry the bytes of the files they were copied from. */
  ghost predicate SameBytes(files: map<Id, File>, copies: seq<Copy>, s: Id, base: Id)
    requires forall c <- copies :: c.file in files
  {
    var rows := CopiedRows(files, copies, s, base);
    CopiedIds(copies) <= files.Keys && Sum(rows, rows.Keys) == Sum(files, CopiedIds(copies))
  }

  lemma OneCopyMore(files: map<Id, File>, copies: seq<Copy>, n: nat, s: Id, base: Id)
    requires (forall c <- copies :: c.file in files) && Once(Copied(copies)) && |copies| == n + 1
    requires SameBytes(files, copies[..n], s, base)
    ensures SameBytes(files, copies, s, base)
  {
    hide Once, CopiedIds, CopiedRows, Copied, Sum;
    var before := CopiedRows(files, copies[..n], s, base);
    CopiedIdsStep(copies, n);
    RowsStep(files, copies, n, s, base);
    PushedSum(before, base + n, CopiedRow(files, copies[n], s));
    SumInsert(files, CopiedIds(copies[..n]), copies[n].file);
  }

  lemma {:induction false} CopiesSum(files: map<Id, File>, copies: seq<Copy>, s: Id, base: Id)
    requires (forall c <- copies :: c.file in files) && Once(Copied(copies))
    ensures SameBytes(files, copies, s, base)
    decreases |copies|
  {
    if copies == [] {
      NoCopies();
      NoRows(files, s, base);
    } else {
      hide SameBytes, Once;
      var n := |copies| - 1;
      CopiedIdsStep(copies, n);
      CopiesSum(files, copies[..n], s, base);
      OneCopyMore(files, copies, n, s, base);
    }
  }

  lemma NoRows(files: map<Id, File>, s: Id, base: Id)
    ensures CopiedRows(files, [], s, base).Keys == {}
  {
  }

  lemma NoCopies()
    ensures CopiedIds([]) == {}
  {
  }

  /** Row `s` is new, owned by `user`, and owns exactly the new file rows. */
  ghost predicate Grows(p: Pond, q: Pond, s: Id, user: Id, rows: map<Id, File>) {
    && s !in p.submissions && s in q.submissions && q.submissions == p.submissions[s := q.submissions[s]]
    && q.submissions[s].owner == user && q.submissions[s].status == Draft
    && (forall f <- p.files :: p.files[f].submission in p.submissions)
    && q.files == p.files + rows && rows.Keys !! p.files.Keys
    && (forall f <- rows :: rows[f].submission == s)
  }

  lemma GrownTotal(p: Pond, q: Pond, s: Id, user: Id, rows: map<Id, File>)
    requires Grows(p, q, s, user, rows)
    ensures Total(q) == Total(p) + Sum(rows, rows.Keys)
    ensures forall r :: OfSubmission(q, r) == if r == s then Sum(rows, rows.Keys) else OfSubmission(p, r)
  {
    SumUnion(q.files, p.files.Keys, rows.Keys);
    assert q.files.Keys == p.files.Keys + rows.Keys;
    SumFrame(q.files, p.files, p.files.Keys);
    SumFrame(q.files, rows, rows.Keys);
    forall r ensures OfSubmission(q, r) == if r == s then Sum(rows, rows.Keys) else OfSubmission(p, r) {
      if r == s {
        assert FilesOf(q.files, r) == rows.Keys;
      } else {
        assert FilesOf(q.files, r) == FilesOf(p.files, r);
        SumFrame(q.files, p.files, FilesOf(p.files, r));
      }
    }
  }

  lemma GrownUser(p: Pond, q: Pond, s: Id, user: Id, rows: map<Id, File>, u: Id)
    requires Grows(p, q, s, user, rows)
    ensures OfUser(q, u) == OfUser(p, u) + if u == user then Sum(rows, rows.Keys) else 0
  {
    OwnedGrown(p, q, s, user, rows, u);
    hide Grows, FilesOwnedBy, Sum;
    SumFrame(q.files, p.files, FilesOwnedBy(p, u));
    SumFrame(q.files, rows, rows.Keys);
    if u == user {
      SumUnion(q.files, FilesOwnedBy(p, u), rows.Keys);
    }
  }

  lemma OwnedGrown(p: Pond, q: Pond, s: Id, user: Id, rows: map<Id, File>, u: Id)
    requires Grows(p, q, s, user, rows)
    ensures FilesOwnedBy(q, u) == if u == user then FilesOwnedBy(p, u) + rows.Keys else FilesOwnedBy(p, u)
    ensures FilesOwnedBy(p, u) !! rows.Keys && FilesOwnedBy(p, u) <= p.files.Keys
    ensures q.files.Keys == p.files.Keys + rows.Keys
    ensures forall f :: f in q.files ==> q.files[f] == if f in rows then rows[f] else p.files[f]
  {
  }

  lemma GrownQuotas(p: Pond, q: Pond, s: Id, user: Id, rows: map<Id, File>, limits: Limits)
    requires Grows(p, q, s, user, rows) && WithinQuotas(p, limits) && Room(p, limits, user, None, Sum(rows, rows.Keys))
    ensures WithinQuotas(q, limits)
  {
    hide Total, OfUser, OfSubmission, Grows;
    GrownTotal(p, q, s, user, rows);
    forall u ensures OfUser(q, u) <= limits.user {
      GrownUser(p, q, s, user, rows, u);
    }
  }

  lemma GrownDrafts(p: Pond, q: Pond, s: Id, user: Id, rows: map<Id, File>)
    requires Grows(p, q, s, user, rows) && DraftsBounded(p.submissions) && |DraftsOf(p.submissions, user)| < MAX_DRAFTS
    ensures DraftsBounded(q.submissions)
  {
    hide DraftsOf;
    forall u ensures |DraftsOf(q.submissions, u)| <= MAX_DRAFTS {
      DraftsGrow(p.submissions, s, q.submissions[s], u);
    }
  }

  /** The copy behind new row `f`. */
  lemma CopyBehind(files: map<Id, File>, copies: seq<Copy>, s: Id, base: Id, f: Id)
    requires (forall c <- copies :: c.file in files) && f in CopiedRows(files, copies, s, base)
    ensures base <= f < base + |copies|
    ensures var c := copies[f - base];
            c in copies && Copied(copies)[f - base] == c.file
            && CopiedRows(files, copies, s, base)[f] == files[c.file].(submission := s, key := c.key, check := Pending)
  {
  }

  lemma CopiedKeySet(files: map<Id, File>, copies: seq<Copy>, s: Id, base: Id)
    requires forall c <- copies :: c.file in files
    ensures FileKeys(CopiedRows(files, copies, s, base)) == CopyKeys(copies)
  {
    var rows := CopiedRows(files, copies, s, base);
    forall k ensures k in FileKeys(rows) <==> k in CopyKeys(copies) {
      if k in FileKeys(rows) {
        var f :| f in rows && rows[f].key == k;
        CopyBehind(files, copies, s, base, f);
      }
      if k in CopyKeys(copies) {
        var i :| 0 <= i < |copies| && copies[i].key == k;
        assert base + i in rows;
        CopyBehind(files, copies, s, base, base + i);
      }
    }
  }

  lemma CopiedKeys(files: map<Id, File>, copies: seq<Copy>, s: Id, base: Id)
    requires forall c <- copies :: c.file in files
    requires forall i, k :: 0 <= i < k < |copies| ==> copies[i].key != copies[k].key
    ensures FileKeys(CopiedRows(files, copies, s, base)) == CopyKeys(copies)
    ensures KeysDistinct(CopiedRows(files, copies, s, base))
  {
    CopiedKeySet(files, copies, s, base);
    var rows := CopiedRows(files, copies, s, base);
    forall f, g | f in rows && g in rows && f != g ensures rows[f].key != rows[g].key {
      CopyBehind(files, copies, s, base, f);
      CopyBehind(files, copies, s, base, g);
    }
  }

  lemma CopiedPaths(files: map<Id, File>, copies: seq<Copy>, s: Id, base: Id, source: Id)
    requires (forall c <- copies :: c.file in files && files[c.file].submission == source) && Once(Copied(copies))
    requires PathsDistinct(files)
    ensures PathsDistinct(CopiedRows(files, copies, s, base))
  {
    var rows := CopiedRows(files, copies, s, base);
    forall f, g | f in rows && g in rows && f < g ensures rows[f].path != rows[g].path {
      CopyBehind(files, copies, s, base, f);
      CopyBehind(files, copies, s, base, g);
      assert copies[f - base].file != copies[g - base].file;
    }
  }

  lemma CopiedBlobs(files: map<Id, File>, objects: map<StorageKey, Blob>, copies: seq<Copy>, s: Id, base: Id)
    requires forall c <- copies :: c.file in files && c.key in objects
                                   && objects[c.key] == Blob(files[c.file].size, files[c.file].hash)
    ensures var rows := CopiedRows(files, copies, s, base);
            forall f <- rows :: rows[f].key in objects && objects[rows[f].key] == Blob(rows[f].size, rows[f].hash)
  {
    var rows := CopiedRows(files, copies, s, base);
    forall f <- rows ensures rows[f].key in objects && objects[rows[f].key] == Blob(rows[f].size, rows[f].hash) {
      CopyBehind(files, copies, s, base, f);
    }
  }

  lemma JoinKeys(a: map<Id, File>, b: map<Id, File>)
    requires a.Keys !! b.Keys && KeysDistinct(a) && KeysDistinct(b) && FileKeys(a) !! FileKeys(b)
    ensures KeysDistinct(a + b) && FileKeys(a + b) == FileKeys(a) + FileKeys(b)
  {
    var all := a + b;
    forall f, g | f in all && g in all && f != g ensures all[f].key != all[g].key {
      assert f in a ==> all[f].key in FileKeys(a);
      assert f in b ==> all[f].key in FileKeys(b);
    }
    forall k ensures k in FileKeys(all) <==> k in FileKeys(a) + FileKeys(b) {
      if k in FileKeys(a) {
        var f :| f in a && a[f].key == k;
        assert all[f].key == k;
      }
      if k in FileKeys(b) {
        var f :| f in b && b[f].key == k;
        assert all[f].key == k;
      }
    }
  }

  lemma JoinPaths(a: map<Id, File>, b: map<Id, File>, s: Id)
    requires a.Keys !! b.Keys && PathsDistinct(a) && PathsDistinct(b)
    requires (forall f <- a :: a[f].submission != s) && forall f <- b :: b[f].submission == s
    ensures PathsDistinct(a + b)
  {
  }

  /** The files that the copies were made from, once each, are those of the source. */
  lemma AllCopied(p: Pond, limits: Limits)
    requires Conserved(p, limits) && p.intake.Revising? && p.intake.todo == []
    ensures var copies := p.intake.copies;
            && Once(Copied(copies)) && CopiedIds(copies) == FilesOf(p.files, p.intake.source)
            && (forall c <- copies :: c.file in p.files && p.files[c.file].submission == p.intake.source)
            && (forall i, k :: 0 <= i < k < |copies| ==> copies[i].key != copies[k].key)
            && (forall c <- copies :: c.key in p.objects
                  && p.objects[c.key] == Blob(p.files[c.file].size, p.files[c.file].hash))
  {
    hide KeysDistinct, PathsDistinct, WithinQuotas, Room, ObjectsMatch, DraftsBounded, DraftsOf;
    var copies := p.intake.copies;
    assert Copied(copies) + [] == Copied(copies);
    forall c <- copies ensures c.file in FilesOf(p.files, p.intake.source) {
      var i :| 0 <= i < |copies| && copies[i] == c;
      assert Copied(copies)[i] in Copied(copies);
    }
  }

  /** The books before a revision is recorded, as far as objects go. */
  ghost predicate ReadyToRecord(p: Pond, copies: seq<Copy>, source: Id) {
    && KeysDistinct(p.files) && PathsDistinct(p.files)
    && ObjectsMatch(p.files, p.objects, CopyKeys(copies) + p.orphans) && CopyKeys(copies) !! p.orphans
    && Once(Copied(copies)) && CopiedIds(copies) == FilesOf(p.files, source)
    && (forall c <- copies :: c.file in p.files && p.files[c.file].submission == source)
    && (forall i, k :: 0 <= i < k < |copies| ==> copies[i].key != copies[k].key)
    && (forall c <- copies :: c.key in p.objects
          && p.objects[c.key] == Blob(p.files[c.file].size, p.files[c.file].hash))
  }

  lemma RecordReady(p: Pond, limits: Limits)
    requires Conserved(p, limits) && p.intake.Revising? && p.intake.todo == []
    ensures ReadyToRecord(p, p.intake.copies, p.intake.source)
    ensures Room(p, limits, p.intake.user, None, OfSubmission(p, p.intake.source))
    ensures |DraftsOf(p.submissions, p.intake.user)| < MAX_DRAFTS
  {
    AllCopied(p, limits);
    hide KeysDistinct, PathsDistinct, WithinQuotas, ObjectsMatch, DraftsBounded, DraftsOf, CopiesOk, Room, Once,
      Copied, FilesOf;
  }

  /** The new rows, on their own. */
  lemma NewRows(p: Pond, copies: seq<Copy>, source: Id, s: Id, rows: map<Id, File>)
    requires ReadyToRecord(p, copies, source) && rows == CopiedRows(p.files, copies, s, s + 1)
    ensures KeysDistinct(rows) && PathsDistinct(rows) && FileKeys(rows) == CopyKeys(copies)
    ensures forall f <- rows :: rows[f].key in p.objects && p.objects[rows[f].key] == Blob(rows[f].size, rows[f].hash)
    ensures Sum(rows, rows.Keys) == OfSubmission(p, source)
  {
    hide KeysDistinct, PathsDistinct, FileKeys, CopyKeys, ObjectsMatch, CopiedRows, Once;
    CopiedKeys(p.files, copies, s, s + 1);
    CopiedPaths(p.files, copies, s, s + 1, source);
    CopiedBlobs(p.files, p.objects, copies, s, s + 1);
    CopiesSum(p.files, copies, s, s + 1);
  }

  lemma JoinObjects(a: map<Id, File>, b: map<Id, File>, objects: map<StorageKey, Blob>, lost: set<StorageKey>)
    requires a.Keys !! b.Keys && ObjectsMatch(a, objects, FileKeys(b) + lost) && FileKeys(b) !! lost
    requires FileKeys(a + b) == FileKeys(a) + FileKeys(b)
    requires forall f <- b :: b[f].key in objects && objects[b[f].key] == Blob(b[f].size, b[f].hash)
    ensures ObjectsMatch(a + b, objects, lost)
  {
    hide FileKeys;
    forall f <- a + b ensures (a + b)[f].key in objects
                              && objects[(a + b)[f].key] == Blob((a + b)[f].size, (a + b)[f].hash) {
      if f !in b {
        KeyListed(a, f);
      }
    }
  }

  lemma KeyListed(files: map<Id, File>, f: Id)
    requires f in files
    ensures files[f].key in FileKeys(files)
  {
  }

  lemma RevisedObjects(p: Pond, q: Pond, copies: seq<Copy>, source: Id, user: Id, s: Id, rows: map<Id, File>)
    requires ReadyToRecord(p, copies, source) && rows == CopiedRows(p.files, copies, s, s + 1)
    requires Grows(p, q, s, user, rows) && q.objects == p.objects && q.orphans == p.orphans
    ensures KeysDistinct(q.files) && PathsDistinct(q.files) && ObjectsMatch(q.files, q.objects, q.orphans)
  {
    NewRows(p, copies, source, s, rows);
    hide KeysDistinct, PathsDistinct, CopiedRows, FileKeys, CopyKeys, Copied, Once;
    JoinKeys(p.files, rows);
    JoinPaths(p.files, rows, s);
    JoinObjects(p.files, rows, p.objects, p.orphans);
  }

  lemma RevisedConserves(p: Pond, limits: Limits, q: Pond, s: Id, rows: map<Id, File>)
    requires Conserved(p, limits) && p.intake.Revising? && p.intake.todo == []
    requires forall c <- p.intake.copies :: c.file in p.files
    requires rows == CopiedRows(p.files, p.intake.copies, s, s + 1)
    requires Grows(p, q, s, p.intake.user, rows) && q.objects == p.objects && q.orphans == p.orphans && q.intake == Idle
    ensures Conserved(q, limits)
  {
    hide KeysDistinct, PathsDistinct, WithinQuotas, ObjectsMatch, DraftsBounded, DraftsOf, Grows, CopiedRows, Room,
      CopiesOk, ReadyToRecord, OfSubmission;
    RecordReady(p, limits);
    NewRows(p, p.intake.copies, p.intake.source, s, rows);
    RevisedObjects(p, q, p.intake.copies, p.intake.source, p.intake.user, s, rows);
    NonePending(q);
    GrownQuotas(p, q, s, p.intake.user, rows, limits);
    GrownDrafts(p, q, s, p.intake.user, rows);
  }

  lemma FreshRows(p: Pond, copies: seq<Copy>)
    requires (forall c <- copies :: c.file in p.files) && forall f <- p.files :: f < p.next
    ensures var rows := CopiedRows(p.files, copies, p.next, p.next + 1);
            rows.Keys !! p.files.Keys && forall f <- rows :: rows[f].submission == p.next
  {
    var rows := CopiedRows(p.files, copies, p.next, p.next + 1);
    forall f <- rows ensures f !in p.files && rows[f].submission == p.next {
      CopyBehind(p.files, copies, p.next, p.next + 1, f);
    }
  }

  lemma RevisionGrows(p: Pond)
    requires RecordRevision(p).Committed? && RecordRevision(p).value.Some?
    requires (forall s <- p.submissions :: s < p.next)
    requires (forall f <- p.files :: f < p.next && p.files[f].submission in p.submissions)
    ensures var q := RecordRevision(p).pond;
            && Grows(p, q, p.next, p.intake.user, CopiedRows(p.files, p.intake.copies, p.next, p.next + 1))
            && q.objects == p.objects && q.orphans == p.orphans && q.intake == Idle
  {
    hide CopiedRows, OwnedProblem, AbortIntake;
    FreshRows(p, p.intake.copies);
  }

  lemma RecordRevisionConserves(p: Pond, limits: Limits)
    requires Conserved(p, limits) && RecordRevision(p).Committed?
    requires (forall s <- p.submissions :: s < p.next)
    requires (forall f <- p.files :: f < p.next && p.files[f].submission in p.submissions)
    ensures Conserved(RecordRevision(p).pond, limits)
  {
    hide Conserved, AbortIntake, CopiedRows, Grows;
    if RecordRevision(p).value.Some? {
      var rows := CopiedRows(p.files, p.intake.copies, p.next, p.next + 1);
      RevisionGrows(p);
      RevisedConserves(p, limits, RecordRevision(p).pond, p.next, rows);
    } else {
      AbortConserves(p, limits);
    }
  }

  // ----- the remaining steps keep the books ----------------------------------------------------------------------

  lemma UpdateConserves(p: Pond, limits: Limits, user: Id, s: Id, m: Manifest)
    requires Conserved(p, limits) && UpdateManifest(p, user, s, m).Committed?
    ensures Conserved(UpdateManifest(p, user, s, m).pond, limits)
  {
    hide Conserved, SchemaOk;
    BooksKeptConserved(p, UpdateManifest(p, user, s, m).pond, limits);
  }

  lemma SubmitConserves(p: Pond, limits: Limits, user: Id, s: Id, now: Time)
    requires Conserved(p, limits) && Submit(p, user, s, now).Committed?
    ensures Conserved(Submit(p, user, s, now).pond, limits)
  {
    hide Conserved;
    BooksKeptConserved(p, Submit(p, user, s, now).pond, limits);
  }
}
