/** The review decision keeps the invariant. */
module ReviewKeeps {
  import opened Schema
  import opened Review
  import opened Worker
  import opened Invariant
  import opened Frames

  lemma DecidedTables(p: Pond, s: Id, actor: Id, form: Form, now: Time)
    requires Tables(p) && s in p.submissions
    ensures Tables(Decided(p, s, actor, form, now)) && Touches(p, Decided(p, s, actor, form, now), s)
    ensures Quiet(p, Decided(p, s, actor, form, now))
    ensures TemplatesKept(p.templates, Decided(p, s, actor, form, now).templates)
  {
    var q := Decided(p, s, actor, form, now);
    assert q.outbox == p.outbox + [q.outbox[|p.outbox|]];
  }

  lemma DecidedView(p: Pond, s: Id, actor: Id, form: Form, now: Time)
    requires s in p.submissions
    ensures var q, before := Decided(p, s, actor, form, now), ViewOf(p, s);
            ViewOf(q, s) == before.(row := q.submissions[s],
                                    review := Some(Logged(|p.audit|, q.audit[|p.audit|])),
                                    keys := before.keys + {ReviewDecided(s, form.digest, form.decision)})
  {
    hide RecordsOf, AllPassed, Latest, KeysOf;
    var q := Decided(p, s, actor, form, now);
    LatestAppend(p.audit, q.audit[|p.audit|], ValidationKind, s);
    LatestAppend(p.audit, q.audit[|p.audit|], ReviewKind, s);
    KeysFrame(p.outbox, q.outbox, s);
    assert JobFor(q, Validate, s) == JobFor(p, Validate, s);
  }

  /** An approval turns an attested revision into a sanctioned one; the validation record
      is older than the review record. */
  lemma DecidedLocal(s: Id, before: View, after: View, actor: Id, form: Form, now: Time, entry: Logged)
    requires LocalOk(s, before) && before.row.status in {ReadyForReview, NeedsChanges, ValidationFailed}
    requires form.decision == Approve ==> before.row.status == ReadyForReview
    requires before.row.digest == Some(form.digest) && before.vjob.Some? && before.vjob.value.id == form.job
    requires entry.entry == Audit(Some(actor), s, SubmissionReview(form.decision, form.digest, form.job), true)
    requires before.validation.Some? ==> before.validation.value.index < entry.index
    requires after == before.(row := before.row.(status := FinalStatus(form.decision),
                                                 approval := if form.decision == Approve then Some(Approval(actor, now))
                                                             else None),
                              review := Some(entry),
                              keys := before.keys + {ReviewDecided(s, form.digest, form.decision)})
    ensures LocalOk(s, after) && after.row.status != Published && before.pjob.None?
    ensures ReviewDecided(s, form.digest, form.decision) !in before.keys
  {
    assert forall k <- before.keys :: NoticeFits(s, before, k);
  }

  /** What a decision that is recorded has checked. */
  lemma DecideChecks(p: Pond, s: Id, actor: Id, form: Form, now: Time)
    requires Decide(p, s, actor, form, now).Committed? && Decide(p, s, actor, form, now).value
    ensures s in p.submissions && IsAdmin(p.users, actor)
    ensures p.submissions[s].status in {ReadyForReview, NeedsChanges, ValidationFailed}
    ensures form.decision == Approve ==> p.submissions[s].status == ReadyForReview
    ensures p.submissions[s].digest == Some(form.digest) && JobFor(p, Validate, s) == Some(form.job)
            && form.job in p.jobs
    ensures Decide(p, s, actor, form, now).pond == Decided(p, s, actor, form, now)
  {
  }

  lemma RepeatChangesNothing(p: Pond, s: Id, actor: Id, form: Form, now: Time)
    requires Decide(p, s, actor, form, now).Committed? && !Decide(p, s, actor, form, now).value
    ensures Decide(p, s, actor, form, now).pond == p
  {
  }

  lemma DecideKeeps(p: Pond, s: Id, actor: Id, form: Form, now: Time)
    requires Inv(p) && Decide(p, s, actor, form, now).Committed?
    ensures Inv(Decide(p, s, actor, form, now).pond)
  {
    hide Inv, Decide;
    if Decide(p, s, actor, form, now).value {
      RecordedKeeps(p, s, actor, form, now);
    } else {
      RepeatChangesNothing(p, s, actor, form, now);
    }
  }

  lemma RecordedKeeps(p: Pond, s: Id, actor: Id, form: Form, now: Time)
    requires Inv(p) && Decide(p, s, actor, form, now).Committed? && Decide(p, s, actor, form, now).value
    ensures Inv(Decide(p, s, actor, form, now).pond)
  {
    hide LocalOk, Locals, LiveTemplates, Memories, Reservations, LeasesOk, ViewOf, TemplatesOk, Touches, Quiet,
      RecordsOf, KeysOf, IndexOk, JobsOk, RowsOk, FileRowsOk, Decide, JobFor;
    DecideChecks(p, s, actor, form, now);
    var q := Decided(p, s, actor, form, now);
    LocalAt(p, s);
    DecidedView(p, s, actor, form, now);
    DecidedLocal(s, ViewOf(p, s), ViewOf(q, s), actor, form, now, Logged(|p.audit|, q.audit[|p.audit|]));
    DecidedTables(p, s, actor, form, now);
    FreshKey(p, s, ReviewDecided(s, form.digest, form.decision));
    UniqueAppend(p.outbox, q.outbox[|p.outbox|]);
    NotPublished(q, s);
    QuietStep(p, q, s);
  }
}
