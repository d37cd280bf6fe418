# Verified models of Pond

Pond is a training platform: authors submit challenges, the platform validates, reviews
and publishes them on virtual machines, and participants play them in a browser through
a VNC client.  This project models the parts of it with the most state and arithmetic
and proves what they promise.

- **Challenge ingestion** (`challenge_ingestion/`): intake, validation, review and
  publication as one state machine over the submission tables and the quarantine
  storage.  Any number of actors take steps in any order, with any clock readings,
  crashes, expired leases and stale claims.  `Pipeline` defines the steps, `Invariant`
  and `Conservation` what every step keeps, `Guarantees` what follows for every state
  that any run can reach, `Decisions`, `Leases` and `LiveContent` when exactly each actor
  gets what it asks for, how long a claim holds, and what players get.  The classes `ValidationWorker`, `PublicationWorker`,
  `ReviewService`, `IntakeService` and `Quarantine` change the tables step by step and
  are proved against the same state machine.
- **VNC client** (`pond-sec/app/static/novnc/core/`): the receive queue, the decoders for
  raw, RRE, hextile, JPEG, Tight gradient and ZRLE rectangles, the display with its
  damage, render queue and viewport, the ciphers (big integers, Diffie-Hellman, RSA,
  AES-EAX over CMAC) and Base64.
- **Web application** (`pond-sec/app/`): the throttle and the leaderboard.

Code that computes values is modelled by functions, code that changes objects and
buffers by classes and methods over fields and arrays; each method is proved against a
function, and the properties are proved about that function.  Lease tokens, content
hashes, storage keys, the AES block function and its key stream are opaque values or
parameters; so are clocks, random bytes, the network, the browser canvas and the answers
of the adapter and of other services.

`dafny verify dfyconfig.toml` checks everything.

## Model

| member | source | states |
|---|---|---|
| Safety.StepKeeps | challenge_ingestion/worker.py:58-69 | every transaction of every actor (30 kinds of step: intake with its crashes and failing deletions, worker, reviewer, publisher, user and template changes), with any clock reading and any stale claim, keeps the whole invariant: tables, leases, couplings, provenance, notices, reservations and intake books |
| Safety.ReachableIsGood | challenge_ingestion/worker.py:58-69 | the invariant holds after every interleaving of transactions from an empty set of tables |
| Runs.RunLasts | challenge_ingestion/worker.py:126-188 | over any run: frozen content, finished jobs, planned machines, live challenges and the audit log are never rewritten, and a lost claim is never regained |
| Guarantees.ReachableStays | challenge_ingestion/worker.py:126-188 | whatever follows a reachable state is reachable, so each guarantee below holds at every later point of a run as well |
| Guarantees.PublishedIsSourced | challenge_ingestion/publication.py:246-297 | a published submission was attested by a finished validation without findings, then approved by an active administrator for exactly the content it still has; its live challenge and templates are the image of that manifest and of the journal of its publication |
| Guarantees.ApprovedContentIsSourced | challenge_ingestion/review.py:76-114 | the same provenance for everything approved, importing or failed in import, not only for what was published |
| Guarantees.PublishedMachinesRun | challenge_ingestion/publication.py:263-276 | every machine of the manifest of a published submission is served by an assignment of its challenge, with a template of its own size and its boot order |
| LiveContent.PublishedTexts | challenge_ingestion/publication.py:257-286 | in every reachable state a published challenge has the title, text and rules of its manifest, belongs to the author and has the workstation that the manifest names |
| LiveContent.PublishedPlaces | challenge_ingestion/publication.py:263-276 | every machine of it runs from the template that the journal planned for its role: that name, number and node, all within their bounds, imported exactly when the manifest brings an image |
| LiveContent.ReviewedIsConsistent | challenge_ingestion/requirements.py:68-96 | whatever waits for review or was approved follows the rules of its type, names each role once and no role that is not there, and has no two flags with one hash, or with one name or place on the same machine |
| LiveContent.RevisionTells | challenge_ingestion/intake.py:215-228 | a recorded revision is a new draft of the same manifest that names what it supersedes; its files are those of the source, under new keys and to be checked again |
| LiveContent.LastEditIsSubmitted | challenge_ingestion/intake.py:121-196 | what is submitted is the manifest written last, under the digest of just that and the files of the draft |
| LiveContent.FreezesExactly | challenge_ingestion/publication.py:220-230 | a plan is frozen if and only if it is sound, its claim is current and none of its numbers belongs to a template or to the journal of another publication |
| LiveContent.CheckpointExactly | challenge_ingestion/publication.py:232-244 | a checkpoint is recorded if and only if it reports progress, its text is short, the claim is current and the journal has the role |
| LiveContent.MarkedExactly | challenge_ingestion/publication.py:232-244 | it changes state and task of the entry of its role, and nothing else of the journal |
| Guarantees.FinishKeepsTheReport | challenge_ingestion/worker.py:178-188 | the content check of `finish` never replaces a report: a worker that still owns its claim commits the report it made |
| Guarantees.ApprovalStandsWhileAdmin | challenge_ingestion/publication.py:52-69 | after approval the re-check of approval and digest passes if and only if the approver is still an active administrator |
| Guarantees.GoingLiveFailsOnlyOutside | challenge_ingestion/publication.py:246-282 | for a claim still owned, going live succeeds if and only if the approver is an administrator, every planned machine is ready, no planned number is in use and the workstation template is active; no lookup by role can fail |
| Guarantees.StatusTellsActiveJob | challenge_ingestion/worker.py:126-160 | a submission is validating if and only if exactly one active job of its own is a validation, importing if and only if it is a publication |
| Guarantees.OneActiveJob | db/submission_job_models.py:42-45 | the partial unique index is never violated: two active jobs of one submission are the same job |
| Guarantees.NothingToCancel | challenge_ingestion/worker.py:138-146 | the cancel branches are dead: no job is ever cancelled, every eligible job belongs to a submission in the matching status, and no publication is claimed out of attempts |
| Decisions.ApprovesExactly | challenge_ingestion/review.py:25-114 | in every reachable state an approval is recorded if and only if an active administrator asks for it with a note that is not too long, the form shows the present digest and job, and the status is ready for review: no other check of the code can fail; it then writes status, approval, one audit entry and one notice |
| Decisions.RejectsExactly | challenge_ingestion/review.py:25-114 | a rejection is recorded if and only if the same actor gives a reason on a current form and a finished validation awaits its decision |
| Decisions.EnqueuesExactly | challenge_ingestion/publication.py:71-112 | publication is queued, or already was, if and only if an active administrator asks for the present digest, the approver still is one, machines find their adapter, and an import that failed has an attempt left and is retried on purpose |
| Decisions.EnqueuedIsDue | challenge_ingestion/publication.py:71-112 | what is queued or queued again can be claimed from that moment on, under the one key of its submission; what was queued or published before stays as it is |
| Decisions.ReturnsExactly | challenge_ingestion/publication.py:114-139 | a failed import is returned if and only if an active administrator gives a reason for the present digest |
| Decisions.SubmitsExactly | challenge_ingestion/intake.py:174-196 | an active manager can submit an own draft, and an active administrator any, exactly when no intake is under way; submitting again gives the same job and changes nothing, and the new job is due at once |
| Decisions.UploadsExactly | challenge_ingestion/intake.py:130-145 | an upload begins if and only if the size is that of an image, no other intake is under way, the user handles the draft, one of its machines brings this image, there is no such file yet, and the quotas allow it |
| Decisions.RevisesExactly | challenge_ingestion/intake.py:198-216 | a revision begins if and only if the user handles a submission that was sent back, failed or was rejected, has drafts left, and the quotas allow the copies |
| Decisions.ClaimsExactly | challenge_ingestion/worker.py:126-160 | in every reachable state a validation claim is on the first due job and holds for one lease; nothing is handed out only when nothing is due |
| Decisions.PublishClaimsExactly | challenge_ingestion/publication.py:154-182 | a publication claim is on the lowest waiting job and holds for one lease; nothing is handed out only when none waits |
| Decisions.ExpiredFailExactly | challenge_ingestion/publication.py:154-182 | the same claim fails a running publication if and only if its lease has run out, together with its import, and changes no other that runs |
| Decisions.ValidationNeverStuck | challenge_ingestion/worker.py:126-160 | no validation is stuck: from some time on it can be claimed, whatever became of its worker |
| Decisions.ImportNeverStuck | challenge_ingestion/publication.py:154-182 | no import is stuck: from some time on the next claim runs or fails it |
| Guarantees.AttemptsAreClaims | challenge_ingestion/worker.py:147-160 | the attempt counter of a job is the number of claims ever issued for it, at most three, and the committed claims are pairwise distinct |
| Guarantees.SupersededNeverCommits | challenge_ingestion/worker.py:71-77 | a claim whose lease was taken over never commits a result in any continuation of the run |
| Guarantees.CommitsOnce | challenge_ingestion/worker.py:178-188 | a claim that has committed never commits again, in any continuation of the run |
| Guarantees.WhatStays | challenge_ingestion/intake.py:84-128 | from any reachable state on: a submitted revision keeps its manifest, files and digest, a published row keeps everything, finished jobs and live challenges stay as they are, the audit log only grows |
| Guarantees.PlannedVmidsDistinct | challenge_ingestion/publication.py:208-230 | across all publication jobs that ever were, planned VM numbers are pairwise distinct |
| Guarantees.NoticesNeverCollide | challenge_ingestion/worker.py:79-91 | no two notices of the outbox have the same deduplication key, so its unique column never rejects a transaction |
| Guarantees.IntakeBooksBalance | challenge_ingestion/intake.py:89-172 | between intakes: the stored bytes keep within the total, personal and package quotas, nobody has too many drafts, every file row has its own object in storage, with the recorded size and hash, and all other objects are what a broken intake left behind |
| Guarantees.NothingOrphaned | challenge_ingestion/intake.py:146-172 | between intakes the objects in storage are exactly those that the file rows name, if and only if no step of the run was a broken intake that kept an object of its own or a removal whose object stayed |
| Orphans.RunLeaves | challenge_ingestion/intake.py:130-233 | the same from every state of the invariant, and while an intake is under way: nothing is left behind if and only if nothing was before and no step of the run leaves anything |
| Orphans.CrashLeavesObject | challenge_ingestion/intake.py:146-159 | the failing run, for every first upload of a required image: draft, check, save, crash; the object stays and no row names it |
| Coverage.PlansCoverRoles | challenge_ingestion/publication.py:190-206 | an accepted plan names each VM role of the manifest exactly once, although the code compares only the length and the membership |
| Coverage.LookupsAreDefined | challenge_ingestion/publication.py:263-286 | so every role that going live looks up has a template |
| Coverage.AssignmentsDistinct | challenge_ingestion/publication.py:273-282 | no role is assigned twice in a new challenge, the workstation included |
| Coverage.MachinesServed | challenge_ingestion/publication.py:265-276 | each machine of the manifest gets an assignment and a template with its own figures |
| Coverage.FlagsBound | challenge_ingestion/publication.py:283-286 | each live flag keeps name, hash, points and sequence, and is bound to the template that is assigned to its role, or to none if it names none |
| Digests.DigestDeterminesContent | challenge_ingestion/validation.py:103-116 | for inventories without repeated paths, in whatever order they are listed: the canonical texts are equal if and only if the manifest and the set of entries are |
| Digests.OrderMattersExactly | challenge_ingestion/validation.py:103-116 | the canonical text is independent of the order of the rows if and only if no two different entries share a path |
| Worker.ValidationWorker.Result | challenge_ingestion/worker.py:93-124 | the table by table rewriting of `_result` is the settled state: issues of this job only, file checks, job, submission, audit entry, and one notice unless it will retry |
| Worker.ValidationWorker.Claim | challenge_ingestion/worker.py:126-160 | the loop ends, because each round that hands nothing out leaves fewer eligible jobs, and yields the claim and the tables of the recursive specification |
| Worker.LeastExists | challenge_ingestion/worker.py:131-135 | every nonempty set of eligible jobs has a first job by availability and number, so the query is defined |
| Worker.FirstUnique | challenge_ingestion/worker.py:131-135 | and only one, so the claim does not depend on how the query is evaluated |
| Leases.ClaimTakes | challenge_ingestion/worker.py:126-151 | a claim takes the due job that has been available longest, of several the one with the lowest number, and comes back empty only when none is due |
| Leases.ClaimLasts | challenge_ingestion/worker.py:147-160 | the claim is owned at time t if and only if t lies before the end of one lease from the clock reading of the claim |
| Leases.RenewLasts | challenge_ingestion/worker.py:162-166 | renewal succeeds exactly for the owner, and then the claim is owned for one more lease from that moment, exactly |
| Leases.PublishClaimLasts | challenge_ingestion/publication.py:154-182 | a publication claim is owned for exactly one lease and is on the lowest queued job that is due |
| Leases.SettleTells | challenge_ingestion/worker.py:93-124 | a result gives submission and job the status that the report calls for, offers the job again exactly from the retry delay on when checks could not run and attempts are left, stores the findings, and otherwise sends one notice |
| Leases.FilesTell | challenge_ingestion/worker.py:93-124 | file checks pass exactly with a clean report, and fail exactly for a finding about the file that is no failed check |
| Worker.ValidationWorker.RenewLease | challenge_ingestion/worker.py:162-166 | renewal extends the lease of the owner and of nobody else |
| Worker.ValidationWorker.FinishRun | challenge_ingestion/worker.py:178-188 | a run commits once for its current claim; otherwise the tables stay as they were |
| Review.ReviewService.DecideSubmission | challenge_ingestion/review.py:25-114 | every refusal in the order of the code, a repeated identical decision changes nothing, and a decision writes row, job reference, audit entry and notice together |
| PublishingWorker.PublicationWorker.QueueSubmission | challenge_ingestion/publication.py:71-112 | approval, status, digest, retry and adapter checks, then either the same job again or a new one |
| PublishingWorker.PublicationWorker.ReturnSubmission | challenge_ingestion/publication.py:114-139 | a failed import goes back to its author, with audit entry and notice, or nothing changes |
| PublishingWorker.PublicationWorker.FailExpired | challenge_ingestion/publication.py:157-162 | the loop over expired imports fails each of them that is still importing |
| PublishingWorker.PublicationWorker.ClaimJob | challenge_ingestion/publication.py:154-182 | expired imports are failed in the order of the query, then at most one queued job is taken |
| PublishingWorker.PublicationWorker.CheckPlans | challenge_ingestion/publication.py:190-206 | a list of plans is accepted if and only if all of it is sound: length, roles, numbers, ownership, names; then it is the fresh journal |
| PublishingWorker.PublicationWorker.RecoverJournal | challenge_ingestion/publication.py:208-219 | a journal that exists is checked against the manifest and returned unchanged |
| PublishingWorker.PublicationWorker.FreezeJournal | challenge_ingestion/publication.py:220-230 | a new journal is written only when none of its numbers is live or reserved by another publication |
| PublishingWorker.PublicationWorker.MarkEntry | challenge_ingestion/publication.py:232-244 | a checkpoint rewrites the entry of its role and nothing else |
| PublishingWorker.PublicationWorker.MayGoLive | challenge_ingestion/publication.py:246-256 | the checks before going live give the refusal of the first one that fails, and none exactly when the commit succeeds |
| PublishingWorker.PublicationWorker.PutLive | challenge_ingestion/publication.py:246-297 | challenge, templates, assignments, flags, row, job, audit entry and notice appear together or not at all |
| PublishingWorker.PublicationWorker.StopRun | challenge_ingestion/publication.py:348-354 | a failed run is recorded for the current claim only |
| IntakeSessions.IntakeService.WithinQuota | challenge_ingestion/intake.py:89-99 | the summing loops answer exactly whether the three quotas and the free space allow the bytes |
| IntakeSessions.IntakeService.HasDraftCapacity | challenge_ingestion/intake.py:101-105 | true exactly when the owner has fewer drafts than the limit |
| IntakeSessions.IntakeService.CreateDraft | challenge_ingestion/intake.py:107-119 | a new draft, or nothing changes |
| IntakeSessions.IntakeService.EditManifest | challenge_ingestion/intake.py:121-128 | only the manifest of an own draft is rewritten |
| IntakeSessions.IntakeService.CheckUpload | challenge_ingestion/intake.py:130-146 | what is checked before bytes flow |
| IntakeSessions.IntakeService.RecordObject | challenge_ingestion/intake.py:147-159 | a complete upload to an own draft gets its row, otherwise the object is deleted again |
| IntakeSessions.IntakeService.DropFile | challenge_ingestion/intake.py:161-172 | row and object of an own draft go together |
| IntakeSessions.IntakeService.SubmitDraft | challenge_ingestion/intake.py:174-196 | the draft is frozen with its digest and one validation job is queued |
| IntakeSessions.IntakeService.CheckRevision | challenge_ingestion/intake.py:198-209 | only a returned submission of the caller is copied, within quota |
| IntakeSessions.IntakeService.RecordCopies | challenge_ingestion/intake.py:215-229 | a new draft with one row for each copy |
| IntakeSessions.IntakeService.DropCopies | challenge_ingestion/intake.py:230-233 | when a revision fails, exactly the copies made so far are deleted |
| Validation.CheckMachines | challenge_ingestion/validation.py:158-168 | reports something if and only if two machines share a role or an approved template |
| Validation.CheckReferences | challenge_ingestion/validation.py:158-184 | reports something if and only if a network rule or flag names an unknown role, or roles, templates or flags clash |
| Validation.CheckFlags | challenge_ingestion/validation.py:173-183 | one pass with three sets finds exactly the clashes between any two flags |
| Validation.CheckInventory | challenge_ingestion/validation.py:189-207 | reports something if and only if a record is foreign or malformed or repeats a path, an identifier or an object; otherwise the total is the sum of the sizes |
| Validation.CheckFiles | challenge_ingestion/validation.py:208-221 | reports something if and only if the files are not exactly the declared images, nonempty and within the limits |
| Validation.RunChecks | challenge_ingestion/validation.py:229-269 | reports something if and only if a template, the stored bytes or the inspection of an image does not pass |
| Validation.ValidateSubmission | challenge_ingestion/validation.py:119-270 | the report is empty if and only if the revision is acceptable; which kinds of failure suggest a correction and which a technical failure |
| Storage.Quarantine.Save | challenge_ingestion/storage.py:104-156 | for any pattern of short reads: an object is stored if and only if the stream fits, with exactly its bytes; every failure leaves the directory as it was; never more than one byte above the limit is read |
| Storage.Quarantine.Receive | challenge_ingestion/storage.py:119-139 | the copying loop writes exactly what the stream held, or reports a stream that is too large |
| Storage.Quarantine.Copy | challenge_ingestion/storage.py:175-178 | a distinct object with the same bytes |
| Storage.Quarantine.Delete | challenge_ingestion/storage.py:180-193 | true exactly when the object was there |
| Resume.SplittingDoesNotMatter | pond-sec/app/static/novnc/core/decoders/raw.js:15-58 | for any decoder that only waits for bytes and looks at the bytes it takes: feeding a byte stream message by message gives the state, the calls and the rest that feeding it in one piece gives |
| Websock.Queue.RecvMessage | pond-sec/app/static/novnc/core/websock.js:345-365 | a message goes behind the unread bytes, if and only if it fits; the listener is told exactly when there is something to read |
| Websock.Queue.ExpandCompactRQ | pond-sec/app/static/novnc/core/websock.js:312-343 | moving and growing keep the unread bytes, and there is room afterwards; it fails exactly above the limit and then changes nothing |
| Websock.Queue.RQwait | pond-sec/app/static/novnc/core/websock.js:163-174 | waits if and only if bytes are missing, and then exactly `goback` bytes are unread again |
| Websock.Queue.RQshift | pond-sec/app/static/novnc/core/websock.js:119-125 | signed 32-bit shifts read as unsigned give the big-endian value, also from 0x80000000 on |
| RawDecoding.ReceiveRect | pond-sec/app/static/novnc/core/decoders/raw.js:15-58 | whatever the messages, the method and the queue together do what the whole stream does; overflow only above the limit of the queue |
| RawDecoding.RawDecoder.DecodeRect | pond-sec/app/static/novnc/core/decoders/raw.js:15-58 | one call draws all lines that have arrived and remembers how many are to go |
| RawDecoding.WholeBody | pond-sec/app/static/novnc/core/decoders/raw.js:30-56 | a rectangle body draws each of its lines once, from the top, in its place, opaque, and takes just its own bytes |
| RawDecoding.LinesBack | pond-sec/app/static/novnc/core/decoders/raw.js:20-58 | an encoded rectangle is drawn line by line from the top: bytes k of the body in row y + k, and exactly its bytes are taken |
| RawDecoding.PlainPixel | pond-sec/app/static/novnc/core/decoders/raw.js:48-51 | the four bytes of a pixel become its colour, opaque |
| RawDecoding.PackedPixel | pond-sec/app/static/novnc/core/decoders/raw.js:36-46 | a byte with two bits each for red, green and blue becomes that colour, opaque |
| RREDecoding.ReceiveRect | pond-sec/app/static/novnc/core/decoders/rre.js:15-43 | as for raw rectangles |
| RREDecoding.RREDecoder.DecodeRect | pond-sec/app/static/novnc/core/decoders/rre.js:15-43 | one call paints the background once and all subrectangles that have arrived |
| RREDecoding.EncodeDecode | pond-sec/app/static/novnc/core/decoders/rre.js:15-43 | an encoded background and list of subrectangles is painted in its order, whatever follows it |
| HextileDecoding.ReceiveRect | pond-sec/app/static/novnc/core/decoders/hextile.js:19-132 | as for raw rectangles, with the background and foreground carried between tiles and invalid subencodings failing alike |
| HextileDecoding.HextileDecoder.DecodeRect | pond-sec/app/static/novnc/core/decoders/hextile.js:19-132 | one call draws all tiles that have arrived |
| HextileDecoding.HextileDecoder.Measure | pond-sec/app/static/novnc/core/decoders/hextile.js:48-76 | peeking at the subencoding waits if and only if the tile is not complete, and leaves the queue alone |
| HextileDecoding.HextileDecoder.SubTile | pond-sec/app/static/novnc/core/decoders/hextile.js:155-173 | the in-place loops are the painting of the area |
| HextileDecoding.PaintsItsArea | pond-sec/app/static/novnc/core/decoders/hextile.js:155-173 | which sets exactly the pixels of the area |
| HextileTiles.TileBack | pond-sec/app/static/novnc/core/decoders/hextile.js:77-126 | a tile as a server writes it (repeated, raw, plain, with coloured or uncoloured subrectangles, colours sent or carried) is drawn as it was meant if and only if the colours it needs are known, and refused otherwise |
| HextileTiles.SubrectDrawn | pond-sec/app/static/novnc/core/decoders/hextile.js:105-123 | the two bytes of a subrectangle put it at its column and row, with its width and height, over what was painted before |
| HextileTiles.RectBack | pond-sec/app/static/novnc/core/decoders/hextile.js:19-132 | any list of tiles comes back, with the colours carried from tile to tile and on to the next rectangle |
| HextileTiles.EveryPixelBack | pond-sec/app/static/novnc/core/decoders/hextile.js:19-132 | each pixel of an encoded rectangle is drawn by one call only, in the colour of the last subrectangle that contains it, else the background; only a blank tile behind a raw one is not drawn |
| JPEGDecoding.ReceiveRect | pond-sec/app/static/novnc/core/decoders/jpeg.js:20-87 | as for raw rectangles, with the tables remembered from earlier images |
| JPEGDecoding.JPEGDecoder.DecodeRect | pond-sec/app/static/novnc/core/decoders/jpeg.js:20-87 | one call reads the segments that have arrived and hands over a finished image, with the missing tables behind its frame header |
| JPEGDecoding.JPEGDecoder.ReadSegment | pond-sec/app/static/novnc/core/decoders/jpeg.js:89-145 | a whole segment, with the scan data behind it, is taken, or nothing is |
| JPEGDecoding.SegmentStays | pond-sec/app/static/novnc/core/decoders/jpeg.js:89-145 | a segment that was found stays the same when more bytes arrive |
| JPEGImages.SegmentBack | pond-sec/app/static/novnc/core/decoders/jpeg.js:89-145 | a marker, a marker with its length, or a scan with stuffed data behind it is taken as it was written, to its last byte |
| JPEGImages.RemembersLatest | pond-sec/app/static/novnc/core/decoders/jpeg.js:20-87 | after any images exactly the tables of the last one that had any are remembered, for Huffman and quantization tables each on its own |
| JPEGImages.NextImage | pond-sec/app/static/novnc/core/decoders/jpeg.js:20-87 | the next image is handed over as its parts up to the frame header, the remembered Huffman and then quantization tables that it lacks, and the rest of its parts, byte for byte |
| JPEGImages.OwnTables | pond-sec/app/static/novnc/core/decoders/jpeg.js:47-61 | an image with both kinds of tables is handed over as it was sent |
| JPEGImages.TablesFromBefore | pond-sec/app/static/novnc/core/decoders/jpeg.js:47-61 | an image without tables behind one that has both gets those of the other, in their order |
| JPEGImages.FramelessRefused | pond-sec/app/static/novnc/core/decoders/jpeg.js:47-52 | an image without a frame header is refused |
| Displays.Display.FlipNow | pond-sec/app/static/novnc/core/display.js:253-297 | after a flip every opaque pixel of the viewport is on the screen, and the damage is empty |
| Displays.FlipShows | pond-sec/app/static/novnc/core/display.js:253-297 | because drawing the damaged part over a screen that agrees elsewhere makes all of it agree |
| Displays.DrawingAgrees | pond-sec/app/static/novnc/core/display.js:236-249 | a drawing recorded in the damage, partly or wholly outside, breaks the agreement nowhere else |
| Displays.Display.DrawNow | pond-sec/app/static/novnc/core/display.js:316-407 | each drawing keeps the agreement of screen and damage |
| Displays.Display.Request | pond-sec/app/static/novnc/core/display.js:253-261 | requests execute in the order made: behind waiting work they queue, otherwise everything requested has been executed |
| Displays.Display.RenderQPush | pond-sec/app/static/novnc/core/display.js:464-471 | the executed requests are always a prefix of the requested ones |
| Displays.Display.ScanRenderQ | pond-sec/app/static/novnc/core/display.js:480-527 | the queue runs up to the first image that is not loaded, and the flush is answered exactly when it has drained |
| Displays.Display.ImageRect | pond-sec/app/static/novnc/core/display.js:364-381 | an image of positive size is queued, an empty one is dropped |
| Displays.Display.ImageLoaded | pond-sec/app/static/novnc/core/display.js:473-478 | a loaded image resumes the queue |
| Displays.Display.Flush | pond-sec/app/static/novnc/core/display.js:303-314 | answered at once if and only if nothing is waiting |
| Displays.Display.Resize | pond-sec/app/static/novnc/core/display.js:189-221 | the common part of the picture is kept; the viewport ends inside the frame if and only if its left edge was not negative, or clipping is off and the frame has a width |
| Displays.Display.ViewportChangePos | pond-sec/app/static/novnc/core/display.js:92-132 | the clamped move; a viewport inside its frame stays inside |
| Displays.Display.ViewportChangeSize | pond-sec/app/static/novnc/core/display.js:134-173 | the clamped size; a viewport inside its frame stays inside |
| Displays.Display.SetClipViewport | pond-sec/app/static/novnc/core/display.js:74-80 | the viewport ends inside the frame under the same condition as for a resize |
| Displays.SettlesInside | pond-sec/app/static/novnc/core/display.js:92-173 | resizing and settling a viewport leaves it inside the frame if and only if x was not negative, or clipping is off and the frame has a width |
| Displays.StaysFramed | pond-sec/app/static/novnc/core/display.js:74-221 | a viewport that lies inside its frame lies inside it after every later run of moves, sizes, clips and resizes |
| Displays.FramedFromResize | pond-sec/app/static/novnc/core/display.js:189-221 | one resize from a left edge that is not negative establishes this for every run |
| Displays.EmptyCanvasFramed | pond-sec/app/static/novnc/core/rfb.js:223-255 | constructed on a canvas of no size, as the only display of the client is, the viewport lies inside its frame in every run |
| Displays.FramedExactly | pond-sec/app/static/novnc/core/display.js:46-221 | from its first resize on every run keeps the viewport inside, if and only if the canvas had no width at construction |
| Displays.MovedTooSoon | pond-sec/app/static/novnc/core/display.js:92-132 | on a canvas with a width, a move before the first resize puts the left edge at minus the width, and no clipping, sizing or resizing brings the viewport back |
| Displays.StaysLeftExactly | pond-sec/app/static/novnc/core/display.js:74-221 | a clipped viewport left of the frame stays there after a step if and only if the step is a sizing, a resizing, another clipping, or a movement that neither goes left nor reaches the frame |
| Displays.FlipShowsExactly | pond-sec/app/static/novnc/core/display.js:253-297 | after a flip a pixel of the viewport is that of the back canvas if and only if the latter is opaque or was shown already |
| Displays.ClearPixelsLinger | pond-sec/app/static/novnc/core/display.js:253-297 | the failing case: a transparent pixel of the back canvas leaves the old pixel on the screen |
| Drawings.DrawsExactly | pond-sec/app/static/novnc/core/display.js:316-412 | an executed fill, copy, blit or image changes exactly the pixels of its rectangle: column i - x and row j - y of a picture at (i, j), the colour of a fill, the opaque pixel that a copy reads |
| Drawings.PixelTraced | pond-sec/app/static/novnc/core/display.js:316-412 | after any list of actions every pixel of the back canvas is the one found by tracing back through them: the last action that covers it decides, and a copy sends on to where it copied from |
| Drawings.VisibleTraced | pond-sec/app/static/novnc/core/display.js:253-297 | after a flip the visible canvas shows the traced pixel of its place wherever that is opaque |
| Drawings.ResizedExactly | pond-sec/app/static/novnc/core/display.js:189-221 | resizing keeps the pixels that both sizes have and clears the rest |
| Displays.Display.BlitImage | pond-sec/app/static/novnc/core/display.js:383-407 | an array is drawn from its own offset at once, and from the start of its buffer when it has to wait |
| Drawings.ArrayShown | pond-sec/app/static/novnc/core/display.js:397-406 | at once, the colours drawn are those of the bytes that the array shows |
| Drawings.QueuedExactly | pond-sec/app/static/novnc/core/display.js:383-397 | waiting leaves the picture as it is for every content of the buffer, if and only if the pixels lie at the start of the buffer or there are none |
| Drawings.QueuedBlitOff | pond-sec/app/static/novnc/core/display.js:383-397 | the failing case: a green pixel behind a red one in its buffer is drawn red |
| Drawings.SmallestBounds | pond-sec/app/static/novnc/core/display.js:236-249 | the damage is the smallest rectangle that covers the old damage and the new drawing |
| Drawings.MovedExactly | pond-sec/app/static/novnc/core/display.js:92-132 | a clipped viewport ends where it was sent, but not beyond the far edges, nor before the near ones, where movements along the rows are stopped only to the left |
| Drawings.SizedExactly | pond-sec/app/static/novnc/core/display.js:134-173 | it gets the size asked for as far as the frame has it; unclipped it gets the size of the frame |
| TightGradient.GradientFilter | pond-sec/app/static/novnc/core/decoders/tight.js:313-350 | the loops over the rows with their left, upper and corner values compute the restored image |
| TightGradient.RoundTrip | pond-sec/app/static/novnc/core/decoders/tight.js:315-350 | restoring the residuals of any image, under the clamped prediction and bytes that wrap around, gives the image |
| TightGradient.FilterUndoesPrediction | pond-sec/app/static/novnc/core/decoders/tight.js:313-350 | and so does the filter, byte by byte, with an opaque fourth channel |
| TightGradient.NearestByte | pond-sec/app/static/novnc/core/decoders/tight.js:334-346 | the prediction is the byte nearest to the plane through the three neighbours, and the residual what has to be added to it |
| TightGradient.EdgesPredicted | pond-sec/app/static/novnc/core/decoders/tight.js:315-345 | at the upper and left edge the pixel before is predicted, and zero for the first one |
| Tiling.TilesPartition | pond-sec/app/static/novnc/core/decoders/zrle.js:39-43 | every pixel of a rectangle lies in exactly one tile of the walk along the rows |
| Tiling.TilesInRows | pond-sec/app/static/novnc/core/decoders/hextile.js:41-46 | the first tile stands in the upper left corner, the next one to the right, or at the left edge of the row below |
| ZRLE.LengthBack | pond-sec/app/static/novnc/core/decoders/zrle.js:176-184 | every run length comes back from its encoding in bytes of 255 |
| ZRLE.PlainRunsBack | pond-sec/app/static/novnc/core/decoders/zrle.js:127-142 | any list of pixel runs is drawn as it was encoded, from just its own bytes |
| ZRLE.PaletteRunsBack | pond-sec/app/static/novnc/core/decoders/zrle.js:144-174 | the same for runs of palette indices |
| ZRLE.PackedRowsBack | pond-sec/app/static/novnc/core/decoders/zrle.js:95-125 | the same for rows of packed indices of one, two or four bits, with the padding of each row |
| ZRLE.PackedSizes | pond-sec/app/static/novnc/core/decoders/zrle.js:95-125 | rows of packed indices succeed if and only if their bytes are there, and fill the tile exactly |
| ZRLETiles.TileBack | pond-sec/app/static/novnc/core/decoders/zrle.js:46-66 | a tile in any of the five encodings is drawn with its pixels, from just its own bytes |
| ZRLETiles.RectBack | pond-sec/app/static/novnc/core/decoders/zrle.js:39-68 | any list of tiles comes back, whatever each of them left in the pixel buffer for the next |
| ZRLETiles.EveryPixelBack | pond-sec/app/static/novnc/core/decoders/zrle.js:39-68 | for the tiles of a rectangle: each pixel is covered by exactly one call, the one that draws in its place the tile that was encoded there |
| ZRLETiles.FreshExactlyInside | pond-sec/app/static/novnc/core/decoders/zrle.js:95-174 | the pixel drawn for an index is independent of earlier tiles if and only if the index is below the palette size, for every index the code can read |
| ZRLETiles.StaleEntryDrawn | pond-sec/app/static/novnc/core/decoders/zrle.js:144-174 | palette size 2, a run of index 2: accepted, drawn from an earlier tile |
| ZRLETiles.StalePackedDrawn | pond-sec/app/static/novnc/core/decoders/zrle.js:95-125 | palette size 5, a packed index 15: accepted, drawn from an earlier tile |
| ZRLEDecoding.DecodeEncoded | pond-sec/app/static/novnc/core/decoders/zrle.js:39-68 | the decoder with its two reused arrays draws an encoded rectangle tile by tile and stops behind it |
| ZRLEDecoding.ZRLEDecoder.DecodeRect | pond-sec/app/static/novnc/core/decoders/zrle.js:39-68 | the loop over the tiles, with both buffers reused, is the drawing of the tiles; it fails exactly where that does |
| ZRLEDecoding.ZRLEDecoder.DrawTile | pond-sec/app/static/novnc/core/decoders/zrle.js:46-66 | the dispatch on the subencoding |
| ZRLEDecoding.ZRLEDecoder.UnpackRows | pond-sec/app/static/novnc/core/decoders/zrle.js:95-125 | the bit loop is the unpacking of the rows |
| ZRLEDecoding.ZRLEDecoder.DecodeRLETile | pond-sec/app/static/novnc/core/decoders/zrle.js:127-142 | the run loop, with runs that overshoot the tile |
| ZRLEDecoding.ZRLEDecoder.DecodeIndexRuns | pond-sec/app/static/novnc/core/decoders/zrle.js:144-174 | the same behind a palette |
| ZRLEDecoding.ZRLEDecoder.ReadRLELength | pond-sec/app/static/novnc/core/decoders/zrle.js:176-184 | the length loop takes exactly its bytes |
| ZRLEDecoding.ZRLEDecoder.ReadPixels | pond-sec/app/static/novnc/core/decoders/zrle.js:83-93 | pixels of three bytes become opaque ones of four, the rest of the buffer stays |
| BigIntegers.ModPow | pond-sec/app/static/novnc/core/crypto/bigint.js:1-12 | the loop of squarings over halved exponents computes the power modulo m, but 1 for exponent 0, and throws exactly for modulus 0 |
| BigIntegers.PowModExact | pond-sec/app/static/novnc/core/crypto/bigint.js:1-12 | this is the power modulo m except for exponent 0 and modulus 1 |
| BigIntegers.BigIntToU8Array | pond-sec/app/static/novnc/core/crypto/bigint.js:14-26 | the conversion over hexadecimal digits |
| BigIntegers.NumberBack | pond-sec/app/static/novnc/core/crypto/bigint.js:14-26 | the number comes back if and only if there is no padding, the number fits it, or its count of digits is even |
| BigIntegers.BytesBack | pond-sec/app/static/novnc/core/crypto/bigint.js:14-34 | bytes come back when padded to their own length |
| BigIntegers.U8ArrayToBigInt | pond-sec/app/static/novnc/core/crypto/bigint.js:28-34 | reading through hexadecimal digits; the empty array throws |
| DH.Agreement | pond-sec/app/static/novnc/core/crypto/dh.js:36-54 | both sides derive the same secret if and only if the prime is at least 2 or both private keys are zero or neither is; for any keys, any generator and any length |
| DH.DHCipher.GenerateKey | pond-sec/app/static/novnc/core/crypto/dh.js:36-46 | the key that is held belongs to the private bytes drawn |
| DH.DHCipher.DeriveBits | pond-sec/app/static/novnc/core/crypto/dh.js:48-54 | the secret of the key held and the public key of the other side |
| DH.PublicKeyNumber | pond-sec/app/static/novnc/core/crypto/dh.js:36-46 | the public key is the generator to the power of the private key, on as many bytes as the prime has |
| DH.SecretIsPower | pond-sec/app/static/novnc/core/crypto/dh.js:48-54 | the secret is the generator to the power of the product of both private keys, on as many bytes as asked for, but no fewer than the prime has |
| RSA.RoundTrip | pond-sec/app/static/novnc/core/crypto/rsa.js:86-124 | for any key pair, any message and any random padding bytes: refused exactly when too long, otherwise the ciphertext has the length of the key and decrypts to the message |
| RSA.RSACipher.Encrypt | pond-sec/app/static/novnc/core/crypto/rsa.js:86-102 | padding, with zero bytes replaced, and the power |
| RSA.RSACipher.Decrypt | pond-sec/app/static/novnc/core/crypto/rsa.js:104-124 | the power, the header check and the search for the separator |
| RSA.PadByteExactly | pond-sec/app/static/novnc/core/crypto/rsa.js:90-94 | a random byte goes into the padding as it is, except that zero becomes one |
| RSA.MessageExactly | pond-sec/app/static/novnc/core/crypto/rsa.js:111-123 | decryption takes for an encoded message exactly 0, 2, a padding of any length without a zero, 0, the message |
| RSA.RfcExactly | pond-sec/app/static/novnc/core/crypto/rsa.js:111-123 | RFC 8017, section 7.2.2, takes exactly those with at least eight bytes of padding |
| RSA.PaddingExactly | pond-sec/app/static/novnc/core/crypto/rsa.js:111-123 | both read an encoded message alike if and only if no zero stands among the eight bytes behind a right header |
| RSA.DecryptsExactly | pond-sec/app/static/novnc/core/crypto/rsa.js:104-124 | decryption agrees with the section if and only if the ciphertext has another length, or is below the modulus and opens to no short padding, or is not below it and opens to no message |
| RSA.ShortPaddingAccepted | pond-sec/app/static/novnc/core/crypto/rsa.js:104-124 | the failing input, for every key pair: a message encrypted without any padding is opened, where the section demands an error |
| RSA.LargeCiphertextOpened | pond-sec/app/static/novnc/core/crypto/rsa.js:104-124 | the other failing input: a ciphertext with the modulus added is opened like the ciphertext, where the section demands an error |
| Subkeys.FirstKey | pond-sec/app/static/novnc/core/crypto/aes.js:61-75 | the shifted bytes with the table entry of the carry are the doubling in the field of 2 to the 128 |
| Subkeys.SecondKey | pond-sec/app/static/novnc/core/crypto/aes.js:61-75 | two shifts at once, with the carries from the table and one bit in the last byte but one, are the double doubling |
| EAX.AESEAXCipher.InitCMAC | pond-sec/app/static/novnc/core/crypto/aes.js:61-75 | so the loop leaves the two subkeys of CMAC (RFC 4493, section 2.3) |
| CMAC.ChainsToCmac | pond-sec/app/static/novnc/core/crypto/aes.js:95-123 | chaining the whole blocks and the keyed last one is CMAC (RFC 4493, section 2.4) |
| CMAC.LastButOne | pond-sec/app/static/novnc/core/crypto/aes.js:117-123 | in CBC mode with its own padding block behind, the last block but one is the chained value of the data |
| EAX.AESEAXCipher.ComputeCMAC | pond-sec/app/static/novnc/core/crypto/aes.js:95-123 | the in-place keying and the CBC call together give the CMAC of prefix and data, for every length |
| EAX.OpensExactlyTheSealed | pond-sec/app/static/novnc/core/crypto/aes.js:140-177 | decryption yields a message if and only if the data are the encryption of that message under the same key, nonce and associated data: round trip and refusal of everything else in one |
| Authentication.OtherDataRefused | pond-sec/app/static/novnc/core/crypto/aes.js:140-177 | a sealed message opens under other associated data if and only if their codes with prefix 1 are the same |
| Authentication.OtherNonceRefused | pond-sec/app/static/novnc/core/crypto/aes.js:140-177 | under another nonce if and only if the codes with prefix 0 are the same |
| Authentication.OtherTextRefused | pond-sec/app/static/novnc/core/crypto/aes.js:140-177 | and another ciphertext with the same tag if and only if the codes with prefix 2 are the same |
| Authentication.EncryptedAt | pond-sec/app/static/novnc/core/crypto/aes.js:140-154 | byte i of the ciphertext is byte i of the message combined with byte i of the key stream that starts at the code of the nonce |
| Authentication.LastBlockTells | pond-sec/app/static/novnc/core/crypto/aes.js:77-123 | two messages that differ in their last block only, full in both or short in both, have different codes, for every block function that is one to one |
| Authentication.InnerBlockTells | pond-sec/app/static/novnc/core/crypto/aes.js:77-123 | so do two messages that differ in one earlier block |
| Authentication.PrefixNumber | pond-sec/app/static/novnc/core/crypto/aes.js:44-46 | the block in front of each of the three codes is the number 0, 1 or 2 |
| Authentication.ShortestCodes | pond-sec/app/static/novnc/core/crypto/aes.js:95-123 | a single full block is coded with the first subkey, an empty message with the second one behind a one bit |
| Authentication.TopComesBack | pond-sec/app/static/novnc/core/crypto/aes.js:61-75 | a bit that doubling shifts out comes back as 0x87 |
| Authentication.HeadersTold | pond-sec/app/static/novnc/core/ra2.js:14-39 | a packet sealed with one length header is refused with any other, for every block function that is one to one |
| EAX.AESEAXCipher.Encrypt | pond-sec/app/static/novnc/core/crypto/aes.js:140-154 | encryption with its tag behind |
| EAX.AESEAXCipher.Decrypt | pond-sec/app/static/novnc/core/crypto/aes.js:156-177 | verification first, then decryption; data shorter than a tag are refused |
| Base64.RoundTrip | pond-sec/app/static/novnc/core/base64.js:14-103 | decoding the encoding of any bytes gives an array of exactly that length with exactly those bytes |
| Base64.Encode | pond-sec/app/static/novnc/core/base64.js:14-43 | the loop over triples and the two kinds of ending |
| Base64.Decode | pond-sec/app/static/novnc/core/base64.js:59-103 | the loop with its bit buffer is the recursive decoding, from any offset |
| Base64.CorruptedExactly | pond-sec/app/static/novnc/core/base64.js:59-103 | a string is refused if and only if its characters of the alphabet, from the offset on, do not come in fours |
| Base64.GroupDigits | pond-sec/app/static/novnc/core/base64.js:14-57 | three bytes and their four characters are the same number, in base 256 and in base 64 |
| Base64.PaddedExamples | pond-sec/app/static/novnc/core/base64.js:14-57 | the padded examples of section 10 of RFC 4648 |
| Base64.LongExample | pond-sec/app/static/novnc/core/base64.js:14-57 | and its longest one |
| Base64.AlphabetStarts | pond-sec/app/static/novnc/core/base64.js:10-12 | the parts of the alphabet start as in RFC 4648 |
| Throttle.WindowBound | pond-sec/app/throttle.py:52-87 | over any run of checks, records, clears and prunings of at least the longest window, with at most n requests of a bucket between check and record: no window of an action holds more than its limit plus n - 1 permitted attempts since the last clear |
| Throttle.LimitsKept | pond-sec/app/throttle.py:34-41 | in figures, one request at a time: 15 logins of an address and 10 of a user name in 15 minutes, 5 registrations an hour, 20 flags in 5 minutes, 10 password changes in 15 |
| Throttle.BoundReached | pond-sec/app/throttle.py:81-87 | for every action, key and n some run reaches that bound, so the limit itself holds for one request at a time only |
| Throttle.Limiter.Hit | pond-sec/app/throttle.py:52-87 | permitted attempts are recorded, denied ones leave the table alone and are told the whole seconds until the oldest counted event leaves the window, at least one |
| Throttle.ToldTooShort | pond-sec/app/throttle.py:66-73 | with a window that is just full, a request that comes back after the told time is denied again if and only if at least a second was left; one second more is always enough |
| Throttle.ToldInRuns | pond-sec/app/throttle.py:52-87 | the same for every denied request in every run with one request at a time |
| Throttle.BucketsApart | pond-sec/app/throttle.py:52-63 | two different pairs of action and key never share a bucket, although the key is put behind a colon without escaping |
| Throttle.PruneHarmlessExactly | pond-sec/app/throttle.py:95-99 | pruning never changes a later answer for an action if and only if the age kept is at least its window |
| Scoring.BoardAgreesWithPage | pond-sec/app/scoring.py:140-182 | the rank on the board, shared by equal scores, is the rank that the page of the same user shows, for any users and solves |
| Scoring.SortedIsBoard | pond-sec/app/scoring.py:170-182 | sorting keeps the rows and puts them in the order of the whole key: score, then last solve with none last, then name |
| Scoring.OnlyBoard | pond-sec/app/scoring.py:170-182 | with distinct user names the board is the only list of its rows in this order, so it does not depend on how the users were listed |
| Scoring.RankRows | pond-sec/app/scoring.py:140-159 | the loop that shares ranks between equal scores |
| Scoring.OverallLeaderboard | pond-sec/app/scoring.py:170-182 | the board of everybody but system administrators |
| Scoring.RankOf | pond-sec/app/scoring.py:300-315 | one more than the number of higher scores, none for a system administrator |
| Scoring.LastIsGreatest | pond-sec/app/scoring.py:170-184 | the last solve of a user is none exactly without solves, else one of the times of the user and no smaller than any of them |
| Scoring.RowInAnyOrder | pond-sec/app/scoring.py:170-184 | score, counts and last solve of a row do not depend on the order in which solves and plays are read |
| Scoring.BoardOrder | pond-sec/app/scoring.py:140-183 | the upper of two rows has the higher score, at equal scores the earlier last solve, none counting as latest, and then not the later name |

## Findings

Properties that one might expect and that the code does not have, each with the exact
condition under which it does.

- **The viewport can leave the frame, if the canvas had a width at construction.**  Moving the
  viewport before the first resize then puts its left edge at minus that width, because the
  right clamp is applied last (`display.js:92-132`), and no clipping, sizing or resizing brings
  it back (`Displays.MovedTooSoon`); a movement to the left does, or switching clipping off in
  a frame with a width
  (`Displays.StaysLeftExactly`).  From the first resize on every run stays inside, if and only
  if the canvas had no width (`Displays.FramedExactly`).  The client constructs one display, on
  a canvas of no size (`rfb.js:223-255`), and its viewport lies inside in every run
  (`Displays.EmptyCanvasFramed`); the failing run needs another caller of the class.
- **A blit that has to wait can draw other pixels.**  Behind an image that is still loading,
  `blitImage` copies its array from the start of the underlying buffer and not from the part
  that the array shows (`display.js:383-397`); drawn at once, it uses that part.  The picture
  is the same for every content of the buffer if and only if the pixels lie at its start or
  there are none (`Drawings.QueuedExactly`; `Drawings.QueuedBlitOff` is a failing input).  Raw
  lines and raw hextile tiles are parts of the receive queue (`raw.js:34`, `hextile.js:89`).
- **Transparent pixels linger.**  A flip draws the back canvas over the visible one.  It shows
  the pixel of the back canvas if and only if that is opaque or was shown already
  (`Displays.FlipShowsExactly`); otherwise the old pixel stays (`Displays.ClearPixelsLinger`).
- **ZRLE accepts indices behind the palette.**  Neither `_decodePaletteTile` nor
  `_decodeRLEPaletteTile` rejects an index that is equal to the palette size, and the
  former rejects none at all: it draws pixels of an earlier tile
  (`ZRLETiles.StaleEntryDrawn`, `ZRLETiles.StalePackedDrawn`).  A pixel is independent of
  earlier tiles if and only if its index is below the palette size
  (`ZRLETiles.FreshExactlyInside`).
- **The digest depends on the order of rows that share a path.**  Sorting is by path only
  and stable, so the canonical text is the same for every order of the rows if and only if
  no two different entries share a path (`Digests.OrderMattersExactly`); validation and the
  unique column of the file table exclude such rows.
- **`modPow` is wrong for modulus 1 and exponent 0**: it gives 1, not 0, and only there
  (`BigIntegers.PowModExact`).  Hence two sides of a key exchange modulo 1 can disagree
  when exactly one private key is zero, and never otherwise (`DH.Agreement`).
- **`bigIntToU8Array` drops a digit** of a number that is too long for its padding and has
  an odd count of hexadecimal digits; the number comes back in all other cases
  (`BigIntegers.NumberBack`).  The ciphers pad to a length that holds every number.
- **RSA decryption accepts more than the standard.**  RFC 8017, section 7.2.2, demands eight
  bytes of padding; a padding of any length is accepted, even none (`RSA.MessageExactly`,
  `RSA.ShortPaddingAccepted`).  It also demands a ciphertext below the modulus, and any of the
  right length is opened (`RSA.LargeCiphertextOpened`).  `RSA.DecryptsExactly` says when the two
  agree: for a ciphertext below the modulus, if and only if no zero stands among the eight bytes
  behind the header of what it opens to (`RSA.PaddingExactly`).
- **Overlapping requests exceed the throttle.**  A hit checks and records in two
  transactions, so n requests that all check before any of them records can exceed the limit
  by n - 1 (`Throttle.BoundReached`), and never by more (`Throttle.WindowBound`).
- **The time that a denied client is told is too short.**  The fraction of a second is cut off,
  so a client that comes back as told is denied again, if and only if at least a second of its
  window was left; one second more is enough (`Throttle.ToldTooShort`, `Throttle.ToldInRuns`).
- **Pruning the throttle can reopen a window.**  It is harmless to an action if and only if
  the age kept is at least the window of the action (`Throttle.PruneHarmlessExactly`); the
  default of one day is.
- **Base64 decoding skips foreign characters.**  Their number does not matter: a string is
  refused if and only if its characters of the alphabet do not come in fours
  (`Base64.CorruptedExactly`).
- **A broken intake leaves objects behind.**  When the process dies, or when a deletion raises an
  error, nothing deletes an object that was stored but not recorded, or whose row is gone
  (`Orphans.CrashLeavesObject` is such a run).  Storage then holds more than the file rows name,
  if and only if some step of the run was a broken intake that kept an object of its own or a
  removal whose object stayed (`Guarantees.NothingOrphaned`).  All else in the books of intake
  holds in every run (`Guarantees.IntakeBooksBalance`).
- **Some branches are dead.**  No validation or publication job is ever cancelled
  (`Guarantees.NothingToCancel`), and `finish` never replaces a report because the content
  changed (`Guarantees.FinishKeepsTheReport`).  Both would need a transaction that no actor
  has.

## Left out

Challenge ingestion:

- One counter stands for the primary keys of all tables, so a number is never used in two
  tables; the code has one counter for each table.
- The adapter that prepares virtual machines is a source of arbitrary plans and checkpoints;
  `ready` and `guard` are not steps.
- Timestamps without influence (`started_at`, `heartbeat_at`, `updated_at`, `published_at`)
  and texts of errors and notices.
- Validation.ValidateSubmission: the JSON text of manifests, the JSON schema beyond the bounds
  that the proofs use, and the list of the first hundred schema errors are not modelled; a
  manifest is a value and a broken schema is one finding.
- SHA-256 is an injective function of the canonical text, and the text is injective in the
  values that it lists; hashing in chunks is one comparison.
- Intake reads and commits under one file lock; a step of the model is what one session does
  under it, and a crash falls between two steps.
- Directory permissions, links, `fsync` and the handles of the quarantine storage; a stored
  object is its bytes.
- The notification delivery of `notifications.py`, and the command line loops.

VNC client:

- The protocol state machine of `rfb.js`, keyboard and pointer input, and the send queue.
- zlib: the inflated bytes of ZRLE and Tight rectangles are given; the length that frames them
  on the wire, waiting for it, and the compression are not modelled.
- HextileDecoding.HextileDecoder.DecodeRect: a fill with a background that was never sent fails
  at once; behind waiting work the display queues it and fails when it draws.
- The fill, copy, palette, mono, JPEG and PNG forms of Tight, the copy-rectangle encoding, DES and MD5.
- The contents of a JPEG or PNG picture; it is the bytes handed over.
- Pixels of a blit are opaque on the canvas, as every decoder makes them.
- Scaling of the canvas, and moves of the viewport by fractions, which the code rounds down
  before anything else.
- Attaching a second channel, which keeps the fill level of the receive queue.
- Key import and export, RSA key generation, and negative big integers.
- Whether an attacker can forge anything: the AES block function is arbitrary, and the proofs
  hold for every such function.

Web application:

- Flags, first solves, category boards and the matrix of challenges.
