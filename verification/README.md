# Reconcilers of the SeaweedFS operator, verified

The operator is a set of reconcilers. Each one pushes a declared spec onto state outside
itself: the filer, the IAM store, Kubernetes objects. Any call can fail, and between two
passes only what was persisted survives (status, annotations, a Secret). This project
models the reconcilers whose correctness depends on whole runs of such passes.

A call has one of three outcomes (`Text.Fault`): it works, it fails without effect
(`Lost`), or it takes effect and the answer is an error (`Late`). The pass methods take a
list of these faults, so one contract covers every point at which a pass can stop. For
each reconciler there is a class that holds the external state, methods that follow the
Go code call by call, a relation (`Pass`, `Step` or `Tick`) that says exactly what a pass
may leave behind, and lemmas about all runs of that relation. The methods' contracts tie
the two together.

| file | what it models |
|---|---|
| Text.dfy | string order, sorting, splitting and joining, decimal text |
| SecurityToml.dfy | the printer and the line parser of security.toml |
| SecurityTomlText.dfy | what the printed lines and a given file text literally say |
| Rollout.dfy | the pod annotation that follows the JWT settings |
| KeyStore.dfy | passes over the Secret and the legacy ConfigMap holding the JWT keys |
| Access.dfy | action lists and the annotation that remembers granted users |
| Quota.dfy | quota sizes in 64-bit arithmetic |
| Bucket.dfy | the bucket pass as a cut execution of a plan of calls |
| BucketConvergence.dfy | convergence of bucket passes under failure |
| BucketOwnership.dfy | many Bucket resources and one name: who may delete |
| Credentials.dfy | access keys: register, mirror, revoke, record |
| Binding.dfy | policy attachments: detach and attach loops |
| Identity.dfy | election of the claimant that owns an IAM user |
| Lifecycle.dfy | election of the policy that owns a bucket's lifecycle document |
| Scheduler.dfy | cron fires, anchors and retention of backups |
| Names.dfy | generated names and timestamps |
| Paths.dfy | lexical cleaning and joining of slash-separated paths |
| ReplicationToml.dfy | the escaped replication.toml and a TOML reader for it |
| ReplicationTomlText.dfy | what each storage's section literally says |

## Results that are conditions

Some expected properties do not hold of the code on every input. For each of them there
is a lemma with a concrete run and, where the property has an exact condition, a lemma
that states it in both directions.

- Key stability holds for keys whose characters are printable and neither quote nor
  backslash, whatever the Unicode tables count as printable. Any other key is escaped
  once more by every pass (`KeyStore.CompletedKeepsExactly`), for example one with a
  no-break space (`SecurityToml.NoBreakSpaceEscapes`).
- A completed pass can leave a disabled section's key behind: in the legacy ConfigMap
  exactly when it found a Secret and so left the ConfigMap alone, and, once nothing needs
  the file, exactly in an object the cluster resource does not control
  (`KeyStore.DisabledKeySurvives`). The key can return later (`KeyStore.StaleCopyReturns`).
  The comment at internal/controller/controller_tls.go:149-151 promises that stale keys
  are dropped.
- A quota above 2^63 - 2^20 bytes wraps to a negative size and removes the quota
  (`Quota.QuantityExact`).
- A spec edit between a cut pass and its repetition can leave a grant behind
  (`BucketConvergence.EditAfterCutLeaks`): exactly when the recorded state is not prepared
  for the edited spec (`BucketConvergence.DoneExactly`).
- A pass that creates the bucket without recording its claim strands the resource, which
  then refuses its own bucket for good. This happens exactly when nothing of the pass was
  saved, or the creation itself was answered by an error
  (`BucketConvergence.StrandExactly`), and convergence fails for no other reason
  (`BucketConvergence.Converges`).
- Two resources can come to hold one bucket name, and one of them can delete the other's
  bucket (`BucketOwnership.CutReleaseDeletesForeign`). An event breaks the rule exactly
  when it is a deletion whose finalizer write was lost, or a pass that records a claim on
  a name somebody else holds (`BucketOwnership.StepExact`); only a resource that adopts
  can do the latter (`BucketOwnership.ReconciledExact`).
- The comment at internal/controller/s3credentials_controller.go:154-158 promises that
  the identity owns exactly the Secret's pair. That holds if and only if no key was
  orphaned before (`Credentials.CrashRestart`), and the events that orphan a key are
  known exactly (`Credentials.LeaksExactly`).
- A failed attach forgets subjects; an edit right after it can leave them attached
  (`Binding.TruncationForgets`, `Binding.EditKeepsKnown`).
- A rival created in the same second with a smaller namespace or name displaces an IAM
  name's owner (`Identity.AddedDisplaces`).
- A terminating lifecycle policy clears its successor's document until the successor's
  next pass (`Lifecycle.HandOffClears`), and so does a holder that was displaced by a
  policy created in the same second and deleted before its next pass
  (`Lifecycle.DisplacedClears`). Without another holder of the marker nothing clears the
  owner's document (`Lifecycle.SettledOnceAlone`), and live holders that do not own their
  bucket arise by such an addition only (`Lifecycle.MarkersOwnedExact`).
- The comment at internal/controller/backup_scheduler.go:44-45 says a restart delays a
  first run by at most one cron period. A schedule without history fires exactly when it
  was anchored before the tick, its name is free and an instant has come since the anchor
  (`Scheduler.FirstFireExactly`). So one restart moves the anchor, and the first fire
  comes by the first successful tick at or after the next instant
  (`Scheduler.AnchoredFires`), while restarts before every tick delay it for ever
  (`Scheduler.RestartsStarve`).
- The rule that a tick is due exactly when an instant lies after the last run and not
  after now holds if and only if some instant lies after the last run, as far as the
  cron's search reaches or up to now (`Scheduler.DueRuleExactly`). Otherwise the cron
  answers the zero time and the tick fires without one (`Scheduler.SpuriousFireExactly`),
  as in the run of `Scheduler.EmptyCronFiresTwice`.
- A taken name costs a schedule its fire (`Scheduler.LeftDueExactly`).
- A strict TOML reader rejects replication.toml if and only if a value holds a control
  character other than newline and tab (`ReplicationToml.FileReadsBack`).

## Model

| member | source | states |
|---|---|---|
| Text.SplitJoin | internal/controller/helper.go:454 | splitting a comma-joined list of comma-free parts gives the parts back, so the joined annotation loses nothing |
| Text.UndecDec | internal/controller/helper.go:447-449 | decimal printing of lifetimes can be undone, hence is injective |
| SecurityToml.RenderSecurityToml | internal/controller/controller_tls.go:472-523 | the builder writes exactly the preamble, one block per enabled section in table order, and the mTLS blocks when TLS is on |
| SecurityToml.SplitLines | internal/controller/controller_tls.go:563-576 | the index loop cuts the text at every newline, without a last empty line |
| SecurityToml.TrimSpace | internal/controller/controller_tls.go:578-587 | the two index loops remove exactly the leading and trailing blanks |
| SecurityToml.ExtractTomlKey | internal/controller/controller_tls.go:528-561 | the scanner returns the quoted value of the first matching line inside the wanted section, else the empty string |
| SecurityToml.ParseJwtSigningKeys | internal/controller/controller_tls.go:447-453 | each of the four keys is looked up under its own section name |
| SecurityToml.ParseRender | internal/controller/controller_tls.go:447-561 | for all flags, lifetimes, TLS settings and key texts, parsing the rendered file gives the escaped key of each enabled section and nothing for the others |
| SecurityToml.RoundTripExact | internal/controller/controller_tls.go:472-587 | the parser undoes the printer if and only if every rendered key is printable without quote and backslash, for every Unicode table |
| SecurityToml.NoBreakSpaceEscapes | internal/controller/controller_tls.go:483 | a key with a no-break space is read back as its escape, whose backslash the next pass doubles |
| SecurityToml.GrpcStep | internal/controller/controller_tls.go:493-520 | the key lines of the mTLS sections are never mistaken for a JWT key |
| SecurityTomlText.RenderedLiterally | internal/controller/controller_tls.go:216-249 | volumeWrite and volumeRead put their key and lifetime under [jwt.signing] and [jwt.signing.read], filerWrite and filerRead under [jwt.filer_signing] and [jwt.filer_signing.read], line by line, and a section that is off has no header |
| SecurityTomlText.ParsedLiterally | internal/controller/controller_tls.go:447-453 | a key under a literal [jwt.signing] line is read as the volumeWrite key and as no other, and so for the other three headers |
| SecurityTomlText.GrpcLiterally | internal/controller/controller_tls.go:490-523 | with TLS the file names the certificate authority and has the six literal component sections with certificate and key, without TLS no [grpc header at all |
| Rollout.JwtSigningRevision | internal/controller/helper.go:437-455 | the loop yields "none" or the joined fields with their positive lifetimes |
| Rollout.WithJwtSigningAnnotation | internal/controller/helper.go:423-431 | the annotation is added to a copy and every other annotation is kept |
| Rollout.RevisionSame | internal/controller/helper.go:437-455 | two specs have equal revisions if and only if they agree on every section's presence and positive lifetime |
| Rollout.FileSame | internal/controller/controller_tls.go:472-523 | for given keys and TLS, two specs render equal files if and only if they agree in the same sense |
| Rollout.RevisionExact | internal/controller/helper.go:437-455 | equal revisions if and only if equal rendered files, for any key assignment |
| Rollout.RevisionLiterally | internal/controller/helper.go:437-455 | each flag appears under its own literal name, alone or with exactly its positive lifetime, and the annotation is "none" exactly when no flag is set |
| KeyStore.Objects.ExistingKeys | internal/controller/controller_tls.go:424-445 | keys come from the Secret, else from the ConfigMap, and the latter is reported |
| KeyStore.Objects.EnsureSecurityConfig | internal/controller/controller_tls.go:152-160 | whichever call fails, the pass leaves one of the states the relation allows, and without faults it completes |
| KeyStore.Objects.EnsureSecuritySecret | internal/controller/controller_tls.go:375-417 | missing keys of enabled sections are minted, found ones kept, the file written, the ConfigMap dropped only after a migration |
| KeyStore.CompletedKeepsExactly | internal/controller/controller_tls.go:373-417 | a completed pass keeps an enabled section's key if and only if the key is plain |
| KeyStore.PassKeepsKey | internal/controller/controller_tls.go:373-417 | no pass, complete or cut anywhere, changes a plain key of an enabled section |
| KeyStore.CompletedProvides | internal/controller/controller_tls.go:381-388 | after a completed pass every enabled section has a key, the minted one if there was none |
| KeyStore.CompletedSource | internal/controller/controller_tls.go:381-445 | where the Secret exists its key wins whatever the ConfigMap holds, else the ConfigMap's, else the minted one, and that key is what the written file says |
| KeyStore.CompletedLiterally | internal/controller/controller_tls.go:152-168 | the file exists after a completed pass for the TLS setting or any of the four flags, holds the literal header of each enabled section and the certificates exactly when TLS is usable, and otherwise only what is not controlled is left |
| KeyStore.DisabledKeySurvives | internal/controller/controller_tls.go:149-160 | where a disabled section's key survives a completed pass, in both directions: with the file needed only in a ConfigMap the pass left alone, with nothing needed only in objects the resource does not control |
| KeyStore.RepeatIsIdentical | internal/controller/controller_tls.go:375-417 | repeating a completed pass renders identical bytes, whatever would be minted |
| KeyStore.RunKeepsKey | internal/controller/controller_tls.go:375-445 | over any run of spec edits and cut or completed passes, a section that stays on keeps its key |
| KeyStore.MintedOnce | internal/controller/controller_tls.go:381-388 | the key minted by a completed pass is the key at every later point of the run |
| KeyStore.RandKeyPlain | internal/controller/controller_tls.go:590-596 | whatever the random source yields, a minted key is not empty and holds only plain characters, as key stability needs |
| KeyStore.MigrationKeepsKeys | internal/controller/controller_tls.go:411-445 | the ConfigMap to Secret migration keeps every enabled plain key at each cut point, and completed it removes the ConfigMap |
| KeyStore.StaleCopyReturns | internal/controller/controller_tls.go:411-445 | a concrete run in which the key of a section that was switched off comes back |
| Access.JoinSet | internal/controller/bucket_controller.go:662-679 | collecting names in any order, sorting and joining gives the one joined sorted list |
| Access.ReadAppliedAccess | internal/controller/bucket_controller.go:640-656 | the loop keeps the trimmed non-empty parts in order |
| Access.AnnotationRoundTrip | internal/controller/bucket_controller.go:640-679 | reading the written annotation returns the users if and only if every name is non-empty, trimmed and free of commas, and then the sorted list itself |
| Access.WithAnonymousRead | internal/controller/bucket_controller.go:573-586 | the loop yields the sorted duplicate-free union with Read |
| Access.JoinActionsGrant | internal/controller/bucket_controller.go:558-566 | applying a joined list grants exactly its actions, and the empty list revokes |
| Access.JoinActionsOrder | internal/controller/bucket_controller.go:558-566 | the joined text does not depend on the order of the list |
| Access.WithReadGrants | internal/controller/bucket_controller.go:573-586 | for every text the union grants what the text names, and Read |
| Access.WithReadIdempotent | internal/controller/bucket_controller.go:573-586 | uniting Read twice is uniting it once |
| Access.WithReadOfList | internal/controller/bucket_controller.go:558-586 | over joined lists the union depends on the set of actions alone |
| Quota.QuantityExact | internal/controller/bucket_controller.go:540-553 | the result is the least number of MiB covering the size exactly up to 2^63 - 2^20, its byte count fits, and above that it is negative |
| Bucket.DesiredAccess | internal/controller/bucket_controller.go:320-327 | the loop over access entries and the anonymous merge give the desired map |
| Bucket.DesiredGrants | internal/controller/bucket_controller.go:320-333 | the desired users are exactly the listed ones, and the anonymous identity under anonymousRead; applying a user's entry grants exactly the actions of the last entry naming the user, and Read for anonymousRead |
| Bucket.HoldsAsked | internal/controller/bucket_controller.go:312-342 | on a filer as the spec asks, every user holds exactly the listed actions and nobody else any |
| Bucket.HoldsQuotaAsked | internal/controller/bucket_controller.go:285-304 | on a filer as the spec asks the quota is the least number of MiB covering the size in bytes, enforced as asked, and status records it in bytes; without a size or above the bound there is none |
| Bucket.QuotaCallsAsked | internal/controller/bucket_controller.go:285-304 | a usable size is set as its least covering number of MiB and then enforced as asked, size zero removes the quota, no quota removes a recorded one |
| Bucket.Cluster.Do | internal/controller/bucket_controller.go:210-396 | one call under one fault has its effect or none, and success means the effect happened |
| Bucket.Cluster.FailPhase | internal/controller/bucket_controller.go:452-461 | the phase and the claim are persisted together or not at all |
| Bucket.Cluster.ClaimBucket | internal/controller/bucket_controller.go:217-258 | create, adopt or refuse, also when another agent wins the race for the creation, and an unclaimed existing bucket without adoption gets no call |
| Bucket.Cluster.ReconcileVersioning | internal/controller/bucket_controller.go:262-282 | lock before versioning, each only when asked for |
| Bucket.Cluster.ReconcileQuota | internal/controller/bucket_controller.go:285-304 | the quota calls of the plan, and an unusable size stops the pass without a call |
| Bucket.Cluster.ReconcileOwner | internal/controller/bucket_controller.go:307-317 | an owner is set when it changed and removed when the spec dropped it |
| Bucket.Cluster.ReconcileGrants | internal/controller/bucket_controller.go:328-333 | every wanted user is set, in some order of the map, up to the first failure |
| Bucket.Cluster.RevokeGrants | internal/controller/bucket_controller.go:334-342 | exactly the remembered users outside the spec are stripped, up to the first failure |
| Bucket.Cluster.RememberUsers | internal/controller/bucket_controller.go:662-679 | the annotation is written only when it changes |
| Bucket.Cluster.ReconcileBucket | internal/controller/bucket_controller.go:210-396 | every pass is a beginning of the plan with the recorded status to match, and without faults it ends as the spec, the filer's rules and a lost race predict |
| BucketConvergence.DoneComputes | internal/controller/bucket_controller.go:210-396 | what a completed pass leaves from any state whatever: bucket with its placement, every user's grants, status and annotation |
| BucketConvergence.DoneExactly | internal/controller/bucket_controller.go:210-396 | a completed pass leaves lock, versioning, quota, owner and every user's grants as the spec asks if and only if the recorded state was prepared, and then the filer's quota and the recorded bytes are the ones asked for, stated in bytes |
| BucketConvergence.PassKeepsPrepared | internal/controller/bucket_controller.go:210-396 | a pass stopped at any call keeps a prepared state prepared |
| BucketConvergence.RunKeepsPrepared | internal/controller/bucket_controller.go:210-396 | so does any number of passes of any outcome |
| BucketConvergence.StrandExactly | internal/controller/bucket_controller.go:217-257 | after a pass of any outcome the resource refuses its bucket if and only if it refused before, or the pass created the bucket and did not record the claim |
| BucketConvergence.RunRefuses | internal/controller/bucket_controller.go:217-257 | a run ends refused if and only if it began refused or some pass stranded it |
| BucketConvergence.Converges | internal/controller/bucket_controller.go:210-396 | after any number of passes of any outcome, one error-free pass completes if and only if no pass stranded the resource, and then the filer is exactly as the spec asks: every user holds exactly the listed actions, the quota is the least number of MiB covering the asked bytes, a placement the spec names is configured, and the spec is recorded |
| BucketConvergence.AgreementPrepares | internal/controller/bucket_controller.go:262-342 | from agreement of filer, status and annotation every admitted spec edit is prepared |
| BucketConvergence.DoneAgrees | internal/controller/bucket_controller.go:346-396 | a completed pass restores agreement when the granted names can be remembered |
| BucketConvergence.EditAfterCutLeaks | internal/controller/bucket_controller.go:328-351 | a concrete run in which an edit after a cut pass leaves a grant behind |
| BucketConvergence.RefusedStays | internal/controller/bucket_controller.go:226-235 | a non-adopting resource facing an unclaimed bucket issues no call and stays refused |
| BucketConvergence.RefusedWithoutAdoption | internal/controller/bucket_controller.go:226-235 | an existing bucket nobody recorded is refused exactly without adoption |
| BucketConvergence.CreationStrands | internal/controller/bucket_controller.go:238-257 | the two concrete ways to be stranded: a creation answered by an error, and a claim of which nothing was saved |
| BucketOwnership.HandleDeletion | internal/controller/bucket_controller.go:401-438 | DeleteBucket is called exactly under reclaim Delete and a matching marker, retention or an error keeps the finalizer, and without faults the resource is released |
| BucketOwnership.PassClaims | internal/controller/bucket_controller.go:217-258 | a pass never removes a bucket, and a marker it adds comes from creating or adopting |
| BucketOwnership.StepExact | internal/controller/bucket_controller.go:217-438 | an event keeps one holder per name, and the bucket existing while held, if and only if it is neither a deletion that lost its finalizer write nor a pass that recorded a claim on a name another resource holds |
| BucketOwnership.ReconciledExact | internal/controller/bucket_controller.go:217-258 | a pass breaks the rule only if its resource adopts and another holds the name, and exactly when it then records its claim |
| BucketOwnership.OneHolderExact | internal/controller/bucket_controller.go:217-438 | over any run, adopting or not, the rule holds throughout if and only if no event is of those two kinds |
| BucketOwnership.StepKeepsInv | internal/controller/bucket_controller.go:217-438 | when no resource adopts a name another holds, and finalizer writes finish, every event keeps the rule |
| BucketOwnership.OneHolder | internal/controller/bucket_controller.go:217-438 | so in every reachable state at most one resource holds a name |
| BucketOwnership.HoldingWasEarned | internal/controller/bucket_controller.go:217-258 | whoever holds a name created the missing bucket or adopted it in an earlier event |
| BucketOwnership.DeletionWasEarned | internal/controller/bucket_controller.go:401-438 | in any run DeleteBucket is called, effective or not, only by a resource that earlier created or adopted the bucket |
| BucketOwnership.CutReleaseDeletesForeign | internal/controller/bucket_controller.go:413-437 | a concrete run in which a lost finalizer write lets a retry delete another resource's bucket |
| Credentials.Account.Do | internal/controller/s3credentials_controller.go:205-226 | one IAM or API call under one fault has its effect or none |
| Credentials.Account.Reconcile | internal/controller/s3credentials_controller.go:72-152 | the pinned, legacy or resolved user is chosen, and without faults the pass completes exactly when it is ready to |
| Credentials.Account.ReconcileKey | internal/controller/s3credentials_controller.go:159-242 | every stop of a pass leaves a beginning of: register or rewrite, mirror, revoke, record |
| Credentials.Account.HandleDeletion | internal/controller/s3credentials_controller.go:278-351 | every stop of a deletion leaves a beginning of its plan, and without faults it completes |
| Credentials.BoundaryStage | internal/controller/s3credentials_controller.go:201-240 | at each call boundary the state is that after the first few of the four steps |
| Credentials.RevokedOnlyWhenReplaced | internal/controller/s3credentials_controller.go:205-226 | at every call boundary the superseded key is gone only if the Secret's pair is registered with its exact secret key |
| Credentials.SecretStaysValid | internal/controller/s3credentials_controller.go:193-226 | a Secret that held a valid pair, or none, never holds an invalid one at any call boundary |
| Credentials.OthersUntouched | internal/controller/s3credentials_controller.go:201-226 | no boundary shows any other key of any user changed |
| Credentials.OrphansExactly | internal/controller/s3credentials_controller.go:193-219 | no pass removes an orphaned key, and it adds one exactly when it registered a generated key and stopped before storing it |
| Credentials.EditOrphans | internal/controller/s3credentials_controller.go:187-226 | a manual rotation orphans a key exactly when the old key is registered, unrecorded and not the new one |
| Credentials.FailedMirrorOrphans | internal/controller/s3credentials_controller.go:205-219 | a concrete run in which a generated key stays registered for good |
| Credentials.DoneExactly | internal/controller/s3credentials_controller.go:159-242 | after a completed pass the user holds the orphans and the wanted pair, named by Secret and status, and nothing else |
| Credentials.ReadyExactly | internal/controller/s3credentials_controller.go:72-152 | a pass can complete exactly when the pinned, legacy or resolved user is known and exists and a Secret elsewhere is granted and there |
| Credentials.DoneServes | internal/controller/s3credentials_controller.go:72-92 | for a fresh resource the resolved user, for one recorded before pinning the reference itself, and otherwise the pinned user gets the pair and is recorded; no other user changes |
| Credentials.BlockedTouchesNothing | internal/controller/s3credentials_controller.go:72-152 | an unresolved reference, a missing user or a forbidden Secret leaves every user, the Secret and the status unchanged |
| Credentials.CrashRestart | internal/controller/s3credentials_controller.go:159-242 | with a stable Secret, passes cut anywhere and then a completed one end in the world of one undisturbed pass, with exactly the Secret's pair if and only if there was no orphan |
| Credentials.LeaksExactly | internal/controller/s3credentials_controller.go:187-226 | an event adds an orphan if and only if it is one of the two leaky kinds |
| Credentials.RotationLeavesOneKey | internal/controller/s3credentials_controller.go:187-242 | any run of cut passes and rotations without a leaky event ends, after a completed pass, with exactly one key |
| Credentials.PinnedForever | internal/controller/s3credentials_controller.go:72-92 | once the user is pinned no pass ever touches another user, whatever the reference becomes |
| Credentials.DeletionDone | internal/controller/s3credentials_controller.go:278-351 | reclaim Delete removes the recorded key and the managed Secret only, Retain keeps every key |
| Credentials.DeletedPairGone | internal/controller/s3credentials_controller.go:284-295 | the Secret's pair is unusable after deletion exactly when its key was unregistered or recorded |
| Credentials.RetainSurvives | internal/controller/s3credentials_controller.go:303-313 | Retain keeps a managed Secret out of garbage collection together with its key |
| Binding.ResolveSubjects | internal/controller/s3policybinding_controller.go:252-269 | the result is the strictly sorted set of resolved names, and fails exactly when a subject does |
| Binding.Store.Reconcile | internal/controller/s3policybinding_controller.go:63-180 | every stop of a pass leaves what the relation allows, and without faults the pass completes exactly when it is ready to |
| Binding.Store.DetachAll | internal/controller/s3policybinding_controller.go:136-143 | recorded unlisted users are detached in order up to the first failure, missing users tolerated |
| Binding.Store.AttachAll | internal/controller/s3policybinding_controller.go:149-166 | listed users are attached in order up to the first failure, missing ones skipped, and the attached beginning is returned |
| Binding.CompletedExactly | internal/controller/s3policybinding_controller.go:131-180 | a completed pass attaches the policy to exactly the listed existing users if and only if every attached user was recorded or listed, and changes no other policy |
| Binding.PassBounds | internal/controller/s3policybinding_controller.go:131-166 | a pass stopped anywhere attaches only listed users and detaches only recorded unlisted ones |
| Binding.PassKeepsKnown | internal/controller/s3policybinding_controller.go:131-166 | under one list, no stop makes an attached user unknown, in spite of the truncated record |
| Binding.RunStaysKnown | internal/controller/s3policybinding_controller.go:111-180 | the same over any run from before the finalizer on, with users created and deleted in between |
| Binding.RunConverges | internal/controller/s3policybinding_controller.go:131-180 | the next completed pass after any such run is exact and records what is attached |
| Binding.EditKeepsKnown | internal/controller/s3policybinding_controller.go:131-143 | a list edit is safe exactly when every attached subject it drops is recorded |
| Binding.CompletedAllowsEdits | internal/controller/s3policybinding_controller.go:168-180 | after a completed pass every edit is safe |
| Binding.TruncationForgets | internal/controller/s3policybinding_controller.go:157-164 | a concrete run in which truncation and an edit leave two users attached |
| Binding.PinnedStays | internal/controller/s3policybinding_controller.go:63-79 | once pinned no pass touches another policy |
| Binding.ReadyExactly | internal/controller/s3policybinding_controller.go:63-121 | a pass can complete exactly when the pinned, legacy or resolved policy is known and stored and every subject resolves |
| Binding.CompletedBinds | internal/controller/s3policybinding_controller.go:63-79 | a completed pass attaches that policy to every listed user, detaches it from every recorded unlisted one, pins the resource to it and changes no other policy |
| Binding.HandleDeletion | internal/controller/s3policybinding_controller.go:183-206 | the finalizer goes only after every recorded user was detached, or none under Retain |
| Binding.DeletionExactly | internal/controller/s3policybinding_controller.go:183-206 | nobody keeps the policy after deletion exactly when every attached user was recorded |
| Identity.RefKeySame | internal/controller/iam_name_claim.go:52-58 | two cluster references have one key exactly when they name the same cluster after defaulting |
| Identity.PrecedesTotal | internal/controller/iam_name_claim.go:62-71 | precedence is older first, then the lesser namespace, then the lesser name, and a strict total order on distinct claims |
| Identity.PrecedesTransitive | internal/controller/iam_name_claim.go:62-71 | precedence is transitive |
| Identity.IdentityClaimants | internal/controller/iam_name_claim.go:75-96 | the loop returns exactly the other live claims of the name on the cluster |
| Identity.IdentityConflict | internal/controller/iam_name_claim.go:100-115 | no conflict exactly when self outranks every rival, else the rival that outranks all |
| Identity.RivalsExactly | internal/controller/iam_name_claim.go:36-58 | two claims of one cluster are rivals exactly when they spell one name, in spec.name or, where that is empty, as the resource name |
| Identity.ExactlyOneOwner | internal/controller/iam_name_claim.go:100-115 | among live claimants exactly one sees no conflict, and all others see that one, in any listing order |
| Identity.Api.Reconcile | internal/controller/s3identity_controller.go:54-157 | only the owner writes the user, and every stop leaves what the relation allows |
| Identity.Api.HandleDeletion | internal/controller/s3identity_controller.go:159-189 | the user goes only without a live rival and without Retain, before the finalizer |
| Identity.Api.MapToNameClaimants | internal/controller/s3identity_controller.go:234-248 | exactly the live rivals are enqueued |
| Identity.OnlyOwnerWrites | internal/controller/s3identity_controller.go:85-189 | in any event a user changes only by its owner writing exactly its account, or by a deletion when no live claimant is left |
| Identity.DoneWritesNamedUser | internal/controller/s3identity_controller.go:54-157 | a completed pass writes the account to the user called spec.name, or the resource name when that is empty, records that name and changes no other user |
| Identity.DoneRemovesNamedUser | internal/controller/s3identity_controller.go:159-189 | a completed deletion removes the user of that name under Delete without a live rival, and no other user ever |
| Identity.UserOutlivesClaims | internal/controller/s3identity_controller.go:159-189 | over any run the user exists as long as a live claimant does |
| Identity.ReleaseRemovesExactly | internal/controller/s3identity_controller.go:165-189 | a completed deletion leaves no user exactly when there was none, or reclaim is Delete and no claimant is live |
| Identity.AddedDisplaces | internal/controller/iam_name_claim.go:62-115 | a new claim displaces the owner exactly when it is a rival that ranks higher, which a strictly newer one never does |
| Identity.OwnerStays | internal/controller/iam_name_claim.go:62-115 | the owner is elected in every state of a run in which it stays live and rivals added rank below it |
| Identity.SettledStays | internal/controller/s3identity_controller.go:85-157 | after the owner's completed pass the user carries its account and keeps it through every such run |
| Identity.ChangedVerdictEnqueued | internal/controller/s3identity_controller.go:231-248 | every live claim whose verdict changes with an event on another claim is one the watch enqueues |
| Lifecycle.PrecedesTotal | internal/controller/bucketlifecyclepolicy_controller.go:298-303 | precedence is older first, then the lesser name, and a strict total order on distinct names |
| Lifecycle.BucketOwner | internal/controller/bucketlifecyclepolicy_controller.go:279-295 | the loop finds the live policy that outranks all others of the bucket, in any listing order |
| Lifecycle.OneOwner | internal/controller/bucketlifecyclepolicy_controller.go:275-295 | all live policies of a bucket compute the same owner |
| Lifecycle.Cluster.Reconcile | internal/controller/bucketlifecyclepolicy_controller.go:78-165 | every stop of a pass leaves what the relation allows, a loser only gives up its marker |
| Lifecycle.Cluster.ReconcilePolicy | internal/controller/bucketlifecyclepolicy_controller.go:169-202 | stale entries, then the document unless already there, then the record |
| Lifecycle.Cluster.HandleDeletion | internal/controller/bucketlifecyclepolicy_controller.go:208-249 | only a recorded, unretained document is cleared, before the finalizer |
| Lifecycle.Cluster.MapPolicyToPeers | internal/controller/bucketlifecyclepolicy_controller.go:377-394 | exactly the other policies of the bucket are enqueued |
| Lifecycle.OnlyOwnerWrites | internal/controller/bucketlifecyclepolicy_controller.go:134-249 | a document changes only by its live owner writing the owner's document, or by a terminating policy that recorded the bucket; a new bucket has none |
| Lifecycle.AppliedExactly | internal/controller/bucketlifecyclepolicy_controller.go:134-202 | a completed pass leaves the owner's document on the provisioned bucket, no legacy TTL entries there, the bucket in its status, and every other bucket as it was |
| Lifecycle.ReleaseClearsExactly | internal/controller/bucketlifecyclepolicy_controller.go:208-249 | a completed deletion clears exactly the document and the legacy TTL entries of the bucket its marker records; an empty marker clears nothing |
| Lifecycle.OwnerReigns | internal/controller/bucketlifecyclepolicy_controller.go:134-202 | the owner and its sole marker survive any run of other policies coming, failing and going |
| Lifecycle.MarkersOwnedExact | internal/controller/bucketlifecyclepolicy_controller.go:134-202 | an event keeps 'every live holder of a marker owns the bucket it names' if and only if it is not the addition of a policy that outranks a live holder |
| Lifecycle.MarkersOwnedAlways | internal/controller/bucketlifecyclepolicy_controller.go:134-202 | so it holds over any run from no policies without such an addition, buckets being provisioned at any time |
| Lifecycle.QuietIsSole | internal/controller/bucketlifecyclepolicy_controller.go:134-249 | when no terminating policy holds a bucket's marker, nobody but the owner does |
| Lifecycle.SettledOnceAlone | internal/controller/bucketlifecyclepolicy_controller.go:134-249 | after any run whatever, once no other policy holds the marker, the owner's completed pass leaves the bucket at exactly its document, which stays while the owner is live, unedited and not outranked |
| Lifecycle.SettledOnceQuiet | internal/controller/bucketlifecyclepolicy_controller.go:134-249 | where no addition displaced a live holder, it is enough that no terminating policy holds the marker |
| Lifecycle.HandOffCompletes | internal/controller/bucketlifecyclepolicy_controller.go:208-249 | releasing the last terminating holder leaves the marker to the successor alone and the successor owner, because live losers hold none |
| Lifecycle.HandOffClears | internal/controller/bucketlifecyclepolicy_controller.go:208-249 | a concrete hand-off in which the successor's document is cleared and then restored |
| Lifecycle.DisplacedClears | internal/controller/bucketlifecyclepolicy_controller.go:208-303 | a concrete run in which a holder displaced in the same second and then deleted clears the new owner's document |
| Lifecycle.ChangedOwnerEnqueued | internal/controller/bucketlifecyclepolicy_controller.go:377-410 | the owner changes only with an addition or deletion, and then every other policy of the bucket is enqueued |
| Scheduler.DueExactly | internal/controller/backup_scheduler.go:168 | a tick is due if and only if a cron instant lies after the last run and not after now |
| Scheduler.MostRecentCreation | internal/controller/backup_scheduler.go:253-261 | the loop finds the newest stamp, the zero time for an empty list |
| Scheduler.BackupScheduler.AnchorFor | internal/controller/backup_scheduler.go:65-76 | the first observation is kept, other schedules' anchors are untouched |
| Scheduler.BackupScheduler.CreateScheduledBackup | internal/controller/backup_scheduler.go:180-208 | at most one backup is created, and a taken name counts as success |
| Scheduler.BackupScheduler.SortNewestFirst | internal/controller/backup_scheduler.go:218-220 | the array becomes the same backups newest first |
| Scheduler.BackupScheduler.PruneBackups | internal/controller/backup_scheduler.go:214-237 | what is removed is what retention dooms among the first backups visited, all of them without error |
| Scheduler.BackupScheduler.ReconcileSchedule | internal/controller/backup_scheduler.go:146-177 | every stop of a tick leaves what the relation allows, and without faults it succeeds |
| Scheduler.DoomedExactly | internal/controller/backup_scheduler.go:221-232 | a backup is removed if and only if it is terminal and at least Keep terminal ones are listed before it |
| Scheduler.DoomedCount | internal/controller/backup_scheduler.go:221-232 | exactly the surplus of terminal backups over Keep is removed |
| Scheduler.RetentionExactly | internal/controller/backup_scheduler.go:221-232 | retention removes exactly the completed or failed backups with at least Keep completed or failed ones listed before them |
| Scheduler.RetentionKeepsLatest | internal/controller/backup_scheduler.go:214-261 | no unfinished backup goes, no removed one is newer than a kept terminal one, and the newest stamp is unchanged, even if pruning stops midway |
| Scheduler.TickLatest | internal/controller/backup_scheduler.go:146-177 | a tick moves the last run only by firing, then to its own stamp |
| Scheduler.FireIsEarned | internal/controller/backup_scheduler.go:154-174 | a fire happens only when a cron instant lies after the last run or anchor and not after the new stamp |
| Scheduler.HistoryFireExactly | internal/controller/backup_scheduler.go:154-208 | with history a successful tick with a free name fires exactly when an instant lies after the newest stamp, and the new backup is pending under the second of the tick |
| Scheduler.LeftDueExactly | internal/controller/backup_scheduler.go:168-174 | after a successful tick a schedule is still due exactly when it was due, has history and its name was taken |
| Scheduler.OwnNameFree | internal/controller/backup_scheduler.go:180-208 | a due schedule never finds its own name taken by its own history |
| Scheduler.RestartInvisible | internal/controller/backup_scheduler.go:157-166 | with history, a restart changes nothing about the tick |
| Scheduler.LatestBetween | internal/controller/backup_scheduler.go:146-261 | until the next fire the last run is the stamp of this one, through pruning, restarts and progress |
| Scheduler.ConsecutiveFires | internal/controller/backup_scheduler.go:146-177 | between two consecutive fires lies a cron instant, after the first stamp and not after the second |
| Scheduler.FirstFireExactly | internal/controller/backup_scheduler.go:157-174 | without history a successful tick fires if and only if the schedule was anchored before, its name is free, and an instant has come since the anchor |
| Scheduler.AnchoredFires | internal/controller/backup_scheduler.go:65-76 | once anchored and not restarted since, a schedule fires by the first successful tick with a free name at or after the next instant, and never before that instant |
| Scheduler.FirstTickAnchors | internal/controller/backup_scheduler.go:157-163 | without history the first tick after a restart only sets the anchor, and later ones keep it until a fire is due |
| Scheduler.RestartsStarve | internal/controller/backup_scheduler.go:37-45 | restarts before every tick keep a schedule without history from ever firing |
| Scheduler.DueRuleExactly | internal/controller/backup_scheduler.go:168 | for a cron that may find no instant, the due rule holds if and only if some instant lies after the last run, as far as the search reaches or up to now |
| Scheduler.SpuriousFireExactly | internal/controller/backup_scheduler.go:168-174 | a successful tick with a free name fires without an instant having come exactly when there is none that far |
| Scheduler.EmptyCronFiresAlways | internal/controller/backup_scheduler.go:168-174 | so a cron without instants fires at every successful tick with a free name |
| Scheduler.EmptyCronFiresTwice | internal/controller/backup_scheduler.go:168-174 | a concrete run of two such fires half a minute apart |
| Names.UnhexHex | internal/controller/backup_common.go:34-38 | the eight hexadecimal digits determine the hash |
| Names.BoundedNameShape | internal/controller/backup_common.go:43-54 | a name ends with its suffix and keeps 63 characters if and only if the suffix has at most 54 or nothing needed shortening |
| Names.BoundedNameOrder | internal/controller/backup_common.go:43-54 | for one base and suffixes of one width, names are ordered and distinct as their suffixes |
| Names.BoundedNameCollides | internal/controller/backup_common.go:40-54 | two shortened bases share a name exactly when they share the kept beginning and the hash |
| Names.FormatOrder | internal/controller/backup_scheduler.go:184 | the timestamp text sorts in time order |
| Names.FireNames | internal/controller/backup_scheduler.go:181-184 | one schedule's names keep the limit, are distinct for distinct seconds and sort in fire order |
| Names.FireNameSpelled | internal/controller/backup_scheduler.go:181-184 | one name spelled out: cluster, schedule and the time from year to second |
| Names.SchedulesClash | internal/controller/backup_scheduler.go:184 | two schedules of any length share names exactly when their stems agree: equal texts when they fit, equal beginnings and hashes when shortened |
| ReplicationToml.ReadEscaped | internal/controller/backup_storage.go:121-124 | a basic-string reader gives every escaped value back and stops at the closing quote; the strict one exactly for values without raw control characters |
| ReplicationToml.EscapedOneLine | internal/controller/backup_storage.go:121-124 | an escaped value holds no raw newline |
| ReplicationToml.SinkReadsBack | internal/controller/backup_storage.go:142-207 | a line reader recovers a section with all its fields |
| Paths.JoinBelow | internal/controller/backup_storage.go:117 | joining two names onto any base, clean or not, gives the directory directly below the cleaned base |
| Paths.CleanKeeps | internal/controller/backup_storage.go:117 | cleaning keeps every path of real components, rooted or not |
| Paths.DotsClimb | internal/controller/backup_storage.go:117 | two dots take the component before them away |
| ReplicationToml.DirectoryBelowBase | internal/controller/backup_storage.go:90-118 | a cluster's directory lies directly below the storage's cleaned base, under the cluster's own name |
| ReplicationToml.ClustersIsolated | internal/controller/backup_storage.go:88-118 | no path belongs to the directories of two different clusters sharing a storage |
| ReplicationToml.Builder.Put | internal/controller/backup_storage.go:154-162 | one formatted line appends one field, whatever its value, to the section the text spells |
| ReplicationToml.RenderReplicationToml | internal/controller/backup_storage.go:131-209 | one section per storage type with each value under its field, or the error for a missing block or unknown type |
| ReplicationToml.FileReadsBack | internal/controller/backup_storage.go:131-209 | for all credentials, buckets and directories every field of the rendered file is recovered, strictly if and only if all are clean |
| ReplicationTomlText.S3Literally | internal/controller/backup_storage.go:137-165 | the section [sink.s3] has nine fields, each once: both credentials under their own Secret keys, the region or us-east-2, bucket, endpoint, path style, and the cluster's data directory below the block's own |
| ReplicationTomlText.GcsLiterally | internal/controller/backup_storage.go:166-179 | bucket and directory of the block, and the key file exactly when a key was supplied |
| ReplicationTomlText.AzureLiterally | internal/controller/backup_storage.go:180-189 | account, container and directory of the block and the account key of the Secret |
| ReplicationTomlText.B2Literally | internal/controller/backup_storage.go:190-200 | region, bucket and directory of the block, account and application key of the Secret |
| ReplicationTomlText.LocalLiterally | internal/controller/backup_storage.go:201-207 | the cluster's data directory below the mount path, /backup by default |
| ReplicationTomlText.NoFileExactly | internal/controller/backup_storage.go:131-209 | there is no file exactly for a storage without its own block or of an unknown type |

## Left out

- Volume scale-down, Pod, Service, Ingress and StatefulSet builders, label and annotation
  merges, probes and start commands: field filling without a protocol.
- S3Policy, S3OIDCProvider, AdminScript, SeaweedBackup and SeaweedRestore reconcilers: the
  first repeats the identity election, the others branch little.
- Conditions, events, logging, requeue intervals, observed generations, the Terminating
  phase, ResourceReferenceGrant lookup (except where it decides a credentials pass) and
  the choice of the filer address.
- Two agents acting inside one pass: each read sees the latest write, except in the race
  for a bucket's creation. Edits, users and other resources change between passes only.
- Changes of clusterRef, seaweedRef or an effective name after provisioning, and bucket
  names containing characters the API rejects.
- The insides of the weed shell, the IAM service, cron parsing, XML canonicalisation and
  the FNV hash: each call has its documented effect, `next` is any function that answers
  the earliest instant after a time, a lifecycle document is compared as canonical text,
  and the hash is any number of 32 bits.
- resolveIdentityIAMName and resolvePolicyIAMName: what a reference resolves to is an
  input of the credentials and binding passes.
- The quota call of the filer may fail between setting the size and the enforcement flag;
  it is modelled as two calls.
- Calendar arithmetic: timestamps are compared by their fields, not derived from
  nanoseconds. Object creation times equal the fire time in whole seconds.
- Which characters above ASCII the Unicode tables call printable: an arbitrary set, minus
  spaces, controls, format characters and private use. Text is a sequence of Unicode
  scalar values; invalid UTF-8 is not part of this model.
- Scheduler.BackupScheduler.SortNewestFirst: the library sort is modelled by a selection
  sort; only its contract, which leaves the order of equal times open, is used.
- Scheduler.BackupScheduler.AnchorFor: the mutex is left out, since one tick runs at a time.
- Scheduler.BackupScheduler.ReconcileSchedule: one schedule at a time; suspended schedules
  and invalid cron expressions are skipped before it and change nothing.
- Identity.Api.Reconcile: creation times of rivals are arbitrary in the model; that the
  API server hands them out in order is a hypothesis of the lemmas that need it.
- Lifecycle.SettledOnceQuiet: two Bucket resources that name one filer bucket are excluded,
  because the election runs per Bucket resource.
- Credentials.Account.Reconcile: an access key registered on two users is not modelled;
  the IAM service rejects it.
