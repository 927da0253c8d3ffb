# Verified model of the community API's stateful services

This project models, in Dafny 4.11, the services of the community API that keep state in tables or in other
systems, and four client-side protocols that talk to the chain. It proves what each operation keeps, what holds
over every interleaving of their steps, and where the code does less than it seems to. `dafny verify dfyconfig.toml`
checks everything.

Sequential code that changes things step by step is modelled as classes and methods over the same tables; each
method is proved against a specification, and lemmas prove what the system relies on about those specifications.
Concurrency is a state machine over the steps between which other callers get in: one SQL statement or transaction,
one remote call, one `await`. Foreign keys, cascades and partial unique indexes are part of the tables; a statement
that would break one aborts. Whatever comes from outside (other clients, the network, clocks, generated ids) is an
arbitrary parameter or an arbitrary event.

## What is modelled

- **Node forest and staking** (`NodeWalks`, `NodeReach`, `Staking`, `NodeTable`, `NodeForest`). The recursive queries are
  modelled round by round, with their path guard, over arbitrary parent maps, cycles included. The nodes table is
  edited by a class, and by a machine of statements with the table lock a reparent takes.
- **Attendance** (`Attendance`, `AttendanceHistory`, `AttendanceRuns`). Incremental reconciliation with
  checkpoints and per-event rows, the coverage report, and reconciliations interleaved with people joining.
- **Luma activities** (`Luma`, `LumaService`, `LumaRuns`). The five writers of an activity's status, availability
  and hidden flag, and the two public reads. Runs split a disconnect into its read and its write.
- **Community setup** (`AuthStore`, `CommunitySpec`, `CommunitySaga`, `CommunitySetup`, `CommunityApplication`,
  `CommunityRuns`, `CommunityOwners`). The setup as a sequence of
  remote calls, each of which may fail before or after it took effect; the specification is what a completed run
  makes of an organization. `quiet` sessions are those with no other client; every session may crash anywhere, and
  `faults` counts its failed calls.
  `CommunityApplication` adds the router's record of completed steps and its release, `CommunityRuns` the
  interleavings of any applications, resubmissions included, and `CommunityOwners` who owns an organization while
  setups interleave.
- **Node proposals** (`NodeProposals`, `NodeProposalRuns`). Apply and release with their four tables, one at a time
  and interleaved.
- **Signing controller, builders cache, proposal paging, NEAR amounts** (`SigningController`, `BuildersCache`,
  `ProposalPaging`, `NearAmount`).
- **Member directory and team requests** (`MemberDirectory`, `TeamRequests`, `TeamRequestRuns`).
- `Wrappers` holds options and results, `Sorting` the stable sort of the client language.

## What was found

Each of these is a lemma with a concrete case, beside a lemma or contract that says exactly when the code does meet
the property.

- The suggested unstake amount is accepted exactly for maxima from 1 to 2^128 - 1 + 10^24 yocto
  (`NearAmount.SuggestedFill`).
- A code whose checkpoint is current is skipped even if its event has become known since, or has been edited. In every
  run, reading it again would change something exactly if its event is known by now and one of its rows is
  unclassified, or the last recording of one of its rows had read another event or name; and a row is unclassified
  exactly if no recording that wrote it knew the event (`AttendanceRuns.ClassificationLags`,
  `AttendanceRuns.EditIsMissed`, `AttendanceRuns.SkipAgainstReread`, `AttendanceRuns.UnclassifiedMeans`).
- Disconnecting a calendar reads the activities without locking them. In every run, an import's hidden flag differs
  from the last decision about it exactly if that decision is a moderation that fell between a disconnect's read of it,
  shown, and that disconnect's write (`LumaRuns.ModerationLost`, `LumaRuns.FlagIsLastDecision`).
- Two tasks can end submitted between the same two resets if the first of these resets came while a task was running,
  and only then (`SigningController.TwoTasksAfterReset`, `SigningController.OneTaskBetweenResets`).
- An application without a named applicant that adopts an organization owned only by its reviewer leaves it without
  an owner (`CommunitySetup.LostOwner`; the guard is `WouldOrphan` in
  `CommunitySetup.ProvisionCommunityOrganization`).
- A setup replaces another application's stamp exactly if that stamp was put on the organization after the setup
  fetched it (`CommunityRuns.StampReplaced`, `CommunityRuns.ReplacedOnlyIfOvertaken`). A release still never deletes an
  organization its own application did not create (`CommunityRuns.DeletesOnlyItsOwn`).
- A release knows only the organization that a returned run has recorded. After the runs of a setup for a free slug
  and a release, the organizations are as before exactly if none had been created, or the one created had been recorded
  and nobody but the applicant and the admin who created it is in it, as is always so if one admin did all the runs. A
  run that creates it and fails leaves it behind; so does a second admin who completes the setup, unless that is the
  applicant or the requester (`CommunityApplication.SetUpAndRelease`, `CommunityRuns.CreatedButUnrecorded`,
  `CommunitySpec.SecondAdminStays`).
- Setups that name their applicant keep an owner in every organization at every moment, unless two of them for different
  applicants work on one organization and one is reviewed by the other's applicant; then nobody may own it in the end
  (`CommunityOwners.OwnedInEveryRun`, `CommunityOwners.OwnershipLost`).
- A proposal gets a second node exactly if an apply inserts with its account, its slug and its host name unclaimed while
  another node carries the proposal, or somebody adds a node with its id. Applies for one account at a time never do;
  two under way for different accounts can (`NodeProposalRuns.OneNodeExactly`, `NodeProposalRuns.OneNodePerProposal`,
  `NodeProposalRuns.TwoNodes`).
- A release of a node proposal checks for children and deletes in two statements; a child added in between becomes a
  root (`NodeProposalRuns.OrphanedChild`, `NodeProposalRuns.ReleaseTakesOnlyItsNode`,
  `NodeProposalRuns.OtherwiseItTakesMore`).
- A requester whom a decision has added to the team is without an approved request exactly if something else won the
  request, or nothing has, and nothing has only while none of the decisions that added the requester has settled
  (`TeamRequestRuns.AddedButNotApproved`, `TeamRequestRuns.OnTheTeamUndecided`, `TeamRequestRuns.OnTheTeamUnapproved`).

## Model

| member | source | states |
|---|---|---|
| NodeWalks.WalkCount | api/src/services/validators.ts:89-119 | on any parent map, cycles included, the rounds of the guarded query end, and each path appears exactly as often as its prefix in the first round if every extension was a legal join step, else not at all |
| NodeWalks.WalkManyPaths | api/src/services/validators.ts:121-156 | a walk from many roots yields exactly the repetition-free parent paths from those roots, each once |
| NodeReach.DescendantsOnce | api/src/services/validators.ts:89-103 | the descendant query lists each node that reaches the root through parents, once, and no other |
| NodeReach.AncestorsOnce | api/src/services/validators.ts:105-119 | the ancestor query lists each node reached through parents, once, and no other |
| NodeReach.WalksAreDual | api/src/services/validators.ts:89-119 | m is among n's descendants exactly if n is among m's ancestors |
| NodeReach.AncestorsByDistance | api/src/services/validators.ts:105-119 | ancestors come strictly nearer first |
| NodeReach.DescendantsByDistance | api/src/services/nodes.ts:454-472 | the subtree query, ordered by depth, comes in order of distance from its root |
| Staking.RankIsCompare | api/src/services/validators.ts:376-381 | the comparator of own validators (defaults first, then position) orders as an integer rank, so sorting by it is well defined |
| Staking.ResolvesToSubtree | api/src/services/validators.ts:370-385 | if the subtree has validators, the resolver returns exactly those, each as often as stored, every default one before every other, and each kind in order of the subtree; the source is the node itself if it has one, else the first one's node |
| Staking.ResolvesToAncestors | api/src/services/validators.ts:387-407 | otherwise it returns exactly the ancestors' validators, nearest first; the source is the nearest ancestor that has one, or the node itself if none has |
| Staking.StakeableMeans | api/src/services/validators.ts:121-156 | the batch contains a listed id exactly if a validator sits at a descendant or an ancestor of it |
| Staking.BatchAgreesWithResolver | api/src/services/validators.ts:121-156 | the batched query contains a listed id exactly if resolving that id alone gives validators |
| Staking.OnlyListedAreStakeable | api/src/services/validators.ts:422-427 | the batch answers only for ids that were asked for and exist |
| NodeForest.ReparentAcyclic | api/src/services/nodes.ts:341-370 | moving a node under one that does not descend from it closes no cycle |
| NodeForest.UpdateKeepsForest | api/src/services/nodes.ts:300-382 | an update whose new parent is unchanged, absent or not a descendant keeps references, slugs and acyclicity |
| NodeForest.DeleteGoesThrough | api/src/services/nodes.ts:408-421 | deleting a node goes through exactly if no child it leaves behind shares its slug with a root |
| NodeForest.NodesTable.Spawn | api/src/services/nodes.ts:159-221 | the new table on success, each refusal exactly when it occurs (a constraint: exactly if the slug is taken in the family), and the forest kept |
| NodeForest.NodesTable.Update | api/src/services/nodes.ts:300-382 | on success what the caller mentions is set, a parent of none included, and everything else stays; each refusal exactly when it occurs (below a descendant: exactly if the target reaches the node; a constraint: exactly if another node of the new family has the slug); the forest kept |
| NodeForest.ValidSlugMeans | api/src/services/nodes.ts:138-144 | a slug is valid exactly if it is made of runs of lower-case letters and digits with single hyphens or underscores between |
| NodeForest.NodesTable.CheckTarget | api/src/services/nodes.ts:323-363 | the target check refuses exactly the node itself, a missing target, and one that descends from the node |
| NodeForest.NodesTable.Delete | api/src/services/nodes.ts:408-421 | the table without the node and with its children as roots; aborted exactly if the node exists and one of its children shares its slug with another root |
| NodeForest.CheckDecides | api/src/services/nodes.ts:341-363 | the query behind the check decides reachability |
| NodeForest.NextKeepsInv | api/src/services/nodes.ts:300-382 | each statement of any caller keeps the forest, and what a caller past its check has established while it holds the lock |
| NodeForest.ForestInEveryRun | api/src/services/nodes.ts:159-221 | in every interleaving of spawns, reparents (lock, check, write, or a rollback at any point), edits, deletes and tenant cascades the graph stays acyclic and every reference exists |
| NodeForest.FromIdle | api/src/services/nodes.ts:300-421 | the same from any forest with no caller under way |
| NodeForest.MoveAlone | api/src/services/nodes.ts:321-370 | with nothing in between, the three statements of a move do what the update does and give the lock back |
| NodeForest.WritersWait | api/src/services/nodes.ts:321-333 | while another caller holds the lock, no statement of others changes the table |
| NodeForest.CycleWithoutLock | api/src/services/nodes.ts:321-370 | without the lock, two moves that both pass their check close a cycle |
| Attendance.UpsertKeeps | api/src/services/attendance.ts:132-162 | recording a code never loses a check-in, and classified never turns back |
| Attendance.UpsertRows | api/src/services/attendance.ts:135-161 | after an upsert each person who joined has the row one merge with their stored row gives, and no other row is touched |
| Attendance.AttendanceService.RecordCode | api/src/services/attendance.ts:105-177 | the tables after a code is skipped, read, or fails: check-ins and checkpoint together or not at all |
| Attendance.AttendanceService.RecordCodes | api/src/services/attendance.ts:231-253 | a list of codes counts as ok only if each was skipped or recorded, with all the joins read, and as failed only if some status could not be read; no row is lost and every new checkpoint stands on recorded joins |
| Attendance.AttendanceService.ReconcileEvent | api/src/services/attendance.ts:225-247 | one event's outcome: truncated at the page limit, failed only if its codes could not be listed or the status of one of the listed codes could not be read |
| Attendance.AttendanceService.StoreResults | api/src/services/attendance.ts:259-304 | the per-event rows after the two upserts, untouched for events without a result |
| Attendance.AttendanceService.Reconcile | api/src/services/attendance.ts:180-310 | the report right afterwards is complete exactly if nothing failed or was truncated, skipped events included; a listed code with a new used count was read with its event or the sweep, or that failed; an event is left alone exactly if its row is clean, it started over 14 days ago and none of its listed codes has a new count; each stored row is as it was or says what a status said, classified exactly if it was or its event is known; whatever failed or was truncated is due next time; nothing recorded is lost |
| Attendance.DueMeans | api/src/services/attendance.ts:213-222 | an event is due exactly if it has no row, a failed or truncated one, no listing to compare with, a listed code whose used count differs from the checkpoint, no start, or a start in the last 14 days |
| Attendance.ReportMeansCoverage | api/src/services/attendance.ts:385-413 | a summary that reports every event's row is empty exactly if the coverage is complete |
| AttendanceHistory.AttendedEvents | api/src/services/attendance.ts:354-379 | one entry per organization and event, at its earliest check-in; every other row is listed, once, as unclassified |
| AttendanceHistory.CoverageReasons | api/src/services/attendance.ts:386-399 | the loop collects exactly the reasons that hold of some event or of the sweep |
| AttendanceHistory.CommunityStatus | api/src/services/attendance.ts:385-413 | a community is synced exactly if there is no reason against it |
| AttendanceRuns.InvInEveryRun | api/src/services/attendance.ts:105-177 | in every run of interleaved reconciliations, joins and edits of codes, checkpoints never run ahead of what is recorded, check-ins are never lost, and each row names what its last recording had read |
| AttendanceRuns.CheckpointMeansRecorded | api/src/services/attendance.ts:213-253 | a checkpoint equal to the current used count means that everyone who joined is recorded |
| AttendanceRuns.SkipAgainstReread | api/src/services/attendance.ts:115-159 | reading a skipped code again adds no check-in, and changes a table exactly if the code's event is known by now and some row of the code is unclassified, or the last recording of some row had read another event or name than the code has now |
| AttendanceRuns.EditIsMissed | api/src/services/attendance.ts:125-159 | after an edit of a recorded code's event or name, which raises no used count, reading the code again would change a table |
| AttendanceRuns.UnclassifiedMeans | api/src/services/attendance.ts:131-159 | a stored row is unclassified exactly if no recording that wrote it had the event among the known ones |
| AttendanceRuns.ClassificationLags | api/src/services/attendance.ts:225-253 | a run after which a skipped code's row stays unclassified though reading it again would classify it |
| AttendanceRuns.RecordAlone | api/src/services/attendance.ts:105-177 | with nothing in between, the steps of one recording do to the tables what the method does |
| Luma.ImportEventIs | api/src/services/discovery.ts:453-510 | importing an unseen event writes its row or counts a skip, and its insert never runs into an index |
| Luma.ImportEventKeeps | api/src/services/discovery.ts:453-510 | it keeps one row per node and event, one link per node, and all manual rows |
| Luma.EveryEventCounted | api/src/services/discovery.ts:453-510 | imported + updated + skipped is the number of distinct events of the snapshot |
| Luma.SyncKeeps | api/src/services/discovery.ts:442-526 | a whole sync keeps the table's invariant, touches no manual row and no other node's row, withdraws exactly what is no longer listed and changes no hidden flag |
| Luma.SyncWrites | api/src/services/discovery.ts:453-526 | after a sync each row is as it was, or says field by field what a listed event says (keeping the nodes of an earlier import), or is the same row withdrawn because its event is not listed |
| Luma.SaveKeeps | api/src/services/discovery.ts:332-424 | saving keeps the invariant: the activity has its link already, or nobody has it |
| Luma.SavedIsStored | api/src/services/discovery.ts:381-405 | a saved activity is stored as given under its canonical link, an import keeps its event and availability and is hidden unless published, and no other row changes |
| Luma.VisibilityKeeps | api/src/services/discovery.ts:984-1027 | showing or hiding keeps the invariant |
| Luma.DisconnectKeeps | api/src/services/discovery.ts:635-669 | disconnecting keeps the invariant |
| Luma.UnpublishKeeps | api/src/services/discovery.ts:906-958 | moderation keeps the invariant |
| LumaService.Discovery.SyncLuma | api/src/services/discovery.ts:426-532 | a sync runs exactly if an organizer asks or the node is connected to the calendar and its next attempt has come; its table, its counts and the connection afterwards; when it does not run, nothing changes |
| LumaService.Discovery.ImportAll | api/src/services/discovery.ts:453-510 | the loop over the snapshot, with its seen set and counters, computes the specified table and counts |
| LumaService.Discovery.WithdrawEach | api/src/services/discovery.ts:511-526 | the loop over the rows read writes back exactly the chosen ones and counts them |
| LumaService.Discovery.SaveActivity | api/src/services/discovery.ts:332-424 | the activity stored as given, field by field, or the exact refusal with nothing changed |
| LumaService.Discovery.SetLumaVisibility | api/src/services/discovery.ts:984-1027 | the row shown or hidden, or the exact refusal |
| LumaService.Discovery.DisconnectLuma | api/src/services/discovery.ts:635-669 | no connection, and the node's imports withdrawn |
| LumaService.Discovery.Unpublish | api/src/services/discovery.ts:932-951 | the row after moderation |
| LumaRuns.PublishedIsVisible | api/src/services/discovery.ts:442-526 | in every state reachable from an empty table, a published import is available and not hidden, and was decided to be shown or is a lost moderation |
| LumaRuns.FlagIsLastDecision | api/src/services/discovery.ts:639-659 | in every run, an import's hidden flag differs from the last decision about it exactly if that decision is a moderation that fell between a disconnect's read of it shown and that disconnect's write |
| LumaRuns.OnlyDecisionsHide | api/src/services/discovery.ts:447-526 | syncs, withdrawals, disconnects and decisions about other activities never change the flag, except the write of a disconnect to which a moderation is lost |
| LumaRuns.RelistedAsDecided | api/src/services/discovery.ts:459-483 | an event listed again is published exactly if the last decision was to show it or was lost, unless its row is left as it was |
| LumaRuns.ReadsAgree | api/src/services/discovery.ts:155-205 | the directory query, which ignores availability, lists an activity exactly if the single read returns it as published |
| LumaRuns.SavedIsShown | api/src/services/discovery.ts:155-205 | a saved activity is listed by the public reads exactly if it was saved as published, from its time on, for an eligible owner |
| LumaRuns.PublicReadShows | api/src/services/discovery.ts:155-205 | the single read never shows a draft, a hidden or unlisted import, an early activity or one of an ineligible owner, and shows every other one at its eligible nodes |
| LumaRuns.ModerationLost | api/src/services/discovery.ts:639-659 | a run from the empty table in which a moderation between a disconnect's read and write is undone and the event is published again |
| LumaRuns.DisconnectAlone | api/src/services/discovery.ts:635-669 | with nothing in between, the two steps of a disconnect withdraw the node's imports, field by field, and leave every other activity |
| LumaRuns.OthersWait | api/src/services/discovery.ts:639-645 | while a node is being disconnected, other operations on it change nothing |
| LumaRuns.OperationAlone | api/src/services/discovery.ts:332-1027 | an operation with no disconnect under way does to the table what the service does |
| AuthStore.AllowedKeepsStamps | api/src/lib/community-organizations.ts:127-166 | any write a setup makes, in any state, keeps this true: an organization with a non-legacy stamp and no linked flag was created by that application |
| AuthStore.ApplyTouches | api/src/lib/community-organizations.ts:39-188 | what each kind of call changes, field by field: a creation overwrites nothing, a deletion takes away its own organization, and every other organization stays |
| CommunityRuns.DeletesOnlyItsOwn | api/src/index.ts:1706-1756 | in every interleaving of setups, crashes, rejections, resubmissions that come to name an organization, and releases, a release deletes only an organization its own application created |
| CommunitySpec.BoundSettles | api/src/lib/community-organizations.ts:127-188 | a completed adoption or legacy binding leaves the applicant owner, the reviewer seated (not an owner when adopted), each default team there once or as often as before, and nobody else's role changed |
| CommunitySpec.ResumedSettles | api/src/lib/community-organizations.ts:228-279 | the same for a completed setup of a created or already stamped organization |
| CommunitySpec.SettledStays | api/src/lib/community-organizations.ts:190-286 | nothing is left to do in a settled organization |
| CommunitySpec.MissingOnce | api/src/lib/community-organizations.ts:97-103 | the loop's list of missing teams holds each wanted team that is not stored once, and no other |
| CommunitySpec.OwnIsReleased | api/src/lib/community-organizations.ts:288-322 | a release takes away an organization in which there is nobody but the applicant and the reviewer |
| CommunitySpec.ReleasedMeans | api/src/lib/community-organizations.ts:288-322 | a release goes through exactly if the organization carries the application's stamp, is not marked as linked, has only the requester, the applicant and the reviewer as members, only invitations to the applicant's account, and no codes |
| CommunitySpec.SecondAdminStays | api/src/lib/community-organizations.ts:228-322 | once a second admin has completed the setup of such an organization, a release keeps it as in use, unless that admin is the reviewer, the applicant or the requester |
| CommunitySaga.AuthSession.GrantOwnership | api/src/lib/community-organizations.ts:105-123 | at most one write, which makes the user an owner; none if the user is one |
| CommunitySaga.AuthSession.SeatReviewer | api/src/lib/community-organizations.ts:170-186 | at most one write, which adds the reviewer as admin or takes the ownership away |
| CommunitySaga.AuthSession.InviteApplicant | api/src/lib/community-organizations.ts:78-95 | at most one write, an invitation unless an open one exists |
| CommunitySaga.AuthSession.ProvisionTeams | api/src/lib/community-organizations.ts:97-103 | wherever it stops, some of the missing teams are added and nothing else changed; completed, all are there; none is written if none was missing |
| CommunitySaga.AuthSession.Bind | api/src/lib/community-organizations.ts:127-188 | refused exactly if the organization carries another application's stamp, was requested by somebody else while the named applicant is no owner, or was rejected, and then nothing is called; wherever it stops only that organization changed and it has an owner, given one not demoted; completed, it is the specified organization |
| CommunitySaga.AuthSession.Resume | api/src/lib/community-organizations.ts:228-279 | the same for an organization that carries the application's stamp |
| CommunitySaga.AuthSession.CreateCall | api/src/lib/community-organizations.ts:39-61 | what the plugin's create call may answer, and the new organization: stamped, owned by its creator |
| CommunitySetup.CreateCommunityOrganization | api/src/lib/community-organizations.ts:39-61 | the organization created or, after a conflict, the one a racing run of the same application created |
| CommunitySetup.UseExisting | api/src/lib/community-organizations.ts:213-227 | an organization found by its slug is refused, with nothing written, exactly if it was rejected or, unless it carries the application's stamp, carries another one or was requested by somebody else while the named applicant is no owner |
| CommunitySetup.ProvisionCommunityOrganization | api/src/lib/community-organizations.ts:190-286 | for every session, every write is one the application may make and a conflict writes nothing; in a quiet one, it fails only if a call failed and refuses only if the application is blocked, every organization keeps an owner at each write unless the run would orphan one, other organizations are untouched, a completed run settles, and a settled application writes nothing |
| CommunitySetup.Retry | api/src/index.ts:1672-1690 | runs repeated after crashes, each by any reviewer, are never refused once the first was not, keep an owner everywhere if the applicant is named, and the one that completes settles, with each default team there once or as often as before the first; it gives up only if a call failed in every run |
| CommunitySetup.RunAll | api/src/lib/community-organizations.ts:228-279 | over any sequence of crashed or completed setups of applications that name their applicant, every organization has an owner after every single write; each run completes or is refused unless a call failed |
| CommunityApplication.ReleaseCommunityOrganization | api/src/lib/community-organizations.ts:288-322 | deletes at most the given organization, having seen it stamped and not linked at its first call; in a quiet session its verdict is exactly the specified one |
| CommunityApplication.ApplyCommunityProposal | api/src/index.ts:1640-1704 | a run of the setup whose organization is recorded only after the run returned, and only if none is recorded yet; a new record is the settled organization |
| CommunityApplication.ReleaseCommunityProposal | api/src/index.ts:1706-1756 | refused exactly if the setup has not failed or the application changed since it was loaded; otherwise the node is released first, and of the organization a legacy application keeps its own, without a record nothing is found, and the recorded one is judged; nothing else is ever deleted |
| CommunityApplication.SetUpAndRelease | api/src/index.ts:1672-1756 | after runs of a setup for a free slug, by any admins and stopping anywhere, and a release, the organizations are as before exactly if none had been created or the one created had been recorded and is not in use; with one admin it never is; nothing is recorded only if a call failed in every run |
| CommunitySetup.LostOwner | api/src/lib/community-organizations.ts:169-186 | an adoption without a named applicant that leaves no owner |
| CommunityOwners.OwnedInEveryRun | api/src/lib/community-organizations.ts:105-188 | in every interleaving of setups that name their applicant, stopping anywhere, every organization has an owner at every moment, as long as no setup is reviewed by the applicant of another one under way on its organization |
| CommunityOwners.OneApplicationOwned | api/src/lib/community-organizations.ts:228-279 | so setups of one application never leave an organization without an owner, whoever reviews them |
| CommunityOwners.OwnershipLost | api/src/lib/community-organizations.ts:166-186 | a run of two setups, each reviewed by the other's applicant, that leaves no owner |
| CommunityOwners.BindGivesNothingAway | api/src/lib/community-organizations.ts:145-150 | in every run a bind makes a user an owner only where nobody or that user requested the organization, or where the user had owned it before |
| CommunityOwners.SetupAlone | api/src/lib/community-organizations.ts:105-188 | the calls of an undisturbed setup are a run of the interleaved machine and leave exactly the members of the specified adopted or resumed organization |
| CommunityRuns.LedgerInEveryRun | api/src/lib/community-organizations.ts:127-166 | in every run an organization carries the stamp put last, and a setup that nobody overtook still finds the stamp it fetched |
| CommunityRuns.ReplacedOnlyIfOvertaken | api/src/lib/community-organizations.ts:138-166 | in every run, a setup's metadata write replaces another application's stamp exactly if that stamp was put on the organization after the setup's fetch |
| CommunityRuns.StampReplaced | api/src/lib/community-organizations.ts:138-166 | a run of two adoptions, the second write replacing the first's stamp |
| CommunityRuns.OnlyRecordedIsDeleted | api/src/index.ts:1734-1746 | a release deletes only an organization that a run of its application had recorded |
| CommunityRuns.OnlyReleasesDelete | api/src/lib/community-organizations.ts:288-322 | an organization goes away exactly in the last step of a release that had passed its checks for it |
| CommunityRuns.RecordIsKept | plugins/proposals/src/services/proposals.ts:902-926 | the record of an application keeps its first organization until a rejection or a resubmission clears it |
| CommunityRuns.LegacyIsKept | plugins/proposals/src/services/proposals.ts:327-352 | in every run from the moment an application names an organization, no release of it that starts later deletes anything |
| CommunityRuns.CreatedRecordedReleased | api/src/index.ts:1672-1756 | an application resubmitted without an organization, set up by creating one, recorded and released, leaves the organizations as they were |
| CommunityRuns.CreatedButUnrecorded | api/src/index.ts:1672-1690 | a setup that creates its organization and fails, and a release after it: the organization stays |
| NodeProposals.InsertsFit | api/src/services/tenants.ts:720-842 | the checks of an apply make its four inserts break no key and no index |
| NodeProposals.InsertedRows | api/src/services/tenants.ts:783-842 | the rows an apply adds, field by field: the node, its open DAO tenant, one primary binding, and one default validator exactly if a pool is given; every other row stays |
| NodeProposals.ChecksMean | api/src/services/tenants.ts:720-781 | an application is refused for a taken account, slug or host name, then for a missing parent, then for a kind that does not fit its parent's, and for nothing else |
| NodeProposalRuns.InsertCommits | api/src/services/tenants.ts:783-842 | the four inserts go through exactly if the account, the slug among the siblings and the host name are unclaimed and the parent exists |
| NodeProposals.CascadeAlone | api/src/services/tenants.ts:690-706 | deleting a node's tenant takes exactly that node out of the forest if and only if it is the tenant's only node and no other node's parent |
| NodeProposals.TenantsService.ApplyNodeProposal | api/src/services/tenants.ts:711-858 | resumes onto a node that carries the proposal, else onto one of the open tenant of its DAO and organization; else refuses exactly for a taken account, slug or host name, a missing parent or a misplaced kind; else adds exactly the node, tenant, primary binding and default validator asked for |
| NodeProposals.TenantsService.ReleaseNodeProposal | api/src/services/tenants.ts:677-709 | deletes the tenant of a node that carries the proposal and nothing else of the forest; not found and in use exactly when they apply |
| NodeProposals.ReleaseUndoesApply | api/src/services/tenants.ts:677-858 | after an apply, its node is the proposal's only one and free to go, and deleting its tenant restores all four tables |
| NodeProposals.ApplyThenRelease | api/src/services/tenants.ts:677-858 | the two transactions one after the other leave tenants, nodes, validators and bindings exactly as they were |
| NodeProposalRuns.OneNodeExactly | api/src/services/tenants.ts:161-200 | in every run of racing applies, releases and other writes, no proposal ever has two nodes exactly if no apply inserts, with all it needs unclaimed, while another node carries its proposal, and nobody else adds a node with an id that is carried |
| NodeProposalRuns.OneOfEach | api/src/services/tenants.ts:677-858 | in every run there is one tenant per account, one binding per host name, one primary binding per tenant and one default validator per node, and whatever is referred to exists |
| NodeProposalRuns.OneNodePerProposal | api/src/services/tenants.ts:161-200 | in every run in which an apply comes in only for the account of the other applies of its proposal under way, and only applies write proposal ids, at most one node carries a proposal; a released proposal can be applied again for another account |
| NodeProposalRuns.TwoNodes | api/src/services/tenants.ts:714-850 | a run of two applies of one proposal for different accounts that ends with two nodes |
| NodeProposalRuns.AppliesAgree | api/src/services/tenants.ts:714-850 | in such a run, while a node carries a proposal, applying finds that node and no other, and an apply that read earlier cannot insert a second |
| NodeProposalRuns.ReleaseTakesOnlyItsNode | api/src/services/tenants.ts:677-709 | in every run, a release whose checks passed takes away only its node, as long as nobody attached one in between |
| NodeProposalRuns.OtherwiseItTakesMore | api/src/services/tenants.ts:690-706 | and only then |
| NodeProposalRuns.OrphanedChild | api/src/services/tenants.ts:690-706 | a child added between the checks and the delete ends up as a root |
| NodeProposalRuns.ApplyAlone | api/src/services/tenants.ts:711-858 | with nothing in between, the two steps of an apply do what the transaction does |
| NodeProposalRuns.ReleaseAlone | api/src/services/tenants.ts:677-709 | and those of a release take the node and its tenant away exactly if no node is below it and no other has its tenant |
| SigningController.MemberSigningController.Submit | ui/src/lib/member-wallet.ts:228-261 | joins the request in flight, repeats a result, refuses after an unknown outcome, or starts the next request |
| SigningController.MemberSigningController.WalletSettles | ui/src/lib/member-wallet.ts:239-257 | how a request goes on after connecting, or ends because a reset came |
| SigningController.MemberSigningController.TaskSettles | ui/src/lib/member-wallet.ts:242-257 | how a request ends, shown only if no reset came |
| SigningController.MemberSigningController.Reset | ui/src/lib/member-wallet.ts:262-265 | a new epoch and the idle state |
| SigningController.SingleFlight | ui/src/lib/member-wallet.ts:228-261 | never two requests under way, so never two tasks, across resets too |
| SigningController.OneDecisionPerEpoch | ui/src/lib/member-wallet.ts:228-261 | of the requests submitted between two resets at most one ends submitted or unconfirmed |
| SigningController.DecisionLocksOut | ui/src/lib/member-wallet.ts:229-232 | after such an end, and until a reset, submitting starts nothing |
| SigningController.StaleIsSilent | ui/src/lib/member-wallet.ts:236-260 | a request from before a reset changes nothing shown and starts no task |
| SigningController.SubmitAnswers | ui/src/lib/member-wallet.ts:228-238 | in every run submit joins the request under way, and with none it repeats a shown result, refuses after an unknown outcome, and otherwise starts a request |
| SigningController.AnswersAfterTask | ui/src/lib/member-wallet.ts:242-261 | after a task, submit repeats its result, refuses if its outcome is unknown, and starts again after any other failure or if a reset came |
| SigningController.AnswersAfterWallet | ui/src/lib/member-wallet.ts:236-257 | after connecting, the task runs unless a reset came, and a failure to connect allows a new request |
| SigningController.EndsAreLogged | ui/src/lib/member-wallet.ts:242-257 | every request that ends is in the log the results above count, once and with what was shown |
| SigningController.TaskNeedsItsEpoch | ui/src/lib/member-wallet.ts:239-242 | a task starts only for the request in flight, with no reset since it was submitted |
| SigningController.OneTaskBetweenResets | ui/src/lib/member-wallet.ts:228-265 | if no task runs at the reset that opens it, at most one task ends submitted or unconfirmed before the next reset |
| SigningController.TwoTasksAfterReset | ui/src/lib/member-wallet.ts:262-265 | after any run with a task under way, a reset can be followed by two such ends before the next |
| BuildersCache.Nearbuilders.ForPath | api/src/services/nearbuilders.ts:159-173 | a lookup's answer and the maps after it are those of the protocol |
| BuildersCache.Nearbuilders.LoadSucceeds | api/src/services/nearbuilders.ts:174-186 | a load that succeeds stores its value, forgets the failure and evicts what was an hour old when it began |
| BuildersCache.Nearbuilders.LoadFails | api/src/services/nearbuilders.ts:182-186 | a load that fails backs the path off and falls back to what was cached when it began |
| BuildersCache.InvInEveryRun | api/src/services/nearbuilders.ts:157-189 | pending entries and running loads match, and the end of a path's last load still shows |
| BuildersCache.OneLoadPerPath | api/src/services/nearbuilders.ts:171-187 | at most one load of a path is under way |
| BuildersCache.LoadsApart | api/src/services/nearbuilders.ts:167-173 | a path is loaded again only when its last load has been over for the back-off time |
| BuildersCache.NothingTooOld | api/src/services/nearbuilders.ts:159-186 | no value is served that was an hour old when its lookup or load began |
| BuildersCache.EvictionInvisible | api/src/services/nearbuilders.ts:176-178 | over every run the answers are those of a cache that never evicts |
| BuildersCache.LookupAnswers | api/src/services/nearbuilders.ts:159-173 | in every run, by what has happened before: the last value if it is under two minutes old, else within half a minute of a failure what is under an hour old if anything, else the path's one load |
| BuildersCache.WaitersGet | api/src/services/nearbuilders.ts:174-187 | whoever waits for a load gets the value it brings or, if it fails, the last one that was under an hour old when it began |
| BuildersCache.CommunityPath | api/src/services/nearbuilders.ts:40-56 | the path exists exactly for nodes with a root at most nine parents up, and is the slugs from there down; cycles and missing nodes have none |
| ProposalPaging.ReadSince | ui/src/lib/sputnik-proposals.ts:142-173 | everything down to a cut below which all is older, or an error, never a silent prefix; an error exactly if nothing old was found within the id limit, or an id within it could not be read |
| ProposalPaging.ReadOpen | ui/src/lib/sputnik-proposals.ts:176-185 | with ids that have gaps and times monotone in id, exactly the stored proposals in progress or failed that are still inside their period, newest first, or an error |
| ProposalPaging.OpenAreNewer | ui/src/lib/sputnik-proposals.ts:521-529 | what is older than the voting period is not open |
| ProposalPaging.ReadPage | ui/src/lib/sputnik-proposals.ts:96-118 | a page is exactly the proposals from its start down to its end, and an empty one has searched the allowed ranges |
| ProposalPaging.PagesCover | ui/src/lib/sputnik-proposals.ts:96-118 | following nextBefore ends, and the pages are the proposals down to the last page's end, each once, newest first |
| ProposalPaging.AllPages | ui/src/lib/sputnik-proposals.ts:96-118 | followed to the end, they are all proposals below the start |
| NearAmount.ParsePrinted | ui/src/lib/near-amount.ts:4-16 | a printed amount is read back exactly if it lies between 1 and 2^128 - 1, and refused otherwise |
| NearAmount.RoundTrip | ui/src/lib/team-unstake.ts:32-36 | every amount a transaction can carry survives printing and reading |
| NearAmount.AcceptedReprints | ui/src/lib/near-amount.ts:4-16 | every accepted input reprints to its one canonical spelling, which is accepted as the same amount |
| NearAmount.NoSigns | ui/src/lib/near-amount.ts:4-10 | an input with a minus sign anywhere is refused |
| NearAmount.SuggestedFill | ui/src/lib/team-unstake.ts:38-46 | the suggested amount never exceeds the maximum and is accepted exactly for maxima from 1 to 2^128 - 1 + 10^24 |
| NearAmount.ReadsExactly | ui/src/lib/near-amount.ts:4-16 | digits, or digits, a point and at most 24 more, among blanks, are read as the exact decimal number of NEAR, if it lies between 1 and 2^128 - 1 yocto |
| NearAmount.OnlySuchText | ui/src/lib/near-amount.ts:4-16 | and nothing else is accepted |
| NearAmount.UnstakeAccepts | ui/src/lib/team-unstake.ts:42-46 | the dialog accepts what is read from its input exactly if it does not exceed the maximum |
| NearAmount.Truncates | ui/src/lib/team-unstake.ts:32-36 | the division of amounts truncates toward zero |
| MemberDirectory.GetMemberDirectory | api/src/index.ts:992-1034 | a page shows exactly the opted-in members between its cursor and the next, and an empty page has scanned ten pages or the end |
| MemberDirectory.PagesAreTheDirectory | api/src/index.ts:992-1034 | the cursors strictly increase, and the pages together are the opted-in members in order |
| MemberDirectory.ListedOnce | api/src/index.ts:1003-1014 | each opted-in member of the organization is listed exactly once, with its name and account, and nobody else |
| MemberDirectory.ReadDirectory | api/src/index.ts:992-1034 | reading page after page ends, with the whole directory |
| MemberDirectory.FindMembers | api/src/index.ts:613-633 | finds exactly the wanted members that belong to the organization, though it stops once it has as many as wanted |
| TeamRequests.TeamJoinRequestsService.Create | api/src/services/team-join-requests.ts:121-132 | a pending request, or null exactly if the user has one for the team |
| TeamRequests.TeamJoinRequestsService.Settle | api/src/services/team-join-requests.ts:133-142 | decides a pending request, and reports whether it was one |
| TeamRequests.TeamJoinRequestsService.Close | api/src/services/team-join-requests.ts:143-163 | the loop over reasons closes exactly the pending rows listed, each with a reason it was listed with |
| TeamRequests.TeamJoinRequestsService.Endorse | api/src/services/team-join-requests.ts:164-170 | the rows stay unique, a request's count grows by one exactly at a user's first endorsement of it and no other count changes, and each count is the number of people who endorsed; nothing is inserted for a missing request |
| TeamRequests.LookupIsEnough | api/src/index.ts:663-676 | looking up only the requesters decides every request as the whole member list would |
| TeamRequests.LoadTeamCommunity | api/src/index.ts:645-689 | a load closes exactly the community's pending requests whose requester left, whose team is gone or whose team takes no requests, with the first of these reasons, and changes no other request |
| TeamRequestRuns.OneWinner | api/src/index.ts:1204-1279 | in every interleaving at most one request per team and user is pending, one settle or close wins per request, and the request is what that win made it |
| TeamRequestRuns.DecisionsAreFinal | api/src/services/team-join-requests.ts:133-163 | a decided request stays as decided |
| TeamRequestRuns.ApprovedAfterAdd | api/src/index.ts:1254-1274 | an approved request's user was added to the team first |
| TeamRequestRuns.AddedButNotApproved | api/src/index.ts:1254-1277 | in every run, a request whose requester was added is not approved exactly if it has a win other than an approval or no win, and no win means that no decision that added the requester has settled |
| TeamRequestRuns.OnTheTeamUndecided | api/src/index.ts:1254-1274 | a pending request whose user is on the team, because the settle never ran |
| TeamRequestRuns.OnTheTeamUnapproved | api/src/index.ts:1254-1277 | a withdrawn request whose user is on the team |
| TeamRequestRuns.DecisionAlone | api/src/index.ts:1204-1279 | with nothing in between, a decision approves the request and adds its requester to the team, or declines it and adds nobody |

## Left out

- HTTP handlers, schemas and authorization: callers are assumed to have passed them; the calls to Luma, NEAR, the auth
  plugin and the proposals plugin are arbitrary answers or atomic steps.
- Names, display data, metadata merging, slug suggestions, geocoding and time formatting: fields that no modelled
  branch reads are dropped, times are integers, and `canonicalActivityUrl` is an arbitrary function.
- The validator writers (`create`, `update`, `delete`, `setDefault`) and the bulletin: the staking results hold for any
  validator table, so they would only add easy members.
- The session wallet and its error classification: connecting and signing end in any of the failures.
- Listeners of the signing controller that call `submit` while they are being notified.
- The response filtering of the builders client: a load answers an arbitrary value.
- Isolation: transactions are READ COMMITTED, a row lock lasts to the end of its transaction, and statements of the
  sequential classes run alone; interleavings are in the `Runs` modules and in `NodeForest`.
- The four concurrent reads of a reconciliation: the class reads one code after the other; `AttendanceRuns`
  interleaves reads and commits of any number of reconciliations.
- The order of history entries (locale collation), and the empty-account short cut of the proposal readers.
- Expiry of invitations: an invitation counts as open or not, and a store that nobody else changes does not expire any.
- Renaming a tenant's account or moving a node between tenants while proposals are applied: the runs of node proposals
  have neither.
- Edits of an organization's metadata by others than setups, and organizations that others create or delete, in
  `CommunityRuns`; members that others add, remove or change, in `CommunityOwners`.
- Setups without a named applicant in `CommunityOwners`: run alone they are in `CommunitySetup`.
- The approval and retry of an application between its setups: a setup may run, and its record may be written or lost,
  at any moment.
- Activities that go away with their node: `LumaRuns` has no cascade of nodes.
- NodeProposalRuns.OneNodePerProposal: rows that others add with a proposal id are excluded, though a spawned node's
  metadata is arbitrary; `NodeProposalRuns.OneNodeExactly` covers them.
- Attendance.AttendanceService.RecordCode: a failed transaction changes nothing, so a failure is one outcome without
  its cause.
- LumaService.Discovery.SaveActivity: when several activities share a link, which one the lookup returns is up to the
  database, so the method takes it as a parameter.
