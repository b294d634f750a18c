# TermX verification

Dafny models of the state machines and algorithms TermX rests on, and proofs of what
they keep over whole runs. Each imperative component is a class or a loop method proved
equal to a function on values; the theorems are about those functions and about
sequences of events. A `Laws` module says of each operation, in terms of rows or fields
alone, when it answers which way, what it changes and that it changes nothing else.

- **Session authority** (`Directory`, `Administration`, `Sessions`, `SessionRuns`,
  `RefreshFamily`, `AccessTokens`, `Pairing`, `SessionInvariants`, `Disabling`,
  `AdministrationLaws`, `SessionLaws`, `AuthenticationService`, `Entitlements`,
  `Authorization`). The tables are maps, every transaction is one step, and every await
  between two transactions is a point where others may step. The clock never goes back,
  tokens and row ids are drawn from one counter, digests are injective. Expiry follows section
  4.1.4 of RFC 7519.
- **Decision broker** (`PermitProtocol`, `BrokerSafety`, `BrokerLaws`, `DecisionBroker`).
  The permit protocol of consequential actions, cut at its awaits, with restarts.
- **Companion motion** (`Habitat`, `ExposedEdges`, `HabitatLaws`, `Motion`, `MotionSafety`, `MotionLives`,
  `MotionLaws`, `RestOfHop`). Where a desktop pet may stand and how it moves. Numbers are
  reals; a position that was never set is absent; sine and hypotenuse are parameters, the
  first bounded on the hop.
- **Runbooks** (`Runbooks`, `RunbookSafety`, `RunbookFutures`, `RunbookLosses`,
  `RunbookLaws`, `RunbookRunner`). Batches, gates, failures, cancellation, members that
  outlive an aborted batch, restarts, and deletion of the runbook, which takes the row along.
- **Backend supervisor** (`Supervisor`, `SupervisorSafety`, `SupervisorLaws`, `Backend`).
  Sections under the lifecycle mutex are cut where they sleep or call out; flags, process
  ends and monitors move in between.
- **Audit log** (`AuditLog`) and **Mach-O reader** (`MachO`, `MachOFormat`, `MachOFat`,
  `MachOLaws`, `Versions`).

Findings, each with a concrete input and an exact condition:

- The supervisor never clears the ready mark when its child ends, so a mark older than a
  minute resets the restart counter at every later crash
  (`SupervisorSafety.StaleMarkNeverGivesUp`, exactly when: `SupervisorSafety.GivesUpExactly`).
- Deleting a runbook deletes the rows of its runs, but not the task of a run in flight: the
  task goes on starting steps, and neither confirming nor cancelling reaches it any more
  (`RunbookLosses.DeletedRunGoesOn`, exactly when: `RunbookLosses.DetachedExactly`,
  `RunbookLosses.CancelStopsExactly`).
- When a member of a parallel batch cannot be spawned, those still running go on after the
  run has failed, and what they publish changes its row (`RunbookLosses.OrphanRewritesTheRow`).
  Results of interrupted and uninterrupted runs therefore agree exactly unless the batch
  that fails first aborts with other members (`RunbookLosses.InterruptionsAgreeExactly`).
- A pet whose size or monitor changes in the middle of a hop may be drawn off its monitor
  (`MotionLives.GrowingPetLeaves`). The rest of a hop stays on the monitor, however it arches
  and whatever the frames, exactly when what is left of it is contained in the monitor at the
  new size (`RestOfHop.RestOfHopExactly`); a single frame ends there exactly unless it follows
  a hop to a point that does not fit (`MotionLives.FrameEndsInsideExactly`).

`dafny verify dfyconfig.toml` checks everything.

## Model

| member | source | states |
|---|---|---|
| `SessionRuns.NoResurrection` | src/termx/identity.py:485-498 | a session that is revoked or past its deadline in some state is dead after every later run of logins, pairings, refreshes, locks, unlocks, role and account changes, recovery and policy updates (raised limits included), while the clock never goes back |
| `SessionRuns.SessionsOnlyTighten` | src/termx/session_policy.py:56-65 | over any run a session's absolute end and idle limit never rise, its principal, birth and grant never change, revocation is never undone, and its deadline is computed from its own row alone |
| `SessionRuns.TightDeadline` | src/termx/session_policy.py:34-37 | the minimum taken with the current policy is redundant: the deadline is the lesser of the stored end and last-seen plus the stored idle limit |
| `SessionRuns.ReapsExactlyTheDead` | src/termx/session_policy.py:59-65 | a saved policy revokes exactly the sessions already revoked or past their deadline under the cut limits, no others |
| `SessionRuns.LimitsAreMinima` | src/termx/session_policy.py:56-65 | after any run a session's idle limit and lifetime are the least policy values in force along the run, starting from its own |
| `SessionRuns.EnrolledLimits` | src/termx/identity.py:413-416 | for a session enrolled now those historical minima are its stored limits exactly |
| `SessionRuns.RunFollows` | src/termx/identity.py:205-218 | every run of transactions keeps the sane-state invariant (stored limits within policy, every id drawn from the counter) and only moves sessions forward |
| `SessionInvariants.EveryReachableState` | src/termx/identity.py:135-197 | from a new host every reachable database is sane, has one unconsumed refresh token a session, an unretired active key, at most twenty proofs a sponsor, and a well-formed delegation tree |
| `SessionInvariants.RemainingReachesZeroAtTheEnd` | src/termx/session_policy.py:39-42 | the remaining seconds reported reach zero exactly when the absolute end has come, and are otherwise the remainder rounded up |
| `SessionLaws.LiveExactly` | src/termx/identity.py:485-498 | a session lives exactly while its row is unrevoked and before each of its four ends and its principal is enabled (and it is unlocked, unless locks are allowed), and then wields exactly the scopes of the account and of current groups' roles, within its grant |
| `SessionLaws.StepLawful` | src/termx/identity.py:408-527 | every transaction of the authority, on any tables, said of rows alone: when it answers which way, the rows it writes and that it writes no others, and the claims of the token it signs; among them who may refresh, unlock, pair, and redeem a proof, each if and only if |
| `SessionLaws.RefreshLawful` | src/termx/identity.py:500-527 | a refresh is granted if and only if the token is on record and unconsumed and its session is unrevoked, before its ends, unlocked and of an enabled principal; it says the session is locked, and writes nothing, if and only if all that holds but for the lock; a granted one moves the time last seen to the clock |
| `SessionLaws.ConsumeLawful` | src/termx/identity_pairing.py:73-86 | a ticket is redeemable if and only if its proof is unconsumed, before its expiry, for this host, purpose and path, and its sponsor may act, is of the same principal and version, and still wields every scope of the proof |
| `SessionLaws.IssuedResolves` | src/termx/identity.py:441-483 | a token that was just signed for a session that may act, with a second of life in it, resolves at once to that session |
| `RefreshFamily.RunFamily` | src/termx/identity.py:500-527 | in every state a run reaches, each session has exactly one unconsumed refresh token |
| `RefreshFamily.AcceptedAtMostOnce` | src/termx/identity_locks.py:53-70 | of two uses of one refresh token, by refresh or by either way of unlocking, with anything in between, at most one succeeds |
| `RefreshFamily.ReplayEndsTheSession` | src/termx/identity.py:500-512 | replaying a token that was accepted before revokes its session, and no later run brings the session back |
| `AccessTokens.RotationNeverStrands` | src/termx/identity.py:422-451 | however rotations interleave with issuing, an unexpired token's key is present and verifies it, so it resolves if and only if its session is live, admissible and at the same generation |
| `AccessTokens.RunKeepsActive` | src/termx/identity.py:423-434 | the active signing key exists and is unretired in every reachable state |
| `AccessTokens.LockFencesForever` | src/termx/identity_locks.py:34-42 | a token still backed in a state where its session is locked never resolves normally afterwards, unlocked again or not |
| `AccessTokens.UnlockFencesForever` | src/termx/identity_locks.py:53-70 | a token still backed when its session is unlocked never resolves afterwards, with or without permission to be locked |
| `AccessTokens.LockFencesIssued` | src/termx/identity_locks.py:34-42 | a token issued by any step, then any run, a granted lock of its session, and any run again, unlocks included: it does not resolve normally |
| `AccessTokens.UnlockFencesIssued` | src/termx/identity_locks.py:53-70 | a token issued by any step, then any run, an unlock of its session by either way, and any run again: it does not resolve, with or without permission to be locked |
| `AccessTokens.UnlockKeepsTheRest` | src/termx/identity_locks.py:53-70 | an unlock changes only the lock flag, the generation and the time last seen of one session |
| `Pairing.RedeemedAtMostOnce` | src/termx/identity_pairing.py:73-86 | a ticket is redeemed at most once over any run, although consumed rows are swept away and could not be looked up any more |
| `Pairing.LockSpendsProofs` | src/termx/identity_locks.py:34-42 | no proof a session sponsored before it was locked is redeemable later, even after unlocking |
| `Pairing.RunKeepsBound` | src/termx/identity_pairing.py:54-71 | a sponsor never has more than twenty proof rows in any reachable state |
| `Pairing.RunDelegates` | src/termx/identity_pairing.py:88-106 | in every reachable state each paired session has its sponsor's principal and a grant within its sponsor's, and unpaired sessions carry no grant |
| `Pairing.DelegationOnlyShrinks` | src/termx/identity_pairing.py:88-106 | along any chain of pairings a descendant keeps the principal, its grant is within every paired ancestor's, and its live scopes stay inside all of them through any role or group change |
| `Directories.HighestRoleIsHighest` | src/termx/identity_groups.py:47-53 | the host role ranks at least as high as every candidate and is trusted when any candidate is |
| `Directories.ScopesExactly` | src/termx/identity_groups.py:34-45 | effective scopes are exactly those of the account and of the roles of groups with a membership row in force |
| `Directories.RolesAreNested` | src/termx/authorization.py:24-27 | each role has all scopes of the one below, viewers only the five that look, operators all but the five that administer |
| `Directories.FoldSums` | src/termx/authorization.py:65-74 | the fold over grant rows computes, for each project, the union of the current scopes and the earliest expiry |
| `Directories.FoldOrderIndependent` | src/termx/authorization.py:65-74 | order and repetition of the rows the database returns never change the folded grants |
| `Directories.FoldIsRights` | src/termx/identity_groups.py:55-61 | folding the stored rows in any order gives the principal's rights, the same as the unordered definition |
| `Directories.GrantStableUntilExpiry` | src/termx/identity_groups.py:34-61 | with no write in between, a reported grant stands unchanged until the expiry reported with it, and an absent one stays absent |
| `Directories.CollectGrants` | src/termx/authorization.py:65-74 | the accumulating loop returns the fold of its rows |
| `Administration.OperationSound` | src/termx/identity_groups.py:63-67 | every account, role, grant, group, mapping, claim and recovery transaction keeps references intact and versions rising; an unchanged version means unchanged scopes, role and project rights; an account switched off or on has its sessions revoked, and a group transaction revokes the sessions of everyone whose authority it moved |
| `Administration.SyncClaimsSound` | src/termx/identity_groups.py:144-158 | replacing an issuer's memberships by what verified claims map to leaves unbumped only principals whose authority is exactly as before (which memberships those are: `AdministrationLaws.OperationLawful`) |
| `AdministrationLaws.OperationLawful` | src/termx/identity_groups.py:93-158 | every administrative transaction, on any tables, is refused if and only if its rows say so, writes exactly the rows it names (scopes, role, grant with expiry, membership, mapping, identity, recovery) and no others, raises exactly the versions and ends exactly the sessions it should |
| `AdministrationLaws.SyncedScopes` | src/termx/identity_groups.py:144-158 | after verified claims are synchronized the principal has a scope if and only if its account has it, a group it belongs to by another authority gives it, or a group one of those very claims is mapped to gives it |
| `Administration.MayOnIsGrant` | src/termx/authorization.py:65-74 | a scope is usable on a project exactly when the principal's rights there contain it |
| `Authentication.AuthenticationService.Login` | src/termx/identity.py:408-420 | inserts a session with its limits from the policy, its first refresh token and its first access token for the principal verified before, in one transaction that does not look at the principal again; the session is unlocked and its refresh token unconsumed |
| `Disabling.DisabledSignInNeverLives` | src/termx/identity.py:485-498 | a session enrolled for a principal disabled since its verification never lives and its access token never resolves, in any later run, even if the principal is enabled again |
| `Disabling.DisablingIsFinal` | src/termx/identity.py:365-368 | disabling a principal ends each session it has for good |
| `Authentication.AuthenticationService.Refresh` | src/termx/identity.py:500-527 | rotation, lock refusal and replay revocation, each as one transaction; a granted refresh leaves the old token consumed and a new one of the same session unconsumed; who is granted, told to unlock, or denied is said of the rows, each if and only if |
| `Authentication.AuthenticationService.Resolve` | src/termx/identity.py:457-483 | a token resolves exactly to the identity the tables support, and resolving writes nothing |
| `Authentication.AuthenticationService.RotateSigningKey` | src/termx/identity.py:423-439 | retires the active key for as long as its tokens may live, drops expired ones, installs a new one; the active key is there and unretired, and of the others only retired ones went |
| `Authentication.AuthenticationService.UpdatePolicy` | src/termx/session_policy.py:44-68 | checks ranges and revision, cuts every session's limits, and reaps the dead |
| `Authentication.AuthenticationService.Lock` | src/termx/identity_locks.py:34-42 | marks the caller's live session locked and spends the proofs it sponsored, and nothing else; it is then not live in the normal way |
| `Authentication.AuthenticationService.BeginUnlock` | src/termx/identity_locks.py:44-51 | the half of an unlock before its await answers with the session of an unconsumed token exactly when that session is live but for its lock, and locked |
| `Authentication.AuthenticationService.FinishUnlock` | src/termx/identity_locks.py:53-70 | the half after the await re-checks everything against the tables as they are then |
| `Authentication.AuthenticationService.BindOidc` | src/termx/identity_locks.py:72-80 | stores a pending unlock flow for a locked session and sweeps expired ones; the flow is found under its state, whose earlier flow, if any, had expired |
| `Authentication.AuthenticationService.FinishOidc` | src/termx/identity_locks.py:82-97 | a flow finishes once, for the adapter, session, token and version it was bound to, before it expires; a flow that unlocked its session is gone |
| `Authentication.AuthenticationService.IssueProof` | src/termx/identity_pairing.py:54-71 | sweeps dead rows, refuses a twenty-first pending proof and scopes beyond the sponsor's live ones; the ticket is on record, unconsumed and the caller's |
| `Authentication.AuthenticationService.Consume` | src/termx/identity_pairing.py:73-86 | a proof is consumed once, before its expiry, for this host and its own purpose and path, while its sponsor is live, of the same principal and version, and still has its scopes |
| `Authentication.AuthenticationService.Exchange` | src/termx/identity_pairing.py:88-106 | pairing consumes the proof and creates the session in one transaction, or neither |
| `Authentication.AuthenticationService.AdmitSocket` | src/termx/identity_pairing.py:108-111 | a socket proof admits once, is consumed by it, and signs an access token for its sponsor's session |
| `Authentication.AuthenticationService.RevokeProof` | src/termx/identity_pairing.py:113-122 | only the sponsor withdraws its proof |
| `Authentication.AuthenticationService.RevokeAll` | src/termx/identity.py:296-300 | revokes exactly the principal's sessions, none of which is live afterwards |
| `Authentication.AuthenticationService.Administer` | src/termx/identity_groups.py:93-158 | an administrative transaction commits with its revocations or not at all, by the law of its operation on rows; after a disabling every session of that principal is revoked |
| `Authorization.RequirePrincipal` | src/termx/authorization.py:176-204 | the branches of a check decide exactly the permission predicate, and so what single rows entitle to, for the live principal at the time |
| `Authorization.PermitsExactly` | src/termx/authorization.py:176-204 | what is decided by ranking roles and summing grants is what single rows entitle to: the caller is live or enrolled, wields the scope, and some role row administers, or some role row gives the action, some row trusts if it executes, and the resource is its own and one grant row in force covers the project |
| `Entitlements.CoversExactly` | src/termx/authorization.py:65-74 | the summed grant of a project gives a scope if and only if one grant row, the principal's or a current group's, is in force and gives it |
| `Authorization.EvaluateAgreesWithRequire` | src/termx/authorization.py:265-319 | a token is allowed exactly what its session's principal is, except for the one adoption of the setup owner |
| `Authorization.ResourceSnapshot` | src/termx/authorization.py:106-157 | the chunked bulk query lists exactly the owned rows its rights permit, with the earliest expiry, or refuses the request; in a fixed state the snapshot allows exactly the identifiers permitted one at a time, across the 500-row chunks, and nothing for a caller hidden by a lock |
| `Authorization.BulkIsPointwise` | src/termx/authorization.py:106-157 | where the gate answers by row and the listed rows are those the chunk walk selects, the snapshot decides every identifier as the pointwise check does |
| `Authorization.GateDecides` | src/termx/authorization.py:117-132 | for a caller not hidden by a lock, the gate of the bulk query is closed, open or by row exactly as the pointwise check refuses all, permits all or looks at each resource; a hidden caller gets nothing |
| `Authorization.AllowedUntilExpiry` | src/termx/authorization.py:141-157 | what a grant allows now it still allows, with no write in between, until the expiry reported |
| `BrokerSafety.StartedAtMostOnce` | src/termx/auto_review.py:224-247 | in every interleaving of authorize, decide, invalidate, execute, external consumption and completion, rule edits, reviewer changes and restarts, an action enters execution at most once |
| `BrokerSafety.RunForward` | src/termx/auto_review.py:117-120 | over any run the envelope recorded for an id never changes, and executing, completed, unknown, blocked and invalidated rows never become executable again |
| `BrokerSafety.StepKept` | src/termx/auto_review.py:143-253 | each event keeps the broker's invariant: rows belong to their ids, permits sit only on permitted or terminal rows, a locked action is either under its first review or consumed and operating; and rows change only forward |
| `BrokerSafety.ExecutesWhatWasRecorded` | src/termx/auto_review.py:224-238 | what starts has the envelope first recorded under its id, and is never a challenge |
| `BrokerSafety.StartsWithinFifteenSeconds` | src/termx/auto_review.py:207-211 | every execution starts less than fifteen seconds after its permit was issued to that action |
| `BrokerSafety.RestartVoidsPermits` | src/termx/auto_review.py:117-120 | no permit issued before a restart is honoured after it |
| `BrokerSafety.ExecutableWasApproved` | src/termx/auto_review.py:148-153 | an action that needs a human is executable only after an approving decision on it in the run |
| `BrokerSafety.ConsequentialNeedsApproval` | src/termx/auto_review.py:154-206 | a sensitive or unknown effect, or secret data, executes only after a human approved that very action |
| `BrokerSafety.RunRulesBounded` | src/termx/auto_review.py:123-140 | remembered rules never come to allow a sensitive or unknown effect |
| `BrokerLaws.StepLawful` | src/termx/auto_review.py:115-252 | every step of the protocol, in any state, said of stored rows and rules alone: when it answers which way, what it writes, and which action it starts |
| `BrokerLaws.AuthorizeLawful` | src/termx/auto_review.py:154-206 | for a new valid action, not denied and no challenge: a remembered deny in force for it in every respect blocks it; else one that needs a human is put to review; else consent, a remembered rule or a safe effect grants it for fifteen seconds, if still valid; else the reviewer is asked, if there is one; and what becomes of an action seen before |
| `BrokerLaws.StandingDenyIsFinal` | src/termx/auto_review.py:171-175 | an action that first asks while a remembered deny stands against it is never started, in any interleaving, whatever becomes of the rule |
| `BrokerLaws.BlockedNeverStarts` | src/termx/auto_review.py:159-165 | an action that was blocked when it asked is never started afterwards |
| `BrokerLaws.GrantIsUsable` | src/termx/auto_review.py:224-233 | a grant can be used: until it expires its permit starts the action, if and only if the reviewer who gave it, if one did, still stands |
| `BrokerLaws.ResumeLawful` | src/termx/auto_review.py:186-206 | after the await only a verdict in time, from the reviewer asked, still current and qualified, permits, for no longer than it said; otherwise a human is asked, or the action has become invalid |
| `Decisions.DecisionBroker.Authorize` | src/termx/auto_review.py:154-206 | the call up to its await: revisit, host opinion, or a review under the action's lock; what is granted is on record and permitted |
| `Decisions.DecisionBroker.ResumeAuthorize` | src/termx/auto_review.py:196-206 | after the review model answers, validation is repeated and the lock is dropped in every case |
| `Decisions.DecisionBroker.Decide` | src/termx/auto_review.py:148-153 | only the owner decides, and only a pending unexpired action, which is then approved once or blocked |
| `Decisions.DecisionBroker.Invalidate` | src/termx/auto_review.py:143-147 | withdraws every unsettled row of a grant or session and no other |
| `Decisions.DecisionBroker.BeginExecute` | src/termx/auto_review.py:224-233 | the permit is checked and its consumption stored before the operation runs: only a permitted action starts, and it is then executing |
| `Decisions.DecisionBroker.EndExecute` | src/termx/auto_review.py:233-238 | the outcome is written to the row held since the operation began; the action is then completed or of unknown outcome, and unlocked |
| `Decisions.DecisionBroker.ConsumeExternal` | src/termx/auto_review.py:239-247 | consumption for a native hook, without an operation to await: only a permitted action starts, and it is then executing |
| `Decisions.DecisionBroker.CompleteExternal` | src/termx/auto_review.py:248-252 | completes an executing row and leaves any other alone |
| `ExposedEdges.ExposedEdgeSpans` | desktop/src-tauri/src/companion_motion.rs:50-67 | the spans kept for a window edge on a monitor are exactly the maximal exposed intervals at least 32 wide |
| `ExposedEdges.SpansAreExact` | desktop/src-tauri/src/companion_motion.rs:53-66 | a span survives the cutting if and only if it is a maximal interval clear of every cover and wide enough |
| `ExposedEdges.FilterOnceIsEnough` | desktop/src-tauri/src/companion_motion.rs:64-67 | dropping narrow pieces inside the loop equals dropping them once at the end |
| `ExposedEdges.PiecesInOrder` | desktop/src-tauri/src/companion_motion.rs:53-66 | the pieces come left to right without overlap |
| `ExposedEdges.SurfacesAreExact` | desktop/src-tauri/src/companion_motion.rs:39-82 | a habitat's surfaces are exactly the exposed pieces of valid windows on valid monitors, and the monitor floors |
| `HabitatLaws.HabitatExactly` | desktop/src-tauri/src/companion_motion.rs:36-101 | a surface is there if and only if it is the floor of a working monitor, or a stretch at least 32 wide of the top edge of some window, on such a monitor and below its bar, whose points no window in front covers and which cannot be made longer |
| `HabitatLaws.MonitorsInOrder` | desktop/src-tauri/src/companion_motion.rs:39-43 | the monitors of a habitat are exactly those with a real area and a positive scale, in the order given |
| `ExposedEdges.SurfacesOnMonitors` | desktop/src-tauri/src/companion_motion.rs:39-82 | every surface lies on a usable monitor |
| `Habitats.TrimSpans` | desktop/src-tauri/src/companion_motion.rs:56-65 | one pass of the loop cuts every span by one cover and filters |
| `Habitats.Build` | desktop/src-tauri/src/companion_motion.rs:39-82 | the nested loops build the habitat of the specification |
| `Motion.Body.Home` | desktop/src-tauri/src/companion_motion.rs:137-147 | puts the pet in its slot on the first monitor's floor and ends hops and falls: it stands on the bottom edge; without a monitor nothing changes |
| `Motion.Body.Tick` | desktop/src-tauri/src/companion_motion.rs:150-277 | one frame changes the pet as the step function says: recovery, pause, settling, hopping, fidgeting, walking, falling; a dragged or hidden pet is not moved |
| `Motion.Body.Approach` | desktop/src-tauri/src/companion_motion.rs:278-332 | a hop goes to the closest reachable target on the same monitor; a dragged or paused pet begins none, and nobody is moved at once |
| `Motion.Body.HopInPlace` | desktop/src-tauri/src/companion_motion.rs:333-356 | a bounce on the spot when there is headroom |
| `MotionSafety.TickEndsInside` | desktop/src-tauri/src/companion_motion.rs:150-277 | with one monitor at least the pet's size, every tick of a free visible pet ends on it, hops included, for any windows, flags and time step |
| `MotionLives.EveryFrameEndsInside` | desktop/src-tauri/src/companions.rs:613-800 | in every life of a pet from its creation, through drags, drops, actions, pauses and frames on any monitors and at any sizes, a frame that finds it free and visible on one monitor leaves it there, provided that what is left of any hop the frame follows is contained in that monitor at that size; frames that pause, settle, block, summon or find the target gone need nothing |
| `MotionLives.FrameEndsInsideExactly` | desktop/src-tauri/src/companion_motion.rs:194-218 | a frame that finds a pet free and visible on one monitor ends there if and only if it follows no hop or follows one to a point that fits the monitor at the size of that frame |
| `MotionLives.UsualFrameEndsInside` | desktop/src-tauri/src/companions.rs:677-800 | while monitors and size stay the same, every such frame ends on the monitor without any condition on hops |
| `MotionSafety.ArcInsideExactly` | desktop/src-tauri/src/companion_motion.rs:202-206 | all the points still ahead of a hop, however it arches, are on a monitor if and only if the point it has reached and its target fit and its lift over both stays below the top |
| `RestOfHop.RestOfHopExactly` | desktop/src-tauri/src/companion_motion.rs:196-213 | for a pet in the middle of a hop that keeps its target, all frames to come end on the monitor, whatever their time steps and however the hop arches, if and only if where the hop has got to and its target fit and its lift over the lesser of the two stays below the top |
| `RestOfHop.FlownPartIsNoMatter` | desktop/src-tauri/src/companion_motion.rs:202-213 | a concrete hop whose start a shrunken monitor no longer holds and whose rest is contained |
| `MotionLives.GrowingPetLeaves` | desktop/src-tauri/src/companions.rs:733-800 | a concrete life in which a pet that grows in the middle of a hop is drawn outside its monitor |
| `MotionSafety.ArcIsInside` | desktop/src-tauri/src/companion_motion.rs:202-206 | every point still ahead on the arc of a contained hop is on the monitor |
| `MotionSafety.HopEndsOnTarget` | desktop/src-tauri/src/companion_motion.rs:201-213 | a hop ends exactly when its time is up, on its target and at rest |
| `MotionSafety.SupportFound` | desktop/src-tauri/src/companion_motion.rs:229-237 | the support is a surface under the feet, and absent only when there is none |
| `MotionSafety.LandingIsNearest` | desktop/src-tauri/src/companion_motion.rs:259-268 | a landing is the nearest surface in reach, and absent only when there is none |
| `MotionSafety.ClosestIsClosest` | desktop/src-tauri/src/companion_motion.rs:284-315 | the target is no farther than any other target |
| `MotionSafety.FallPassesNothing` | desktop/src-tauri/src/companion_motion.rs:255-276 | a fall step passes no surface that could hold the pet, and lands only on one |
| `MotionSafety.FallsAreShort` | desktop/src-tauri/src/companion_motion.rs:255-276 | with frames no shorter than d, the number of falling ticks in a row times 600 d^2 is at most the height left, even while windows change |
| `MotionSafety.BusyPetStands` | desktop/src-tauri/src/companion_motion.rs:238-244 | a supported pet whose agent is busy stays where it is |
| `MotionLaws.LifeLawful` | desktop/src-tauri/src/companion_motion.rs:137-356 | every event of a pet's life, said of points, edges and times alone: placing, settling, hopping, strolling, falling, pausing, dragging |
| `MotionLaws.PatrolLawful` | desktop/src-tauri/src/companion_motion.rs:243-254 | a stroller moves the way it faces by its pace, and turns where the surface ends under it |
| `MotionLaws.TurnsBack` | desktop/src-tauri/src/companion_motion.rs:243-254 | a pet that strolls on turns back at the edge it faces, within as many strides as lead there |
| `MotionLaws.TargetExactly` | desktop/src-tauri/src/companion_motion.rs:284-312 | a surface gives a target if and only if it is wide enough, its nearest point is in reach, neither too near nor too far, and some monitor spans the way; then it is that point |
| `RunbookSafety.StepsStartOnceInOrder` | src/termx/runbooks.py:306-390 | in every run, whatever the interruptions, steps start in list order, each at most once, whole batches at a time, and a gated step only after its confirmation |
| `RunbookSafety.BatchIsMaximal` | src/termx/runbooks.py:326-335 | a batch is one step, or a parallel step with all ungated parallel ones after it |
| `RunbookSafety.ConfirmCoversTheNextStep` | src/termx/runbooks.py:109-116 | a confirmation is for the next step, after all before it succeeded, with their results stored |
| `RunbookSafety.OverIsOver` | src/termx/runbooks.py:400-413 | after a run is completed, failed or cancelled nothing more starts, and its status and error stand as long as its row does |
| `RunbookSafety.EndedRowChangesExactly` | src/termx/runbooks.py:354-366 | the row of an ended run changes if and only if its runbook is deleted, or a member that an aborted batch left running publishes something new |
| `RunbookSafety.FirstOverwriteChanges` | src/termx/runbooks.py:354-366 | the first progress such a member publishes always changes the row |
| `RunbookSafety.RunningHasATask` | src/termx/runbooks.py:109-149 | in every reachable state a row that says running has a task to run it |
| `RunbookSafety.RunKeepsConsistent` | src/termx/runbooks.py:306-413 | every interleaving, deletions of the runbook included, keeps row, task, gate and history consistent |
| `RunbookSafety.EndIsDetermined` | src/termx/runbooks.py:384-413 | a run that ends by itself ends as an independent reference over its steps and their outcomes says, and its row has the results the reference keeps, aborted batches included, if and only if no member left running has written into it |
| `RunbookSafety.InterruptionsDoNotMatter` | src/termx/runbooks.py:72-81 | two runs of the same steps and outcomes, however interrupted and resumed, agree in status, error and steps started once both end by themselves, and in results when neither was written over |
| `RunbookLaws.EventLawful` | src/termx/runbooks.py:109-413 | every event of a run, in any state, said of its row, task and gate alone |
| `RunbookLaws.CancelKeepsResults` | src/termx/runbooks.py:151-176 | cancelling a run that is not over leaves in its row exactly the results of the whole batches that passed before, and nothing of the one in flight |
| `RunbookLaws.CancelledRowsStand` | src/termx/runbooks.py:151-176 | in every reachable state a row that says cancelled has exactly the results of some whole batches, all of which passed |
| `RunbookLaws.PublishLawful` | src/termx/runbooks.py:354-366 | progress is filed under the first equal step, and the row shows the results so far and then everybody's progress in list order |
| `RunbookLosses.SpoilingExactly` | src/termx/runbooks.py:374-405 | results of an ended run can be written over if and only if the batch that fails first aborts and has more than one member |
| `RunbookLosses.InterruptionsAgreeExactly` | src/termx/runbooks.py:72-81 | all runs of the same steps and outcomes, interrupted or not, agree in status, error, steps started and results by list position, if and only if the batch that fails first does not abort with other members |
| `RunbookLosses.LoneAbortKeepsResults` | src/termx/runbooks.py:400-413 | unless that is so, an ended run keeps exactly the results of the steps the reference keeps; an aborted single step leaves those of the steps before it |
| `RunbookLosses.OrphanRewritesTheRow` | src/termx/runbooks.py:354-366 | a concrete run of two parallel steps whose row changes after it has failed |
| `RunbookLosses.DetachedExactly` | src/termx/agent/store.py:2234-2240 | a task is left without a row if and only if the runbook is deleted while the run is scheduled, waiting or in flight |
| `RunbookLosses.CancelStopsExactly` | src/termx/runbooks.py:151-176 | a cancelled run has no task left if and only if its row is there or it had none |
| `RunbookLosses.DetachedIsOutOfReach` | src/termx/runbooks.py:109-112 | confirming and cancelling such a run are refused and change nothing |
| `RunbookLosses.DetachedGateStaysShut` | src/termx/runbooks.py:336-351 | such a run waiting at its gate waits until the host goes, whatever else happens |
| `RunbookLosses.DetachedRunsOn` | src/termx/runbooks.py:374-398 | such a run with no gate ahead has a future in which it starts every step the reference would |
| `RunbookLosses.DeletedRunGoesOn` | src/termx/agent/store.py:252-263 | a concrete run, deleted and cancelled before it began, that starts both its steps |
| `RunbookFutures.EveryRunbookCanEnd` | src/termx/runbooks.py:306-413 | for all steps and outcomes some run ends by itself, its results as kept, so the reference is reached |
| `RunbookFutures.RestartLeavesNoTrace` | src/termx/runbooks.py:117-148 | confirming at a gate, and restarting, confirming and resuming there, have the same futures under all later events |
| `RunbookRunners.RunbookRunner.constructor` | src/termx/runbooks.py:72-81 | a new host fails exactly the runs found running |
| `RunbookRunners.RunbookRunner.BatchFrom` | src/termx/runbooks.py:327-335 | the inner loop collects the batch that begins at an index |
| `RunbookRunners.RunbookRunner.Proceed` | src/termx/runbooks.py:325-347 | from the top of the loop to its next await: finish, park, or launch; at an unconfirmed gate and past the last step nothing starts |
| `RunbookRunners.RunbookRunner.Awake` | src/termx/runbooks.py:345-351 | past the gate only when the row says running, else cancelled, and then nothing has started and no task is left |
| `RunbookRunners.RunbookRunner.EndBatch` | src/termx/runbooks.py:371-398 | results are appended in order, and a failure ends the run; after a member that could not be spawned nothing starts and no task is live |
| `RunbookRunners.RunbookRunner.ConfirmRun` | src/termx/runbooks.py:109-149 | refuses a run without a row; else sets the waiting gate, or resumes a parked run from its own snapshot, and a run that was waiting then says running |
| `RunbookRunners.RunbookRunner.CancelRun` | src/termx/runbooks.py:151-176 | refuses a run without a row; else cancels a live or parked run, which has no task then, leaving finished ones alone |
| `SupervisorSafety.EveryRunIsOrderly` | desktop/src-tauri/src/backend.rs:241-663 | in every interleaving at most one process is alive and it is the child, only its reader has the current generation, and automatic restarts are within budget |
| `SupervisorSafety.AtMostOneLiveChild` | desktop/src-tauri/src/backend.rs:345-389 | two live spawned processes are the same one |
| `SupervisorSafety.OnlyTheChildIsHeard` | desktop/src-tauri/src/backend.rs:609-640 | a printed line changes anything only when it comes from the current child, and readiness only when no stop is wanted |
| `SupervisorSafety.MeantStopsAreFinal` | desktop/src-tauri/src/backend.rs:530-595 | once the backend has said or exited with its host-stop status, nothing is spawned until a restart or mode change starts a session, whatever the order of exit, printed lines and flags |
| `SupervisorSafety.HostStopIsMeant` | desktop/src-tauri/src/backend.rs:537-541 | an exit with status 79 is such a stop from the moment the process ends |
| `SupervisorSafety.RespawnsAreBounded` | desktop/src-tauri/src/backend.rs:563-580 | between two resets of the counter there are at most three automatic restarts |
| `SupervisorSafety.RespawnsAreCharged` | desktop/src-tauri/src/backend.rs:570-595 | each automatic restart is the end of one charged delay |
| `SupervisorSafety.OnlyTheseReset` | desktop/src-tauri/src/backend.rs:567-569 | the counter goes back only at an exit with an old ready mark or at a user's restart |
| `SupervisorSafety.ResetExactly` | desktop/src-tauri/src/backend.rs:557-569 | at an unwanted exit the counter is reset exactly when a ready mark, whichever child left it, is older than a minute |
| `SupervisorSafety.UnreadyGivesUp` | desktop/src-tauri/src/backend.rs:570-577 | without a ready mark a backend that never becomes ready is respawned at most three times |
| `SupervisorSafety.StaleMarkNeverGivesUp` | desktop/src-tauri/src/backend.rs:557-569 | from an old ready mark, any number of crashes in a row are restarted although no child became ready |
| `SupervisorSafety.GivesUpExactly` | desktop/src-tauri/src/backend.rs:557-577 | giving up on a backend that is never ready again is certain exactly when no ready mark is on record |
| `SupervisorLaws.StepLawful` | desktop/src-tauri/src/backend.rs:122-660 | every event of the supervisor, in any state, said of its fields alone, what spawns, attaches, adopts, fails, waits or does nothing |
| `SupervisorLaws.RestartLawful` | desktop/src-tauri/src/backend.rs:241-281 | a restart that is not refused leaves no stop standing and no crash counted, and begins a session: it attaches in service mode, else adopts what answers, else spawns one live process, else fails |
| `SupervisorLaws.ModeLawful` | desktop/src-tauri/src/backend.rs:122-178 | the mode is what was last saved, even when the service then fails; a change that succeeds clears the flags and begins a session in the new mode |
| `SupervisorLaws.RestartPrevails` | desktop/src-tauri/src/backend.rs:241-281 | in process mode a restart that begins while nobody holds the mutex ends with no stop standing and a backend up or on its way, whatever stops, ends, lines, observations and time other threads put between its sections |
| `Backends.Backend.RunSessionInner` | desktop/src-tauri/src/backend.rs:345-397 | starts a session only when nothing bars it and none is running; with a child nothing is spawned |
| `Backends.Backend.HandleExit` | desktop/src-tauri/src/backend.rs:530-580 | the monitor's report is acted on for the current child only, and charged when unwanted; status 79 confirms the stop and arms no restart |
| `Backends.Backend.Resume` | desktop/src-tauri/src/backend.rs:586-595 | after the delay the flags are read again: after a meant stop nothing is spawned and no restart is counted |
| `Backends.Backend.HandleStdout` | desktop/src-tauri/src/backend.rs:606-640 | lines of older generations are dropped |
| `Backends.Backend.AfterStop` | desktop/src-tauri/src/backend.rs:297-343 | the child is gone, and what the stop was for goes on; no child, port or ready mark is left and nothing is spawned |
| `Backends.Backend.FinishRestart` | desktop/src-tauri/src/backend.rs:241-281 | a restart clears the counter and flags and starts a session, or fails |
| `Backends.Backend.FinishModeChange` | desktop/src-tauri/src/backend.rs:122-178 | a mode change saves, controls the service, clears the flags and starts a session, or fails at the first refusal; it spawns at most once, and not after a refusal |
| `Audit.Lines` | src/termx/audit.py:90-96 | bounded reads deliver every record of the file, and nothing in place of one longer than 65536 bytes |
| `Audit.RecordsLoseNothing` | src/termx/audit.py:90-96 | the records of a file, joined, are the file |
| `Audit.RetentionIsOptimal` | src/termx/audit.py:109-118 | what is retained is the longest suffix of the accepted events that fits both limits with the reserve, or nothing |
| `Audit.PruneLawful` | src/termx/audit.py:99-118 | what pruning leaves is the longest suffix that fits, with the reserve, of the cleaned lines at exactly the places, in order, of records of at most 65536 bytes that can be read and are no older than the days kept |
| `Audit.KeptIsRecent` | src/termx/audit.py:103-112 | every line left is the cleaned line of a record that was there, could be read and is recent |
| `Audit.LogLawful` | src/termx/audit.py:125-146 | a logged event comes last, after everything that was there when the day, the size and the count allow it, and otherwise after what pruning leaves |
| `Audit.EvictEarly` | src/termx/audit.py:114-115 | evicting as events arrive keeps what evicting once at the end would |
| `Audit.Push` | src/termx/audit.py:113-115 | one turn of the queue loop evicts from the front until both limits hold |
| `Audit.AuditLog.PruneEvents` | src/termx/audit.py:99-118 | the rewritten file is the retained events, its cached count is right, and retained plus removed equals the records read |
| `Audit.AuditLog.LogEvent` | src/termx/audit.py:125-146 | after each event the file is within the current byte and event limits, ends with that event, and the cached count is the true count; an invalid policy changes nothing |
| `Audit.FlattenedRecords` | src/termx/audit.py:113-117 | lines written one after the other are read back as the same records |
| `MachO.IntelMinimums` | desktop/scripts/verify_macos_compatibility.py:34-107 | on any bytes the answer is the specified one: errors, ignored files, and the minima of the slices in order |
| `MachO.WalkCommands` | desktop/scripts/verify_macos_compatibility.py:87-103 | the command loop finds what the recursive walk finds |
| `MachO.ReadSlices` | desktop/scripts/verify_macos_compatibility.py:56-66 | the table loop names the Intel slices, all within the file |
| `MachO.ReadSlice` | desktop/scripts/verify_macos_compatibility.py:71-106 | header, bounds and commands of one slice |
| `MachOFormat.AcceptedExactly` | desktop/scripts/verify_macos_compatibility.py:80-106 | a loadable Intel slice is accepted if and only if sound commands fill its declared region edge to edge and one states a minimum |
| `MachOLaws.AnswerExactly` | desktop/scripts/verify_macos_compatibility.py:34-107 | a file is answered if and only if it is no Mach-O file at all, or its one slice is acceptable, or its table of one to sixty-four rows is sound (each row in the file, each slice between the end of the table and the end of the file) and every slice named for Intel is acceptable; a count out of range is refused, unless the file is named like a Java class |
| `MachOFormat.EntryIsCommand` | desktop/scripts/verify_macos_compatibility.py:89-91 | a command is read exactly when it is at least 8 long, ends in the region and is sound |
| `MachOFormat.SliceIsLocal` | desktop/scripts/verify_macos_compatibility.py:38-45 | reading a slice depends on no byte outside it |
| `MachOFormat.ImageReadsBack` | desktop/scripts/verify_macos_compatibility.py:71-106 | encoding any well-formed image, of either byte order and width, for any processor and of any kind, and reading it gives its minima in order when it runs on Intel and states one, a refusal when it states none, and nothing when it is an object file or for another processor |
| `MachOFat.ThinFileReadsBack` | desktop/scripts/verify_macos_compatibility.py:67-107 | a file that is one image, of any processor and kind, is answered as that image |
| `MachOFat.FatFileReadsBack` | desktop/scripts/verify_macos_compatibility.py:49-107 | a fat file of either order and width, with padding, other architectures and object files between, is answered with the minima of its members that run on Intel, in table order, or refused if one of them states none |
| `Versions.PackedReadsBack` | desktop/scripts/verify_macos_compatibility.py:23-31 | writing a packed version and parsing it gives its three fields |
| `Versions.ParseExactly` | desktop/scripts/verify_macos_compatibility.py:23-27 | a string is a version if and only if it is one to three decimal numbers with dots between, and then it is these numbers, missing ones being zero |
| `Versions.WrittenOrder` | desktop/scripts/verify_macos_compatibility.py:23-31 | writing and parsing keeps the order of packed versions |
| `Versions.MissingPartsAreZero` | desktop/scripts/verify_macos_compatibility.py:23-27 | a version with fewer parts is the one with zeros |

## Left out

- HTTP, WebSocket and GraphQL routes, cookies, CSRF and origin checks, which carry the modelled steps.
- Cryptography, JWT encoding, password hashing and the OIDC exchange: signatures and digests are unforgeable and injective, verified identities are parameters.
- Device names, assurance strength, CSRF hashes, organizations and labels: columns no modelled decision reads.
- AdministrationLaws.OperationLawful: whether a mapping's issuer is configured, and the bounds on names and labels, are checked before the transaction and not modelled.
- Revocation by authentication adapter and the login attempt limiter.
- The legacy token path of authorization and `validate_resource_snapshot`, `claim` and path checks built on the modelled query.
- Clock regressions, and resolution of timestamps finer than the model's reals.
- The call of the review model: its verdict, failure and timeout are inputs of the step after the await.
- Rewording of reasons and history listings in the broker.
- Motion.Body.Tick: arithmetic is over reals, without rounding, infinities or NaN other than the never-placed position.
- MotionLives.EveryFrameEndsInside: speaks of frames with one usable monitor; hops between several monitors and the idle pose are not modelled.
- MotionSafety.FallsAreShort: counts ticks that are neither paused nor in reduced motion; the sum of n equal drops is `Times(n, drop)`, which `MotionSafety.TimesIsProduct` identifies with the product.
- Runbook profiles and capability grants: a run resumed after a restart uses the default profile, which the model does not distinguish.
- The `index` field of runbook results, which names the first equal step; results are stated by list position.
- RunbookSafety.RunKeepsConsistent: a run is followed by itself; deleting its runbook is an event of the run, and other runs of the same runbook lose their rows by the same event of theirs.
- RunbookRunners.RunbookRunner.constructor: tasks, gates and rows are fields of one record per run instead of separate dictionaries, and `started`, `confirmed` and `overwritten` are history the runner does not store.
- Runbook subprocesses: output tails, timeouts and signals are outcomes of steps.
- Supervisor: reuse of process ids by the system, stale pid files, log lines and notifications; the private quitting flag, which is never set.
- Supervisor: whether the service or a port can be adopted, and whether spawning works, are answers given to each session start.
- Audit.AuditLog.LogEvent: reading an event out of a record and cleaning it is a parameter that yields one line; the fallback line of an oversized event is assumed to be one line within the bound.
- Audit.PruneLawful: timestamps of events are whole seconds.
- Reading the last events back for display.
- Audit.AuditLog.PruneEvents: the case of a file that does not exist, file permissions and the atomic replacement of the file.
- Versions.PackedReadsBack: digits are ASCII; other decimal characters that Python accepts are not modelled.
- The walk over a bundle's files, plist metadata and the report of the compatibility script.
- Native windows, menus, packaging, configuration editing, push retries, port discovery and terminal replay: little state to prove anything about.
