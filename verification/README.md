# Verified models of the backend stores and maintenance scripts

A Dafny project that models the parts of the repository that carry protocol, graph,
queue or arithmetic logic, and proves what they promise. `dafny verify dfyconfig.toml`
checks all of it. The modules:

- **TokenRefresh**: the identity-provider token row with its double-checked lock. Any
  number of `load_tokens` and `store_tokens` calls interleave step by step: unlocked read,
  queueing for the row lock, lock timeout, re-check, provider call, commit. The callback may
  raise before or after the provider has exchanged the token, and a commit may fail or go
  through unheard. The refresh token is single-use, so the question is which runs spend one twice.
- **DefaultOrg**: logins racing to look up, adopt, create or recover the default
  organisation, then joining it and moving the user into it. They interleave with sign-ups,
  workspace switches, renames of any organisation, invitations and removals of members, and
  any statement of a login may raise.
- **Migrations**: the checker of the Alembic history, and what a history it accepts looks
  like as a graph.
- **AutoClose**: the two scripts that close duplicate issues. Every request may succeed, be
  answered HTTP 404, or fail, with or without effect, in a way the agentcore script handles or
  in another; the two scripts write in different orders.
- **DeviceCodes**: the device authorization grant (section 3.5 of RFC 8628): polling
  back-off, and the life of a code in the store. **DeviceRaces** and **DevicePolls**: the same
  decisions and polls made concurrently, check and commit being two steps without a lock.
- **Maintenance**: the task queue with its stale sweep, and the budget batches fed to it.
- **SkillNames**, **Streaming**, **Versions**, **Costs**: a rewrite chain against a grammar,
  a printer whose output must not depend on chunking, a version order, and rounding.
- **Prelude**: what they share.

The stateful parts are classes whose methods follow the source's control flow. In
TokenRefresh, DefaultOrg, DeviceCodes and Maintenance each class keeps a ghost state, and
its methods are proved to be runs of a step system; the theorems about all runs are about
that system. In DefaultOrg a login yields to everybody else before each of its database
operations (`Await`), and `OthersMeetAwait` shows that any interleaving meets what
`Await` promises.

What comes from outside is a parameter: clocks, generated codes and ids, lower-casing, the
provider's answers, the outcome of each request and of each task. Three assumptions sit
in the enabling conditions of steps and are visible there: a refresh token the provider
issues was never issued before, the clock does not run backwards, and one statement or
locked transaction on a row is one step.

## What turned out otherwise

Where the code and what is said about it differ, the model follows the code.

- A refresh can be lost: the callback raises after the provider has exchanged the token (a
  read timeout, an answer that does not parse), or the commit fails. `SpentOnceExactlyWhen`
  says that a run spends some refresh token twice if and only if a refresh follows a lost one
  with no row written between them, and `LostRefreshIsSpentAgain` that one new call is enough.
- The service's comments treat a name clash as the only way a concurrent creation shows. The
  name check and the insert are two steps; a login that passes the check and then loses the
  insert raises. At most one organisation is created as long as no team organisation is renamed
  while a login is between an empty listing and its insert. From every reachable state,
  `AnotherOrgExactlyWhen` says when a further one can be created, and `RenameForks` how a rename
  brings that about.
- The service tells a personal workspace by its name, and an owner may rename it. A workspace
  renamed to the configured name can be flagged as the default organisation
  (`RenamedWorkspaceIsFlagged`). `DefaultIsATeamOrg` says that this takes a workspace with that
  name, and `WorkspaceIsFlaggedExactlyWhen` from which reachable states it can happen.
- Users are meant to be moved into the default organisation when they first join it. Somebody
  added by an invitation or by provisioning is not (`InvitedStaysPut`), nor is somebody whose
  login fails between joining and moving (`FailedMoveStaysPut`), and no later login makes up for
  it. `LandsInDefaultExactlyWhen` gives the exact condition on a state.
- Somebody removed between a login's look at the membership and its move is moved all the same
  (`RemovedIsMovedAnyway`).
- The migration checker counts heads but does not look for cycles. `DetachedCyclePasses`
  gives accepted histories in which a revision is unreachable, and `CleanHistoryIsConnected`
  says that all are reachable exactly when every cycle hangs below a revision on no cycle.
- The agentcore script is meant to contain the failure of one issue. It contains the failures
  its request helper reports; a timeout or reset while the answer is awaited or read ends the
  run. `Script.Run` states exactly when a run reaches its end.
- Two overlapping decisions on one device code can both succeed, and a denial after a grant
  leaves the user on a denied code. `DecidesOnceExactlyWhen` and `StaysInStepExactlyWhen` give
  the exact conditions.
- Polls that overlap between rate check and record are all accepted
  (`SimultaneousPollsAreAccepted`). `WindowHoldsFewPerSlot` bounds them by how many overlap.
- `find_latest_auto_close_comment` keeps its first notice when that one's timestamp cannot be
  parsed. `ReportsTheNewestExactlyWhen` says exactly when the answer is the newest notice.
- After a failed API-key creation the device endpoint calls `deny_device_code` to revert the
  authorization; `DenyCannotRevert` shows that this call never has an effect.
- The skill-name pattern ends in `$`, which also matches before a final newline.
  `AcceptsTheGrammarExactlyWhen` states what the validator accepts.
- The rows of the cost report and its total differ by at most half a cent per row, not half a
  cent more (`TotalStaysClose`), and every number of rows can reach that (`BoundIsReached`).

## Model

| member | source | states |
|---|---|---|
| `TokenRefresh.SpentOnceExactlyWhen` | backend/enterprise/storage/auth_token_store.py:102-251 | over every interleaving of loads, stores, lock timeouts, raising callbacks and failing commits, no refresh token is spent twice if and only if no refresh follows a lost one without a row write between |
| `TokenRefresh.CallbackRunsUnderTheLock` | backend/enterprise/storage/auth_token_store.py:166-243 | in every reachable state, also after failed commits, a call whose callback runs holds the lock alone and has read the current row, whose access token is expired |
| `TokenRefresh.ReturnedTokensAreOneVersion` | backend/enterprise/storage/auth_token_store.py:138-243 | all four fields a call returns are those of one committed row version that was current at some moment of that call |
| `TokenRefresh.AtMostOneRefresh` | backend/enterprise/storage/auth_token_store.py:34-57 | from any reachable state, while written tokens outlast the 900-second buffer, all concurrent callers together spend at most one refresh token, and one more for each refresh that is lost |
| `TokenRefresh.LossesBoundRefreshes` | backend/enterprise/storage/auth_token_store.py:138-243 | the same bound by the state the run starts from: none when the row is good for the rest of the run, one otherwise, plus the losses |
| `TokenRefresh.SettledNeverSpends` | backend/enterprise/storage/auth_token_store.py:138-208 | once the row is good for the rest of the run and nobody is past the re-check, a run that loses no refresh spends nothing |
| `TokenRefresh.LostRefreshIsSpentAgain` | backend/enterprise/storage/auth_token_store.py:117-119 | from every reachable state in which a refresh was lost since the last write and the lock is free, any one new call can spend the same token again |
| `TokenRefresh.RunKeepsInv` | backend/enterprise/storage/auth_token_store.py:166-251 | lock ownership, provenance of tokens and of returned rows are kept by every run, lost refreshes included |
| `TokenRefresh.RunKeepsSpentInv` | backend/enterprise/storage/auth_token_store.py:209-243 | in every run the row's refresh token is spent exactly when its refresh was lost since the last write or is about to be committed |
| `TokenRefresh.AuthTokenStore.constructor` | backend/enterprise/storage/auth_token_store.py:24-27 | a new store has no row and satisfies the invariant |
| `TokenRefresh.AuthTokenStore.StoreTokens` | backend/enterprise/storage/auth_token_store.py:59-100 | inserts or overwrites the row as one step of the system, keeping the invariant and making good any lost refresh |
| `TokenRefresh.AuthTokenStore.LoadTokens` | backend/enterprise/storage/auth_token_store.py:102-251 | a whole uninterrupted call, whatever its callback answers and however its commit goes, is a run of the step system and returns nothing, the row as it is, or what callback and commit made of it |
| `TokenRefresh.AuthTokenStore.RefreshUnderLock` | backend/enterprise/storage/auth_token_store.py:166-243 | the slow path releases the lock on every way out, with outcome, row and spent tokens as callback and commit decide |
| `TokenRefresh.AuthTokenStore.RunCallback` | backend/enterprise/storage/auth_token_store.py:209-243 | declining and raising early leave row and tokens alone; raising late spends the token and leaves the row; refreshing spends it and goes on to write |
| `TokenRefresh.AuthTokenStore.WriteRow` | backend/enterprise/storage/auth_token_store.py:217-231 | the whole new row is written unless the commit is rolled back, and the call raises unless it hears of it |
| `DefaultOrg.CreatesAtMostOneOrg` | backend/enterprise/storage/default_org_service.py:158-226 | over every interleaving in which renames of team organisations wait for creating logins, at most one team organisation is created, and none when one existed |
| `DefaultOrg.TeamOrgsAreAccountedFor` | backend/enterprise/storage/default_org_service.py:158-226 | over every interleaving, the team organisations are those of the install and those the service created, no two alike |
| `DefaultOrg.AnotherOrgExactlyWhen` | backend/enterprise/storage/org_service.py:193-303 | from every reachable state with a team organisation, a further one can be created without a rename if and only if the configured name is free and some login is between its empty listing and its insert |
| `DefaultOrg.ReturnedOrgIsTheDefault` | backend/enterprise/storage/default_org_service.py:158-226 | an organisation a login ends with is the flagged one then and in every later state |
| `DefaultOrg.DefaultIsATeamOrg` | backend/enterprise/storage/default_org_service.py:78-80 | over every run in which no personal workspace takes the configured name, the flagged organisation is a team organisation |
| `DefaultOrg.WorkspaceIsFlaggedExactlyWhen` | backend/enterprise/storage/default_org_service.py:204-212 | from a reachable state without a default, a personal workspace can come to be flagged, with no further workspace taking the name, if and only if a login is about to flag one, or one carries the name and some login is or can get on its way to the lookup by name |
| `DefaultOrg.RenamedWorkspaceIsFlagged` | backend/enterprise/storage/org_service.py:541-583 | on any install without a team organisation, renaming any workspace to the configured name and one login make it the default |
| `DefaultOrg.RunKeepsGuarded` | backend/enterprise/storage/default_org_service.py:204-212 | no run without such a rename comes to flag, or to be about to flag, a personal workspace |
| `DefaultOrg.CreatedIsSaidOnce` | backend/enterprise/storage/default_org_service.py:158-226 | at most one login of the whole run is told it created the organisation, and it did create the flagged one, also where others were created |
| `DefaultOrg.RenameIsSafeExactlyWhen` | backend/enterprise/storage/org_service.py:41-53 | after a run whose team renames all waited for creating logins, the next rename leaves at most one creation in all continuations of the same kind if and only if it waits too |
| `DefaultOrg.RenameForks` | backend/enterprise/storage/org_service.py:541-583 | in every state any run has reached, renaming the team organisation of the configured name lets any creating login create another |
| `DefaultOrg.MembershipOnlyGrows` | backend/enterprise/storage/default_org_service.py:83-91 | no login removes anybody or changes a set default: over any run a membership goes only by an administrator's removal |
| `DefaultOrg.MovesOnlyMembers` | backend/enterprise/storage/default_org_service.py:125-155 | a step of a login that changes a user's current organisation is that user's own, goes to the default, and finds the user a member unless they were removed since the login began |
| `DefaultOrg.RemovedIsMovedAnyway` | backend/enterprise/storage/default_org_service.py:142-143 | in every reachable state a user about to be moved can be removed first and is still moved |
| `DefaultOrg.LaterLoginWritesNothing` | backend/enterprise/storage/default_org_service.py:121-128 | with hiding off, no step of the later login of an existing member who is not removed meanwhile changes the database at all |
| `DefaultOrg.HiddenWorkspaceIsLeft` | backend/enterprise/storage/default_org_service.py:130-140 | with hiding on, a member's login that finishes ends outside the personal workspace, unless that is itself the default, whatever anybody does meanwhile short of removing that user or switching them back |
| `DefaultOrg.FirstJoinLandsInDefault` | backend/enterprise/storage/default_org_service.py:121-128 | whoever becomes a member of what is the default in the end, by creating it or by being added at login, is in it once none of their logins runs, unless they were added from outside, a login failed between joining and moving them, or they switched elsewhere |
| `DefaultOrg.LandsInDefaultExactlyWhen` | backend/enterprise/storage/default_org_service.py:121-155 | from every reachable state with a default, a user lands in it in every continuation without these three events if and only if they are not a member, are in it, or some login is about to move them |
| `DefaultOrg.InvitedStaysPut` | backend/enterprise/server/services/org_invitation_service.py:502-510 | in every reachable state, a user added to the default from outside stays where they are, and a later login leaves them there |
| `DefaultOrg.FailedMoveStaysPut` | backend/enterprise/server/routes/auth.py:600-609 | in every reachable state, a login failing between joining and moving its user leaves them where they are, and so does a later login |
| `DefaultOrg.NewUserLandsInDefault` | backend/enterprise/storage/default_org_service.py:121-128 | a new user's login that finishes leaves a user who was a member before it in the default organisation, unless they are removed or switch elsewhere meanwhile |
| `DefaultOrg.CurrentGoesToDefault` | backend/enterprise/storage/default_org_service.py:142-143 | no action changes a user's current organisation but to the default or where the user switches |
| `DefaultOrg.OthersMeetAwait` | backend/enterprise/storage/default_org_service.py:94-226 | whatever all other logins, users and administrators do between two steps of a login keeps the invariant and leaves that login alone |
| `DefaultOrg.RunKeepsInv` | backend/enterprise/storage/default_org_service.py:94-271 | the invariant tying flags, creations and every login's progress is kept by every run |
| `DefaultOrg.DefaultOrgBootstrap.constructor` | backend/enterprise/storage/default_org_service.py:83-91 | any install with unique names and no unfinished logins satisfies the invariant, and the guarded one if no workspace carries the configured name or the flag |
| `DefaultOrg.DefaultOrgBootstrap.Await` | backend/enterprise/storage/default_org_service.py:94-155 | between two operations of a login anything may happen that keeps the invariant, a set default, the users and this login |
| `DefaultOrg.DefaultOrgBootstrap.Try` | backend/enterprise/server/routes/auth.py:600-609 | any database operation may raise, which ends the login where it is |
| `DefaultOrg.DefaultOrgBootstrap.GetDefaultOrg` | backend/enterprise/storage/org_store.py:199-204 | returns the flagged organisation if there is one, never none once one was seen or another login won the flag |
| `DefaultOrg.DefaultOrgBootstrap.ListTeamOrgs` | backend/enterprise/storage/org_store.py:229-236 | none, one and several team organisations lead to creating, adopting and giving up |
| `DefaultOrg.DefaultOrgBootstrap.MarkOrgAsDefault` | backend/enterprise/storage/org_store.py:207-226 | sets the flag, finds another flagged, or raises; success makes the organisation the default, failure leads to the other one or to none |
| `DefaultOrg.DefaultOrgBootstrap.SetFlag` | backend/enterprise/storage/org_store.py:214-226 | the compare-and-set itself, as one step of the login |
| `DefaultOrg.DefaultOrgBootstrap.NameExists` | backend/enterprise/storage/org_service.py:41-53 | a taken name is the clash the service recovers from |
| `DefaultOrg.DefaultOrgBootstrap.PersistOrgWithOwner` | backend/enterprise/storage/org_store.py:496-518 | inserts organisation and owner together, or raises |
| `DefaultOrg.DefaultOrgBootstrap.GetNamedOrg` | backend/enterprise/storage/default_org_service.py:209-212 | only an organisation of the configured name that is not named like a workspace goes on to be flagged |
| `DefaultOrg.DefaultOrgBootstrap.GetOrCreateOrg` | backend/enterprise/storage/default_org_service.py:158-226 | ends with the flagged organisation, with none, or raising; claims creation only for its own organisation; one flagged before is returned; it is a team one where workspaces are kept from the name |
| `DefaultOrg.DefaultOrgBootstrap.AdoptOrg` | backend/enterprise/storage/default_org_service.py:176-186 | adopting a sole team organisation ends with the flagged one unless it raises |
| `DefaultOrg.DefaultOrgBootstrap.CreateOrg` | backend/enterprise/storage/default_org_service.py:194-226 | creation, clash recovery and deferral end with the flagged organisation, with none, or raising |
| `DefaultOrg.DefaultOrgBootstrap.RecoverFromClash` | backend/enterprise/storage/default_org_service.py:204-212 | a name clash ends with the flagged organisation, with the one of that name now flagged, with none, or raising |
| `DefaultOrg.DefaultOrgBootstrap.GetOrgMember` | backend/enterprise/storage/default_org_service.py:234-239 | says whether the user is a member; a member, or a user not to be added, goes on without joining |
| `DefaultOrg.DefaultOrgBootstrap.AddUserToOrg` | backend/enterprise/storage/org_member_store.py:44-74 | reports an addition only when the membership row is there |
| `DefaultOrg.DefaultOrgBootstrap.EnsureMembership` | backend/enterprise/storage/default_org_service.py:229-271 | adds nobody who may not be added; where users are added and nothing fails, the user is a member in the end |
| `DefaultOrg.DefaultOrgBootstrap.ApplyForUser` | backend/enterprise/storage/default_org_service.py:94-155 | does nothing when disabled or without e-mail; otherwise ends with the flagged organisation, none, or raising at any of its operations, among arbitrary concurrent activity |
| `DefaultOrg.DefaultOrgBootstrap.SetCurrentOrg` | backend/enterprise/storage/default_org_service.py:125-155 | the decision and the move together finish the login with the organisation found, or raise |
| `DefaultOrg.DefaultOrgBootstrap.ShouldSetCurrentOrg` | backend/enterprise/storage/default_org_service.py:125-140 | decides as the step system does, from the membership outcome, the new-user and creator flags and the hidden workspace, reading the membership once or twice |
| `DefaultOrg.DefaultOrgBootstrap.IsParkedMember` | backend/enterprise/storage/default_org_service.py:133-140 | the second membership read decides for a user parked in a hidden workspace |
| `DefaultOrg.DefaultOrgBootstrap.UpdateCurrentOrg` | backend/enterprise/storage/user_store.py:825-846 | makes the default the user's current organisation, or raises |
| `Migrations.CheckMigrationIntegrity` | scripts/check_enterprise_migration_integrity.py:57-136 | reports exactly the specified errors, and nothing if and only if the history is clean |
| `Migrations.ReadFile` | scripts/check_enterprise_migration_integrity.py:71-98 | the errors of one file in order, and none if and only if its name, revision and down revision are well formed and agree |
| `Migrations.ReadFiles` | scripts/check_enterprise_migration_integrity.py:67-106 | the loop's multimaps group file names by prefix and by revision, and the referenced set is that of all down revisions |
| `Migrations.FindDuplicates` | scripts/check_enterprise_migration_integrity.py:108-118 | reports a key exactly when several files share it |
| `Migrations.FindUnknownDowns` | scripts/check_enterprise_migration_integrity.py:120-127 | reports exactly the down revisions that no file defines |
| `Migrations.CountHeads` | scripts/check_enterprise_migration_integrity.py:129-134 | reports nothing if and only if the history is empty or has exactly one unreferenced revision |
| `Migrations.NothingReported` | scripts/check_enterprise_migration_integrity.py:57-136 | no error is specified if and only if every file is well formed, revisions are unique, no reference dangles and there is one head |
| `Migrations.HeadOrCycle` | scripts/check_enterprise_migration_integrity.py:129-134 | in any history with one head, every revision is reachable from the head or from a revision on a cycle |
| `Migrations.CleanHistoryIsConnected` | scripts/check_enterprise_migration_integrity.py:57-136 | in an accepted non-empty history all revisions are reachable from the head if and only if every revision on a cycle is reachable from one on no cycle |
| `Migrations.AcyclicHistoryIsConnected` | scripts/check_enterprise_migration_integrity.py:57-136 | in an accepted non-empty acyclic history every revision is reachable from the single head |
| `Migrations.DetachedCyclePasses` | scripts/check_enterprise_migration_integrity.py:129-134 | for any three distinct numeric revisions there is an accepted history whose head does not reach one of them |
| `AutoClose.FindLatestAutoCloseComment` | scripts/auto_close_duplicate_issues.py:169-202 | none exactly when no notice qualifies; otherwise the latest notice in the code's order, with that notice's canonical number |
| `AutoClose.LatestIsLatest` | scripts/auto_close_duplicate_issues.py:169-202 | the scan's choice is a qualifying notice that no later or newer one supersedes |
| `AutoClose.LatestIsUnique` | scripts/auto_close_duplicate_issues.py:169-202 | there is only one such notice |
| `AutoClose.ReportsTheNewestExactlyWhen` | scripts/auto_close_duplicate_issues.py:186-202 | the choice is the newest, last among equals, if and only if the first qualifying notice with a timestamp has one that parses |
| `AutoClose.DecidesToCloseExactlyWhen` | scripts/auto_close_duplicate_issues.py:353-462 | closing is decided if and only if the newest notice is past the cutoff, the author did not vote it down and no person commented after it; the canonical issue is that notice's |
| `AutoClose.ClosesExactlyWhen` | scripts/auto_close_duplicate_issues.py:353-462 | either script plans to close an issue, and to post a closing comment naming an issue, exactly then |
| `AutoClose.Listing` | scripts/auto_close_duplicate_issues.py:101-121 | exactly the open, labelled issues that are not pull requests, each once, in order |
| `AutoClose.DrySummaryMatches` | scripts/auto_close_duplicate_issues.py:347-462 | a dry run reports the same issues with the same decisions as a real one, up to the would-close naming |
| `AutoClose.StillListedWasSkipped` | scripts/auto_close_duplicate_issues.py:353-462 | an issue still listed after a complete run was skipped and is unchanged |
| `AutoClose.SecondRunWritesNothing` | scripts/auto_close_duplicate_issues.py:347-462 | after a complete run on any repository, a second one at the same clock plans no write |
| `AutoClose.RootNeverCommentsUnclosed` | scripts/auto_close_duplicate_issues.py:293-322 | in every admissible write log of the root script an issue has at most as many closing comments as closures |
| `AutoClose.AgentCoreNeverClosesSilently` | agentcore/scripts/auto_close_duplicate_issues.py:294-323 | in every admissible write log of the agentcore script an issue has at least as many closing comments as closures |
| `AutoClose.PrefixKeepsLogOk` | agentcore/scripts/auto_close_duplicate_issues.py:294-323 | stopping after any write of an issue's plan leaves the log admissible |
| `AutoClose.Script.constructor` | scripts/auto_close_duplicate_issues.py:347-352 | a script starts with nothing written |
| `AutoClose.Script.Read` | scripts/auto_close_duplicate_issues.py:52-86 | a reading request succeeds or fails and writes nothing |
| `AutoClose.Script.Send` | scripts/auto_close_duplicate_issues.py:257-271 | a writing request takes the next step of the plan, or fails with or without having done so; a label found gone is no failure |
| `AutoClose.Script.CloseIssueAsDuplicate` | scripts/auto_close_duplicate_issues.py:293-322 | whatever fails, a prefix of the variant's close, comment, unlabel order took effect, all of it on success, none in a dry run |
| `AutoClose.Script.KeepOpen` | scripts/auto_close_duplicate_issues.py:257-344 | the label goes and, after a veto without a note, one note is posted; the reported flags say what was done, and that a label was not removed if it was found gone |
| `AutoClose.Script.FindNewerComments` | scripts/auto_close_duplicate_issues.py:420-435 | finds a comment exactly when a person commented after the notice |
| `AutoClose.Script.ProcessIssue` | scripts/auto_close_duplicate_issues.py:353-462 | whatever fails, a prefix of the specified plan took effect on this issue and nothing elsewhere, and the first failure is the outcome; success means the whole plan and the specified summary line |
| `AutoClose.Script.ActOnNotice` | scripts/auto_close_duplicate_issues.py:389-462 | the same from the point where an old enough notice was found |
| `AutoClose.Script.Turn` | agentcore/scripts/auto_close_duplicate_issues.py:363-474 | one issue's turn in the loop decides the issue as the run found it and keeps the write order, whatever fails |
| `AutoClose.Script.ProcessAll` | agentcore/scripts/auto_close_duplicate_issues.py:363-474 | the loop leaves a prefix of each issue's plan done, and reaches its end if and only if no request failed, or in the agentcore script none failed in a way it does not handle |
| `AutoClose.Script.Run` | agentcore/scripts/auto_close_duplicate_issues.py:348-477 | a dry run changes nothing; with no failure the run equals the specified one; it reaches its end if and only if the listing succeeded and no failure escaped |
| `AutoClose.Script.RunRepeatedly` | agentcore/scripts/auto_close_duplicate_issues.py:363-474 | after every single write of any number of runs on whatever they find, with requests failing anywhere, no agentcore closure lacks its comment and no root comment lacks its closure |
| `DeviceCodes.IntervalAfterSlowDowns` | backend/enterprise/storage/device_code.py:121-131 | after k slow-downs in any poll sequence the interval is min(5 + 5k, 60) |
| `DeviceCodes.AcceptedPollsAreSpaced` | backend/enterprise/storage/device_code.py:91-119 | an accepted poll comes at least the interval then in force after every earlier poll |
| `DeviceCodes.WindowHoldsFew` | backend/enterprise/storage/device_code.py:91-131 | any window of W seconds holds at most W/5 + 1 accepted polls |
| `DeviceCodes.HastyClientIsAcceptedOnce` | backend/enterprise/storage/device_code.py:91-131 | a client whose gaps stay under five seconds has exactly its first poll accepted |
| `DeviceCodes.PatientClientIsNeverSlowed` | backend/enterprise/storage/device_code.py:91-119 | a client that waits a minute after each poll is never slowed down |
| `DeviceCodes.DeviceCode.constructor` | backend/enterprise/storage/device_code.py:20-55 | a new code is pending, without a user, at the five-second interval |
| `DeviceCodes.DeviceCode.Authorize` | backend/enterprise/storage/device_code.py:77-81 | sets status, user and time and nothing else |
| `DeviceCodes.DeviceCode.Deny` | backend/enterprise/storage/device_code.py:83-85 | sets the status and nothing else |
| `DeviceCodes.DeviceCode.Expire` | backend/enterprise/storage/device_code.py:87-89 | sets the status and nothing else |
| `DeviceCodes.DeviceCode.CheckRateLimit` | backend/enterprise/storage/device_code.py:91-119 | announces the very interval that recording this poll will put in force |
| `DeviceCodes.DeviceCode.UpdatePollTime` | backend/enterprise/storage/device_code.py:121-131 | records the poll and raises the interval as specified, leaving the rest of the row alone |
| `DeviceCodes.Find` | backend/enterprise/storage/device_code_store.py:75-89 | the first row with the code, and none exactly when no row has it |
| `DeviceCodes.FirstFree` | backend/enterprise/storage/device_code_store.py:29-73 | the first generated pair that collides with no row |
| `DeviceCodes.RunKeepsSound` | backend/enterprise/storage/device_code_store.py:29-168 | over any serial run codes stay unique, a user is set exactly on authorized rows and never changes, and no row leaves a decided status |
| `DeviceCodes.OperationKeepsSound` | backend/enterprise/storage/device_code_store.py:29-168 | the same for one operation |
| `DeviceCodes.DecidedStaysDecided` | backend/enterprise/storage/device_code_store.py:91-142 | once a code is decided no later authorize or deny of any run succeeds on it |
| `DeviceCodes.DecidedAtMostOnce` | backend/enterprise/storage/device_code_store.py:91-142 | over any run at most one authorize or deny succeeds per user code |
| `DeviceCodes.DenyCannotRevert` | backend/enterprise/server/routes/oauth_device.py:304-310 | denying right after a successful authorize always fails and changes nothing |
| `DeviceRaces.DecidesOnceExactlyWhen` | backend/enterprise/storage/device_code_store.py:101-116 | from any state an arbitrary interleaving has reached, at most one authorize or deny will have succeeded, barring further overlapping checks, if and only if at most one has succeeded or is past its check |
| `DeviceRaces.NoOverlapDecidesOnce` | backend/enterprise/storage/device_code_store.py:91-142 | runs whose passing checks never overlap decide a code at most once |
| `DeviceRaces.OverlapDecidesTwice` | backend/enterprise/storage/device_code_store.py:91-142 | any two decisions that overlap on a pending code both succeed, the later commit prevails, and the user of a grant stays on a code then denied |
| `DeviceRaces.StaysInStepExactlyWhen` | backend/enterprise/storage/device_code.py:77-85 | from any state, as long as no further checks overlap, a user is set exactly while the code is authorized, if and only if that is so now and no refusal past its check meets a user or a grant past its check |
| `DevicePolls.WindowHoldsFewPerSlot` | backend/enterprise/server/routes/oauth_device.py:125-160 | over every interleaving of polls, if each passing check finds fewer than k others in flight, a window of W seconds holds at most k(W/5 + 1) accepted polls |
| `DevicePolls.SimultaneousPollsAreAccepted` | backend/enterprise/server/routes/oauth_device.py:138-160 | any number of polls at one moment are all accepted if they check before the first is recorded |
| `DevicePolls.RunKeepsPollInv` | backend/enterprise/storage/device_code.py:91-131 | in every interleaving a passing check comes at least five seconds after every poll recorded before it |
| `DeviceRaces.RunKeepsRowInv` | backend/enterprise/storage/device_code_store.py:91-142 | after any interleaving the row carries the last decision committed and, if that is a grant, its user |
| `DeviceCodes.DeviceCodeStore.constructor` | backend/enterprise/storage/device_code_store.py:15-16 | a new store holds no code |
| `DeviceCodes.DeviceCodeStore.CreateDeviceCode` | backend/enterprise/storage/device_code_store.py:29-73 | the retry loop inserts the first collision-free pair as a new pending row, or fails without change |
| `DeviceCodes.DeviceCodeStore.AnyMatch` | backend/enterprise/storage/device_code_store.py:61-69 | the uniqueness constraint: a pair is refused exactly when either code exists |
| `DeviceCodes.DeviceCodeStore.Get` | backend/enterprise/storage/device_code_store.py:75-89 | the stored object of the row the lookup specifies |
| `DeviceCodes.DeviceCodeStore.AuthorizeDeviceCode` | backend/enterprise/storage/device_code_store.py:91-116 | succeeds exactly on a pending, unexpired code, and changes only its row |
| `DeviceCodes.DeviceCodeStore.DenyDeviceCode` | backend/enterprise/storage/device_code_store.py:118-142 | succeeds exactly on a pending, unexpired code, and changes only its row |
| `DeviceCodes.DeviceCodeStore.UpdatePollTime` | backend/enterprise/storage/device_code_store.py:144-168 | records the poll in the right row, or fails without change |
| `DeviceCodes.DeviceCodeStore.Poll` | backend/enterprise/server/routes/oauth_device.py:125-160 | one request of the token endpoint extends the row's poll history by exactly one poll, and says accepted and the interval as that history determines |
| `Maintenance.StartedAtMostOnce` | backend/enterprise/run_maintenance_tasks.py:23-76 | across any sequence of starts, ends, crashes and sweeps no task is started twice or becomes pending again |
| `Maintenance.EventKeepsSound` | backend/enterprise/run_maintenance_tasks.py:23-76 | each event keeps a started task out of the pending ones |
| `Maintenance.OneMoreTaken` | backend/enterprise/run_maintenance_tasks.py:34-59 | taking the oldest pending task next keeps the order oldest first and the record of work exact |
| `Maintenance.TaskRunner.constructor` | backend/enterprise/run_maintenance_tasks.py:15-20 | a runner starts on given tasks, nothing called |
| `Maintenance.TaskRunner.SetStaleTaskError` | backend/enterprise/run_maintenance_tasks.py:23-31 | exactly the tasks working for over an hour become errors |
| `Maintenance.TaskRunner.OldestPending` | backend/enterprise/run_maintenance_tasks.py:62-76 | the query finds the oldest pending task, and none only when there is none |
| `Maintenance.TaskRunner.NextTask` | backend/enterprise/run_maintenance_tasks.py:62-76 | with its retries, the oldest pending task, or none only when there is none |
| `Maintenance.TaskRunner.Process` | backend/enterprise/run_maintenance_tasks.py:38-59 | the task is started, its processor called once unless it cannot be decoded, and it ends completed or in error |
| `Maintenance.TaskRunner.RunTasks` | backend/enterprise/run_maintenance_tasks.py:34-59 | ends with nothing pending, having taken every pending task once, oldest first, and as a run of the queue's events |
| `Maintenance.ChunksCover` | backend/enterprise/run_budget_maintenance.py:16-17 | batches hold 1 to size values, all but the last are full, and in order they make up the input |
| `Maintenance.OwnChunk` | backend/enterprise/run_budget_maintenance.py:16-17 | distinct values fall into exactly one batch each |
| `Maintenance.TaskRunner.CountOpenBudgetTasks` | backend/enterprise/run_budget_maintenance.py:26-35 | counts some exactly when a budget task is pending or working |
| `Maintenance.TaskRunner.EnqueueBudgetTasks` | backend/enterprise/run_budget_maintenance.py:20-54 | adds nothing while a budget task is open; otherwise one pending task per batch, and reports all ids |
| `Maintenance.SweepKeepsBatches` | backend/enterprise/run_budget_maintenance.py:57-64 | the stale sweep that follows leaves the new tasks pending and wakes no old budget task |
| `Maintenance.ReachedOnce` | backend/enterprise/run_budget_maintenance.py:20-64 | in any oldest-first order that takes all pending tasks, each id reaches exactly one processor call |
| `Maintenance.CallsAreBatches` | backend/enterprise/run_budget_maintenance.py:20-64 | every budget call of such an order gets one whole batch of the ids |
| `Maintenance.TaskRunner.BudgetMaintenance` | backend/enterprise/run_budget_maintenance.py:57-64 | enqueue, sweep and run together hand every distinct org id to exactly one call, in batches of 1 to 25, and leave nothing pending |
| `SkillNames.NormalizeJoinsFields` | agentcore/scripts/convert_legacy_skills.py:38-49 | for every string the rewrite chain gives the words between hyphens and underscores, without other characters and empty words, joined by single hyphens |
| `SkillNames.NormalizedIsEmptyOrInGrammar` | agentcore/scripts/convert_legacy_skills.py:35-49 | the result is empty or a name of the grammar |
| `SkillNames.FixedPointsAreTheGrammar` | agentcore/scripts/convert_legacy_skills.py:35-49 | exactly the empty string and the names of the grammar are left alone |
| `SkillNames.NormalizeIsIdempotent` | agentcore/scripts/convert_legacy_skills.py:38-49 | normalising twice is normalising once |
| `SkillNames.PatternIsTheGrammar` | agentcore/scripts/convert_legacy_skills.py:35-35 | the pattern's automaton accepts exactly the words joined by single hyphens |
| `SkillNames.ValidateSkillName` | agentcore/scripts/convert_legacy_skills.py:52-65 | an empty name gets only its own error; otherwise each of the other two errors appears exactly when it applies |
| `SkillNames.ValidateNormalized` | agentcore/scripts/convert_legacy_skills.py:38-65 | validating a normalised name never reports the pattern, and nothing exactly for 1 to 64 characters |
| `SkillNames.AcceptsTheGrammarExactlyWhen` | agentcore/scripts/convert_legacy_skills.py:35-65 | the pattern check decides the grammar for names without a final newline, and also accepts any grammar name with one added |
| `Streaming.RunsAreMaximal` | agentcore/examples/01_standalone_sdk/29_llm_streaming.py:43-102 | grouping what was said loses no character, leaves no run empty and no two neighbours of one kind |
| `Streaming.MaximalRunsAreUnique` | agentcore/examples/01_standalone_sdk/29_llm_streaming.py:43-102 | there is only one such grouping, so the runs depend on the text alone |
| `Streaming.TaggedAppend` | agentcore/examples/01_standalone_sdk/29_llm_streaming.py:59-101 | cutting a piece in two says the same |
| `Streaming.RunsAppend` | agentcore/examples/01_standalone_sdk/29_llm_streaming.py:59-101 | a new non-empty piece extends the last run of its kind or opens a new one |
| `Streaming.RenderExtended` | agentcore/examples/01_standalone_sdk/29_llm_streaming.py:59-101 | showing the extended runs appends the text, after a newline and a label where a run opens and no newline at the very start |
| `Streaming.TokenPrinter.constructor` | agentcore/examples/01_standalone_sdk/29_llm_streaming.py:37-40 | a new printer is in no state and has printed nothing |
| `Streaming.TokenPrinter.Write` | agentcore/examples/01_standalone_sdk/29_llm_streaming.py:59-67 | one piece keeps output and state those of the maximal runs of everything said |
| `Streaming.TokenPrinter.WriteCall` | agentcore/examples/01_standalone_sdk/29_llm_streaming.py:83-102 | a tool call says its name, then its arguments |
| `Streaming.TokenPrinter.WriteCalls` | agentcore/examples/01_standalone_sdk/29_llm_streaming.py:80-102 | tool calls are said in order |
| `Streaming.TokenPrinter.OnChoice` | agentcore/examples/01_standalone_sdk/29_llm_streaming.py:52-102 | a delta says reasoning, content and tool calls in this order; a missing delta says nothing |
| `Streaming.TokenPrinter.OnToken` | agentcore/examples/01_standalone_sdk/29_llm_streaming.py:43-102 | after each chunk the output is that of everything said so far, with the chunk's choices in order |
| `Streaming.PrintStream` | agentcore/examples/01_standalone_sdk/29_llm_streaming.py:43-102 | a whole stream prints one label per maximal run, runs separated by one newline, as a function of its text alone |
| `Versions.CompareVersions` | frontend/scripts/detect-node-version.js:5-18 | -1, 1 and 0 exactly when the first is lexicographically earlier, the second is, or neither, over zero-padded components |
| `Versions.OnlyOneHolds` | frontend/scripts/detect-node-version.js:5-18 | the order is asymmetric and excludes equality |
| `Versions.EarlierIsTransitive` | frontend/scripts/detect-node-version.js:5-18 | the order is transitive for versions of any lengths |
| `Versions.SameIsACongruence` | frontend/scripts/detect-node-version.js:5-18 | versions that compare equal are interchangeable in every comparison |
| `Versions.SameExactlyWhenCanonicalsAgree` | frontend/scripts/detect-node-version.js:9-17 | versions compare equal exactly when their components agree once trailing zeros are dropped |
| `Costs.Rounded` | agentcore/scripts/render_examples_report.py:127-135 | the nearest cent, with ties away from zero |
| `Costs.FormatTotalCost` | agentcore/scripts/render_examples_report.py:138-153 | nothing exactly when no cost is readable; otherwise the rounded exact sum of the readable ones |
| `Costs.RowsStayClose` | agentcore/scripts/render_examples_report.py:127-153 | the rows as shown differ from the exact sum by at most half a cent each, and reaching that bound fixes the sign of the sum |
| `Costs.TotalStaysClose` | agentcore/scripts/render_examples_report.py:127-153 | the rows as shown and the total as shown differ by at most half a cent per readable row |
| `Costs.BoundIsReached` | agentcore/scripts/render_examples_report.py:127-153 | for every number of rows some report differs by as many whole cents as that bound allows |

## Left out

- TokenRefresh.AuthTokenStore.LoadTokens: one call without interruption, so without a lock timeout; interleavings are covered by the step system.
- TokenRefresh: encryption of the stored tokens, rows of several users or providers, and providers that hand the same refresh token out again.
- DefaultOrg: deleting organisations or users, team organisations made other than by the service, the LiteLLM key and its clean-up, e-mail content and logging; adding a user succeeds, fails or finds the row by a parameter.
- DefaultOrg.DefaultIsATeamOrg: stated for runs in which no personal workspace takes the configured name, since the service flags one that does.
- DefaultOrg.FirstJoinLandsInDefault: stated for runs without the three events that break it; LandsInDefaultExactlyWhen has the exact condition on a state.
- DefaultOrg.DefaultOrgBootstrap.UpdateCurrentOrg: does not promise that the user is still a member, since they can be removed in between; MovesOnlyMembers says when they are.
- Migrations.CheckMigrationIntegrity: the errors are compared as a set, because their order only serves the reader of the report; the parsing of file names and Python source is data of the model.
- AutoClose: paging and its page limit, HTTP retries, JSON and timestamp parsing, issue numbers that are not numbers, and people acting on an issue while the script is at it.
- DeviceCodes: random code generation. Its theorems are about operations and polls one after the other; DeviceRaces and DevicePolls have the concurrent ones.
- DeviceCodes.HastyClientIsAcceptedOnce: for polls one after the other, like AcceptedPollsAreSpaced and WindowHoldsFew, since overlapping polls can all be accepted.
- Maintenance: the pause between tasks, the result column, several workers at once, and tasks that enqueue tasks.
- Maintenance.TaskRunner.EnqueueBudgetTasks: requires a positive batch size; the program only uses 25.
- Maintenance.TaskRunner.BudgetMaintenance: assumes that the tasks just enqueued decode to their processor.
- SkillNames: what lower-casing does outside lower-case letters, digits and hyphens is a parameter; converting skill files is not modelled.
- Versions: splitting the string and reading its components as numbers; components are numbers, infinities or not-a-number.
- Costs: decimal amounts are exact reals; the 28-digit context, infinities and not-a-number amounts, and dollar formatting are not modelled.
- Rate limiting, key and webhook stores, routers, middleware, the SDK examples other than the streaming one, and the user interface: easy case splits, library behaviour or I/O.
