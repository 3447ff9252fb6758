# Verified models of the marketing dashboard

The repository is a Go API with a Next.js client for a marketing dashboard. This project models the parts
of it that hold state machines, protocols, scanners, codecs and in-place algorithms, and proves what they
keep. Every file is one component; `dafny verify dfyconfig.toml` checks them together.

- **Session** (`Session`, `SessionTokens`, `SessionRequests`, `SessionEffects`): the refresh-token session of one browser
  tab as interleaved steps of page code, timers, the refresh handler, the token table and the network. The
  client shares one in-flight refresh, retries on 401 and keeps one keep-alive timer; the server consumes a
  token and issues the next in two statements.
- **Billing** (`Billing`, `BillingEffects`) and **Revenue**: the subscription table under register, trial,
  subscribe and cancel, with the "current" and "latest" queries that agree only by an invariant; the admin
  dashboard's aggregates over it.
- **Quota** (`Quota`, `QuotaEffects`): the check-then-write limit on SEO projects, with requests, deletes and
  background jobs between the check and the write.
- **Staff** (`Staff`, `StaffGate`, `StaffRuns`, `StaffSuspension`, `StaffEffects`): roles, permissions, the boot
  gate, the last Super Admin, and suspension over whole runs in which checks and saves interleave.
- **Publisher** (`Publisher`, `PublisherEffects`): scheduled publishing, where a worker holds copies of task rows
  while handlers change them.
- **RateLimit**: the per-IP limiter and its bound over arbitrary intervals.
- **BraceScan**, **Cookies**, **CsvExport**, **Base64Url**: two brace scanners, the cookie writer and reader,
  the CSV export and the access token's payload decoding, as inverses or round trips.
- **HtmlSearch**, **Insights**, **TopContent**: tree searches against document order, rule-based insights,
  and an in-place exchange sort.

Code that changes state is written as classes and methods with loops, each proved against a specification
function of the old state; the lemmas are about runs of those functions. The `...Effects` modules say of every
operation when it succeeds, what it then leaves behind and which refusal it gives otherwise.

## Assumptions and disagreements

Handlers are atomic steps over their tables, with these exceptions, whose statements interleave with everything
else: the refresh handler, everywhere; logins and registrations, which test the account in one step and issue
tokens in another; admin requests, which pass the middleware in one step and run in another, and those on a
user, which load the row and check it in one step and save it in a third; a user's own profile update, the
calendar's edits and toggles, and the publishing worker, which load whole rows in one step and save them in
another; and the quota's gate, load and write. Clocks never go backwards, and the start times
of subscription rows are distinct. Fresh tokens are new and hashing is injective on them.
`UPDATE ... ORDER BY starts_at DESC LIMIT 1` updates the one latest row, as written. A `Save` of a row deleted
meanwhile inserts it again. Roles are keyed by their unique, immutable code.

Where the repository's comments and its code disagree, the model follows the code:

- `StartTrial` is said to refuse users with an active or trialing subscription
  (backend/internal/handlers/billing_handlers.go:112-116); the code only asks whether the trial was used, and
  turns a paid row into a trial (`Billing.TrialReplacesPaidPlan`).
- A new due date is said to make the worker pick a task up again
  (backend/internal/handlers/system_handlers.go:407-408); the completed flag is not reset, so it does exactly
  when the task is not completed (`Publisher.RescheduledIsDueIff`, `Publisher.CompletedStaysDone`).
- The limiter is described as a sliding window (backend/internal/middleware/ratelimit.go:12); it is a fixed
  window and admits twice the limit in one window length (`RateLimit.WindowBoundIsTight`).
- The boot gate is relied on for ever (backend/cmd/api/main.go:300). When requests do not overlap, or demotions
  at least do not, it is kept if and only if the Super Admin row is marked as a system role
  (`StaffGate.GateKeptIff`, `StaffRuns.GateKeptServed`). When they do overlap, marked or not, two demotions or
  the save of an older row can leave no Super Admin (`StaffRuns.TwoDemotions`, `StaffRuns.OldRowDemotes`,
  `StaffRuns.BrokenAfterBoot`); over any run what the gate stands for is kept if and only if no save takes the
  role from its only holder or writes a role that is gone (`StaffRuns.GoodThroughoutIff`). The gate does not ask
  for the mark. It is there all the same when the gate runs, because start-up seeds it before
  (backend/internal/db/migrate.go:208-231) and ends the process on an error
  (backend/internal/db/db.go:86-87).
- The backward brace scan does not know escapes, the forward one does (`BraceScan.InverseIff`,
  `BraceScan.EscapedQuoteBreaksInverse`).

## Model

| member | source | states |
|---|---|---|
| Session.TokenRepo.FindByRawToken | backend/internal/repository/token_repo.go:37-46 | a token is found exactly while its row is there, not revoked and not expired |
| Session.TokenRepo.Create | backend/internal/repository/token_repo.go:31-33 | adds one row and changes no other |
| Session.TokenRepo.Delete | backend/internal/repository/token_repo.go:70-72 | removes one row and changes no other |
| Session.ApiClient.Refresh | frontend/lib/api-client.ts:43-50 | the tab becomes what RunRefresh says: a refresh in flight is shared, otherwise one is sent with the cookie of the moment |
| Session.ApiClient.StopSessionKeepAlive | frontend/lib/api-client.ts:52-57 | the pending timer is cancelled and forgotten |
| Session.ApiClient.StartSessionKeepAlive | frontend/lib/api-client.ts:59-76 | cancels the old timer; schedules a new one exactly when the token's expiry can be read |
| Session.ApiClient.Logout | frontend/lib/api-client.ts:78-87 | timer, access token and impersonation cookies all go |
| Session.ApiClient.Attach | frontend/lib/api-client.ts:97-114 | the request interceptor starts the timer only when none is named |
| Session.ApiClient.Unauthorized | frontend/lib/api-client.ts:118-141 | what a 401 does to the tab and to the request, up to the await |
| Session.ApiClient.Refreshed | frontend/lib/api-client.ts:140-154 | what the settled refresh does: resend, log out, or keep the session on a network error |
| SessionTokens.ServerPhase | backend/internal/handlers/auth_handlers.go:163-191 | a post changes phase on the server only as the handler allows: found with a usable token, refused with an unusable one or for a disabled account (its row deleted), let pass when enabled, then the row deleted, then a new one issued |
| SessionTokens.SessionSafety | frontend/lib/api-client.ts:35-76 | in every interleaving from a login at most one refresh is in flight, and outside the rotation's gap the session has exactly one token that the server accepts until it expires, held by the cookie or by the undelivered response, unless the server struck it |
| SessionTokens.NeverPresentsConsumed | frontend/lib/api-client.ts:116-156 | a refresh sent in any run presents a token that only its age can make the server refuse, if and only if the account's row has not been struck: a consumed token is never presented |
| SessionTokens.IssuedForSevenDays | backend/internal/handlers/auth_handlers.go:281-292 | in every run a token issued by a refresh is accepted, while the server has not used it up, for exactly seven days from its issue |
| SessionTokens.OnlyRefreshPosts | frontend/lib/api-client.ts:43-50 | nothing but the shared refresh sends one, only when none is in flight, with the current cookie |
| SessionTokens.StepKeepsTokens | backend/internal/handlers/auth_handlers.go:163-191 | every step of client, server, network and surroundings keeps the invariant tying cookie, in-flight response and table together |
| SessionTokens.RunKeepsTokens | backend/internal/handlers/auth_handlers.go:273-303 | so does every run |
| SessionTokens.RevocationIsFinal | backend/internal/handlers/auth_handlers.go:182-186 | once the server has deleted a disabled user's row it never issues the session another token |
| SessionTokens.DisabledIssuesAtMostOne | backend/internal/handlers/auth_handlers.go:177-190 | from the moment the account is disabled the session is issued at most one more token in any run, and none unless a refresh had already passed the test |
| SessionTokens.LateRotation | backend/internal/handlers/auth_handlers.go:182-190 | and when one had passed it, that token does come |
| SessionTokens.StruckTabPresentsDeadToken | backend/internal/handlers/auth_handlers.go:182-186 | a run in which a tab presents the deleted token, since the refusal leaves its refresh cookie |
| SessionRequests.OneTimerPending | frontend/lib/api-client.ts:52-76 | in every run at most one keep-alive timer is pending, and it is the one the variable names |
| SessionRequests.SendBound | frontend/lib/api-client.ts:116-156 | a logical request is sent at most 3 + k times, k counting the impersonation cookies set while it lived, and waits only on a promise that is pending or settled |
| SessionRequests.StepKeepsReqs | frontend/lib/api-client.ts:116-141 | the measure over (impersonation cookie, retry flag) behind that bound survives every step |
| SessionRequests.ImpersonationReplyKeepsAdmin | frontend/lib/api-client.ts:124-132 | a 401 under impersonation on an unretried request drops the impersonation cookie, resends once and leaves the admin's token, the retry and the refresh token alone |
| SessionRequests.LogoutHasCause | frontend/lib/api-client.ts:134-153 | the access token is cleared only by a second 401 or a refresh that brought no token, and a refresh is refused only for a disabled account or an expired row |
| SessionEffects.ResumeResends | frontend/lib/api-client.ts:140-154 | a request whose refresh has settled is sent again, with the timer restarted, if and only if the refresh brought a token; otherwise it ends, logged out when the answer had no token or was a 401, and with the tab untouched on a network error |
| SessionEffects.RetriedReply | frontend/lib/api-client.ts:134-137 | a second 401 ends the request and clears timer, access token and impersonation cookie |
| SessionEffects.ImpersonatedReply | frontend/lib/api-client.ts:124-132 | a first 401 under impersonation resends, with a timer named before or started now |
| SessionEffects.RefreshingReply | frontend/lib/api-client.ts:138-141 | any other first 401 waits on the one refresh in flight, sent now with the refresh cookie if there was none |
| SessionEffects.OtherReplyAndSend | frontend/lib/api-client.ts:97-123 | any other answer ends the request and changes nothing else; a new request is sent once, with a timer named before or started now |
| SessionEffects.TimerRefreshes | frontend/lib/api-client.ts:67-74 | a pending timer that fires asks for the shared refresh once |
| SessionEffects.TimerRestarts | frontend/lib/api-client.ts:68-71 | and starts the next timer when that has brought a token, else changes nothing |
| SessionEffects.LogoutIff | frontend/lib/api-client.ts:134-153 | of all events exactly a second 401 to a pending request, and a refresh that settled without a token or with a 401, take the access token away |
| SessionEffects.FindsExactly | backend/internal/repository/token_repo.go:37-46 | the refresh handler goes on exactly with a token whose row is there, not revoked and before its expiry |
| SessionEffects.RefreshRenews | backend/internal/handlers/auth_handlers.go:163-191 | a refresh of an enabled account with an accepted token, undisturbed: old row gone, new row and cookie, the answer's access token stored, the promise settled with it |
| SessionEffects.RefreshRefused | backend/internal/handlers/auth_handlers.go:170-175 | a token that is not accepted is answered by a 401 that leaves cookies and table alone |
| SessionEffects.RefreshStrikes | backend/internal/handlers/auth_handlers.go:182-186 | so is one of a disabled account, and its row is gone |
| SessionEffects.RefreshLost | frontend/lib/api-client.ts:150-153 | a lost request settles as a network error, cookies and table unchanged |
| SessionEffects.ExpiredAccessIsRenewed | frontend/lib/api-client.ts:116-149 | in every reachable state of an enabled account with an unexpired refresh token: a request's first 401, undisturbed, ends in its being sent again with a new access token, a new refresh token and a new timer |
| Billing.BillingStore.Find | backend/internal/repository/subscription_repo.go:41-53 | the loop over the table returns the row either query picks |
| Billing.BillingStore.Create | backend/internal/repository/subscription_repo.go:34-36 | appends one row with the next id |
| Billing.BillingStore.UpdateLatest | backend/internal/repository/subscription_repo.go:58-67 | rewrites the user's latest row and nothing else |
| Billing.BillingStore.DoRegister | backend/internal/handlers/auth_handlers.go:64-114 | the whole new state, or the refusal with the state unchanged |
| Billing.BillingStore.DoStartTrial | backend/internal/handlers/billing_handlers.go:117-217 | the same for a trial, with its four refusals and a flag write that may fail |
| Billing.BillingStore.DoSubscribe | backend/internal/handlers/billing_handlers.go:233-291 | the same for a subscription |
| Billing.BillingStore.DoCancel | backend/internal/handlers/billing_handlers.go:296-334 | the same for a cancel |
| Billing.PickIsLast | backend/internal/repository/subscription_repo.go:69-82 | with rows in order of their start a query returns the last eligible row |
| Billing.CurrentIsLatest | backend/internal/repository/subscription_repo.go:41-82 | under the invariant the current row is the latest one, when that one is live |
| Billing.RunKeepsInv | backend/internal/handlers/billing_handlers.go:117-334 | every run keeps it: all of a user's rows but the latest are canceled |
| Billing.QueriesAgree | backend/internal/repository/subscription_repo.go:41-82 | in every run from an empty table the two queries agree for every user |
| Billing.InsertIsLatest | backend/internal/handlers/billing_handlers.go:263-278 | an inserted row becomes its user's latest, other users' stay theirs |
| Billing.RewriteIsLatest | backend/internal/repository/subscription_repo.go:58-67 | so does a rewritten one |
| Billing.Entitlements | backend/internal/services/entitlements/entitlements.go:70-87 | after a successful step the user is entitled to exactly the plan asked for (free after a cancel), and nobody else's entitlement changes |
| Billing.RunEntitles | backend/internal/services/entitlements/entitlements.go:70-87 | over whole runs a user is entitled to what the user's last successful step asked for |
| Billing.OneTrial | backend/internal/handlers/billing_handlers.go:146-209 | a user starts at most one trial, plus one for every flag write that failed |
| Billing.TrialReplacesPaidPlan | backend/internal/handlers/billing_handlers.go:112-116 | with an active subscription a trial still succeeds exactly when none was used, and turns that very row into a trial |
| BillingEffects.SubscribeSucceedsIff | backend/internal/handlers/billing_handlers.go:233-291 | a subscription succeeds if and only if the user is known and the plan is pro_monthly or pro_yearly and in the table, whatever rows there are; each refusal by its error; a live row is changed in place, else one is added, and it is the current one |
| BillingEffects.TrialSucceedsIff | backend/internal/handlers/billing_handlers.go:117-157 | a trial needs an unused flag besides; each refusal by its error |
| BillingEffects.TrialGrants | backend/internal/handlers/billing_handlers.go:159-217 | and leaves the user's latest row trialing on the plan, changed in place or added, the flag set unless that write failed, nobody else's rows touched |
| BillingEffects.CancelSucceedsIff | backend/internal/handlers/billing_handlers.go:296-334 | a cancel succeeds for exactly the known users with a row; the latest row keeps its plan and no row of the user stays live |
| BillingEffects.RegisterSucceedsIff | backend/internal/handlers/auth_handlers.go:64-114 | a registration succeeds for exactly the new users, who then hold a free active row unless that write failed, and no trial behind them |
| BillingEffects.ResolveIff | backend/internal/services/entitlements/entitlements.go:70-87 | in terms of rows: a user is entitled to the plan of a live row, to the free plan without one |
| BillingEffects.RunKeepsIds | backend/internal/repository/subscription_repo.go:34-36 | in every run rows have distinct ids, given out in order |
| BillingEffects.PickIsFirst | backend/internal/repository/subscription_repo.go:41-82 | on any table with distinct ids, equal start dates included, a query returns the first eligible row in its own order |
| Revenue.BreakdownCounts | backend/internal/handlers/admin_handlers.go:1087-1132 | one group per plan code, each with the number of live rows on it, together the active and trialing ones |
| Revenue.PlanCounts | backend/internal/handlers/admin_handlers.go:1119-1122 | the copying loop loses no group |
| Revenue.BreakdownCountsUsers | backend/internal/handlers/admin_handlers.go:1096-1122 | in every run of the handlers the breakdown adds up to the number of users with a current subscription |
| Revenue.ArrShortfall | backend/internal/handlers/admin_handlers.go:1134-1148 | the ARR proxy misses exactly the truncated cents of each active yearly subscription: 0 to 11 each, nothing if and only if there is none or twelve divides the price |
| Quota.ProjectStore.CountSEOByUser | backend/internal/repository/project_repo.go:73-79 | the count of the user's live SEO rows |
| Quota.ProjectStore.GateRequest | backend/internal/handlers/project_handlers.go:84-116 | lets a request pass exactly when its goal is social or the count is below the limit |
| Quota.ProjectStore.LoadForEdit | backend/internal/handlers/project_handlers.go:180-184 | an edit reads its user's live row, or ends |
| Quota.ProjectStore.WriteRequest | backend/internal/handlers/project_handlers.go:127-198 | a create inserts, an edit saves the whole row it read with the new goal |
| Quota.ProjectStore.DeleteProject | backend/internal/repository/project_repo.go:59-61 | soft-deletes the owner's row only |
| Quota.ProjectStore.LoadCopy | backend/internal/workers/health_scorer.go:34-44 | a job reads a live row |
| Quota.ProjectStore.SaveCopy | backend/internal/handlers/project_handlers.go:294-313 | and later writes the whole row back |
| Quota.StepHeldBound | backend/internal/services/entitlements/entitlements.go:101-127 | only a gate that saw room, or a background save that revives a row, adds to sites plus pending requests |
| Quota.QuotaBound | backend/internal/handlers/project_handlers.go:118-200 | with at most n requests between gate and write, sites plus pending never exceed max(start, L - 1 + n) plus the number of revivals |
| Quota.HeldWithinIff | backend/internal/handlers/project_handlers.go:118-200 | with at most n requests between gate and write, sites plus pending stay within L - 1 + n at every moment if and only if no background save revives a row when they have reached it |
| Quota.SequentialQuota | backend/internal/handlers/project_handlers.go:159-200 | so with one request at a time whoever starts within the limit stays within it at every moment, under edits and deletes too, if and only if no background save revives a row at the limit |
| Quota.BoundIsTight | backend/internal/services/entitlements/entitlements.go:118-126 | for every limit and width a run without revivals ends with exactly L - 1 + n sites |
| Quota.SaveGrowsIffRevives | backend/internal/workers/health_scorer.go:52-62 | a background save lets the count grow if and only if it brings back a row that was edited to social or deleted meanwhile |
| Quota.StaleSaveExceedsLimit | backend/internal/handlers/project_handlers.go:294-313 | a sequential run in which such a save puts two sites on a plan for one |
| QuotaEffects.CreateTakesSite | backend/internal/handlers/project_handlers.go:84-135 | a create, undisturbed, adds the project exactly when its goal is social or the user is below the limit; seo and both take a site, social none; nobody else's count changes |
| QuotaEffects.EditMovesSite | backend/internal/handlers/project_handlers.go:159-200 | an edit, undisturbed, gives exactly the user's own live project the new goal, if the gate has room for it, and the count follows |
| QuotaEffects.DeleteFreesSite | backend/internal/repository/project_repo.go:59-61 | a delete of the owner's live project frees the site it took, and changes no other row or count |
| QuotaEffects.DeleteMakesRoom | backend/internal/handlers/project_handlers.go:84-116 | so at the limit a create is refused before a delete and succeeds after it |
| QuotaEffects.JobChangesNothing | backend/internal/workers/health_scorer.go:34-62 | a background job that nothing disturbs changes no row's goal or deletion |
| Staff.UniqStrings | backend/internal/handlers/admin_roles.go:299-311 | the loop computes the trimmed list without blanks and repetitions |
| Staff.StaffStore.SeedCatalog | backend/internal/db/migrate.go:189-246 | permission rows, the system role and all its grants are there, nothing else changes |
| Staff.StaffStore.CatalogReady | backend/internal/db/migrate.go:251-289 | true exactly when the role has the whole catalog and somebody holds it |
| Staff.StaffStore.LoadCatalogPerms | backend/internal/handlers/admin_roles.go:244-276 | the cleaned list and the checks in their order, with their errors |
| Staff.StaffStore.ReplaceRolePerms | backend/internal/handlers/admin_roles.go:278-289 | the role has exactly the given permissions, other roles keep theirs |
| Staff.StaffStore.DoCreateRole | backend/internal/handlers/admin_roles.go:84-138 | the whole new state, or the refusal with nothing changed |
| Staff.StaffStore.DoUpdateRole | backend/internal/handlers/admin_roles.go:141-201 | the same for an update |
| Staff.StaffStore.DoDeleteRole | backend/internal/handlers/admin_roles.go:204-233 | the same for a delete |
| Staff.StaffStore.PrepareUpdate | backend/internal/handlers/admin_handlers.go:228-274 | the checks of a role change, with the last-Super-Admin refusal: the row to be saved, or the refusal with nothing changed |
| Staff.StaffStore.PrepareSuspend | backend/internal/handlers/admin_handlers.go:359-376 | the same for a suspension |
| Staff.StaffStore.PrepareUnsuspend | backend/internal/handlers/admin_handlers.go:396-406 | the same for its end |
| Staff.StaffStore.SaveRow | backend/internal/repository/user_repo.go:55-57 | a row held by a request is saved whole, whatever the table says by then |
| Staff.StaffStore.DoUpdateUser | backend/internal/handlers/admin_handlers.go:216-288 | uninterrupted, a role change is its checks and its save: the whole new state, or the refusal with nothing changed |
| Staff.StaffStore.DoSuspendUser | backend/internal/handlers/admin_handlers.go:353-387 | the same for a suspension |
| Staff.StaffStore.DoUnsuspendUser | backend/internal/handlers/admin_handlers.go:390-416 | the same for its end |
| Staff.StaffStore.RegisterUser | backend/internal/handlers/auth_handlers.go:85-113 | a new owner, and tokens to be issued to it |
| Staff.StaffStore.LoginUser | backend/internal/handlers/auth_handlers.go:121-141 | a login passes with its password and an enabled account only |
| Staff.StaffStore.FindByRawToken | backend/internal/handlers/auth_handlers.go:170-175 | a refresh goes on only with a stored token |
| Staff.StaffStore.CheckDisabled | backend/internal/handlers/auth_handlers.go:177-186 | an unknown user ends it, a disabled one ends it and loses the token, an enabled one passes |
| Staff.StaffStore.DeleteOld | backend/internal/handlers/auth_handlers.go:188-189 | a refresh that passed gives up its token |
| Staff.StaffStore.IssueNew | backend/internal/handlers/auth_handlers.go:273-303 | and only then a new one is issued |
| Staff.StaffStore.DoRefresh | backend/internal/handlers/auth_handlers.go:163-191 | uninterrupted, the handler is those four statements in order |
| Staff.StaffStore.LoadOwnRow | backend/internal/handlers/auth_handlers.go:257-266 | a user's own row is loaded, to be saved whole later |
| StaffGate.UniqIs | backend/internal/handlers/admin_roles.go:299-311 | each non-blank trimmed string once, and nothing else |
| StaffGate.PermissionListAccepted | backend/internal/handlers/admin_roles.go:244-276 | a list is accepted if and only if it names admin.access and, blanks and repetitions apart, only stored catalog codes; the role then gets exactly those |
| StaffGate.GateKeptIff | backend/internal/db/migrate.go:251-289 | a database that passes the gate passes it after every sequence of admin handlers run one after the other, whoever may assign roles, if and only if the Super Admin row is a system role |
| StaffGate.SeedMakesReady | backend/internal/db/migrate.go:208-246 | seeding sets that flag and makes a database ready exactly when somebody has the admin role |
| StaffGate.SeedMakesGood | backend/internal/db/migrate.go:189-246 | a first boot establishes the whole invariant |
| StaffGate.ApplyKeepsGood | backend/internal/handlers/admin_roles.go:84-289 | every admin handler that nothing disturbs keeps it |
| StaffGate.AwakeKeptIff | backend/internal/handlers/admin_handlers.go:251-272 | with no Super Admin suspended, an undisturbed handler keeps it so if and only if it is not a successful promotion of a suspended user |
| StaffRuns.StepGoodIff | backend/internal/handlers/admin_handlers.go:264-285 | a step of any kind keeps the invariant if and only if it is not a save that takes the role from its only holder or writes a role that is gone |
| StaffRuns.GoodThroughoutIff | backend/cmd/api/main.go:300-313 | over runs with saves at any distance from their checks: Super Admin always has the full catalog and a holder, every user's role is owner, viewer or an existing role, and custom roles have admin.access and only catalog permissions, if and only if there is no such save |
| StaffRuns.GuardMeans | backend/internal/middleware/require_permission.go:80-109 | after any such run the guard passes a Super Admin for every catalog permission, owners and viewers for none, and a custom role for exactly its granted ones; and an any-of guard passes exactly with one of them |
| StaffRuns.GateKeptServed | backend/internal/handlers/admin_handlers.go:264-282 | from a table that passes the gate, with a holder who can act and no save pending: every run of served requests in which at most one Super Admin at a time is about to lose the role passes it, if and only if the row is a system role |
| StaffRuns.TwoDemotions | backend/internal/handlers/admin_handlers.go:267-285 | two demotions, both checked before either is saved, leave no Super Admin |
| StaffRuns.OldRowDemotes | backend/internal/handlers/auth_handlers.go:257-266 | so does the save of a profile loaded before its user was promoted and the other Super Admin demoted |
| StaffRuns.BrokenAfterBoot | backend/internal/db/migrate.go:189-246 | both happen from a database that seeding has just made good |
| StaffRuns.AwakeThroughoutIff | backend/internal/handlers/admin_handlers.go:274-285 | over runs: no Super Admin is ever suspended if and only if no save writes a suspended Super Admin |
| StaffRuns.VigilantThroughoutIff | backend/internal/handlers/admin_handlers.go:251-272 | traced to the checks: none is ever suspended or about to be if and only if no promotion of a suspended user ever passes its checks |
| StaffRuns.SomeoneCanAct | backend/internal/handlers/admin_handlers.go:353-372 | without either kind of save a Super Admin who is not suspended is there after every run |
| StaffSuspension.AdminRoutesAreNotStop | backend/cmd/api/main.go:328-342 | no route of a table-changing admin handler is mistaken for it |
| StaffSuspension.StepPast | backend/internal/handlers/auth_handlers.go:138-160 | while a user is suspended no login or refresh passes the test, and every token pair issued uses up one passed before |
| StaffSuspension.StepEntered | backend/internal/middleware/reject_disabled.go:46-76 | nor does an admin request acting for the user enter its handler |
| StaffSuspension.SuspendedUntil | backend/internal/handlers/admin_handlers.go:390-409 | a suspension ends exactly when an enabled row of the user is saved |
| StaffSuspension.SuspensionEndsIff | backend/internal/handlers/admin_handlers.go:353-416 | it can end without an unsuspend of the user, in some run, if and only if a handler or the user's own update holds a row of the user read before it |
| StaffSuspension.SuspensionHolds | backend/internal/handlers/admin_handlers.go:353-416 | until it ends, whatever runs: the user stays suspended, and the token pairs issued plus those still possible are exactly the requests past the test when it came; the same for admin requests already past the middleware |
| StaffSuspension.TokensAfterSuspensionIff | backend/internal/handlers/auth_handlers.go:138-191 | a suspended user can still be issued tokens if and only if a login, registration or refresh had passed the test when the suspension came |
| StaffSuspension.SuspendedReachesOnlyStop | backend/internal/middleware/reject_disabled.go:29-86 | after a suspension and any run that does not end it, a request acting for the user passes the middleware if and only if it stops an impersonation |
| StaffSuspension.OnlyHolderMaySleep | backend/internal/handlers/admin_handlers.go:251-272 | the only Super Admin left can be a suspended user: promoted while suspended, then the other one demoted |
| StaffEffects.SuspendSuspends | backend/internal/handlers/admin_handlers.go:353-387 | a suspension succeeds if and only if the user exists, is enabled and holds no system role; then the user is suspended in the same role and nobody else changes; each refusal by its error |
| StaffEffects.UnsuspendEnables | backend/internal/handlers/admin_handlers.go:390-416 | an unsuspend succeeds exactly on a suspended user, who is then enabled |
| StaffEffects.UpdateGivesRole | backend/internal/handlers/admin_handlers.go:251-285 | a role change succeeds exactly with users.role.assign, to a role that exists, not from the only holder of a system role; the user then has that role and the same suspension; each refusal by its error |
| StaffEffects.SystemRoleIsAdmin | backend/internal/handlers/admin_handlers.go:1574-1583 | under the invariant the system role is exactly Super Admin's |
| StaffEffects.SuspensionTakesEffect | backend/internal/handlers/admin_handlers.go:353-416 | over the steps of the system: checks and save of a suspension or its end bring it about |
| StaffEffects.UndisturbedIsApply | backend/internal/handlers/admin_handlers.go:216-416 | every admin request that entered, undisturbed, has exactly the effect of its handler run in one go |
| StaffEffects.OwnUpdateKeepsRow | backend/internal/handlers/auth_handlers.go:257-266 | a user's own update, undisturbed, leaves role and suspension alone |
| StaffEffects.ListIff | backend/internal/handlers/admin_roles.go:244-276 | a cleaned list gives the role exactly its codes, or the error of an unknown code, or of a missing admin.access |
| StaffEffects.CreateRoleGrants | backend/internal/handlers/admin_roles.go:84-138 | a role is created exactly under a free, well-shaped, unreserved code with a name and an acceptable list, custom and with exactly those permissions; other roles keep theirs; each refusal by its error |
| StaffEffects.UpdateRoleReplaces | backend/internal/handlers/admin_roles.go:141-201 | an update of a custom role leaves it exactly the listed permissions, revoking all others |
| StaffEffects.DeleteRoleRemoves | backend/internal/handlers/admin_roles.go:204-233 | a custom role that nobody has, and no other, is deleted with all its grants |
| StaffEffects.CodeShapeIs | backend/internal/handlers/admin_roles.go:15 | a role code is a lower-case letter and 1 to 40 more of letters, digits and underscores |
| StaffEffects.EnterIff | backend/cmd/api/main.go:328-342 | an admin request reaches its handler exactly with an own token of an enabled user whose role has admin.access and the permission named by the route |
| StaffEffects.BossEnters | backend/internal/middleware/require_permission.go:80-91 | an enabled Super Admin gets every one of them through |
| StaffEffects.StopAlwaysPasses | backend/internal/middleware/reject_disabled.go:80-86 | a request to stop an impersonation passes for every user and id, whoever is suspended |
| StaffEffects.PassesIff | backend/internal/middleware/reject_disabled.go:29-76 | every other request passes exactly with an enabled user, and under impersonation an enabled admin behind it |
| StaffEffects.LoginIssues | backend/internal/handlers/auth_handlers.go:121-150 | a login, undisturbed, stores a token for its user exactly with the password and an enabled account, else it changes nothing |
| StaffEffects.RegisterIssues | backend/internal/handlers/auth_handlers.go:85-113 | a registration, undisturbed, adds an enabled owner with a token |
| StaffEffects.RefreshReplaces | backend/internal/handlers/auth_handlers.go:163-191 | a refresh, undisturbed, replaces an enabled user's token by one of the same user, uses up a disabled user's, and leaves any other alone |
| StaffEffects.SeedOnce | backend/internal/db/migrate.go:189-246 | seeding again changes nothing, and seeding leaves users and custom roles alone |
| Publisher.Calendar.CreateEvent | backend/internal/handlers/system_handlers.go:255-278 | a new task is scheduled, not completed, without error |
| Publisher.Calendar.LoadTask | backend/internal/handlers/system_handlers.go:311-315 | a handler loads an existing row |
| Publisher.Calendar.UpdateEvent | backend/internal/handlers/system_handlers.go:357-417 | the loaded row is saved whole: empty fields stay; a due date resets status and error and nothing more |
| Publisher.Calendar.ToggleTask | backend/internal/handlers/system_handlers.go:115-124 | the loaded row is saved whole with its completed flag flipped |
| Publisher.Calendar.DeleteEvent | backend/internal/handlers/system_handlers.go:422-440 | deletes the row |
| Publisher.Calendar.LoadDue | backend/internal/repository/task_repo.go:37-44 | the query's list, by a loop that inserts in order |
| Publisher.FindDueExact | backend/internal/repository/task_repo.go:37-44 | each due, scheduled, uncompleted row once and unchanged, earliest due date first, nothing else |
| Publisher.Calendar.MarkPublishFailure | backend/internal/workers/calendar_publisher.go:183-190 | the copy is saved as failed with its message |
| Publisher.Calendar.ProcessNext | backend/internal/workers/calendar_publisher.go:77-180 | the loop's body: skipped, refused in the order of the checks, failed or published, and the copy saved |
| Publisher.SentIff | backend/internal/workers/calendar_publisher.go:78-167 | a task is published exactly when project, Meta token and its platform's own conditions are there and the platform reports no error; skipped exactly for an unknown project or platform |
| Publisher.Calendar.RunPass | backend/internal/workers/calendar_publisher.go:71-181 | a whole pass is the scan followed by one step for every due task, with any outcomes, failed saves and delays |
| Publisher.PublishedOnTime | backend/internal/workers/calendar_publisher.go:169-173 | in every run a published task has no error and a past publish time not before its due date, and a scheduled one no error |
| Publisher.AttemptsBound | backend/internal/workers/calendar_publisher.go:71-190 | a task is attempted at most once, plus once per reschedule, per handler's save that restores a row attempted or deleted meanwhile, and per result that could not be saved |
| Publisher.RestoredRunsAgain | backend/internal/handlers/system_handlers.go:311-417 | an edit without a date, loaded before the worker published the task and saved after, puts it into the next pass |
| Publisher.RetryIff | backend/internal/workers/calendar_publisher.go:183-190 | a task that failed, was published or was deleted, and is not in the running pass, can be attempted again without a reschedule if and only if some handler loaded it while it was scheduled with a date and has yet to save it |
| Publisher.NoRetryUnlessReopened | backend/internal/workers/calendar_publisher.go:183-190 | and in every run that attempts such a task, a reschedule or a restoring save came before |
| Publisher.MayRetryIff | backend/internal/repository/task_repo.go:37-44 | for any task: without a reschedule an attempt can come if and only if its row or a loaded one is scheduled and dated, or the worker holds it for a supported platform |
| Publisher.MayRunIff | backend/internal/repository/task_repo.go:37-44 | the same when no handler saves the task at all: if and only if the row is scheduled, dated, uncompleted and supported, or the worker holds it so |
| Publisher.RescheduledIsDueIff | backend/internal/handlers/system_handlers.go:402-411 | a new due date makes a task due again if and only if it is not completed |
| Publisher.CompletedStaysDone | backend/internal/handlers/system_handlers.go:402-411 | so a published task is never published again, however often rescheduled, unless a save leaves it not completed |
| Publisher.UncompletedRunsIff | backend/internal/handlers/system_handlers.go:115-124 | and such a save can bring another attempt, with no further save, if and only if the row it writes is uncompleted, scheduled, dated and supported |
| Publisher.EarlyIffMoved | backend/internal/repository/task_repo.go:37-44 | in every run an attempt comes before the table's due date if and only if the last handler to save the task since the scan of this pass wrote a date still to come; never before the date the worker read |
| Publisher.LateRescheduleIsLost | backend/internal/workers/calendar_publisher.go:169-174 | and then the task is published now and the save restores the old date |
| PublisherEffects.FailureCanBeRescheduled | backend/internal/workers/calendar_publisher.go:183-190 | a failed attempt leaves the task as it was read, failed with its message and not completed, and after a reschedule the worker can try it again |
| PublisherEffects.PublishedIsDone | backend/internal/workers/calendar_publisher.go:169-173 | a publication leaves the task as it was read, published, completed, without error, at this moment, and no date alone brings it back |
| PublisherEffects.UnsavedRunsAgain | backend/internal/workers/calendar_publisher.go:76-86 | a task that was skipped or could not be saved is tried again while its row allows it |
| PublisherEffects.TurnTakesNext | backend/internal/workers/calendar_publisher.go:76-180 | a turn takes the next task off the list and can change its row only |
| PublisherEffects.ScanOnlyReads | backend/internal/workers/calendar_publisher.go:71-75 | a scan changes no row and finds exactly what is due |
| PublisherEffects.MessageNamesCause | backend/internal/workers/calendar_publisher.go:94-163 | the message of a refusal names the first condition that fails, in the worker's order |
| PublisherEffects.CreatedMayRunIff | backend/internal/handlers/system_handlers.go:255-278 | a new task can be attempted if and only if it has a date and a supported platform |
| PublisherEffects.EditChanges | backend/internal/handlers/system_handlers.go:357-417 | an edit, undisturbed, changes the fields given, reschedules with a date, and leaves the rest of the row and every other row alone |
| PublisherEffects.ToggleTwice | backend/internal/handlers/system_handlers.go:115-124 | a toggle flips the flag and nothing else; two change nothing |
| PublisherEffects.DeletedIsGone | backend/internal/handlers/system_handlers.go:422-440 | a deleted task is gone for every handler and for the worker, other rows stay |
| RateLimit.RateLimiter.Allow | backend/internal/middleware/ratelimit.go:30-42 | the limiter's new buckets and its answer |
| RateLimit.Isolation | backend/internal/middleware/ratelimit.go:30-42 | an IP's answers are those of a lone bucket run on its own calls, whatever other IPs do |
| RateLimit.AllowedByResets | backend/internal/middleware/ratelimit.go:36-41 | what is left of the window plus the windows that can begin bounds the calls allowed |
| RateLimit.IntervalBound | backend/internal/middleware/ratelimit.go:30-42 | in a closed interval of length d > 0 at most limit * (ceil(d / window) + 1) calls of an IP are allowed |
| RateLimit.WindowBound | backend/internal/middleware/ratelimit.go:30-42 | hence at most twice the limit in one window length |
| RateLimit.WindowBoundIsTight | backend/internal/middleware/ratelimit.go:36-41 | and that is attained for every limit and window |
| RateLimit.RefusedOnlyWhenBusy | backend/internal/middleware/ratelimit.go:30-42 | with a positive limit a call is allowed whenever at most limit of its IP's calls, itself included, lie within the last window, whatever other IPs do |
| RateLimit.PauseLetsIn | backend/internal/middleware/ratelimit.go:36-41 | so whoever paused for longer than the window is let in again |
| BraceScan.MatchBrace | frontend/_tools/nav_mode_counts/main.go:240-268 | the loop stops where the forward scan stops, or gives -1 |
| BraceScan.FindOpenBraceBefore | frontend/_tools/nav_mode_counts/main.go:214-238 | the loop stops where the backward scan stops, or gives -1 |
| BraceScan.MatchFindsPartner | frontend/_tools/nav_mode_counts/main.go:240-268 | from any opening brace of well-formed text the forward scan returns its grammar partner, escapes in literals included |
| BraceScan.BackSkips | frontend/_tools/nav_mode_counts/main.go:214-238 | the backward scan passes over well-formed text whose literals it leaves as it entered them |
| BraceScan.QuoteFreeIsNeutral | frontend/_tools/nav_mode_counts/main.go:219-224 | literals without their own quote are such |
| BraceScan.FindsInnermost | frontend/_tools/nav_mode_counts/main.go:214-238 | from any position outside the literals of such text the backward scan returns the innermost group around it, or -1 exactly when there is none |
| BraceScan.GroupsNest | frontend/_tools/nav_mode_counts/main.go:130-140 | a group that opens inside another closes inside it |
| BraceScan.ScansAreInverse | frontend/_tools/nav_mode_counts/main.go:214-268 | on such text the two scans invert each other on every group |
| BraceScan.InverseIff | frontend/_tools/nav_mode_counts/main.go:214-268 | on any well-formed text, escapes included, they invert each other on a group if and only if the backward scan leaves the text inside it outside literals and with no brace open |
| BraceScan.LiteralInverseIff | frontend/_tools/nav_mode_counts/main.go:219-224 | on a group that holds one literal, if and only if the backward scan leaves the literal's body as it entered it |
| BraceScan.EscapedQuoteBreaksInverse | frontend/_tools/nav_mode_counts/main.go:219-224 | one escaped quote breaks it, two cancel out |
| BraceScan.UnclosedHasNone | frontend/_tools/nav_mode_counts/main.go:240-268 | an opened group that is not closed has no partner |
| BraceScan.QuotesHideBraces | frontend/_tools/nav_mode_counts/main.go:214-268 | exactly the three kinds of quotes hide a brace, from both scans |
| BraceScan.TitleWithin | frontend/_tools/nav_mode_counts/main.go:109-131 | a title starts outside the literals and no group closes inside it |
| BraceScan.ParseGroups | frontend/_tools/nav_mode_counts/main.go:111-161 | on any source the cuts run from brace to brace one after the other and the remainder shrinks; on well-formed text with such literals every cut is the innermost group around its title after the previous cut and contains it, and the loop ends only when nothing is left to cut |
| Cookies.Document.SetAuthCookie | frontend/lib/auth-cookie.ts:48-52 | assigns the encoded pair with its attributes to the jar |
| Cookies.Document.ClearAuthCookie | frontend/lib/auth-cookie.ts:54-57 | assigns an empty pair with the epoch as expiry |
| Cookies.Document.ReadCookie | frontend/lib/auth-cookie.ts:110-120 | the first matching piece of the cookie string, decoded; null without one, a URIError when it does not decode |
| Cookies.EncodeRoundTrip | frontend/lib/auth-cookie.ts:50 | decodeURIComponent inverts encodeURIComponent on every string |
| Cookies.OptionsExpire | frontend/lib/auth-cookie.ts:42-46 | the expiry date the writer sends is the one the browser finds |
| Cookies.WriteStores | frontend/lib/auth-cookie.ts:48-52 | with a date ahead the browser stores exactly the pair that was meant, whatever the value contains |
| Cookies.ClearRemoves | frontend/lib/auth-cookie.ts:54-57 | clearing evicts exactly the writer's own cookie of that name |
| Cookies.ReadsCookieByCookie | frontend/lib/auth-cookie.ts:113-118 | joining with "; ", splitting at ";" and trimming gives back the cookies one by one |
| Cookies.ReadAfterWrite | frontend/lib/auth-cookie.ts:48-120 | every written value is read back exactly if and only if no cookie the writer cannot replace answers before it |
| Cookies.OtherPathShadows | frontend/lib/auth-cookie.ts:110-120 | a cookie of the same name under another path is such a one |
| Cookies.OnlyItsName | frontend/lib/auth-cookie.ts:112-116 | a cookie answers reads of its own name and of no other, names that are prefixes of one another included |
| Cookies.WriteKeepsOthers | frontend/lib/auth-cookie.ts:48-52 | writing one name changes the reading of no other |
| Cookies.ReadAfterClear | frontend/lib/auth-cookie.ts:54-57 | clearing forgets the value if and only if no cookie the writer cannot remove answers for the name; every other name reads as before |
| Cookies.ImpersonationSparesAdmin | frontend/lib/auth-cookie.ts:76-90 | setting and clearing the impersonation cookie leaves the admin's token readable unchanged |
| Cookies.OptionsAre | frontend/lib/auth-cookie.ts:42-46 | beside the pair the writer sends exactly the path, the same-site policy and the date |
| Cookies.SentAsItIs | frontend/lib/auth-cookie.ts:50 | letters, digits and the nine marks of encodeURIComponent are sent as they are, and nothing else |
| Cookies.MalformedThrows | frontend/lib/auth-cookie.ts:116 | text without a percent sign decodes to itself; a percent sign without two hex digits makes decoding fail |
| Cookies.UndecodableRead | frontend/lib/auth-cookie.ts:110-120 | and the read throws when such a cookie answers it |
| CsvExport.EscapeCSV | backend/internal/handlers/admin_handlers.go:457-467 | quotes exactly the fields with a comma, quote or line feed |
| CsvExport.WriteLine | backend/internal/handlers/admin_handlers.go:443-451 | nine cells, of which email and name are escaped |
| CsvExport.ExportUsers | backend/internal/handlers/admin_handlers.go:422-454 | the header and one line per user, in order |
| CsvExport.EscapedRoundTrip | backend/internal/handlers/admin_handlers.go:457-467 | an escaped field is read back exactly, whatever it holds |
| CsvExport.BareFieldNeedsPlain | backend/internal/handlers/admin_handlers.go:446-451 | an unescaped field is read back exactly if and only if it has no comma, quote or line feed |
| CsvExport.LineIsRow | backend/internal/handlers/admin_handlers.go:443-451 | for validated users escaping two fields of nine is as good as escaping all |
| CsvExport.ExportRoundTrip | backend/internal/handlers/admin_handlers.go:422-467 | a reader by section 2 of RFC 4180 with LF recovers every field of every exported user |
| CsvExport.NumbersRoundTrip | backend/internal/handlers/admin_handlers.go:443-451 | ids and login counts are recovered as numbers, signs included, and no two ids share a cell |
| Base64Url.BytesRoundTrip | frontend/lib/access-token.ts:8-10 | the byte grouping inverts the sextet grouping |
| Base64Url.DecodeRoundTrip | frontend/lib/access-token.ts:8-10 | replacing, padding and atob invert unpadded base64url on every byte string |
| Base64Url.ExpiryRoundTrip | frontend/lib/access-token.ts:4-17 | the expiry is the one the issuer's payload bytes hold, whatever header and signature |
| Base64Url.ThreePartsOnly | frontend/lib/access-token.ts:6-7 | a token with an expiry consists of exactly three dot-free parts |
| Base64Url.PayloadDecodesIff | frontend/lib/access-token.ts:8-10 | a payload without spaces and padding decodes if and only if it has only characters of the alphabets and a possible length |
| HtmlSearch.ReadAttrs | backend/internal/services/seo_crawler.go:467-478 | of repeated attributes the last one wins, the name lower-cased |
| HtmlSearch.FindAttr | backend/internal/services/seo_crawler.go:563-570 | finds an attribute exactly when there is one |
| HtmlSearch.SearchRight | backend/internal/services/seo_crawler.go:455-466 | the recursion returns a first non-empty offer in document order, or "" exactly when all offers are empty |
| HtmlSearch.SearchFindsFirst | backend/internal/services/seo_crawler.go:455-466 | for any kind of node the recursion returns exactly the first non-empty value in document order, where nothing below a matching node counts |
| HtmlSearch.ExtractorsFindFirst | backend/internal/services/seo_crawler.go:455-548 | so do extractTitle, extractMetaContent, extractMetaProperty and extractLinkHref |
| HtmlSearch.FlattenIsDocumentOrder | backend/internal/services/seo_crawler.go:513-526 | the flattened tree holds every node once, in document order |
| HtmlSearch.ListsAreWholeDocument | backend/internal/services/seo_crawler.go:513-579 | extractH1s lists all non-empty h1 texts of the flattened tree, and the image count is the count over it |
| HtmlSearch.OffersAre | backend/internal/services/seo_crawler.go:455-548 | what the four extractors look for, attribute by attribute |
| HtmlSearch.ImageCountIs | backend/internal/services/seo_crawler.go:559-579 | the image count is the number of img elements of the document with no alt attribute; an empty one counts as present |
| HtmlSearch.TextInOrder | backend/internal/services/seo_crawler.go:550-557 | but for trimming, an element's text is that of all its text nodes in document order |
| HtmlSearch.H1sAre | backend/internal/services/seo_crawler.go:513-526 | the listed h1 texts are exactly the non-empty ones |
| Insights.ComputeSignals | backend/internal/workers/insight_generator.go:140-181 | totals, rates and growth of the metric lists |
| Insights.Generate | backend/internal/workers/insight_generator.go:185-361 | the fired rules' insights, numbered in order, the cut included |
| Insights.OneToFive | backend/internal/workers/insight_generator.go:185-361 | between one and five insights with priorities 1..n, so the cut drops nothing, and one for every rule that fired |
| Insights.SurgeMeansRateFell | backend/internal/workers/insight_generator.go:269-281 | a surge is announced with a strictly lower click-through rate if and only if there were clicks before |
| Insights.SurgeWithoutClicksBefore | backend/internal/workers/insight_generator.go:162-165 | a project without earlier clicks whose rate rose and whose surge is announced |
| Insights.ClickThroughByCounts | backend/internal/workers/insight_generator.go:202-231 | which click-through insight appears, by whole-number counts: below 2% only with more than 500 impressions, from 2% to 5%, from 5%, or none |
| Insights.TrafficByCounts | backend/internal/workers/insight_generator.go:233-267 | which traffic insight appears, by whole-number counts of clicks and days |
| Insights.SurgeByCounts | backend/internal/workers/insight_generator.go:269-281 | when a surge is announced, by whole-number counts |
| Insights.SocialByCounts | backend/internal/workers/insight_generator.go:283-317 | which social insight appears, by the sum of engagement rates against 1% and 3.5% a metric |
| Insights.HealthByScore | backend/internal/workers/insight_generator.go:320-360 | which health insight appears, by the score |
| Insights.InRuleOrder | backend/internal/workers/insight_generator.go:185-361 | the insights come in the order click-through, traffic, surge, social, health |
| Insights.SignalsAre | backend/internal/workers/insight_generator.go:140-181 | each rate is the percentage its name says of the totals, 0 without a whole |
| Insights.TotalsAdd | backend/internal/workers/insight_generator.go:140-160 | click and impression totals are sums over the list |
| Insights.SocialTotalsAdd | backend/internal/workers/insight_generator.go:166-178 | so are followers, reach and engagement |
| TopContent.SortByInteractions | backend/internal/services/meta.go:616-623 | the double loop leaves a permutation, most interactions first |
| TopContent.TopFive | backend/internal/services/meta.go:625-632 | the slice has min(5, n) items and with what is left out makes up the list, each item at least as large as every one left out |
| TopContent.DescendingIsUnique | backend/internal/services/meta.go:616-632 | the interaction counts on top do not depend on how the list was sorted |

## Left out

- Session.ApiClient.StartSessionKeepAlive: does not model the timer's delay; the timer may fire at any time.
- Session.ApiClient.Logout: leaves out the page navigation that follows.
- Session.ApiClient.Attach: leaves out which token goes into the Authorization header.
- Session: logout and a second tab racing a refresh, and the exported refresh call, which bypasses the shared
  promise; server-side pruning of the cookie jar; database errors.
- SessionTokens.SessionSafety: "exactly one live token" ends when the server strikes a disabled user's row; a
  lost response is modelled only for a request that never reached the server.
- Billing: trial expiry, which nothing reads when entitlements are resolved; past-due rows, which no handler
  writes; the inert webhook; failing reads and writes, except the register row and the trial flag.
- Revenue: growth, feature-adoption and activity figures; blanking money for staff without the permission.
- Quota: project fields other than owner, goal and deletion; `dashboard_mode`; how the limit is resolved (it
  is a parameter of the gate).
- Staff: names, descriptions, emails and audit rows; ids of role rows; the fallback to the admin role alone
  when the boot gate fails; partial failures between a role row and its permissions; registration's other
  refusals; the expiry of refresh tokens, which Session has.
- Staff: an admin handler loads a user row and checks it in one step; what happens between its several queries
  is not modelled, what happens between the checks and the save is.
- Staff.StaffStore.FindByRawToken: leaves the revocation and expiry of the row to Session.
- StaffSuspension.SuspensionHolds: access tokens already issued keep verifying; it is the middleware that stops
  them.
- Publisher: calls to the platforms, how an account is chosen and how a due date is parsed are inputs.
- RateLimit: two first calls of one IP racing for its bucket; the counter's machine width.
- BraceScan.ParseGroups: the array header, where the title pattern matches, and what is read from a cut group
  (regular expressions) are inputs or left out.
- Cookies: JavaScript strings with unpaired surrogates (a URIError on writing), the browser's size limits, and
  how a date text is compared with the clock, which is a parameter.
- CsvExport: the byte width of ids and counters, and the time format beyond its alphabet.
- Base64Url.ExpiryRoundTrip: JSON parsing and fractional expiry values are a parameter.
- HtmlSearch: HTML parsing; `strings.ToLower` and `strings.TrimSpace` are parameters; the checks built on the
  searches, which only compare results with constants.
- Insights: floating-point rounding (reals are used), the wording of insights, and the source filters before
  the totals.
- TopContent: building the list from the response and the percentages beside it.
- Network clients, cryptography, user interface, seed data, logging and configuration: no logic of their own
  here.
