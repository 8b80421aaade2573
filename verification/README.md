# OpsNexus: verified models of its stateful logic

OpsNexus is a set of multi-tenant services. Most of their code stores and returns records; this project models the
parts that decide something: the case state machine, the audit query compiler, case numbering, sessions and access
tokens, the notification store, tenant quotas, and three small algorithms around them.

`dafny verify dfyconfig.toml` checks everything.

## How the modules fit together

**Cases.** `CaseModel` holds the entities and the edits of a fetched case. `CaseProtocol` is the workflow service as a
state machine: each store or clock access of each request is one step, any number of requests interleave, a store call
may fail, and a request may die at any point. `CaseSafety` proves what every interleaving keeps, `CaseNumbering` that
case numbers stay unique in every interleaving, `CaseChain` when the saved status changes are a chain, `CaseHistory`
when the recorded history is one, `CaseStamps` when the stamps are those of the last saved changes, and `CaseAtomic`
what holds when calls do not overlap. `CasePromises` says field by field and answer by answer what each operation
leaves, for one call and for the steps of every interleaving. `CaseService` is the service as a class: each method edits a private copy statement by
statement and is proved to leave exactly the tables of a run of the protocol, so everything said of runs holds of it.

Three results mark where the promises of the service end:

- a case can leave its template's graph only through a failed template lookup, which skips the check
  (`CheckBindsExactlyWhenAnswered`, `FailedLookupLeavesTheGraph`);
- whatever a history query may answer is a chain from "new" to the stored status, at every moment of a run and with
  the entries still in flight counted in, exactly as long as no save of the case is out of turn and no entry of it is
  lost (`HistoryChainedIffInTurn`). A save is out of turn when it meets a status other than the one its request read,
  or is a transition dated no later than one already saved. While the clock rises, saves that overwrite no row but the
  one their request read are in turn (`HistoryWithoutOverwrites`); two overlapping transitions are not
  (`OverlappingTransitionsBreakTheChain`). The stamps have a condition of their own: each is the time of the last saved
  change into its status exactly as long as no save, but one that sets it, meets another stamp than its request read
  (`StampsToldExactly`);
- the deadline is the promised number of hours exactly up to 2562047 hours (`SlaDurationExact`, `SlaDurationWraps`).

**Audit log.** `FilterExpression` reads and evaluates DynamoDB filter expressions without knowing how they were built,
and proves that any consistent list of conditions survives being compiled to text and two maps. `AuditLog` is the
compiler itself, statement by statement, and `AuditQuery` ties the two together end to end, with the items, the time
window and the page. `Rfc3339` is a formatter, a parser and an order on timestamps (sections 5.1 and 5.6 of RFC 3339).
Stored timestamps are UTC; a bound given in another zone is formatted in that zone, and comparing it as text is right
exactly when the zone is UTC (`FromExactIffUtc`, `ToExactIffUtc`; the one other bound that is right is the first second
a timestamp can write, in a zone east of UTC).

**Paging** (shared by the audit log and the notifications) is on 64-bit integers. The page is right exactly when the
offset fits in one or wraps past the end of the list; a page number of a query string can make it negative, and the
slice expression then panics (`LargePagePanics`).

**Sessions.** `Sessions` has the calls as functions of the stores and a log of what callers were told; the results speak
of the log alone. `AuthService` is the service, proved against them. Lookups and unique indexes compare texts by a
collation key, an arbitrary function. The refresh limit bounds the moment the refresh token is checked; the clock is
read again to date the new access token. With at most a given delay between the two readings, every refresh is dated
before the limit exactly when the delay is zero or the limit has passed (`DatedBeforeLimitExactly`); what a session
issues is bounded by the delay all the same (`SessionEndsAccess`). `SessionFlights` lets logins and refreshes overlap
with logouts and status changes, access by access, and time pass in between. A deactivation or a logout then takes
effect late by at most the time a call takes from its first read to the date of its token
(`DeactivationEndsAccessInFlight`, `LogoutEndsSessionInFlight`), and at once exactly when that time is zero
(`DeactivationAtOnceExactly`, `LogoutAtOnceExactly`); both bounds are reached (`OldReadOutlivesDeactivation`,
`OldReadOutlivesLogout`).

**Tenants.** A whole-row save can make a deactivated tenant active again (`DeactivationCanBeLost`). A deactivation lasts
exactly as long as no save of the tenant asks for another status, or asks for none and meets another status than its
request read (`DeactivationLastsExactly`).

**Notifications, tenants, gateway, page window.** `Notifications`, `Tenants`, `StageArn` (with the secret cache) and
`PageWindow` each hold their state, their operations and their results in one module.

Times are nanoseconds as unbounded integers. Clock readings, drawn ids, the password check and the answers of the
stores are parameters of the calls. A fetched row is a private value that the method updates field by field; the tables
are fields of the service classes.

## Where the code and its documentation differ

The model follows the code in each case.

- contracts/auth.yaml:152 promises refresh-token rotation; a refresh leaves its token as it was.
- contracts/notification.yaml:306 promises prefix matching on the audit action; the filter compares for equality.
- A failed template lookup lets every transition pass instead of refusing it.
- Registration looks the address up as typed, and stores it trimmed and in lower case. A taken address passes the check
  when the lookup fails, or no user of the same tenant holds the address as typed: when it was typed with leading
  blanks, say (trailing spaces compare equal in the table's collation), or is held in another tenant. Only the unique
  index then stops a second account (`TakenAddressRefused`).
- contracts/notification.yaml:322-336 promises `from` and `to` on the audit query; the handler fills neither
  (services/notification-service/internal/adapters/http/handler.go:202-213), so a time bound, zoned or not, can only
  come from a Go caller of the audit service or its repository.
- The API gateway lets a token live one second longer than the service does (`GatewayGraceSecond`). Both take an expiry
  of 0 for none; a token carries it only when dated to expire in the first second of 1970 (`NoExpiryExactly`).

## Model

| member | source | states |
|---|---|---|
| CaseSafety.ReachableInEveryInterleaving | services/workflow-service/internal/application/case_service.go:138-198 | Whatever the interleaving and the failures, a case whose template lookups all answered has a status reachable from "new" along its template, and each of its recorded history entries is an edge of the template between two different statuses |
| CaseSafety.StampsAndFlagInEveryInterleaving | services/workflow-service/internal/application/case_service.go:72-190 | Whatever the interleaving: resolved implies a resolution stamp, closed a closing stamp, breached implies that the clock is past the deadline; a deadline comes from the template and is createdAt plus its hours exactly up to 2562047 hours |
| CaseSafety.IdentityNeverChanges | services/workflow-service/internal/application/case_service.go:95-211 | Between any two moments of any interleaved run a case keeps tenant, number, reporter, workflow, deadline and creation time, and is never lost |
| CaseSafety.ReturnedFlagIsRecomputed | services/workflow-service/internal/application/case_service.go:95-106 | In every reachable state GetCase returns breached exactly when the clock is past the deadline, so the stored flag agrees with recomputing it |
| CasePromises.CheckInEveryInterleaving | services/workflow-service/internal/application/case_service.go:95-106 | Whatever the interleaving, GetCase hands on its row with nothing changed but the flag, which is the comparison with the deadline |
| CasePromises.TransitionInEveryInterleaving | services/workflow-service/internal/application/case_service.go:158-173 | Whatever the interleaving, a transition's copy has the new status, its own stamp and update time, a flag that is the comparison with the deadline, and every other field as it was read |
| CasePromises.UpdateInEveryInterleaving | services/workflow-service/internal/application/case_service.go:114-130 | Whatever the interleaving, a blank title ends an update; otherwise a patched field has the patch's value and every other field stays |
| CasePromises.AssignInEveryInterleaving | services/workflow-service/internal/application/case_service.go:205-206 | Whatever the interleaving, an assignment sets the assignee and the update time, and nothing else |
| CasePromises.OpenedForLife | services/workflow-service/internal/application/case_service.go:52-85 | Whatever the interleaving, a case carries its draft's fields, "medium" for an empty priority, and has a deadline exactly when its draft named a template, the lookup answered and the hours are positive: createdAt plus those hours exactly up to 2562047 of them, for as long as it is stored |
| CasePromises.SaveStoresCopy | services/workflow-service/internal/adapters/mysql/case_repository.go:65-101 | A save or an insert stores the private copy, under its id alone |
| CaseSafety.StepKeepsSafe | services/workflow-service/internal/application/case_service.go:36-211 | Every step of every request keeps the invariant of rows, private copies, claims and history, and only adds to clock, ids, templates and cases |
| CaseSafety.RunKeepsSafe | services/workflow-service/internal/application/case_service.go:36-211 | The same over runs of any length |
| CaseModel.SlaDurationExact | services/workflow-service/internal/application/case_service.go:72-80 | The 64-bit duration is the template's hours exactly when there are at most 2562047 of them |
| CaseModel.SlaDurationWraps | services/workflow-service/internal/application/case_service.go:76 | One hour more gives a negative duration |
| CaseModel.EdgeExtendsReach | services/workflow-service/internal/application/case_service.go:149-160 | Following an edge from a reachable status leads to a reachable status |
| CaseModel.IsTransitionAllowed | services/workflow-service/internal/application/case_service.go:253-260 | The search loop answers yes exactly when the template has an edge between the two statuses |
| CaseChain.ChainIffNoStaleSave | services/workflow-service/internal/application/case_service.go:138-190 | In any interleaving the saved changes of a case chain from "new" to the stored status at every moment, if and only if no save met a status other than the one its request had read |
| CaseChain.StepKeepsChain | services/workflow-service/internal/application/case_service.go:175-190 | One step keeps the chain of a case exactly when it is no stale save of that case |
| CaseChain.OverlappingTransitionsBreakTheChain | services/workflow-service/internal/application/case_service.go:138-198 | A run of two overlapping transitions, all stores answering, whose recorded history is no chain to the stored status |
| CaseChain.CheckBindsExactlyWhenAnswered | services/workflow-service/internal/application/case_service.go:149-156 | Transitions of a case are held to its template's edges exactly when the template lookup answered |
| CaseChain.FailedLookupLeavesTheGraph | services/workflow-service/internal/application/case_service.go:149-156 | A run with one failed lookup that leaves a case in a status its template cannot reach |
| CaseAtomic.HistoryIsStatusChanges | services/workflow-service/internal/application/case_service.go:158-190 | Without overlap and with a strictly rising clock, the recorded history is the case's real status changes, read off the stored rows, minus those whose recording failed; the changes chain from "new" to the stored status |
| CaseAtomic.StampsAreLastChanges | services/workflow-service/internal/application/case_service.go:158-168 | Without overlap, each stamp is the time of the last saved change into its status, and unset when there was none |
| CaseAtomic.HistoryQueryIsTableOrder | services/workflow-service/internal/adapters/mysql/case_repository.go:154-172 | Without overlap, any result ordered by time is the case's entries in the order they were written |
| CaseAtomic.OnlyArrangement | services/workflow-service/internal/adapters/mysql/case_repository.go:154-172 | A list with strictly rising times is the only arrangement of its entries in which times never fall |
| CaseAtomic.AtomicRunKeeps | services/workflow-service/internal/application/case_service.go:138-198 | Runs without overlap keep history, stamps and order told by the saved changes, and no save in them is stale |
| CaseHistory.HistoryChainedIffInTurn | services/workflow-service/internal/application/case_service.go:138-190 | In any interleaving with any failures: at every moment every answer of a history query, entries in flight included, is a chain from "new" to the stored status, if and only if no save of the case was out of turn and no entry of it was lost |
| CaseHistory.HistoryInTurnIsStatusChanges | services/workflow-service/internal/application/case_service.go:158-190 | In such runs, once nothing of the case is in flight, a history query has one answer: the real status changes, read off the stored rows |
| CaseHistory.HistoryWithoutOverwrites | services/workflow-service/internal/application/case_service.go:138-190 | While the clock rises, no save overwrites another row of the case than its request read and no entry is lost, a history query answers the real status changes, a chain to the stored status |
| CaseHistory.CompleteHistory | services/workflow-service/internal/application/case_service.go:158-190 | Without overlap, with no entry of the case lost and none in flight, its history in table order is the chain of its real status changes, and the stamps are the times of its latest entries, kept across reopening |
| CaseStamps.StampsToldExactly | services/workflow-service/internal/application/case_service.go:158-187 | In any interleaving with any failures, at every moment each stamp is the time of the last saved change into its status, unset when there is none, if and only if no save but one that sets it met another stamp than its request read |
| CaseStamps.StampsWithoutOverwrites | services/workflow-service/internal/application/case_service.go:158-187 | While the clock rises, no save overwrites another row of the case than its request read, no entry is lost and none is in flight, each stamp is the time of the latest entry into its status that a history query answers |
| CaseStamps.StepKeepsStampTold | services/workflow-service/internal/application/case_service.go:158-177 | One step keeps a stamp told exactly when it is no save that meets another stamp than its request read |
| CaseHistory.NoOverwriteIsInTurn | services/workflow-service/internal/application/case_service.go:95-211 | While the clock rises, saves that overwrite nothing are dated after every saved change of the case and meet the status they read |
| CaseHistory.OutOfTurnBreaks | services/workflow-service/internal/application/case_service.go:175-190 | After a complete history, one save out of turn leaves an order by time that is no chain to the stored status |
| CaseHistory.LossBreaks | services/workflow-service/internal/application/case_service.go:179-190 | After a complete history, losing one entry leaves an answer that is no chain to the stored status |
| CaseNumbering.NumbersUniqueInEveryInterleaving | services/workflow-service/internal/application/case_service.go:47-66 | Two cases of one tenant never carry the same number, whatever the interleaving of their creation and however many were opened |
| CaseNumbering.StepKeepsNumbers | services/workflow-service/internal/adapters/mysql/case_repository.go:174-207 | Every step keeps each held number issued by its tenant's counter and held once, by a row or by a request in flight |
| CaseNumber.Counter.NextCaseNumber | services/workflow-service/internal/adapters/mysql/case_repository.go:174-207 | A tenant's n-th committed transaction carries n, whatever other tenants do; a refused one changes nothing |
| CaseNumber.NumbersDistinct | services/workflow-service/internal/adapters/mysql/case_repository.go:174-207 | Numbers handed to one tenant in any run are pairwise distinct, beyond the pad width too |
| CaseNumber.SerialOfNumber | services/workflow-service/internal/adapters/mysql/case_repository.go:200-206 | A reader recovers the counter value from the printed number, for every value |
| CaseNumber.NumberReads | services/workflow-service/internal/adapters/mysql/case_repository.go:200-206 | A number reads CASE-, at most five characters of the tenant id with letters in upper case, a dash, and the value in decimal, padded with zeros to five digits and never beyond |
| CaseNumber.IssueOrderIsStringOrder | services/workflow-service/internal/adapters/mysql/case_repository.go:200-206 | A tenant's first N numbers sort as text in the order they were issued exactly when N is at most 99999 |
| CaseService.Service.GetCase | services/workflow-service/internal/application/case_service.go:95-106 | Missing case: no change. Else the row comes back with the flag recomputed and nothing else changed, stored if the store takes it; the invariants, and the told history when the clock moved, survive |
| CaseService.Service.UpdateCase | services/workflow-service/internal/application/case_service.go:108-136 | Missing case, blank title, failed save and success each leave exactly their tables and answer; on success patched fields have the patch's values and all others stay |
| CaseService.Service.AssignCase | services/workflow-service/internal/application/case_service.go:200-211 | Missing case, failed save and success each leave exactly their tables and answer; on success assignee and update time change and nothing else |
| CaseService.Service.TransitionCase | services/workflow-service/internal/application/case_service.go:138-198 | Missing case, same status, refused edge, failed lookup, failed save and failed recording each leave exactly their tables and answer; on success the row and the answer have the new status, its stamp, the flag recomputed and all other fields kept, and the entry recorded says from, to, reason, person and time |
| CaseService.Service.CreateCase | services/workflow-service/internal/application/case_service.go:36-93 | Refused drafts change nothing; a number taken by a failed insert stays taken; a created case has every field of its draft, the next number of its tenant, and a deadline exactly when the template found asks for one |
| CaseService.Service.ValidateTransition | services/workflow-service/internal/application/case_service.go:149-156 | The statements of the check pass exactly the transitions the protocol lets pass |
| CaseService.GetIsRun | services/workflow-service/internal/application/case_service.go:95-106 | An undisturbed GetCase is a run of the protocol, atomic when the clock moved |
| CaseService.UpdateIsRun | services/workflow-service/internal/application/case_service.go:108-136 | So is UpdateCase |
| CaseService.AssignIsRun | services/workflow-service/internal/application/case_service.go:200-211 | So is AssignCase |
| CaseService.TransitionIsRun | services/workflow-service/internal/application/case_service.go:138-198 | So is TransitionCase, with every combination of store failures |
| CaseService.CreateIsRun | services/workflow-service/internal/application/case_service.go:36-93 | So is CreateCase, with every combination of store failures |
| CaseService.TransitionPromise | services/workflow-service/internal/application/case_service.go:138-198 | Every answer of a transition, with tables and fields in full, from any state the service can be in |
| CaseService.CreatePromise | services/workflow-service/internal/application/case_service.go:36-93 | Every answer of a creation, with tables and fields in full |
| FilterExpression.ParsePartsBack | services/notification-service/internal/adapters/dynamodb/audit_repository.go:143-183 | Any nonempty list of clauses, joined with leading " AND " and cut by five characters, is read back as that list |
| FilterExpression.CompiledMeansConditions | services/notification-service/internal/adapters/dynamodb/audit_repository.go:143-183 | For any consistent conditions, the compiled text read and evaluated under the compiled maps says that all wanted conditions hold, and no placeholder is unbound |
| FilterExpression.MapsAreUsed | services/notification-service/internal/adapters/dynamodb/audit_repository.go:138-173 | The compiled maps bind the placeholders and aliases the clauses use, and nothing else |
| AuditLog.BuildRequest | services/notification-service/internal/adapters/dynamodb/audit_repository.go:138-186 | The statements that grow the text and both maps in place send the request the theorems speak of |
| AuditQuery.RequestMeansFilter | services/notification-service/internal/adapters/dynamodb/audit_repository.go:138-186 | For every filter and every item, parsing and evaluating the built expression gives the conjunction of the filters that were set |
| AuditQuery.PlaceholdersExact | services/notification-service/internal/adapters/dynamodb/audit_repository.go:138-186 | There is an expression exactly when some filter was set; it parses; every placeholder is bound and every bound name and value is used |
| AuditQuery.UtcWindowExact | services/notification-service/internal/adapters/dynamodb/audit_repository.go:162-173 | UTC bounds select exactly the events whose second lies in the inclusive window |
| AuditQuery.FromExactIffUtc | services/notification-service/internal/adapters/dynamodb/audit_repository.go:162-166 | A lower bound, any that can be written, is right for every stored event exactly when it is held in UTC or is the first writable second east of UTC |
| AuditQuery.ToExactIffUtc | services/notification-service/internal/adapters/dynamodb/audit_repository.go:167-173 | An upper bound is right for every stored event under exactly the same condition |
| AuditQuery.EventMeetsFilter | services/notification-service/internal/adapters/dynamodb/audit_repository.go:31-173 | A stored event's item meets a filter with UTC bounds exactly when the event's own fields do |
| AuditQuery.ItemRoundTrip | services/notification-service/internal/adapters/dynamodb/audit_repository.go:31-83 | Storing and reading back an event keeps every field and cuts its time to the second |
| AuditQuery.BuildItem | services/notification-service/internal/adapters/dynamodb/audit_repository.go:31-59 | The statements that fill an item build the one that reads back |
| AuditQuery.AnswerIsWanted | services/notification-service/internal/adapters/dynamodb/audit_repository.go:175-200 | The store never refuses the request, and the decoded answer is the tenant's matching events in table order |
| AuditQuery.WantedInOrder | services/notification-service/internal/adapters/dynamodb/audit_repository.go:193-200 | The events wanted of a table are those of its decodable rows of the tenant that meet the filter, in table order |
| AuditQuery.OptionalFieldsStored | services/notification-service/internal/adapters/dynamodb/audit_repository.go:45-57 | Old and new values are stored under their names, and not at all when there are none |
| AuditQuery.UnreadableTimestamp | services/notification-service/internal/adapters/dynamodb/audit_repository.go:73-75 | An unreadable timestamp leaves the start of year 1 |
| AuditQuery.Query | services/notification-service/internal/adapters/dynamodb/audit_repository.go:137-214 | End to end: the total counts the tenant's events meeting every filter, and what is served of them is the asked page exactly when the offset survives 64 bits or wraps past the end, else a panic or the items at the wrapped offset |
| Rfc3339.UtcOrder | services/notification-service/internal/adapters/dynamodb/audit_repository.go:42 | Timestamps written in UTC with four-digit years compare as text the way their seconds compare |
| Rfc3339.ZonedAgainstUtc | services/notification-service/internal/adapters/dynamodb/audit_repository.go:162-173 | A timestamp of another zone compares with a UTC one by its wall clock, not by its instant |
| Rfc3339.FormatParse | services/notification-service/internal/adapters/dynamodb/audit_repository.go:73-75 | Formatting then parsing gives the instant cut to its second, in every zone |
| Rfc3339.FormatReads | services/notification-service/internal/adapters/dynamodb/audit_repository.go:42 | A timestamp is its date, a T, its wall clock and its zone, at fixed positions |
| Rfc3339.NewYearText | services/notification-service/internal/adapters/dynamodb/audit_repository.go:42 | The first instant of every year, counted by the leap-year rule in closed form, reads YYYY-01-01T00:00:00Z |
| Paging.ClampPagination | services/notification-service/internal/adapters/http/handler.go:35-45 | Page is at least 1 and limit in 1..100; values in range pass unchanged, others become 1 and 20 |
| Paging.Paginate | services/notification-service/internal/adapters/dynamodb/notification_repository.go:144-155 | On 64-bit integers the result is the asked page exactly when the offset fits or wraps past the end, a panic exactly when it wraps below zero, and otherwise the items at the wrapped offset |
| Paging.FittingProductHolds | services/notification-service/internal/adapters/dynamodb/notification_repository.go:144-155 | The page is right whenever page times limit fits in 64 bits |
| Paging.LargePagePanics | services/notification-service/internal/adapters/dynamodb/notification_repository.go:144-155 | A page number that passes the clamp and panics on every list |
| Paging.PagesCoverList | services/notification-service/internal/adapters/dynamodb/notification_repository.go:144-155 | Pages 1..ceil(total/limit) one after the other are the whole list in order, none is empty, and later pages are |
| Sessions.RefreshSucceedsExactly | services/auth-service/internal/application/auth_service.go:133-170 | In every run a refresh succeeds exactly when both reads answer, its token came from a login, was not logged out since, the check falls before that login plus refreshTtl, and the user was last given status active |
| Sessions.RefreshRefusals | services/auth-service/internal/application/auth_service.go:133-170 | Each refusal of a refresh has its own reason, in the order of the checks |
| Sessions.RefreshReturnsWhatItLogs | services/auth-service/internal/application/auth_service.go:155-170 | In every run, a refresh that succeeds returns the very access token every other result speaks of: the session user's id, tenant and address, expiring accessTtl after its date in whole seconds; no refresh token changes |
| Sessions.LoginSucceedsExactly | services/auth-service/internal/application/auth_service.go:86-107 | In every run, a login succeeds exactly when address and password are given, the lookup answers, the password matches, the store takes the session, and a user of that address was last given status active; each refusal has its own reason |
| Sessions.LoginReturnsWhatItLogs | services/auth-service/internal/application/auth_service.go:100-131 | In every run, a login that succeeds returns the access token it logs, made out to the user of the address, and stores one open session for refreshTtl; one that fails leaves tokens, users and log alone |
| Sessions.TokensTellTheirUser | services/auth-service/internal/application/auth_service.go:238-257 | In every run, tenant and address in every access token issued are those of its user |
| Sessions.NormalIsTrimmedLower | services/auth-service/internal/application/auth_service.go:64-93 | A normalised address is the text between the outer blanks, with its capitals lowered |
| Sessions.LogoutDoes | services/auth-service/internal/application/auth_service.go:172-177 | A logout revokes the one token and touches nothing else |
| Sessions.StatusChangeDoes | services/auth-service/internal/application/auth_service.go:269-286 | A status change sets the one user's status to one of the three, and touches nothing else; each refusal has its own reason |
| Sessions.RegisterSucceedsExactly | services/auth-service/internal/application/auth_service.go:47-84 | In every run, a registration succeeds exactly when everything is given, the check does not find the address in the tenant, no user holds the stored address and the store takes it; the user is then active under the normalised address |
| Sessions.DatedBeforeLimitExactly | services/auth-service/internal/application/auth_service.go:143-170 | In every reachable state with an open session of an active user, every refresh taking at most a given delay from check to date is dated before the limit, if and only if the delay is zero or the limit has passed |
| Sessions.SessionEndsAccess | services/auth-service/internal/application/auth_service.go:100-192 | With at most a given delay between check and date, no access token of a session validates at or after its login plus refreshTtl plus delay plus accessTtl, unless its expiry is 0 |
| Sessions.SessionNeverExtended | services/auth-service/internal/application/auth_service.go:133-170 | Behind every refresh there is a login with the same token and user, no logout in between, and the check fell before that login plus refreshTtl, however often it was refreshed |
| Sessions.CheckedInTimeIssuedAtLimit | services/auth-service/internal/application/auth_service.go:133-170 | A run whose refresh is checked one nanosecond before the limit and dates its access token at the limit |
| Sessions.DeactivationEndsAccess | services/auth-service/internal/application/auth_service.go:179-192 | In every run, after a user's active status is taken away for good, no access token of the user validates at or after that moment plus accessTtl, unless its expiry is 0 |
| Sessions.NoExpiryExactly | services/auth-service/internal/application/auth_service.go:238-257 | An access token has expiry 0 exactly when it is dated to expire in the first second of 1970 |
| Sessions.TakenAddressRefused | services/auth-service/internal/application/auth_service.go:47-84 | In every run an address a user holds is never registered again; the check refuses it exactly when its lookup answers and a user of the same tenant holds the address as typed, else the unique index does |
| Sessions.CallKeepsSound | services/auth-service/internal/application/auth_service.go:47-286 | Every call keeps stores and log in agreement, and logs only what a user active at that point was entitled to |
| Sessions.GatewayGraceSecond | terraform/modules/lambda_authorizer/function/index.js:47-50 | The gateway accepts a token until one second after the service stops |
| Sessions.DeactivationEndsGatewayAccess | terraform/modules/lambda_authorizer/function/index.js:47-50 | After a user's active status is taken away for good, the gateway refuses every access token of the user from that moment plus accessTtl plus one second, unless its expiry is 0 |
| SessionFlights.DeactivationEndsAccessInFlight | services/auth-service/internal/application/auth_service.go:86-192 | Whatever overlaps, after a user is deactivated for good no access token of the user validates at or after that moment plus accessTtl plus the longest time a call takes from its first read to the date of its token, unless its expiry is 0 |
| SessionFlights.DeactivationAtOnceExactly | services/auth-service/internal/application/auth_service.go:86-192 | Over all overlapping runs with that time bounded, every access token of a user deactivated for good is dated no later than the deactivation, and, an expiry of 0 aside, expires within accessTtl of it, if and only if the bound is zero |
| SessionFlights.LogoutEndsSessionInFlight | services/auth-service/internal/application/auth_service.go:133-177 | Whatever overlaps, after a logout its session issues nothing dated later than the logout plus that time |
| SessionFlights.LogoutAtOnceExactly | services/auth-service/internal/application/auth_service.go:133-177 | Over all such runs, every refresh of a session logged out for good is dated no later than the logout, if and only if the bound is zero or refreshTtl lets no session be refreshed |
| SessionFlights.LimitHoldsInFlight | services/auth-service/internal/application/auth_service.go:133-170 | Whatever overlaps, a refresh checks its token from the login that returned it on, and before that login plus refreshTtl |
| SessionFlights.ReadUserPassesExactly | services/auth-service/internal/application/auth_service.go:86-107 | Whatever overlaps, a login gets past its read exactly when address and password are given, the lookup answers, the password matches and the user of that address is active; it goes on with that user |
| SessionFlights.RefreshPassesExactly | services/auth-service/internal/application/auth_service.go:133-162 | Whatever overlaps, a refresh gets past reading its token, its check and reading its user exactly as it should |
| SessionFlights.TokensTellTheirUserInFlight | services/auth-service/internal/application/auth_service.go:238-257 | Whatever overlaps, id, tenant, address and expiry in every access token issued are those of its user and its date |
| SessionFlights.OldReadOutlivesDeactivation | services/auth-service/internal/application/auth_service.go:86-131 | The bound is reached, by date and by validity: a login that read the user before the deactivation dates its token that much later, to expire on a full second |
| SessionFlights.OldReadOutlivesLogout | services/auth-service/internal/application/auth_service.go:133-177 | So does a refresh that read its token before the logout |
| SessionFlights.MoveKeepsSound | services/auth-service/internal/application/auth_service.go:47-286 | Every access of every call keeps stores and log in agreement, and what each call in flight relies on |
| AuthService.Service.Register | services/auth-service/internal/application/auth_service.go:47-84 | Stores, log and answer are those of the call, addresses compared by collation key; no token changes, a refusal changes no user, and a success was stored under a key no address had |
| AuthService.Service.Login | services/auth-service/internal/application/auth_service.go:86-131 | Stores, log and answer are those of the call; every refusal leaves the tokens alone; a success had a matching password, an active user of the address, adds one session, and returns that user's token as logged |
| AuthService.Service.RefreshAccess | services/auth-service/internal/application/auth_service.go:133-170 | Stores, log and answer are those of the call; no refresh token is changed or replaced, and the token returned is the one logged, made out to the session's active user |
| AuthService.Service.Logout | services/auth-service/internal/application/auth_service.go:172-177 | Revokes the one token, no other, and succeeds for tokens nobody holds |
| AuthService.Service.UpdateUserStatus | services/auth-service/internal/application/auth_service.go:269-286 | Stores, log and answer are those of the call; only the three known statuses are stored, and a refusal changes no user |
| Notifications.Repository.MarkAllRead | services/notification-service/internal/adapters/dynamodb/notification_repository.go:183-212 | Afterwards the user's unread notifications are exactly those that did not decode or whose update failed; every other row, other users' and already read ones included, is untouched |
| Notifications.Repository.MarkRead | services/notification-service/internal/adapters/dynamodb/notification_repository.go:158-181 | An upsert: it sets the read mark and time of the row and keeps the rest, or creates a row that has no user and no content; no other row changes |
| Notifications.Repository.Delete | services/notification-service/internal/adapters/dynamodb/notification_repository.go:214-228 | Removes the one key |
| Notifications.Repository.Create | services/notification-service/internal/adapters/dynamodb/notification_repository.go:81-92 | Afterwards the notification is listed and unread for its user and listed for no other, has its content and no read time; every other row, and the whole table on failure, is as it was |
| Notifications.Repository.MarkAllReadTwice | services/notification-service/internal/adapters/dynamodb/notification_repository.go:183-212 | A second MarkAllRead leaves the table as the first left it exactly when every update that failed in the first fails again; with no failures it changes nothing |
| Notifications.ListByUser | services/notification-service/internal/adapters/dynamodb/notification_repository.go:121-156 | The total counts the user's decodable rows; what is served of them is the asked page exactly when the offset survives 64 bits or wraps past the end, else a panic or the rows at the wrapped offset |
| Notifications.PagesShowListing | services/notification-service/internal/adapters/dynamodb/notification_repository.go:121-156 | All pages together show each notification of the user's listing exactly once, and no other |
| Notifications.ShownInOrder | services/notification-service/internal/adapters/dynamodb/notification_repository.go:135-142 | The rows shown are the decodable ones, in the order of the answer |
| Notifications.SentListedForItsUser | services/notification-service/internal/adapters/dynamodb/notification_repository.go:81-228 | In every interleaving, a notification sent to a user and not dismissed since is in that user's listing, with its content, and in no other |
| Notifications.SentUnreadUntilMarked | services/notification-service/internal/adapters/dynamodb/notification_repository.go:81-212 | In every interleaving, such a notification is unread exactly as long as nothing marked its key |
| Notifications.DismissedNeverListed | services/notification-service/internal/adapters/dynamodb/notification_repository.go:158-228 | In every interleaving, with bulk loops part-way through, a dismissed notification is in no user's listing again |
| Notifications.DismissedFoundIffMarkedLater | services/notification-service/internal/adapters/dynamodb/notification_repository.go:158-228 | In every interleaving, a dismissed notification is found by its id again exactly when its key was marked read after the last time it was dismissed |
| Tenants.QuotaFollowsPlan | services/tenant-service/internal/application/tenant_service.go:30-159 | In every interleaving of create, update, settings and deactivate steps, a stored quota is 50 for plan pro, 1000 for enterprise and 10 otherwise, whatever settings were supplied, and no two tenants share a slug |
| Tenants.StepKeepsSafe | services/tenant-service/internal/adapters/mysql/tenant_repository.go:42-97 | Every step keeps quotas, ids and slugs in order in rows and private copies |
| Tenants.RoundTripFields | services/tenant-service/internal/adapters/mysql/tenant_repository.go:131-196 | A round keeps every column, lets the settings repeat them, and puts an empty list or map for nil and the default preferences for the rest |
| Tenants.SaveLoadIdempotent | services/tenant-service/internal/adapters/mysql/tenant_repository.go:131-196 | One round of saving and loading loses all that is ever lost |
| Tenants.SurvivesExactly | services/tenant-service/internal/adapters/mysql/tenant_repository.go:131-196 | A tenant comes back unchanged exactly when its settings repeat its columns, nothing is nil, and its preferences are the defaults |
| Tenants.BuiltSurvives | services/tenant-service/internal/application/tenant_service.go:30-82 | A tenant just built by CreateTenant comes back unchanged |
| Tenants.DeactivationLastsExactly | services/tenant-service/internal/adapters/mysql/tenant_repository.go:77-97 | In every interleaving a deactivated tenant stays inactive at every later moment if and only if no save of it asks for another status, or asks for none and meets another status than its request read |
| Tenants.DeactivationCanBeLost | services/tenant-service/internal/adapters/mysql/tenant_repository.go:77-97 | A stale whole-row save makes a deactivated tenant active again |
| Tenants.DefaultFeatures | services/tenant-service/internal/application/tenant_service.go:350-370 | Every plan has the same feature keys; pro turns three more on than every plan has, enterprise all |
| Tenants.FeaturesByName | services/tenant-service/internal/application/tenant_service.go:350-370 | The six features of each plan, by name |
| Tenants.LargerPlansHaveMore | services/tenant-service/internal/application/tenant_service.go:350-370 | A larger plan has every feature of a smaller one |
| Tenants.UpdateTenant | services/tenant-service/internal/application/tenant_service.go:92-121 | A new plan moves plan, both quotas and features together; without one all four stay; name and status are the patch's or stay; id, slug, domains, preferences and creation time always stay |
| Tenants.Service.CreateTenant | services/tenant-service/internal/application/tenant_service.go:30-82 | Succeeds exactly for a named, well-formed, unused slug the store takes; the row has each column as asked, plan free by default, and loads back as the tenant returned |
| Tenants.Service.ChangeTenant | services/tenant-service/internal/application/tenant_service.go:92-121 | Exactly the one row changes, column by column as patched, quota and features with the plan; each refusal has its reason |
| Tenants.Service.UpdateSettings | services/tenant-service/internal/application/tenant_service.go:148-159 | Only domains, features and the update time of the row change: the supplied quota and preferences reach no column |
| Tenants.Service.DeactivateTenant | services/tenant-service/internal/application/tenant_service.go:123-128 | Only the status of the one row changes |
| StageArn.WildcardOfStage | terraform/modules/lambda_authorizer/function/index.js:22-29 | For every ARN of a stage, even with ':' or '/' in the resource, the result keeps the five fields, API and stage, and is the same for all methods and resources |
| StageArn.MalformedArns | terraform/modules/lambda_authorizer/function/index.js:25-29 | With fewer than six fields it throws; without a '/' in the sixth the stage reads "undefined" |
| StageArn.PolicyCoversStageExactly | terraform/modules/lambda_authorizer/function/index.js:22-29 | As a pattern it matches exactly the ARNs of that stage that name a method and a resource |
| StageArn.PolicyCoversRequest | terraform/modules/lambda_authorizer/function/index.js:22-29 | It matches the ARN it was built from |
| StageArn.SecretCache.GetJwtSecret | terraform/modules/lambda_authorizer/function/index.js:7-20 | The secret returned is one the store held less than 300000 milliseconds before the call or while it waited; a usable cached secret is returned without a fetch, and a failed fetch is an error that leaves the cache alone |
| PageWindow.GetPages | frontend/admin-console/src/components/ui/Pagination.tsx:14-26 | The window runs from 1 to totalPages, has at most seven entries, an ellipsis between two neighbours exactly when a page is left out there, and beyond seven pages shows exactly the first, the last, the current one and its neighbours |
| PageWindow.WindowRises | frontend/admin-console/src/components/ui/Pagination.tsx:14-26 | The page numbers of such a window rise strictly |

## Left out

- CaseService.Service.CreateCase: the second default for an empty priority, from the template, is unreachable and has no effect in the model.
- CaseHistory.HistoryWithoutOverwrites: clock readings stand for stored values: performed_at is a DATETIME(3) column, so a rising clock means one that rises by at least a millisecond.
- Tenants.BuiltSurvives: the columns created_at and updated_at are TIMESTAMP and keep whole seconds; the conversions are modelled, the rounding of the columns is not.
- CaseNumber.Counter.NextCaseNumber: tenant ids compare exactly, where the table's collation (utf8mb4_unicode_ci) lets ids with the same key share one counter row; counter transactions take effect one at a time; races of two transactions inside the database, and overflow of the 64-bit counter, are not modelled. The tenant prefix is cut and upper-cased by character, for ASCII letters only, where Go cuts bytes.
- Sessions.CallKeepsSound: calls are atomic here, and overlap in `SessionFlights`, where registrations, logouts and status changes remain one step each; role names in the claims, role assignment and the listing of users are not modelled; bcrypt, signing and token encoding appear as parameters, and a token is the claims it carries. Trimming an address knows ASCII blanks only, and lower-casing ASCII letters only.
- Sessions.SessionNeverExtended: bounds the check of the refresh token, not the date of the access token, for which `DatedBeforeLimitExactly` says exactly when it holds.
- Sessions.RefreshSucceedsExactly: the tables' collation (utf8mb4_unicode_ci, which ignores case) is an arbitrary key function, and user ids compare exactly; the rounding of expires_at to milliseconds by its DATETIME(3) column is not modelled.
- Notifications.Repository.Create: the title, body, channel and other contents of a notification are one text.
- Notifications.ListByUser: one response of the store is the whole answer, as in the code, which follows no continuation key; the keys stand for the decoded notifications.
- Tenants.Service.CreateTenant: the slug pattern is a parameter.
- Tenants.QuotaFollowsPlan: the slug check and the insert of a creation are one step, which the unique index on slugs justifies.
- Rfc3339.FormatParse: years 0 to 9999 and offsets of whole minutes under a day; fractions of a second are neither written nor read.
- AuditQuery.ItemRoundTrip: old and new values are the JSON text they are stored as.
- Fetched rows are values: a method updates its private copy in place, but aliasing of Go pointers is not captured.
- Case and notification rows hold the entities themselves; their JSON columns, MySQL's rounding of times and GORM's own update times are left out.
- A failed read of a row is not told apart from a missing row.
- Listing, comments, tasks, forms, documents, organisations and profiles: record keeping.
- Tenant, case and user lists: their handlers report an unclamped limit, so covering all pages is not claimed.
- HTTP routing, middleware, configuration, seeding, database clients, Terraform wiring, and the user interface except its page window.
