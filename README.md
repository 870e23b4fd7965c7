# Expense and time-off rules, modelled in Dafny

This project models the business rules of an expense and time-off application.
It has three back-end services and a web client.

- **Expenses service.** Invoices are filed against spending categories that have a yearly limit.
  - `sumPaidInvoices` defines committed spend. Every status except REJECTED counts.
  - Creating an invoice is refused once committed spend plus the new amount would reach the limit.
  - Lowering a limit rejects the pending invoices of that category for the current year.
  - A paid invoice can no longer change status.
  - Only a pending invoice can be deleted, and only by its owner, an ADMIN or a MANAGER.
  - The user dashboard reports per-category usage.
  - The bookkeeping report is comma-separated text.
- **Time-off service.**
  - Only the team representative can resolve a leave request, and only while it is waiting.
  - Leave statistics count approved requests against the configured totals.
  - Team reads are limited to members and the representative.
  - Team member lists are an order-preserving duplicate-free union (lodash `uniq`).
- **User service.** The organisation aggregate keeps users and invites together with an in-memory event log.
  - The first user becomes ADMIN.
  - Later users need an invite.
  - Duplicate invites are refused.
  - Nobody can remove themselves.
- **Shared code.** The role guard and `validateRole`.
- **Web client.** Query-string parameter building (`transformQueryParams`) and the invoice status label (`translateInvoiceStatus`).

## How the model is organised

Each handler that changes state is a method on a class whose fields are the tables the handler writes:

- `Expenses.ExpensesDatabase`
- `Timeoffs.TimeoffsDatabase`
- `Organization.OrganizationAggregate`, which holds its `Organization.DomainEntity`

Each such method is proved against a function on a value snapshot of those tables: `Admit` for invoice creation, and a transition function named `Apply…` for the other handlers. The rules of the handler are then lemmas about that function.

The `update-category-limit` cascade keeps the source's index loop. Its loop invariants tie every visited invoice to `CascadeOne`.

Read-only handlers and helpers are pure functions.

A thrown exception becomes `Err(e)` (or `Fail(e)` for a handler with no result), carrying the exception class and message:

- `NotFound` for `findOneOrFail`/`findOneByOrFail` and `NotFoundException`. The argument of a not-found error from `*OrFail` is the entity name (`"CategoryEntity"`, `"InvoiceEntity"`, `"LeaveRequestEntity"`, `"TeamEntity"`, `"SettingsEntity"`).
- `Forbidden`.
- `BadRequest`.
- `Api(message, status)` for the user service's own exception.

Modules: `Common`, `Text`, `Ordering`, `InvoiceLedger`, `Expenses`, `ExpensesQueries`, `Access`, `UniqList`, `Timeoffs`, `TimeoffsQueries`, `Organization`, `Frontend`.

## Model

| member | source | states |
|---|---|---|
| InvoiceLedger.SumPaidInvoices | services/apps/expenses-service/src/helpers/sumPaidInvoices.ts:4-13 | The result equals `Spend`, the sum of the amounts of the IN_PROGRESS, PAID and WAITING_APPROVAL invoices. |
| InvoiceLedger.FoldCommittedIsSpend | services/apps/expenses-service/src/helpers/sumPaidInvoices.ts:5-12 | Filtering by the three committed statuses and then folding `sum + amount` from any start value adds exactly `Spend` to it. |
| InvoiceLedger.SumPaidBase | services/apps/expenses-service/src/helpers/sumPaidInvoices.ts:12 | The empty list sums to 0; a single invoice contributes its amount unless it is REJECTED. |
| InvoiceLedger.SumPaidAppend | services/apps/expenses-service/src/helpers/sumPaidInvoices.ts:5-12 | The sum is additive over concatenation. |
| InvoiceLedger.SumPaidFilterCons | services/apps/expenses-service/src/helpers/sumPaidInvoices.ts:5-12 | Under any further filter, the head invoice contributes its committed amount exactly when it passes the filter. |
| InvoiceLedger.RejectedContributesNothing | services/apps/expenses-service/src/helpers/sumPaidInvoices.ts:5-11 | Inserting a REJECTED invoice anywhere leaves the sum unchanged. |
| InvoiceLedger.SumPaidPermutation | services/apps/expenses-service/src/helpers/sumPaidInvoices.ts:12 | Two lists with the same multiset of invoices have the same sum, so order does not matter. |
| InvoiceLedger.SumPaidNonNegative | services/apps/expenses-service/src/helpers/sumPaidInvoices.ts:12 | With non-negative amounts the sum is at least 0. |
| InvoiceLedger.SumPaidMonotone | services/apps/expenses-service/src/helpers/sumPaidInvoices.ts:12 | Appending an invoice with a non-negative amount never decreases the sum. |
| InvoiceLedger.SumPaidFilterBound | services/apps/expenses-service/src/helpers/sumPaidInvoices.ts:5-12 | With non-negative amounts, the sum over any sub-selection is at most the sum over the whole list. |
| InvoiceLedger.SumPaidFilterImplies | services/apps/expenses-service/src/helpers/sumPaidInvoices.ts:5-12 | With non-negative amounts, a stricter selection never sums to more than a looser one. |
| Expenses.AdmitCases | services/apps/expenses-service/src/commands/invoices/create-invoice.command.ts:28-41 | Creation fails with not-found exactly when no category has the id. It passes exactly when the category exists and the committed spend of ALL this year's invoices plus the amount is strictly below that category's limit, so reaching the limit exactly is refused. Every other outcome is `BadRequest('The limit is exceeded')`: for an existing category, exactly when that sum reaches the limit. |
| Expenses.AdmittedStaysBelowLimit | services/apps/expenses-service/src/commands/invoices/create-invoice.command.ts:33-46 | With non-negative amounts, after an admitted creation both the year's global committed spend and the category's own committed spend stay strictly below the category limit. |
| Expenses.GlobalSumRefusesWithinCategoryBudget | services/apps/expenses-service/src/commands/invoices/create-invoice.command.ts:33-41 | A concrete ledger where the category's own spend plus the amount is under its limit, yet creation is refused with 'The limit is exceeded' because spend in another category counts. |
| Expenses.ExpensesDatabase.CreateInvoice | services/apps/expenses-service/src/commands/invoices/create-invoice.command.ts:28-47 | The outcome is the admission decision. On success exactly the stored invoice is appended (DTO fields as given, including the DTO's status, plus the caller's id). On refusal both tables are unchanged; categories are never changed. |
| Expenses.CascadeReject | services/apps/expenses-service/src/commands/categories/update-category-limit.command.ts:39-49 | The cascade keeps the number of invoices. |
| Expenses.CascadeRejectAt | services/apps/expenses-service/src/commands/categories/update-category-limit.command.ts:39-49 | At each position, a WAITING_APPROVAL or IN_PROGRESS invoice of the category created in the current year becomes REJECTED. Every other invoice keeps its status: paid, rejected, other year, other category. No field other than status changes. |
| Expenses.CascadeIdempotent | services/apps/expenses-service/src/commands/categories/update-category-limit.command.ts:36-49 | Running the cascade twice gives the same list as running it once. |
| Expenses.CascadeOneContribution | services/apps/expenses-service/src/commands/categories/update-category-limit.command.ts:40-48 | After one loop step an invoice counts toward the category's committed spend of the year exactly when it was already PAID. |
| Expenses.CascadeLeavesPaidSpend | services/apps/expenses-service/src/commands/categories/update-category-limit.command.ts:36-49 | After the cascade, the category's committed spend for the year equals the amount it had already paid. |
| Expenses.UnknownCategoryLimit | services/apps/expenses-service/src/commands/categories/update-category-limit.command.ts:31-34 | A limit change for an unknown category fails with not-found; the database method then leaves both tables unchanged. |
| Expenses.CategoryIndexAfterLimit | services/apps/expenses-service/src/commands/categories/update-category-limit.command.ts:52 | Writing the limit does not move the category or change its lookup. |
| Expenses.UpdateLimitEffect | services/apps/expenses-service/src/commands/categories/update-category-limit.command.ts:30-55 | For an existing category, the update succeeds and the category's limit becomes the new value. Other categories are unchanged. The invoices are unchanged unless the limit strictly decreases, in which case they are the cascade's result. |
| Expenses.UpdateLimitIdempotent | services/apps/expenses-service/src/commands/categories/update-category-limit.command.ts:30-55 | Applying the same new limit to the result of a successful update changes nothing. |
| Expenses.ExpensesDatabase.UpdateCategoryLimit | services/apps/expenses-service/src/commands/categories/update-category-limit.command.ts:30-55 | The index loop rewrites the invoice table in place. The new tables and the outcome are those of `ApplyUpdateCategoryLimit`, whose effect `UpdateLimitEffect` describes; an unknown category changes nothing. |
| Expenses.UpdateStatusCases | services/apps/expenses-service/src/commands/invoices/update-invoice-status.command.ts:31-48 | A status change of a stored invoice succeeds exactly when the caller is not USER and the invoice is not PAID. USER gets 'No access' before the paid check. Any other caller asking about a PAID invoice gets 'Cannot change status of the paid invoice'. On success only that invoice's status changes, to the requested value (a REJECTED invoice can be reopened), and the categories are unchanged. |
| Expenses.UnknownInvoiceStatus | services/apps/expenses-service/src/commands/invoices/update-invoice-status.command.ts:32-34 | A status change for an id that matches no stored invoice fails with not-found. |
| Expenses.PaidIsFinal | services/apps/expenses-service/src/commands/invoices/update-invoice-status.command.ts:41-43 | A PAID invoice's status can never be changed, whoever asks. Every caller other than USER gets BadRequest 'Cannot change status of the paid invoice'. |
| Expenses.ExpensesDatabase.UpdateInvoiceStatus | services/apps/expenses-service/src/commands/invoices/update-invoice-status.command.ts:31-48 | The outcome and the new tables are those of `ApplyUpdateInvoiceStatus`: not found, then the role check, then the paid check; a refused call changes nothing. |
| Expenses.UnknownInvoiceDelete | services/apps/expenses-service/src/commands/invoices/delete-invoice.command.ts:29-31 | Deleting an id that matches no stored invoice fails with not-found. |
| Expenses.FilterKeepsUniqueIds | services/apps/expenses-service/src/commands/invoices/delete-invoice.command.ts:52 | Removing rows keeps primary keys unique. |
| Expenses.FilterOutUniqueId | services/apps/expenses-service/src/commands/invoices/delete-invoice.command.ts:52 | With unique keys, deleting by an invoice's key removes exactly that invoice and keeps the others in order. |
| Expenses.DeleteCases | services/apps/expenses-service/src/commands/invoices/delete-invoice.command.ts:28-53 | Deletion succeeds exactly when the invoice is WAITING_APPROVAL or IN_PROGRESS and the caller is ADMIN, MANAGER or the owner. A processed invoice fails with the processed error whoever asks. On success exactly that invoice is removed; the other invoices and the categories are unchanged. |
| Expenses.ExpensesDatabase.DeleteInvoice | services/apps/expenses-service/src/commands/invoices/delete-invoice.command.ts:28-53 | The outcome and the new tables are those of `ApplyDeleteInvoice`, and primary keys stay unique. |
| ExpensesQueries.InvoiceDataSelection | services/apps/expenses-service/src/queries/user/get-invoice-data.query.ts:33-39 | Every returned invoice is stored, belongs to the caller, was created in the requested year, and has a listed status when the status filter is non-empty. Every stored invoice meeting those conditions is returned. |
| ExpensesQueries.EmptyStatusFilterIsNoFilter | services/apps/expenses-service/src/queries/user/get-invoice-data.query.ts:37 | An empty status list gives the same answer as no status list, and then every invoice of the caller in that year is returned. |
| Ordering.SortBy | services/apps/expenses-service/src/queries/user/get-invoice-data.query.ts:40-42 | Rows come back sorted by the ordering key, as a permutation of the stored rows. |
| ExpensesQueries.CategoryEntries | services/apps/expenses-service/src/queries/user/get-invoice-data.query.ts:40-48 | There is one category entry per stored category, following a permutation of the categories sorted by ascending `order`, and each entry carries that category's id and limit. |
| ExpensesQueries.UsedIsSelectedSpend | services/apps/expenses-service/src/queries/user/get-invoice-data.query.ts:49-51 | `used` (the committed spend of the returned invoices of the category) equals an independent recursion over the stored invoices that counts an invoice only if it is the caller's, of the year, passes the status filter and is in the category. |
| ExpensesQueries.InvoiceDataUsed | services/apps/expenses-service/src/queries/user/get-invoice-data.query.ts:46-52 | Each category entry's `used` is that per-user, per-year, status-filtered committed spend. |
| ExpensesQueries.UnusedCategoryIsZero | services/apps/expenses-service/src/queries/user/get-invoice-data.query.ts:49-51 | A category with no selected invoices reports `used` = 0. |
| ExpensesQueries.ReportRangeCheck | services/apps/expenses-service/src/commands/invoices/generate-report.command.ts:32-34 | The report fails exactly when start is later than end, with 'Start date must be before end date'; start equal to end is accepted. |
| ExpensesQueries.ReportSelection | services/apps/expenses-service/src/commands/invoices/generate-report.command.ts:36-43 | The selected invoices are exactly the stored ones created within [start, end], newest first, as a permutation of the in-range ones. |
| ExpensesQueries.HeaderLine | services/apps/expenses-service/src/commands/invoices/generate-report.command.ts:60-63 | The header row joins to `Email,Amount,Status,Created At,Description`. |
| ExpensesQueries.ReportStartsWithHeader | services/apps/expenses-service/src/commands/invoices/generate-report.command.ts:60-64 | The report text starts with the header line. |
| ExpensesQueries.RowHasNoNewline | services/apps/expenses-service/src/commands/invoices/generate-report.command.ts:49-63 | A row contains no line break when neither the description, the email nor the timestamp text contains one. |
| ExpensesQueries.LinesHaveNoNewline | services/apps/expenses-service/src/commands/invoices/generate-report.command.ts:49-63 | Under the same conditions, no header or row line contains a line break. |
| ExpensesQueries.SplitReportLines | services/apps/expenses-service/src/commands/invoices/generate-report.command.ts:62-64 | Splitting the '\n'-joined lines gives back the header followed by one row per invoice, in order, so there is no trailing newline. |
| ExpensesQueries.ReportLineStructure | services/apps/expenses-service/src/commands/invoices/generate-report.command.ts:36-64 | Given line-break-free text fields, the report has exactly one line per selected invoice after the header, in query order. |
| ExpensesQueries.RowFieldStructure | services/apps/expenses-service/src/commands/invoices/generate-report.command.ts:49-63 | Given comma-free text fields, a row splits into exactly five fields: the email, the amount (its text parses back to the amount), the status, the creation timestamp and the description. |
| ExpensesQueries.MissingMemberEmptyEmail | services/apps/expenses-service/src/commands/invoices/generate-report.command.ts:50-52 | A user missing from the directory gets an empty email field, so the row starts with a comma. |
| ExpensesQueries.UnescapedCommaSplitsField | services/apps/expenses-service/src/commands/invoices/generate-report.command.ts:62-64 | Fields are not quoted or escaped: a description containing a comma makes the row split into six fields instead of five. |
| Access.RoleNames | services/apps/expenses-service/src/helpers/validateRole.ts:7 | The message lists each allowed role by its enumeration value, in the given order. |
| Access.ValidateRoleCases | services/apps/expenses-service/src/helpers/validateRole.ts:4-10 | `validateRole` passes exactly when the role is allowed; otherwise it fails with Forbidden. An empty allowed list always fails. |
| Access.RefusalNamesAllowedRoles | services/apps/expenses-service/src/helpers/validateRole.ts:6-8 | The refusal message contains the name of every allowed role. |
| Access.CanActivateCases | services/libs/auth/src/roles.guard.ts:12-27 | With no roles metadata the request is allowed. With metadata but no user it is denied. Otherwise it is allowed exactly when the user's role is listed, so an empty list denies everyone. |
| Access.GuardAgreesWithHelper | services/libs/auth/src/roles.guard.ts:22-26 | For an authenticated user, the guard and `validateRole` agree on every role list. |
| Timeoffs.UpdateLeaveRequestCases | services/apps/timeoffs-service/src/commands/admin/update-leave-request.command.ts:32-51 | Resolution succeeds exactly when the caller represents the request's team and the request is Waiting. Otherwise it fails with not-found, or with 'Leave request is not waiting for approval'. On success only that request changes: its status and its reviewer (the caller). |
| Timeoffs.UnknownLeaveRequest | services/apps/timeoffs-service/src/commands/admin/update-leave-request.command.ts:35-40 | A request id that matches no request of a team the caller represents fails with not-found. |
| Timeoffs.ResolvedIsFinal | services/apps/timeoffs-service/src/commands/admin/update-leave-request.command.ts:41-50 | Once a request is resolved to Approved or Declined, every further resolution fails. |
| Timeoffs.TimeoffsDatabase.UpdateLeaveRequest | services/apps/timeoffs-service/src/commands/admin/update-leave-request.command.ts:32-51 | The outcome and the new tables are those of `ApplyUpdateLeaveRequest`; a refused call changes nothing. |
| UniqList.Uniq | services/apps/timeoffs-service/src/commands/admin/create-team.command.ts:35 | `uniq` returns a duplicate-free list containing exactly the input's values. |
| UniqList.UniqOfNoDup | services/apps/timeoffs-service/src/commands/admin/create-team.command.ts:35 | A list without duplicates is returned unchanged. |
| UniqList.UniqHead | services/apps/timeoffs-service/src/commands/admin/create-team.command.ts:35 | The first element of a non-empty list stays first. |
| UniqList.UniqIdempotent | services/apps/timeoffs-service/src/commands/admin/update-team.command.ts:37 | `uniq` is idempotent. |
| UniqList.UniqPrefix | services/apps/timeoffs-service/src/commands/admin/update-team.command.ts:37 | `uniq(a)` is a prefix of `uniq(a ++ b)`. |
| UniqList.UniqAbsorbs | services/apps/timeoffs-service/src/commands/admin/update-team.command.ts:37 | Appending values already present does not change `uniq`. |
| UniqList.MergeIdempotent | services/apps/timeoffs-service/src/commands/admin/update-team.command.ts:37 | Merging the same additions a second time changes nothing. |
| Timeoffs.InitialMembersShape | services/apps/timeoffs-service/src/commands/admin/create-team.command.ts:35 | The new team's member list starts with the creator, has no duplicates, contains every given member and nothing else, and equals the given list when it had no repeats. |
| Timeoffs.TimeoffsDatabase.CreateTeam | services/apps/timeoffs-service/src/commands/admin/create-team.command.ts:27-39 | A caller other than MANAGER or ADMIN gets Forbidden and nothing is stored. Otherwise the team is added with the creator as representative and `InitialMembers` as its members, and its new id is returned. |
| Timeoffs.MergeMembersShape | services/apps/timeoffs-service/src/commands/admin/update-team.command.ts:37 | The merged member list has no duplicates and keeps a duplicate-free old list as its prefix. It contains exactly the old and the added members, and merging the same additions again changes nothing. |
| Timeoffs.MergeMembersCases | services/apps/timeoffs-service/src/commands/admin/update-team.command.ts:28-40 | A caller other than MANAGER or ADMIN gets Forbidden. For an allowed caller, the call succeeds exactly when the team exists, and an unknown team gives NotFound for `TeamEntity`. On success the target team's members become `MergeMembers(old, added)`. Every other team's member list, and every team's id, name and representative, are unchanged, as are the requests. Repeating the call gives the same result. |
| Timeoffs.TimeoffsDatabase.MergeInto | services/apps/timeoffs-service/src/commands/admin/update-team.command.ts:29-39 | Role check, team lookup and member-list write, with the outcome and new tables of `ApplyMergeMembers`. |
| Timeoffs.TimeoffsDatabase.UpdateTeam | services/apps/timeoffs-service/src/commands/admin/update-team.command.ts:28-40 | The outcome and the new tables are those of `ApplyMergeMembers`. |
| Timeoffs.TimeoffsDatabase.AddToTeam | services/apps/timeoffs-service/src/commands/admin/add-to-team.command.ts:26-38 | The same transition as the update-team handler: role check, team lookup, member union. |
| TimeoffsQueries.UserStatsCases | services/apps/timeoffs-service/src/queries/get-user-stats.query.ts:30-55 | The query fails exactly when the settings row is missing, and then it gives NotFound for `SettingsEntity`. Otherwise the totals are the configured maxima and `used` is the count of approved requests of that type, user and team. |
| TimeoffsQueries.CountIsReference | services/apps/timeoffs-service/src/queries/get-user-stats.query.ts:35-53 | The filter-and-length computation equals an independent count of the matching requests. |
| TimeoffsQueries.OthersNeverCount | services/apps/timeoffs-service/src/queries/get-user-stats.query.ts:35-41 | Inserting a request that is not Approved, or belongs to another user or team, leaves every count unchanged. |
| TimeoffsQueries.RequestsNotDays | services/apps/timeoffs-service/src/queries/get-user-stats.query.ts:35-53 | `used` counts requests, not days: a 30-day request and a 1-day request both count 1. |
| TimeoffsQueries.TeamLeaveRequestsCases | services/apps/timeoffs-service/src/queries/get-team-leave-requests.query.ts:30-71 | Not-found exactly when no team has the id. Forbidden exactly when the team exists and the caller is neither a member nor the representative. On success the result echoes the team's id and name, and its items are exactly the projections of the requests of that team whose user is a member. |
| TimeoffsQueries.DisplayNameCases | services/apps/timeoffs-service/src/queries/get-team-leave-requests.query.ts:62 | An item's name is the first matching directory user's email, or 'unknown' when the user is missing (or the email is empty). |
| TimeoffsQueries.GetTeamCases | services/apps/timeoffs-service/src/queries/get-team.query.ts:21-46 | Reading a stored team succeeds exactly for members and the representative. Anyone else gets Forbidden with a message naming the caller id and the team id. The result copies id, name and representative, with one member entry per member id, in order, whose name is the id. |
| TimeoffsQueries.UnknownTeamRead | services/apps/timeoffs-service/src/queries/get-team.query.ts:22-24 | Reading a team whose key no stored team has gives NotFound for `TeamEntity`, whoever the caller is. |
| TimeoffsQueries.ReadsAgree | services/apps/timeoffs-service/src/queries/get-team.query.ts:22-33 | The team query and the team-requests query accept exactly the same callers for the same team. |
| Organization.DomainEntity.constructor | services/libs/ddd/src/types/domain.entity.ts:9-14 | The entity is stored as given; the event log is the given list, or empty when none is given. |
| Organization.OrganizationAggregate.constructor | services/libs/ddd/src/types/domain.entity.ts:9-14 | A new aggregate's state is the given entity and the given (or empty) log. |
| Organization.FirstUserIsAdmin | services/apps/user-service/src/users/domain/organization.domain.entity.ts:57-71 | With no users, creation needs no invite and adds one ADMIN user and one create-user event with role ADMIN; invites are untouched. |
| Organization.LaterUserNeedsInvite | services/apps/user-service/src/users/domain/organization.domain.entity.ts:54-87 | With users present, creation succeeds exactly when an invite has the email, and fails otherwise with 'User is not invited' (400). On success the user gets the first matching invite's role and a matching event is logged; the invite is not consumed. |
| Organization.OrganizationAggregate.CreateUser | services/apps/user-service/src/users/domain/organization.domain.entity.ts:53-88 | Updates the entity and log in place, to the state and outcome of `ApplyCreateUser`; a refused call changes nothing. |
| Organization.DeleteUserCases | services/apps/user-service/src/users/domain/organization.domain.entity.ts:90-105 | Deletion succeeds exactly when both ids are non-empty, differ, and belong to stored users. On success only a delete-user event is appended; the user list is unchanged. A missing user, an empty id or an id-less user gives 'User not found'; otherwise the refusal is 'Cannot remove yourself'. |
| Organization.CannotRemoveYourself | services/apps/user-service/src/users/domain/organization.domain.entity.ts:99-102 | A user can never delete themselves. For an existing user with a non-empty id, the refusal is 'Cannot remove yourself'. |
| Organization.OrganizationAggregate.DeleteUser | services/apps/user-service/src/users/domain/organization.domain.entity.ts:90-105 | State and outcome are those of `ApplyDeleteUser`. |
| Organization.CreateInviteCases | services/apps/user-service/src/users/domain/organization.domain.entity.ts:107-122 | An invite is created exactly when no invite and no user has the email. An existing invite for the email is checked first and gives 'Invite already exists'. Otherwise an existing user with the email gives 'User already exists'. Neither error carries a status code. It is appended together with a create-invite event, invite emails stay distinct, and a second identical request fails with 'Invite already exists'. |
| Organization.OrganizationAggregate.CreateInvite | services/apps/user-service/src/users/domain/organization.domain.entity.ts:107-122 | State and outcome are those of `ApplyCreateInvite`. |
| Organization.DeleteInviteCases | services/apps/user-service/src/users/domain/organization.domain.entity.ts:124-135 | Deletion succeeds exactly when an invite has the id, else 'Invite not found' (404). On success every invite with that id is gone, all others remain, a delete-invite event is appended, and deleting again fails. |
| Organization.OrganizationAggregate.DeleteInvite | services/apps/user-service/src/users/domain/organization.domain.entity.ts:124-135 | State and outcome are those of `ApplyDeleteInvite`. |
| Organization.EventLogAppendOnly | services/apps/user-service/src/users/domain/organization.domain.entity.ts:53-135 | Every successful operation appends exactly one event and keeps the earlier log as a prefix. |
| Frontend.TransformQueryParamsIsKept | frontend/src/utils/transformQueryParams.ts:1-29 | Absent params give no entries. Otherwise the reduce yields exactly the kept entries of the input (non-empty arrays encoded, truthy scalars as they are) in input order. |
| Frontend.ReduceIsKept | frontend/src/utils/transformQueryParams.ts:7-27 | Over distinct keys, the spreading reduce appends exactly the kept entries, in order, to the accumulator. |
| Frontend.StepNewKey | frontend/src/utils/transformQueryParams.ts:8-25 | One reduce step with a fresh key appends the transformed entry when the value is kept and leaves the accumulator as it was otherwise. |
| Frontend.PutNewKey | frontend/src/utils/transformQueryParams.ts:11-14 | Spreading a fresh key into an object appends it after the existing keys. |
| Frontend.KeptEntryAt | frontend/src/utils/transformQueryParams.ts:9-24 | An empty array or a falsy scalar is omitted. A non-empty array becomes its encoded string under the same key. A truthy scalar is kept unchanged. |
| Frontend.EncodeArrayRoundTrip | frontend/src/utils/transformQueryParams.ts:13 | The array encoding `["a","b"]` decodes back to the items, given items without commas. |
| Frontend.TranslateCases | frontend/src/utils/translate.ts:3-16 | The four statuses get four distinct labels, none equal to a raw status value; any other value is returned unchanged. |
| Frontend.TranslateIdempotent | frontend/src/utils/translate.ts:3-16 | Translating a label again changes nothing. |

## Left out

- Persistence, transport and external services are not part of this model: repositories, controllers, the gateway, the S3 pre-signed URLs (the dashboard returns the stored invoice rows rather than `toInvoiceDto` objects), Supabase authentication, gRPC and the event replay of the organisation repository. Each table is a sequence field of a class, and an unordered `find` returns rows in storage order.
- Amounts are integers (e.g. cents). The numeric column transformer's `parseFloat` and floating-point sums are not modelled.
- The clock is a parameter: a creation time is `Instant(year, millis)`, and `new Date().getFullYear()` is the `year`/`now` argument.
- `getYearFilter` is modelled as the year attribute of the row. The source's filter is `Between(1 January y, 1 January y+1)` in local time, which includes both ends (services/libs/shared/src/typeorm/getYearFilter.ts:4-7). An invoice created at exactly 1 January y+1 00:00:00.000 therefore falls in both years, in the create-invoice spend and in the dashboard. The model puts it in year y+1 only.
- Expenses.GenerateReport: `Date.toISOString` is the parameter `iso`, and the start and end bounds are milliseconds; the parsing of the date strings is not modelled.
- Primary keys are parameters, and where they come from is not modelled. The team key is generated by the database (`PrimaryGeneratedColumn('uuid')`). The invoice entity declares a plain `uuid` primary column with no generator (services/apps/expenses-service/src/entities/invoice.entity.ts:16-17), and the create-invoice DTO carries no id. The migration services/apps/expenses-service/src/migrations/1741848275652-GeneratedUuidForInvoices.ts:7 gives that column the database default `uuid_generate_v4()`, so the database creates the invoice key too. `CreateInvoice` and `CreateTeam` take the key as a parameter and require that no stored row uses it.
- The user directory (`userClient.findMany`) is a parameter list of `(id, email)` members.
- Ties under `ORDER BY` have no promised order in the database. The model keeps ties in storage order, and its contracts state only sortedness and permutation.
- The `update-category-limit` handler saves the category with its loaded invoices. The model assumes the cascade is persisted by that save.
- Leave-request creation is not modelled: the handler only saves a row, with no rule to state. Settings updates and the other plain repository reads and writes are left out for the same reason.
- Transactions, locks and concurrent requests are not modelled; every handler runs to completion before the next begins.
- Organization.DomainEntity.constructor: the source keeps references to the caller's entity object and event array (services/libs/ddd/src/types/domain.entity.ts:10-13). The aggregate then mutates that entity in place, pushing to `users` and `invites` and reassigning `invites` (services/apps/user-service/src/users/domain/organization.domain.entity.ts:59, 76, 120, 131). The model treats the entity and the log as values, so aliasing between the caller's objects and the aggregate's state is not modelled.
- Organization: the user service's exception class is not part of this model, so its default status code is unknown and is written `None` where no status is passed.
- Frontend.TransformQueryParams: the final `URLSearchParams` serialisation is not modelled; the result is the list of entries it would serialise. `Object.entries` puts integer-like keys first; the model takes the entries in the order given. Numbers, booleans and null stand for the scalar values a caller passes.
- Frontend.TranslateInvoiceStatus takes the raw status text; a value outside the enumeration is returned unchanged.
- Access.CanActivate: the console message logged on refusal is not modelled.
