# axis-web core rules in Dafny

axis-web is a web application for managing trademark-registration cases
between clients, attorneys, internal staff and administrators. Most of the
repository is page markup and thin request handlers over a Prisma store and
the better-auth library. This project models the small rules inside those
handlers and pages, and proves what they promise:

- **Case lifecycle display** (`CaseStatus`, `ProgressBar`, `ClientCasesPage`).
  The 17 case statuses, their labels and the status filter options. The
  six-step progress bar, built in an array. The client case list's sort
  toggle and query string.
- **Roles and profiles** (`Entities`, `StaffAdmin`, `CaseListing`, `Inbox`).
  An abstract store (`Entities.Store`) of users with roles, Attorney,
  InternalStaff and Client profile rows, cases and messages. It covers the
  staff-administration PATCH and POST handlers with their profile sync, and
  the admin and client case lists with their filters and sort keys. It also
  covers the message inbox: the cases each role may see, the per-case unread
  count, flag and latest message, the ordering of the list (an in-place sort
  on an array) and the total unread count.
- **Numbering** (`Numbering`, `Entities.Store`, `CaseCreation`). Customer
  numbers `MJdddd` and case numbers `MJ` + customer digits + a four-digit
  per-client sequence, allocated as max + 1. Also `POST /api/cases`, which
  checks the request and inserts a case with its initial values.
- **Authentication input** (`Auth`, `Cookie`). The ordered validation chains
  of sign-up and sign-in, e-mail normalisation, the e-mail and password
  patterns written as character predicates, and the session duration. The
  mapping of library errors to `AUTH_xxx` codes and statuses. The rewrite
  of the `Max-Age` and `Expires` cookie attributes (sections 4.1.2.1 and
  4.1.2.2 of RFC 6265).
- **Trademark-search form** (`ClassSelections`, `ConsultationRoute`,
  `TrademarkClasses` with `TrademarkClassFacts`, `TrademarkSearch`, `NewCasePage`, `UrlParams`).
  Upserting and sanitising class selections, route normalisation, the Nice
  classification table (classes 1 to 45) and the AI category details. The
  search handler's query string and the new-case page that decodes it, plus
  that page's form checks and save request.

`Text` and `JsonValue` hold the JavaScript string and JSON semantics that
these rules rely on. They cover `trim` with the ECMAScript white-space set,
`length` in UTF-16 units, `parseInt`, `padStart`, `split`/`join`, and
truthiness.

Where the code reads and then writes the store, it is a `method` on
`Entities.Store` or a handler method that modifies it. Its `ensures` ties
the new state to a function of the old one, and lemmas prove the promised
properties about that function. Pure lookups and formatting are functions.

## Model

| member | source | states |
|---|---|---|
| CaseStatus.StatusKeysDistinct | src/app/client/cases/page.tsx:132-150 | the 17 statuses are listed once each and their 17 keys are pairwise distinct |
| CaseStatus.KeyInjective | src/app/client/cases/page.tsx:132-150 | two statuses with the same stored key are the same status |
| CaseStatus.ParseStatus | src/app/client/cases/page.tsx:131-151 | a string is read as the status whose key it is, and as no status exactly when no key equals it |
| CaseStatus.ParseKey | src/app/client/cases/page.tsx:131-151 | reading the key of a status gives that status back |
| CaseStatus.GetStatusLabelSpec | src/app/client/cases/page.tsx:131-152 | `getStatusLabel` maps each key to its fixed label and returns any other string unchanged |
| CaseStatus.LabelsNonEmpty | src/app/client/cases/page.tsx:151 | no label is empty, so `statusMap[status] \|\| status` never falls back for a known key |
| CaseStatus.StatusOptionAt | src/app/client/cases/page.tsx:20-39 | option i + 1 is the key and label of the i-th status |
| CaseStatus.StatusOptionsMatchLabels | src/app/client/cases/page.tsx:20-39 | the options are "all"/すべて then the 17 keys in order, each labelled as `getStatusLabel` labels it |
| CaseStatus.EveryStatusOffered | src/app/client/cases/page.tsx:20-39 | every status is offered with its key and label |
| CaseStatus.OptionLabelAgrees | src/app/client/cases/page.tsx:131-152 | the label shown for a status key is the status's label |
| CaseStatus.TrademarkTypeLabel | src/app/client/cases/page.tsx:155-157 | TEXT gives 文字, LOGO gives 図形, every other string is returned unchanged |
| ClientCasesPage.HandleSort | src/app/client/cases/page.tsx:163-170 | the clicked column becomes the sort column; the direction flips when it already was, and is ascending otherwise |
| ClientCasesPage.SortTwiceRestores | src/app/client/cases/page.tsx:163-170 | clicking the sort column twice restores the sort |
| ClientCasesPage.SortAlwaysSet | src/app/client/cases/page.tsx:163-170 | a click never clears the sort column |
| ClientCasesPage.BuildCasesQuery | src/app/client/cases/page.tsx:82-98 | the fresh `URLSearchParams` holds exactly the pairs of `CasesQuery`, in the order the page sets them |
| ClientCasesPage.SetNew | src/app/client/cases/page.tsx:84 | `params.set` of a name not yet present appends one pair |
| ClientCasesPage.PartsNamesDistinct | src/app/client/cases/page.tsx:82-98 | no pair set earlier has the name of a pair set later, so every `set` appends |
| ClientCasesPage.CasesQueryParams | src/app/client/cases/page.tsx:82-98 | status and trademarkType are sent only when not "all", classes and q only when non-empty, sortBy and sortOrder only when a sort column is set, each with its filter's value |
| ProgressBar.GetProgressSteps | src/components/case/progress-bar.tsx:23-102 | the six step states that the branch chain marks for the status (`Marks(StageFromKey(s))`), in a fresh array |
| ProgressBar.CompleteAll | src/components/case/progress-bar.tsx:97-99 | every step of the array becomes completed |
| ProgressBar.MarksOfStage | src/components/case/progress-bar.tsx:23-102 | the states the method returns are those of the step list `ProgressSteps` |
| ProgressBar.StageFromKeyAgrees | src/components/case/progress-bar.tsx:46-102 | the branch chain gives each key the stage of its status and every other string stage 0 |
| ProgressBar.ProgressStepsShape | src/components/case/progress-bar.tsx:24-43 | exactly six steps, ids 1..6 in order, with their fixed labels |
| ProgressBar.DraftProgress | src/components/case/progress-bar.tsx:46-47 | DRAFT: step 1 current, steps 2-6 pending |
| ProgressBar.StateOfStep | src/components/case/progress-bar.tsx:46-102 | each step's state is the one its stage gives step i + 1 |
| ProgressBar.CurrentStepOfStatus | src/components/case/progress-bar.tsx:48-91 | for a status in stages 1..6, that step is current, exactly the earlier ones are completed and the later ones pending |
| ProgressBar.RegisteredAllCompleted | src/components/case/progress-bar.tsx:92-99 | REGISTRATION_COMPLETED and AWAITING_RENEWAL: all six steps completed |
| ProgressBar.OtherStatusAllPending | src/components/case/progress-bar.tsx:100-102 | IN_DISPUTE, REJECTED, ABANDONED and unknown strings: all six steps pending |
| ProgressBar.ProgressWellShaped | src/components/case/progress-bar.tsx:46-99 | completed steps, then at most one current step, then only pending steps |
| ProgressBar.CompletedBeforeCurrent | src/components/case/progress-bar.tsx:48-91 | in a well-shaped list, a current entry at position k has exactly k completed entries |
| ProgressBar.CurrentStepCompletedCount | src/components/case/progress-bar.tsx:48-91 | when step k is current, exactly k - 1 steps are completed |
| StaffAdmin.PatchStaff | src/app/api/admin/staff/route.ts:95-294 | the status is `PatchStatus` and the new store is `PatchDb`; a rejected request changes nothing, a successful one reports the target's old role |
| StaffAdmin.SetRoleAndProfiles | src/app/api/admin/staff/route.ts:206-281 | the role update followed by the profile-row sync: the store becomes `SyncRole` of the old one |
| StaffAdmin.PatchRejectionOrder | src/app/api/admin/staff/route.ts:101-200 | in the route's order: 401 exactly without a session, 403 exactly for a non-ADMIN caller, 400 without a body, 500 for a null body, 400 when userId or role is missing, 400 for a role outside the four, 400 for a change of one's own role, 500 for a non-string id, 404 for an unknown target; 200 exactly when every check passes |
| StaffAdmin.PatchProfileRows | src/app/api/admin/staff/route.ts:206-281 | after a change the target has the new role, an Attorney row iff ATTORNEY and an InternalStaff row iff INTERNAL_STAFF; an existing row keeps its id and a created one gets the new id |
| StaffAdmin.PatchOthersUntouched | src/app/api/admin/staff/route.ts:206-281 | no other user, profile row, client row, case or message changes |
| StaffAdmin.PatchKeepsCallerAdmin | src/app/api/admin/staff/route.ts:171-182 | the caller cannot change its own role, so it keeps ADMIN access |
| StaffAdmin.PatchIdempotent | src/app/api/admin/staff/route.ts:206-281 | repeating the same change returns the same status and changes nothing more |
| StaffAdmin.PatchKeepsValid | src/app/api/admin/staff/route.ts:206-281 | the role change keeps every profile row tied to an existing user |
| StaffAdmin.PostStaff | src/app/api/admin/staff/route.ts:310-486 | the status is `PostStatus` and the new store is `PostDb`, with the customer number `generateCustomerNumber` issues |
| StaffAdmin.PostAccepted | src/app/api/admin/staff/route.ts:316-436 | a 201 means a session with ADMIN access, a complete body, an address no user has and a user from sign-up; the store is the new user plus its profile row |
| StaffAdmin.ReadCreateBodyOrder | src/app/api/admin/staff/route.ts:357-389 | null body gives 500; a missing email or password gives 400; an accepted body has a string email, a password and one of the four roles |
| StaffAdmin.PostNormalizesEmail | src/app/api/admin/staff/route.ts:391-442 | the created user has the trimmed name, the trimmed and lower-cased address that no earlier user has, and the requested role |
| StaffAdmin.PostRejectsTakenEmail | src/app/api/admin/staff/route.ts:394-409 | an address already in use after normalisation is refused with 400 and nothing changes |
| StaffAdmin.PostProfileRows | src/app/api/admin/staff/route.ts:444-472 | ATTORNEY gets an Attorney row, INTERNAL_STAFF an InternalStaff row, CLIENT a Client row with the issued customer number, ADMIN none |
| StaffAdmin.AddProfileRows | src/app/api/admin/staff/route.ts:444-472 | the rows added for a user without a Client row, by role |
| StaffAdmin.NoClientRowForNewUser | src/app/api/admin/staff/route.ts:457-463 | a user unknown to the store has no Client row, so the CLIENT branch always creates one |
| StaffAdmin.PostKeepsOthers | src/app/api/admin/staff/route.ts:436-472 | creation keeps the store's keys valid and every existing user and row as it was |
| StaffAdmin.NewUserKeepsOthers | src/app/api/admin/staff/route.ts:439-472 | adding a fresh user with its profile row keeps the store valid and touches no existing row |
| CaseListing.CaseAdminAccessIffNotClient | src/app/api/admin/cases/route.ts:7-23 | admin-list access holds exactly for an existing user whose role is not CLIENT |
| CaseListing.ActiveParam | src/app/api/admin/cases/route.ts:60-63 | a parameter is active exactly when it is present and non-empty, and then has its value |
| CaseListing.ClassList | src/app/api/admin/cases/route.ts:91 | one trimmed entry per comma-separated part |
| CaseListing.Select | src/app/api/admin/cases/route.ts:145-159 | the rows returned are exactly the stored cases that match the filter |
| CaseListing.OrderChosenUnique | src/app/api/admin/cases/route.ts:129-142 | the sort rule leaves no choice: at most one `orderBy` meets it |
| CaseListing.ReadSort | src/app/api/admin/cases/route.ts:64-65 | sortBy is the parameter when non-empty, else updatedAt; the direction is ascending exactly when sortOrder is "asc" |
| CaseListing.AdminOrderBy | src/app/api/admin/cases/route.ts:129-142 | caseNumber, title, applicant, status and createdAt sort by that field, anything else by updatedAt; ascending iff sortOrder is "asc" |
| CaseListing.ClientOrderBy | src/app/api/cases/route.ts:86-94 | title and status sort by that field, anything else by updatedAt; ascending iff sortOrder is "asc" |
| CaseListing.AdminListCases | src/app/api/admin/cases/route.ts:25-170 | 401 without a session and 403 without access, before any query; otherwise the matching non-deleted cases of every user, total equal to their number, and the chosen sort |
| CaseListing.ClientListCases | src/app/api/cases/route.ts:7-122 | 401 without a session; otherwise the caller's matching non-deleted cases, total equal to their number, and the chosen sort |
| CaseListing.ListedIff | src/app/api/admin/cases/route.ts:78-118 | a case is listed exactly when it is stored and passes every active filter |
| CaseListing.MatchesBuildWhere | src/app/api/admin/cases/route.ts:78-118 | the `where` object means: not deleted, exact status and type, a class equal to a trimmed entry, the keyword in number, title or (admin only) applicant |
| CaseListing.ClientKeywordIgnoresApplicant | src/app/api/cases/route.ts:68-83 | the client list never looks at the applicant |
| CaseListing.ClientListWithinAdminList | src/app/api/cases/route.ts:48-83 | with the same query every case of a client's list is in the admin list |
| CaseListing.ClientListIsOwnCases | src/app/api/cases/route.ts:48-51 | the client list holds only the caller's non-deleted cases, and with no filter all of them |
| CaseCreation.StringItems | src/app/api/cases/route.ts:266 | the classes column takes an array whose items are all strings, item for item |
| CaseCreation.CreateCase | src/app/api/cases/route.ts:158-291 | the status is `CreateStatus` and the new store is `CreateDb`, whose one new row carries every column the route writes (trademarkDetails and classSelections included); the case number is returned exactly on 201 and is the new row's |
| CaseCreation.CreateRejectionOrder | src/app/api/cases/route.ts:164-239 | in the route's order: 401 exactly without a session, 404 exactly without a Client row, 400 without a body, 500 for a null body, 400 when title, trademark type or applicant is missing, 400 when classes is missing or its `length` is 0 (including an object whose own `length` member is 0), 500 when the database refuses a value; 201 exactly when every check passes, and then the class list is a non-empty list of strings |
| CaseCreation.NewCaseInitialValues | src/app/api/cases/route.ts:259-276 | a new case is a non-deleted DRAFT of the caller, no consultation started, no assignee, with classes; each optional text field is null exactly when it was falsy; trademarkDetails is stored as sent, and classSelections as sent when truthy and null otherwise |
| CaseCreation.JsonOrNull | src/app/api/cases/route.ts:268-270 | the class selections are stored exactly when they are truthy, and then as sent (the JSON copy of a parsed value is the value) |
| CaseCreation.OrNullIsNull | src/app/api/cases/route.ts:271-274 | `v \|\| null` stores null exactly when v is falsy |
| CaseCreation.NewCaseSequence | src/app/api/cases/route.ts:245-256 | the new sequence number exceeds every sequence number of the caller, deleted cases included, and is 1 for a first case |
| CaseCreation.CaseNumberCarriesSequence | src/app/api/cases/route.ts:242-256 | for a customer number MJdddd and a sequence below 10000, the case number is the customer number followed by the stored sequence in four digits |
| CaseCreation.SequenceNumbersAppend | src/app/api/cases/route.ts:245-256 | one more row adds its sequence number to its owner's list only |
| CaseCreation.CreateKeepsSequencesDistinct | src/app/api/cases/route.ts:245-276 | without concurrent requests a client's sequence numbers stay pairwise distinct |
| Numbering.MjNumbers | src/lib/number-generator.ts:10-16 | exactly the numbers starting with "MJ" |
| Numbering.MaxLex | src/lib/number-generator.ts:16-20 | the greatest of the numbers, taken from among them |
| Numbering.MaxLexIsGreatest | src/lib/number-generator.ts:16-20 | no number is greater than the one the descending sort puts first |
| Numbering.FirstCustomerNumber | src/lib/number-generator.ts:22-33 | with no "MJ" number the first customer number is MJ0001 |
| Numbering.NoMjMeansFirst | src/lib/number-generator.ts:22-33 | with no number starting with "MJ" the result is MJ0001 |
| Numbering.CustomerNumberDigits | src/lib/number-generator.ts:33 | for sequences 1..9999 the number is "MJ" and four digits whose value is the sequence |
| Numbering.NextCustomerSequenceOfWellFormed | src/lib/number-generator.ts:22-31 | with well-formed numbers the next sequence is the greatest one's digits plus 1 |
| Numbering.NewCustomerNumberIsGreatest | src/lib/number-generator.ts:8-34 | with well-formed numbers below MJ9999 the new number is well formed, new, and above every existing one in the store's order |
| Numbering.CustomerNumberBeyond9999 | src/lib/number-generator.ts:33 | `padStart` does not truncate: from 10000 on the digit part has five or more digits |
| Numbering.LexLessCommonPrefix | src/lib/number-generator.ts:16-18 | strings with a common prefix compare as their remainders do |
| Numbering.NextCaseSequence | src/lib/number-generator.ts:58-71 | 1 when there is no case, else one more than the largest sequence; above every existing one |
| Numbering.CaseNumberExtendsCustomerNumber | src/lib/number-generator.ts:73-75 | for a customer number starting with "MJ" the case number is the customer number followed by the padded sequence |
| Numbering.CaseNumberDecodes | src/lib/number-generator.ts:73-75 | for MJdddd and a sequence below 10000 the case number has 10 characters, starts with the customer number and ends in four digits whose value is the sequence |
| Numbering.CaseNumberInjective | src/lib/number-generator.ts:73-75 | distinct sequences below 10000 give distinct case numbers |
| Entities.ParseRole | src/app/api/admin/staff/route.ts:157-159 | a string names a role exactly when it is one of the four keys, and then is that role's key |
| Entities.ParseRoleKey | src/app/api/admin/staff/route.ts:157-159 | reading a role's key gives the role |
| Entities.SequenceNumbersOf | src/lib/number-generator.ts:58-71 | exactly the sequence numbers of the user's cases, deleted ones included |
| Entities.CustomerNumbers | src/lib/number-generator.ts:10-20 | the customer numbers of the Client rows, in table order |
| Entities.FindClient | src/lib/number-generator.ts:44-55 | the customer number of the user's Client row, or none exactly when the user has none |
| Entities.Store.GenerateCustomerNumber | src/lib/number-generator.ts:8-34 | the number `CustomerNumberFor` gives for the stored customer numbers |
| Entities.Store.GenerateCaseNumber | src/lib/number-generator.ts:42-76 | fails without a Client row; otherwise the customer number's digits then the next case sequence |
| ConsultationRoute.NormalizeUiConsultationRoute | src/lib/consultation-route.ts:10-17 | a value becomes a route exactly when it is "attorney_consultation" or "ai_self_service", and then spells that route; null, undefined and every other string give none |
| ConsultationRoute.NormalizeRouteName | src/lib/consultation-route.ts:10-17 | normalising a route's name gives the route back, so normalisation is idempotent |
| ClassSelections.SanitizeClassDetails | src/lib/trademark-class-selection.ts:13-15 | never longer; keeps exactly the entries whose trimmed text is non-empty |
| ClassSelections.SanitizeAppend | src/lib/trademark-class-selection.ts:13-15 | the filter distributes over concatenation, so order is kept |
| ClassSelections.SanitizeKeepsClean | src/lib/trademark-class-selection.ts:13-15 | a list without blank entries is left as it is |
| ClassSelections.SanitizeIdempotent | src/lib/trademark-class-selection.ts:13-15 | sanitising twice is sanitising once |
| ClassSelections.FindIndex | src/lib/trademark-class-selection.ts:25-27 | the first index holding the class code, or -1 exactly when none does |
| ClassSelections.UpsertPresent | src/lib/trademark-class-selection.ts:25-33 | a present class: same length, the first match replaced, every other position unchanged |
| ClassSelections.UpsertAbsent | src/lib/trademark-class-selection.ts:35 | an absent class: the new selection is appended |
| ClassSelections.UpsertHasEntry | src/lib/trademark-class-selection.ts:20-36 | the class holds exactly the given details afterwards, other classes' selections survive, nothing else appears |
| ClassSelections.UpsertIdempotent | src/lib/trademark-class-selection.ts:20-36 | upserting twice is upserting once |
| ClassSelections.UpsertKeepsDistinct | src/lib/trademark-class-selection.ts:20-36 | distinct class codes stay distinct |
| Inbox.CasesIn | src/app/api/messages/route.ts:49-108 | the non-deleted cases the role's filter admits, and none for the empty scope |
| Inbox.AccessibleCasesByRole | src/app/api/messages/route.ts:46-112 | CLIENT: its own non-deleted cases; ATTORNEY and INTERNAL_STAFF: the non-deleted cases assigned to their profile, none without one; ADMIN: every non-deleted case |
| Inbox.AdminSeesEverything | src/app/api/messages/route.ts:82-109 | no caller sees a deleted case, and an ADMIN sees every case anyone sees |
| Inbox.CaseMessages | src/app/api/messages/route.ts:150 | exactly the messages of the case, in the query's order |
| Inbox.CaseMessagesNewestFirst | src/app/api/messages/route.ts:143-150 | the messages of one case stay newest first |
| Inbox.CountUnreadSpec | src/app/api/messages/route.ts:151-158 | the unread count is 0 exactly when every message is the caller's own or read, and full exactly when none is |
| Inbox.SummarizeSpec | src/app/api/messages/route.ts:149-179 | unread at most total; flagged iff some message is; a latest message iff any, which is the newest and read iff the caller sent it or has a read row |
| Inbox.Communications | src/app/api/messages/route.ts:149-180 | one entry per accessible case, in order |
| Inbox.RankOrder | src/app/api/messages/route.ts:183-191 | ranking means more unread first and, among equal counts, flagged first |
| Inbox.RankedOrder | src/app/api/messages/route.ts:183-191 | a ranked list never has a larger unread count after a smaller one, nor a flagged entry after an unflagged one with the same count |
| Inbox.SortCommunications | src/app/api/messages/route.ts:183-197 | the array ends ranked and a permutation of its old contents |
| Inbox.Insert | src/app/api/messages/route.ts:183-197 | one insertion step: the prefix stays ranked and the contents a permutation |
| Inbox.Swap | src/app/api/messages/route.ts:183-197 | two neighbours exchanged, nothing else changed |
| Inbox.SumUnreadConcat | src/app/api/messages/route.ts:204 | the total of a concatenation is the sum of the totals |
| Inbox.SumUnreadPermutation | src/app/api/messages/route.ts:204 | the total does not depend on the order of the entries |
| Inbox.SumUnreadRemove | src/app/api/messages/route.ts:204 | removing one entry removes its count from the total |
| Inbox.ListCommunications | src/app/api/messages/route.ts:7-208 | 401 exactly without a session and 404 exactly for an unknown user, with nothing listed; otherwise a ranked permutation of the per-case entries and `totalUnread` equal to the sum of their unread counts |
| TrademarkClasses.IsAiCategoryOptionSpec | src/lib/trademark-classes.ts:9-22 | the guard holds exactly for the three category names |
| TrademarkClassFacts.NiceClassCodes | src/lib/trademark-classes.ts:28-89 | the table has 45 entries and entry i has code `String(i + 1)`, so the codes are "1" to "45" in ascending order (checked in groups of three by helper lemmas) |
| TrademarkClassFacts.NiceCodesDistinct | src/lib/trademark-classes.ts:28-89 | no two classes share a code |
| TrademarkClassFacts.AiClassDetailsKeysAreNiceCodes | src/lib/trademark-classes.ts:95-110 | every class with details ("9", "42", "45") is a class of the table |
| TrademarkClassFacts.AiClassDetailsClean | src/lib/trademark-classes.ts:95-110 | every detail list is non-blank and duplicate-free, so sanitising it changes nothing |
| TrademarkClassFacts.SoftwareDetailsClean | src/lib/trademark-classes.ts:96-100 | the list of class 9 is clean |
| TrademarkClassFacts.DevelopmentDetailsClean | src/lib/trademark-classes.ts:101-105 | the list of class 42 is clean |
| TrademarkClassFacts.LegalDetailsClean | src/lib/trademark-classes.ts:106-109 | the list of class 45 is clean |
| TrademarkClassFacts.ListClean | src/lib/trademark-classes.ts:95-110 | distinct entries without edge white space form a clean list that sanitising keeps |
| Auth.ErrorStatus | src/app/api/auth/sign-up/route.ts:26-33 | every error code maps to a 4xx or 5xx status, and to 500 exactly for AUTH_013 (sign-in's AUTH_007 is 403, src/app/api/auth/sign-in/route.ts:16-22) |
| Auth.EmailPatternShape | src/app/api/auth/sign-up/route.ts:35 | `/^[^\s@]+@[^\s@]+\.[^\s@]+$/` accepts exactly the strings with no white space, exactly one `@` that is not first, and a `.` strictly inside the part after it |
| Auth.EmailPatternToShape | src/app/api/auth/sign-up/route.ts:35 | a string split as the pattern demands has the global shape (one direction of the equivalence) |
| Auth.EmailShapeToPattern | src/app/api/auth/sign-up/route.ts:35 | a string of that shape splits as the pattern demands at its `@` and at a `.` after it (the other direction) |
| Auth.LookaheadContains | src/app/api/auth/sign-up/route.ts:36-37 | a `(?=.*[k])` lookahead succeeds exactly when a character of the class occurs before the first line terminator |
| Auth.PasswordRule | src/app/api/auth/sign-up/route.ts:36-37 | a password passes exactly when it has at least 12 UTF-16 units, no line terminator, and a lower-case letter, an upper-case letter, a digit and a non-alphanumeric character |
| Auth.SignUpAcceptance | src/app/api/auth/sign-up/route.ts:94-143 | sign-up accepts exactly the bodies passing every check, and then passes on the trimmed name, the trimmed lower-cased address and the unchanged password; every rejection is AUTH_001, AUTH_002 or AUTH_003 with status 400 |
| Auth.SignUpNameTooLong | src/app/api/auth/sign-up/route.ts:105-122 | the name-too-long message is given exactly for an object body whose name is a non-blank string longer than 100 UTF-16 units after trimming |
| Auth.SignUpEmailRejection | src/app/api/auth/sign-up/route.ts:124-131 | AUTH_001 is given exactly when the name passed and the address is a non-blank string whose trimmed lower-cased form fails the pattern |
| Auth.SignUpPasswordRejection | src/app/api/auth/sign-up/route.ts:133-139 | AUTH_002 is given exactly when everything before passed and the password is a non-empty string failing the strength pattern |
| Auth.SignInSkipsStrength | src/app/api/auth/sign-in/route.ts:91-106 | sign-in's credential checks differ from sign-up's only where sign-up refuses a weak password with AUTH_002 |
| Auth.SignUpBodySignsIn | src/app/api/auth/sign-in/route.ts:81-106 | any body sign-up accepts, sign-in accepts with the same credentials |
| Auth.AcceptedEmailNormalised | src/app/api/auth/sign-up/route.ts:128-131 | an accepted address is its own trimmed lower-cased form, with no white space and no upper-case ASCII letter |
| Auth.SessionDuration | src/app/api/auth/sign-up/route.ts:141-147 | an accepted body gets 7,776,000 seconds (90 days) exactly when `rememberMe` is `true`, and 2,592,000 seconds (30 days) otherwise |
| Auth.SignUpErrorMapping | src/app/api/auth/sign-up/route.ts:240-253 | a taken address is AUTH_009, a bad password length AUTH_002, an unmapped 401 AUTH_004, and anything else AUTH_013, each with its status |
| Auth.SignInErrorMapping | src/app/api/auth/sign-in/route.ts:180-195 | bad credentials or an unknown account, or an unmapped 401, give AUTH_004; an unverified address or an unmapped 403 gives AUTH_007; anything else gives AUTH_013 |
| Auth.ResolvedRoleValues | src/app/api/auth/sign-up/route.ts:200-204 | the reported role is the stored role in lower case, "client" only for the client role, and "client" when no row or no role is found |
| Auth.SetCookies | src/app/api/auth/sign-up/route.ts:222-227 | the collected cookies are at most as many as the headers |
| Auth.SetCookiesMembers | src/app/api/auth/sign-up/route.ts:222-227 | a value is collected exactly when some header named Set-Cookie (in any case) carries it |
| Auth.CollectSetCookies | src/app/api/auth/sign-up/route.ts:222-227 | the loop over the headers collects the Set-Cookie values in order |
| Auth.FormatAll | src/app/api/auth/sign-up/route.ts:229-237 | each collected cookie is rewritten to the session duration, and the order and count are kept |
| Auth.SignUpStatus | src/app/api/auth/sign-up/route.ts:85-253 | for the route as evidently intended (see Findings), sign-up ends in 201 exactly when the body passes and the library returns a non-empty session token; each failure carries its code's status; a rejected body never reaches the library |
| Auth.SignInStatus | src/app/api/auth/sign-in/route.ts:72-197 | sign-in ends in 200 exactly when the body passes and the library signs the user in; each failure carries its code's status |
| Auth.SuccessCookies | src/app/api/auth/sign-up/route.ts:222-237 | on success every Set-Cookie header comes back once, in order, and a well-formed one ends with Max-Age and Expires set to the session's values |
| Auth.FormattedCookie | src/app/api/auth/sign-up/route.ts:229-237 | a well-formed cookie among those rewritten comes out with both attributes set to the new values |
| Auth.SignUpCookies | src/app/api/auth/sign-up/route.ts:221-239 | a successful sign-up returns the library's Set-Cookie values, each rewritten to the positive session duration |
| Auth.SignUpAsWrittenNeverSucceeds | src/app/api/auth/sign-up/route.ts:162-187 | as written, sign-up never answers 201: every request the intended route accepts ends in AUTH_013 with status 500, because line 180 calls a name the number generator does not export; every other answer is the same |
| Auth.SignUpAsWrittenExample | src/app/api/auth/sign-up/route.ts:149-187 | a concrete valid body that the library signs up gets 201 from the intended route and 500 from the route as written |
| Auth.SignUpClientRow | src/app/api/auth/sign-up/route.ts:179-187 | the intended sign-up gives the new user, who had no Client row, one whose customer number is well formed and held by no other row |
| Cookie.MatchAt | src/app/api/auth/sign-up/route.ts:70-78 | a match of `/Max-Age=\d+/i` or `/Expires=[^;]+/i` at the start of a string is longer than the name and fits in the string |
| Cookie.ReplaceAllUnmentioned | src/app/api/auth/sign-up/route.ts:70-78 | a global replace changes nothing in a string that does not contain the attribute name |
| Cookie.FormatStructured | src/app/api/auth/sign-up/route.ts:63-83 | on a cookie made of a plain head and well-formed attributes, the rewrite sets every Max-Age and every Expires to the new value, appending one when none is present, and the result is still well formed |
| Cookie.FormatSetsBoth | src/app/api/auth/sign-up/route.ts:63-83 | after the rewrite the cookie has `Max-Age=<seconds>` (for positive seconds) and `Expires=<date>`, and every attribute of either kind has the new value |
| Cookie.FormattedIdempotent | src/app/api/auth/sign-up/route.ts:63-83 | rewriting the rewritten attributes again changes nothing |
| Cookie.FormatIdempotent | src/app/api/auth/sign-up/route.ts:63-83 | on a well-formed cookie, applying `formatCookieDuration` twice gives the same as once |
| Cookie.FormatAppendsWhenAbsent | src/app/api/auth/sign-up/route.ts:72-81 | a cookie with neither attribute gets `; Max-Age=<seconds>` and then `; Expires=<date>` appended |
| Cookie.MaxAgeNotSetExample | src/app/api/auth/sign-up/route.ts:70-71 | `Max-Age=` with no digits is found by the test but never matched by the replace, so the new seconds are not written |
| Cookie.NotIdempotentExample | src/app/api/auth/sign-up/route.ts:70-81 | on `Expires=Max-Age=` the Expires value absorbs the Max-Age, so a second rewrite appends Max-Age again: the rewrite is not idempotent outside the well-formed shape |
| TrademarkSearch.EmitLookup | src/components/trademark/trademark-search-view.tsx:240-278 | after the guarded `set` calls with distinct names, `get` of each name finds the value of its call when the guard let it through |
| TrademarkSearch.EmitAbsent | src/components/trademark/trademark-search-view.tsx:240-278 | a name no call uses is absent from the query |
| TrademarkSearch.ParamNamesDistinct | src/components/trademark/trademark-search-view.tsx:242-278 | the ten parameter names the handler sets are pairwise distinct, so each `set` appends a new pair |
| TrademarkSearch.HandleSubmit | src/components/trademark/trademark-search-view.tsx:239-281 | the handler builds a fresh `URLSearchParams` whose pairs are exactly the query of the form and the route |
| TrademarkSearch.SetMarkSlots | src/components/trademark/trademark-search-view.tsx:242-259 | the first five guarded calls (text, reading, type, logo answer, classes) leave exactly their pairs |
| TrademarkSearch.SetDetailSlots | src/components/trademark/trademark-search-view.tsx:260-278 | the last five guarded calls (category, detail, product, image, route) append exactly their pairs |
| TrademarkSearch.SetSlot | src/components/trademark/trademark-search-view.tsx:242-244 | one guarded `params.set` appends its pair when the guard holds and changes nothing otherwise |
| TrademarkSearch.SearchQueryParams | src/components/trademark/trademark-search-view.tsx:242-278 | each parameter is present exactly when its field is truthy and then carries that field; the classes are the codes joined with commas; the image goes only with a logo; the route goes only when it is the attorney consultation |
| TrademarkSearch.SearchableQueryCarriesMark | src/components/trademark/trademark-search-view.tsx:137-145 | a form for which `canSearch` holds submits its classes, plus its text for a text mark or a logo with text, or its image for any other logo |
| TrademarkSearch.SearchQueryOnlyKnownNames | src/components/trademark/trademark-search-view.tsx:240-278 | the query has no parameter besides the ten the handler sets |
| TrademarkSearch.ClassCodes | src/components/trademark/trademark-search-view.tsx:255-256 | the codes of the selections, one per selection and in order |
| TrademarkSearch.RemoveClass | src/components/trademark/trademark-search-view.tsx:710-712 | removing a chip keeps exactly the selections of other classes, and no more of them than there were |
| TrademarkSearch.RemoveClassAppend | src/components/trademark/trademark-search-view.tsx:710-712 | removal keeps the order of the remaining selections |
| TrademarkSearch.RemoveAbsentClass | src/components/trademark/trademark-search-view.tsx:710-712 | removing a class that is not selected changes nothing |
| TrademarkSearch.RemoveUndoesUpsert | src/components/trademark/trademark-search-view.tsx:710-712 | removing a class after confirming it leaves the other selections as they were before the confirm |
| TrademarkSearch.ToggleDetail | src/components/trademark/trademark-search-view.tsx:920-926 | toggling makes the detail picked exactly when it was not, and leaves every other detail as it was |
| TrademarkSearch.WithoutDetail | src/components/trademark/trademark-search-view.tsx:923 | the filter keeps exactly the picks that differ from the detail |
| TrademarkSearch.ToggleTwiceRestores | src/components/trademark/trademark-search-view.tsx:920-926 | toggling an unpicked detail twice restores the picks |
| TrademarkSearch.ConfirmSelectionSpec | src/components/trademark/trademark-search-view.tsx:956-968 | after a confirm the current class is selected with exactly the sanitised picks, every other class keeps its selection, and the class codes stay distinct |
| TrademarkSearch.ConfirmWithoutClass | src/components/trademark/trademark-search-view.tsx:957-959 | confirming with no current class leaves the selections alone |
| NewCasePage.ReadUnionStable | src/app/client/cases/new/page.tsx:20-28 | `readUnion` returns a candidate: the value when it is one, the fallback otherwise; reading the result again returns it |
| NewCasePage.TrimAll | src/app/client/cases/new/page.tsx:105 | each part is trimmed, and the count and order are kept |
| NewCasePage.NonEmptyOnly | src/app/client/cases/new/page.tsx:106 | exactly the non-empty parts are kept, and no empty part remains |
| NewCasePage.DecodeClasses | src/app/client/cases/new/page.tsx:102-106 | the decoded classes are non-empty and contain no comma |
| NewCasePage.DecodeJoinedClasses | src/app/client/cases/new/page.tsx:102-106 | decoding the comma-joined codes gives the codes back when each is non-empty, comma-free and untouched by trimming |
| NewCasePage.SearchDataSpec | src/app/client/cases/new/page.tsx:98-139 | there is a prefill exactly when the mark is present (text, or for a logo text or an image); an unknown type reads as a text mark, an unknown logo answer as none, and no class of the prefill is empty |
| NewCasePage.SearchDataOfForm | src/app/client/cases/new/page.tsx:98-139 | a query carrying a form's fields, with the mark present, reads back as that form's prefill |
| NewCasePage.SearchRoundTrip | src/app/client/cases/new/page.tsx:98-139 | what the search form submits this page reads back: text, reading, type, classes and logo answer, and the image only for a logo |
| NewCasePage.SearchRouteCarried | src/app/client/cases/new/page.tsx:141-144 | of the routes, only the attorney consultation reaches this page through the query |
| NewCasePage.IsFormValidSpec | src/app/client/cases/new/page.tsx:72-96 | a form is valid exactly when the names its applicant type needs and the four address fields are non-blank; the phone and the other type's names never matter |
| NewCasePage.AddressOfValidForm | src/app/client/cases/new/page.tsx:533-540 | on a valid form the address is `〒` and the postal code, the prefecture, the city and the street, joined with spaces |
| NewCasePage.ClientIntakeNames | src/app/client/cases/new/page.tsx:543-566 | an individual applicant sends blank company names and a corporate one a blank personal name; the address fields and the phone are passed on |
| NewCasePage.StatusFor | src/app/client/cases/new/page.tsx:569-572 | the AI self-service route moves the case to preliminary research, and the attorney route to trademark registered |
| NewCasePage.SaveBasicInfoSpec | src/app/client/cases/new/page.tsx:513-586 | a PATCH is sent exactly when the form is valid and a route is chosen; otherwise the matching alert is shown; the applicant is the non-blank name the applicant type calls for, with the route's status and the client intake |
| NewCasePage.DigitsOnly | src/app/client/cases/new/page.tsx:169 | stripping leaves only decimal digits and never lengthens the code |
| NewCasePage.DigitsOnlyIdempotent | src/app/client/cases/new/page.tsx:169 | stripping twice is the same as stripping once |
| NewCasePage.HyphenatedPostalCode | src/app/client/cases/new/page.tsx:169-173 | a `123-4567` code reaches the look-up with its seven digits |
| NewCasePage.ShortPostalCodeStops | src/app/client/cases/new/page.tsx:169-173 | a code of fewer than seven characters never reaches the look-up |
| UrlParams.GetEntrySpec | src/app/client/cases/new/page.tsx:99-100 | `get` finds a value exactly when some pair has the name, and returns the value of the first such pair |
| UrlParams.GetEntryAppend | src/components/trademark/trademark-search-view.tsx:240-278 | `get` on a concatenation looks in the first part, then in the second |
| UrlParams.SetThenGet | src/components/trademark/trademark-search-view.tsx:240-278 | after `set`, `get` of that name gives the new value and exactly one pair has that name |
| UrlParams.SetKeepsOthers | src/components/trademark/trademark-search-view.tsx:240-278 | `set` leaves `get` of every other name unchanged |
| UrlParams.SetAppends | src/components/trademark/trademark-search-view.tsx:240-278 | on a list without the name, `set` appends one pair at the end |
| UrlParams.SetIdempotent | src/components/trademark/trademark-search-view.tsx:240-278 | setting the same pair twice is the same as setting it once |
| UrlParams.SearchParams.Set | src/components/trademark/trademark-search-view.tsx:243 | `params.set` replaces the object's pairs by the pairs after the `set` |
| JsonValue.Field | src/app/api/auth/sign-up/route.ts:98-103 | a member is found only in an object and is one of its members |
| JsonValue.LastMemberSpec | src/app/api/auth/sign-up/route.ts:88-103 | a member is found exactly when its key occurs, and the one found is the last occurrence, as `JSON.parse` keeps it |
| JsonValue.FalsyValues | src/app/api/cases/route.ts:217-229 | a value is falsy exactly when it is undefined, null, false, 0 or the empty string |
| Text.TrimStartSpec | src/app/api/auth/sign-up/route.ts:105-109 | the leading part dropped is all white space, and what is kept does not start with white space |
| Text.TrimEndSpec | src/app/api/auth/sign-up/route.ts:105-109 | the trailing part dropped is all white space, and what is kept does not end with white space |
| Text.BlankIffAllSpace | src/app/api/auth/sign-up/route.ts:105 | `name.trim().length === 0` holds exactly when every character is white space |
| Text.NormalizeEmailIdempotent | src/app/api/auth/sign-up/route.ts:128 | trimming and lower-casing an address that is already normalised changes nothing |
| Text.Utf16Length | src/app/api/auth/sign-up/route.ts:111 | `length` counts one or two UTF-16 units per character |
| Text.ParseInt | src/lib/number-generator.ts:27 | `parseInt` of a non-empty digit string is its decimal value |
| Text.ReplaceFirstPrefix | src/lib/number-generator.ts:26 | removing the first "MJ" of a string that starts with it drops those two characters |
| Text.Pad4Digits | src/lib/number-generator.ts:33 | for 0 to 9999, `String(n).padStart(4, "0")` is four decimal digits whose value is n |
| Text.DecimalRoundTrip | src/lib/number-generator.ts:33 | `String(n)` read back as a decimal number gives n |
| Text.SameLengthDigitsOrder | src/lib/number-generator.ts:16-19 | on digit strings of equal length, the ordering `desc` uses agrees with numeric order |
| Text.SplitJoin | src/app/client/cases/new/page.tsx:103-104 | splitting the comma-joined parts recovers them when no part contains a comma |
| CaseListing.StaffAccessWithinCaseAdminAccess | src/app/api/admin/staff/route.ts:8-20 | staff administration (ADMIN only) implies admin case-list access, and the two differ exactly for INTERNAL_STAFF and ATTORNEY users |

## Left out

- The Prisma and better-auth calls. The store is the abstract `Entities.Db`. The library's answer to sign-up or sign-in, together with the result of the route's own database calls after it, is a parameter (`Auth.Outcome`): the Set-Cookie headers, the token and the role read back, or the `APIError` code and status, or another thrown error.
- Database ordering and collation. The model states which `orderBy` a listing chooses (`CaseListing.AdminOrderBy`, `CaseListing.ClientOrderBy`), not the order of the returned rows. For customer numbers, the `desc` order is modelled as code-point order (`Text.LexLess`).
- Case-insensitive `contains` in the keyword filters is modelled as ASCII case folding only.
- `toLowerCase` is modelled on ASCII letters only (`Text.ToLower`). Unicode case mapping is not modelled.
- Clocks and dates: `new Date()`, `toISOString`, `toUTCString`. The cookie's `Expires` value is an opaque string parameter, and timestamps in the inbox are integers.
- Inbox.SortCommunications: orders by unread count (descending), then flagged first. The comparator's last tie-break, the latest message's date, is left out because it is not a consistent order when some entries have no message. The result is proved to be a permutation that is ordered by the first two keys.
- Inbox.AccessibleCasesByRole: the "any other role sees no cases" branch cannot be reached, because the role type has exactly the four enum values.
- Cookie.FormatIdempotent: idempotence is proved only for cookies made of a plain head and well-formed attributes. Outside that shape the rewrite is not idempotent (`Cookie.NotIdempotentExample`), and a `Max-Age=` without digits is never rewritten (`Cookie.MaxAgeNotSetExample`).
- Concurrent requests. Both number allocators read and then write, so two concurrent requests can get the same number. The model is sequential.
- Auth.SignUpStatus: states the route as evidently intended. As written, src/app/api/auth/sign-up/route.ts:180 calls `generateCustomerIdentifier`, which src/lib/number-generator.ts does not export, so the 201 path cannot be reached (see Findings and `Auth.SignUpAsWrittenNeverSucceeds`). The route's own writes after the library call (session expiry and user name) are summarised by `Auth.Outcome` rather than modelled one by one; the Client row is `Auth.SignUpClientRows`.
- The postal-code look-up (the zipcloud fetch), the image-upload mock, React state and rendering, navigation and the `next` parameter added before the search redirect.
- `readString` in src/app/client/cases/new/page.tsx is never called there and is not modelled.
- An `undefined` form field is held as `""` or `None`. The source only tests these fields for truthiness, where the two agree.
- ProgressBar.GetProgressSteps: its contract gives the array as `Marks(StageFromKey(s))`. `ProgressBar.MarksOfStage` and `ProgressBar.StageFromKeyAgrees` connect that to the branch chain of the source.
- StaffAdmin.HasStaffAccess has no lemma of its own, because its definition is the check itself. It is related to the case-list check by `CaseListing.StaffAccessWithinCaseAdminAccess`.
- The pages that only render, the admin pages that repeat the handlers' role gates, the logout and session routes, and `src/lib/mock-data.ts`.
- CaseCreation.CreateCase: the database schema is not part of the source, so every text column is modelled as free text. A `trademarkType` or `consultationRoute` outside the payload type's literal unions is stored as sent, and the list filters compare `status` and `trademarkType` as plain strings (`CaseListing.Matches`). Prisma's handling of a JSON `null` in the `trademarkDetails` and `classSelections` columns is not modelled.
- CaseStatus.GetStatusLabelSpec: `statusMap[status]` is modelled as a look-up of the map's own keys. An inherited `Object.prototype` name such as `constructor` or `toString` would give that member instead of the input string, and the model does not capture this.
- Auth.SignUpErrorMapping: `apiErrorCodeMap[apiCode]` is modelled on the map's own keys only. An error code naming an inherited `Object.prototype` member is not captured.
- Auth.SignInErrorMapping: `apiErrorCodeMap[apiCode]` is modelled on the map's own keys only, as for sign-up.
- Text.ParseInt: JavaScript numbers are doubles, so `parseInt`, `+ 1` and `String(n)` in the number generator are exact only up to 2^53. The model uses unbounded integers; the four-digit numbers in use are far below that bound.

## Findings

| source | as written | input that shows it | evidently intended | confidence | as-written member | corrected member |
|---|---|---|---|---|---|---|
| src/app/api/auth/sign-up/route.ts:5 | The route imports `generateCustomerIdentifier` and calls it at line 180 before creating the Client row, writing a `customerIdentifier` field. src/lib/number-generator.ts exports only `generateCustomerNumber` and `generateCaseNumber`, so the call throws a `TypeError` (or the module does not build), and the `catch` block answers AUTH_013 with status 500. | The body `{"name":"A","email":"a@b.jp","password":"Abcdefgh123!"}`, with the library signing the user up and returning a session token. | Call `generateCustomerNumber()` and write the Client row's `customerNumber`, as src/app/api/admin/staff/route.ts:463-469 does, so sign-up ends in 201. | high; not executed | Auth.SignUpAsWritten, with Auth.SignUpAsWrittenNeverSucceeds and Auth.SignUpAsWrittenExample | Auth.SignUp and Auth.SignUpClientRows, with Auth.SignUpStatus and Auth.SignUpClientRow |
