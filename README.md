# FabLab admin portal — a verified Dafny model of its core

The FabLab admin portal is an Express/Prisma back end and a React front end
for running a school fabrication lab. This project models the parts of it
that carry business rules:

- **The inventory stock ledger** (`inventory.dfy`, class `Inventory.Ledger`).
  It holds a table of items keyed by record id, each with a unique
  human-readable `itemId`, plus an append-only audit log. Create, update, delete
  and stock adjustment are all-or-nothing methods. Each one either fails and
  leaves the table and the log unchanged, or changes the table and appends
  exactly one log entry. A stock adjustment re-derives the item's status from
  its new quantity and its minimum stock. Create and update store the status
  they are given. The list query (filter, newest-first order, paging), the
  item detail, alerts and stats are functions over the ledger's state.
- **The request-body schemas** (`schemas.dfy`). These are the zod schemas for
  login, registration, item creation, item update and stock adjustment,
  written as parsing functions that return `ValidationFailed` or typed
  values. The list query's schema appears only as the datatype
  `Inventory.ListQuery`, whose fields are optional strings.
- **Authentication** (`auth.dfy`): registration into a user table (class
  `Auth.UserDirectory`), and login and "who am I" as decisions over that table.
- **The request guards** (`middleware.dfy`): Bearer-token extraction,
  `authenticate`, which sets the request's user, and `requireRole`.
- **Start-up configuration** (`environment.dfy`): the required-variable check
  and the defaults, over an environment passed in as a map.
- **Front-end helpers**:
  - the Classes page (`classes_page.dfy`): the schedule parser with its regular
    expression, the hour labels, the list filter, the summary counts and the
    calendar row arithmetic;
  - the Students page (`students_page.dfy`): the filter and the counts;
  - the inventory add/edit form (`inventory_form.dfy`): its schema, its
    starting values and the locked itemId field.

Three shared modules support these:

- `common.dfy` holds `Option`, `Result`, the failure kinds and the token
  claims.
- `text.dfy` models the JavaScript string operations the code relies on:
  `parseInt(s, 10)`, `toLowerCase` over ASCII, `includes`, `startsWith`, `join`
  and number-to-string.
- `seqs.dfy` models `filter`, `reduce`-style sums and a stable sort.

Creation timestamps are modelled by record ids. A counter hands ids out in
creation order, so "newest created first" is "highest record id first".

Prices are integers; think of them as cents. The PORT value and the page and
limit parameters are read with a model of `parseInt` over unbounded
integers; the rounding of very long digit strings is not modelled.

The e-mail and URL checks of the schemas are parameters (`isEmail`, `isUrl`).
So are password hashing and comparison (`hash`, `compare`), token signing
(`sign`) and token verification (`verify`).

## Model

| member | source | states |
|---|---|---|
| Inventory.DeriveStatus | backend/src/controllers/inventory.controller.ts:222-229 | The derived status is OUT_OF_STOCK exactly when the new quantity is 0, LOW_STOCK exactly when it is positive and below minStock, IN_STOCK exactly when it is positive and at least minStock, and never DISCONTINUED. |
| Inventory.StatusMonotone | backend/src/controllers/inventory.controller.ts:222-229 | More stock never gives a worse derived status: IN_STOCK stays IN_STOCK, LOW_STOCK never becomes OUT_OF_STOCK, and OUT_OF_STOCK after the increase was OUT_OF_STOCK before. |
| Inventory.StatusExamples | backend/prisma/seed.ts:80-86 | The seeded MAT-001 (5 in stock, minimum 10) derives LOW_STOCK; with minimum 5, quantities 0, 3 and 10 derive OUT_OF_STOCK, LOW_STOCK and IN_STOCK. |
| Inventory.Merge | backend/src/controllers/inventory.controller.ts:150-153 | An update keeps the record id, the itemId and the creator whatever the body says. Each of name, type, price, quantity, minStock, status, notes and imageUrl takes the supplied value when the body gives one, and keeps the old value otherwise; quantity and status are stored as supplied, never derived. |
| Inventory.UpdateDoesNotDeriveStatus | backend/src/controllers/inventory.controller.ts:150-153 | A DISCONTINUED item updated to any quantity, with or without status DISCONTINUED in the body, stays DISCONTINUED, although a stock adjustment to that quantity would derive a different status. |
| Inventory.MergeIdempotent | backend/src/controllers/inventory.controller.ts:150-153 | Applying the same update body twice gives the same item as applying it once. |
| Inventory.MergeNothing | backend/src/controllers/inventory.controller.ts:150-153 | An empty update body leaves the item exactly as it was. |
| Inventory.NewestFirstFacts | backend/src/controllers/inventory.controller.ts:39-44 | The newest-first enumeration lists every item of the table, each as stored, by strictly decreasing record id, so in descending creation order. |
| Inventory.NewestFirstOfEmpty | backend/src/controllers/inventory.controller.ts:39-44 | An empty table enumerates to the empty list. |
| Inventory.KeysBelowAll | backend/src/controllers/inventory.controller.ts:45 | When every record id is below the bound, the ids counted below the bound are all the ids the count query counts. |
| Inventory.KeysBelowStep | backend/src/controllers/inventory.controller.ts:45 | Raising the bound by one adds exactly the record at the old bound to the count, when it is there and matches. |
| Inventory.FilteredCount | backend/src/controllers/inventory.controller.ts:38-46 | Filtering the enumeration keeps as many items as the count query counts for the same condition. |
| Inventory.MatchesFilter | backend/src/controllers/inventory.controller.ts:18-35 | With no search, type or status given every item matches. A type or status filter that names no member of its enumeration matches no item. |
| Inventory.Window | backend/src/controllers/inventory.controller.ts:39-42 | Item i of the page is item skip+i of the ordered result. The page holds min(take, \|all\| - skip) items, and none when skip is past the end. |
| Inventory.PageCount | backend/src/controllers/inventory.controller.ts:56 | `pages` is the least number of pages holding all `total` items, which is the ceiling of total/limit. It is null for a zero limit. |
| Inventory.WindowKeepsOrder | backend/src/controllers/inventory.controller.ts:39-43 | A page cut from a list ordered newest first is itself ordered newest first. |
| Inventory.PageOfEach | backend/src/controllers/inventory.controller.ts:16 | Every item i of the ordered result appears on the page that skips (i / limit) * limit items, so no item falls between pages. |
| Inventory.QueryNumberIsParseInt | backend/src/controllers/inventory.controller.ts:12-15 | The number taken from a page or limit parameter, or from its default '1' or '50', is what parseInt reads from that string. |
| Inventory.RecentLogs | backend/src/controllers/inventory.controller.ts:68-71 | An item's detail shows at most the requested number of log entries, all from the log and all about that record. Which entries, and in what order, is stated by RecentLogsAreNewest. |
| Inventory.RecentLogsAreNewest | backend/src/controllers/inventory.controller.ts:68-70 | The entries shown are the record's n newest: entry i is the (i+1)-th last entry about that record in the log. |
| Inventory.NewestLogFirst | backend/src/controllers/inventory.controller.ts:68-70 | The entry last appended for a record is the first of its recent log entries. |
| Inventory.RecentLogsCount | backend/src/controllers/inventory.controller.ts:68-71 | An item's detail shows all of its log entries when there are at most 10, otherwise exactly 10. |
| Inventory.Ledger.Get | backend/src/controllers/inventory.controller.ts:62-93 | Fails with 404 "Item not found" exactly when the record id is absent. Otherwise it returns the stored item with its 10 newest log entries (all of them when there are fewer), newest first. |
| Inventory.Ledger.Create | backend/src/controllers/inventory.controller.ts:95-134 | An invalid body is a validation failure, and a taken itemId fails with 409; neither changes the table or the log. Otherwise the validated item is inserted as given, with a fresh record id and the caller as creator, and one CREATED entry carrying it is appended. Valid() is kept. |
| Inventory.Ledger.Update | backend/src/controllers/inventory.controller.ts:136-173 | The body is validated first, then the record id (404); a failure changes nothing. Otherwise the given fields, with quantity and status as supplied, replace the old ones, and one UPDATED entry with the old and new item is appended. |
| Inventory.Ledger.Delete | backend/src/controllers/inventory.controller.ts:175-202 | Fails with 404 exactly when the id is absent, changing nothing. Otherwise the item is removed and one DELETED entry whose old value is the removed item is appended. |
| Inventory.Ledger.AdjustStock | backend/src/controllers/inventory.controller.ts:204-260 | Fails for a missing delta (validation), then for an absent id (404), then for a new quantity below 0 (400 "Insufficient stock"), each time changing nothing. Otherwise only this item's quantity and status change, the status being the derived one. One entry is appended: STOCK_ADDED exactly when delta > 0 (so delta 0 is STOCK_REMOVED), quantity \|delta\|, the given notes, and the old and new quantities. |
| Inventory.Ledger.List | backend/src/controllers/inventory.controller.ts:11-60 | Page and limit default to 1 and 50. The query is rejected exactly when a type or status filter names no enumeration member, or page 0 makes the skip negative. Otherwise it answers with the page ListPage describes for those numbers. |
| Inventory.Ledger.Skip | backend/src/controllers/inventory.controller.ts:16 | The skip `(page - 1) * limit` is negative exactly when page is 0 and limit positive. |
| Inventory.Ledger.ListPage | backend/src/controllers/inventory.controller.ts:19-58 | The where clause: a given search must occur, ignoring case, in the name, the itemId or the notes, and a given type or status must equal the item's. The page holds at most limit such items, by decreasing record id, and the total counts every match. |
| Inventory.Ledger.SelectionFacts | backend/src/controllers/inventory.controller.ts:38-46 | Selecting from the newest-first enumeration gives exactly the table's items that meet the condition, by decreasing record id. There are as many as the count query counts. |
| Inventory.Ledger.LowStockAlerts | backend/src/controllers/inventory.controller.ts:262-277 | Exactly the LOW_STOCK and OUT_OF_STOCK items, each once, sorted by ascending quantity. |
| Inventory.Ledger.Stats | backend/src/controllers/inventory.controller.ts:279-302 | The total counts every item. inStock, lowStock and outOfStock are the numbers of items with that status, and with the DISCONTINUED count they add up to the total. totalItems is the sum of the quantities of the table's items, each counted once: 0 for an empty table and at least each item's quantity. |
| Inventory.Ledger.StatusPartition | backend/src/controllers/inventory.controller.ts:280-284 | The four per-status counts add up to the number of items. |
| Inventory.Ledger.QuantitySumFacts | backend/src/controllers/inventory.controller.ts:285-289 | The quantity sum is never negative, is 0 for an empty table, and bounds each item's quantity. |
| Inventory.QuantityBelowIsSum | backend/src/controllers/inventory.controller.ts:285-289 | The quantity sum over the newest-first enumeration equals the sum taken record by record over the table. |
| Inventory.QuantityBelowReplace | backend/src/controllers/inventory.controller.ts:285-289 | In the record-by-record sum, replacing one stored item changes the sum by the new quantity minus the old. |
| Inventory.SumAfterReplace | backend/src/controllers/inventory.controller.ts:285-289 | Replacing one stored item changes the quantity sum by exactly the new quantity minus the old one. |
| Inventory.AdjustmentMovesTotal | backend/src/controllers/inventory.controller.ts:215-250 | A successful adjustment by delta moves the stats' totalItems by exactly delta; a failed one leaves the stats unchanged. |
| Inventory.AdjustmentIsNewestLog | backend/src/controllers/inventory.controller.ts:240-250 | After a successful adjustment, the item's detail returns the adjusted item, and its first log entry is the one just appended. |
| Inventory.SequentialAdjustments | backend/src/controllers/inventory.controller.ts:215-250 | On an item holding 10, adjusting by -3 and then by +5 leaves 12 and appends STOCK_REMOVED then STOCK_ADDED. |
| Schemas.EnumRoundTrips | backend/src/types/index.ts:17 | Each type, status and role name parses back to its member, and every enumeration name parses. The type names are at line 30 and the status names at line 34. |
| Schemas.ParseCreate | backend/src/types/index.ts:27-37 | Accepts exactly these bodies: non-empty itemId and name, a listed type and status, price > 0, quantity >= 0, minStock >= 0 when given, and a URL when imageUrl is given. Each accepted field is copied, and minStock defaults to 0. |
| Schemas.ParseUpdate | backend/src/types/index.ts:39 | Every field is optional, with the create rules for those present. Nothing has a default, and itemId is not read. |
| Schemas.UpdateIgnoresItemId | backend/src/types/index.ts:39 | Whatever the body says about itemId, the update outcome is the same, so no valid update changes itemId. |
| Schemas.CreateBodyIsUpdateBody | backend/src/types/index.ts:27-39 | Every body the create schema accepts is also a valid update body. |
| Schemas.ParseAdjustment | backend/src/types/index.ts:41-44 | For bodies whose quantity is absent or an integer: any integer delta is accepted, zero and negatives included, with optional notes, and only a missing quantity fails. Fractional or non-numeric quantities are outside the model. |
| Text.Utf16Length | backend/src/types/index.ts:9 | A string's JavaScript length counts two code units for each character outside the Basic Multilingual Plane, so it lies between the character count and twice it, and equals the character count when no such character occurs. |
| Text.Utf16Examples | backend/src/types/index.ts:9 | Three emoji measure 6 code units, as do six ASCII letters. |
| Schemas.ParseLogin | backend/src/types/index.ts:7-10 | Accepts exactly an e-mail address and a password of at least 6 UTF-16 code units. |
| Schemas.EmojiPasswordAccepted | backend/src/types/index.ts:9 | A password of three emoji, six code units, is long enough. |
| Schemas.ParseRegistration | backend/src/types/index.ts:12-18 | Accepts exactly an e-mail address, a password of at least 6 UTF-16 code units, non-empty first and last names, and a listed role if one is given. |
| Schemas.RegistrationBodyIsLoginBody | backend/src/types/index.ts:7-18 | A valid registration body's e-mail address and password make a valid login body. |
| Auth.View | backend/src/controllers/auth.controller.ts:32-39 | The answer carries id, e-mail address, names and role, never the password hash. |
| Auth.FindByEmail | backend/src/controllers/auth.controller.ts:53-55 | Finds a user exactly when the e-mail address is registered, and then that address's own user. |
| Auth.Login | backend/src/controllers/auth.controller.ts:49-94 | An invalid body fails validation, and an unknown e-mail address fails with 401 "Invalid email or password". For the address's user: inactive gives 403 before the password is checked, and a wrong password gives the same 401. Otherwise the answer is a token signed over {userId, email, role} plus the user without the hash. |
| Auth.UnknownEmailLooksLikeWrongPassword | backend/src/controllers/auth.controller.ts:57-71 | An unknown e-mail address and a wrong password for an active account give identical answers. |
| Auth.DeactivatedIgnoresPassword | backend/src/controllers/auth.controller.ts:61-64 | An inactive account gets 403 whatever the password comparison would say. |
| Auth.GetMe | backend/src/controllers/auth.controller.ts:96-122 | Gives 401 without an authenticated user and 404 when the id is not in the table. Otherwise it returns the stored profile with its active flag. |
| Auth.GetMeIgnoresActive | backend/src/controllers/auth.controller.ts:101-121 | A deactivated user's token still reads the profile, which reports active = false. |
| Auth.UserDirectory.Register | backend/src/controllers/auth.controller.ts:8-47 | Checks the body first, then fails with 409 for a registered e-mail address, each failure creating no user. Otherwise it stores one new active user with the hashed password and role STAFF unless one is given, and answers the user without the hash. E-mail addresses stay unique. |
| Auth.RegisterThenLogin | backend/src/controllers/auth.controller.ts:8-94 | When the comparison accepts a password against its own hash, a fresh registration can log in. The login returns the same user view and a token over that user's claims. |
| Middleware.ExtractToken | backend/src/middleware/auth.ts:20-26 | A token is found exactly when the header starts with the case-sensitive "Bearer " (space included), and is the header minus those 7 characters. Otherwise it is 401 "No token provided". |
| Middleware.ExtractPrefixed | backend/src/middleware/auth.ts:26 | Extracting from "Bearer " + t gives t. |
| Middleware.PrefixIsStrict | backend/src/middleware/auth.ts:22 | "bearer abc", "Bearerabc", an empty header and a missing header all give "No token provided". |
| Middleware.AuthOutcome | backend/src/middleware/auth.ts:19-36 | A missing token gives 401 "No token provided" and verified claims pass. A thrown application error is passed on as is; any other failure becomes 401 "Invalid or expired token". |
| Middleware.NoPrefixSkipsVerification | backend/src/middleware/auth.ts:22-24 | Without the prefix the verifier is never consulted. |
| Middleware.BearerTokenAuthenticates | backend/src/middleware/auth.ts:26-30 | A prefixed token authenticates exactly when it verifies, and then to its claims. |
| Middleware.Authenticate | backend/src/middleware/auth.ts:14-37 | next gets no error exactly when authentication succeeds, and then req.user holds the claims. Otherwise req.user is unchanged and next gets the error. |
| Middleware.RequireRole | backend/src/middleware/auth.ts:40-52 | No user gives 401 "Not authenticated", and a role not in the list gives 403 "Insufficient permissions". The request passes exactly when the user's role is listed. |
| Middleware.EmptyRoleListRejectsAll | backend/src/middleware/auth.ts:46-48 | An empty role list turns away every authenticated user with 403. |
| Middleware.MoreRolesAdmitMore | backend/src/middleware/auth.ts:46 | Adding roles to the list never turns away a request that passed. |
| Middleware.Guard | backend/src/middleware/auth.ts:14-52 | A route behind authenticate and requireRole runs exactly when the token verifies to claims with a listed role. An authentication failure is reported as is, and verified claims with an unlisted role get 403 "Insufficient permissions". After a successful authentication req.user holds the claims; after a failed one it is unchanged. |
| Environment.OrDefault | backend/src/config/environment.ts:26-31 | A variable that is set and non-empty is used; an absent or empty one takes the default. |
| Environment.ValidateEnv | backend/src/config/environment.ts:15-33 | Fails exactly when DATABASE_URL or JWT_SECRET is absent or empty. The message is "Missing required environment variables: " followed by the missing names in that order, joined by ", ". On success the two are copied verbatim, and PORT, NODE_ENV, JWT_EXPIRES_IN and CORS_ORIGIN default to 3001, development, 7d and http://localhost:5173. |
| Environment.MissingNames | backend/src/config/environment.ts:16-17 | The missing list is exactly the unset required names, in declaration order. |
| Environment.MissingMessages | backend/src/config/environment.ts:20-22 | The missing names as the message lists them, joined by ", ". |
| Environment.DefaultPort | backend/src/config/environment.ts:26 | The default PORT string "3001" is read as 3001. |
| Environment.PortValue | backend/src/config/environment.ts:26 | Without PORT the port is 3001, and an all-digit PORT gives its decimal value. |
| Text.ParseInt | backend/src/controllers/inventory.controller.ts:14-15 | parseInt of a blank string is NaN (None), and a negative result needs a '-' as the first non-blank character. |
| Text.ParseIntOfDigits | backend/src/config/environment.ts:26 | parseInt of a non-empty digit string is its decimal value. |
| ClassesPage.MatchAt | frontend/src/pages/Classes.tsx:101-102 | A match at a position has non-empty digit groups around a hyphen, then blanks, then AM or PM. |
| ClassesPage.MatchAtIffPattern | frontend/src/pages/Classes.tsx:101 | The greedy match at p succeeds exactly when some choice of group lengths fits `(\d+)-(\d+)\s*(AM|PM)` at p. |
| ClassesPage.FirstMatch | frontend/src/pages/Classes.tsx:101-102 | Nothing is found exactly when no position matches. Otherwise the result is the match at the first position that matches. |
| ClassesPage.ScheduleMatchExists | frontend/src/pages/Classes.tsx:101-102 | The schedule yields a time range exactly when the pattern occurs somewhere, and then it is the leftmost occurrence. |
| ClassesPage.ClockHour | frontend/src/pages/Classes.tsx:115-122 | For clock hours 1 to 12, PM gives 12..23 (12 PM is 12) and AM gives 0..11 (12 AM is 0). |
| ClassesPage.FormatHour | frontend/src/pages/Classes.tsx:132-137 | Every label ends in " AM" for an hour below 12 and in " PM" otherwise. |
| ClassesPage.FormatClockHour | frontend/src/pages/Classes.tsx:132-137 | The label of a 12-hour time read as a 24-hour hour is the original "h AM" or "h PM". |
| ClassesPage.FormatHourExamples | frontend/src/pages/Classes.tsx:132-137 | 0, 9, 12, 13 and 21 are labelled 12 AM, 9 AM, 12 PM, 1 PM and 9 PM. |
| ClassesPage.ParseDigits | frontend/src/pages/Classes.tsx:104-105 | parseInt of a matched digit group is its decimal value. |
| ClassesPage.CollectDays | frontend/src/pages/Classes.tsx:99-127 | The days are strictly ascending indices within 0..6, and contain d exactly when the schedule mentions that day's three-letter name. |
| ClassesPage.ParseSchedule | frontend/src/pages/Classes.tsx:98-130 | Null exactly when the pattern does not occur. "PM" with start > end gives (start, end + 12), so "10-1 PM" is 10 to 13. Otherwise both ends are read as clock hours. The days are as under CollectDays. |
| ClassesPage.FilterClasses | frontend/src/pages/Classes.tsx:147-156 | A class is kept exactly when its name, course id or instructor contains the search, ignoring case, and the status filter is empty or equal. |
| ClassesPage.FilterClassesFacts | frontend/src/pages/Classes.tsx:147-156 | The kept classes are an order-preserving subsequence of the list. |
| ClassesPage.EmptyFilterKeepsAll | frontend/src/pages/Classes.tsx:147-156 | With no search and no status filter every class is listed. |
| ClassesPage.ActiveClasses | frontend/src/pages/Classes.tsx:158 | The count of 'Active' classes never exceeds the number of classes. Its value on every list is fixed by Singleton and AggregatesSplit. |
| ClassesPage.Singleton | frontend/src/pages/Classes.tsx:158-159 | A one-class list has one active class if that class is 'Active' and none otherwise, and its enrolment total is that class's enrolment. Together with AggregatesSplit this fixes both counts for every list. |
| ClassesPage.SampleSummary | frontend/src/pages/Classes.tsx:5-84 | The page's six sample classes give 4 active classes and 56 enrolments. |
| ClassesPage.TotalEnrollments | frontend/src/pages/Classes.tsx:159 | The enrolment total is never negative, and 0 for no classes. Its value on every list is fixed by Singleton and AggregatesSplit. |
| ClassesPage.AggregatesSplit | frontend/src/pages/Classes.tsx:158-159 | The active count and the enrolment total of two lists together are the sums of each. |
| ClassesPage.EnrollmentBoundsTotal | frontend/src/pages/Classes.tsx:159 | Each class's enrolment is part of the total. |
| ClassesPage.EventsAlignWithLabels | frontend/src/pages/Classes.tsx:410-445 | An event starting at a labelled hour starts on that label's grid row (h - 7 = hourIdx + 2). |
| ClassesPage.HoursRange | frontend/src/pages/Classes.tsx:96 | The hour labels are 9 through 21, 13 of them. |
| StudentsPage.FilterStudents | frontend/src/pages/Students.tsx:60-71 | A student is kept exactly when the search occurs, ignoring case, in the first name, last name, e-mail address or student id, and the grade and status filters are each empty or equal. |
| StudentsPage.FilterStudentsFacts | frontend/src/pages/Students.tsx:60-71 | The kept students are an order-preserving subsequence of the list. |
| StudentsPage.EmptyFiltersKeepAll | frontend/src/pages/Students.tsx:60-71 | With no search and no filters every student is listed. |
| StudentsPage.FilterStudentsIdempotent | frontend/src/pages/Students.tsx:60-71 | Filtering the filtered list again changes nothing. |
| StudentsPage.ActiveStudents | frontend/src/pages/Students.tsx:73 | The count of 'Active' students never exceeds the number of students. |
| StudentsPage.TotalEnrollments | frontend/src/pages/Students.tsx:74 | The enrolment total is never negative, and 0 for no students. |
| StudentsPage.AggregatesSplit | frontend/src/pages/Students.tsx:73-74 | Both counts of two lists together are the sums of each. |
| StudentsPage.EnrollmentBoundsTotal | frontend/src/pages/Students.tsx:74 | Each student's enrolment count is part of the total, which is non-negative. |
| StudentsPage.SampleSummary | frontend/src/pages/Students.tsx:5-50 | The page's four sample students give 3 active and 10 enrolments. |
| InventoryForm.ParseForm | frontend/src/components/inventory/InventoryForm.tsx:7-16 | Accepts exactly: non-empty itemId and name, a listed type and status, price > 0, and quantity and minStock both given and >= 0. There is no minStock default and no image URL. |
| InventoryForm.FormAcceptedIsCreatable | frontend/src/components/inventory/InventoryForm.tsx:7-16 | Whatever the form accepts, the back end's create schema accepts with the same values. |
| InventoryForm.FormAcceptedIsUpdatable | frontend/src/components/inventory/InventoryForm.tsx:7-16 | Whatever the form accepts is also a valid update body. |
| InventoryForm.MissingMinStockOnlyFormRejects | frontend/src/components/inventory/InventoryForm.tsx:13 | A body without minStock is refused by the form but accepted by the back end with minStock 0. |
| InventoryForm.DefaultValues | frontend/src/components/inventory/InventoryForm.tsx:37-41 | A new-item form starts with quantity 0, minStock 0 and IN_STOCK, its other fields empty. |
| InventoryForm.NewFormNeedsInput | frontend/src/components/inventory/InventoryForm.tsx:37-41 | A blank new-item form cannot be submitted as it stands. |
| InventoryForm.EditFormRoundTrip | frontend/src/components/inventory/InventoryForm.tsx:37 | An edit form submitted unchanged gives back the item's own values. |
| InventoryForm.ItemIdDisabled | frontend/src/components/inventory/InventoryForm.tsx:55 | The itemId input is disabled exactly when an item is being edited. |
| InventoryForm.LockedItemIdIsIgnored | frontend/src/components/inventory/InventoryForm.tsx:55 | Whatever the locked itemId field holds, the update outcome is the same. |

## Left out

- Persistence: the database, the JSON encoding of log snapshots and the
  transaction machinery. Each transaction is one method that commits
  entirely or not at all.
- Concurrency. createItem, updateItem, deleteItem and adjustStock all read
  outside their transaction: the duplicate check at
  inventory.controller.ts:100 and the item reads at :142, :179 and :209.
  The duplicate inserts, lost updates and stale log snapshots that
  interleaving requests could cause are not modelled.
- Creation timestamps: creation order is modelled by record ids, and log order
  by position in the log.
- Password hashing, password comparison, token signing and token verification.
  These are function parameters; only `RegisterThenLogin` assumes anything
  about them (a password matches its own hash).
- The e-mail and URL format checks of the schemas. These are predicate
  parameters.
- Floating point:
  - prices are integers;
  - `toFixed`, currency display and the Classes page's average enrolment are
    out, and so is the Students page's average, which divides by zero on an
    empty list.
- `parseInt` of non-numeric or signed strings: page, limit and PORT strings
  are restricted to digit strings where stated. The model's `Text.ParseInt`
  itself handles leading blanks, signs and "no digits".
- Inventory.Ledger.List: requires page and limit strings to be digit
  strings. The source would run with NaN values instead.
- Inventory.Ledger.List: the database client's responses are assumptions and
  are modelled as QueryRejected:
  - a negative skip (page 0) is rejected;
  - an enumeration filter that names no member is rejected.
  A zero limit gives pages = null (the JSON of Infinity or NaN).
- Upper and lower case: case-insensitive search and `toLowerCase` are
  modelled over ASCII letters only.
- New users are stored active. The user table's default is not part of this
  model.
- The logout endpoint, which only answers success.
- `avgEnrollment` and date formatting on the Classes page.
- All rendering, React state, query invalidation, the HTTP client wrappers
  and the Express wiring.
- InventoryForm.DefaultValues: an edit form starts from the item. The
  form's schema drops the item's extra fields (such as imageUrl) from what
  it submits. How react-hook-form reads a disabled input is not modelled;
  the locked itemId is taken to be submitted as shown.
- Inventory.Ledger.Stats: the counts and the quantity sum are unbounded
  integers, not limited by the database's integer width.
- Inventory.Ledger.Create, Inventory.Ledger.Update and Inventory.Ledger.AdjustStock:
  quantity, minStock and the delta are unbounded integers. In the source
  they are JavaScript numbers: `z.number().int()` accepts any integer-valued
  double such as 1e20, `item.quantity + quantity` rounds above 2^53, and the
  database column has a finite width. None of that overflow or rounding is
  modelled.
- Inventory.Ledger.Get: the log entries carry only the acting user's id.
  The source joins each entry with that user's id, first and last name and
  e-mail address (inventory.controller.ts:71-79). The user table belongs to
  the authentication model and is not joined here.
- Untyped request bodies: the model's raw bodies are already typed, with
  optional integers and optional strings. So it cannot express zod's
  rejection of a fractional quantity, minStock or delta (`.int()`,
  types/index.ts:32-33 and :42), or of a field of the wrong JSON type
  (a string price, `notes: null`). Every schema function is exact only
  over typed bodies.
- Number rounding in `parseInt`: JavaScript reads a digit string longer
  than about 16 digits as a rounded double. `Text.ParseInt`, the PORT value
  and the schedule's digit groups use the exact decimal value.
- The list query's schema: `inventoryQuerySchema` rejects a query value
  that is not a string (a repeated parameter, say). The model's ListQuery
  holds only optional strings, so that rejection is not modelled.
