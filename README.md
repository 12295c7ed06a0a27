# Pro-Track in Dafny

Pro-Track is an ASP.NET Core MVC application in which freelancers keep track of
**clients**, the **projects** they do for them, the **time entries** they log
against those projects and the **invoices** they send. Every row belongs to one
signed-in user. Each controller action is meant to read and write only the
caller's rows.

This project models the core of that application:

- the four entities and their computed properties: `TimeEntry.DurationInHours`,
  `TimeEntry.Amount`, `Project.TotalHours` and `Project.TotalAmount`
  (`entities.dfy`);
- the database constraints that `ApplicationDbContext` declares:
  - keys;
  - the per-user unique indexes on client name, project title and invoice
    number;
  - the `Restrict` foreign keys and the `Cascade` delete of a user;
  - the data-annotation ranges (`schema.dfy`);
- what each single-row write needs to keep those constraints and to keep every
  reference inside its owner's rows (`integrity.dfy`);
- the LINQ operators the controllers use, on sequences (`linq.dfy`);
- the read side of the controllers (`queries.dfy`):
  - the Index pages;
  - `IsClientNameUnique`;
  - the dashboard statistics;
  - `GenerateFromTimeEntries`;
  - the per-user invoice numbering;
- the search-pattern sanitising of the Index pages (`search_pattern.dfy`);
- `GenerateNextInvoiceNumber` (`invoice_number.dfy`);
- the write actions of the four controllers (`store.dfy`). They are methods of a
  `Store` class whose fields are the four tables and the identity counter, and
  which each action changes in place.

The signed-in user and `DateTime.UtcNow` are parameters of every action. An
action's answer is an `Outcome`:

- a redirect after a successful write is `Ok`;
- `NotFound()` and `Forbid()` are `NotFound` and `Forbidden`;
- a form shown again is `Invalid(reason)`;
- a unique-index violation raised by `SaveChanges` is `DbError`.

Every state-changing method states its whole new state. Every one of them
except `Store.EditClient`, `Store.EditProject` and `Store.EditTimeEntry`, which
model the edits as written (see "## Findings"), also proves three invariants:

1. the database constraints hold afterwards (`Valid()`);
2. tenant consistency is kept;
3. nothing any other user can see has changed.

Tenant consistency means that every project, time entry and invoice references
a row of its own user. The third invariant is written
`OwnView(Snapshot(), v) == OwnView(old(Snapshot()), v)` for every `v` other
than the caller.

Each action makes its one write through a single-row method of the store
(`AddClientRow`, `PutClientRow`, `DropClientRow`, and the same for the other
three tables). That method is the `Add`, `Update` or `Remove` call followed by
`SaveChangesAsync`. Its contract gives the new table and the three invariants,
which the `…Step` lemmas prove on values.

The Edit actions of clients, projects and time entries check only the `UserId`
that the form posts. They then let `Update` overwrite whatever row has the
posted key, so they do not keep users apart. They are modelled as written
(`EditClient`, `EditProject`, `EditTimeEntry`), with a counterexample, and also
as corrected (`EditClientOwned`, …). The corrected versions look the row up by
key and owner first, as Invoices/Edit already does. See "## Findings".

## Model

| member | source | states |
|---|---|---|
| Entities.DurationInHours | Models/TimeEntry.cs:21-31 | never negative; zero when the entry does not end after it starts; otherwise hours × ticks-per-hour equals the elapsed ticks |
| Entities.DurationSplit | Models/TimeEntry.cs:21-31 | cutting an entry at an instant inside it splits its duration into the two parts' durations |
| Entities.DurationMonotone | Models/TimeEntry.cs:21-31 | a later end time never gives a shorter duration |
| Entities.Amount | Models/TimeEntry.cs:60 | zero without a project and for an entry that does not end after it starts; otherwise amount × ticks-per-hour equals elapsed ticks × hourly rate; never negative for a non-negative rate |
| Entities.TotalHours | Models/Project.cs:56 | the hours of billed entries are never negative and are zero for no entries |
| Entities.TotalAmount | Models/Project.cs:60 | not negative for a non-negative rate; zero for a zero rate or no entries |
| Entities.TotalHoursAppend | Models/Project.cs:56 | the billed hours of two lists joined are the sum of their billed hours |
| Entities.TotalHoursUnbilled | Models/Project.cs:56 | a list of only unbilled entries has zero billed hours |
| Entities.MarkBilledAddsDuration | Models/Project.cs:56 | replacing one unbilled entry by a billed one of equal duration adds exactly that duration to the billed hours |
| Linq.Where | Controllers/ClientsController.cs:32-33 | the result holds exactly the elements that satisfy the predicate, as a sub-multiset of the input |
| Linq.WhereMultiplicity | Controllers/ClientsController.cs:32-33 | a filter keeps each satisfying element exactly as often as the input holds it and drops every other element |
| Linq.WhereEmptyIffNotAny | Controllers/InvoicesController.cs:600 | a filtered list is empty if and only if no element satisfies the predicate (`!Any()`) |
| Linq.WhereWhere | Controllers/HomeController.cs:97-98 | two filters applied in turn equal one filter by their conjunction |
| Linq.Count | Controllers/HomeController.cs:81-82 | a count is never more than the length; it is zero exactly when no element satisfies the predicate and the length exactly when all do |
| Linq.WhereAllIffAll | Controllers/HomeController.cs:81-82 | a filter keeps the whole list exactly when every element satisfies the predicate |
| Linq.CountIndices | Controllers/HomeController.cs:81-82 | a count is the number of positions whose element satisfies the predicate |
| Linq.IndicesSnoc | Controllers/HomeController.cs:81-82 | appending one element adds its position to the satisfying positions exactly when it satisfies the predicate |
| Linq.CountMonotone | Controllers/HomeController.cs:84-88 | a stronger predicate never counts more |
| Linq.FirstIndex | Controllers/ClientsController.cs:195-196 | `FirstOrDefault`: the first index whose element satisfies the predicate, and none exactly when no element does |
| Linq.SumAppend | Controllers/HomeController.cs:101 | the sum over two lists joined is the sum of the two sums |
| Linq.SumSplit | Controllers/HomeController.cs:104-111 | the sums over the two halves of a partition add up to the sum over the whole |
| Linq.SumNonNegative | Controllers/HomeController.cs:101 | a sum of non-negative terms is not negative |
| Linq.OrderByDescending | Controllers/ProjectsController.cs:40 | the result is sorted by descending key and is a permutation of the input; the order among equal keys is unspecified, as in SQL |
| Linq.OrderBy | Controllers/ClientsController.cs:53-55 | the result is sorted by ascending (ordinal) key and is a permutation of the input |
| Linq.Take | Controllers/HomeController.cs:117 | the first min(n, length) elements: the whole list when it is not longer than n, exactly n of them otherwise |
| Linq.TopN | Controllers/HomeController.cs:114-117 | at most n matching elements sorted by descending key, exactly n when enough match, and every element is taken from the input (a sub-multiset), and every matching element left out has a key no greater than any element kept |
| Linq.Select | Controllers/InvoicesController.cs:610 | the image of each element, in order |
| Text.ToLower | Controllers/ClientsController.cs:280 | same length, each character lowered |
| Schema.ProjectById | Data/ApplicationDbContext.cs:103-106 | the project navigation of a time entry: the row with that key if there is one |
| Schema.RemoveClientRestrict | Data/ApplicationDbContext.cs:80-130 | removing a client keeps every project and invoice reference valid if and only if no project and no invoice refers to it |
| Schema.RemoveProjectRestrict | Data/ApplicationDbContext.cs:103-106 | removing a project keeps every time-entry reference valid if and only if no time entry refers to it |
| Schema.DeleteUser | Data/ApplicationDbContext.cs:55-125 | the cascade: no row of the user is left, every row of every other user stays, and each table keeps only rows it held before (a sub-multiset) |
| Schema.DeleteUserKeepsValid | Data/ApplicationDbContext.cs:55-125 | in a valid, tenant-consistent database the cascade leaves a valid, tenant-consistent database |
| Schema.DeleteUserKeepsReferences | Data/ApplicationDbContext.cs:80-130 | after the cascade every remaining foreign key still names an existing row |
| Schema.DeleteUserKeepsRows | Data/ApplicationDbContext.cs:43-133 | after the cascade every remaining row still meets its column constraints |
| Schema.DeleteUserKeepsTenants | Data/ApplicationDbContext.cs:55-125 | after the cascade every reference still stays inside its owner's rows |
| Integrity.OwnedClientBelongs | Controllers/ProjectsController.cs:133-146 | once the client check finds the key among the caller's rows, that key exists and every row with it belongs to the caller |
| Integrity.OwnedProjectBelongs | Controllers/TimeEntriesController.cs:151-161 | the same for the project check |
| Integrity.InsertClient | Data/ApplicationDbContext.cs:43-61 | a client with a fresh key, a name free for its user and valid fields keeps the database valid and tenant-consistent |
| Integrity.UpdateClient | Data/ApplicationDbContext.cs:43-61 | replacing a client row by one with the same key and a name no other row of the user holds keeps the database valid; keeping the owner keeps tenant consistency |
| Integrity.RemoveClient | Data/ApplicationDbContext.cs:80-130 | removing a client that no project and no invoice references keeps the database valid and tenant-consistent |
| Integrity.InsertProject | Data/ApplicationDbContext.cs:64-86 | a project with a fresh key, a free title, valid fields and an existing client keeps the database valid; a client of the same user keeps tenant consistency |
| Integrity.UpdateProject | Data/ApplicationDbContext.cs:64-86 | the same for replacing a project row under its key, with the owner kept |
| Integrity.RemoveProject | Data/ApplicationDbContext.cs:103-106 | removing a project no time entry references keeps the database valid and tenant-consistent |
| Integrity.InsertTimeEntry | Data/ApplicationDbContext.cs:89-107 | a time entry with a fresh key, valid fields and an existing project keeps the database valid; a project of the same user keeps tenant consistency |
| Integrity.UpdateTimeEntry | Data/ApplicationDbContext.cs:89-107 | the same for replacing a time-entry row under its key |
| Integrity.RemoveTimeEntry | Data/ApplicationDbContext.cs:89-107 | removing any time entry keeps the database valid and tenant-consistent |
| Integrity.InsertInvoice | Data/ApplicationDbContext.cs:110-133 | an invoice with a fresh key, a number free for its user, valid fields and an existing client keeps the database valid; a client of the same user keeps tenant consistency |
| Integrity.UpdateInvoice | Data/ApplicationDbContext.cs:110-133 | the same for replacing an invoice row under its key |
| Integrity.RemoveInvoice | Data/ApplicationDbContext.cs:110-133 | removing any invoice keeps the database valid and tenant-consistent |
| Controllers.ClientAppendStep | Data/ApplicationDbContext.cs:43-61 | a client inserted under the next identity value keeps the database valid, leaves every key below the advanced identity value, keeps tenant consistency and leaves every other user's rows as they were |
| Controllers.ClientUpdateStep | Data/ApplicationDbContext.cs:43-61 | a client row rewritten under its key keeps the database valid and the keys below the identity value; with the owner kept, tenants stay apart and other users' rows stay as they were |
| Controllers.ClientRemoveStep | Data/ApplicationDbContext.cs:80-130 | removing an unreferenced client keeps the database valid, tenants apart, and every user other than its owner sees the same rows |
| Controllers.ProjectAppendStep | Data/ApplicationDbContext.cs:64-86 | a project inserted under the next identity value for an active client of its own user keeps the database valid, tenants apart and other users' rows unchanged |
| Controllers.ProjectUpdateStep | Data/ApplicationDbContext.cs:64-86 | a project row rewritten under its key keeps the database valid; with the owner kept, tenants stay apart and other users' rows stay as they were |
| Controllers.ProjectRemoveStep | Data/ApplicationDbContext.cs:103-106 | removing a project no time entry references keeps the database valid, tenants apart, and every user other than its owner sees the same rows |
| Controllers.TimeEntryAppendStep | Data/ApplicationDbContext.cs:89-107 | a time entry inserted under the next identity value on a project of its own user keeps the database valid, tenants apart and other users' rows unchanged |
| Controllers.TimeEntryUpdateStep | Data/ApplicationDbContext.cs:89-107 | a time-entry row rewritten under its key keeps the database valid; tenants stay apart when its project is its user's, and other users' rows stay as they were when the owner is kept |
| Controllers.TimeEntryRemoveStep | Data/ApplicationDbContext.cs:89-107 | removing a time entry keeps the database valid, tenants apart, and every user other than its owner sees the same rows |
| Controllers.InvoiceAppendStep | Data/ApplicationDbContext.cs:110-133 | an invoice inserted under the next identity value for an active client of its own user keeps the database valid, tenants apart and other users' rows unchanged |
| Controllers.InvoiceUpdateStep | Data/ApplicationDbContext.cs:110-133 | an invoice row rewritten under its key keeps the database valid; tenants stay apart when its client is its user's, and other users' rows stay as they were when the owner is kept |
| Controllers.InvoiceRemoveStep | Data/ApplicationDbContext.cs:110-133 | removing an invoice keeps the database valid, tenants apart, and every user other than its owner sees the same rows |
| Queries.ClientsIndex | Controllers/ClientsController.cs:32-55 | exactly the caller's active clients, each at most as often as stored, sorted by name |
| Queries.ProjectsIndex | Controllers/ProjectsController.cs:37-41 | exactly the caller's projects, newest first |
| Queries.TimeEntriesIndex | Controllers/TimeEntriesController.cs:40-67 | exactly the caller's time entries, latest start first |
| Queries.InvoicesIndex | Controllers/InvoicesController.cs:43-70 | exactly the caller's invoices, latest invoice date first |
| Queries.IsClientNameUnique | Controllers/ClientsController.cs:276-283 | true if and only if no other client of the caller (other than `id`, when given) has the name ignoring case |
| Queries.NameUniqueAdmitsCreate | Controllers/ClientsController.cs:276-283 | a name the check accepts for a new client is free in the (user, name) unique index |
| Queries.NameUniqueAdmitsRename | Controllers/ClientsController.cs:276-283 | a name the check accepts when renaming client `id` keeps the unique index unique |
| Queries.NameCheckIgnoresCase | Controllers/ClientsController.cs:280 | the check rejects "ACME" beside "Acme", which the index itself would accept |
| Queries.RecentClients | Controllers/HomeController.cs:114-125 | at most five of the caller's active clients, all taken from the clients table, newest first; a left-out one is no newer than all five shown |
| Queries.RecentProjects | Controllers/HomeController.cs:127-141 | at most five of the caller's projects, all taken from the projects table, newest first; a left-out one is no newer than all five shown |
| Queries.RecentTimeEntries | Controllers/HomeController.cs:143-159 | at most five of the caller's time entries, all taken from the time-entries table, latest start first; a left-out one starts no later than all five shown |
| Queries.UnbilledHours | Controllers/HomeController.cs:97-101 | the unbilled hours are never negative |
| Queries.Dashboard | Controllers/HomeController.cs:71-168 | active projects ≤ projects, unpaid ≤ invoices, unbilled hours ≥ 0, each recent list at most five long, sorted, only the caller's rows, and a sub-multiset of its table |
| Queries.DashboardRevenueSplit | Controllers/HomeController.cs:104-111 | paid revenue plus pending revenue is the total of all the caller's invoices |
| Queries.DashboardRevenueNonNegative | Controllers/HomeController.cs:104-111 | in a valid database neither revenue figure is negative |
| Queries.DashboardHoursSplit | Controllers/HomeController.cs:97-101 | unbilled hours plus the billed hours (`Project.TotalHours` over the caller's entries) are all the caller's recorded hours |
| Queries.DashboardOwnRowsOnly | Controllers/HomeController.cs:71-168 | the dashboard of the caller's own rows equals the dashboard of the whole database |
| Queries.DashboardCounts | Controllers/HomeController.cs:81-94 | the client, project, active-project, invoice and unpaid-invoice counters are the numbers of table positions holding a row of the caller of that kind |
| Queries.DashboardNonInterference | Controllers/HomeController.cs:71-168 | two databases that agree on the caller's rows give the same dashboard |
| Queries.GenerateFromTimeEntries | Controllers/InvoicesController.cs:571-627 | "client not valid" exactly when the client is not an active client of the caller; "no entries" exactly when nothing is selected; otherwise exactly the selected entries (the caller's unbilled entries on the client's projects, of the project if given, starting on a day in the range), their count and the sum of their amounts |
| Queries.EntryAmountNonNegative | Models/TimeEntry.cs:60 | with non-negative hourly rates an entry's amount is not negative |
| Queries.GeneratedTotalNonNegative | Controllers/InvoicesController.cs:606 | in a valid database the generated total is not negative |
| Queries.NextInvoiceNumberFor | Controllers/InvoicesController.cs:631-653 | the caller's next number starts with the year's prefix, and is the prefix plus "001" when the caller has no number with that prefix |
| Queries.NextNumberOwnRowsOnly | Controllers/InvoicesController.cs:636-639 | the next number computed from the caller's invoices alone is the same as from the whole table |
| Queries.NextNumberNonInterference | Controllers/InvoicesController.cs:636-639 | two databases that agree on the caller's rows offer the caller the same next number |
| SearchPattern.EscapeTerm | Controllers/InvoicesController.cs:52-56 | the sanitised term is each character escaped on its own, and contains no `*` |
| SearchPattern.EscapeTermPerChar | Controllers/TimeEntriesController.cs:49-53 | the four `Replace` calls in their written order equal the per-character escape |
| SearchPattern.StarBecomesPercent | Controllers/InvoicesController.cs:56 | a `*` in the term becomes the LIKE wildcard `%` between the escaped parts |
| SearchPattern.EscapeEachAppend | Controllers/InvoicesController.cs:52-56 | escaping distributes over concatenation |
| SearchPattern.InvoicePattern | Controllers/InvoicesController.cs:49-60 | no pattern exactly for a missing or blank term; otherwise `%` + escaped term + `%` without any `*` |
| SearchPattern.ClientPattern | Controllers/ClientsController.cs:36-46 | no pattern exactly for a missing or blank term; otherwise `%` + the term with each `*` turned into `%` + `%`, and nothing else escaped |
| SearchPattern.EscapeCollision | Controllers/InvoicesController.cs:52-56 | the terms "%" and "[*]" produce the same pattern |
| SearchPattern.ClientPatternCollision | Controllers/ClientsController.cs:39 | the terms "%" and "*" produce the same pattern |
| SearchPattern.EscapeTermOrdered | Controllers/InvoicesController.cs:52-56 | the corrected sanitiser (`[` escaped first) is each character escaped on its own |
| SearchPattern.OrderedPerChar | Controllers/InvoicesController.cs:52-56 | the corrected `Replace` order equals the per-character escape |
| SearchPattern.OrderedEscapeRoundTrip | Controllers/InvoicesController.cs:52-56 | the corrected sanitiser can be undone: `Unescape(EscapeTermOrdered(t)) == t` |
| SearchPattern.OrderedEscapeInjective | Controllers/InvoicesController.cs:52-56 | different terms give different corrected patterns |
| InvoiceNumbering.TryParseInt32 | Controllers/InvoicesController.cs:647 | a parse succeeds exactly on a non-empty run of digits whose value is at most Int32.MaxValue, and yields that value |
| InvoiceNumbering.WrapInt32 | Controllers/InvoicesController.cs:649 | `number + 1` in 32-bit arithmetic: in range, unchanged when already in range, congruent modulo 2^32 |
| InvoiceNumbering.FormatD3 | Controllers/InvoicesController.cs:649 | `:D3`: at least three digits with the number's value, no leading zero beyond three digits, exactly three for numbers below 1000, a minus sign for negatives followed by the digits of the magnitude with no excess leading zero |
| InvoiceNumbering.PadZeros | Controllers/InvoicesController.cs:649 | left padding with zeros keeps the digits' value and reaches the width |
| InvoiceNumbering.Prefix | Controllers/InvoicesController.cs:634 | the prefix is not empty and starts with `I` |
| InvoiceNumbering.Matching | Controllers/InvoicesController.cs:637 | exactly the numbers that start with the prefix |
| InvoiceNumbering.Greatest | Controllers/InvoicesController.cs:638-639 | an element that no other element exceeds in ordinal order |
| InvoiceNumbering.GenerateNextInvoiceNumber | Controllers/InvoicesController.cs:631-653 | the result starts with the year's prefix, and is the prefix plus "001" when no number has that prefix |
| InvoiceNumbering.NextFromGreatest | Controllers/InvoicesController.cs:636-650 | the result is computed from the greatest number with the prefix |
| InvoiceNumbering.UnparsableFallsBack | Controllers/InvoicesController.cs:646-652 | when the rest of the greatest matching number does not parse as an `int`, the next number is the prefix plus `001` |
| InvoiceNumbering.FallbackRepeats | Controllers/InvoicesController.cs:646-652 | with `INV-y-001` and `INV-y-abc` stored, the generator offers `INV-y-001`, a number already taken |
| InvoiceNumbering.NextAfterCanonical | Controllers/InvoicesController.cs:646-649 | when the greatest number is the prefix plus `FormatD3(n)` with n ≤ Int32.MaxValue, the next one is the prefix plus `FormatD3` of the unchecked `n + 1`, which is n + 1 below Int32.MaxValue |
| InvoiceNumbering.Int32Wraps | Controllers/InvoicesController.cs:646-649 | when `INV-y-2147483647` is the greatest matching number, the unchecked `number + 1` wraps, and the generated number is the prefix plus `FormatD3(int.MinValue)`, with a minus sign |
| InvoiceNumbering.WrapAtMax | Controllers/InvoicesController.cs:649 | unchecked `int.MaxValue + 1` is `int.MinValue` |
| InvoiceNumbering.Canonical | Controllers/InvoicesController.cs:643-649 | the first n numbers a user gets: the prefix plus 001, 002, … |
| InvoiceNumbering.SequentialNumbers | Controllers/InvoicesController.cs:631-653 | up to 999 invoices, numbering continues with the next three-digit number |
| InvoiceNumbering.RolloverRepeats | Controllers/InvoicesController.cs:638 | with numbers 999 and 1000 the generator returns 1000 again, a number already taken |
| InvoiceNumbering.MaxSuffix | Controllers/InvoicesController.cs:646-647 | no numeric suffix with the prefix exceeds it, and when it is positive some matching number has exactly that suffix |
| InvoiceNumbering.NextNumberNumeric | Controllers/InvoicesController.cs:631-653 | the corrected generator starts with the prefix and never returns a number already taken |
| InvoiceNumbering.NumericPassesRollover | Controllers/InvoicesController.cs:631-653 | after 999 and 1000 the corrected generator returns 1001, which is not taken |
| Controllers.OwnedClientEditAgrees | Controllers/ClientsController.cs:130-165 | looking the row up by key and owner gives the same answer as Clients/Edit whenever the key belongs to the caller |
| Controllers.OwnedProjectEditAgrees | Controllers/ProjectsController.cs:229-274 | the same for Projects/Edit |
| Controllers.OwnedTimeEntryEditAgrees | Controllers/TimeEntriesController.cs:247-296 | the same for TimeEntries/Edit |
| Controllers.IsPaidFromForm | Controllers/InvoicesController.cs:269-285 | paid if and only if the field was posted and one of its values equals "true" ignoring case |
| Controllers.CheckboxPosts | Controllers/InvoicesController.cs:269-285 | a checked checkbox (`true`, `false`) and "True" mean paid; an unchecked one (`false`), no values and no field mean unpaid |
| Controllers.PaymentDateOnEdit | Controllers/InvoicesController.cs:325-341 | a submitted date is kept; without one, a paid invoice gets today's date and an unpaid one gets none |
| Controllers.EditedInvoice | Controllers/InvoicesController.cs:311-341 | the stored row keeps key, owner and creation date, takes client, dates, total, notes and number from the form, is stamped now, takes the paid flag and the payment date by the three rules of PaymentDateOnEdit, and meets the column constraints when the form does |
| Controllers.TogglePaidRow | Controllers/InvoicesController.cs:465-467 | the paid flag flips, the payment date is now when it becomes paid and none otherwise, LastModified becomes now, and key, owner, client, number, total, dates, notes and creation date stay |
| Controllers.ToggleBilledRow | Controllers/TimeEntriesController.cs:395-404 | the billed flag flips and LastModified becomes now; key, owner, project, start, end, description and creation date stay |
| Controllers.ToggleTwice | Controllers/InvoicesController.cs:457-470 | toggling twice restores both flags; only timestamps and, for a paid invoice, the payment date move |
| Controllers.ToggleBilledHours | Controllers/TimeEntriesController.cs:389-407 | ToggleBilled moves exactly the entry's duration into or out of the billed hours |
| Controllers.TwoTenantsConsistent | Data/ApplicationDbContext.cs:43-133 | the two-user database of the counterexamples is valid and tenant-consistent |
| Controllers.EditClientAccepted | Controllers/ClientsController.cs:130-165 | Clients/Edit as written accepts another user's post for Bob's client, which the owner-checked lookup answers NotFound |
| Controllers.EditClientTakesForeignRow | Controllers/ClientsController.cs:147 | after it Bob no longer owns his client, and his project refers to another user's client |
| Controllers.EditProjectAccepted | Controllers/ProjectsController.cs:229-274 | Projects/Edit as written accepts another user's post for Bob's project, which the owner-checked lookup answers NotFound |
| Controllers.EditProjectTakesForeignRow | Controllers/ProjectsController.cs:247-257 | after it Bob no longer owns his project, and his time entry hangs on another user's project |
| Controllers.EditTimeEntryAccepted | Controllers/TimeEntriesController.cs:247-296 | TimeEntries/Edit as written accepts another user's post for Bob's time entry, which the owner-checked lookup answers NotFound |
| Controllers.EditTimeEntryTakesForeignRow | Controllers/TimeEntriesController.cs:265-275 | after it Bob no longer owns his time entry |
| Controllers.Store.constructor | Data/ApplicationDbContext.cs:22-26 | a store starts empty and valid |
| Controllers.Store.CreateClient | Controllers/ClientsController.cs:91-103 | a database error when the name is taken for the caller; otherwise the bound client with the caller, the clock and the next key is appended, active unless the form says otherwise |
| Controllers.Store.EditClient | Controllers/ClientsController.cs:130-165 | as written: NotFound, Forbidden, Invalid, NotFound for an unknown key, DbError for a taken name, else the posted row replaces whichever row has its key |
| Controllers.Store.EditClientOwned | Controllers/ClientsController.cs:130-165 | corrected: the same answers but the row is looked up by key and owner; only the caller's row changes |
| Controllers.Store.DeleteClient | Controllers/ClientsController.cs:192-222 | nothing for a missing client; deactivation when any project or invoice refers to it; otherwise removal |
| Controllers.Store.SetActive | Controllers/ClientsController.cs:241-243 | exactly that client's active flag is set, and only its owner's view changes |
| Controllers.Store.DeactivateClient | Controllers/ClientsController.cs:225-247 | NotFound for a client the caller does not own; otherwise that client is inactive, and an inactive one stays unchanged |
| Controllers.Store.ReactivateClient | Controllers/ClientsController.cs:250-272 | NotFound for a client the caller does not own; otherwise that client is active, and an active one stays unchanged |
| Controllers.Store.CreateProject | Controllers/ProjectsController.cs:124-151 | Invalid for bad fields or a client that is not an active client of the caller, a database error for a taken title, otherwise the project is appended with the caller, the next key and status Active by default |
| Controllers.Store.EditProject | Controllers/ProjectsController.cs:229-274 | as written: the posted row with the new modification time replaces whichever project has its key |
| Controllers.Store.EditProjectOwned | Controllers/ProjectsController.cs:229-274 | corrected: the row is looked up by key and owner; only the caller's row changes |
| Controllers.Store.DeleteProject | Controllers/ProjectsController.cs:343-369 | nothing for a missing project; blocked while any time entry refers to it; otherwise removal |
| Controllers.Store.CreateTimeEntry | Controllers/TimeEntriesController.cs:142-173 | Invalid for bad fields, a project the caller does not own, or an end not after the start; otherwise the entry is appended with the caller and the next key, unbilled by default |
| Controllers.Store.EditTimeEntry | Controllers/TimeEntriesController.cs:247-296 | as written: the posted row with the new modification time replaces whichever entry has its key |
| Controllers.Store.EditTimeEntryOwned | Controllers/TimeEntriesController.cs:247-296 | corrected: the row is looked up by key and owner; only the caller's row changes |
| Controllers.Store.DeleteTimeEntry | Controllers/TimeEntriesController.cs:360-376 | nothing for a missing entry; otherwise the caller's entry is removed |
| Controllers.Store.ToggleBilled | Controllers/TimeEntriesController.cs:389-407 | NotFound for an entry the caller does not own; otherwise exactly that entry's billed flag flips |
| Controllers.Store.CreateInvoice | Controllers/InvoicesController.cs:155-183 | Invalid for bad fields or a client that is not an active client of the caller, a database error for a taken number, otherwise the invoice is appended unpaid without payment date, dated today unless a date is posted |
| Controllers.Store.EditInvoice | Controllers/InvoicesController.cs:254-365 | the guards in order; then the caller's row takes the edited fields, the paid flag read from the form and the payment date rule |
| Controllers.Store.DeleteInvoice | Controllers/InvoicesController.cs:422-438 | nothing for a missing invoice; otherwise the caller's invoice is removed |
| Controllers.Store.TogglePaid | Controllers/InvoicesController.cs:457-470 | NotFound for an invoice the caller does not own; otherwise exactly that invoice's paid flag flips, with today as payment date when it becomes paid and none otherwise |

Every `Controllers.Store` method except the three as-written edits also ensures:

- the database stays valid;
- tenant consistency is kept;
- no other user's view changes.

## Left out

- Controllers.Store.EditClient, Controllers.Store.EditProject, Controllers.Store.EditTimeEntry: these promise no tenant consistency and no isolation of other users, because the code as written keeps neither (see "## Findings").
- The LIKE search filters of the Index pages. Only the pattern strings are modelled (`SearchPattern`); SQL LIKE matching and column collation are outside the model.
- The unique indexes compare under the database collation, which on SQL Server is usually case-insensitive. The model compares names exactly, and `NameCheckIgnoresCase` shows where that matters.
- The ordering of strings (client names, invoice numbers) is ordinal. Collation-aware ordering is left out.
- InvoiceNumbering.Matching and InvoiceNumbering.GenerateNextInvoiceNumber: the prefix filter `StartsWith(prefix)` and the ordering run in SQL Server under its collation, usually case-insensitive. The model matches and orders ordinally, so with a lower-case number such as `inv-2025-900` stored beside `INV-2025-005`, the source picks the lower-case one, fails to parse it and offers `INV-2025-001`, while the model offers `INV-2025-006`.
- Text.ToLower lowers ASCII letters only. Culture-aware Unicode casing is left out.
- InvoiceNumbering.TryParseInt32 accepts digit runs only. The leading and trailing white space, the sign and the culture-specific forms that `int.TryParse` also accepts are left out.
- `decimal(18,2)` rounding and the conversion of `TimeSpan.TotalHours` (a double) to decimal are left out. Money and hours are exact reals.
- `DateTime` is a tick count, and `.Date` is the tick count divided by a day. Time zones and `DateTimeKind` are left out.
- `DateTime.UtcNow` is a parameter of each action. The year in `GenerateNextInvoiceNumber` is a parameter too.
- Async, concurrency and `DbUpdateConcurrencyException` are left out. An edit of a key that no longer exists answers NotFound. The rethrow branch (the row exists, but another writer changed it) cannot happen in a sequential model.
- Any other exception from `SaveChanges` becomes `DbError`. Only the unique-index violation is modelled as its cause.
- The route `id` of the GET actions and of Deactivate/Reactivate is nullable in the source. The model takes an `int`, so the `id == null` branch answering NotFound is left out.
- The GET actions that only render a form or a details page, `ViewBag`, `TempData` and the view-model projections of the dashboard (project counts, client names) are left out.
- The dashboard's catch-all that returns empty statistics on any exception is left out. The model computes the statistics directly.
- `[EmailAddress]` and the implicit `[Required]` of non-nullable reference types are left out. `[Required]`, `[MaxLength]` and `[Range]` are modelled. Lengths are counted in characters, not UTF-16 code units.
- The `UserId` column's length and the Identity tables are left out.
- The invoice–time-entry join table `InvoiceTimeEntries` is left out. `GenerateFromTimeEntries` only computes the selection and the total, as the source does, and no action writes the join table.
- The model draws keys from one counter shared by all four tables, where the database gives each table its own IDENTITY column. The model relies only on each new key being fresh.
- EF's sentinel handling of `HasDefaultValue(true)` for a posted `false` is left out. A posted flag is stored as posted.
- Controllers.PaymentDateOnEdit keeps a submitted payment date even when the invoice is marked unpaid, as the source does.
- The AI description service, migrations, seed data, `Program.cs` and the Identity pages are not part of this model.

## Findings

| source | as written | input that shows it | evidently intended | confidence | as-written member | corrected member |
|---|---|---|---|---|---|---|
| Controllers/InvoicesController.cs:646-652 | when the greatest matching number does not parse, the sequence restarts at `001` without looking at the numbers already used | numbers `INV-y-001` and `INV-y-abc` give `INV-y-001`, which the unique index then rejects | skip suffixes that do not parse and continue after the greatest numeric one | not executed | InvoiceNumbering.FallbackRepeats | InvoiceNumbering.NextNumberNumeric |
| Controllers/InvoicesController.cs:638 | the greatest existing number is chosen by string order, so `INV-y-999` sorts above `INV-y-1000` | numbers `INV-y-999` and `INV-y-1000` give `INV-y-1000` again, which the unique index then rejects | take the greatest numeric suffix | not executed | InvoiceNumbering.RolloverRepeats | InvoiceNumbering.NextNumberNumeric |
| Controllers/InvoicesController.cs:52-56 | `[` is escaped after `%` and `_`, so the brackets those escapes introduce are escaped again | the terms `%` and `[*]` both give `[[]%]` | escape `[` first so that each term has its own pattern | not executed | SearchPattern.EscapeCollision | SearchPattern.EscapeTermOrdered |
| Controllers/ClientsController.cs:39 | only `*` is translated; a literal `%` or `_` in the term acts as a wildcard | the terms `%` and `*` both give `%%%` | escape the LIKE wildcards as the other Index pages mean to | not executed | SearchPattern.ClientPatternCollision | SearchPattern.EscapeTermOrdered |
| Controllers/ClientsController.cs:147 | Edit checks only the posted `UserId`, and `Update` overwrites whichever row has the posted key | Alice posts client 1 of Bob's with her own UserId, and Bob loses the client | look the row up by key and owner first, as Invoices/Edit does | not executed | Controllers.EditClientTakesForeignRow | Controllers.Store.EditClientOwned |
| Controllers/ProjectsController.cs:247-257 | the same for projects | Alice posts project 10 of Bob's, and Bob's time entry then hangs on her project | look the row up by key and owner first | not executed | Controllers.EditProjectTakesForeignRow | Controllers.Store.EditProjectOwned |
| Controllers/TimeEntriesController.cs:265-275 | the same for time entries | Alice posts time entry 20 of Bob's, and Bob loses it | look the row up by key and owner first | not executed | Controllers.EditTimeEntryTakesForeignRow | Controllers.Store.EditTimeEntryOwned |
