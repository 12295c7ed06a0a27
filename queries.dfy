/**
 * The read-only queries of the controllers: the per-user index lists, the
 * client-name uniqueness check, the dashboard statistics, the selection and
 * total behind "generate invoice from time entries", and the next invoice
 * number for a user.
 */
module Queries {
  import opened Wrappers
  import opened Text
  import opened Linq
  import opened Entities
  import opened Schema
  import InvoiceNumbering

  // ---------------------------------------------------------------------
  // Filters and keys
  // ---------------------------------------------------------------------

  function ClientOf(u: UserId): Client -> bool { (c: Client) => c.userId == u }
  function ActiveClientOf(u: UserId): Client -> bool { (c: Client) => c.userId == u && c.isActive }
  function ProjectOf(u: UserId): Project -> bool { (p: Project) => p.userId == u }
  function ActiveProjectOf(u: UserId): Project -> bool {
    (p: Project) => p.userId == u && p.status == Active
  }
  function TimeEntryOf(u: UserId): TimeEntry -> bool { (e: TimeEntry) => e.userId == u }
  function BilledTimeEntryOf(u: UserId): TimeEntry -> bool { (e: TimeEntry) => e.userId == u && e.isBilled }
  function UnbilledTimeEntryOf(u: UserId): TimeEntry -> bool { (e: TimeEntry) => e.userId == u && !e.isBilled }
  function InvoiceOf(u: UserId): Invoice -> bool { (i: Invoice) => i.userId == u }
  function PaidInvoiceOf(u: UserId): Invoice -> bool { (i: Invoice) => i.userId == u && i.isPaid }
  function UnpaidInvoiceOf(u: UserId): Invoice -> bool { (i: Invoice) => i.userId == u && !i.isPaid }

  function ClientName(c: Client): string { c.name }
  function ClientCreated(c: Client): int { c.createdDate }
  function ProjectCreated(p: Project): int { p.createdDate }
  function TimeEntryStart(e: TimeEntry): int { e.startTime }
  function InvoiceDateOf(i: Invoice): int { i.invoiceDate }
  function InvoiceTotal(i: Invoice): real { i.totalAmount }
  function InvoiceNumberOf(i: Invoice): string { i.invoiceNumber }

  /** The rows one user can see. */
  function OwnView(db: Db, u: UserId): Db {
    Db(Where(db.clients, ClientOf(u)), Where(db.projects, ProjectOf(u)),
       Where(db.timeEntries, TimeEntryOf(u)), Where(db.invoices, InvoiceOf(u)))
  }

  // ---------------------------------------------------------------------
  // Index pages (without the LIKE search filter)
  // ---------------------------------------------------------------------

  /** Clients/Index: the caller's active clients, by name. */
  function ClientsIndex(cs: seq<Client>, u: UserId): (r: seq<Client>)
    ensures forall i :: 0 <= i < |r| ==> r[i].userId == u && r[i].isActive
    ensures multiset(r) <= multiset(cs)
    ensures forall i :: 0 <= i < |cs| && cs[i].userId == u && cs[i].isActive ==> cs[i] in r
    ensures SortedAsc(r, ClientName)
  {
    var w := Where(cs, ActiveClientOf(u));
    var r := OrderBy(w, ClientName);
    forall i | 0 <= i < |r| ensures r[i].userId == u && r[i].isActive {
      assert r[i] in multiset(w);
      var m :| 0 <= m < |w| && w[m] == r[i];
    }
    forall i | 0 <= i < |cs| && cs[i].userId == u && cs[i].isActive ensures cs[i] in r {
      assert cs[i] in w;
      assert cs[i] in multiset(r);
    }
    r
  }

  /** Projects/Index: the caller's projects, newest first. */
  function ProjectsIndex(ps: seq<Project>, u: UserId): (r: seq<Project>)
    ensures forall i :: 0 <= i < |r| ==> r[i].userId == u
    ensures forall i :: 0 <= i < |ps| && ps[i].userId == u ==> ps[i] in r
    ensures multiset(r) <= multiset(ps)
    ensures SortedDesc(r, ProjectCreated)
  {
    var w := Where(ps, ProjectOf(u));
    var r := OrderByDescending(w, ProjectCreated);
    forall i | 0 <= i < |r| ensures r[i].userId == u {
      assert r[i] in multiset(w);
      var m :| 0 <= m < |w| && w[m] == r[i];
    }
    forall i | 0 <= i < |ps| && ps[i].userId == u ensures ps[i] in r {
      assert ps[i] in w;
      assert ps[i] in multiset(r);
    }
    r
  }

  /** TimeEntries/Index: the caller's entries, latest start first. */
  function TimeEntriesIndex(es: seq<TimeEntry>, u: UserId): (r: seq<TimeEntry>)
    ensures forall i :: 0 <= i < |r| ==> r[i].userId == u
    ensures forall i :: 0 <= i < |es| && es[i].userId == u ==> es[i] in r
    ensures multiset(r) <= multiset(es)
    ensures SortedDesc(r, TimeEntryStart)
  {
    var w := Where(es, TimeEntryOf(u));
    var r := OrderByDescending(w, TimeEntryStart);
    forall i | 0 <= i < |r| ensures r[i].userId == u {
      assert r[i] in multiset(w);
      var m :| 0 <= m < |w| && w[m] == r[i];
    }
    forall i | 0 <= i < |es| && es[i].userId == u ensures es[i] in r {
      assert es[i] in w;
      assert es[i] in multiset(r);
    }
    r
  }

  /** Invoices/Index: the caller's invoices, latest invoice date first. */
  function InvoicesIndex(vs: seq<Invoice>, u: UserId): (r: seq<Invoice>)
    ensures forall i :: 0 <= i < |r| ==> r[i].userId == u
    ensures forall i :: 0 <= i < |vs| && vs[i].userId == u ==> vs[i] in r
    ensures multiset(r) <= multiset(vs)
    ensures SortedDesc(r, InvoiceDateOf)
  {
    var w := Where(vs, InvoiceOf(u));
    var r := OrderByDescending(w, InvoiceDateOf);
    forall i | 0 <= i < |r| ensures r[i].userId == u {
      assert r[i] in multiset(w);
      var m :| 0 <= m < |w| && w[m] == r[i];
    }
    forall i | 0 <= i < |vs| && vs[i].userId == u ensures vs[i] in r {
      assert vs[i] in w;
      assert vs[i] in multiset(r);
    }
    r
  }

  // ---------------------------------------------------------------------
  // Clients/IsClientNameUnique
  // ---------------------------------------------------------------------

  /** `c => c.UserId == userId && c.Name.ToLower() == name.ToLower() && c.Id != id`;
      a missing `id` compares unequal to every key. */
  function NameClash(u: UserId, name: string, id: Option<int>): Client -> bool {
    (c: Client) => c.userId == u && EqualsIgnoreCase(c.name, name) && (id.None? || c.id != id.value)
  }

  function IsClientNameUnique(cs: seq<Client>, u: UserId, name: string, id: Option<int>): (b: bool)
    ensures b <==> forall k :: 0 <= k < |cs| && cs[k].userId == u && (id.None? || cs[k].id != id.value)
                              ==> !EqualsIgnoreCase(cs[k].name, name)
  {
    !Any(cs, NameClash(u, name, id))
  }

  /** A name the check accepts for a new client is free in the unique index. */
  lemma NameUniqueAdmitsCreate(cs: seq<Client>, u: UserId, name: string)
    requires IsClientNameUnique(cs, u, name, None)
    ensures ClientNameFree(cs, u, name)
  {}

  /** A name the check accepts when editing client `id` keeps the
      (user, name) index unique once that client is renamed. */
  lemma NameUniqueAdmitsRename(cs: seq<Client>, u: UserId, name: string, k: nat, c: Client)
    requires ClientNamesUnique(cs) && ClientKeysUnique(cs)
    requires k < |cs| && c.id == cs[k].id && c.userId == u && c.name == name
    requires IsClientNameUnique(cs, u, name, Some(c.id))
    ensures ClientNamesUnique(cs[k := c])
  {}

  /** The check is stricter than the index: names differing only in case
      are rejected too. */
  lemma NameCheckIgnoresCase(u: UserId)
    ensures var cs := [Client(1, u, "Acme", None, None, None, None, 0, true)];
            !IsClientNameUnique(cs, u, "ACME", None) && ClientNameFree(cs, u, "ACME")
  {
    var cs := [Client(1, u, "Acme", None, None, None, None, 0, true)];
    assert ToLower("Acme") == "acme";
    assert ToLower("ACME") == "acme";
    assert NameClash(u, "ACME", None)(cs[0]);
    assert "Acme" != "ACME" by { assert "Acme"[1] != "ACME"[1]; }
  }

  // ---------------------------------------------------------------------
  // Home/GetDashboardStatistics
  // ---------------------------------------------------------------------

  datatype DashboardStats = DashboardStats(
    totalClients: nat,
    totalProjects: nat,
    activeProjects: nat,
    totalInvoices: nat,
    unpaidInvoices: nat,
    unbilledHours: real,
    totalRevenue: real,
    pendingRevenue: real,
    recentClients: seq<Client>,
    recentProjects: seq<Project>,
    recentTimeEntries: seq<TimeEntry>)

  /** The five newest active clients of the caller. */
  function RecentClients(cs: seq<Client>, u: UserId): (r: seq<Client>)
    ensures |r| <= 5 && SortedDesc(r, ClientCreated)
    ensures forall i :: 0 <= i < |r| ==> r[i].userId == u && r[i].isActive
    ensures multiset(r) <= multiset(cs)
    ensures forall i :: 0 <= i < |cs| && cs[i].userId == u && cs[i].isActive && cs[i] !in r ==>
              |r| == 5 && forall k :: 0 <= k < 5 ==> r[k].createdDate >= cs[i].createdDate
  {
    var r := TopN(cs, ActiveClientOf(u), ClientCreated, 5);
    assert forall i :: 0 <= i < |r| ==> ActiveClientOf(u)(r[i]);
    forall i | 0 <= i < |cs| && cs[i].userId == u && cs[i].isActive && cs[i] !in r
      ensures |r| == 5 && forall k :: 0 <= k < 5 ==> r[k].createdDate >= cs[i].createdDate
    {
      assert ActiveClientOf(u)(cs[i]);
    }
    r
  }

  /** The five newest projects of the caller. */
  function RecentProjects(ps: seq<Project>, u: UserId): (r: seq<Project>)
    ensures |r| <= 5 && SortedDesc(r, ProjectCreated)
    ensures forall i :: 0 <= i < |r| ==> r[i].userId == u
    ensures multiset(r) <= multiset(ps)
    ensures forall i :: 0 <= i < |ps| && ps[i].userId == u && ps[i] !in r ==>
              |r| == 5 && forall k :: 0 <= k < 5 ==> r[k].createdDate >= ps[i].createdDate
  {
    var r := TopN(ps, ProjectOf(u), ProjectCreated, 5);
    assert forall i :: 0 <= i < |r| ==> ProjectOf(u)(r[i]);
    forall i | 0 <= i < |ps| && ps[i].userId == u && ps[i] !in r
      ensures |r| == 5 && forall k :: 0 <= k < 5 ==> r[k].createdDate >= ps[i].createdDate
    {
      assert ProjectOf(u)(ps[i]);
    }
    r
  }

  /** The five latest-starting time entries of the caller. */
  function RecentTimeEntries(es: seq<TimeEntry>, u: UserId): (r: seq<TimeEntry>)
    ensures |r| <= 5 && SortedDesc(r, TimeEntryStart)
    ensures forall i :: 0 <= i < |r| ==> r[i].userId == u
    ensures multiset(r) <= multiset(es)
    ensures forall i :: 0 <= i < |es| && es[i].userId == u && es[i] !in r ==>
              |r| == 5 && forall k :: 0 <= k < 5 ==> r[k].startTime >= es[i].startTime
  {
    var r := TopN(es, TimeEntryOf(u), TimeEntryStart, 5);
    assert forall i :: 0 <= i < |r| ==> TimeEntryOf(u)(r[i]);
    forall i | 0 <= i < |es| && es[i].userId == u && es[i] !in r
      ensures |r| == 5 && forall k :: 0 <= k < 5 ==> r[k].startTime >= es[i].startTime
    {
      assert TimeEntryOf(u)(es[i]);
    }
    r
  }

  /** `UnbilledHours`: hours of the caller's unbilled entries. */
  function UnbilledHours(es: seq<TimeEntry>, u: UserId): (h: real)
    ensures h >= 0.0
  {
    var unbilled := Where(es, UnbilledTimeEntryOf(u));
    SumNonNegative(unbilled, DurationInHours);
    Sum(unbilled, DurationInHours)
  }

  function Dashboard(db: Db, u: UserId): (s: DashboardStats)
    ensures s.activeProjects <= s.totalProjects
    ensures s.unpaidInvoices <= s.totalInvoices
    ensures s.unbilledHours >= 0.0
    ensures |s.recentClients| <= 5 && |s.recentProjects| <= 5 && |s.recentTimeEntries| <= 5
    ensures SortedDesc(s.recentClients, ClientCreated)
    ensures SortedDesc(s.recentProjects, ProjectCreated)
    ensures SortedDesc(s.recentTimeEntries, TimeEntryStart)
    ensures forall i :: 0 <= i < |s.recentClients| ==>
              s.recentClients[i].userId == u && s.recentClients[i].isActive
    ensures forall i :: 0 <= i < |s.recentProjects| ==> s.recentProjects[i].userId == u
    ensures forall i :: 0 <= i < |s.recentTimeEntries| ==> s.recentTimeEntries[i].userId == u
    ensures multiset(s.recentClients) <= multiset(db.clients)
    ensures multiset(s.recentProjects) <= multiset(db.projects)
    ensures multiset(s.recentTimeEntries) <= multiset(db.timeEntries)
  {
    CountMonotone(db.projects, ProjectOf(u), ActiveProjectOf(u));
    CountMonotone(db.invoices, InvoiceOf(u), UnpaidInvoiceOf(u));
    DashboardStats(
      Count(db.clients, ActiveClientOf(u)),
      Count(db.projects, ProjectOf(u)),
      Count(db.projects, ActiveProjectOf(u)),
      Count(db.invoices, InvoiceOf(u)),
      Count(db.invoices, UnpaidInvoiceOf(u)),
      UnbilledHours(db.timeEntries, u),
      Sum(Where(db.invoices, PaidInvoiceOf(u)), InvoiceTotal),
      Sum(Where(db.invoices, UnpaidInvoiceOf(u)), InvoiceTotal),
      RecentClients(db.clients, u),
      RecentProjects(db.projects, u),
      RecentTimeEntries(db.timeEntries, u))
  }

  /** Paid and pending revenue together are the total of all the caller's
      invoices. */
  lemma DashboardRevenueSplit(db: Db, u: UserId)
    ensures Dashboard(db, u).totalRevenue + Dashboard(db, u).pendingRevenue
            == Sum(Where(db.invoices, InvoiceOf(u)), InvoiceTotal)
  {
    SumSplit(db.invoices, InvoiceOf(u), (i: Invoice) => i.isPaid,
             PaidInvoiceOf(u), UnpaidInvoiceOf(u), InvoiceTotal);
  }

  /** In a valid database neither revenue figure is negative. */
  lemma DashboardRevenueNonNegative(db: Db, u: UserId)
    requires Valid(db)
    ensures Dashboard(db, u).totalRevenue >= 0.0 && Dashboard(db, u).pendingRevenue >= 0.0
  {
    assert forall i :: 0 <= i < |db.invoices| ==> InvoiceTotal(db.invoices[i]) >= 0.0 by {
      forall i | 0 <= i < |db.invoices| ensures InvoiceTotal(db.invoices[i]) >= 0.0 {
        assert InvoiceAnnotationsValid(db.invoices[i]);
      }
    }
    var nonNeg := (i: Invoice) => InvoiceTotal(i) >= 0.0;
    WhereKeeps(db.invoices, PaidInvoiceOf(u), nonNeg);
    WhereKeeps(db.invoices, UnpaidInvoiceOf(u), nonNeg);
    SumNonNegative(Where(db.invoices, PaidInvoiceOf(u)), InvoiceTotal);
    SumNonNegative(Where(db.invoices, UnpaidInvoiceOf(u)), InvoiceTotal);
  }

  /** Unbilled hours and the billed hours that `Project.TotalHours` counts
      together make up all the hours the caller has recorded. */
  lemma DashboardHoursSplit(db: Db, u: UserId)
    ensures Dashboard(db, u).unbilledHours + TotalHours(Where(db.timeEntries, TimeEntryOf(u)))
            == Sum(Where(db.timeEntries, TimeEntryOf(u)), DurationInHours)
  {
    WhereWhere(db.timeEntries, TimeEntryOf(u), IsBilled, BilledTimeEntryOf(u));
    SumSplit(db.timeEntries, TimeEntryOf(u), IsBilled,
             BilledTimeEntryOf(u), UnbilledTimeEntryOf(u), DurationInHours);
  }

  /** Every statistic is computed from the caller's own rows only. */
  lemma DashboardOwnRowsOnly(db: Db, u: UserId)
    ensures Dashboard(OwnView(db, u), u) == Dashboard(db, u)
  {
    WhereWhere(db.clients, ClientOf(u), ActiveClientOf(u), ActiveClientOf(u));
    WhereWhere(db.projects, ProjectOf(u), ProjectOf(u), ProjectOf(u));
    WhereWhere(db.projects, ProjectOf(u), ActiveProjectOf(u), ActiveProjectOf(u));
    WhereWhere(db.timeEntries, TimeEntryOf(u), UnbilledTimeEntryOf(u), UnbilledTimeEntryOf(u));
    WhereWhere(db.timeEntries, TimeEntryOf(u), TimeEntryOf(u), TimeEntryOf(u));
    WhereWhere(db.invoices, InvoiceOf(u), InvoiceOf(u), InvoiceOf(u));
    WhereWhere(db.invoices, InvoiceOf(u), PaidInvoiceOf(u), PaidInvoiceOf(u));
    WhereWhere(db.invoices, InvoiceOf(u), UnpaidInvoiceOf(u), UnpaidInvoiceOf(u));
  }

  /** The dashboard's counters are the numbers of positions in each table
      holding a row of the caller of the counted kind (`HomeController.Index`). */
  lemma DashboardCounts(db: Db, u: UserId)
    ensures Dashboard(db, u).totalClients == |Indices(db.clients, ActiveClientOf(u))|
    ensures Dashboard(db, u).totalProjects == |Indices(db.projects, ProjectOf(u))|
    ensures Dashboard(db, u).activeProjects == |Indices(db.projects, ActiveProjectOf(u))|
    ensures Dashboard(db, u).totalInvoices == |Indices(db.invoices, InvoiceOf(u))|
    ensures Dashboard(db, u).unpaidInvoices == |Indices(db.invoices, UnpaidInvoiceOf(u))|
  {
    CountIndices(db.clients, ActiveClientOf(u));
    CountIndices(db.projects, ProjectOf(u));
    CountIndices(db.projects, ActiveProjectOf(u));
    CountIndices(db.invoices, InvoiceOf(u));
    CountIndices(db.invoices, UnpaidInvoiceOf(u));
  }

  /** Rows of other users cannot change what the caller's dashboard shows. */
  lemma DashboardNonInterference(db1: Db, db2: Db, u: UserId)
    requires OwnView(db1, u) == OwnView(db2, u)
    ensures Dashboard(db1, u) == Dashboard(db2, u)
  {
    DashboardOwnRowsOnly(db1, u);
    DashboardOwnRowsOnly(db2, u);
  }

  // ---------------------------------------------------------------------
  // Invoices/GenerateFromTimeEntries
  // ---------------------------------------------------------------------

  /** The selection: the caller's unbilled entries on a project of the
      client (and of the given project, if any) that started on a day in
      the inclusive range. */
  predicate Selected(db: Db, u: UserId, clientId: int, projectId: Option<int>,
                     startDate: Ticks, endDate: Ticks, e: TimeEntry)
  {
    e.userId == u && !e.isBilled
    && (match ProjectById(db.projects, e.projectId)
        case Some(p) => p.clientId == clientId
        case None => false)
    && (projectId.None? || e.projectId == projectId.value)
    && Day(startDate) <= Day(e.startTime) <= Day(endDate)
  }

  function Selection(db: Db, u: UserId, clientId: int, projectId: Option<int>,
                     startDate: Ticks, endDate: Ticks): TimeEntry -> bool
  {
    (e: TimeEntry) => Selected(db, u, clientId, projectId, startDate, endDate, e)
  }

  /** The query's rows, in table order. */
  function SelectedEntries(db: Db, u: UserId, clientId: int, projectId: Option<int>,
                           startDate: Ticks, endDate: Ticks): (r: seq<TimeEntry>)
    ensures r == [] <==> forall i :: 0 <= i < |db.timeEntries| ==>
                          !Selected(db, u, clientId, projectId, startDate, endDate, db.timeEntries[i])
    ensures forall i :: 0 <= i < |r| ==> Selected(db, u, clientId, projectId, startDate, endDate, r[i])
    ensures forall i :: 0 <= i < |db.timeEntries|
              && Selected(db, u, clientId, projectId, startDate, endDate, db.timeEntries[i])
              ==> db.timeEntries[i] in r
    ensures multiset(r) <= multiset(db.timeEntries)
  {
    var sel := Selection(db, u, clientId, projectId, startDate, endDate);
    WhereEmptyIffNotAny(db.timeEntries, sel);
    Where(db.timeEntries, sel)
  }

  /** `te.Amount`, with `te.Project` the row its foreign key names. */
  function EntryAmount(ps: seq<Project>): TimeEntry -> real {
    (e: TimeEntry) => Amount(e, ProjectById(ps, e.projectId))
  }

  datatype GenerateError = ClientNotValid | NoUnbilledEntries

  datatype GenerateResult =
    | Generated(timeEntries: seq<TimeEntry>, totalAmount: real, entryCount: nat)
    | Failed(error: GenerateError)

  function GenerateFromTimeEntries(db: Db, u: UserId, clientId: int, projectId: Option<int>,
                                   startDate: Ticks, endDate: Ticks): (r: GenerateResult)
    ensures r == Failed(ClientNotValid) <==> !Any(db.clients, ClientSelectable(clientId, u))
    ensures r == Failed(NoUnbilledEntries) <==>
              Any(db.clients, ClientSelectable(clientId, u))
              && forall i :: 0 <= i < |db.timeEntries| ==>
                   !Selected(db, u, clientId, projectId, startDate, endDate, db.timeEntries[i])
    ensures r.Generated? ==>
              |r.timeEntries| > 0 && r.entryCount == |r.timeEntries|
              && (forall i :: 0 <= i < |r.timeEntries| ==>
                    Selected(db, u, clientId, projectId, startDate, endDate, r.timeEntries[i]))
              && (forall i :: 0 <= i < |db.timeEntries|
                    && Selected(db, u, clientId, projectId, startDate, endDate, db.timeEntries[i])
                    ==> db.timeEntries[i] in r.timeEntries)
              && multiset(r.timeEntries) <= multiset(db.timeEntries)
              && r.totalAmount == Sum(r.timeEntries, EntryAmount(db.projects))
  {
    if !Any(db.clients, ClientSelectable(clientId, u)) then Failed(ClientNotValid)
    else
      var entries := SelectedEntries(db, u, clientId, projectId, startDate, endDate);
      if entries == [] then Failed(NoUnbilledEntries)
      else Generated(entries, Sum(entries, EntryAmount(db.projects)), |entries|)
  }

  lemma EntryAmountNonNegative(ps: seq<Project>, e: TimeEntry)
    requires forall m :: 0 <= m < |ps| ==> ps[m].hourlyRate >= 0.0
    ensures EntryAmount(ps)(e) >= 0.0
  {
    match ProjectById(ps, e.projectId)
    case None =>
    case Some(p) =>
      assert p in ps;
  }

  /** With non-negative hourly rates the generated total is not negative. */
  lemma GeneratedTotalNonNegative(db: Db, u: UserId, clientId: int, projectId: Option<int>,
                                  startDate: Ticks, endDate: Ticks)
    requires Valid(db)
    ensures var r := GenerateFromTimeEntries(db, u, clientId, projectId, startDate, endDate);
            r.Generated? ==> r.totalAmount >= 0.0
  {
    var ps := db.projects;
    assert forall m :: 0 <= m < |ps| ==> ps[m].hourlyRate >= 0.0 by {
      forall m | 0 <= m < |ps| ensures ps[m].hourlyRate >= 0.0 {
        assert ProjectAnnotationsValid(ps[m]);
      }
    }
    var r := GenerateFromTimeEntries(db, u, clientId, projectId, startDate, endDate);
    if r.Generated? {
      forall i | 0 <= i < |r.timeEntries| ensures EntryAmount(ps)(r.timeEntries[i]) >= 0.0 {
        EntryAmountNonNegative(ps, r.timeEntries[i]);
      }
      SumNonNegative(r.timeEntries, EntryAmount(ps));
    }
  }

  // ---------------------------------------------------------------------
  // Invoices/GenerateNextInvoiceNumber for one user
  // ---------------------------------------------------------------------

  function NextInvoiceNumberFor(vs: seq<Invoice>, u: UserId, year: nat): (r: string)
    ensures StartsWith(r, InvoiceNumbering.Prefix(year))
    ensures (forall i :: 0 <= i < |vs| && vs[i].userId == u ==>
               !StartsWith(vs[i].invoiceNumber, InvoiceNumbering.Prefix(year)))
            ==> r == InvoiceNumbering.Prefix(year) + "001"
  {
    var own := Where(vs, InvoiceOf(u));
    var numbers := Select(own, InvoiceNumberOf);
    assert forall j :: 0 <= j < |numbers| ==>
             exists m :: 0 <= m < |vs| && vs[m].userId == u && vs[m].invoiceNumber == numbers[j] by {
      forall j | 0 <= j < |numbers|
        ensures exists m :: 0 <= m < |vs| && vs[m].userId == u && vs[m].invoiceNumber == numbers[j]
      {
        WhereElement(vs, InvoiceOf(u), j);
        var m :| 0 <= m < |vs| && vs[m] == own[j] && InvoiceOf(u)(vs[m]);
        assert numbers[j] == own[j].invoiceNumber;
      }
    }
    InvoiceNumbering.GenerateNextInvoiceNumber(year, numbers)
  }

  /** The next number depends only on the caller's own invoices. */
  lemma NextNumberOwnRowsOnly(vs: seq<Invoice>, u: UserId, year: nat)
    ensures NextInvoiceNumberFor(Where(vs, InvoiceOf(u)), u, year) == NextInvoiceNumberFor(vs, u, year)
  {
    WhereWhere(vs, InvoiceOf(u), InvoiceOf(u), InvoiceOf(u));
  }

  /** Invoices of other users cannot change the number offered to the caller. */
  lemma NextNumberNonInterference(db1: Db, db2: Db, u: UserId, year: nat)
    requires OwnView(db1, u) == OwnView(db2, u)
    ensures NextInvoiceNumberFor(db1.invoices, u, year) == NextInvoiceNumberFor(db2.invoices, u, year)
  {
    NextNumberOwnRowsOnly(db1.invoices, u, year);
    NextNumberOwnRowsOnly(db2.invoices, u, year);
  }
}
