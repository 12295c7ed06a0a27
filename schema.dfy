/**
 * The database as `ApplicationDbContext.OnModelCreating` configures it:
 * four tables with identity keys, the per-user unique indexes on client
 * name, project title and invoice number, the required foreign keys with
 * `Restrict` delete behaviour, and the `Cascade` from a user to all of the
 * user's rows. The table invariants are predicates on a `Db` value; the
 * store in `Controllers` keeps them.
 */
module Schema {
  import opened Wrappers
  import opened Linq
  import opened Entities

  datatype Db = Db(
    clients: seq<Client>,
    projects: seq<Project>,
    timeEntries: seq<TimeEntry>,
    invoices: seq<Invoice>)

  // ---------------------------------------------------------------------
  // Row selectors, as the lambdas the controllers pass to EF
  // ---------------------------------------------------------------------

  /** `c => c.Id == id && c.UserId == userId` */
  function ClientOwned(id: int, u: UserId): Client -> bool {
    (c: Client) => c.id == id && c.userId == u
  }

  /** `c => c.Id == id && c.UserId == userId && c.IsActive` */
  function ClientSelectable(id: int, u: UserId): Client -> bool {
    (c: Client) => c.id == id && c.userId == u && c.isActive
  }

  function ProjectOwned(id: int, u: UserId): Project -> bool {
    (p: Project) => p.id == id && p.userId == u
  }

  function TimeEntryOwned(id: int, u: UserId): TimeEntry -> bool {
    (e: TimeEntry) => e.id == id && e.userId == u
  }

  function InvoiceOwned(id: int, u: UserId): Invoice -> bool {
    (i: Invoice) => i.id == id && i.userId == u
  }

  function ClientWithId(id: int): Client -> bool { (c: Client) => c.id == id }
  function ProjectWithId(id: int): Project -> bool { (p: Project) => p.id == id }
  function TimeEntryWithId(id: int): TimeEntry -> bool { (e: TimeEntry) => e.id == id }
  function InvoiceWithId(id: int): Invoice -> bool { (i: Invoice) => i.id == id }

  /** `p => p.ClientId == id` and `i => i.ClientId == id` */
  function ProjectOfClient(id: int): Project -> bool { (p: Project) => p.clientId == id }
  function InvoiceOfClient(id: int): Invoice -> bool { (i: Invoice) => i.clientId == id }
  /** `te => te.ProjectId == id` */
  function TimeEntryOfProject(id: int): TimeEntry -> bool { (e: TimeEntry) => e.projectId == id }

  /** The row with a given key, following a navigation property. */
  function ProjectById(ps: seq<Project>, id: int): (r: Option<Project>)
    ensures r.Some? ==> r.value in ps && r.value.id == id
    ensures r.None? <==> forall k :: 0 <= k < |ps| ==> ps[k].id != id
  {
    match FirstIndex(ps, ProjectWithId(id))
    case None => None
    case Some(k) => Some(ps[k])
  }

  /** Removing the row at index `k`. */
  function RemoveAt<T>(s: seq<T>, k: nat): (r: seq<T>)
    requires k < |s|
    ensures |r| == |s| - 1
    ensures forall i :: 0 <= i < k ==> r[i] == s[i]
    ensures forall i :: k <= i < |r| ==> r[i] == s[i + 1]
  {
    s[..k] + s[k + 1..]
  }

  // ---------------------------------------------------------------------
  // Keys and unique indexes
  // ---------------------------------------------------------------------

  predicate ClientKeysUnique(cs: seq<Client>) {
    forall i, j :: 0 <= i < j < |cs| ==> cs[i].id != cs[j].id
  }

  predicate ProjectKeysUnique(ps: seq<Project>) {
    forall i, j :: 0 <= i < j < |ps| ==> ps[i].id != ps[j].id
  }

  predicate TimeEntryKeysUnique(es: seq<TimeEntry>) {
    forall i, j :: 0 <= i < j < |es| ==> es[i].id != es[j].id
  }

  predicate InvoiceKeysUnique(vs: seq<Invoice>) {
    forall i, j :: 0 <= i < j < |vs| ==> vs[i].id != vs[j].id
  }

  /** `HasIndex(e => new { e.UserId, e.Name }).IsUnique()` */
  predicate ClientNamesUnique(cs: seq<Client>) {
    forall i, j :: 0 <= i < j < |cs| && cs[i].userId == cs[j].userId ==> cs[i].name != cs[j].name
  }

  /** `HasIndex(e => new { e.UserId, e.Title }).IsUnique()` */
  predicate ProjectTitlesUnique(ps: seq<Project>) {
    forall i, j :: 0 <= i < j < |ps| && ps[i].userId == ps[j].userId ==> ps[i].title != ps[j].title
  }

  /** `HasIndex(e => new { e.UserId, e.InvoiceNumber }).IsUnique()` */
  predicate InvoiceNumbersUnique(vs: seq<Invoice>) {
    forall i, j :: 0 <= i < j < |vs| && vs[i].userId == vs[j].userId ==> vs[i].invoiceNumber != vs[j].invoiceNumber
  }

  /** A name is free for a user in the unique index. */
  predicate ClientNameFree(cs: seq<Client>, u: UserId, name: string) {
    forall k :: 0 <= k < |cs| ==> !(cs[k].userId == u && cs[k].name == name)
  }

  predicate ProjectTitleFree(ps: seq<Project>, u: UserId, title: string) {
    forall k :: 0 <= k < |ps| ==> !(ps[k].userId == u && ps[k].title == title)
  }

  predicate InvoiceNumberFree(vs: seq<Invoice>, u: UserId, number: string) {
    forall k :: 0 <= k < |vs| ==> !(vs[k].userId == u && vs[k].invoiceNumber == number)
  }

  /** The value stays free in the unique index when the row with key
      `id` is rewritten: no other row of the user holds it. */
  predicate ClientNameFreeExcept(cs: seq<Client>, u: UserId, name: string, id: int) {
    forall k :: 0 <= k < |cs| && cs[k].id != id ==> !(cs[k].userId == u && cs[k].name == name)
  }

  predicate ProjectTitleFreeExcept(ps: seq<Project>, u: UserId, title: string, id: int) {
    forall k :: 0 <= k < |ps| && ps[k].id != id ==> !(ps[k].userId == u && ps[k].title == title)
  }

  predicate InvoiceNumberFreeExcept(vs: seq<Invoice>, u: UserId, number: string, id: int) {
    forall k :: 0 <= k < |vs| && vs[k].id != id ==> !(vs[k].userId == u && vs[k].invoiceNumber == number)
  }

  // ---------------------------------------------------------------------
  // Foreign keys
  // ---------------------------------------------------------------------

  predicate HasClient(cs: seq<Client>, id: int) {
    exists k :: 0 <= k < |cs| && cs[k].id == id
  }

  predicate HasProject(ps: seq<Project>, id: int) {
    exists k :: 0 <= k < |ps| && ps[k].id == id
  }

  predicate ProjectsReferenceClients(ps: seq<Project>, cs: seq<Client>) {
    forall i :: 0 <= i < |ps| ==> HasClient(cs, ps[i].clientId)
  }

  predicate TimeEntriesReferenceProjects(es: seq<TimeEntry>, ps: seq<Project>) {
    forall i :: 0 <= i < |es| ==> HasProject(ps, es[i].projectId)
  }

  predicate InvoicesReferenceClients(vs: seq<Invoice>, cs: seq<Client>) {
    forall i :: 0 <= i < |vs| ==> HasClient(cs, vs[i].clientId)
  }

  // ---------------------------------------------------------------------
  // Row rules the controllers establish before every write
  // ---------------------------------------------------------------------

  predicate RowsValid(db: Db) {
    (forall i :: 0 <= i < |db.clients| ==> ClientAnnotationsValid(db.clients[i]))
    && (forall i :: 0 <= i < |db.projects| ==> ProjectAnnotationsValid(db.projects[i]))
    && (forall i :: 0 <= i < |db.timeEntries| ==>
          StoredTimeEntryValid(db.timeEntries[i]))
    && (forall i :: 0 <= i < |db.invoices| ==> InvoiceAnnotationsValid(db.invoices[i]))
  }

  /** Everything the schema and the controllers' validation guarantee. */
  predicate Valid(db: Db) {
    ClientKeysUnique(db.clients) && ProjectKeysUnique(db.projects)
    && TimeEntryKeysUnique(db.timeEntries) && InvoiceKeysUnique(db.invoices)
    && ClientNamesUnique(db.clients) && ProjectTitlesUnique(db.projects)
    && InvoiceNumbersUnique(db.invoices)
    && ProjectsReferenceClients(db.projects, db.clients)
    && TimeEntriesReferenceProjects(db.timeEntries, db.projects)
    && InvoicesReferenceClients(db.invoices, db.clients)
    && RowsValid(db)
  }

  /** Every reference points at a row of the same user. The schema does
      not enforce this; the controllers' ownership checks are meant to. */
  predicate TenantConsistent(db: Db) {
    ProjectsStayInTenant(db.projects, db.clients)
    && TimeEntriesStayInTenant(db.timeEntries, db.projects)
    && InvoicesStayInTenant(db.invoices, db.clients)
  }

  predicate ProjectsStayInTenant(ps: seq<Project>, cs: seq<Client>) {
    forall i, k :: 0 <= i < |ps| && 0 <= k < |cs| && cs[k].id == ps[i].clientId ==> cs[k].userId == ps[i].userId
  }

  predicate TimeEntriesStayInTenant(es: seq<TimeEntry>, ps: seq<Project>) {
    forall i, k :: 0 <= i < |es| && 0 <= k < |ps| && ps[k].id == es[i].projectId ==> ps[k].userId == es[i].userId
  }

  predicate InvoicesStayInTenant(vs: seq<Invoice>, cs: seq<Client>) {
    forall i, k :: 0 <= i < |vs| && 0 <= k < |cs| && cs[k].id == vs[i].clientId ==> cs[k].userId == vs[i].userId
  }

  // ---------------------------------------------------------------------
  // Restrict: a referenced row cannot be removed
  // ---------------------------------------------------------------------

  /** Removing a client keeps every foreign key exactly when no project
      and no invoice references it. */
  lemma RemoveClientRestrict(db: Db, k: nat)
    requires Valid(db) && k < |db.clients|
    ensures var cs := RemoveAt(db.clients, k);
            (ProjectsReferenceClients(db.projects, cs) && InvoicesReferenceClients(db.invoices, cs))
            <==> (!Any(db.projects, ProjectOfClient(db.clients[k].id))
                  && !Any(db.invoices, InvoiceOfClient(db.clients[k].id)))
  {
    var cs := RemoveAt(db.clients, k);
    var id := db.clients[k].id;
    forall c | HasClient(db.clients, c) && c != id ensures HasClient(cs, c) {
      var m :| 0 <= m < |db.clients| && db.clients[m].id == c;
      if m < k { assert cs[m].id == c; } else { assert cs[m - 1].id == c; }
    }
    assert !HasClient(cs, id) by {
      forall m | 0 <= m < |cs| ensures cs[m].id != id {
        if m >= k { assert cs[m] == db.clients[m + 1]; }
      }
    }
    if Any(db.projects, ProjectOfClient(id)) {
      var i :| 0 <= i < |db.projects| && ProjectOfClient(id)(db.projects[i]);
      assert !HasClient(cs, db.projects[i].clientId);
    }
    if Any(db.invoices, InvoiceOfClient(id)) {
      var i :| 0 <= i < |db.invoices| && InvoiceOfClient(id)(db.invoices[i]);
      assert !HasClient(cs, db.invoices[i].clientId);
    }
  }

  /** Removing a project keeps every foreign key exactly when no time
      entry references it. */
  lemma RemoveProjectRestrict(db: Db, k: nat)
    requires Valid(db) && k < |db.projects|
    ensures TimeEntriesReferenceProjects(db.timeEntries, RemoveAt(db.projects, k))
            <==> !Any(db.timeEntries, TimeEntryOfProject(db.projects[k].id))
  {
    var ps := RemoveAt(db.projects, k);
    var id := db.projects[k].id;
    forall p | HasProject(db.projects, p) && p != id ensures HasProject(ps, p) {
      var m :| 0 <= m < |db.projects| && db.projects[m].id == p;
      if m < k { assert ps[m].id == p; } else { assert ps[m - 1].id == p; }
    }
    assert !HasProject(ps, id) by {
      forall m | 0 <= m < |ps| ensures ps[m].id != id {
        if m >= k { assert ps[m] == db.projects[m + 1]; }
      }
    }
    if Any(db.timeEntries, TimeEntryOfProject(id)) {
      var i :| 0 <= i < |db.timeEntries| && TimeEntryOfProject(id)(db.timeEntries[i]);
      assert !HasProject(ps, db.timeEntries[i].projectId);
    }
  }

  // ---------------------------------------------------------------------
  // Cascade: removing a user removes all of the user's rows
  // ---------------------------------------------------------------------

  function NotClientOf(u: UserId): Client -> bool { (c: Client) => c.userId != u }
  function NotProjectOf(u: UserId): Project -> bool { (p: Project) => p.userId != u }
  function NotTimeEntryOf(u: UserId): TimeEntry -> bool { (e: TimeEntry) => e.userId != u }
  function NotInvoiceOf(u: UserId): Invoice -> bool { (i: Invoice) => i.userId != u }

  function DeleteUser(db: Db, u: UserId): (r: Db)
    ensures forall i :: 0 <= i < |r.clients| ==> r.clients[i].userId != u
    ensures forall i :: 0 <= i < |r.projects| ==> r.projects[i].userId != u
    ensures forall i :: 0 <= i < |r.timeEntries| ==> r.timeEntries[i].userId != u
    ensures forall i :: 0 <= i < |r.invoices| ==> r.invoices[i].userId != u
    ensures forall i :: 0 <= i < |db.clients| && db.clients[i].userId != u ==> db.clients[i] in r.clients
    ensures forall i :: 0 <= i < |db.projects| && db.projects[i].userId != u ==> db.projects[i] in r.projects
    ensures forall i :: 0 <= i < |db.timeEntries| && db.timeEntries[i].userId != u ==> db.timeEntries[i] in r.timeEntries
    ensures forall i :: 0 <= i < |db.invoices| && db.invoices[i].userId != u ==> db.invoices[i] in r.invoices
    ensures multiset(r.clients) <= multiset(db.clients) && multiset(r.projects) <= multiset(db.projects)
    ensures multiset(r.timeEntries) <= multiset(db.timeEntries) && multiset(r.invoices) <= multiset(db.invoices)
  {
    Db(Where(db.clients, NotClientOf(u)), Where(db.projects, NotProjectOf(u)),
       Where(db.timeEntries, NotTimeEntryOf(u)), Where(db.invoices, NotInvoiceOf(u)))
  }

  function ClientRel(x: Client, y: Client): bool {
    x.id != y.id && (x.userId == y.userId ==> x.name != y.name)
  }

  function ProjectRel(x: Project, y: Project): bool {
    x.id != y.id && (x.userId == y.userId ==> x.title != y.title)
  }

  function TimeEntryRel(x: TimeEntry, y: TimeEntry): bool {
    x.id != y.id
  }

  function InvoiceRel(x: Invoice, y: Invoice): bool {
    x.id != y.id && (x.userId == y.userId ==> x.invoiceNumber != y.invoiceNumber)
  }

  /** Removing a user whose references all stay inside the user's own rows
      leaves a database that satisfies every constraint, and keeps the
      references of all remaining rows inside their owners' rows. */
  lemma DeleteUserKeepsValid(db: Db, u: UserId)
    requires Valid(db) && TenantConsistent(db)
    ensures Valid(DeleteUser(db, u)) && TenantConsistent(DeleteUser(db, u))
  {
    WherePairs(db.clients, NotClientOf(u), ClientRel);
    WherePairs(db.projects, NotProjectOf(u), ProjectRel);
    WherePairs(db.timeEntries, NotTimeEntryOf(u), TimeEntryRel);
    WherePairs(db.invoices, NotInvoiceOf(u), InvoiceRel);
    DeleteUserKeepsReferences(db, u);
    DeleteUserKeepsRows(db, u);
    DeleteUserKeepsTenants(db, u);
  }

  lemma DeleteUserKeepsReferences(db: Db, u: UserId)
    requires Valid(db) && TenantConsistent(db)
    ensures var r := DeleteUser(db, u);
            ProjectsReferenceClients(r.projects, r.clients)
            && TimeEntriesReferenceProjects(r.timeEntries, r.projects)
            && InvoicesReferenceClients(r.invoices, r.clients)
  {
    FilteredProjectsReferenceClients(db.projects, db.clients, u);
    FilteredTimeEntriesReferenceProjects(db.timeEntries, db.projects, u);
    FilteredInvoicesReferenceClients(db.invoices, db.clients, u);
  }

  lemma FilteredProjectsReferenceClients(ps: seq<Project>, cs: seq<Client>, u: UserId)
    requires ProjectsReferenceClients(ps, cs) && ProjectsStayInTenant(ps, cs)
    ensures ProjectsReferenceClients(Where(ps, NotProjectOf(u)), Where(cs, NotClientOf(u)))
  {
    var rp, rc := Where(ps, NotProjectOf(u)), Where(cs, NotClientOf(u));
    forall i | 0 <= i < |rp| ensures HasClient(rc, rp[i].clientId) {
      WhereElement(ps, NotProjectOf(u), i);
      var a :| 0 <= a < |ps| && ps[a] == rp[i];
      var k :| 0 <= k < |cs| && cs[k].id == ps[a].clientId;
      assert NotClientOf(u)(cs[k]);
      var m :| 0 <= m < |rc| && rc[m] == cs[k];
    }
  }

  lemma FilteredTimeEntriesReferenceProjects(es: seq<TimeEntry>, ps: seq<Project>, u: UserId)
    requires TimeEntriesReferenceProjects(es, ps) && TimeEntriesStayInTenant(es, ps)
    ensures TimeEntriesReferenceProjects(Where(es, NotTimeEntryOf(u)), Where(ps, NotProjectOf(u)))
  {
    var re, rp := Where(es, NotTimeEntryOf(u)), Where(ps, NotProjectOf(u));
    forall i | 0 <= i < |re| ensures HasProject(rp, re[i].projectId) {
      WhereElement(es, NotTimeEntryOf(u), i);
      var a :| 0 <= a < |es| && es[a] == re[i];
      var k :| 0 <= k < |ps| && ps[k].id == es[a].projectId;
      assert NotProjectOf(u)(ps[k]);
      var m :| 0 <= m < |rp| && rp[m] == ps[k];
    }
  }

  lemma FilteredInvoicesReferenceClients(vs: seq<Invoice>, cs: seq<Client>, u: UserId)
    requires InvoicesReferenceClients(vs, cs) && InvoicesStayInTenant(vs, cs)
    ensures InvoicesReferenceClients(Where(vs, NotInvoiceOf(u)), Where(cs, NotClientOf(u)))
  {
    var rv, rc := Where(vs, NotInvoiceOf(u)), Where(cs, NotClientOf(u));
    forall i | 0 <= i < |rv| ensures HasClient(rc, rv[i].clientId) {
      WhereElement(vs, NotInvoiceOf(u), i);
      var a :| 0 <= a < |vs| && vs[a] == rv[i];
      var k :| 0 <= k < |cs| && cs[k].id == vs[a].clientId;
      assert NotClientOf(u)(cs[k]);
      var m :| 0 <= m < |rc| && rc[m] == cs[k];
    }
  }

  lemma DeleteUserKeepsRows(db: Db, u: UserId)
    requires RowsValid(db)
    ensures RowsValid(DeleteUser(db, u))
  {
    WhereKeeps(db.clients, NotClientOf(u), ClientAnnotationsValid);
    WhereKeeps(db.projects, NotProjectOf(u), ProjectAnnotationsValid);
    WhereKeeps(db.timeEntries, NotTimeEntryOf(u), StoredTimeEntryValid);
    WhereKeeps(db.invoices, NotInvoiceOf(u), InvoiceAnnotationsValid);
  }

  predicate StoredTimeEntryValid(e: TimeEntry) {
    TimeEntryAnnotationsValid(e) && e.endTime > e.startTime
  }

  lemma DeleteUserKeepsTenants(db: Db, u: UserId)
    requires TenantConsistent(db)
    ensures TenantConsistent(DeleteUser(db, u))
  {
    FilteredProjectsStayInTenant(db.projects, db.clients, u);
    FilteredTimeEntriesStayInTenant(db.timeEntries, db.projects, u);
    FilteredInvoicesStayInTenant(db.invoices, db.clients, u);
  }

  lemma FilteredProjectsStayInTenant(ps: seq<Project>, cs: seq<Client>, u: UserId)
    requires ProjectsStayInTenant(ps, cs)
    ensures ProjectsStayInTenant(Where(ps, NotProjectOf(u)), Where(cs, NotClientOf(u)))
  {
    var rp, rc := Where(ps, NotProjectOf(u)), Where(cs, NotClientOf(u));
    forall i, k | 0 <= i < |rp| && 0 <= k < |rc| && rc[k].id == rp[i].clientId
      ensures rc[k].userId == rp[i].userId
    {
      WhereElement(ps, NotProjectOf(u), i);
      WhereElement(cs, NotClientOf(u), k);
    }
  }

  lemma FilteredTimeEntriesStayInTenant(es: seq<TimeEntry>, ps: seq<Project>, u: UserId)
    requires TimeEntriesStayInTenant(es, ps)
    ensures TimeEntriesStayInTenant(Where(es, NotTimeEntryOf(u)), Where(ps, NotProjectOf(u)))
  {
    var re, rp := Where(es, NotTimeEntryOf(u)), Where(ps, NotProjectOf(u));
    forall i, k | 0 <= i < |re| && 0 <= k < |rp| && rp[k].id == re[i].projectId
      ensures rp[k].userId == re[i].userId
    {
      WhereElement(es, NotTimeEntryOf(u), i);
      WhereElement(ps, NotProjectOf(u), k);
    }
  }

  lemma FilteredInvoicesStayInTenant(vs: seq<Invoice>, cs: seq<Client>, u: UserId)
    requires InvoicesStayInTenant(vs, cs)
    ensures InvoicesStayInTenant(Where(vs, NotInvoiceOf(u)), Where(cs, NotClientOf(u)))
  {
    var rv, rc := Where(vs, NotInvoiceOf(u)), Where(cs, NotClientOf(u));
    forall i, k | 0 <= i < |rv| && 0 <= k < |rc| && rc[k].id == rv[i].clientId
      ensures rc[k].userId == rv[i].userId
    {
      WhereElement(vs, NotInvoiceOf(u), i);
      WhereElement(cs, NotClientOf(u), k);
    }
  }
}
