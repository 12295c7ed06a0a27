/**
 * What each single-row write needs for the database constraints of
 * `Schema` to survive it: an insert with a fresh key and a free unique
 * value, an update that keeps the key, a removal of an unreferenced row.
 * Each lemma also says when the write keeps every reference inside its
 * owner's rows.
 */
module Integrity {
  import opened Wrappers
  import opened Linq
  import opened Entities
  import opened Schema

  predicate FreshClientId(cs: seq<Client>, id: int) {
    forall k :: 0 <= k < |cs| ==> cs[k].id != id
  }

  predicate FreshProjectId(ps: seq<Project>, id: int) {
    forall k :: 0 <= k < |ps| ==> ps[k].id != id
  }

  predicate FreshTimeEntryId(es: seq<TimeEntry>, id: int) {
    forall k :: 0 <= k < |es| ==> es[k].id != id
  }

  predicate FreshInvoiceId(vs: seq<Invoice>, id: int) {
    forall k :: 0 <= k < |vs| ==> vs[k].id != id
  }

  /** The client with key `id` belongs to user `u`. */
  predicate ClientBelongsTo(cs: seq<Client>, id: int, u: UserId) {
    forall k :: 0 <= k < |cs| && cs[k].id == id ==> cs[k].userId == u
  }

  predicate ProjectBelongsTo(ps: seq<Project>, id: int, u: UserId) {
    forall k :: 0 <= k < |ps| && ps[k].id == id ==> ps[k].userId == u
  }

  /** With unique keys, the row found by key and owner settles the owner
      of every row with that key. */
  lemma OwnedClientBelongs(cs: seq<Client>, id: int, u: UserId)
    requires ClientKeysUnique(cs) && Any(cs, ClientSelectable(id, u))
    ensures HasClient(cs, id) && ClientBelongsTo(cs, id, u)
  {
    var k :| 0 <= k < |cs| && ClientSelectable(id, u)(cs[k]);
    assert cs[k].id == id;
  }

  lemma OwnedProjectBelongs(ps: seq<Project>, id: int, u: UserId)
    requires ProjectKeysUnique(ps) && Any(ps, ProjectOwned(id, u))
    ensures HasProject(ps, id) && ProjectBelongsTo(ps, id, u)
  {
    var k :| 0 <= k < |ps| && ProjectOwned(id, u)(ps[k]);
    assert ps[k].id == id;
  }

  // ---------------------------------------------------------------------
  // Pairwise constraints under a single-row write
  // ---------------------------------------------------------------------

  /** Every element of `t` is an element of `s`. */
  ghost predicate ElementsFrom<T>(t: seq<T>, s: seq<T>) {
    forall i :: 0 <= i < |t| ==> t[i] in s
  }

  lemma ElementsFromSelf<T>(s: seq<T>)
    ensures ElementsFrom(s, s)
  {
    forall i | 0 <= i < |s| ensures s[i] in s {}
  }

  /** Removing an element keeps every pairwise relation among the rest. */
  lemma RemoveAtPairs<T>(s: seq<T>, k: nat, rel: (T, T) -> bool)
    requires k < |s|
    requires forall i, j :: 0 <= i < j < |s| ==> rel(s[i], s[j])
    ensures ElementsFrom(RemoveAt(s, k), s)
    ensures forall i, j :: 0 <= i < j < |RemoveAt(s, k)| ==> rel(RemoveAt(s, k)[i], RemoveAt(s, k)[j])
  {
    var r := RemoveAt(s, k);
    forall i | 0 <= i < |r| ensures r[i] in s {
      if i < k { assert r[i] == s[i]; } else { assert r[i] == s[i + 1]; }
    }
    forall i, j | 0 <= i < j < |r| ensures rel(r[i], r[j]) {
      var i0 := if i < k then i else i + 1;
      var j0 := if j < k then j else j + 1;
      assert r[i] == s[i0] && r[j] == s[j0];
    }
  }

  /** Appending an element related to every earlier one keeps a pairwise
      relation. */
  lemma AppendPairs<T>(s: seq<T>, x: T, rel: (T, T) -> bool)
    requires forall i, j :: 0 <= i < j < |s| ==> rel(s[i], s[j])
    requires forall i :: 0 <= i < |s| ==> rel(s[i], x)
    ensures forall i, j :: 0 <= i < j < |s + [x]| ==> rel((s + [x])[i], (s + [x])[j])
  {
    var r := s + [x];
    forall i, j | 0 <= i < j < |r| ensures rel(r[i], r[j]) {
      assert r[i] == s[i];
      if j < |s| { assert r[j] == s[j]; }
    }
  }

  /** Replacing an element by one related to every other one keeps a
      pairwise relation. */
  lemma UpdatePairs<T>(s: seq<T>, k: nat, x: T, r: seq<T>, rel: (T, T) -> bool)
    requires k < |s| && r == s[k := x]
    requires forall i, j :: 0 <= i < j < |s| ==> rel(s[i], s[j])
    requires forall i :: 0 <= i < k ==> rel(s[i], x)
    requires forall j :: k < j < |s| ==> rel(x, s[j])
    ensures forall i, j :: 0 <= i < j < |r| ==> rel(r[i], r[j])
  {
    forall i, j | 0 <= i < j < |r| ensures rel(r[i], r[j]) {
      if i != k && j != k { assert r[i] == s[i] && r[j] == s[j]; }
    }
  }

  // ---------------------------------------------------------------------
  // Foreign keys when the referenced table grows or is rewritten
  // ---------------------------------------------------------------------

  /** Every key of `cs` is a key of `cs2`. */
  ghost predicate ClientKeysIn(cs: seq<Client>, cs2: seq<Client>) {
    forall id :: HasClient(cs, id) ==> HasClient(cs2, id)
  }

  ghost predicate ProjectKeysIn(ps: seq<Project>, ps2: seq<Project>) {
    forall id :: HasProject(ps, id) ==> HasProject(ps2, id)
  }

  lemma AppendClientKeys(cs: seq<Client>, c: Client)
    ensures ClientKeysIn(cs, cs + [c])
  {
    forall id | HasClient(cs, id) ensures HasClient(cs + [c], id) {
      var k :| 0 <= k < |cs| && cs[k].id == id;
      assert (cs + [c])[k].id == id;
    }
  }

  lemma UpdateClientKeys(cs: seq<Client>, k: nat, c: Client)
    requires k < |cs| && c.id == cs[k].id
    ensures ClientKeysIn(cs, cs[k := c])
  {
    forall id | HasClient(cs, id) ensures HasClient(cs[k := c], id) {
      var m :| 0 <= m < |cs| && cs[m].id == id;
      assert cs[k := c][m].id == id;
    }
  }

  lemma AppendProjectKeys(ps: seq<Project>, p: Project)
    ensures ProjectKeysIn(ps, ps + [p])
  {
    forall id | HasProject(ps, id) ensures HasProject(ps + [p], id) {
      var k :| 0 <= k < |ps| && ps[k].id == id;
      assert (ps + [p])[k].id == id;
    }
  }

  lemma UpdateProjectKeys(ps: seq<Project>, k: nat, p: Project)
    requires k < |ps| && p.id == ps[k].id
    ensures ProjectKeysIn(ps, ps[k := p])
  {
    forall id | HasProject(ps, id) ensures HasProject(ps[k := p], id) {
      var m :| 0 <= m < |ps| && ps[m].id == id;
      assert ps[k := p][m].id == id;
    }
  }

  lemma ProjectsReferenceMore(ps: seq<Project>, cs: seq<Client>, cs2: seq<Client>)
    requires ProjectsReferenceClients(ps, cs) && ClientKeysIn(cs, cs2)
    ensures ProjectsReferenceClients(ps, cs2)
  {
    forall i | 0 <= i < |ps| ensures HasClient(cs2, ps[i].clientId) {
      assert HasClient(cs, ps[i].clientId);
    }
  }

  lemma InvoicesReferenceMore(vs: seq<Invoice>, cs: seq<Client>, cs2: seq<Client>)
    requires InvoicesReferenceClients(vs, cs) && ClientKeysIn(cs, cs2)
    ensures InvoicesReferenceClients(vs, cs2)
  {
    forall i | 0 <= i < |vs| ensures HasClient(cs2, vs[i].clientId) {
      assert HasClient(cs, vs[i].clientId);
    }
  }

  lemma TimeEntriesReferenceMore(es: seq<TimeEntry>, ps: seq<Project>, ps2: seq<Project>)
    requires TimeEntriesReferenceProjects(es, ps) && ProjectKeysIn(ps, ps2)
    ensures TimeEntriesReferenceProjects(es, ps2)
  {
    forall i | 0 <= i < |es| ensures HasProject(ps2, es[i].projectId) {
      assert HasProject(ps, es[i].projectId);
    }
  }

  // ---------------------------------------------------------------------
  // Tenants
  // ---------------------------------------------------------------------

  /** Tenant consistency holds between any rows taken from consistent
      tables. */
  lemma ProjectsStayFrom(ps2: seq<Project>, cs2: seq<Client>, ps: seq<Project>, cs: seq<Client>)
    requires ProjectsStayInTenant(ps, cs) && ElementsFrom(ps2, ps) && ElementsFrom(cs2, cs)
    ensures ProjectsStayInTenant(ps2, cs2)
  {
    forall i, k | 0 <= i < |ps2| && 0 <= k < |cs2| && cs2[k].id == ps2[i].clientId
      ensures cs2[k].userId == ps2[i].userId
    {
      assert ps2[i] in ps && cs2[k] in cs;
      var i0 :| 0 <= i0 < |ps| && ps[i0] == ps2[i];
      var k0 :| 0 <= k0 < |cs| && cs[k0] == cs2[k];
    }
  }

  lemma TimeEntriesStayFrom(es2: seq<TimeEntry>, ps2: seq<Project>, es: seq<TimeEntry>, ps: seq<Project>)
    requires TimeEntriesStayInTenant(es, ps) && ElementsFrom(es2, es) && ElementsFrom(ps2, ps)
    ensures TimeEntriesStayInTenant(es2, ps2)
  {
    forall i, k | 0 <= i < |es2| && 0 <= k < |ps2| && ps2[k].id == es2[i].projectId
      ensures ps2[k].userId == es2[i].userId
    {
      assert es2[i] in es && ps2[k] in ps;
      var i0 :| 0 <= i0 < |es| && es[i0] == es2[i];
      var k0 :| 0 <= k0 < |ps| && ps[k0] == ps2[k];
    }
  }

  lemma InvoicesStayFrom(vs2: seq<Invoice>, cs2: seq<Client>, vs: seq<Invoice>, cs: seq<Client>)
    requires InvoicesStayInTenant(vs, cs) && ElementsFrom(vs2, vs) && ElementsFrom(cs2, cs)
    ensures InvoicesStayInTenant(vs2, cs2)
  {
    forall i, k | 0 <= i < |vs2| && 0 <= k < |cs2| && cs2[k].id == vs2[i].clientId
      ensures cs2[k].userId == vs2[i].userId
    {
      assert vs2[i] in vs && cs2[k] in cs;
      var i0 :| 0 <= i0 < |vs| && vs[i0] == vs2[i];
      var k0 :| 0 <= k0 < |cs| && cs[k0] == cs2[k];
    }
  }

  /** A new client no row refers to yet keeps the referring rows in their
      tenants. */
  lemma ClientAppendStays(ps: seq<Project>, vs: seq<Invoice>, cs: seq<Client>, c: Client)
    requires ProjectsStayInTenant(ps, cs) && InvoicesStayInTenant(vs, cs)
    requires ProjectsReferenceClients(ps, cs) && InvoicesReferenceClients(vs, cs)
    requires FreshClientId(cs, c.id)
    ensures ProjectsStayInTenant(ps, cs + [c]) && InvoicesStayInTenant(vs, cs + [c])
  {
    var r := cs + [c];
    forall i, k | 0 <= i < |ps| && 0 <= k < |r| && r[k].id == ps[i].clientId
      ensures r[k].userId == ps[i].userId
    {
      assert HasClient(cs, ps[i].clientId);
      assert k < |cs|;
      assert r[k] == cs[k];
    }
    forall i, k | 0 <= i < |vs| && 0 <= k < |r| && r[k].id == vs[i].clientId
      ensures r[k].userId == vs[i].userId
    {
      assert HasClient(cs, vs[i].clientId);
      assert k < |cs|;
      assert r[k] == cs[k];
    }
  }

  /** A client row rewritten with its owner kept keeps the referring rows
      in their tenants. */
  lemma ClientUpdateStays(ps: seq<Project>, vs: seq<Invoice>, cs: seq<Client>, k: nat, c: Client)
    requires k < |cs| && c.id == cs[k].id && c.userId == cs[k].userId
    requires ProjectsStayInTenant(ps, cs) && InvoicesStayInTenant(vs, cs)
    ensures ProjectsStayInTenant(ps, cs[k := c]) && InvoicesStayInTenant(vs, cs[k := c])
  {
    var r := cs[k := c];
    forall i, m | 0 <= i < |ps| && 0 <= m < |r| && r[m].id == ps[i].clientId
      ensures r[m].userId == ps[i].userId
    {
      if m != k { assert r[m] == cs[m]; }
    }
    forall i, m | 0 <= i < |vs| && 0 <= m < |r| && r[m].id == vs[i].clientId
      ensures r[m].userId == vs[i].userId
    {
      if m != k { assert r[m] == cs[m]; }
    }
  }

  /** The same for projects and the time entries that refer to them. */
  lemma ProjectAppendStays(es: seq<TimeEntry>, ps: seq<Project>, p: Project)
    requires TimeEntriesStayInTenant(es, ps) && TimeEntriesReferenceProjects(es, ps)
    requires FreshProjectId(ps, p.id)
    ensures TimeEntriesStayInTenant(es, ps + [p])
  {
    var r := ps + [p];
    forall i, k | 0 <= i < |es| && 0 <= k < |r| && r[k].id == es[i].projectId
      ensures r[k].userId == es[i].userId
    {
      assert HasProject(ps, es[i].projectId);
      assert k < |ps|;
      assert r[k] == ps[k];
    }
  }

  lemma ProjectUpdateStays(es: seq<TimeEntry>, ps: seq<Project>, k: nat, p: Project)
    requires k < |ps| && p.id == ps[k].id && p.userId == ps[k].userId
    requires TimeEntriesStayInTenant(es, ps)
    ensures TimeEntriesStayInTenant(es, ps[k := p])
  {
    var r := ps[k := p];
    forall i, m | 0 <= i < |es| && 0 <= m < |r| && r[m].id == es[i].projectId
      ensures r[m].userId == es[i].userId
    {
      if m != k { assert r[m] == ps[m]; }
    }
  }

  /** A property of every element survives replacing one element by an
      element that has it, or appending one. */
  lemma UpdateAll<T>(s: seq<T>, k: nat, x: T, r: seq<T>, q: T -> bool)
    requires k < |s| && r == s[k := x]
    requires forall i :: 0 <= i < |s| ==> q(s[i])
    requires q(x)
    ensures forall i :: 0 <= i < |r| ==> q(r[i])
    ensures ElementsFrom(r, s + [x])
  {
    forall i | 0 <= i < |r| ensures q(r[i]) && r[i] in s + [x] {
      if i != k { assert r[i] == s[i] == (s + [x])[i]; } else { assert r[i] == (s + [x])[|s|]; }
    }
  }

  lemma AppendAll<T>(s: seq<T>, x: T, r: seq<T>, q: T -> bool)
    requires r == s + [x]
    requires forall i :: 0 <= i < |s| ==> q(s[i])
    requires q(x)
    ensures forall i :: 0 <= i < |r| ==> q(r[i])
    ensures ElementsFrom(r, s + [x])
  {
    forall i | 0 <= i < |r| ensures q(r[i]) && r[i] in s + [x] {
      if i < |s| { assert r[i] == s[i]; }
    }
  }

  /** A referring row written with a reference to a row of its own user
      keeps its table in the tenants. */
  lemma ProjectWrittenStays(ps: seq<Project>, r: seq<Project>, cs: seq<Client>, p: Project)
    requires ProjectsStayInTenant(ps, cs) && ClientBelongsTo(cs, p.clientId, p.userId)
    requires ElementsFrom(r, ps + [p])
    ensures ProjectsStayInTenant(r, cs)
  {
    forall i, m | 0 <= i < |r| && 0 <= m < |cs| && cs[m].id == r[i].clientId
      ensures cs[m].userId == r[i].userId
    {
      if r[i] != p {
        assert r[i] in ps + [p];
        var i0 :| 0 <= i0 < |ps + [p]| && (ps + [p])[i0] == r[i];
        assert i0 < |ps| && ps[i0] == r[i];
      }
    }
  }

  lemma TimeEntryWrittenStays(es: seq<TimeEntry>, r: seq<TimeEntry>, ps: seq<Project>, e: TimeEntry)
    requires TimeEntriesStayInTenant(es, ps) && ProjectBelongsTo(ps, e.projectId, e.userId)
    requires ElementsFrom(r, es + [e])
    ensures TimeEntriesStayInTenant(r, ps)
  {
    forall i, m | 0 <= i < |r| && 0 <= m < |ps| && ps[m].id == r[i].projectId
      ensures ps[m].userId == r[i].userId
    {
      if r[i] != e {
        assert r[i] in es + [e];
        var i0 :| 0 <= i0 < |es + [e]| && (es + [e])[i0] == r[i];
        assert i0 < |es| && es[i0] == r[i];
      }
    }
  }

  lemma InvoiceWrittenStays(vs: seq<Invoice>, r: seq<Invoice>, cs: seq<Client>, v: Invoice)
    requires InvoicesStayInTenant(vs, cs) && ClientBelongsTo(cs, v.clientId, v.userId)
    requires ElementsFrom(r, vs + [v])
    ensures InvoicesStayInTenant(r, cs)
  {
    forall i, m | 0 <= i < |r| && 0 <= m < |cs| && cs[m].id == r[i].clientId
      ensures cs[m].userId == r[i].userId
    {
      if r[i] != v {
        assert r[i] in vs + [v];
        var i0 :| 0 <= i0 < |vs + [v]| && (vs + [v])[i0] == r[i];
        assert i0 < |vs| && vs[i0] == r[i];
      }
    }
  }

  // ---------------------------------------------------------------------
  // Clients
  // ---------------------------------------------------------------------

  lemma InsertClient(db: Db, c: Client)
    requires Valid(db)
    requires FreshClientId(db.clients, c.id)
    requires ClientNameFree(db.clients, c.userId, c.name)
    requires ClientAnnotationsValid(c)
    ensures Valid(db.(clients := db.clients + [c]))
    ensures TenantConsistent(db) ==> TenantConsistent(db.(clients := db.clients + [c]))
  {
    var cs := db.clients + [c];
    AppendPairs(db.clients, c, ClientRel);
    AppendClientKeys(db.clients, c);
    ProjectsReferenceMore(db.projects, db.clients, cs);
    InvoicesReferenceMore(db.invoices, db.clients, cs);
    assert forall i :: 0 <= i < |cs| ==> ClientAnnotationsValid(cs[i]);
    if TenantConsistent(db) {
      ClientAppendStays(db.projects, db.invoices, db.clients, c);
    }
  }

  /** Replacing a client row by one with the same key. */
  lemma UpdateClient(db: Db, k: nat, c: Client)
    requires Valid(db) && k < |db.clients|
    requires c.id == db.clients[k].id
    requires forall j :: 0 <= j < |db.clients| && j != k ==>
               !(db.clients[j].userId == c.userId && db.clients[j].name == c.name)
    requires ClientAnnotationsValid(c)
    ensures Valid(db.(clients := db.clients[k := c]))
    ensures TenantConsistent(db) && c.userId == db.clients[k].userId ==>
              TenantConsistent(db.(clients := db.clients[k := c]))
  {
    var cs := db.clients[k := c];
    UpdatePairs(db.clients, k, c, cs, ClientRel);
    UpdateClientKeys(db.clients, k, c);
    ProjectsReferenceMore(db.projects, db.clients, cs);
    InvoicesReferenceMore(db.invoices, db.clients, cs);
    assert forall i :: 0 <= i < |cs| ==> ClientAnnotationsValid(cs[i]);
    if TenantConsistent(db) && c.userId == db.clients[k].userId {
      ClientUpdateStays(db.projects, db.invoices, db.clients, k, c);
    }
  }

  lemma RemoveClient(db: Db, k: nat)
    requires Valid(db) && k < |db.clients|
    requires !Any(db.projects, ProjectOfClient(db.clients[k].id))
    requires !Any(db.invoices, InvoiceOfClient(db.clients[k].id))
    ensures Valid(db.(clients := RemoveAt(db.clients, k)))
    ensures TenantConsistent(db) ==> TenantConsistent(db.(clients := RemoveAt(db.clients, k)))
  {
    var cs := RemoveAt(db.clients, k);
    RemoveClientRestrict(db, k);
    RemoveAtPairs(db.clients, k, ClientRel);
    assert forall i :: 0 <= i < |cs| ==> ClientAnnotationsValid(cs[i]) by {
      forall i | 0 <= i < |cs| ensures ClientAnnotationsValid(cs[i]) {
        assert cs[i] in db.clients;
      }
    }
    if TenantConsistent(db) {
      ElementsFromSelf(db.projects);
      ElementsFromSelf(db.invoices);
      ProjectsStayFrom(db.projects, cs, db.projects, db.clients);
      InvoicesStayFrom(db.invoices, cs, db.invoices, db.clients);
    }
  }

  // ---------------------------------------------------------------------
  // Projects
  // ---------------------------------------------------------------------

  lemma InsertProject(db: Db, p: Project)
    requires Valid(db)
    requires FreshProjectId(db.projects, p.id)
    requires ProjectTitleFree(db.projects, p.userId, p.title)
    requires ProjectAnnotationsValid(p)
    requires HasClient(db.clients, p.clientId)
    ensures Valid(db.(projects := db.projects + [p]))
    ensures TenantConsistent(db) && ClientBelongsTo(db.clients, p.clientId, p.userId) ==>
              TenantConsistent(db.(projects := db.projects + [p]))
  {
    var ps := db.projects + [p];
    AppendPairs(db.projects, p, ProjectRel);
    AppendProjectKeys(db.projects, p);
    TimeEntriesReferenceMore(db.timeEntries, db.projects, ps);
    AppendAll(db.projects, p, ps, (x: Project) => HasClient(db.clients, x.clientId) && ProjectAnnotationsValid(x));
    if TenantConsistent(db) && ClientBelongsTo(db.clients, p.clientId, p.userId) {
      ProjectAppendStays(db.timeEntries, db.projects, p);
      ProjectWrittenStays(db.projects, ps, db.clients, p);
    }
  }

  lemma UpdateProject(db: Db, k: nat, p: Project)
    requires Valid(db) && k < |db.projects|
    requires p.id == db.projects[k].id
    requires forall j :: 0 <= j < |db.projects| && j != k ==>
               !(db.projects[j].userId == p.userId && db.projects[j].title == p.title)
    requires ProjectAnnotationsValid(p)
    requires HasClient(db.clients, p.clientId)
    ensures Valid(db.(projects := db.projects[k := p]))
    ensures TenantConsistent(db) && p.userId == db.projects[k].userId
            && ClientBelongsTo(db.clients, p.clientId, p.userId) ==>
              TenantConsistent(db.(projects := db.projects[k := p]))
  {
    var ps := db.projects[k := p];
    UpdatePairs(db.projects, k, p, ps, ProjectRel);
    UpdateProjectKeys(db.projects, k, p);
    TimeEntriesReferenceMore(db.timeEntries, db.projects, ps);
    UpdateAll(db.projects, k, p, ps, (x: Project) => HasClient(db.clients, x.clientId) && ProjectAnnotationsValid(x));
    if TenantConsistent(db) && p.userId == db.projects[k].userId
       && ClientBelongsTo(db.clients, p.clientId, p.userId) {
      ProjectUpdateStays(db.timeEntries, db.projects, k, p);
      ProjectWrittenStays(db.projects, ps, db.clients, p);
    }
  }

  lemma RemoveProject(db: Db, k: nat)
    requires Valid(db) && k < |db.projects|
    requires !Any(db.timeEntries, TimeEntryOfProject(db.projects[k].id))
    ensures Valid(db.(projects := RemoveAt(db.projects, k)))
    ensures TenantConsistent(db) ==> TenantConsistent(db.(projects := RemoveAt(db.projects, k)))
  {
    var ps := RemoveAt(db.projects, k);
    RemoveProjectRestrict(db, k);
    RemoveAtPairs(db.projects, k, ProjectRel);
    assert forall i :: 0 <= i < |ps| ==> HasClient(db.clients, ps[i].clientId) && ProjectAnnotationsValid(ps[i]) by {
      forall i | 0 <= i < |ps| ensures HasClient(db.clients, ps[i].clientId) && ProjectAnnotationsValid(ps[i]) {
        assert ps[i] in db.projects;
      }
    }
    if TenantConsistent(db) {
      ElementsFromSelf(db.clients);
      ElementsFromSelf(db.timeEntries);
      ProjectsStayFrom(ps, db.clients, db.projects, db.clients);
      TimeEntriesStayFrom(db.timeEntries, ps, db.timeEntries, db.projects);
    }
  }

  // ---------------------------------------------------------------------
  // Time entries
  // ---------------------------------------------------------------------

  lemma InsertTimeEntry(db: Db, e: TimeEntry)
    requires Valid(db)
    requires FreshTimeEntryId(db.timeEntries, e.id)
    requires StoredTimeEntryValid(e)
    requires HasProject(db.projects, e.projectId)
    ensures Valid(db.(timeEntries := db.timeEntries + [e]))
    ensures TenantConsistent(db) && ProjectBelongsTo(db.projects, e.projectId, e.userId) ==>
              TenantConsistent(db.(timeEntries := db.timeEntries + [e]))
  {
    var es := db.timeEntries + [e];
    AppendPairs(db.timeEntries, e, TimeEntryRel);
    AppendAll(db.timeEntries, e, es, (x: TimeEntry) => HasProject(db.projects, x.projectId) && StoredTimeEntryValid(x));
    if TenantConsistent(db) && ProjectBelongsTo(db.projects, e.projectId, e.userId) {
      TimeEntryWrittenStays(db.timeEntries, es, db.projects, e);
    }
  }

  lemma UpdateTimeEntry(db: Db, k: nat, e: TimeEntry)
    requires Valid(db) && k < |db.timeEntries|
    requires e.id == db.timeEntries[k].id
    requires StoredTimeEntryValid(e)
    requires HasProject(db.projects, e.projectId)
    ensures Valid(db.(timeEntries := db.timeEntries[k := e]))
    ensures TenantConsistent(db) && ProjectBelongsTo(db.projects, e.projectId, e.userId) ==>
              TenantConsistent(db.(timeEntries := db.timeEntries[k := e]))
  {
    var es := db.timeEntries[k := e];
    UpdatePairs(db.timeEntries, k, e, es, TimeEntryRel);
    UpdateAll(db.timeEntries, k, e, es, (x: TimeEntry) => HasProject(db.projects, x.projectId) && StoredTimeEntryValid(x));
    if TenantConsistent(db) && ProjectBelongsTo(db.projects, e.projectId, e.userId) {
      TimeEntryWrittenStays(db.timeEntries, es, db.projects, e);
    }
  }

  lemma RemoveTimeEntry(db: Db, k: nat)
    requires Valid(db) && k < |db.timeEntries|
    ensures Valid(db.(timeEntries := RemoveAt(db.timeEntries, k)))
    ensures TenantConsistent(db) ==> TenantConsistent(db.(timeEntries := RemoveAt(db.timeEntries, k)))
  {
    var es := RemoveAt(db.timeEntries, k);
    RemoveAtPairs(db.timeEntries, k, TimeEntryRel);
    assert forall i :: 0 <= i < |es| ==> HasProject(db.projects, es[i].projectId) && StoredTimeEntryValid(es[i]) by {
      forall i | 0 <= i < |es| ensures HasProject(db.projects, es[i].projectId) && StoredTimeEntryValid(es[i]) {
        assert es[i] in db.timeEntries;
      }
    }
    if TenantConsistent(db) {
      ElementsFromSelf(db.projects);
      TimeEntriesStayFrom(es, db.projects, db.timeEntries, db.projects);
    }
  }

  // ---------------------------------------------------------------------
  // Invoices
  // ---------------------------------------------------------------------

  lemma InsertInvoice(db: Db, v: Invoice)
    requires Valid(db)
    requires FreshInvoiceId(db.invoices, v.id)
    requires InvoiceNumberFree(db.invoices, v.userId, v.invoiceNumber)
    requires InvoiceAnnotationsValid(v)
    requires HasClient(db.clients, v.clientId)
    ensures Valid(db.(invoices := db.invoices + [v]))
    ensures TenantConsistent(db) && ClientBelongsTo(db.clients, v.clientId, v.userId) ==>
              TenantConsistent(db.(invoices := db.invoices + [v]))
  {
    var vs := db.invoices + [v];
    AppendPairs(db.invoices, v, InvoiceRel);
    AppendAll(db.invoices, v, vs, (x: Invoice) => HasClient(db.clients, x.clientId) && InvoiceAnnotationsValid(x));
    if TenantConsistent(db) && ClientBelongsTo(db.clients, v.clientId, v.userId) {
      InvoiceWrittenStays(db.invoices, vs, db.clients, v);
    }
  }

  lemma UpdateInvoice(db: Db, k: nat, v: Invoice)
    requires Valid(db) && k < |db.invoices|
    requires v.id == db.invoices[k].id
    requires forall j :: 0 <= j < |db.invoices| && j != k ==>
               !(db.invoices[j].userId == v.userId && db.invoices[j].invoiceNumber == v.invoiceNumber)
    requires InvoiceAnnotationsValid(v)
    requires HasClient(db.clients, v.clientId)
    ensures Valid(db.(invoices := db.invoices[k := v]))
    ensures TenantConsistent(db) && ClientBelongsTo(db.clients, v.clientId, v.userId) ==>
              TenantConsistent(db.(invoices := db.invoices[k := v]))
  {
    var vs := db.invoices[k := v];
    UpdatePairs(db.invoices, k, v, vs, InvoiceRel);
    UpdateAll(db.invoices, k, v, vs, (x: Invoice) => HasClient(db.clients, x.clientId) && InvoiceAnnotationsValid(x));
    if TenantConsistent(db) && ClientBelongsTo(db.clients, v.clientId, v.userId) {
      InvoiceWrittenStays(db.invoices, vs, db.clients, v);
    }
  }

  lemma RemoveInvoice(db: Db, k: nat)
    requires Valid(db) && k < |db.invoices|
    ensures Valid(db.(invoices := RemoveAt(db.invoices, k)))
    ensures TenantConsistent(db) ==> TenantConsistent(db.(invoices := RemoveAt(db.invoices, k)))
  {
    var vs := RemoveAt(db.invoices, k);
    RemoveAtPairs(db.invoices, k, InvoiceRel);
    assert forall i :: 0 <= i < |vs| ==> HasClient(db.clients, vs[i].clientId) && InvoiceAnnotationsValid(vs[i]) by {
      forall i | 0 <= i < |vs| ensures HasClient(db.clients, vs[i].clientId) && InvoiceAnnotationsValid(vs[i]) {
        assert vs[i] in db.invoices;
      }
    }
    if TenantConsistent(db) {
      ElementsFromSelf(db.clients);
      InvoicesStayFrom(vs, db.clients, db.invoices, db.clients);
    }
  }
}
