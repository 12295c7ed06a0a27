/**
 * The write actions of the four MVC controllers over one `Store`: the
 * tables of `ApplicationDbContext` as sequence fields, changed in place.
 *
 * Each action takes the signed-in user (`caller`) and the clock reading
 * (`now`) as parameters. Its answer is an `Outcome`; a redirect after a
 * successful write is `Ok`, a re-rendered form is `Invalid`, an exception
 * from `SaveChanges` (a unique index violation) is `DbError`.
 *
 * The Edit actions of clients, projects and time entries exist twice:
 * as written (`EditClient`, …), which checks only the `UserId` the form
 * posts and then lets `Update` overwrite whatever row has the posted key,
 * and with the row looked up by key and owner first (`EditClientOwned`,
 * …), as Invoices/Edit does. Only the second kind keeps tenants apart.
 */
module Controllers {
  import opened Wrappers
  import opened Text
  import opened Linq
  import opened Entities
  import opened Schema
  import opened Queries
  import opened Integrity

  /** Why a form is shown again. */
  datatype Reason =
    | AnnotationsFailed      // ModelState.IsValid is false
    | ClientRejected         // "Selected client is not valid."
    | ProjectRejected        // "Selected project is not valid."
    | EndNotAfterStart       // "End time must be after start time."

  datatype Outcome = Ok | NotFound | Forbidden | Invalid(reason: Reason) | DbError

  /** Clients/Delete can remove, deactivate or do nothing. */
  datatype DeleteOutcome = Removed | Deactivated | Blocked | Missing

  // ---------------------------------------------------------------------
  // Bound forms of the Create actions ([Bind] lists); a checkbox or a
  // select that is not posted keeps the entity's initialiser.
  // ---------------------------------------------------------------------

  datatype ClientForm = ClientForm(
    name: string, contactEmail: Option<string>, phoneNumber: Option<string>,
    address: Option<string>, notes: Option<string>, isActive: Option<bool>)

  datatype ProjectForm = ProjectForm(
    title: string, description: Option<string>, hourlyRate: real,
    status: Option<ProjectStatus>, startDate: Option<Ticks>, endDate: Option<Ticks>,
    clientId: int)

  datatype TimeEntryForm = TimeEntryForm(
    projectId: int, startTime: Ticks, endTime: Ticks, description: string,
    isBilled: Option<bool>)

  datatype InvoiceForm = InvoiceForm(
    clientId: int, invoiceDate: Option<Ticks>, dueDate: Option<Ticks>,
    totalAmount: real, notes: Option<string>, invoiceNumber: string)

  /** The rows Create inserts: the bound fields, the initialisers for the
      others, then the caller, the clock and the new key. */
  function NewClient(id: int, u: UserId, f: ClientForm, now: Ticks): Client {
    Client(id, u, f.name, f.contactEmail, f.phoneNumber, f.address, f.notes, now,
           f.isActive.GetOr(true))
  }

  function NewProject(id: int, u: UserId, f: ProjectForm, now: Ticks): Project {
    Project(id, u, f.title, f.description, f.hourlyRate, f.status.GetOr(Active),
            f.startDate, f.endDate, now, now, f.clientId)
  }

  function NewTimeEntry(id: int, u: UserId, f: TimeEntryForm, now: Ticks): TimeEntry {
    TimeEntry(id, u, f.startTime, f.endTime, f.description, f.isBilled.GetOr(false),
              now, now, f.projectId)
  }

  function NewInvoice(id: int, u: UserId, f: InvoiceForm, now: Ticks): Invoice {
    Invoice(id, u, f.invoiceDate.GetOr(now), f.totalAmount, false, None, f.notes,
            f.invoiceNumber, f.dueDate, now, now, f.clientId)
  }

  // ---------------------------------------------------------------------
  // The answers of the Create and Edit actions
  // ---------------------------------------------------------------------

  /** Clients/Create has no client-side uniqueness check: a taken name
      fails in the database. */
  function CreateClientOutcome(cs: seq<Client>, caller: UserId, f: ClientForm): Outcome {
    if !ClientAnnotationsValid(NewClient(0, caller, f, 0)) then Invalid(AnnotationsFailed)
    else if !ClientNameFree(cs, caller, f.name) then DbError
    else Ok
  }

  function CreateProjectOutcome(cs: seq<Client>, ps: seq<Project>, caller: UserId, f: ProjectForm): Outcome {
    if !ProjectAnnotationsValid(NewProject(0, caller, f, 0)) then Invalid(AnnotationsFailed)
    else if !Any(cs, ClientSelectable(f.clientId, caller)) then Invalid(ClientRejected)
    else if !ProjectTitleFree(ps, caller, f.title) then DbError
    else Ok
  }

  /** Time entries have no unique index; the project's status is not
      checked, only its owner. */
  function CreateTimeEntryOutcome(ps: seq<Project>, caller: UserId, f: TimeEntryForm): Outcome {
    if !TimeEntryAnnotationsValid(NewTimeEntry(0, caller, f, 0)) then Invalid(AnnotationsFailed)
    else if !Any(ps, ProjectOwned(f.projectId, caller)) then Invalid(ProjectRejected)
    else if f.endTime <= f.startTime then Invalid(EndNotAfterStart)
    else Ok
  }

  function CreateInvoiceOutcome(cs: seq<Client>, vs: seq<Invoice>, caller: UserId, f: InvoiceForm): Outcome {
    if !InvoiceAnnotationsValid(NewInvoice(0, caller, f, 0)) then Invalid(AnnotationsFailed)
    else if !Any(cs, ClientSelectable(f.clientId, caller)) then Invalid(ClientRejected)
    else if !InvoiceNumberFree(vs, caller, f.invoiceNumber) then DbError
    else Ok
  }

  /** Clients/Edit as written: an update that touches no row raises a
      concurrency exception, answered NotFound. */
  function EditClientOutcome(cs: seq<Client>, caller: UserId, routeId: int, body: Client): Outcome {
    if routeId != body.id then NotFound
    else if body.userId != caller then Forbidden
    else if !ClientAnnotationsValid(body) then Invalid(AnnotationsFailed)
    else if !Any(cs, ClientWithId(body.id)) then NotFound
    else if !ClientNameFreeExcept(cs, caller, body.name, body.id) then DbError
    else Ok
  }

  /** Clients/Edit with the row looked up by key and owner. */
  function EditClientOwnedOutcome(cs: seq<Client>, caller: UserId, routeId: int, body: Client): Outcome {
    if routeId != body.id then NotFound
    else if body.userId != caller then Forbidden
    else if !ClientAnnotationsValid(body) then Invalid(AnnotationsFailed)
    else if !Any(cs, ClientOwned(body.id, caller)) then NotFound
    else if !ClientNameFreeExcept(cs, caller, body.name, body.id) then DbError
    else Ok
  }

  function EditProjectOutcome(cs: seq<Client>, ps: seq<Project>, caller: UserId, routeId: int, body: Project): Outcome {
    if routeId != body.id then NotFound
    else if body.userId != caller then Forbidden
    else if !ProjectAnnotationsValid(body) then Invalid(AnnotationsFailed)
    else if !Any(cs, ClientSelectable(body.clientId, caller)) then Invalid(ClientRejected)
    else if !Any(ps, ProjectWithId(body.id)) then NotFound
    else if !ProjectTitleFreeExcept(ps, caller, body.title, body.id) then DbError
    else Ok
  }

  function EditProjectOwnedOutcome(cs: seq<Client>, ps: seq<Project>, caller: UserId, routeId: int, body: Project): Outcome {
    if routeId != body.id then NotFound
    else if body.userId != caller then Forbidden
    else if !ProjectAnnotationsValid(body) then Invalid(AnnotationsFailed)
    else if !Any(cs, ClientSelectable(body.clientId, caller)) then Invalid(ClientRejected)
    else if !Any(ps, ProjectOwned(body.id, caller)) then NotFound
    else if !ProjectTitleFreeExcept(ps, caller, body.title, body.id) then DbError
    else Ok
  }

  function EditTimeEntryOutcome(ps: seq<Project>, es: seq<TimeEntry>, caller: UserId, routeId: int, body: TimeEntry): Outcome {
    if routeId != body.id then NotFound
    else if body.userId != caller then Forbidden
    else if !TimeEntryAnnotationsValid(body) then Invalid(AnnotationsFailed)
    else if !Any(ps, ProjectOwned(body.projectId, caller)) then Invalid(ProjectRejected)
    else if body.endTime <= body.startTime then Invalid(EndNotAfterStart)
    else if !Any(es, TimeEntryWithId(body.id)) then NotFound
    else Ok
  }

  function EditTimeEntryOwnedOutcome(ps: seq<Project>, es: seq<TimeEntry>, caller: UserId, routeId: int, body: TimeEntry): Outcome {
    if routeId != body.id then NotFound
    else if body.userId != caller then Forbidden
    else if !TimeEntryAnnotationsValid(body) then Invalid(AnnotationsFailed)
    else if !Any(ps, ProjectOwned(body.projectId, caller)) then Invalid(ProjectRejected)
    else if body.endTime <= body.startTime then Invalid(EndNotAfterStart)
    else if !Any(es, TimeEntryOwned(body.id, caller)) then NotFound
    else Ok
  }

  /** Invoices/Edit fetches the caller's row before changing it. */
  function EditInvoiceOutcome(cs: seq<Client>, vs: seq<Invoice>, caller: UserId, routeId: int, body: Invoice): Outcome {
    if routeId != body.id then NotFound
    else if body.userId != caller then Forbidden
    else if !InvoiceAnnotationsValid(body) then Invalid(AnnotationsFailed)
    else if !Any(cs, ClientSelectable(body.clientId, caller)) then Invalid(ClientRejected)
    else if !Any(vs, InvoiceOwned(routeId, caller)) then NotFound
    else if !InvoiceNumberFreeExcept(vs, caller, body.invoiceNumber, routeId) then DbError
    else Ok
  }

  /** Looking the row up by key and owner changes the answer only for a
      key that belongs to another user. */
  lemma OwnedClientEditAgrees(cs: seq<Client>, caller: UserId, body: Client)
    requires forall k :: 0 <= k < |cs| && cs[k].id == body.id ==> cs[k].userId == caller
    ensures EditClientOwnedOutcome(cs, caller, body.id, body) == EditClientOutcome(cs, caller, body.id, body)
  {
    if Any(cs, ClientWithId(body.id)) {
      var k :| 0 <= k < |cs| && ClientWithId(body.id)(cs[k]);
      assert ClientOwned(body.id, caller)(cs[k]);
    }
  }

  lemma OwnedProjectEditAgrees(cs: seq<Client>, ps: seq<Project>, caller: UserId, body: Project)
    requires forall k :: 0 <= k < |ps| && ps[k].id == body.id ==> ps[k].userId == caller
    ensures EditProjectOwnedOutcome(cs, ps, caller, body.id, body) == EditProjectOutcome(cs, ps, caller, body.id, body)
  {
    if Any(ps, ProjectWithId(body.id)) {
      var k :| 0 <= k < |ps| && ProjectWithId(body.id)(ps[k]);
      assert ProjectOwned(body.id, caller)(ps[k]);
    }
  }

  lemma OwnedTimeEntryEditAgrees(ps: seq<Project>, es: seq<TimeEntry>, caller: UserId, body: TimeEntry)
    requires forall k :: 0 <= k < |es| && es[k].id == body.id ==> es[k].userId == caller
    ensures EditTimeEntryOwnedOutcome(ps, es, caller, body.id, body) == EditTimeEntryOutcome(ps, es, caller, body.id, body)
  {
    if Any(es, TimeEntryWithId(body.id)) {
      var k :| 0 <= k < |es| && TimeEntryWithId(body.id)(es[k]);
      assert TimeEntryOwned(body.id, caller)(es[k]);
    }
  }

  // ---------------------------------------------------------------------
  // Invoices/Edit: the IsPaid checkbox and the payment date
  // ---------------------------------------------------------------------

  predicate IsTrueValue(v: string) {
    |v| > 0 && EqualsIgnoreCase(v, "true")
  }

  /** `IsPaid` read straight from the posted form: absent means unpaid,
      otherwise any value equal to "true" ignoring case means paid. */
  function IsPaidFromForm(values: Option<seq<string>>): (paid: bool)
    ensures paid <==> values.Some? && exists i :: 0 <= i < |values.value| && EqualsIgnoreCase(values.value[i], "true")
  {
    match values
    case None => false
    case Some(vs) =>
      assert forall i :: 0 <= i < |vs| && EqualsIgnoreCase(vs[i], "true") ==> IsTrueValue(vs[i]) by {
        forall i | 0 <= i < |vs| && EqualsIgnoreCase(vs[i], "true") ensures |vs[i]| > 0 {
          assert |ToLower(vs[i])| == |ToLower("true")| == 4;
        }
      }
      |vs| > 0 && Any(vs, IsTrueValue)
  }

  /** A checked checkbox posts "true" and the hidden "false"; an unchecked
      one posts only "false". */
  lemma CheckboxPosts()
    ensures IsPaidFromForm(Some(["true", "false"]))
    ensures IsPaidFromForm(Some(["True"]))
    ensures !IsPaidFromForm(Some(["false"]))
    ensures !IsPaidFromForm(Some([]))
    ensures !IsPaidFromForm(None)
  {
    CheckedBoxPaid();
    UncheckedBoxUnpaid();
  }

  lemma CheckedBoxPaid()
    ensures IsPaidFromForm(Some(["true", "false"])) && IsPaidFromForm(Some(["True"]))
  {
    assert ToLower("true") == "true";
    assert ToLower("True") == "true";
    assert EqualsIgnoreCase(["true", "false"][0], "true");
    assert EqualsIgnoreCase(["True"][0], "true");
  }

  lemma UncheckedBoxUnpaid()
    ensures !IsPaidFromForm(Some(["false"])) && !IsPaidFromForm(Some([])) && !IsPaidFromForm(None)
  {
    var vs: seq<string> := ["false"];
    assert !EqualsIgnoreCase(vs[0], "true") by { assert |ToLower(vs[0])| == 5; }
  }

  /** The payment date an edit stores: a submitted date wins; a paid
      invoice without one gets today; an unpaid one without one gets none. */
  function PaymentDateOnEdit(isPaid: bool, submitted: Option<Ticks>, now: Ticks): (d: Option<Ticks>)
    ensures submitted.Some? ==> d == submitted
    ensures isPaid && submitted.None? ==> d == Some(now)
    ensures !isPaid && submitted.None? ==> d.None?
  {
    if isPaid && submitted.None? then Some(now)
    else if submitted.Some? then submitted
    else None
  }

  /** The row Invoices/Edit writes back: the existing row with the edited
      fields copied over; key, owner and creation date stay. */
  function EditedInvoice(existing: Invoice, body: Invoice, isPaid: bool, now: Ticks): (r: Invoice)
    ensures r.id == existing.id && r.userId == existing.userId && r.createdDate == existing.createdDate
    ensures r.clientId == body.clientId && r.invoiceDate == body.invoiceDate && r.dueDate == body.dueDate
    ensures r.totalAmount == body.totalAmount && r.notes == body.notes && r.invoiceNumber == body.invoiceNumber
    ensures r.lastModified == now && r.isPaid == isPaid
    ensures r.paymentDate == PaymentDateOnEdit(isPaid, body.paymentDate, now)
    ensures isPaid ==> r.paymentDate.Some?
    ensures InvoiceAnnotationsValid(body) ==> InvoiceAnnotationsValid(r)
  {
    existing.(clientId := body.clientId, invoiceDate := body.invoiceDate, dueDate := body.dueDate,
              totalAmount := body.totalAmount, notes := body.notes,
              invoiceNumber := body.invoiceNumber, lastModified := now,
              isPaid := isPaid, paymentDate := PaymentDateOnEdit(isPaid, body.paymentDate, now))
  }

  /** Invoices/TogglePaid on one row. */
  function TogglePaidRow(v: Invoice, now: Ticks): (r: Invoice)
    ensures r.isPaid == !v.isPaid && r.lastModified == now
    ensures r.paymentDate == if r.isPaid then Some(now) else None
    ensures r.id == v.id && r.userId == v.userId && r.clientId == v.clientId
    ensures r.invoiceNumber == v.invoiceNumber && r.totalAmount == v.totalAmount
    ensures r.invoiceDate == v.invoiceDate && r.dueDate == v.dueDate
    ensures r.notes == v.notes && r.createdDate == v.createdDate
  {
    var paid := !v.isPaid;
    v.(isPaid := paid, paymentDate := if paid then Some(now) else None, lastModified := now)
  }

  /** TimeEntries/ToggleBilled on one row. */
  function ToggleBilledRow(e: TimeEntry, now: Ticks): (r: TimeEntry)
    ensures r.isBilled == !e.isBilled && r.lastModified == now
    ensures r.id == e.id && r.userId == e.userId && r.projectId == e.projectId
    ensures r.startTime == e.startTime && r.endTime == e.endTime
    ensures r.description == e.description && r.createdDate == e.createdDate
    ensures DurationInHours(r) == DurationInHours(e)
  {
    e.(isBilled := !e.isBilled, lastModified := now)
  }

  /** Toggling twice restores the flags; only the timestamps move. */
  lemma {:induction false} ToggleTwice(v: Invoice, e: TimeEntry, t1: Ticks, t2: Ticks)
    ensures TogglePaidRow(TogglePaidRow(v, t1), t2).isPaid == v.isPaid
    ensures TogglePaidRow(TogglePaidRow(v, t1), t2) ==
            v.(paymentDate := if v.isPaid then Some(t2) else None, lastModified := t2)
    ensures ToggleBilledRow(ToggleBilledRow(e, t1), t2) == e.(lastModified := t2)
  {}

  /** ToggleBilled moves exactly the entry's duration into or out of the
      billed hours of any list holding it (`Project.TotalHours`). */
  lemma ToggleBilledHours(es: seq<TimeEntry>, k: nat, now: Ticks)
    requires k < |es|
    ensures var toggled := es[k := ToggleBilledRow(es[k], now)];
            if es[k].isBilled then TotalHours(toggled) == TotalHours(es) - DurationInHours(es[k])
            else TotalHours(toggled) == TotalHours(es) + DurationInHours(es[k])
  {
    var row := ToggleBilledRow(es[k], now);
    if es[k].isBilled {
      var toggled := es[k := row];
      assert toggled[k := es[k]] == es;
      MarkBilledAddsDuration(toggled, k, es[k]);
    } else {
      MarkBilledAddsDuration(es, k, row);
    }
  }

  // ---------------------------------------------------------------------
  // Edit as written lets one user take over another user's row
  // ---------------------------------------------------------------------

  const Alice: UserId := "a"
  const Bob: UserId := "b"

  /** Bob's client 1 with project 10 and a time entry 20 on it; Alice's
      client 2 with project 11. */
  function TwoTenants(): Db {
    Db([Client(1, Bob, "B", None, None, None, None, 0, true),
        Client(2, Alice, "A", None, None, None, None, 0, true)],
       [Project(10, Bob, "S", None, 50.0, Active, None, None, 0, 0, 1),
        Project(11, Alice, "P", None, 40.0, Active, None, None, 0, 0, 2)],
       [TimeEntry(20, Bob, 0, TicksPerHour, "W", false, 0, 0, 10)],
       [])
  }

  lemma TwoTenantsConsistent()
    ensures Valid(TwoTenants()) && TenantConsistent(TwoTenants())
  {
    TwoTenantsKeys();
    TwoTenantsReferences();
    TwoTenantsRows();
  }

  lemma TwoTenantsKeys()
    ensures var db := TwoTenants();
            ClientKeysUnique(db.clients) && ClientNamesUnique(db.clients)
            && ProjectKeysUnique(db.projects) && ProjectTitlesUnique(db.projects)
            && TimeEntryKeysUnique(db.timeEntries)
  {}

  lemma TwoTenantsReferences()
    ensures var db := TwoTenants();
            ProjectsReferenceClients(db.projects, db.clients)
            && TimeEntriesReferenceProjects(db.timeEntries, db.projects)
            && TenantConsistent(db)
  {
    var db := TwoTenants();
    var cs, ps, es := db.clients, db.projects, db.timeEntries;
    assert HasClient(cs, 1) by { assert cs[0].id == 1; }
    assert HasClient(cs, 2) by { assert cs[1].id == 2; }
    assert HasProject(ps, 10) by { assert ps[0].id == 10; }
    TwoTenantsApart();
  }

  lemma TwoTenantsApart()
    ensures TenantConsistent(TwoTenants())
  {
    var db := TwoTenants();
    assert ProjectsStayInTenant(db.projects, db.clients);
    assert TimeEntriesStayInTenant(db.timeEntries, db.projects);
  }

  lemma TwoTenantsRows()
    ensures RowsValid(TwoTenants())
  {
    var db := TwoTenants();
    var cs, ps, es := db.clients, db.projects, db.timeEntries;
    assert ClientAnnotationsValid(cs[0]) && ClientAnnotationsValid(cs[1]) by {
      assert !IsWhiteSpace("B"[0]) && !IsWhiteSpace("A"[0]);
    }
    assert ProjectAnnotationsValid(ps[0]) && ProjectAnnotationsValid(ps[1]) by {
      assert !IsWhiteSpace("S"[0]) && !IsWhiteSpace("P"[0]);
    }
    assert StoredTimeEntryValid(es[0]) by { assert !IsWhiteSpace("W"[0]); }
  }

  /** What Alice posts to take over Bob's client 1, project 10 and time
      entry 20. */
  function ClientTakeover(): Client { Client(1, Alice, "T", None, None, None, None, 0, true) }
  function ProjectTakeover(): Project { Project(10, Alice, "T", None, 0.0, Active, None, None, 0, 0, 2) }
  function TimeEntryTakeover(): TimeEntry { TimeEntry(20, Alice, 0, TicksPerHour, "T", true, 0, 0, 11) }

  /** Clients/Edit as written accepts Alice's post for Bob's client; with
      the owner in the lookup it is NotFound. */
  lemma EditClientAccepted()
    ensures var cs := TwoTenants().clients;
            && EditClientOutcome(cs, Alice, 1, ClientTakeover()) == Ok
            && FirstIndex(cs, ClientWithId(1)) == Some(0)
            && EditClientOwnedOutcome(cs, Alice, 1, ClientTakeover()) == NotFound
  {
    var cs := TwoTenants().clients;
    assert Required("T") by { assert !IsWhiteSpace("T"[0]); }
    assert ClientWithId(1)(cs[0]);
    assert !ClientOwned(1, Alice)(cs[0]) && !ClientOwned(1, Alice)(cs[1]);
  }

  /** After it, Bob has lost his client and his project refers to a client
      of Alice's. */
  lemma EditClientTakesForeignRow()
    ensures var db := TwoTenants();
            var after := db.(clients := db.clients[0 := ClientTakeover()]);
            && EditClientOutcome(db.clients, Alice, 1, ClientTakeover()) == Ok
            && FirstIndex(db.clients, ClientWithId(1)) == Some(0)
            && OwnView(db, Bob).clients != [] && OwnView(after, Bob).clients == []
            && !TenantConsistent(after)
  {
    EditClientAccepted();
    ClientTakeoverViews();
    var db := TwoTenants();
    var after := db.(clients := db.clients[0 := ClientTakeover()]);
    assert !ProjectsStayInTenant(after.projects, after.clients) by {
      assert after.clients[0].id == after.projects[0].clientId;
    }
  }

  lemma ClientTakeoverViews()
    ensures var db := TwoTenants();
            var after := db.(clients := db.clients[0 := ClientTakeover()]);
            OwnView(db, Bob).clients != [] && OwnView(after, Bob).clients == []
  {
    var cs := TwoTenants().clients;
    var taken := cs[0 := ClientTakeover()];
    assert cs[0] in Where(cs, ClientOf(Bob));
    assert !ClientOf(Bob)(taken[0]) && taken[1..] == [cs[1]];
    assert Where(taken[1..], ClientOf(Bob)) == [];
  }

  lemma EditProjectAccepted()
    ensures var db := TwoTenants();
            && EditProjectOutcome(db.clients, db.projects, Alice, 10, ProjectTakeover()) == Ok
            && FirstIndex(db.projects, ProjectWithId(10)) == Some(0)
            && EditProjectOwnedOutcome(db.clients, db.projects, Alice, 10, ProjectTakeover()) == NotFound
  {
    var db := TwoTenants();
    assert Required("T") by { assert !IsWhiteSpace("T"[0]); }
    assert ClientSelectable(2, Alice)(db.clients[1]);
    assert ProjectWithId(10)(db.projects[0]);
    assert "P" != "T" by { assert "P"[0] != "T"[0]; }
    assert !ProjectOwned(10, Alice)(db.projects[0]) && !ProjectOwned(10, Alice)(db.projects[1]);
  }

  /** After Projects/Edit as written, Bob has lost project 10 and his time
      entry hangs on a project of Alice's. */
  lemma EditProjectTakesForeignRow(now: Ticks)
    ensures var db := TwoTenants();
            var after := db.(projects := db.projects[0 := ProjectTakeover().(lastModified := now)]);
            && EditProjectOutcome(db.clients, db.projects, Alice, 10, ProjectTakeover()) == Ok
            && FirstIndex(db.projects, ProjectWithId(10)) == Some(0)
            && OwnView(db, Bob).projects != [] && OwnView(after, Bob).projects == []
            && !TenantConsistent(after)
  {
    EditProjectAccepted();
    ProjectTakeoverViews(now);
    var db := TwoTenants();
    var after := db.(projects := db.projects[0 := ProjectTakeover().(lastModified := now)]);
    assert !TimeEntriesStayInTenant(after.timeEntries, after.projects) by {
      assert after.projects[0].id == after.timeEntries[0].projectId;
    }
  }

  lemma ProjectTakeoverViews(now: Ticks)
    ensures var db := TwoTenants();
            var after := db.(projects := db.projects[0 := ProjectTakeover().(lastModified := now)]);
            OwnView(db, Bob).projects != [] && OwnView(after, Bob).projects == []
  {
    var ps := TwoTenants().projects;
    var taken := ps[0 := ProjectTakeover().(lastModified := now)];
    assert ps[0] in Where(ps, ProjectOf(Bob));
    assert !ProjectOf(Bob)(taken[0]) && taken[1..] == [ps[1]];
    assert Where(taken[1..], ProjectOf(Bob)) == [];
  }

  lemma EditTimeEntryAccepted()
    ensures var db := TwoTenants();
            && EditTimeEntryOutcome(db.projects, db.timeEntries, Alice, 20, TimeEntryTakeover()) == Ok
            && FirstIndex(db.timeEntries, TimeEntryWithId(20)) == Some(0)
            && EditTimeEntryOwnedOutcome(db.projects, db.timeEntries, Alice, 20, TimeEntryTakeover()) == NotFound
  {
    var db := TwoTenants();
    assert Required("T") by { assert !IsWhiteSpace("T"[0]); }
    assert ProjectOwned(11, Alice)(db.projects[1]);
    assert TimeEntryWithId(20)(db.timeEntries[0]);
    assert !TimeEntryOwned(20, Alice)(db.timeEntries[0]);
  }

  /** After TimeEntries/Edit as written, Bob's only time entry is Alice's. */
  lemma EditTimeEntryTakesForeignRow(now: Ticks)
    ensures var db := TwoTenants();
            var after := db.(timeEntries := db.timeEntries[0 := TimeEntryTakeover().(lastModified := now)]);
            && EditTimeEntryOutcome(db.projects, db.timeEntries, Alice, 20, TimeEntryTakeover()) == Ok
            && FirstIndex(db.timeEntries, TimeEntryWithId(20)) == Some(0)
            && OwnView(db, Bob).timeEntries != [] && OwnView(after, Bob).timeEntries == []
  {
    EditTimeEntryAccepted();
    BobOwnsEntry();
    TakeoverLeavesBobNoEntry(now);
  }

  lemma BobOwnsEntry()
    ensures OwnView(TwoTenants(), Bob).timeEntries != []
  {
    var es := TwoTenants().timeEntries;
    assert TimeEntryOf(Bob)(es[0]);
    assert es[0] in Where(es, TimeEntryOf(Bob));
  }

  lemma TakeoverLeavesBobNoEntry(now: Ticks)
    ensures var db := TwoTenants();
            OwnView(db.(timeEntries := db.timeEntries[0 := TimeEntryTakeover().(lastModified := now)]), Bob).timeEntries == []
  {
    var e := TimeEntryTakeover().(lastModified := now);
    var es := TwoTenants().timeEntries[0 := e];
    assert es == [e];
    assert !TimeEntryOf(Bob)(e);
    assert es[1..] == [];
    assert Where(es, TimeEntryOf(Bob)) == Where(es[1..], TimeEntryOf(Bob));
  }

  // ---------------------------------------------------------------------
  // The store
  // ---------------------------------------------------------------------

  /** Every key is below the next identity value. */
  predicate KeysBelow(db: Db, next: int) {
    (forall k :: 0 <= k < |db.clients| ==> db.clients[k].id < next)
    && (forall k :: 0 <= k < |db.projects| ==> db.projects[k].id < next)
    && (forall k :: 0 <= k < |db.timeEntries| ==> db.timeEntries[k].id < next)
    && (forall k :: 0 <= k < |db.invoices| ==> db.invoices[k].id < next)
  }

  // One row written: the database stays valid, keys stay below the next
  // identity value, tenants stay apart and other users' rows stay as they
  // were. The store's methods below each make one such write.

  lemma ClientAppendStep(db: Db, next: int, c: Client)
    requires Valid(db) && KeysBelow(db, next) && c.id == next
    requires ClientNameFree(db.clients, c.userId, c.name) && ClientAnnotationsValid(c)
    ensures var after := db.(clients := db.clients + [c]);
            && Valid(after) && KeysBelow(after, next + 1)
            && (TenantConsistent(db) ==> TenantConsistent(after))
            && forall v :: v != c.userId ==> OwnView(after, v) == OwnView(db, v)
  {
    InsertClient(db, c);
    AppendAll(db.clients, c, db.clients + [c], (x: Client) => x.id < next + 1);
    forall v | v != c.userId ensures Where(db.clients + [c], ClientOf(v)) == Where(db.clients, ClientOf(v)) {
      WhereAppendOutside(db.clients, c, ClientOf(v));
    }
  }

  lemma ClientUpdateStep(db: Db, next: int, k: nat, c: Client)
    requires Valid(db) && KeysBelow(db, next) && k < |db.clients|
    requires c.id == db.clients[k].id
    requires forall j :: 0 <= j < |db.clients| && j != k ==>
               !(db.clients[j].userId == c.userId && db.clients[j].name == c.name)
    requires ClientAnnotationsValid(c)
    ensures var after := db.(clients := db.clients[k := c]);
            && Valid(after) && KeysBelow(after, next)
            && (c.userId == db.clients[k].userId ==>
                  && (TenantConsistent(db) ==> TenantConsistent(after))
                  && forall v :: v != c.userId ==> OwnView(after, v) == OwnView(db, v))
  {
    UpdateClient(db, k, c);
    UpdateAll(db.clients, k, c, db.clients[k := c], (x: Client) => x.id < next);
    if c.userId == db.clients[k].userId {
      forall v | v != c.userId ensures Where(db.clients[k := c], ClientOf(v)) == Where(db.clients, ClientOf(v)) {
        WhereUpdateOutside(db.clients, k, c, ClientOf(v));
      }
    }
  }

  lemma ClientRemoveStep(db: Db, next: int, k: nat)
    requires Valid(db) && KeysBelow(db, next) && k < |db.clients|
    requires !Any(db.projects, ProjectOfClient(db.clients[k].id))
    requires !Any(db.invoices, InvoiceOfClient(db.clients[k].id))
    ensures var after := db.(clients := RemoveAt(db.clients, k));
            && Valid(after) && KeysBelow(after, next)
            && (TenantConsistent(db) ==> TenantConsistent(after))
            && forall v :: v != db.clients[k].userId ==> OwnView(after, v) == OwnView(db, v)
  {
    RemoveClient(db, k);
    forall v | v != db.clients[k].userId ensures Where(RemoveAt(db.clients, k), ClientOf(v)) == Where(db.clients, ClientOf(v)) {
      WhereRemoveOutside(db.clients, k, ClientOf(v));
    }
  }

  lemma ProjectAppendStep(db: Db, next: int, p: Project)
    requires Valid(db) && KeysBelow(db, next) && p.id == next
    requires ProjectTitleFree(db.projects, p.userId, p.title) && ProjectAnnotationsValid(p)
    requires Any(db.clients, ClientSelectable(p.clientId, p.userId))
    ensures var after := db.(projects := db.projects + [p]);
            && Valid(after) && KeysBelow(after, next + 1)
            && (TenantConsistent(db) ==> TenantConsistent(after))
            && forall v :: v != p.userId ==> OwnView(after, v) == OwnView(db, v)
  {
    OwnedClientBelongs(db.clients, p.clientId, p.userId);
    InsertProject(db, p);
    AppendAll(db.projects, p, db.projects + [p], (x: Project) => x.id < next + 1);
    forall v | v != p.userId ensures Where(db.projects + [p], ProjectOf(v)) == Where(db.projects, ProjectOf(v)) {
      WhereAppendOutside(db.projects, p, ProjectOf(v));
    }
  }

  lemma ProjectUpdateStep(db: Db, next: int, k: nat, p: Project)
    requires Valid(db) && KeysBelow(db, next) && k < |db.projects|
    requires p.id == db.projects[k].id
    requires forall j :: 0 <= j < |db.projects| && j != k ==>
               !(db.projects[j].userId == p.userId && db.projects[j].title == p.title)
    requires ProjectAnnotationsValid(p)
    requires Any(db.clients, ClientSelectable(p.clientId, p.userId))
    ensures var after := db.(projects := db.projects[k := p]);
            && Valid(after) && KeysBelow(after, next)
            && (p.userId == db.projects[k].userId ==>
                  && (TenantConsistent(db) ==> TenantConsistent(after))
                  && forall v :: v != p.userId ==> OwnView(after, v) == OwnView(db, v))
  {
    OwnedClientBelongs(db.clients, p.clientId, p.userId);
    UpdateProject(db, k, p);
    UpdateAll(db.projects, k, p, db.projects[k := p], (x: Project) => x.id < next);
    if p.userId == db.projects[k].userId {
      forall v | v != p.userId ensures Where(db.projects[k := p], ProjectOf(v)) == Where(db.projects, ProjectOf(v)) {
        WhereUpdateOutside(db.projects, k, p, ProjectOf(v));
      }
    }
  }

  lemma ProjectRemoveStep(db: Db, next: int, k: nat)
    requires Valid(db) && KeysBelow(db, next) && k < |db.projects|
    requires !Any(db.timeEntries, TimeEntryOfProject(db.projects[k].id))
    ensures var after := db.(projects := RemoveAt(db.projects, k));
            && Valid(after) && KeysBelow(after, next)
            && (TenantConsistent(db) ==> TenantConsistent(after))
            && forall v :: v != db.projects[k].userId ==> OwnView(after, v) == OwnView(db, v)
  {
    RemoveProject(db, k);
    forall v | v != db.projects[k].userId ensures Where(RemoveAt(db.projects, k), ProjectOf(v)) == Where(db.projects, ProjectOf(v)) {
      WhereRemoveOutside(db.projects, k, ProjectOf(v));
    }
  }

  lemma TimeEntryAppendStep(db: Db, next: int, e: TimeEntry)
    requires Valid(db) && KeysBelow(db, next) && e.id == next
    requires StoredTimeEntryValid(e)
    requires Any(db.projects, ProjectOwned(e.projectId, e.userId))
    ensures var after := db.(timeEntries := db.timeEntries + [e]);
            && Valid(after) && KeysBelow(after, next + 1)
            && (TenantConsistent(db) ==> TenantConsistent(after))
            && forall v :: v != e.userId ==> OwnView(after, v) == OwnView(db, v)
  {
    OwnedProjectBelongs(db.projects, e.projectId, e.userId);
    InsertTimeEntry(db, e);
    AppendAll(db.timeEntries, e, db.timeEntries + [e], (x: TimeEntry) => x.id < next + 1);
    forall v | v != e.userId ensures Where(db.timeEntries + [e], TimeEntryOf(v)) == Where(db.timeEntries, TimeEntryOf(v)) {
      WhereAppendOutside(db.timeEntries, e, TimeEntryOf(v));
    }
  }

  lemma TimeEntryUpdateStep(db: Db, next: int, k: nat, e: TimeEntry)
    requires Valid(db) && KeysBelow(db, next) && k < |db.timeEntries|
    requires e.id == db.timeEntries[k].id && StoredTimeEntryValid(e)
    requires HasProject(db.projects, e.projectId)
    ensures var after := db.(timeEntries := db.timeEntries[k := e]);
            && Valid(after) && KeysBelow(after, next)
            && (TenantConsistent(db) && ProjectBelongsTo(db.projects, e.projectId, e.userId) ==> TenantConsistent(after))
            && (e.userId == db.timeEntries[k].userId ==>
                  forall v :: v != e.userId ==> OwnView(after, v) == OwnView(db, v))
  {
    UpdateTimeEntry(db, k, e);
    UpdateAll(db.timeEntries, k, e, db.timeEntries[k := e], (x: TimeEntry) => x.id < next);
    if e.userId == db.timeEntries[k].userId {
      forall v | v != e.userId ensures Where(db.timeEntries[k := e], TimeEntryOf(v)) == Where(db.timeEntries, TimeEntryOf(v)) {
        WhereUpdateOutside(db.timeEntries, k, e, TimeEntryOf(v));
      }
    }
  }

  lemma TimeEntryRemoveStep(db: Db, next: int, k: nat)
    requires Valid(db) && KeysBelow(db, next) && k < |db.timeEntries|
    ensures var after := db.(timeEntries := RemoveAt(db.timeEntries, k));
            && Valid(after) && KeysBelow(after, next)
            && (TenantConsistent(db) ==> TenantConsistent(after))
            && forall v :: v != db.timeEntries[k].userId ==> OwnView(after, v) == OwnView(db, v)
  {
    RemoveTimeEntry(db, k);
    forall v | v != db.timeEntries[k].userId ensures Where(RemoveAt(db.timeEntries, k), TimeEntryOf(v)) == Where(db.timeEntries, TimeEntryOf(v)) {
      WhereRemoveOutside(db.timeEntries, k, TimeEntryOf(v));
    }
  }

  lemma InvoiceAppendStep(db: Db, next: int, v: Invoice)
    requires Valid(db) && KeysBelow(db, next) && v.id == next
    requires InvoiceNumberFree(db.invoices, v.userId, v.invoiceNumber) && InvoiceAnnotationsValid(v)
    requires Any(db.clients, ClientSelectable(v.clientId, v.userId))
    ensures var after := db.(invoices := db.invoices + [v]);
            && Valid(after) && KeysBelow(after, next + 1)
            && (TenantConsistent(db) ==> TenantConsistent(after))
            && forall u :: u != v.userId ==> OwnView(after, u) == OwnView(db, u)
  {
    OwnedClientBelongs(db.clients, v.clientId, v.userId);
    InsertInvoice(db, v);
    AppendAll(db.invoices, v, db.invoices + [v], (x: Invoice) => x.id < next + 1);
    forall u | u != v.userId ensures Where(db.invoices + [v], InvoiceOf(u)) == Where(db.invoices, InvoiceOf(u)) {
      WhereAppendOutside(db.invoices, v, InvoiceOf(u));
    }
  }

  lemma InvoiceUpdateStep(db: Db, next: int, k: nat, v: Invoice)
    requires Valid(db) && KeysBelow(db, next) && k < |db.invoices|
    requires v.id == db.invoices[k].id
    requires forall j :: 0 <= j < |db.invoices| && j != k ==>
               !(db.invoices[j].userId == v.userId && db.invoices[j].invoiceNumber == v.invoiceNumber)
    requires InvoiceAnnotationsValid(v)
    requires HasClient(db.clients, v.clientId)
    ensures var after := db.(invoices := db.invoices[k := v]);
            && Valid(after) && KeysBelow(after, next)
            && (TenantConsistent(db) && ClientBelongsTo(db.clients, v.clientId, v.userId) ==> TenantConsistent(after))
            && (v.userId == db.invoices[k].userId ==>
                  forall u :: u != v.userId ==> OwnView(after, u) == OwnView(db, u))
  {
    UpdateInvoice(db, k, v);
    UpdateAll(db.invoices, k, v, db.invoices[k := v], (x: Invoice) => x.id < next);
    if v.userId == db.invoices[k].userId {
      forall u | u != v.userId ensures Where(db.invoices[k := v], InvoiceOf(u)) == Where(db.invoices, InvoiceOf(u)) {
        WhereUpdateOutside(db.invoices, k, v, InvoiceOf(u));
      }
    }
  }

  lemma InvoiceRemoveStep(db: Db, next: int, k: nat)
    requires Valid(db) && KeysBelow(db, next) && k < |db.invoices|
    ensures var after := db.(invoices := RemoveAt(db.invoices, k));
            && Valid(after) && KeysBelow(after, next)
            && (TenantConsistent(db) ==> TenantConsistent(after))
            && forall u :: u != db.invoices[k].userId ==> OwnView(after, u) == OwnView(db, u)
  {
    RemoveInvoice(db, k);
    forall u | u != db.invoices[k].userId ensures Where(RemoveAt(db.invoices, k), InvoiceOf(u)) == Where(db.invoices, InvoiceOf(u)) {
      WhereRemoveOutside(db.invoices, k, InvoiceOf(u));
    }
  }

  class Store {
    var clients: seq<Client>
    var projects: seq<Project>
    var timeEntries: seq<TimeEntry>
    var invoices: seq<Invoice>
    /** The next identity value the database hands out. */
    var nextId: int

    function Snapshot(): Db
      reads this
    {
      Db(clients, projects, timeEntries, invoices)
    }

    predicate Valid()
      reads this
    {
      Schema.Valid(Snapshot()) && KeysBelow(Snapshot(), nextId)
    }

    constructor ()
      ensures Valid() && Snapshot() == Db([], [], [], [])
    {
      clients, projects, timeEntries, invoices := [], [], [], [];
      nextId := 1;
    }

    // -------------------------------------------------------------------
    // Single-row writes: `Add`, `Update` or `Remove` on one DbSet followed
    // by `SaveChangesAsync`, with the new identity value on an insert
    // -------------------------------------------------------------------

    method AddClientRow(c: Client)
      requires Valid() && c.id == nextId
      requires ClientNameFree(clients, c.userId, c.name) && ClientAnnotationsValid(c)
      modifies this
      ensures Valid()
      ensures clients == old(clients) + [c] && nextId == old(nextId) + 1
      ensures projects == old(projects) && timeEntries == old(timeEntries) && invoices == old(invoices)
      ensures TenantConsistent(old(Snapshot())) ==> TenantConsistent(Snapshot())
      ensures forall v :: v != c.userId ==> OwnView(Snapshot(), v) == OwnView(old(Snapshot()), v)
    {
      ClientAppendStep(Snapshot(), nextId, c);
      clients := clients + [c];
      nextId := nextId + 1;
    }

    method PutClientRow(k: nat, c: Client)
      requires Valid() && k < |clients| && c.id == clients[k].id
      requires forall j :: 0 <= j < |clients| && j != k ==>
                 !(clients[j].userId == c.userId && clients[j].name == c.name)
      requires ClientAnnotationsValid(c)
      modifies this
      ensures Valid()
      ensures clients == old(clients)[k := c] && nextId == old(nextId)
      ensures projects == old(projects) && timeEntries == old(timeEntries) && invoices == old(invoices)
      ensures c.userId == old(clients)[k].userId ==>
                && (TenantConsistent(old(Snapshot())) ==> TenantConsistent(Snapshot()))
                && forall v :: v != c.userId ==> OwnView(Snapshot(), v) == OwnView(old(Snapshot()), v)
    {
      ClientUpdateStep(Snapshot(), nextId, k, c);
      clients := clients[k := c];
    }

    method DropClientRow(k: nat)
      requires Valid() && k < |clients|
      requires !Any(projects, ProjectOfClient(clients[k].id))
      requires !Any(invoices, InvoiceOfClient(clients[k].id))
      modifies this
      ensures Valid()
      ensures clients == RemoveAt(old(clients), k) && nextId == old(nextId)
      ensures projects == old(projects) && timeEntries == old(timeEntries) && invoices == old(invoices)
      ensures TenantConsistent(old(Snapshot())) ==> TenantConsistent(Snapshot())
      ensures forall v :: v != old(clients)[k].userId ==> OwnView(Snapshot(), v) == OwnView(old(Snapshot()), v)
    {
      ClientRemoveStep(Snapshot(), nextId, k);
      clients := RemoveAt(clients, k);
    }

    method AddProjectRow(p: Project)
      requires Valid() && p.id == nextId
      requires ProjectTitleFree(projects, p.userId, p.title) && ProjectAnnotationsValid(p)
      requires Any(clients, ClientSelectable(p.clientId, p.userId))
      modifies this
      ensures Valid()
      ensures projects == old(projects) + [p] && nextId == old(nextId) + 1
      ensures clients == old(clients) && timeEntries == old(timeEntries) && invoices == old(invoices)
      ensures TenantConsistent(old(Snapshot())) ==> TenantConsistent(Snapshot())
      ensures forall v :: v != p.userId ==> OwnView(Snapshot(), v) == OwnView(old(Snapshot()), v)
    {
      ProjectAppendStep(Snapshot(), nextId, p);
      projects := projects + [p];
      nextId := nextId + 1;
    }

    method PutProjectRow(k: nat, p: Project)
      requires Valid() && k < |projects| && p.id == projects[k].id
      requires forall j :: 0 <= j < |projects| && j != k ==>
                 !(projects[j].userId == p.userId && projects[j].title == p.title)
      requires ProjectAnnotationsValid(p)
      requires Any(clients, ClientSelectable(p.clientId, p.userId))
      modifies this
      ensures Valid()
      ensures projects == old(projects)[k := p] && nextId == old(nextId)
      ensures clients == old(clients) && timeEntries == old(timeEntries) && invoices == old(invoices)
      ensures p.userId == old(projects)[k].userId ==>
                && (TenantConsistent(old(Snapshot())) ==> TenantConsistent(Snapshot()))
                && forall v :: v != p.userId ==> OwnView(Snapshot(), v) == OwnView(old(Snapshot()), v)
    {
      ProjectUpdateStep(Snapshot(), nextId, k, p);
      projects := projects[k := p];
    }

    method DropProjectRow(k: nat)
      requires Valid() && k < |projects|
      requires !Any(timeEntries, TimeEntryOfProject(projects[k].id))
      modifies this
      ensures Valid()
      ensures projects == RemoveAt(old(projects), k) && nextId == old(nextId)
      ensures clients == old(clients) && timeEntries == old(timeEntries) && invoices == old(invoices)
      ensures TenantConsistent(old(Snapshot())) ==> TenantConsistent(Snapshot())
      ensures forall v :: v != old(projects)[k].userId ==> OwnView(Snapshot(), v) == OwnView(old(Snapshot()), v)
    {
      ProjectRemoveStep(Snapshot(), nextId, k);
      projects := RemoveAt(projects, k);
    }

    method AddTimeEntryRow(e: TimeEntry)
      requires Valid() && e.id == nextId
      requires StoredTimeEntryValid(e)
      requires Any(projects, ProjectOwned(e.projectId, e.userId))
      modifies this
      ensures Valid()
      ensures timeEntries == old(timeEntries) + [e] && nextId == old(nextId) + 1
      ensures clients == old(clients) && projects == old(projects) && invoices == old(invoices)
      ensures TenantConsistent(old(Snapshot())) ==> TenantConsistent(Snapshot())
      ensures forall v :: v != e.userId ==> OwnView(Snapshot(), v) == OwnView(old(Snapshot()), v)
    {
      TimeEntryAppendStep(Snapshot(), nextId, e);
      timeEntries := timeEntries + [e];
      nextId := nextId + 1;
    }

    method PutTimeEntryRow(k: nat, e: TimeEntry)
      requires Valid() && k < |timeEntries| && e.id == timeEntries[k].id
      requires StoredTimeEntryValid(e) && HasProject(projects, e.projectId)
      modifies this
      ensures Valid()
      ensures timeEntries == old(timeEntries)[k := e] && nextId == old(nextId)
      ensures clients == old(clients) && projects == old(projects) && invoices == old(invoices)
      ensures TenantConsistent(old(Snapshot())) && old(ProjectBelongsTo(projects, e.projectId, e.userId)) ==> TenantConsistent(Snapshot())
      ensures e.userId == old(timeEntries)[k].userId ==>
                forall v :: v != e.userId ==> OwnView(Snapshot(), v) == OwnView(old(Snapshot()), v)
    {
      TimeEntryUpdateStep(Snapshot(), nextId, k, e);
      timeEntries := timeEntries[k := e];
    }

    method DropTimeEntryRow(k: nat)
      requires Valid() && k < |timeEntries|
      modifies this
      ensures Valid()
      ensures timeEntries == RemoveAt(old(timeEntries), k) && nextId == old(nextId)
      ensures clients == old(clients) && projects == old(projects) && invoices == old(invoices)
      ensures TenantConsistent(old(Snapshot())) ==> TenantConsistent(Snapshot())
      ensures forall v :: v != old(timeEntries)[k].userId ==> OwnView(Snapshot(), v) == OwnView(old(Snapshot()), v)
    {
      TimeEntryRemoveStep(Snapshot(), nextId, k);
      timeEntries := RemoveAt(timeEntries, k);
    }

    method AddInvoiceRow(v: Invoice)
      requires Valid() && v.id == nextId
      requires InvoiceNumberFree(invoices, v.userId, v.invoiceNumber) && InvoiceAnnotationsValid(v)
      requires Any(clients, ClientSelectable(v.clientId, v.userId))
      modifies this
      ensures Valid()
      ensures invoices == old(invoices) + [v] && nextId == old(nextId) + 1
      ensures clients == old(clients) && projects == old(projects) && timeEntries == old(timeEntries)
      ensures TenantConsistent(old(Snapshot())) ==> TenantConsistent(Snapshot())
      ensures forall u :: u != v.userId ==> OwnView(Snapshot(), u) == OwnView(old(Snapshot()), u)
    {
      InvoiceAppendStep(Snapshot(), nextId, v);
      invoices := invoices + [v];
      nextId := nextId + 1;
    }

    method PutInvoiceRow(k: nat, v: Invoice)
      requires Valid() && k < |invoices| && v.id == invoices[k].id
      requires forall j :: 0 <= j < |invoices| && j != k ==>
                 !(invoices[j].userId == v.userId && invoices[j].invoiceNumber == v.invoiceNumber)
      requires InvoiceAnnotationsValid(v) && HasClient(clients, v.clientId)
      modifies this
      ensures Valid()
      ensures invoices == old(invoices)[k := v] && nextId == old(nextId)
      ensures clients == old(clients) && projects == old(projects) && timeEntries == old(timeEntries)
      ensures TenantConsistent(old(Snapshot())) && old(ClientBelongsTo(clients, v.clientId, v.userId)) ==> TenantConsistent(Snapshot())
      ensures v.userId == old(invoices)[k].userId ==>
                forall u :: u != v.userId ==> OwnView(Snapshot(), u) == OwnView(old(Snapshot()), u)
    {
      InvoiceUpdateStep(Snapshot(), nextId, k, v);
      invoices := invoices[k := v];
    }

    method DropInvoiceRow(k: nat)
      requires Valid() && k < |invoices|
      modifies this
      ensures Valid()
      ensures invoices == RemoveAt(old(invoices), k) && nextId == old(nextId)
      ensures clients == old(clients) && projects == old(projects) && timeEntries == old(timeEntries)
      ensures TenantConsistent(old(Snapshot())) ==> TenantConsistent(Snapshot())
      ensures forall u :: u != old(invoices)[k].userId ==> OwnView(Snapshot(), u) == OwnView(old(Snapshot()), u)
    {
      InvoiceRemoveStep(Snapshot(), nextId, k);
      invoices := RemoveAt(invoices, k);
    }

    // -------------------------------------------------------------------
    // Clients
    // -------------------------------------------------------------------

    method CreateClient(caller: UserId, form: ClientForm, now: Ticks) returns (r: Outcome)
      requires Valid()
      modifies this
      ensures Valid()
      ensures r == CreateClientOutcome(old(clients), caller, form)
      ensures r == Ok ==> clients == old(clients) + [NewClient(old(nextId), caller, form, now)]
                          && nextId == old(nextId) + 1
      ensures r == Ok ==> var c := clients[|clients| - 1];
                          c.userId == caller && (form.isActive.None? ==> c.isActive)
      ensures r != Ok ==> clients == old(clients) && nextId == old(nextId)
      ensures projects == old(projects) && timeEntries == old(timeEntries) && invoices == old(invoices)
      ensures TenantConsistent(old(Snapshot())) ==> TenantConsistent(Snapshot())
      ensures forall v :: v != caller ==> OwnView(Snapshot(), v) == OwnView(old(Snapshot()), v)
    {
      var client := NewClient(nextId, caller, form, now);
      if !ClientAnnotationsValid(client) {
        return Invalid(AnnotationsFailed);
      }
      if !ClientNameFree(clients, caller, form.name) {
        return DbError;
      }
      AddClientRow(client);
      r := Ok;
    }

    /** Clients/Edit POST as written. */
    method EditClient(caller: UserId, routeId: int, body: Client) returns (r: Outcome)
      requires Valid()
      modifies this
      ensures Valid()
      ensures r == EditClientOutcome(old(clients), caller, routeId, body)
      ensures r == Ok ==> clients == old(clients)[FirstIndex(old(clients), ClientWithId(body.id)).value := body]
      ensures r != Ok ==> clients == old(clients)
      ensures projects == old(projects) && timeEntries == old(timeEntries) && invoices == old(invoices)
      ensures nextId == old(nextId)
    {
      r := EditClientOutcome(clients, caller, routeId, body);
      if r == Ok {
        var k := FirstIndex(clients, ClientWithId(body.id)).value;
        PutClientRow(k, body);
      }
    }

    /** Clients/Edit POST with the row looked up by key and owner. */
    method EditClientOwned(caller: UserId, routeId: int, body: Client) returns (r: Outcome)
      requires Valid()
      modifies this
      ensures Valid()
      ensures r == EditClientOwnedOutcome(old(clients), caller, routeId, body)
      ensures r == Ok ==> clients == old(clients)[FirstIndex(old(clients), ClientOwned(body.id, caller)).value := body]
      ensures r != Ok ==> clients == old(clients)
      ensures projects == old(projects) && timeEntries == old(timeEntries) && invoices == old(invoices)
      ensures nextId == old(nextId)
      ensures TenantConsistent(old(Snapshot())) ==> TenantConsistent(Snapshot())
      ensures forall v :: v != caller ==> OwnView(Snapshot(), v) == OwnView(old(Snapshot()), v)
    {
      r := EditClientOwnedOutcome(clients, caller, routeId, body);
      if r == Ok {
        var k := FirstIndex(clients, ClientOwned(body.id, caller)).value;
        PutClientRow(k, body);
      }
    }

    /** Clients/Delete POST: a client that any project or invoice refers
        to is deactivated instead of removed. */
    method DeleteClient(caller: UserId, id: int) returns (r: DeleteOutcome)
      requires Valid()
      modifies this
      ensures Valid()
      ensures match FirstIndex(old(clients), ClientOwned(id, caller))
              case None => r == Missing && clients == old(clients)
              case Some(k) =>
                if Any(old(projects), ProjectOfClient(id)) || Any(old(invoices), InvoiceOfClient(id))
                then r == Deactivated && clients == old(clients)[k := old(clients)[k].(isActive := false)]
                else r == Removed && clients == RemoveAt(old(clients), k)
      ensures projects == old(projects) && timeEntries == old(timeEntries) && invoices == old(invoices)
      ensures nextId == old(nextId)
      ensures TenantConsistent(old(Snapshot())) ==> TenantConsistent(Snapshot())
      ensures forall v :: v != caller ==> OwnView(Snapshot(), v) == OwnView(old(Snapshot()), v)
    {
      var found := FirstIndex(clients, ClientOwned(id, caller));
      if found.None? {
        return Missing;
      }
      var k := found.value;
      var hasProjects := Any(projects, ProjectOfClient(id));
      var hasInvoices := Any(invoices, InvoiceOfClient(id));
      if hasProjects || hasInvoices {
        r := Deactivated;
        SetActive(k, false);
      } else {
        r := Removed;
        DropClientRow(k);
      }
    }

    /** Sets the active flag of the client at index `k`. */
    method SetActive(k: nat, active: bool)
      requires Valid() && k < |clients|
      modifies this
      ensures Valid()
      ensures clients == old(clients)[k := old(clients)[k].(isActive := active)]
      ensures projects == old(projects) && timeEntries == old(timeEntries) && invoices == old(invoices)
      ensures nextId == old(nextId)
      ensures TenantConsistent(old(Snapshot())) ==> TenantConsistent(Snapshot())
      ensures forall v :: v != clients[k].userId ==> OwnView(Snapshot(), v) == OwnView(old(Snapshot()), v)
    {
      var c := clients[k].(isActive := active);
      PutClientRow(k, c);
    }

    /** Clients/Deactivate; deactivating an inactive client changes nothing. */
    method DeactivateClient(caller: UserId, id: int) returns (r: Outcome)
      requires Valid()
      modifies this
      ensures Valid()
      ensures match FirstIndex(old(clients), ClientOwned(id, caller))
              case None => r == NotFound && clients == old(clients)
              case Some(k) => r == Ok && clients == old(clients)[k := old(clients)[k].(isActive := false)]
                              && (!old(clients)[k].isActive ==> clients == old(clients))
      ensures projects == old(projects) && timeEntries == old(timeEntries) && invoices == old(invoices)
      ensures nextId == old(nextId)
      ensures TenantConsistent(old(Snapshot())) ==> TenantConsistent(Snapshot())
      ensures forall v :: v != caller ==> OwnView(Snapshot(), v) == OwnView(old(Snapshot()), v)
    {
      var found := FirstIndex(clients, ClientOwned(id, caller));
      if found.None? {
        return NotFound;
      }
      SetActive(found.value, false);
      r := Ok;
    }

    /** Clients/Reactivate; reactivating an active client changes nothing. */
    method ReactivateClient(caller: UserId, id: int) returns (r: Outcome)
      requires Valid()
      modifies this
      ensures Valid()
      ensures match FirstIndex(old(clients), ClientOwned(id, caller))
              case None => r == NotFound && clients == old(clients)
              case Some(k) => r == Ok && clients == old(clients)[k := old(clients)[k].(isActive := true)]
                              && (old(clients)[k].isActive ==> clients == old(clients))
      ensures projects == old(projects) && timeEntries == old(timeEntries) && invoices == old(invoices)
      ensures nextId == old(nextId)
      ensures TenantConsistent(old(Snapshot())) ==> TenantConsistent(Snapshot())
      ensures forall v :: v != caller ==> OwnView(Snapshot(), v) == OwnView(old(Snapshot()), v)
    {
      var found := FirstIndex(clients, ClientOwned(id, caller));
      if found.None? {
        return NotFound;
      }
      SetActive(found.value, true);
      r := Ok;
    }

    // -------------------------------------------------------------------
    // Projects
    // -------------------------------------------------------------------

    method CreateProject(caller: UserId, form: ProjectForm, now: Ticks) returns (r: Outcome)
      requires Valid()
      modifies this
      ensures Valid()
      ensures r == CreateProjectOutcome(old(clients), old(projects), caller, form)
      ensures r == Ok ==> projects == old(projects) + [NewProject(old(nextId), caller, form, now)]
                          && nextId == old(nextId) + 1
      ensures r == Ok ==> var p := projects[|projects| - 1];
                          p.userId == caller && (form.status.None? ==> p.status == Active)
      ensures r != Ok ==> projects == old(projects) && nextId == old(nextId)
      ensures clients == old(clients) && timeEntries == old(timeEntries) && invoices == old(invoices)
      ensures TenantConsistent(old(Snapshot())) ==> TenantConsistent(Snapshot())
      ensures forall v :: v != caller ==> OwnView(Snapshot(), v) == OwnView(old(Snapshot()), v)
    {
      var project := NewProject(nextId, caller, form, now);
      if !ProjectAnnotationsValid(project) {
        return Invalid(AnnotationsFailed);
      }
      if !Any(clients, ClientSelectable(form.clientId, caller)) {
        return Invalid(ClientRejected);
      }
      if !ProjectTitleFree(projects, caller, form.title) {
        return DbError;
      }
      AddProjectRow(project);
      r := Ok;
    }

    /** Projects/Edit POST as written. */
    method EditProject(caller: UserId, routeId: int, body: Project, now: Ticks) returns (r: Outcome)
      requires Valid()
      modifies this
      ensures Valid()
      ensures r == EditProjectOutcome(old(clients), old(projects), caller, routeId, body)
      ensures r == Ok ==> projects == old(projects)[FirstIndex(old(projects), ProjectWithId(body.id)).value
                                                   := body.(lastModified := now)]
      ensures r != Ok ==> projects == old(projects)
      ensures clients == old(clients) && timeEntries == old(timeEntries) && invoices == old(invoices)
      ensures nextId == old(nextId)
    {
      r := EditProjectOutcome(clients, projects, caller, routeId, body);
      if r == Ok {
        var k := FirstIndex(projects, ProjectWithId(body.id)).value;
        var project := body.(lastModified := now);
        PutProjectRow(k, project);
      }
    }

    /** Projects/Edit POST with the row looked up by key and owner. */
    method EditProjectOwned(caller: UserId, routeId: int, body: Project, now: Ticks) returns (r: Outcome)
      requires Valid()
      modifies this
      ensures Valid()
      ensures r == EditProjectOwnedOutcome(old(clients), old(projects), caller, routeId, body)
      ensures r == Ok ==> projects == old(projects)[FirstIndex(old(projects), ProjectOwned(body.id, caller)).value
                                                   := body.(lastModified := now)]
      ensures r != Ok ==> projects == old(projects)
      ensures clients == old(clients) && timeEntries == old(timeEntries) && invoices == old(invoices)
      ensures nextId == old(nextId)
      ensures TenantConsistent(old(Snapshot())) ==> TenantConsistent(Snapshot())
      ensures forall v :: v != caller ==> OwnView(Snapshot(), v) == OwnView(old(Snapshot()), v)
    {
      r := EditProjectOwnedOutcome(clients, projects, caller, routeId, body);
      if r == Ok {
        var k := FirstIndex(projects, ProjectOwned(body.id, caller)).value;
        var project := body.(lastModified := now);
        PutProjectRow(k, project);
      }
    }

    /** Projects/Delete POST: a project with time entries stays. */
    method DeleteProject(caller: UserId, id: int) returns (r: DeleteOutcome)
      requires Valid()
      modifies this
      ensures Valid()
      ensures match FirstIndex(old(projects), ProjectOwned(id, caller))
              case None => r == Missing && projects == old(projects)
              case Some(k) =>
                if Any(old(timeEntries), TimeEntryOfProject(id))
                then r == Blocked && projects == old(projects)
                else r == Removed && projects == RemoveAt(old(projects), k)
      ensures clients == old(clients) && timeEntries == old(timeEntries) && invoices == old(invoices)
      ensures nextId == old(nextId)
      ensures TenantConsistent(old(Snapshot())) ==> TenantConsistent(Snapshot())
      ensures forall v :: v != caller ==> OwnView(Snapshot(), v) == OwnView(old(Snapshot()), v)
    {
      var found := FirstIndex(projects, ProjectOwned(id, caller));
      if found.None? {
        return Missing;
      }
      var k := found.value;
      if Any(timeEntries, TimeEntryOfProject(id)) {
        return Blocked;
      }
      DropProjectRow(k);
      r := Removed;
    }

    // -------------------------------------------------------------------
    // Time entries
    // -------------------------------------------------------------------

    method CreateTimeEntry(caller: UserId, form: TimeEntryForm, now: Ticks) returns (r: Outcome)
      requires Valid()
      modifies this
      ensures Valid()
      ensures r == CreateTimeEntryOutcome(old(projects), caller, form)
      ensures r == Ok ==> timeEntries == old(timeEntries) + [NewTimeEntry(old(nextId), caller, form, now)]
                          && nextId == old(nextId) + 1
      ensures r == Ok ==> var e := timeEntries[|timeEntries| - 1];
                          e.userId == caller && e.endTime > e.startTime && (form.isBilled.None? ==> !e.isBilled)
      ensures r != Ok ==> timeEntries == old(timeEntries) && nextId == old(nextId)
      ensures clients == old(clients) && projects == old(projects) && invoices == old(invoices)
      ensures TenantConsistent(old(Snapshot())) ==> TenantConsistent(Snapshot())
      ensures forall v :: v != caller ==> OwnView(Snapshot(), v) == OwnView(old(Snapshot()), v)
    {
      var entry := NewTimeEntry(nextId, caller, form, now);
      if !TimeEntryAnnotationsValid(entry) {
        return Invalid(AnnotationsFailed);
      }
      if !Any(projects, ProjectOwned(form.projectId, caller)) {
        return Invalid(ProjectRejected);
      }
      if form.endTime <= form.startTime {
        return Invalid(EndNotAfterStart);
      }
      AddTimeEntryRow(entry);
      r := Ok;
    }

    /** TimeEntries/Edit POST as written. */
    method EditTimeEntry(caller: UserId, routeId: int, body: TimeEntry, now: Ticks) returns (r: Outcome)
      requires Valid()
      modifies this
      ensures Valid()
      ensures r == EditTimeEntryOutcome(old(projects), old(timeEntries), caller, routeId, body)
      ensures r == Ok ==> timeEntries == old(timeEntries)[FirstIndex(old(timeEntries), TimeEntryWithId(body.id)).value
                                                         := body.(lastModified := now)]
      ensures r != Ok ==> timeEntries == old(timeEntries)
      ensures clients == old(clients) && projects == old(projects) && invoices == old(invoices)
      ensures nextId == old(nextId)
    {
      r := EditTimeEntryOutcome(projects, timeEntries, caller, routeId, body);
      if r == Ok {
        var k := FirstIndex(timeEntries, TimeEntryWithId(body.id)).value;
        var entry := body.(lastModified := now);
        OwnedProjectBelongs(projects, body.projectId, caller);
        PutTimeEntryRow(k, entry);
      }
    }

    /** TimeEntries/Edit POST with the row looked up by key and owner. */
    method EditTimeEntryOwned(caller: UserId, routeId: int, body: TimeEntry, now: Ticks) returns (r: Outcome)
      requires Valid()
      modifies this
      ensures Valid()
      ensures r == EditTimeEntryOwnedOutcome(old(projects), old(timeEntries), caller, routeId, body)
      ensures r == Ok ==> timeEntries == old(timeEntries)[FirstIndex(old(timeEntries), TimeEntryOwned(body.id, caller)).value
                                                         := body.(lastModified := now)]
      ensures r != Ok ==> timeEntries == old(timeEntries)
      ensures clients == old(clients) && projects == old(projects) && invoices == old(invoices)
      ensures nextId == old(nextId)
      ensures TenantConsistent(old(Snapshot())) ==> TenantConsistent(Snapshot())
      ensures forall v :: v != caller ==> OwnView(Snapshot(), v) == OwnView(old(Snapshot()), v)
    {
      r := EditTimeEntryOwnedOutcome(projects, timeEntries, caller, routeId, body);
      if r == Ok {
        var k := FirstIndex(timeEntries, TimeEntryOwned(body.id, caller)).value;
        var entry := body.(lastModified := now);
        OwnedProjectBelongs(projects, body.projectId, caller);
        PutTimeEntryRow(k, entry);
      }
    }

    /** TimeEntries/Delete POST. */
    method DeleteTimeEntry(caller: UserId, id: int) returns (r: DeleteOutcome)
      requires Valid()
      modifies this
      ensures Valid()
      ensures match FirstIndex(old(timeEntries), TimeEntryOwned(id, caller))
              case None => r == Missing && timeEntries == old(timeEntries)
              case Some(k) => r == Removed && timeEntries == RemoveAt(old(timeEntries), k)
      ensures clients == old(clients) && projects == old(projects) && invoices == old(invoices)
      ensures nextId == old(nextId)
      ensures TenantConsistent(old(Snapshot())) ==> TenantConsistent(Snapshot())
      ensures forall v :: v != caller ==> OwnView(Snapshot(), v) == OwnView(old(Snapshot()), v)
    {
      var found := FirstIndex(timeEntries, TimeEntryOwned(id, caller));
      if found.None? {
        return Missing;
      }
      var k := found.value;
      DropTimeEntryRow(k);
      r := Removed;
    }

    /** TimeEntries/ToggleBilled. */
    method ToggleBilled(caller: UserId, id: int, now: Ticks) returns (r: Outcome)
      requires Valid()
      modifies this
      ensures Valid()
      ensures match FirstIndex(old(timeEntries), TimeEntryOwned(id, caller))
              case None => r == NotFound && timeEntries == old(timeEntries)
              case Some(k) => r == Ok && timeEntries == old(timeEntries)[k := ToggleBilledRow(old(timeEntries)[k], now)]
      ensures clients == old(clients) && projects == old(projects) && invoices == old(invoices)
      ensures nextId == old(nextId)
      ensures TenantConsistent(old(Snapshot())) ==> TenantConsistent(Snapshot())
      ensures forall v :: v != caller ==> OwnView(Snapshot(), v) == OwnView(old(Snapshot()), v)
    {
      var found := FirstIndex(timeEntries, TimeEntryOwned(id, caller));
      if found.None? {
        return NotFound;
      }
      var k := found.value;
      var entry := ToggleBilledRow(timeEntries[k], now);
      assert HasProject(projects, entry.projectId);
      if TenantConsistent(Snapshot()) {
        assert ProjectBelongsTo(projects, entry.projectId, entry.userId);
      }
      PutTimeEntryRow(k, entry);
      r := Ok;
    }

    // -------------------------------------------------------------------
    // Invoices
    // -------------------------------------------------------------------

    /** Invoices/Create: `IsPaid` is not bound, so a new invoice is unpaid. */
    method CreateInvoice(caller: UserId, form: InvoiceForm, now: Ticks) returns (r: Outcome)
      requires Valid()
      modifies this
      ensures Valid()
      ensures r == CreateInvoiceOutcome(old(clients), old(invoices), caller, form)
      ensures r == Ok ==> invoices == old(invoices) + [NewInvoice(old(nextId), caller, form, now)]
                          && nextId == old(nextId) + 1
      ensures r == Ok ==> var v := invoices[|invoices| - 1];
                          v.userId == caller && !v.isPaid && v.paymentDate.None?
      ensures r != Ok ==> invoices == old(invoices) && nextId == old(nextId)
      ensures clients == old(clients) && projects == old(projects) && timeEntries == old(timeEntries)
      ensures TenantConsistent(old(Snapshot())) ==> TenantConsistent(Snapshot())
      ensures forall v :: v != caller ==> OwnView(Snapshot(), v) == OwnView(old(Snapshot()), v)
    {
      var invoice := NewInvoice(nextId, caller, form, now);
      if !InvoiceAnnotationsValid(invoice) {
        return Invalid(AnnotationsFailed);
      }
      if !Any(clients, ClientSelectable(form.clientId, caller)) {
        return Invalid(ClientRejected);
      }
      if !InvoiceNumberFree(invoices, caller, form.invoiceNumber) {
        return DbError;
      }
      AddInvoiceRow(invoice);
      r := Ok;
    }

    /** Invoices/Edit POST; `isPaidField` is what the form posted under
        "IsPaid", if anything. */
    method EditInvoice(caller: UserId, routeId: int, body: Invoice, isPaidField: Option<seq<string>>, now: Ticks)
      returns (r: Outcome)
      requires Valid()
      modifies this
      ensures Valid()
      ensures r == EditInvoiceOutcome(old(clients), old(invoices), caller, routeId, body)
      ensures r == Ok ==>
                var k := FirstIndex(old(invoices), InvoiceOwned(routeId, caller)).value;
                invoices == old(invoices)[k := EditedInvoice(old(invoices)[k], body, IsPaidFromForm(isPaidField), now)]
      ensures r != Ok ==> invoices == old(invoices)
      ensures clients == old(clients) && projects == old(projects) && timeEntries == old(timeEntries)
      ensures nextId == old(nextId)
      ensures TenantConsistent(old(Snapshot())) ==> TenantConsistent(Snapshot())
      ensures forall v :: v != caller ==> OwnView(Snapshot(), v) == OwnView(old(Snapshot()), v)
    {
      if routeId != body.id {
        return NotFound;
      }
      if body.userId != caller {
        return Forbidden;
      }
      var isPaid := IsPaidFromForm(isPaidField);
      if !InvoiceAnnotationsValid(body) {
        return Invalid(AnnotationsFailed);
      }
      if !Any(clients, ClientSelectable(body.clientId, caller)) {
        return Invalid(ClientRejected);
      }
      var found := FirstIndex(invoices, InvoiceOwned(routeId, caller));
      if found.None? {
        return NotFound;
      }
      var k := found.value;
      var invoice := EditedInvoice(invoices[k], body, isPaid, now);
      if !InvoiceNumberFreeExcept(invoices, caller, body.invoiceNumber, routeId) {
        return DbError;
      }
      OwnedClientBelongs(clients, body.clientId, caller);
      PutInvoiceRow(k, invoice);
      r := Ok;
    }

    /** Invoices/Delete POST. */
    method DeleteInvoice(caller: UserId, id: int) returns (r: DeleteOutcome)
      requires Valid()
      modifies this
      ensures Valid()
      ensures match FirstIndex(old(invoices), InvoiceOwned(id, caller))
              case None => r == Missing && invoices == old(invoices)
              case Some(k) => r == Removed && invoices == RemoveAt(old(invoices), k)
      ensures clients == old(clients) && projects == old(projects) && timeEntries == old(timeEntries)
      ensures nextId == old(nextId)
      ensures TenantConsistent(old(Snapshot())) ==> TenantConsistent(Snapshot())
      ensures forall v :: v != caller ==> OwnView(Snapshot(), v) == OwnView(old(Snapshot()), v)
    {
      var found := FirstIndex(invoices, InvoiceOwned(id, caller));
      if found.None? {
        return Missing;
      }
      var k := found.value;
      DropInvoiceRow(k);
      r := Removed;
    }

    /** Invoices/TogglePaid. */
    method TogglePaid(caller: UserId, id: int, now: Ticks) returns (r: Outcome)
      requires Valid()
      modifies this
      ensures Valid()
      ensures match FirstIndex(old(invoices), InvoiceOwned(id, caller))
              case None => r == NotFound && invoices == old(invoices)
              case Some(k) => r == Ok && invoices == old(invoices)[k := TogglePaidRow(old(invoices)[k], now)]
      ensures clients == old(clients) && projects == old(projects) && timeEntries == old(timeEntries)
      ensures nextId == old(nextId)
      ensures TenantConsistent(old(Snapshot())) ==> TenantConsistent(Snapshot())
      ensures forall v :: v != caller ==> OwnView(Snapshot(), v) == OwnView(old(Snapshot()), v)
    {
      var found := FirstIndex(invoices, InvoiceOwned(id, caller));
      if found.None? {
        return NotFound;
      }
      var k := found.value;
      var invoice := TogglePaidRow(invoices[k], now);
      assert HasClient(clients, invoice.clientId);
      if TenantConsistent(Snapshot()) {
        assert ClientBelongsTo(clients, invoice.clientId, invoice.userId);
      }
      PutInvoiceRow(k, invoice);
      r := Ok;
    }
  }
}
