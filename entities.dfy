/**
 * The four persisted entities (clients, projects, time entries, invoices),
 * their validation annotations and the quantities computed from them:
 * `TimeEntry.DurationInHours`, `TimeEntry.Amount`, `Project.TotalHours`
 * and `Project.TotalAmount`.
 *
 * A `DateTime` is its tick count (100 ns units since 0001-01-01, never
 * negative); `decimal` hours and money are exact reals.
 */
module Entities {
  import opened Wrappers
  import opened Text
  import opened Linq

  type UserId = string
  type Ticks = nat

  const TicksPerHour: nat := 36_000_000_000
  const TicksPerDay: nat := 864_000_000_000

  /** `DateTime.Date`, as a day number. */
  function Day(t: Ticks): nat {
    t / TicksPerDay
  }

  datatype ProjectStatus = Active | Completed | Invoiced

  datatype Client = Client(
    id: int, userId: UserId,
    name: string,
    contactEmail: Option<string>, phoneNumber: Option<string>,
    address: Option<string>, notes: Option<string>,
    createdDate: Ticks,
    isActive: bool)

  datatype Project = Project(
    id: int, userId: UserId,
    title: string, description: Option<string>,
    hourlyRate: real,
    status: ProjectStatus,
    startDate: Option<Ticks>, endDate: Option<Ticks>,
    createdDate: Ticks, lastModified: Ticks,
    clientId: int)

  datatype TimeEntry = TimeEntry(
    id: int, userId: UserId,
    startTime: Ticks, endTime: Ticks,
    description: string,
    isBilled: bool,
    createdDate: Ticks, lastModified: Ticks,
    projectId: int)

  datatype Invoice = Invoice(
    id: int, userId: UserId,
    invoiceDate: Ticks,
    totalAmount: real,
    isPaid: bool, paymentDate: Option<Ticks>,
    notes: Option<string>,
    invoiceNumber: string,
    dueDate: Option<Ticks>,
    createdDate: Ticks, lastModified: Ticks,
    clientId: int)

  // ---------------------------------------------------------------------
  // Validation annotations ([Required], [MaxLength], [Range])
  // ---------------------------------------------------------------------

  /** `[Required]` on a string: present and not only white space. */
  predicate Required(s: string) {
    !IsNullOrWhiteSpace(Some(s))
  }

  /** `[MaxLength(n)]` on an optional string. */
  predicate MaxLength(s: Option<string>, n: nat) {
    s.None? || |s.value| <= n
  }

  predicate ClientAnnotationsValid(c: Client) {
    Required(c.name) && |c.name| <= 200
    && MaxLength(c.contactEmail, 256) && MaxLength(c.phoneNumber, 20)
    && MaxLength(c.address, 500) && MaxLength(c.notes, 1000)
  }

  predicate ProjectAnnotationsValid(p: Project) {
    Required(p.title) && |p.title| <= 200
    && MaxLength(p.description, 2000)
    && p.hourlyRate >= 0.0
  }

  predicate TimeEntryAnnotationsValid(e: TimeEntry) {
    Required(e.description) && |e.description| <= 1000
  }

  predicate InvoiceAnnotationsValid(i: Invoice) {
    i.totalAmount >= 0.0 && MaxLength(i.notes, 500) && |i.invoiceNumber| <= 100
  }

  // ---------------------------------------------------------------------
  // TimeEntry.DurationInHours and TimeEntry.Amount
  // ---------------------------------------------------------------------

  /** Zero for an entry that does not end after it starts, otherwise the
      elapsed time in hours. */
  function DurationInHours(e: TimeEntry): (h: real)
    ensures h >= 0.0
    ensures e.endTime <= e.startTime ==> h == 0.0
    ensures e.endTime > e.startTime ==>
              h * TicksPerHour as real == (e.endTime - e.startTime) as real
  {
    if e.endTime <= e.startTime then 0.0
    else (e.endTime - e.startTime) as real / TicksPerHour as real
  }

  /** Splitting an entry at an instant inside it splits its duration. */
  lemma DurationSplit(e: TimeEntry, mid: Ticks)
    requires e.startTime <= mid <= e.endTime
    ensures DurationInHours(e) ==
            DurationInHours(e.(endTime := mid)) + DurationInHours(e.(startTime := mid))
  {
    var h := TicksPerHour as real;
    var a, b := (mid - e.startTime) as real, (e.endTime - mid) as real;
    assert (a + b) / h == a / h + b / h;
  }

  /** A later end never shortens an entry. */
  lemma DurationMonotone(e: TimeEntry, later: Ticks)
    requires e.endTime <= later
    ensures DurationInHours(e) <= DurationInHours(e.(endTime := later))
  {
    if e.startTime < e.endTime {
      DurationSplit(e.(endTime := later), e.endTime);
    }
  }

  /** `DurationInHours * Project?.HourlyRate ?? 0`: the whole product is
      zero when no project is attached. */
  function Amount(e: TimeEntry, project: Option<Project>): (a: real)
    ensures project.None? ==> a == 0.0
    ensures project.Some? && project.value.hourlyRate >= 0.0 ==> a >= 0.0
    ensures project.Some? && e.endTime > e.startTime ==>
              a * TicksPerHour as real == (e.endTime - e.startTime) as real * project.value.hourlyRate
    ensures e.endTime <= e.startTime ==> a == 0.0
  {
    match project
    case None => 0.0
    case Some(p) => DurationInHours(e) * p.hourlyRate
  }

  // ---------------------------------------------------------------------
  // Project.TotalHours and Project.TotalAmount
  // ---------------------------------------------------------------------

  predicate IsBilled(e: TimeEntry) { e.isBilled }

  /** Hours of the billed entries among a project's time entries. */
  function TotalHours(timeEntries: seq<TimeEntry>): (h: real)
    ensures h >= 0.0
    ensures timeEntries == [] ==> h == 0.0
  {
    var billed := Where(timeEntries, IsBilled);
    SumNonNegative(billed, DurationInHours);
    Sum(billed, DurationInHours)
  }

  function TotalAmount(p: Project, timeEntries: seq<TimeEntry>): (a: real)
    ensures p.hourlyRate >= 0.0 ==> a >= 0.0
    ensures p.hourlyRate == 0.0 || timeEntries == [] ==> a == 0.0
  {
    var h := TotalHours(timeEntries);
    ProductNonNegative(h, p.hourlyRate);
    h * p.hourlyRate
  }

  lemma ProductNonNegative(x: real, y: real)
    requires x >= 0.0
    ensures y >= 0.0 ==> x * y >= 0.0
    ensures y == 0.0 ==> x * y == 0.0
  {}

  lemma TotalHoursAppend(a: seq<TimeEntry>, b: seq<TimeEntry>)
    ensures TotalHours(a + b) == TotalHours(a) + TotalHours(b)
  {
    WhereAppend(a, b, IsBilled);
    SumAppend(Where(a, IsBilled), Where(b, IsBilled), DurationInHours);
  }

  /** Unbilled entries contribute nothing. */
  lemma {:induction false} TotalHoursUnbilled(es: seq<TimeEntry>)
    requires forall i :: 0 <= i < |es| ==> !es[i].isBilled
    ensures TotalHours(es) == 0.0
    decreases |es|
  {
    if es != [] {
      assert es == [es[0]] + es[1..];
      TotalHoursAppend([es[0]], es[1..]);
      TotalHoursUnbilled(es[1..]);
      assert Where([es[0]], IsBilled) == [];
    }
  }

  /** Marking one unbilled entry billed adds exactly its duration; the
      billed row may differ in fields the duration does not read. */
  lemma MarkBilledAddsDuration(es: seq<TimeEntry>, k: nat, billed: TimeEntry)
    requires k < |es| && !es[k].isBilled
    requires billed.isBilled && DurationInHours(billed) == DurationInHours(es[k])
    ensures TotalHours(es[k := billed]) == TotalHours(es) + DurationInHours(es[k])
  {
    var e := es[k];
    var pre, post := es[..k], es[k + 1..];
    assert es == pre + [e] + post;
    assert es[k := billed] == pre + [billed] + post;
    TotalHoursAppend(pre + [e], post);
    TotalHoursAppend(pre, [e]);
    TotalHoursAppend(pre + [billed], post);
    TotalHoursAppend(pre, [billed]);
    assert Where([e], IsBilled) == [];
    assert Where([billed], IsBilled) == [billed];
    assert Sum([billed], DurationInHours) == DurationInHours(billed);
  }
}
