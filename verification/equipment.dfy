/**
 * Equipment reservations: the business calendar, the check that gates an equipment list, and
 * the ledger of service items with its one-row-per-device-and-day index, over all transactions.
 * Times are seconds since 1970 UTC, days are day numbers.
 */
module Equipment {
  import opened Options

  const DAY := 86400
  const OFFSET := 8 * 3600

  // ----- Business days -----

  type Day = int

  /** The Beijing calendar day of an instant. */
  function CalendarDay(t: int): Day {
    (t + OFFSET) / DAY
  }

  /** The day text of a stored instant, which the reservation listing takes in UTC. */
  function UtcDay(t: int): Day {
    t / DAY
  }

  function Midnight(d: Day): int {
    d * DAY
  }

  lemma CalendarDayMonotone(t: int, u: int)
    requires t <= u
    ensures CalendarDay(t) <= CalendarDay(u)
  {
  }

  /** A date parsed as UTC midnight is its own calendar day. */
  lemma CalendarDayOfMidnight(d: Day)
    ensures CalendarDay(Midnight(d)) == d
  {
  }

  /** The two day notions agree exactly before 16:00 UTC. */
  lemma DaysAgree(t: int)
    ensures UtcDay(t) <= CalendarDay(t) <= UtcDay(t) + 1
    ensures CalendarDay(t) == UtcDay(t) <==> t % DAY < DAY - OFFSET
  {
  }

  // ----- Master data and requested rows -----

  type Device = string
  type ItemId = string

  /** The zero date of the source's time type, which it reads as "not given". */
  const ZERO_DAY: Day := -719162

  datatype Capability = Capability(
    equipment: bool, active: bool, companyOnly: bool, validFrom: Option<int>, validUntil: Option<int>)

  datatype Requested = Whole | OneSided | Malformed | Days(start: Day, end: Day)

  datatype Input = Input(equipment: bool, id: Device, window: Requested)

  /** A row of an item's equipment list; no window means the whole plan. */
  datatype Row = Row(id: Device, window: Option<(Day, Day)>, returned: bool)

  /** A reservation as the listing reports it; None is a date it could not parse. */
  datatype Reservation = Reservation(item: ItemId, id: Device, window: Option<(Day, Day)>)

  predicate Overlaps(a: (Day, Day), b: (Day, Day)) {
    !(a.0 > b.1) && !(b.0 > a.1)
  }

  predicate InWindow(d: Day, w: (Day, Day)) {
    w.0 <= d <= w.1
  }

  /** Closed windows overlap exactly when they share a day. */
  lemma OverlapIsSharedDay(a: (Day, Day), b: (Day, Day))
    requires a.0 <= a.1 && b.0 <= b.1
    ensures Overlaps(a, b) <==> exists d :: InWindow(d, a) && InWindow(d, b)
  {
    if Overlaps(a, b) {
      var d := if a.0 <= b.0 then b.0 else a.0;
      assert InWindow(d, a) && InWindow(d, b);
    }
  }

  function PlanDays(start: int, end: int): (Day, Day) {
    (CalendarDay(start), CalendarDay(end))
  }

  /** The plan-window rule for one input. */
  predicate WindowAllowed(w: Requested, plan: (Day, Day)) {
    match w
    case Whole => true
    case OneSided => false
    case Malformed => false
    case Days(start, end) => start <= end && plan.0 <= start && end <= plan.1
  }

  function RowOf(i: Input): Row {
    Row(i.id, if i.window.Days? && i.window.start != ZERO_DAY then Some((i.window.start, i.window.end)) else None, false)
  }

  /** The calibration rule: the days the check compares, the plan's end even for a dated start of zero. */
  predicate Calibrated(c: Capability, i: Input, plan: (Day, Day)) {
    var start := if i.window.Days? && i.window.start != ZERO_DAY then i.window.start else plan.0;
    var end := if i.window.Days? then i.window.end else plan.1;
    && (c.validFrom.Some? ==> CalendarDay(c.validFrom.value) <= start)
    && (c.validUntil.Some? ==> end <= CalendarDay(c.validUntil.value))
  }

  function EffectiveWindow(r: Row, plan: (Day, Day)): (Day, Day) {
    if r.window.Some? then r.window.value else plan
  }

  /** An unparsable reservation counts as a conflict. */
  predicate Conflicts(r: Row, plan: (Day, Day), v: Reservation) {
    v.id == r.id && (v.window.None? || Overlaps(EffectiveWindow(r, plan), v.window.value))
  }

  predicate InUse(v: Reservation, id: Device, today: Day) {
    v.id == id && v.window.Some? && InWindow(today, v.window.value)
  }

  /** Everything the gate asks of one input besides being new in the list. */
  predicate InputOk(i: Input, known: map<Device, Capability>, reserved: seq<Reservation>, plan: (Day, Day), today: Day) {
    && i.equipment && i.id != "" && i.id in known && known[i.id].equipment && known[i.id].active
    && WindowAllowed(i.window, plan) && Calibrated(known[i.id], i, plan) && !known[i.id].companyOnly
    && forall v :: v in reserved ==> !InUse(v, i.id, today) && !Conflicts(RowOf(i), plan, v)
  }

  predicate DistinctDevices(rows: seq<Row>) {
    forall i, j :: 0 <= i < j < |rows| ==> rows[i].id != rows[j].id
  }

  /** Resolves an equipment list, or refuses the first bad input. */
  method ResolvePreparation(inputs: seq<Input>, known: map<Device, Capability>, reserved: seq<Reservation>,
                            planStart: int, planEnd: int, today: Day) returns (rows: Option<seq<Row>>)
    ensures rows.Some? <==>
              && (forall i :: 0 <= i < |inputs| ==> InputOk(inputs[i], known, reserved, PlanDays(planStart, planEnd), today))
              && (forall i, j :: 0 <= i < j < |inputs| ==> inputs[i].id != inputs[j].id)
    ensures rows.Some? ==>
              && |rows.value| == |inputs| && DistinctDevices(rows.value)
              && forall i :: 0 <= i < |inputs| ==> rows.value[i] == RowOf(inputs[i])
  {
    var plan := PlanDays(planStart, planEnd);
    var resources: seq<Row> := [];
    var seen: set<Device> := {};
    var i := 0;
    while i < |inputs|
      invariant 0 <= i == |resources| <= |inputs|
      invariant seen == set j | 0 <= j < i :: inputs[j].id
      invariant forall j :: 0 <= j < i ==> resources[j] == RowOf(inputs[j]) && InputOk(inputs[j], known, reserved, plan, today)
      invariant forall j, k :: 0 <= j < k < i ==> inputs[j].id != inputs[k].id
    {
      var input := inputs[i];
      if input.id in seen || !InputOk(input, known, reserved, plan, today) {
        return None;
      }
      seen := seen + {input.id};
      resources := resources + [RowOf(input)];
      i := i + 1;
    }
    rows := Some(resources);
  }

  /**
   * Every accepted row stays inside the plan's days and its device's calibration days (for plans after the zero
   * date, which as a row's start means "not given"), and never meets a listed reservation.
   */
  lemma AcceptedRow(i: Input, known: map<Device, Capability>, reserved: seq<Reservation>,
                    planStart: int, planEnd: int, today: Day)
    requires planStart < planEnd && InputOk(i, known, reserved, PlanDays(planStart, planEnd), today)
    ensures var plan := PlanDays(planStart, planEnd); var w := EffectiveWindow(RowOf(i), plan);
            && plan.0 <= w.0 <= w.1 <= plan.1
            && (forall v, d :: v in reserved && v.id == i.id && InWindow(d, w) ==>
                  v.window.Some? && !InWindow(d, v.window.value))
            && (ZERO_DAY < plan.0 ==>
                  && (known[i.id].validFrom.Some? ==> CalendarDay(known[i.id].validFrom.value) <= w.0)
                  && (known[i.id].validUntil.Some? ==> w.1 <= CalendarDay(known[i.id].validUntil.value)))
  {
    CalendarDayMonotone(planStart, planEnd);
    forall v, d | v in reserved && v.id == i.id && InWindow(d, EffectiveWindow(RowOf(i), PlanDays(planStart, planEnd)))
      ensures v.window.Some? && !InWindow(d, v.window.value)
    {
      assert !Conflicts(RowOf(i), PlanDays(planStart, planEnd), v);
    }
  }

  // ----- The ledger -----

  datatype Status = Unplanned | Planned | Preparing | InProgress | Exception | FieldCompleted | Terminated

  /** `plan` holds the planned start and end instants. */
  datatype Item = Item(status: Status, plan: Option<(int, int)>, equipment: seq<Row>)

  type Index = map<(Device, Day), ItemId>

  datatype Ledger = Ledger(items: map<ItemId, Item>, index: Index, master: map<Device, Capability>)

  /** The statuses whose equipment rows the listing reports. */
  predicate Holding(s: Status) {
    s.Preparing? || s.InProgress? || s.Exception? || s.FieldCompleted?
  }

  /** The days a row occupies; None when a row without a window meets an item without a plan. */
  function Occupies(item: Item, r: Row): Option<(Day, Day)> {
    if r.window.Some? then r.window
    else if item.plan.None? then None
    else Some(PlanDays(item.plan.value.0, item.plan.value.1))
  }

  function WithoutItem(index: Index, id: ItemId): Index {
    map k | k in index && index[k] != id :: index[k]
  }

  function WithoutDevice(index: Index, id: ItemId, device: Device): Index {
    map k | k in index && !(index[k] == id && k.0 == device) :: index[k]
  }

  /** Inserting one index row per day; an occupied day refuses everything. */
  function BookDays(index: Index, device: Device, id: ItemId, d: Day, e: Day): Option<Index>
    decreases e - d + 1
  {
    if d > e then Some(index)
    else if (device, d) in index then None
    else BookDays(index[(device, d) := id], device, id, d + 1, e)
  }

  /** The master data check under the same lock as the index. */
  predicate Bookable(master: map<Device, Capability>, r: Row, w: (Day, Day)) {
    && w.0 <= w.1 && (r.window.Some? ==> w.1 - w.0 <= 366)
    && r.id in master && master[r.id].active && !master[r.id].companyOnly
    && (master[r.id].validFrom.Some? ==> CalendarDay(master[r.id].validFrom.value) <= w.0)
    && (master[r.id].validUntil.Some? ==> w.1 <= CalendarDay(master[r.id].validUntil.value))
  }

  function BookRows(index: Index, master: map<Device, Capability>, id: ItemId, item: Item, rows: seq<Row>): Option<Index> {
    if rows == [] then Some(index)
    else
      var rest := BookRows(index, master, id, item, rows[..|rows| - 1]);
      var r := rows[|rows| - 1];
      if rest.None? then None
      else if r.returned || r.id == "" then rest
      else if Occupies(item, r).None? || !Bookable(master, r, Occupies(item, r).value) then None
      else BookDays(rest.value, r.id, id, Occupies(item, r).value.0, Occupies(item, r).value.1)
  }

  datatype Step =
    | Plan(id: ItemId, start: int, end: int)
    | RevokePlan(id: ItemId)
    | Prepare(id: ItemId, rows: seq<Row>)
    | RevokePreparation(id: ItemId)
    | Return(id: ItemId, device: Device)
    | Move(id: ItemId, to: Status)
    | Terminate(id: ItemId)
    | EditMaster(device: Device, capability: Capability)

  /** The status changes between the field phases, none of which touches equipment. */
  predicate FieldMove(a: Status, b: Status) {
    || (a.Preparing? && b.InProgress?) || (a.InProgress? && b.Preparing?) || (a.InProgress? && b.Exception?)
    || (a.Exception? && b.InProgress?) || (a.InProgress? && b.FieldCompleted?) || (a.FieldCompleted? && b.InProgress?)
  }

  function MarkReturned(rows: seq<Row>, device: Device): (r: seq<Row>)
    ensures |r| == |rows|
  {
    seq(|rows|, i requires 0 <= i < |rows| => if rows[i].id == device then rows[i].(returned := true) else rows[i])
  }

  /** One committed transaction; a refused one leaves the ledger as it was. */
  function Next(l: Ledger, s: Step): Ledger {
    if s.EditMaster? then l.(master := l.master[s.device := s.capability])
    else if s.id !in l.items then l
    else
      var item := l.items[s.id];
      match s
      case Plan(id, start, end) =>
        if item.status.Unplanned? && start < end
        then l.(items := l.items[id := item.(status := Planned, plan := Some((start, end)))]) else l
      case RevokePlan(id) =>
        if item.status.Planned?
        then l.(items := l.items[id := Item(Unplanned, None, [])]) else l
      case Prepare(id, rows) =>
        if !item.status.Planned? && !item.status.Preparing? then l
        else
          var booked := BookRows(WithoutItem(l.index, id), l.master, id, item, rows);
          if booked.None? then l
          else l.(items := l.items[id := item.(status := Preparing, equipment := rows)], index := booked.value)
      case RevokePreparation(id) =>
        if item.status.Preparing?
        then l.(items := l.items[id := item.(status := Planned, equipment := [])], index := WithoutItem(l.index, id)) else l
      case Return(id, device) =>
        if item.status.Unplanned? || item.status.Terminated? || device == "" || device !in l.master
           || (forall r :: r in item.equipment && r.id == device ==> r.returned) then l
        else l.(items := l.items[id := item.(equipment := MarkReturned(item.equipment, device))],
                index := WithoutDevice(l.index, id, device))
      case Move(id, to) =>
        if FieldMove(item.status, to) then l.(items := l.items[id := item.(status := to)]) else l
      case Terminate(id) =>
        if item.status.Exception?
        then l.(items := l.items[id := item.(status := Terminated)], index := WithoutItem(l.index, id)) else l
      case EditMaster(_, _) => l
  }

  function Run(l: Ledger, steps: seq<Step>): Ledger {
    if steps == [] then l else Next(Run(l, steps[..|steps| - 1]), steps[|steps| - 1])
  }

  /** The rows an item is still occupying. */
  predicate Live(l: Ledger, id: ItemId, r: Row) {
    id in l.items && Holding(l.items[id].status) && r in l.items[id].equipment && !r.returned && r.id != ""
  }

  /** Every live row owns the index row of each of its days. */
  ghost predicate IndexCovers(l: Ledger) {
    forall id, r :: Live(l, id, r) ==> Owns(l, id, r)
  }

  ghost predicate Owns(l: Ledger, id: ItemId, r: Row)
    requires id in l.items
  {
    var w := Occupies(l.items[id], r);
    w.Some? && w.value.0 <= w.value.1 && forall d :: InWindow(d, w.value) ==> (r.id, d) in l.index && l.index[(r.id, d)] == id
  }

  // ----- Booking -----

  lemma {:induction false} BookDaysSpec(index: Index, device: Device, id: ItemId, d: Day, e: Day)
    ensures var b := BookDays(index, device, id, d, e);
            && (b.None? <==> exists x :: d <= x <= e && (device, x) in index)
            && (b.Some? ==>
                  && (forall k :: k in b.value <==> k in index || (k.0 == device && d <= k.1 <= e))
                  && (forall k :: k in b.value ==> b.value[k] == if k in index then index[k] else id))
    decreases e - d + 1
  {
    if d <= e && (device, d) !in index {
      BookDaysSpec(index[(device, d) := id], device, id, d + 1, e);
    }
  }

  ghost predicate RowBooked(index: Index, id: ItemId, item: Item, r: Row) {
    r.returned || r.id == "" ||
    var w := Occupies(item, r);
    w.Some? && w.value.0 <= w.value.1 && forall d :: InWindow(d, w.value) ==> (r.id, d) in index && index[(r.id, d)] == id
  }

  /** A successful booking keeps every older index row and gives the item every day of every row. */
  lemma {:induction false} BookRowsSpec(index: Index, master: map<Device, Capability>, id: ItemId, item: Item, rows: seq<Row>)
    requires BookRows(index, master, id, item, rows).Some?
    ensures var b := BookRows(index, master, id, item, rows).value;
            && (forall k :: k in index ==> k in b && b[k] == index[k])
            && (forall k :: k in b && k !in index ==> b[k] == id)
            && (forall r :: r in rows ==> RowBooked(b, id, item, r))
            && (forall r :: r in rows && !r.returned && r.id != "" ==> Bookable(master, r, Occupies(item, r).value))
  {
    if rows != [] {
      var front, r := rows[..|rows| - 1], rows[|rows| - 1];
      BookRowsSpec(index, master, id, item, front);
      var rest := BookRows(index, master, id, item, front).value;
      var b := BookRows(index, master, id, item, rows).value;
      if !r.returned && r.id != "" {
        var w := Occupies(item, r).value;
        BookDaysSpec(rest, r.id, id, w.0, w.1);
      }
      forall q | q in rows
        ensures RowBooked(b, id, item, q)
        ensures !q.returned && q.id != "" ==> Bookable(master, q, Occupies(item, q).value)
      {
        if q in front {
          assert RowBooked(rest, id, item, q);
        } else {
          assert q == r;
        }
      }
    }
  }

  method InsertDays(index: Index, device: Device, id: ItemId, w: (Day, Day)) returns (booked: Option<Index>)
    ensures booked == BookDays(index, device, id, w.0, w.1)
  {
    var current, d := index, w.0;
    while d <= w.1
      invariant BookDays(index, device, id, w.0, w.1) == BookDays(current, device, id, d, w.1)
    {
      if (device, d) in current {
        return None;
      }
      current := current[(device, d) := id];
      d := d + 1;
    }
    booked := Some(current);
  }

  /** The index update of a preparation: drop the item's own rows, then insert day by day. */
  method SyncReservations(index: Index, master: map<Device, Capability>, id: ItemId, item: Item, rows: seq<Row>)
    returns (booked: Option<Index>)
    ensures booked == BookRows(WithoutItem(index, id), master, id, item, rows)
  {
    ghost var start := WithoutItem(index, id);
    var current := WithoutItem(index, id);
    var i := 0;
    while i < |rows|
      invariant 0 <= i <= |rows| && BookRows(start, master, id, item, rows[..i]) == Some(current)
    {
      var r := rows[i];
      assert rows[..i + 1][..i] == rows[..i];
      if !r.returned && r.id != "" {
        var w := Occupies(item, r);
        if w.None? || !Bookable(master, r, w.value) {
          BookRowsFails(start, master, id, item, rows, i + 1);
          return None;
        }
        var next := InsertDays(current, r.id, id, w.value);
        if next.None? {
          BookRowsFails(start, master, id, item, rows, i + 1);
          return None;
        }
        current := next.value;
      }
      i := i + 1;
    }
    assert rows[..|rows|] == rows;
    booked := Some(current);
  }

  lemma {:induction false} BookRowsFails(index: Index, master: map<Device, Capability>, id: ItemId, item: Item,
                                        rows: seq<Row>, i: nat)
    requires i <= |rows| && BookRows(index, master, id, item, rows[..i]).None?
    ensures BookRows(index, master, id, item, rows).None?
    decreases |rows| - i
  {
    if i < |rows| {
      assert rows[..i + 1][..i] == rows[..i];
      BookRowsFails(index, master, id, item, rows, i + 1);
    } else {
      assert rows[..i] == rows;
    }
  }

  /** An accepted preparation occupies only days inside each device's calibration. */
  lemma PreparedRowsAreCalibrated(l: Ledger, id: ItemId, rows: seq<Row>, r: Row, d: Day)
    requires id in l.items && Next(l, Prepare(id, rows)) != l
    requires r in rows && !r.returned && r.id != ""
    requires Occupies(l.items[id], r).Some? && InWindow(d, Occupies(l.items[id], r).value)
    ensures r.id in l.master && l.master[r.id].active && !l.master[r.id].companyOnly
    ensures l.master[r.id].validFrom.Some? ==> CalendarDay(l.master[r.id].validFrom.value) <= d
    ensures l.master[r.id].validUntil.Some? ==> d <= CalendarDay(l.master[r.id].validUntil.value)
  {
    BookRowsSpec(WithoutItem(l.index, id), l.master, id, l.items[id], rows);
  }

  // ----- No double booking over all runs -----

  lemma PrepareKeepsCover(l: Ledger, id: ItemId, rows: seq<Row>)
    requires IndexCovers(l)
    ensures IndexCovers(Next(l, Prepare(id, rows)))
  {
    var t := Next(l, Prepare(id, rows));
    if t != l {
      var item := l.items[id];
      BookRowsSpec(WithoutItem(l.index, id), l.master, id, item, rows);
      forall other, r | Live(t, other, r)
        ensures Owns(t, other, r)
      {
        if other == id {
          assert RowBooked(t.index, id, item, r);
        } else {
          assert Live(l, other, r) && Owns(l, other, r);
        }
      }
    }
  }

  lemma ReturnKeepsCover(l: Ledger, id: ItemId, device: Device)
    requires IndexCovers(l)
    ensures IndexCovers(Next(l, Return(id, device)))
  {
    var t := Next(l, Return(id, device));
    if t != l {
      forall other, r | Live(t, other, r)
        ensures Owns(t, other, r)
      {
        if other == id {
          var i :| 0 <= i < |t.items[id].equipment| && t.items[id].equipment[i] == r;
          assert l.items[id].equipment[i] == r && r.id != device;
        }
        assert Live(l, other, r) && Owns(l, other, r);
      }
    }
  }

  lemma StepKeepsCover(l: Ledger, s: Step)
    requires IndexCovers(l)
    ensures IndexCovers(Next(l, s))
  {
    match s {
      case Prepare(id, rows) => PrepareKeepsCover(l, id, rows);
      case Return(id, device) => ReturnKeepsCover(l, id, device);
      case Plan(_, _, _) => OtherStepKeepsCover(l, s);
      case RevokePlan(_) => OtherStepKeepsCover(l, s);
      case RevokePreparation(_) => OtherStepKeepsCover(l, s);
      case Move(_, _) => OtherStepKeepsCover(l, s);
      case Terminate(_) => OtherStepKeepsCover(l, s);
      case EditMaster(_, _) => OtherStepKeepsCover(l, s);
    }
  }

  lemma OtherStepKeepsCover(l: Ledger, s: Step)
    requires IndexCovers(l) && !s.Prepare? && !s.Return?
    ensures IndexCovers(Next(l, s))
  {
    var t := Next(l, s);
    forall id, r | Live(t, id, r)
      ensures Owns(t, id, r)
    {
      assert Live(l, id, r) && Owns(l, id, r);
    }
  }

  lemma {:induction false} RunKeepsCover(l: Ledger, steps: seq<Step>)
    requires IndexCovers(l)
    ensures IndexCovers(Run(l, steps))
  {
    if steps != [] {
      RunKeepsCover(l, steps[..|steps| - 1]);
      StepKeepsCover(Run(l, steps[..|steps| - 1]), steps[|steps| - 1]);
    }
  }

  /** An empty ledger with any items that hold nothing yet. */
  predicate Untouched(l: Ledger) {
    forall id :: id in l.items ==> l.items[id].equipment == []
  }

  /**
   * Over all runs, and however stale the reservation list each gate decision was based on: two live
   * rows of one device in different items never share a day.
   */
  lemma NoDoubleBooking(l: Ledger, steps: seq<Step>, a: ItemId, b: ItemId, r: Row, q: Row)
    requires Untouched(l) && a != b && r.id == q.id
    requires Live(Run(l, steps), a, r) && Live(Run(l, steps), b, q)
    ensures var t := Run(l, steps);
            && Occupies(t.items[a], r).Some? && Occupies(t.items[b], q).Some?
            && !Overlaps(Occupies(t.items[a], r).value, Occupies(t.items[b], q).value)
  {
    RunKeepsCover(l, steps);
    var t := Run(l, steps);
    assert Owns(t, a, r) && Owns(t, b, q);
    var v, w := Occupies(t.items[a], r).value, Occupies(t.items[b], q).value;
    OverlapIsSharedDay(v, w);
  }

  // ----- A device once per item -----

  ghost predicate EachDeviceOnce(l: Ledger) {
    forall id :: id in l.items ==> DistinctDevices(l.items[id].equipment)
  }

  /** Prepared lists come out of the gate, which lists every device once. */
  ghost predicate Gated(steps: seq<Step>) {
    forall i :: 0 <= i < |steps| && steps[i].Prepare? ==> DistinctDevices(steps[i].rows)
  }

  lemma {:induction false} DeviceListedOnce(l: Ledger, steps: seq<Step>)
    requires Untouched(l) && Gated(steps)
    ensures EachDeviceOnce(Run(l, steps))
  {
    if steps != [] {
      DeviceListedOnce(l, steps[..|steps| - 1]);
    }
  }

  // ----- The listing behind the gate -----

  /** How the listing reports a live row: a missing window becomes the plan's days in UTC. */
  function Listed(id: ItemId, item: Item, r: Row): Reservation
    requires item.plan.Some?
  {
    Reservation(id, r.id, Some(if r.window.Some? then r.window.value
                               else (UtcDay(item.plan.value.0), UtcDay(item.plan.value.1))))
  }

  /** The listing shows a row's days exactly when the plan starts and ends before 16:00 UTC, or the row is dated. */
  lemma ListingExactness(id: ItemId, item: Item, r: Row)
    requires item.plan.Some?
    ensures Listed(id, item, r).window == Occupies(item, r) <==>
              r.window.Some? || (item.plan.value.0 % DAY < DAY - OFFSET && item.plan.value.1 % DAY < DAY - OFFSET)
  {
    DaysAgree(item.plan.value.0);
    DaysAgree(item.plan.value.1);
  }

  /**
   * A plan ending at 20:00 UTC occupies the next Beijing day as well, which the listing does not show:
   * the gate lets a second item ask for that day, and only the index refuses it.
   */
  lemma GateMissesLateEnd()
    ensures var first := Item(Preparing, Some((Midnight(10), Midnight(12) + 20 * 3600)), [Row("EQ-0001", None, false)]);
            var second := Item(Planned, Some((Midnight(13), Midnight(13) + 3600)), []);
            var c := Capability(true, true, false, None, None);
            var ask := Input(true, "EQ-0001", Whole);
            && InputOk(ask, map["EQ-0001" := c], [Listed("A", first, first.equipment[0])],
                       PlanDays(Midnight(13), Midnight(13) + 3600), 5)
            && forall index, master: map<Device, Capability> :: ("EQ-0001", 13) in index && index[("EQ-0001", 13)] == "A" ==>
                 BookRows(WithoutItem(index, "B"), master, "B", second, [RowOf(ask)]).None?
  {
    var second := Item(Planned, Some((Midnight(13), Midnight(13) + 3600)), []);
    var ask := Input(true, "EQ-0001", Whole);
    var row := RowOf(ask);
    assert Occupies(second, row) == Some((13, 13));
    forall index, master: map<Device, Capability> | ("EQ-0001", 13) in index && index[("EQ-0001", 13)] == "A"
      ensures BookRows(WithoutItem(index, "B"), master, "B", second, [row]).None?
    {
      var free := WithoutItem(index, "B");
      assert ("EQ-0001", 13) in free;
      assert [row][..0] == [];
      assert BookRows(free, master, "B", second, []) == Some(free);
    }
  }
}
