/**
 * What every transaction of the reservation ledger does, and exactly when it is refused: on the ledgers before and
 * after, over all runs. The gate in front of it, day by day.
 */
module EquipmentEffects {
  import opened Options
  import opened Equipment
  import opened EquipmentExact

  // ----- Days -----

  /** A Beijing day lasts from 16:00 UTC of the day before for 24 hours. */
  lemma CalendarDayIff(t: int, d: Day)
    ensures CalendarDay(t) == d <==> d * 86400 - 28800 <= t < d * 86400 + 57600
  {
  }

  /** A plan takes exactly the days on which it has a moment. */
  lemma PlanDaysAreTouched(start: int, end: int, d: Day)
    requires start <= end
    ensures InWindow(d, PlanDays(start, end)) <==> exists t :: start <= t <= end && CalendarDay(t) == d
  {
    if InWindow(d, PlanDays(start, end)) {
      var first := d * 86400 - 28800;
      var t := if first < start then start else first;
      CalendarDayIff(start, CalendarDay(start));
      CalendarDayIff(end, CalendarDay(end));
      CalendarDayIff(t, d);
      assert start <= t <= end && CalendarDay(t) == d;
    }
    if t :| start <= t <= end && CalendarDay(t) == d {
      CalendarDayMonotone(start, t);
      CalendarDayMonotone(t, end);
    }
  }

  // ----- The gate -----

  /** The device is calibrated on the day. */
  predicate CalibratedOn(c: Capability, d: Day) {
    && (c.validFrom.Some? ==> CalendarDay(c.validFrom.value) <= d)
    && (c.validUntil.Some? ==> d <= CalendarDay(c.validUntil.value))
  }

  /** A window that a row may ask for: the whole plan, or days of it in order. */
  predicate Asks(i: Input, plan: (Day, Day), w: (Day, Day)) {
    match i.window
    case Whole => w == plan
    case Days(start, end) => w == (start, end) && plan.0 <= start <= end <= plan.1
    case OneSided => false
    case Malformed => false
  }

  /** The listing shows the device out today, out on one of the days, or in a way that cannot be read. */
  predicate ListedAway(v: Reservation, w: (Day, Day), today: Day) {
    match v.window
    case None => true
    case Some(out) => out.0 <= today <= out.1 || (out.0 <= w.1 && w.0 <= out.1)
  }

  /**
   * The gate lets an input through exactly if it names an active device that may leave the company, asks for days of
   * the plan, is calibrated on the first and the last of them, and the listing does not show it away. (The zero date
   * as a row's first day means that none is given; plans begin after it.)
   */
  lemma GateIff(i: Input, known: map<Device, Capability>, reserved: seq<Reservation>,
                planStart: int, planEnd: int, today: Day)
    requires planStart < planEnd && ZERO_DAY < CalendarDay(planStart)
    ensures var plan := (CalendarDay(planStart), CalendarDay(planEnd));
      InputOk(i, known, reserved, PlanDays(planStart, planEnd), today) <==>
        && i.equipment && i.id != "" && i.id in known
        && known[i.id].equipment && known[i.id].active && !known[i.id].companyOnly
        && exists w :: Asks(i, plan, w) && CalibratedOn(known[i.id], w.0) && CalibratedOn(known[i.id], w.1)
                       && forall v :: v in reserved && v.id == i.id ==> !ListedAway(v, w, today)
  {
    var plan := PlanDays(planStart, planEnd);
    CalendarDayMonotone(planStart, planEnd);
    if i.window.Whole? || (i.window.Days? && plan.0 <= i.window.start <= i.window.end <= plan.1) {
      var w := if i.window.Whole? then plan else (i.window.start, i.window.end);
      assert Asks(i, plan, w) && forall x :: Asks(i, plan, x) ==> x == w;
      assert EffectiveWindow(RowOf(i), plan) == w;
      if i.id in known {
        assert Calibrated(known[i.id], i, plan) <==> CalibratedOn(known[i.id], w.0) && CalibratedOn(known[i.id], w.1);
      }
      forall v: Reservation | v.id == i.id
        ensures ListedAway(v, w, today) <==> InUse(v, i.id, today) || Conflicts(RowOf(i), plan, v)
      {
      }
    }
  }

  /**
   * The zero date as a first day, where a plan reaches back to it, stands for the whole plan, except that calibration
   * is asked for on the row's own last day.
   */
  lemma GateOnZeroDate(i: Input, last: Day, known: map<Device, Capability>, reserved: seq<Reservation>,
                       planStart: int, planEnd: int, today: Day)
    requires i.window == Days(ZERO_DAY, last)
    ensures RowOf(i) == Row(i.id, None, false)
    ensures var plan := (CalendarDay(planStart), CalendarDay(planEnd));
      InputOk(i, known, reserved, PlanDays(planStart, planEnd), today) <==>
        && i.equipment && i.id != "" && i.id in known
        && known[i.id].equipment && known[i.id].active && !known[i.id].companyOnly
        && plan.0 <= ZERO_DAY <= last <= plan.1
        && (known[i.id].validFrom.Some? ==> CalendarDay(known[i.id].validFrom.value) <= plan.0)
        && (known[i.id].validUntil.Some? ==> last <= CalendarDay(known[i.id].validUntil.value))
        && forall v :: v in reserved && v.id == i.id ==> !ListedAway(v, plan, today)
  {
    var plan := PlanDays(planStart, planEnd);
    forall v: Reservation | v.id == i.id
      ensures ListedAway(v, plan, today) <==> InUse(v, i.id, today) || Conflicts(RowOf(i), plan, v)
    {
    }
  }

  lemma DistinctDevicesIff(rows: seq<Row>)
    ensures DistinctDevices(rows) <==>
      forall i, j :: 0 <= i < |rows| && 0 <= j < |rows| && i != j ==> rows[i].id != rows[j].id
  {
  }

  /** The row of an accepted input is not yet returned, and dated exactly if the input is. */
  lemma RowOfInput(i: Input)
    requires i.window.Days? ==> i.window.start != ZERO_DAY
    ensures var r := RowOf(i);
      r.id == i.id && !r.returned
      && r.window == if i.window.Days? then Some((i.window.start, i.window.end)) else None
  {
  }

  // ----- Transactions that only touch one item -----

  lemma PlanEffect(l: Ledger, id: ItemId, start: int, end: int)
    ensures var u := Next(l, Plan(id, start, end));
      if id in l.items && l.items[id].status == Unplanned && start < end
      then u == l.(items := l.items[id := Item(Planned, Some((start, end)), l.items[id].equipment)])
      else u == l
  {
  }

  lemma RevokePlanEffect(l: Ledger, id: ItemId)
    ensures var u := Next(l, RevokePlan(id));
      if id in l.items && l.items[id].status == Planned
      then u == l.(items := l.items[id := Item(Unplanned, None, [])]) else u == l
  {
  }

  /** The field phases and the ways between them. */
  lemma MoveEffect(l: Ledger, id: ItemId, to: Status)
    ensures var u := Next(l, Move(id, to));
      var ways := {(Preparing, InProgress), (InProgress, Preparing), (InProgress, Exception), (Exception, InProgress),
                   (InProgress, FieldCompleted), (FieldCompleted, InProgress)};
      if id in l.items && (l.items[id].status, to) in ways
      then u == l.(items := l.items[id := Item(to, l.items[id].plan, l.items[id].equipment)]) else u == l
  {
  }

  lemma EditMasterEffect(l: Ledger, device: Device, c: Capability)
    ensures Next(l, EditMaster(device, c)) == Ledger(l.items, l.index, l.master[device := c])
  {
  }

  /** None of the item's days stands in the index. */
  ghost predicate Released(l: Ledger, id: ItemId) {
    forall k :: k in l.index ==> l.index[k] != id
  }

  /** The other items' rows of the index are as they were. */
  ghost predicate OthersKept(before: Index, after: Index, id: ItemId) {
    forall k :: (k in after && after[k] != id) == (k in before && before[k] != id)
                && (k in after && after[k] != id ==> after[k] == before[k])
  }

  /** Revoking a preparation gives everything back and keeps the plan. */
  lemma RevokePreparationEffect(l: Ledger, id: ItemId)
    ensures var u := Next(l, RevokePreparation(id));
      if id in l.items && l.items[id].status == Preparing
      then && u.items == l.items[id := Item(Planned, l.items[id].plan, [])] && u.master == l.master
           && Released(u, id) && OthersKept(l.index, u.index, id)
      else u == l
  {
  }

  /** Terminating an item in exception gives its devices back; what it had stays on record. */
  lemma TerminateEffect(l: Ledger, id: ItemId)
    ensures var u := Next(l, Terminate(id));
      if id in l.items && l.items[id].status == Exception
      then && u.items == l.items[id := Item(Terminated, l.items[id].plan, l.items[id].equipment)]
           && u.master == l.master && Released(u, id) && OthersKept(l.index, u.index, id)
           && forall r :: !Live(u, id, r)
      else u == l
  {
  }

  // ----- Preparing -----

  /** The row has a window, in order and not longer than a leap year, in which the device may be used throughout. */
  predicate MayUse(master: map<Device, Capability>, item: Item, r: Row) {
    && r.id in master && master[r.id].active && !master[r.id].companyOnly
    && (r.window.Some? || item.plan.Some?)
    && var w := if r.window.Some? then r.window.value
                else (CalendarDay(item.plan.value.0), CalendarDay(item.plan.value.1));
       && w.0 <= w.1 && (r.window.Some? ==> w.1 - w.0 < 367)
       && CalibratedOn(master[r.id], w.0) && CalibratedOn(master[r.id], w.1)
  }

  /** Two rows of the list want the same device on one day. */
  ghost predicate Collide(item: Item, rows: seq<Row>) {
    exists i, j, k ::
      0 <= i < j < |rows| && Wanted(rows[i]) && Wanted(rows[j]) && Takes(item, rows[i], k) && Takes(item, rows[j], k)
  }

  /** A live row of another item has one of the devices on one of the days. */
  ghost predicate InTheWay(l: Ledger, id: ItemId, rows: seq<Row>) {
    id in l.items
    && exists r, other, q, k ::
         && r in rows && Wanted(r) && Takes(l.items[id], r, k)
         && other != id && Live(l, other, q) && Takes(l.items[other], q, k)
  }

  lemma MayUseIff(master: map<Device, Capability>, item: Item, r: Row)
    ensures MayUse(master, item, r) <==>
      Occupies(item, r).Some? && Bookable(master, r, Occupies(item, r).value)
  {
  }

  lemma LiveIsOccupying(l: Ledger, other: ItemId, k: (Device, Day))
    ensures Occupied(l, other, k) <==> exists q :: Live(l, other, q) && Takes(l.items[other], q, k)
  {
    if Occupied(l, other, k) {
      var q :| q in l.items[other].equipment && Wanted(q) && Takes(l.items[other], q, k);
      assert Live(l, other, q);
    }
    if q :| Live(l, other, q) && Takes(l.items[other], q, k) {
      assert Wanted(q);
    }
  }

  lemma InTheWayIff(l: Ledger, id: ItemId, rows: seq<Row>)
    requires id in l.items
    ensures InTheWay(l, id, rows) <==>
      !forall r, other, k ::
         r in rows && Wanted(r) && Takes(l.items[id], r, k) && other != id ==> !Occupied(l, other, k)
  {
    if r, other, q, k :| r in rows && Wanted(r) && Takes(l.items[id], r, k) && other != id && Live(l, other, q)
                         && Takes(l.items[other], q, k) {
      LiveIsOccupying(l, other, k);
    }
    if r, other, k :| r in rows && Wanted(r) && Takes(l.items[id], r, k) && other != id && Occupied(l, other, k) {
      LiveIsOccupying(l, other, k);
      var q :| Live(l, other, q) && Takes(l.items[other], q, k);
    }
  }

  /**
   * After any run, a preparation leaves the item preparing with exactly the given rows if it was planned or preparing,
   * every open row may use its device, no two of them collide and no live row of another item is in the way.
   * Otherwise it changes nothing.
   */
  lemma PrepareEffect(l: Ledger, steps: seq<Step>, id: ItemId, rows: seq<Row>)
    requires Untouched(l) && l.index == map[]
    ensures var t, u := Run(l, steps), Next(Run(l, steps), Prepare(id, rows));
      if && id in t.items && (t.items[id].status == Planned || t.items[id].status == Preparing)
         && (forall r :: r in rows && Wanted(r) ==> MayUse(t.master, t.items[id], r))
         && !Collide(t.items[id], rows) && !InTheWay(t, id, rows)
      then && u.items == t.items[id := Item(Preparing, t.items[id].plan, rows)] && u.master == t.master
           && OthersKept(t.index, u.index, id)
      else u == t
  {
    var t := Run(l, steps);
    if id in t.items {
      var item := t.items[id];
      BookedIffFree(l, steps, id, item, rows);
      InTheWayIff(t, id, rows);
      forall r
        ensures MayUse(t.master, item, r) <==> Occupies(item, r).Some? && Bookable(t.master, r, Occupies(item, r).value)
      {
        MayUseIff(t.master, item, r);
      }
      assert Collide(item, rows) <==> !Apart(item, rows);
      var free := WithoutItem(t.index, id);
      if BookRows(free, t.master, id, item, rows).Some? { BookRowsSpec(free, t.master, id, item, rows); }
    }
  }

  // ----- Returning -----

  /** The devices of live rows are in the register. */
  ghost predicate LiveIsKnown(l: Ledger) {
    forall id, r :: Live(l, id, r) ==> r.id in l.master
  }

  lemma StepKeepsKnown(l: Ledger, s: Step)
    requires LiveIsKnown(l)
    ensures LiveIsKnown(Next(l, s))
  {
    var u := Next(l, s);
    forall id, r | Live(u, id, r) ensures r.id in u.master {
      if s.Prepare? && s.id == id && u != l {
        BookRowsSpec(WithoutItem(l.index, id), l.master, id, l.items[id], s.rows);
      } else if s.Return? && s.id == id && u != l {
        var i :| 0 <= i < |u.items[id].equipment| && u.items[id].equipment[i] == r;
        assert l.items[id].equipment[i] in l.items[id].equipment;
        assert Live(l, id, l.items[id].equipment[i]);
      } else {
        assert Live(l, id, r);
      }
    }
  }

  lemma {:induction false} RunKeepsKnown(l: Ledger, steps: seq<Step>)
    requires LiveIsKnown(l)
    ensures LiveIsKnown(Run(l, steps))
  {
    if steps != [] {
      RunKeepsKnown(l, steps[..|steps| - 1]);
      StepKeepsKnown(Run(l, steps[..|steps| - 1]), steps[|steps| - 1]);
    }
  }

  /** The item is in a phase in which devices come back, and the register knows the device. */
  predicate TakesReturn(l: Ledger, id: ItemId, device: Device) {
    && id in l.items && l.items[id].status != Unplanned && l.items[id].status != Terminated
    && device != "" && device in l.master
  }

  /** A return touches nothing but the returned marks of the item's rows of the device. */
  lemma ReturnMarks(l: Ledger, id: ItemId, device: Device)
    ensures var u := Next(l, Return(id, device));
      && u.master == l.master && u.items.Keys == l.items.Keys
      && (forall other :: other in l.items && other != id ==> u.items[other] == l.items[other])
      && (id in l.items ==>
            && u.items[id].status == l.items[id].status && u.items[id].plan == l.items[id].plan
            && |u.items[id].equipment| == |l.items[id].equipment|
            && forall i :: 0 <= i < |l.items[id].equipment| ==>
                 var before := l.items[id].equipment[i];
                 u.items[id].equipment[i]
                 == before.(returned := before.returned || (TakesReturn(l, id, device) && before.id == device)))
  {
  }

  /** After any run, a return leaves no live row and no day of the device to the item, and nobody else loses one. */
  lemma ReturnReleases(l: Ledger, steps: seq<Step>, id: ItemId, device: Device)
    requires Untouched(l) && l.index == map[]
    ensures var t, u := Run(l, steps), Next(Run(l, steps), Return(id, device));
      && (forall r :: Live(u, id, r) ==> r.id != device)
      && forall k :: (k in u.index <==> k in t.index && !(t.index[k] == id && k.0 == device))
                     && (k in u.index ==> u.index[k] == t.index[k])
  {
    var t, u := Run(l, steps), Next(Run(l, steps), Return(id, device));
    RunKeepsKnown(l, steps);
    ReturnMarks(t, id, device);
    forall r | Live(u, id, r) ensures r.id != device {
      var i :| 0 <= i < |u.items[id].equipment| && u.items[id].equipment[i] == r;
      assert Live(t, id, t.items[id].equipment[i]);
    }
    forall k | k in t.index && u == t ensures !(t.index[k] == id && k.0 == device) {
      IndexIsOccupancy(l, steps, t.index[k], k);
      LiveIsOccupying(t, t.index[k], k);
      var q :| Live(t, t.index[k], q) && Takes(t.items[t.index[k]], q, k);
      assert t.index[k] == id ==> Live(u, id, q);
    }
  }

  /** A run goes from ledger to ledger, one transaction after the other. */
  lemma {:induction false} RunIs(steps: seq<Step>, ledgers: seq<Ledger>)
    requires |ledgers| == |steps| + 1 && forall i :: 0 <= i < |steps| ==> ledgers[i + 1] == Next(ledgers[i], steps[i])
    ensures Run(ledgers[0], steps) == ledgers[|steps|]
  {
    if steps != [] {
      RunIs(steps[..|steps| - 1], ledgers[..|steps|]);
    }
  }
}
