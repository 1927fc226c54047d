/**
 * The reservation index never blocks a free device: over all runs it holds exactly the days that live rows
 * occupy, so a preparation is refused for a day only when another live row has it.
 */
module EquipmentExact {
  import opened Equipment
  import opened Options

  /** A row that a booking has to place. */
  predicate Wanted(r: Row) {
    !r.returned && r.id != ""
  }

  /** The row occupies this device on this day. */
  predicate Takes(item: Item, r: Row, k: (Device, Day)) {
    r.id == k.0 && Occupies(item, r).Some? && InWindow(k.1, Occupies(item, r).value)
  }

  // ----- What a booking adds -----

  /** A successful booking adds exactly the days of the rows it placed. */
  lemma {:induction false} BookRowsAdds(index: Index, master: map<Device, Capability>, id: ItemId, item: Item,
                                       rows: seq<Row>, k: (Device, Day))
    requires BookRows(index, master, id, item, rows).Some?
    ensures k in BookRows(index, master, id, item, rows).value
      <==> k in index || exists r :: r in rows && Wanted(r) && Takes(item, r, k)
  {
    if rows != [] {
      var front, last := rows[..|rows| - 1], rows[|rows| - 1];
      BookRowsAdds(index, master, id, item, front, k);
      assert forall r :: r in rows <==> r in front || r == last;
      if Wanted(last) {
        var w := Occupies(item, last).value;
        BookDaysSpec(BookRows(index, master, id, item, front).value, last.id, id, w.0, w.1);
      }
    }
  }

  ghost predicate Placeable(index: Index, master: map<Device, Capability>, item: Item, r: Row) {
    && Occupies(item, r).Some? && Bookable(master, r, Occupies(item, r).value)
    && forall k :: Takes(item, r, k) ==> k !in index
  }

  /** No two rows of the list want one device on one day. */
  ghost predicate Apart(item: Item, rows: seq<Row>) {
    forall i, j, k ::
      0 <= i < j < |rows| && Wanted(rows[i]) && Wanted(rows[j]) && Takes(item, rows[i], k) ==> !Takes(item, rows[j], k)
  }

  ghost predicate AllPlaceable(index: Index, master: map<Device, Capability>, item: Item, rows: seq<Row>) {
    forall r :: r in rows && Wanted(r) ==> Placeable(index, master, item, r)
  }

  /** Placing one more row succeeds exactly when its days are free of the index and of the rows before it. */
  lemma LastRowFits(index: Index, master: map<Device, Capability>, id: ItemId, item: Item, rows: seq<Row>)
    requires rows != [] && Wanted(rows[|rows| - 1])
    requires BookRows(index, master, id, item, rows[..|rows| - 1]).Some?
    ensures var front, last := rows[..|rows| - 1], rows[|rows| - 1];
      BookRows(index, master, id, item, rows).Some? <==>
        && Placeable(index, master, item, last)
        && forall r, k :: r in front && Wanted(r) && Takes(item, r, k) ==> !Takes(item, last, k)
  {
    var front, last := rows[..|rows| - 1], rows[|rows| - 1];
    var rest := BookRows(index, master, id, item, front).value;
    if Occupies(item, last).Some? && Bookable(master, last, Occupies(item, last).value) {
      var w := Occupies(item, last).value;
      BookDaysSpec(rest, last.id, id, w.0, w.1);
      forall k ensures k in rest <==> k in index || exists r :: r in front && Wanted(r) && Takes(item, r, k) {
        BookRowsAdds(index, master, id, item, front, k);
      }
      if BookRows(index, master, id, item, rows).None? {
        var d :| w.0 <= d <= w.1 && (last.id, d) in rest;
        assert Takes(item, last, (last.id, d));
      }
    }
  }

  lemma ApartGrows(item: Item, front: seq<Row>, last: Row)
    ensures Apart(item, front + [last]) <==>
      && Apart(item, front)
      && (Wanted(last) ==> forall r, k :: r in front && Wanted(r) && Takes(item, r, k) ==> !Takes(item, last, k))
  {
    var rows := front + [last];
    assert forall i :: 0 <= i < |front| ==> rows[i] == front[i];
    if Apart(item, rows) && Wanted(last) {
      forall r, k | r in front && Wanted(r) && Takes(item, r, k) ensures !Takes(item, last, k) {
        var i :| 0 <= i < |front| && front[i] == r;
        assert rows[i] == r && rows[|front|] == last;
      }
    }
    if Apart(item, rows) {
      forall i, j, k | 0 <= i < j < |front| && Wanted(front[i]) && Wanted(front[j]) && Takes(item, front[i], k)
        ensures !Takes(item, front[j], k)
      {
        assert rows[i] == front[i] && rows[j] == front[j];
      }
    }
  }

  /** A list is booked exactly when every row can be placed and no two rows collide. */
  lemma {:induction false} BookRowsIff(index: Index, master: map<Device, Capability>, id: ItemId, item: Item, rows: seq<Row>)
    ensures BookRows(index, master, id, item, rows).Some?
      <==> AllPlaceable(index, master, item, rows) && Apart(item, rows)
  {
    if rows != [] {
      var front, last := rows[..|rows| - 1], rows[|rows| - 1];
      BookRowsIff(index, master, id, item, front);
      assert rows == front + [last];
      ApartGrows(item, front, last);
      assert forall r :: r in rows <==> r in front || r == last;
      if BookRows(index, master, id, item, front).Some? && Wanted(last) {
        LastRowFits(index, master, id, item, rows);
      }
    }
  }

  // ----- The index holds live days only -----

  /** Some live row of the item occupies the device on the day. */
  ghost predicate Occupied(l: Ledger, id: ItemId, k: (Device, Day)) {
    id in l.items && Holding(l.items[id].status)
    && exists r :: r in l.items[id].equipment && Wanted(r) && Takes(l.items[id], r, k)
  }

  ghost predicate Backed(l: Ledger) {
    forall k :: k in l.index ==> Occupied(l, l.index[k], k)
  }

  lemma PrepareKeepsBacked(l: Ledger, id: ItemId, rows: seq<Row>)
    requires Backed(l)
    ensures Backed(Next(l, Prepare(id, rows)))
  {
    var t := Next(l, Prepare(id, rows));
    if t != l {
      var free, item := WithoutItem(l.index, id), l.items[id];
      BookRowsSpec(free, l.master, id, item, rows);
      forall k | k in t.index ensures Occupied(t, t.index[k], k) {
        BookRowsAdds(free, l.master, id, item, rows, k);
        if k in free {
          assert Occupied(l, l.index[k], k);
        } else {
          var r :| r in rows && Wanted(r) && Takes(item, r, k);
          assert r in t.items[id].equipment && Takes(t.items[id], r, k);
        }
      }
    }
  }

  lemma ReturnKeepsBacked(l: Ledger, id: ItemId, device: Device)
    requires Backed(l)
    ensures Backed(Next(l, Return(id, device)))
  {
    var t := Next(l, Return(id, device));
    if t != l {
      forall k | k in t.index ensures Occupied(t, t.index[k], k) {
        assert Occupied(l, l.index[k], k);
        if t.index[k] == id {
          var r :| r in l.items[id].equipment && Wanted(r) && Takes(l.items[id], r, k);
          var i :| 0 <= i < |l.items[id].equipment| && l.items[id].equipment[i] == r;
          assert t.items[id].equipment[i] == r;
          assert Takes(t.items[id], r, k);
        }
      }
    }
  }

  /** Steps that only drop an item's index rows, or change a status among the holding ones. */
  lemma OtherStepKeepsBacked(l: Ledger, s: Step)
    requires Backed(l) && !s.Prepare? && !s.Return?
    ensures Backed(Next(l, s))
  {
    var t := Next(l, s);
    forall k | k in t.index ensures Occupied(t, t.index[k], k) {
      assert Occupied(l, l.index[k], k);
      var id := l.index[k];
      var r :| r in l.items[id].equipment && Wanted(r) && Takes(l.items[id], r, k);
      assert r in t.items[id].equipment && Takes(t.items[id], r, k);
    }
  }

  lemma {:induction false} RunKeepsBacked(l: Ledger, steps: seq<Step>)
    requires Backed(l)
    ensures Backed(Run(l, steps))
  {
    if steps != [] {
      var before, s := Run(l, steps[..|steps| - 1]), steps[|steps| - 1];
      RunKeepsBacked(l, steps[..|steps| - 1]);
      match s {
        case Prepare(id, rows) => PrepareKeepsBacked(before, id, rows);
        case Return(id, device) => ReturnKeepsBacked(before, id, device);
        case Plan(_, _, _) => OtherStepKeepsBacked(before, s);
        case RevokePlan(_) => OtherStepKeepsBacked(before, s);
        case RevokePreparation(_) => OtherStepKeepsBacked(before, s);
        case Move(_, _) => OtherStepKeepsBacked(before, s);
        case Terminate(_) => OtherStepKeepsBacked(before, s);
        case EditMaster(_, _) => OtherStepKeepsBacked(before, s);
      }
    }
  }

  /** Over all runs from an empty index, a day stands in the index exactly while a live row of its item occupies it. */
  lemma IndexIsOccupancy(l: Ledger, steps: seq<Step>, id: ItemId, k: (Device, Day))
    requires Untouched(l) && l.index == map[]
    ensures var t := Run(l, steps); (k in t.index && t.index[k] == id) <==> Occupied(t, id, k)
  {
    RunKeepsCover(l, steps);
    RunKeepsBacked(l, steps);
    var t := Run(l, steps);
    if Occupied(t, id, k) {
      var r :| r in t.items[id].equipment && Wanted(r) && Takes(t.items[id], r, k);
      assert Live(t, id, r) && Owns(t, id, r);
    }
  }

  /**
   * Over all runs a preparation is booked exactly when every row can be booked by itself, no two of its rows
   * collide, and no live row of another item has one of its devices on one of its days.
   */
  lemma BookedIffFree(l: Ledger, steps: seq<Step>, id: ItemId, item: Item, rows: seq<Row>)
    requires Untouched(l) && l.index == map[]
    ensures var t := Run(l, steps);
      BookRows(WithoutItem(t.index, id), t.master, id, item, rows).Some? <==>
        && (forall r :: r in rows && Wanted(r) ==>
              Occupies(item, r).Some? && Bookable(t.master, r, Occupies(item, r).value))
        && Apart(item, rows)
        && forall r, other, k ::
             r in rows && Wanted(r) && Takes(item, r, k) && other != id ==> !Occupied(t, other, k)
  {
    var t := Run(l, steps);
    var free := WithoutItem(t.index, id);
    BookRowsIff(free, t.master, id, item, rows);
    forall k ensures k in free <==> exists other :: other != id && Occupied(t, other, k) {
      if k in free { IndexIsOccupancy(l, steps, t.index[k], k); }
      forall other | other != id && Occupied(t, other, k) ensures k in free {
        IndexIsOccupancy(l, steps, other, k);
      }
    }
  }
}
