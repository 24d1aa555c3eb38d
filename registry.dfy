/**
 * The units, tenants and occupancies tables, the check-in, rate-change, unit-edit and
 * check-out operations on them, and the billing query that feeds monthly
 * billing.
 */
module Registry {
  import opened Wrappers
  import opened Calendar
  import opened Leases
  import opened Billing

  /** A row of the units table: its name and current daily rate. */
  datatype Unit = Unit(name: string, dailyRate: real)

  /** A row of the tenants table. */
  datatype Tenant = Tenant(name: string, email: string, phone: string)

  /**
   * A row of the occupancies table, with the daily rate copied from its unit
   * at check-in. Rows are never deleted, so a row's id is its position plus one.
   */
  datatype Occupancy = Occupancy(unitId: nat, tenantId: nat, start: Date, end: Option<Date>, dailyRate: real)

  /** `UnitNotFound` is `assign_unit`'s ValueError; `DuplicateUnitName` the IntegrityError of the UNIQUE unit name. */
  datatype RegistryError = UnitNotFound | DuplicateUnitName

  /** A unit other than `unitId` already carries `name`, which the units table's UNIQUE name refuses twice. */
  predicate NameTaken(units: map<nat, Unit>, unitId: nat, name: string) {
    exists id :: id in units && id != unitId && units[id].name == name
  }

  predicate WellFormedOccupancies(occupancies: seq<Occupancy>) {
    forall i :: 0 <= i < |occupancies| ==> WellFormedRange(occupancies[i].start, occupancies[i].end)
  }

  /**
   * An occupancy the billing query returns: the month's range conditions
   * select it and both inner joins find its unit and tenant rows.
   */
  predicate Joined(units: map<nat, Unit>, tenants: map<nat, Tenant>, o: Occupancy, year: int, month: int)
    requires ValidPeriod(year, month)
  {
    Selected(o.start, o.end, year, month) && o.unitId in units && o.tenantId in tenants
  }

  /** The row the query returns for a joined occupancy: the unit's current name, the tenant's name, the occupancy's own dates and rate. */
  function RowOf(units: map<nat, Unit>, tenants: map<nat, Tenant>, o: Occupancy): Record
    requires o.unitId in units && o.tenantId in tenants
  {
    Record(units[o.unitId].name, o.tenantId, tenants[o.tenantId].name, o.start, o.end, o.dailyRate)
  }

  /**
   * The billing query: the occupancies the month's range conditions select,
   * in id order, joined with their unit's and tenant's names; an occupancy
   * whose unit or tenant row is missing drops out of the join.
   */
  function SelectRecords(units: map<nat, Unit>, tenants: map<nat, Tenant>, occupancies: seq<Occupancy>, year: int, month: int): (r: seq<Record>)
    requires ValidPeriod(year, month) && WellFormedOccupancies(occupancies)
    ensures |r| <= |occupancies|
    ensures WellFormed(r)
    ensures forall i :: 0 <= i < |r| ==> Selected(r[i].start, r[i].end, year, month)
    decreases |occupancies|
  {
    if occupancies == [] then []
    else
      var n := |occupancies| - 1;
      var o := occupancies[n];
      SelectRecords(units, tenants, occupancies[..n], year, month) +
      (if Joined(units, tenants, o, year, month) then [RowOf(units, tenants, o)] else [])
  }

  /** The positions (ids minus one) of the occupancies the query returns, in id order. */
  function JoinedPositions(units: map<nat, Unit>, tenants: map<nat, Tenant>, occupancies: seq<Occupancy>, year: int, month: int): seq<int>
    requires ValidPeriod(year, month)
    decreases |occupancies|
  {
    if occupancies == [] then []
    else
      var n := |occupancies| - 1;
      JoinedPositions(units, tenants, occupancies[..n], year, month) +
      (if Joined(units, tenants, occupancies[n], year, month) then [n] else [])
  }

  /**
   * The query returns exactly the joined occupancies, each once and in id
   * order: the `j`-th row is the row of the occupancy at the `j`-th joined
   * position, the positions strictly increase, and every joined occupancy's
   * position is among them.
   */
  lemma {:induction false} SelectRecordsRows(units: map<nat, Unit>, tenants: map<nat, Tenant>,
                                              occupancies: seq<Occupancy>, year: int, month: int)
    requires ValidPeriod(year, month) && WellFormedOccupancies(occupancies)
    ensures var r, idx := SelectRecords(units, tenants, occupancies, year, month), JoinedPositions(units, tenants, occupancies, year, month);
      && |r| == |idx|
      && (forall j :: 0 <= j < |idx| ==>
            && 0 <= idx[j] < |occupancies|
            && Joined(units, tenants, occupancies[idx[j]], year, month)
            && r[j] == RowOf(units, tenants, occupancies[idx[j]]))
      && (forall j, k :: 0 <= j < k < |idx| ==> idx[j] < idx[k])
      && (forall i :: 0 <= i < |occupancies| && Joined(units, tenants, occupancies[i], year, month) ==> i in idx)
    decreases |occupancies|
  {
    if occupancies != [] {
      var n := |occupancies| - 1;
      var front := occupancies[..n];
      var o := occupancies[n];
      SelectRecordsRows(units, tenants, front, year, month);
      var rf, idxf := SelectRecords(units, tenants, front, year, month), JoinedPositions(units, tenants, front, year, month);
      var r, idx := SelectRecords(units, tenants, occupancies, year, month), JoinedPositions(units, tenants, occupancies, year, month);
      assert forall j :: 0 <= j < |idxf| ==> 0 <= idxf[j] < n && front[idxf[j]] == occupancies[idxf[j]];
      if Joined(units, tenants, o, year, month) {
        assert r == rf + [RowOf(units, tenants, o)];
        assert idx == idxf + [n];
      } else {
        assert r == rf && idx == idxf;
      }
      forall i | 0 <= i < |occupancies| && Joined(units, tenants, occupancies[i], year, month)
        ensures i in idx
      {
        if i < n {
          assert front[i] == occupancies[i];
        }
      }
    }
  }

  /**
   * End to end: the month's bill has exactly one line item per occupancy the
   * query returns, that is per occupancy the range conditions select whose
   * unit and tenant rows exist.
   */
  lemma JoinedOccupanciesBilledOnce(units: map<nat, Unit>, tenants: map<nat, Tenant>,
                                    occupancies: seq<Occupancy>, year: int, month: int)
    requires ValidPeriod(year, month) && WellFormedOccupancies(occupancies)
    ensures var b := Billed(SelectRecords(units, tenants, occupancies, year, month), year, month);
      ItemCount(b.order, b.drafts) == |JoinedPositions(units, tenants, occupancies, year, month)|
  {
    SelectRecordsRows(units, tenants, occupancies, year, month);
    ItemCountsAddUp(SelectRecords(units, tenants, occupancies, year, month), year, month);
  }

  /** The query reads unit names, never unit rates: two unit tables differing only in rates give the same rows. */
  lemma {:induction false} SelectRecordsIgnoresRates(units1: map<nat, Unit>, units2: map<nat, Unit>, tenants: map<nat, Tenant>,
                                                      occupancies: seq<Occupancy>, year: int, month: int)
    requires ValidPeriod(year, month) && WellFormedOccupancies(occupancies)
    requires units1.Keys == units2.Keys
    requires forall id :: id in units1 ==> units1[id].name == units2[id].name
    ensures SelectRecords(units1, tenants, occupancies, year, month) == SelectRecords(units2, tenants, occupancies, year, month)
    decreases |occupancies|
  {
    if occupancies != [] {
      SelectRecordsIgnoresRates(units1, units2, tenants, occupancies[..|occupancies| - 1], year, month);
    }
  }

  /**
   * Changing a unit's current rate changes no month's bill: the bill charges
   * the rates frozen on the occupancies.
   */
  lemma RateChangeKeepsBills(units: map<nat, Unit>, tenants: map<nat, Tenant>, occupancies: seq<Occupancy>,
                             unitId: nat, rate: real, year: int, month: int)
    requires ValidPeriod(year, month) && WellFormedOccupancies(occupancies) && unitId in units
    ensures var changed := units[unitId := units[unitId].(dailyRate := rate)];
      Billed(SelectRecords(changed, tenants, occupancies, year, month), year, month)
        == Billed(SelectRecords(units, tenants, occupancies, year, month), year, month)
  {
    SelectRecordsIgnoresRates(units[unitId := units[unitId].(dailyRate := rate)], units, tenants, occupancies, year, month);
  }

  /** When every occupancy's end is on or after its start, so is every selected row's. */
  lemma {:induction false} SelectRecordsValidRanges(units: map<nat, Unit>, tenants: map<nat, Tenant>,
                                                     occupancies: seq<Occupancy>, year: int, month: int)
    requires ValidPeriod(year, month) && WellFormedOccupancies(occupancies)
    requires forall i :: 0 <= i < |occupancies| ==> ValidRange(occupancies[i].start, occupancies[i].end)
    ensures forall rec :: rec in SelectRecords(units, tenants, occupancies, year, month) ==> ValidRange(rec.start, rec.end)
    decreases |occupancies|
  {
    if occupancies != [] {
      var n := |occupancies| - 1;
      SelectRecordsValidRanges(units, tenants, occupancies[..n], year, month);
      var o := occupancies[n];
      var front := SelectRecords(units, tenants, occupancies[..n], year, month);
      var r := SelectRecords(units, tenants, occupancies, year, month);
      assert ValidRange(o.start, o.end);
      if Selected(o.start, o.end, year, month) && o.unitId in units && o.tenantId in tenants {
        var rec := Record(units[o.unitId].name, o.tenantId, tenants[o.tenantId].name, o.start, o.end, o.dailyRate);
        assert r == front + [rec];
        forall i | 0 <= i < |r|
          ensures ValidRange(r[i].start, r[i].end)
        {
          if i < |front| {
            assert r[i] == front[i];
          } else {
            assert r[i] == rec;
          }
        }
      } else {
        assert r == front;
      }
    }
  }

  /**
   * When no occupancy ends before it starts, every item of every month's
   * bill is charged between one day and the whole month.
   */
  lemma ValidRangesBillWholeDays(units: map<nat, Unit>, tenants: map<nat, Tenant>,
                                 occupancies: seq<Occupancy>, year: int, month: int)
    requires ValidPeriod(year, month) && WellFormedOccupancies(occupancies)
    requires forall i :: 0 <= i < |occupancies| ==> ValidRange(occupancies[i].start, occupancies[i].end)
    ensures var b := Billed(SelectRecords(units, tenants, occupancies, year, month), year, month);
      forall t, k :: t in b.drafts && 0 <= k < |b.drafts[t].items| ==>
        1 <= b.drafts[t].items[k].days <= DaysInMonth(year, month)
  {
    SelectRecordsValidRanges(units, tenants, occupancies, year, month);
    var records := SelectRecords(units, tenants, occupancies, year, month);
    assert forall i :: 0 <= i < |records| ==> ValidRange(records[i].start, records[i].end);
    assert forall i :: 0 <= i < |records| ==> Selected(records[i].start, records[i].end, year, month);
    BilledDaysBounds(records, year, month);
  }

  /** The joined positions depend on which unit and tenant ids exist, not on those rows' contents. */
  lemma {:induction false} JoinedPositionsKeys(units1: map<nat, Unit>, units2: map<nat, Unit>, tenants: map<nat, Tenant>,
                                                occupancies: seq<Occupancy>, year: int, month: int)
    requires ValidPeriod(year, month) && units1.Keys == units2.Keys
    ensures JoinedPositions(units1, tenants, occupancies, year, month) == JoinedPositions(units2, tenants, occupancies, year, month)
    decreases |occupancies|
  {
    if occupancies != [] {
      JoinedPositionsKeys(units1, units2, tenants, occupancies[..|occupancies| - 1], year, month);
    }
  }

  /**
   * Renaming a unit keeps the month's rows and their order, and changes the
   * unit name on exactly the rows of that unit's occupancies: a regeneration
   * after the rename writes the new name into those items, whichever month
   * it regenerates.
   */
  lemma RenameChangesUnitNames(units: map<nat, Unit>, tenants: map<nat, Tenant>, occupancies: seq<Occupancy>,
                               unitId: nat, name: string, year: int, month: int)
    requires ValidPeriod(year, month) && WellFormedOccupancies(occupancies) && unitId in units
    ensures var r1 := SelectRecords(units, tenants, occupancies, year, month);
      var r2 := SelectRecords(units[unitId := units[unitId].(name := name)], tenants, occupancies, year, month);
      var idx := JoinedPositions(units, tenants, occupancies, year, month);
      && |r2| == |r1| == |idx|
      && (forall j :: 0 <= j < |idx| ==> 0 <= idx[j] < |occupancies|)
      && (forall j :: 0 <= j < |idx| ==>
            r2[j] == r1[j].(unitName := if occupancies[idx[j]].unitId == unitId then name else r1[j].unitName))
  {
    var renamed := units[unitId := units[unitId].(name := name)];
    JoinedPositionsKeys(units, renamed, tenants, occupancies, year, month);
    SelectRecordsRows(units, tenants, occupancies, year, month);
    SelectRecordsRows(renamed, tenants, occupancies, year, month);
  }

  /** The units, tenants and occupancies tables. */
  class Facility {
    var units: map<nat, Unit>
    var tenants: map<nat, Tenant>
    var occupancies: seq<Occupancy>

    ghost predicate Valid()
      reads this
    {
      WellFormedOccupancies(occupancies)
    }

    constructor (units: map<nat, Unit>, tenants: map<nat, Tenant>)
      ensures Valid() && this.units == units && this.tenants == tenants && occupancies == []
    {
      this.units, this.tenants, occupancies := units, tenants, [];
    }

    /** The rows the billing query returns for a month. */
    function Records(year: int, month: int): seq<Record>
      reads this
      requires Valid() && ValidPeriod(year, month)
    {
      SelectRecords(units, tenants, occupancies, year, month)
    }

    /** `update_unit_rate`: set a unit's current rate; an unknown id changes nothing. */
    method UpdateUnitRate(unitId: nat, rate: real)
      requires Valid()
      modifies this
      ensures Valid()
      ensures units == if unitId in old(units) then old(units)[unitId := old(units)[unitId].(dailyRate := rate)] else old(units)
      ensures tenants == old(tenants) && occupancies == old(occupancies)
      ensures forall year, month :: ValidPeriod(year, month) ==> Records(year, month) == old(Records(year, month))
    {
      if unitId in units {
        units := units[unitId := units[unitId].(dailyRate := rate)];
      }
      forall year, month | ValidPeriod(year, month)
        ensures SelectRecords(units, tenants, occupancies, year, month) == SelectRecords(old(units), tenants, occupancies, year, month)
      {
        SelectRecordsIgnoresRates(units, old(units), tenants, occupancies, year, month);
      }
    }

    /**
     * `edit_unit_submit`: set the unit's rate through `UpdateUnitRate`, which
     * commits on its own, then its name. When another unit already has the
     * name, the name update fails with `DuplicateUnitName` and only the rate
     * has changed. An unknown id changes nothing and fails nothing. The name
     * is taken as already stripped of surrounding whitespace.
     */
    method EditUnit(unitId: nat, name: string, rate: real) returns (r: Result<(), RegistryError>)
      requires Valid()
      modifies this
      ensures Valid()
      ensures r.Failure? <==> unitId in old(units) && NameTaken(old(units), unitId, name)
      ensures r.Failure? ==> r.error == DuplicateUnitName
      ensures units ==
        if unitId !in old(units) then old(units)
        else if r.Failure? then old(units)[unitId := old(units)[unitId].(dailyRate := rate)]
        else old(units)[unitId := Unit(name, rate)]
      ensures tenants == old(tenants) && occupancies == old(occupancies)
    {
      var taken := NameTaken(units, unitId, name);
      UpdateUnitRate(unitId, rate);
      if unitId in units {
        if taken {
          return Failure(DuplicateUnitName);
        }
        units := units[unitId := units[unitId].(name := name)];
      }
      return Success(());
    }

    /**
     * `assign_unit`: a new open occupancy from `start`, at the unit's current
     * rate copied onto the row; `UnitNotFound` (nothing inserted) for an
     * unknown unit. Neither the tenant's existence nor the unit's vacancy is
     * checked.
     */
    method AssignUnit(unitId: nat, tenantId: nat, start: Date) returns (r: Result<(), RegistryError>)
      requires Valid() && ValidDate(start)
      modifies this
      ensures Valid()
      ensures units == old(units) && tenants == old(tenants)
      ensures unitId !in old(units) ==> r == Failure(UnitNotFound) && occupancies == old(occupancies)
      ensures unitId in old(units) ==>
        && r == Success(())
        && occupancies == old(occupancies) + [Occupancy(unitId, tenantId, start, None, old(units)[unitId].dailyRate)]
    {
      if unitId !in units {
        return Failure(UnitNotFound);
      }
      var rate := units[unitId].dailyRate;
      occupancies := occupancies + [Occupancy(unitId, tenantId, start, None, rate)];
      return Success(());
    }

    /**
     * `end_occupancy`: set the occupancy's end date; an unknown id changes
     * nothing. The end date is not checked against the start date.
     */
    method EndOccupancy(occupancyId: nat, end: Date)
      requires Valid() && ValidDate(end)
      modifies this
      ensures Valid()
      ensures units == old(units) && tenants == old(tenants)
      ensures occupancies ==
        if 1 <= occupancyId <= |old(occupancies)|
        then old(occupancies)[occupancyId - 1 := old(occupancies)[occupancyId - 1].(end := Some(end))]
        else old(occupancies)
    {
      if 1 <= occupancyId <= |occupancies| {
        occupancies := occupancies[occupancyId - 1 := occupancies[occupancyId - 1].(end := Some(end))];
      }
    }
  }
}
