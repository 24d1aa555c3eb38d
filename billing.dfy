/**
 * Monthly billing: each row of the billing query becomes one line item,
 * filed under its tenant, and each tenant's total is the sum of its charges.
 */
module Billing {
  import opened Wrappers
  import opened Calendar
  import opened Leases

  /**
   * One row of the billing query: an occupancy's dates and the daily rate
   * frozen on it at check-in, joined with its unit's and tenant's names.
   */
  datatype Record = Record(
    unitName: string,
    tenantId: int,
    tenantName: string,
    start: Date,
    end: Option<Date>,
    dailyRate: real)

  /** A line item `{unit_name, days, daily_rate, charge}`. */
  datatype Item = Item(unitName: string, days: int, dailyRate: real, charge: real)

  /** A tenant's entry `{tenant_name, items, total}`. */
  datatype Draft = Draft(tenantName: string, items: seq<Item>, total: real)

  /** The billing dict: entries by tenant id, and the ids in the dict's insertion order. */
  datatype Bill = Bill(order: seq<int>, drafts: map<int, Draft>)

  /** Every row's dates parse. */
  predicate WellFormed(records: seq<Record>) {
    forall i :: 0 <= i < |records| ==> WellFormedRange(records[i].start, records[i].end)
  }

  /** The line item a record yields: its overlap days at its own frozen rate. */
  function ItemFor(r: Record, year: int, month: int): Item
    requires ValidPeriod(year, month) && WellFormedRange(r.start, r.end)
  {
    var days := OverlapDays(r.start, r.end, year, month);
    Item(r.unitName, days, r.dailyRate, days as real * r.dailyRate)
  }

  /** The items of one tenant's records, in the order the records come. */
  function ItemsFor(records: seq<Record>, tenant: int, year: int, month: int): seq<Item>
    requires ValidPeriod(year, month) && WellFormed(records)
    decreases |records|
  {
    if records == [] then []
    else
      var n := |records| - 1;
      ItemsFor(records[..n], tenant, year, month)
        + (if records[n].tenantId == tenant then [ItemFor(records[n], year, month)] else [])
  }

  /** The sum of the items' charges, added up from the first item on. */
  function Total(items: seq<Item>): real
    decreases |items|
  {
    if items == [] then 0.0 else Total(items[..|items| - 1]) + items[|items| - 1].charge
  }

  /** The tenants that have at least one record. */
  function TenantIds(records: seq<Record>): set<int> {
    set i | 0 <= i < |records| :: records[i].tenantId
  }

  /** The tenants in the order their first record comes. */
  function TenantOrder(records: seq<Record>): seq<int>
    decreases |records|
  {
    if records == [] then []
    else
      var n := |records| - 1;
      var prior := TenantOrder(records[..n]);
      if records[n].tenantId in prior then prior else prior + [records[n].tenantId]
  }

  /** The tenant name carried by the tenant's first record. */
  function NameFor(records: seq<Record>, tenant: int): string
    requires tenant in TenantIds(records)
    decreases |records|
  {
    var n := |records| - 1;
    if tenant in TenantIds(records[..n]) then NameFor(records[..n], tenant)
    else records[n].tenantName
  }

  /** The entry for one tenant with a record: its first record's name, its items and their total. */
  function DraftFor(records: seq<Record>, tenant: int, year: int, month: int): Draft
    requires ValidPeriod(year, month) && WellFormed(records) && tenant in TenantIds(records)
  {
    var items := ItemsFor(records, tenant, year, month);
    Draft(NameFor(records, tenant), items, Total(items))
  }

  /** An entry with one more item appended and its charge added to the total. */
  function Extend(d: Draft, item: Item): Draft {
    Draft(d.tenantName, d.items + [item], d.total + item.charge)
  }

  /**
   * What billing a month yields: one entry per tenant with a record, holding
   * that tenant's items in record order and their summed charges.
   */
  function Billed(records: seq<Record>, year: int, month: int): Bill
    requires ValidPeriod(year, month) && WellFormed(records)
  {
    Bill(TenantOrder(records), map t | t in TenantIds(records) :: DraftFor(records, t, year, month))
  }

  /**
   * `compute_billing`: the error `date()` raises for a bad month, or one pass
   * over the query's rows that counts each row's days in the month, creates
   * a tenant's entry on its first row, appends the row's item and adds its
   * charge to the tenant's total.
   */
  method ComputeBilling(year: int, month: int, records: seq<Record>) returns (r: Result<Bill, CalendarError>)
    requires WellFormed(records)
    ensures r.Failure? <==> !ValidPeriod(year, month)
    ensures r.Success? ==> r.value == Billed(records, year, month)
  {
    var bounds := MonthBounds(year, month);
    if bounds.Failure? {
      return Failure(bounds.error);
    }
    var order: seq<int> := [];
    var drafts: map<int, Draft> := map[];
    for i := 0 to |records|
      invariant order == TenantOrder(records[..i])
      invariant drafts == Billed(records[..i], year, month).drafts
    {
      var rec := records[i];
      var item := ItemFor(rec, year, month);
      BilledStep(records[..i], rec, year, month);
      PrefixStep(records, i);
      var entry := Draft(rec.tenantName, [], 0.0);
      if rec.tenantId in drafts {
        entry := drafts[rec.tenantId];
      } else {
        order := order + [rec.tenantId];
      }
      drafts := drafts[rec.tenantId := Extend(entry, item)];
    }
    assert records[..|records|] == records;
    return Success(Bill(order, drafts));
  }

  /** A prefix one element longer is the prefix with that element appended. */
  lemma PrefixStep<T>(s: seq<T>, i: int)
    requires 0 <= i < |s|
    ensures s[..i + 1] == s[..i] + [s[i]]
  {
  }

  /** The tenant order lists each tenant with a record exactly once. */
  lemma {:induction false} TenantOrderDistinct(records: seq<Record>)
    ensures forall t :: t in TenantOrder(records) <==> t in TenantIds(records)
    ensures forall i, j :: 0 <= i < j < |TenantOrder(records)| ==> TenantOrder(records)[i] != TenantOrder(records)[j]
    decreases |records|
  {
    if records != [] {
      var n := |records| - 1;
      TenantOrderDistinct(records[..n]);
      assert records == records[..n] + [records[n]];
      TenantIdsAppend(records[..n], records[n]);
    }
  }

  lemma TenantIdsAppend(records: seq<Record>, r: Record)
    ensures TenantIds(records + [r]) == TenantIds(records) + {r.tenantId}
  {
    var all := records + [r];
    forall t | t in TenantIds(all) ensures t in TenantIds(records) + {r.tenantId} {
      var i :| 0 <= i < |all| && all[i].tenantId == t;
      if i < |records| {
        assert records[i].tenantId == t;
      }
    }
    forall t | t in TenantIds(records) ensures t in TenantIds(all) {
      var i :| 0 <= i < |records| && records[i].tenantId == t;
      assert all[i].tenantId == t;
    }
    assert all[|records|].tenantId == r.tenantId;
  }

  lemma TotalAppend(items: seq<Item>, item: Item)
    ensures Total(items + [item]) == Total(items) + item.charge
  {
    assert (items + [item])[..|items|] == items;
  }

  /** One more record changes only its own tenant's entry. */
  lemma DraftForStep(records: seq<Record>, r: Record, tenant: int, year: int, month: int)
    requires ValidPeriod(year, month) && WellFormed(records) && WellFormedRange(r.start, r.end)
    requires tenant in TenantIds(records)
    ensures WellFormed(records + [r]) && tenant in TenantIds(records + [r])
    ensures DraftFor(records + [r], tenant, year, month) ==
      if tenant == r.tenantId then Extend(DraftFor(records, tenant, year, month), ItemFor(r, year, month))
      else DraftFor(records, tenant, year, month)
  {
    var all := records + [r];
    assert all[..|records|] == records && all[|records|] == r;
    TenantIdsAppend(records, r);
    var items := ItemsFor(records, tenant, year, month);
    assert NameFor(all, tenant) == NameFor(records, tenant);
    if tenant == r.tenantId {
      assert ItemsFor(all, tenant, year, month) == items + [ItemFor(r, year, month)];
      TotalAppend(items, ItemFor(r, year, month));
    } else {
      assert ItemsFor(all, tenant, year, month) == items;
    }
  }

  /** A record of a tenant not seen before starts that tenant's entry. */
  lemma DraftForFirst(records: seq<Record>, r: Record, year: int, month: int)
    requires ValidPeriod(year, month) && WellFormed(records) && WellFormedRange(r.start, r.end)
    requires r.tenantId !in TenantIds(records)
    ensures WellFormed(records + [r]) && r.tenantId in TenantIds(records + [r])
    ensures DraftFor(records + [r], r.tenantId, year, month) ==
      Extend(Draft(r.tenantName, [], 0.0), ItemFor(r, year, month))
  {
    var all := records + [r];
    assert all[..|records|] == records;
    TenantIdsAppend(records, r);
    ItemsForAbsent(records, r.tenantId, year, month);
    TotalAppend([], ItemFor(r, year, month));
  }

  lemma {:induction false} ItemsForAbsent(records: seq<Record>, tenant: int, year: int, month: int)
    requires ValidPeriod(year, month) && WellFormed(records) && tenant !in TenantIds(records)
    ensures ItemsFor(records, tenant, year, month) == []
    decreases |records|
  {
    if records != [] {
      var n := |records| - 1;
      assert records == records[..n] + [records[n]];
      TenantIdsAppend(records[..n], records[n]);
      ItemsForAbsent(records[..n], tenant, year, month);
    }
  }

  /** One more record appends its tenant to the order if the tenant is new. */
  lemma BilledStepOrder(records: seq<Record>, r: Record, year: int, month: int)
    requires ValidPeriod(year, month) && WellFormed(records) && WellFormedRange(r.start, r.end)
    ensures WellFormed(records + [r])
    ensures
      var before, after := Billed(records, year, month), Billed(records + [r], year, month);
      && (r.tenantId in before.drafts <==> r.tenantId in before.order)
      && after.order == (if r.tenantId in before.order then before.order else before.order + [r.tenantId])
  {
    var all := records + [r];
    assert all[..|records|] == records && all[|records|] == r;
    TenantOrderDistinct(records);
  }

  /** One more record changes only its tenant's entry, creating it if new. */
  lemma BilledStepDrafts(records: seq<Record>, r: Record, year: int, month: int)
    requires ValidPeriod(year, month) && WellFormed(records) && WellFormedRange(r.start, r.end)
    ensures WellFormed(records + [r])
    ensures
      var before, after := Billed(records, year, month), Billed(records + [r], year, month);
      var entry := if r.tenantId in before.drafts then before.drafts[r.tenantId] else Draft(r.tenantName, [], 0.0);
      after.drafts == before.drafts[r.tenantId := Extend(entry, ItemFor(r, year, month))]
  {
    var all := records + [r];
    TenantIdsAppend(records, r);
    var before, after := Billed(records, year, month), Billed(all, year, month);
    var entry := if r.tenantId in before.drafts then before.drafts[r.tenantId] else Draft(r.tenantName, [], 0.0);
    var expected := before.drafts[r.tenantId := Extend(entry, ItemFor(r, year, month))];
    BilledKeys(records, year, month);
    BilledKeys(all, year, month);
    forall t | t in after.drafts
      ensures t in expected && after.drafts[t] == expected[t]
    {
      BilledStepEntry(records, r, t, year, month);
    }
    SameEntries(after.drafts, expected);
  }

  lemma SameEntries(a: map<int, Draft>, b: map<int, Draft>)
    requires a.Keys == b.Keys
    requires forall t :: t in a ==> a[t] == b[t]
    ensures a == b
  {
    forall t | t in a
      ensures t in b && a[t] == b[t]
    {
    }
    assert a.Keys == b.Keys;
  }

  /** One tenant's entry after one more record. */
  lemma BilledStepEntry(records: seq<Record>, r: Record, t: int, year: int, month: int)
    requires ValidPeriod(year, month) && WellFormed(records) && WellFormedRange(r.start, r.end)
    requires t in TenantIds(records + [r])
    ensures WellFormed(records + [r])
    ensures
      var before, after := Billed(records, year, month), Billed(records + [r], year, month);
      var entry := if r.tenantId in before.drafts then before.drafts[r.tenantId] else Draft(r.tenantName, [], 0.0);
      && t in after.drafts
      && after.drafts[t] == if t == r.tenantId then Extend(entry, ItemFor(r, year, month)) else before.drafts[t]
  {
    var all := records + [r];
    TenantIdsAppend(records, r);
    BilledAt(all, t, year, month);
    if t in TenantIds(records) {
      BilledAt(records, t, year, month);
      DraftForStep(records, r, t, year, month);
    } else {
      DraftForFirst(records, r, year, month);
    }
  }

  lemma BilledKeys(records: seq<Record>, year: int, month: int)
    requires ValidPeriod(year, month) && WellFormed(records)
    ensures Billed(records, year, month).drafts.Keys == TenantIds(records)
  {
  }

  lemma BilledAt(records: seq<Record>, t: int, year: int, month: int)
    requires ValidPeriod(year, month) && WellFormed(records) && t in TenantIds(records)
    ensures Billed(records, year, month).drafts[t] == DraftFor(records, t, year, month)
  {
  }

  /** Billing one more record changes only that record's tenant's entry, creating it if new. */
  lemma BilledStep(records: seq<Record>, r: Record, year: int, month: int)
    requires ValidPeriod(year, month) && WellFormed(records) && WellFormedRange(r.start, r.end)
    ensures WellFormed(records + [r])
    ensures
      var before, after := Billed(records, year, month), Billed(records + [r], year, month);
      var entry := if r.tenantId in before.drafts then before.drafts[r.tenantId] else Draft(r.tenantName, [], 0.0);
      && (r.tenantId in before.drafts <==> r.tenantId in before.order)
      && after.order == (if r.tenantId in before.order then before.order else before.order + [r.tenantId])
      && after.drafts == before.drafts[r.tenantId := Extend(entry, ItemFor(r, year, month))]
  {
    BilledStepOrder(records, r, year, month);
    BilledStepDrafts(records, r, year, month);
  }

  /** A tenant has an entry exactly when some record is theirs. */
  lemma BilledEntries(records: seq<Record>, year: int, month: int)
    requires ValidPeriod(year, month) && WellFormed(records)
    ensures forall t :: t in Billed(records, year, month).drafts <==>
      exists i :: 0 <= i < |records| && records[i].tenantId == t
  {
  }

  /** The entries' order lists every tenant with an entry, each once. */
  lemma BilledOrder(records: seq<Record>, year: int, month: int)
    requires ValidPeriod(year, month) && WellFormed(records)
    ensures var b := Billed(records, year, month);
      && (forall t :: t in b.order <==> t in b.drafts)
      && (forall i :: 0 <= i < |b.order| ==> b.order[i] in b.drafts)
      && (forall i, j :: 0 <= i < j < |b.order| ==> b.order[i] != b.order[j])
  {
    TenantOrderDistinct(records);
  }

  /** A tenant's entry is named after the tenant's first record. */
  lemma {:induction false} NameForFirst(records: seq<Record>, tenant: int)
    requires tenant in TenantIds(records)
    ensures exists i :: (0 <= i < |records| && records[i].tenantId == tenant
      && NameFor(records, tenant) == records[i].tenantName
      && forall j :: 0 <= j < i ==> records[j].tenantId != tenant)
    decreases |records|
  {
    var n := |records| - 1;
    assert records == records[..n] + [records[n]];
    TenantIdsAppend(records[..n], records[n]);
    if tenant in TenantIds(records[..n]) {
      NameForFirst(records[..n], tenant);
      var i :| 0 <= i < n && records[..n][i].tenantId == tenant
        && NameFor(records[..n], tenant) == records[..n][i].tenantName
        && forall j :: 0 <= j < i ==> records[..n][j].tenantId != tenant;
      assert records[i] == records[..n][i];
    } else {
      forall j | 0 <= j < n ensures records[j].tenantId != tenant {
        assert records[..n][j] == records[j];
      }
    }
  }

  /**
   * Items keep the order in which records are supplied: the items of two
   * batches of records are the first batch's items followed by the second's.
   */
  lemma {:induction false} ItemsForConcat(a: seq<Record>, b: seq<Record>, tenant: int, year: int, month: int)
    requires ValidPeriod(year, month) && WellFormed(a) && WellFormed(b)
    ensures WellFormed(a + b)
    ensures ItemsFor(a + b, tenant, year, month) == ItemsFor(a, tenant, year, month) + ItemsFor(b, tenant, year, month)
    decreases |b|
  {
    if b == [] {
      assert a + b == a;
    } else {
      var n := |b| - 1;
      assert (a + b)[..|a| + n] == a + b[..n];
      ItemsForConcat(a, b[..n], tenant, year, month);
    }
  }

  /** The item is the one some record of the tenant yields. */
  predicate FromTenantRecord(records: seq<Record>, tenant: int, item: Item, year: int, month: int)
    requires ValidPeriod(year, month) && WellFormed(records)
  {
    exists i :: 0 <= i < |records| && records[i].tenantId == tenant && item == ItemFor(records[i], year, month)
  }

  /**
   * Every item of a tenant comes from one of that tenant's own records: its
   * unit name, its days in the month, the daily rate frozen on the record and
   * the charge days times that rate.
   */
  lemma {:induction false} ItemsForSource(records: seq<Record>, tenant: int, year: int, month: int)
    requires ValidPeriod(year, month) && WellFormed(records)
    ensures forall k :: 0 <= k < |ItemsFor(records, tenant, year, month)| ==>
      FromTenantRecord(records, tenant, ItemsFor(records, tenant, year, month)[k], year, month)
    decreases |records|
  {
    if records != [] {
      var n := |records| - 1;
      var items := ItemsFor(records, tenant, year, month);
      var prior := ItemsFor(records[..n], tenant, year, month);
      ItemsForSource(records[..n], tenant, year, month);
      forall k | 0 <= k < |items|
        ensures FromTenantRecord(records, tenant, items[k], year, month)
      {
        if k < |prior| {
          assert items[k] == prior[k];
          assert FromTenantRecord(records[..n], tenant, prior[k], year, month);
          var i :| 0 <= i < n && records[..n][i].tenantId == tenant && prior[k] == ItemFor(records[..n][i], year, month);
          assert records[i] == records[..n][i];
        } else {
          assert records[n].tenantId == tenant && items[k] == ItemFor(records[n], year, month);
        }
      }
    }
  }

  /** The number of items filed under the listed tenants; a tenant without an entry has none. */
  function ItemCount(order: seq<int>, drafts: map<int, Draft>): nat
    decreases |order|
  {
    if order == [] then 0
    else
      var n := |order| - 1;
      ItemCount(order[..n], drafts) + (if order[n] in drafts then |drafts[order[n]].items| else 0)
  }

  lemma {:induction false} ItemCountOther(order: seq<int>, drafts: map<int, Draft>, t: int, d: Draft)
    requires t !in order
    ensures ItemCount(order, drafts[t := d]) == ItemCount(order, drafts)
    decreases |order|
  {
    if order != [] {
      ItemCountOther(order[..|order| - 1], drafts, t, d);
    }
  }

  lemma {:induction false} ItemCountBump(order: seq<int>, drafts: map<int, Draft>, t: int, d: Draft)
    requires forall i, j :: 0 <= i < j < |order| ==> order[i] != order[j]
    requires t in order && t in drafts && |d.items| == |drafts[t].items| + 1
    ensures ItemCount(order, drafts[t := d]) == ItemCount(order, drafts) + 1
    decreases |order|
  {
    var n := |order| - 1;
    if order[n] == t {
      assert t !in order[..n];
      ItemCountOther(order[..n], drafts, t, d);
    } else {
      assert t in order[..n];
      ItemCountBump(order[..n], drafts, t, d);
    }
  }

  /** Filing one more item under tenant t, listing t if new, adds one to the count. */
  lemma ItemCountStep(order: seq<int>, drafts: map<int, Draft>, t: int, d: Draft)
    requires forall i, j :: 0 <= i < j < |order| ==> order[i] != order[j]
    requires t in order ==> t in drafts
    requires |d.items| == (if t in order then |drafts[t].items| else 0) + 1
    ensures ItemCount(if t in order then order else order + [t], drafts[t := d]) == ItemCount(order, drafts) + 1
  {
    if t in order {
      ItemCountBump(order, drafts, t, d);
    } else {
      var after := order + [t];
      assert after[..|after| - 1] == order;
      ItemCountOther(order, drafts, t, d);
    }
  }

  /**
   * Every record yields exactly one item: summed over the tenants in the
   * entry order (each tenant with an entry, once), the entries hold as many
   * items as there are records.
   */
  lemma {:induction false} ItemCountsAddUp(records: seq<Record>, year: int, month: int)
    requires ValidPeriod(year, month) && WellFormed(records)
    ensures var b := Billed(records, year, month);
      ItemCount(b.order, b.drafts) == |records|
    decreases |records|
  {
    if records != [] {
      var n := |records| - 1;
      var rs, r := records[..n], records[n];
      assert records == rs + [r];
      ItemCountsAddUp(rs, year, month);
      BilledStep(rs, r, year, month);
      TenantOrderDistinct(rs);
      var before := Billed(rs, year, month);
      var entry := if r.tenantId in before.drafts then before.drafts[r.tenantId] else Draft(r.tenantName, [], 0.0);
      ItemCountStep(before.order, before.drafts, r.tenantId, Extend(entry, ItemFor(r, year, month)));
    }
  }

  /**
   * When every record is one the query selects and its range is valid, every
   * item is charged between one day and the whole month.
   */
  lemma BilledDaysBounds(records: seq<Record>, year: int, month: int)
    requires ValidPeriod(year, month) && WellFormed(records)
    requires forall i :: 0 <= i < |records| ==>
      ValidRange(records[i].start, records[i].end) && Selected(records[i].start, records[i].end, year, month)
    ensures var b := Billed(records, year, month);
      forall t, k :: t in b.drafts && 0 <= k < |b.drafts[t].items| ==>
        1 <= b.drafts[t].items[k].days <= DaysInMonth(year, month)
  {
    var b := Billed(records, year, month);
    forall t, k | t in b.drafts && 0 <= k < |b.drafts[t].items|
      ensures 1 <= b.drafts[t].items[k].days <= DaysInMonth(year, month)
    {
      ItemsForSource(records, t, year, month);
      assert FromTenantRecord(records, t, ItemsFor(records, t, year, month)[k], year, month);
      var i :| 0 <= i < |records| && records[i].tenantId == t
        && ItemsFor(records, t, year, month)[k] == ItemFor(records[i], year, month);
      OverlapDaysBounds(records[i].start, records[i].end, year, month);
    }
  }

  /** The two leases of the February 2024 example are charged 29 and 6 days. */
  lemma LeapFebruaryDays()
    ensures OverlapDays(Date(2024, 2, 1), None, 2024, 2) == 29
    ensures OverlapDays(Date(2024, 2, 15), Some(Date(2024, 2, 20)), 2024, 2) == 6
  {
    OpenLeaseOverlap(Date(2024, 2, 1), 2024, 2);
    OrdinalInMonth(Date(2024, 2, 15));
    OrdinalInMonth(Date(2024, 2, 20));
  }

  /** The leases of the February 2024 example: both of tenant 1, rates 10.00 and 20.00. */
  function LeapFebruaryRecords(): seq<Record> {
    [Record("U1", 1, "T1", Date(2024, 2, 1), None, 10.0),
     Record("U2", 1, "T1", Date(2024, 2, 15), Some(Date(2024, 2, 20)), 20.0)]
  }

  lemma LeapFebruaryItems()
    ensures WellFormed(LeapFebruaryRecords())
    ensures ItemsFor(LeapFebruaryRecords(), 1, 2024, 2) == [Item("U1", 29, 10.0, 290.0), Item("U2", 6, 20.0, 120.0)]
  {
    var rs := LeapFebruaryRecords();
    LeapFebruaryDays();
    assert ItemFor(rs[0], 2024, 2) == Item("U1", 29, 10.0, 290.0);
    assert ItemFor(rs[1], 2024, 2) == Item("U2", 6, 20.0, 120.0);
    assert rs[..1][..0] == [];
  }

  lemma LeapFebruaryTotal()
    ensures Total([Item("U1", 29, 10.0, 290.0), Item("U2", 6, 20.0, 120.0)]) == 410.0
  {
    var ia, ib := Item("U1", 29, 10.0, 290.0), Item("U2", 6, 20.0, 120.0);
    TotalAppend([], ia);
    TotalAppend([ia], ib);
    assert [] + [ia] == [ia] && [ia] + [ib] == [ia, ib];
  }

  /**
   * February 2024 has 29 days: an open lease from the 1st at 10.00 a day and a
   * 15th-20th lease at 20.00 a day, both of one tenant, bill 29 and 6 days,
   * in that order, for a total of 410.00.
   */
  lemma LeapFebruaryExample()
    ensures WellFormed(LeapFebruaryRecords())
    ensures Billed(LeapFebruaryRecords(), 2024, 2) ==
      Bill([1], map[1 := Draft("T1", [Item("U1", 29, 10.0, 290.0), Item("U2", 6, 20.0, 120.0)], 410.0)])
  {
    var rs := LeapFebruaryRecords();
    LeapFebruaryItems();
    LeapFebruaryTotal();
    assert rs[..1] == [rs[0]];
    TenantIdsAppend([rs[0]], rs[1]);
    TenantIdsAppend([], rs[0]);
    assert [] + [rs[0]] == [rs[0]] && [rs[0]] + [rs[1]] == rs;
    assert TenantIds(rs) == {1};
    assert NameFor(rs, 1) == "T1";
    assert TenantOrder([rs[0]]) == [1];
  }
}
