# Warehouse manager: monthly rent proration and invoice generation

A Dafny model of the billing core of a small self-storage warehouse manager
(`app.py`, a FastAPI application over SQLite). Units are rented to tenants
through occupancies, each with a start date, an optional end date and a
daily rate copied from its unit at check-in. Once a month the application:

- selects the occupancies that touch the month with a three-clause SQL
  range condition;
- counts each one's days in the month, inclusive at both ends, with an open
  lease running to the month's last day;
- charges days times the frozen rate and groups the line items per tenant;
- writes one invoice per tenant and period into an invoices table that is
  unique on (tenant, year, month). Generating a period again replaces the
  invoice's items and total, resets it to pending and clears its paid time.

Invoices can then be paid, and an unpaid invoice is overdue once today is
more than 30 days after its creation date.

Modules:

- `Wrappers` (`wrappers.dfy`): `Option` and `Result`.
- `Calendar` (`calendar.dfy`): Python's proleptic Gregorian `date` for
  years 1 to 9999. It gives month length, chronological order, day ordinals
  as `date.toordinal` computes them, and `date + timedelta(days=n)` with its
  overflow error.
- `Leases` (`leases.dfy`): the query's selection predicate and the overlap
  day count.
- `Billing` (`billing.dfy`): `compute_billing`'s loop as a method. It is
  proved equal to a declarative `Billed` function, and the promised
  properties are lemmas about `Billed`.
- `Registry` (`registry.dfy`): the units, tenants and occupancies tables as
  a class; `assign_unit`, `update_unit_rate`, the unit edit (rate and
  name) and `end_occupancy`; the billing query as a function of the tables.
- `Invoices` (`invoices.dfy`): the invoices and invoice_items tables as a
  class. `create_invoices` is proved equal to a declarative `Generated`
  function, and uniqueness, replacement, non-interference and idempotence
  are lemmas about it. Also here: payment and the overdue flag.

Money is exact `real` arithmetic; the clock is a `now`/`today` parameter.

Behaviour worth knowing, as the code has it:

- The code does not clamp the day count at zero: `days` is whatever the
  subtraction gives, and only the query keeps out occupancies that miss the
  month. `OverlapDays` has no clamp either. For a valid range every selected
  row is charged at least one day (`OverlapDaysBounds`). An occupancy whose
  end precedes its start is charged zero or a negative number of days in
  every month (`ReversedRangeNotPositive`). The query still selects it when
  its start or end falls in the month: 2024-02-20 to 2024-02-10 is charged -9
  days and 2024-02-11 to 2024-02-10 zero days for February 2024, while
  2024-03-05 to 2024-01-10 is not selected for it.
- The code raises no error for an occupancy whose end precedes its start,
  so the model has no such error either.
- A month outside 1-12, or a year outside 1-9999, makes `date()` raise. The
  model returns `Failure(UnknownPeriod)` and leaves the tables unchanged.

## Model

| member | source | states |
|---|---|---|
| Calendar.DaysInMonth | app.py:319 | a month has 28 to 31 days; February has 29 exactly in leap years |
| Calendar.MonthBounds | app.py:318-319 | fails with UnknownPeriod exactly for an invalid year or month; otherwise the first day is day 1 of that month, the last day is a valid day of that month with no valid day after it, and every day of the month lies between the two |
| Calendar.OrdinalOrder | app.py:346-348 | for valid dates, chronological order is the order of their ordinals, and equal ordinals mean equal dates, so whole-day differences are ordinal differences |
| Calendar.AddDays | app.py:801 | adding n days succeeds exactly when the result does not pass 9999-12-31, fails with DateOverflow otherwise, and yields a valid date whose ordinal is n more |
| Leases.Selected | app.py:328-332 | the three OR'd range conditions; `SelectedIffIntersects` and `OutsideMonthNotSelected` characterise them |
| Leases.OverlapDays | app.py:344-348 | the clamped range's inclusive day count, unclamped at zero; `OverlapDaysBounds`, `SameDayOverlap`, `OpenLeaseOverlap`, `WholeMonthOverlap` and `ReversedRangeNotPositive` characterise it |
| Leases.SelectedIffIntersects | app.py:328-332 | for a range with end on or after start (or open), the three OR'd conditions hold exactly when start is on or before the month's last day and the end is absent or on or after its first day |
| Leases.OutsideMonthNotSelected | app.py:328-332 | a valid occupancy ending before the month or starting after it is not selected |
| Leases.ClampedDays | app.py:346-347 | the clamped start and end are valid dates inside the month whenever the occupancy reaches into the month from that side |
| Leases.OverlapDaysBounds | app.py:346-348 | a selected occupancy with a valid range is charged between 1 day and the month's length |
| Leases.SameDayOverlap | app.py:346-348 | an occupancy starting and ending on the same day of the month is charged 1 day |
| Leases.OpenLeaseOverlap | app.py:346-348 | an open lease starting on day d of the month is charged month length - d + 1 days |
| Leases.WholeMonthOverlap | app.py:346-348 | an occupancy covering the whole month is charged the month's length |
| Leases.ReversedRangeChargedNegativeDays | app.py:328-348 | an occupancy from 2024-02-20 to 2024-02-10 passes the selection for February 2024 and is charged -9 days |
| Leases.ReversedRangeChargedZeroDays | app.py:328-348 | an occupancy from 2024-02-11 to 2024-02-10 passes the selection for February 2024 and is charged 0 days, a zero-amount item |
| Leases.ReversedRangeAcrossMonthNotSelected | app.py:328-332 | an occupancy from 2024-03-05 to 2024-01-10 is not selected for February 2024 |
| Leases.ReversedRangeNotPositive | app.py:344-348 | for every month, an occupancy whose end precedes its start is charged zero or fewer days |
| Billing.ItemFor | app.py:348-361 | one record's line item: unit name, overlap days, frozen rate and days x rate; `ItemsForSource` and `LeapFebruaryItems` characterise it |
| Billing.Billed | app.py:342-362 | the declarative bill: `BilledEntries`, `BilledOrder`, `NameForFirst`, `ItemsForConcat` and `ItemCountsAddUp` characterise it, and `ComputeBilling` is proved equal to it |
| Billing.ComputeBilling | app.py:318-363 | fails exactly for an invalid period; otherwise its result equals `Billed`: per-tenant entries in order of first appearance, each with its first record's tenant name, its records' items in record order and their summed charges |
| Billing.BilledEntries | app.py:352-353 | a tenant has an entry exactly when one of the records is theirs, so a tenant with no selected record has none |
| Billing.BilledOrder | app.py:352-353 | the entry order lists exactly the tenants that have an entry, each once |
| Billing.NameForFirst | app.py:350-353 | a tenant's entry carries the tenant name of the tenant's first record |
| Billing.ItemsForConcat | app.py:343-361 | a tenant's items for two batches of records are the first batch's items followed by the second's |
| Billing.ItemsForSource | app.py:346-361 | every item of a tenant comes from one of that tenant's records: its unit name, its overlap days, its frozen rate and charge = days x rate |
| Billing.ItemCountsAddUp | app.py:343-361 | the entries hold exactly as many items as there are records, so each record yields one item |
| Billing.BilledDaysBounds | app.py:346-348 | when every record is selected and has a valid range, every item is charged between 1 day and the month's length |
| Billing.LeapFebruaryDays | app.py:346-348 | in February 2024 an open lease from the 1st is charged 29 days and a 15th-20th lease 6 days |
| Billing.LeapFebruaryItems | app.py:349-361 | those two leases of one tenant at 10.00 and 20.00 a day give the items (U1, 29, 10.00, 290.00) then (U2, 6, 20.00, 120.00) |
| Billing.LeapFebruaryTotal | app.py:362 | those two items total 410.00 |
| Billing.LeapFebruaryExample | app.py:342-363 | billing February 2024 for those leases gives exactly one entry, tenant 1's, with those two items in order and total 410.00 |
| Registry.SelectRecords | app.py:321-340 | the query returns no more rows than there are occupancies, every row well formed and satisfying the month's selection condition; `SelectRecordsRows` states which rows |
| Registry.SelectRecordsRows | app.py:321-340 | the query returns exactly one row per occupancy that the range conditions select and whose unit and tenant rows both exist, in id order: the j-th row is built from the j-th such occupancy (current unit name, tenant name, the occupancy's dates and frozen rate), and no such occupancy is missed |
| Registry.JoinedOccupanciesBilledOnce | app.py:321-361 | the month's bill holds exactly one line item per occupancy the query returns |
| Registry.RenameChangesUnitNames | app.py:321-327 | renaming a unit keeps the month's rows and their order, and changes the unit name on exactly the rows of that unit's occupancies, so a later generation of any month writes the new name into their items |
| Registry.SelectRecordsIgnoresRates | app.py:321-327 | the query's rows do not depend on the units' current rates |
| Registry.RateChangeKeepsBills | app.py:191-196 | changing a unit's rate leaves every month's bill unchanged, because items use the rate frozen on the occupancy |
| Registry.SelectRecordsValidRanges | app.py:328-332 | when no occupancy ends before it starts, no selected row does |
| Registry.ValidRangesBillWholeDays | app.py:343-348 | when no occupancy ends before it starts, every item of every month's bill is charged between 1 day and the month's length |
| Registry.Facility.UpdateUnitRate | app.py:191-196 | only the unit's rate changes (nothing for an unknown id); tenants and occupancies are unchanged, and so are the query's rows for every month |
| Registry.Facility.EditUnit | app.py:565-586 | for an existing unit the rate is always replaced; the name is too unless another unit already has it, in which case it fails with DuplicateUnitName (the UNIQUE name of app.py:34) and only the rate has changed; an unknown id changes nothing and succeeds; tenants and occupancies are unchanged |
| Registry.Facility.AssignUnit | app.py:210-226 | an unknown unit gives UnitNotFound (the source's ValueError) and inserts nothing; otherwise one open occupancy is appended with the unit's current rate, and nothing is returned |
| Registry.Facility.EndOccupancy | app.py:229-235 | sets the end date of the occupancy with that id and changes nothing else; an unknown id changes nothing |
| Invoices.InvoiceStore.FindInvoice | app.py:380-384 | finds an id exactly when an invoice with that (tenant, year, month) exists, and returns that invoice's id |
| Invoices.Upsert | app.py:380-405 | one tenant's generation step: update in place or insert, then replace the items; `UpsertConsistent`, `UpsertContent` and `UpsertOthers` characterise it |
| Invoices.Regenerated | app.py:377-406 | the generation loop over the billed tenants; `RegeneratedKeeps`, `RegeneratedWrites`, `RegeneratedUntouched` and `RegeneratedAddsOnlyRun` characterise it |
| Invoices.Generated | app.py:366-409 | generation of a period from the query's rows; `GenerateTwice` characterises it and `CreateInvoices` is proved equal to it |
| Invoices.UpsertConsistent | app.py:100 | one tenant's generation step keeps every key unique, every invoice with its items, and ids below the next id |
| Invoices.UpsertContent | app.py:385-405 | after the step the key's invoice holds the new total, status pending, the new creation time, no paid time and exactly the new items |
| Invoices.UpsertOthers | app.py:385-405 | the step leaves every other invoice and its items as they were and adds at most the one new id |
| Invoices.RegeneratedKeeps | app.py:377-406 | generation keeps the tables consistent and keeps every existing key's invoice under the same id |
| Invoices.RegeneratedWrites | app.py:377-406 | after generation each billed tenant has exactly one invoice for the period, equal to (tenant, year, month, computed total, pending, now, no paid time), whose items are the computed items |
| Invoices.RegeneratedUntouched | app.py:377-406 | generation leaves invoices of other tenants and periods, and their items, unchanged |
| Invoices.RegeneratedAddsOnlyRun | app.py:377-406 | generation adds no invoice outside the period's billed tenants and moves no invoice to another key |
| Invoices.UpsertTwice | app.py:385-405 | writing the same tenant's entry twice is writing it once at the later time |
| Invoices.UpsertSwap | app.py:377-406 | writing two different tenants' entries commutes when the second tenant's invoice already exists |
| Invoices.RegenerateIdempotent | app.py:377-406 | generating from the same entries twice leaves the tables as one generation at the second time does |
| Invoices.GenerateTwice | app.py:366-409 | generating a period twice from the same rows gives the same tables as generating once at the later time, so only creation times differ |
| Invoices.InvoiceStore.WriteInvoice | app.py:380-405 | the tables become `Upsert` of the old tables for the key: the existing invoice rewritten in place or a new one under the next id; returns the id, which holds the key, and keeps every existing id under its key |
| Invoices.InvoiceStore.WriteAll | app.py:377-406 | the tables become `Regenerated` from the old tables over the given tenant order, and the i-th returned id names the i-th tenant's invoice for the period |
| Invoices.InvoiceStore.CreateInvoices | app.py:366-409 | fails and changes nothing exactly for an invalid period; otherwise the tables become `Generated` from the old tables, and it returns one id per billed tenant in billing order, each naming that tenant's invoice for the period |
| Invoices.InvoiceStore.Pay | app.py:878-886 | the tables become `PaidTables`: that invoice, if any, is paid at `now` |
| Invoices.PaidTables | app.py:881-884 | the payment update; `PaidTablesEffect` characterises it |
| Invoices.PaidTablesEffect | app.py:881-884 | paying sets status paid and the paid time, keeps the invoice's key and total, the items and every other invoice |
| Invoices.PayThenRegenerate | app.py:388-391 | a paid invoice whose tenant is billed again for its period is pending with no paid time after the next generation |
| Invoices.IsOverdue | app.py:800-803 | the due-date addition fails only within 30 days of 9999-12-31; otherwise an invoice is overdue exactly when it is not paid and today's ordinal exceeds its creation date's by more than 30 |

## Left out

- The web layer: routes, form parsing, redirects, templates and static files. Each modelled route reduces to the operation it calls.
- SQLite itself: connections, schema DDL, commits and transactions. Tables are maps and sequences, so atomicity and concurrent writers are not modelled.
- Sessions, password hashing, login records and the default admin: authentication plumbing over foreign calls and the clock.
- PDF generation with matplotlib: rendering and file output.
- `add_unit`, `add_tenant` and the listing queries (`fetch_units`, `fetch_tenants`, `fetch_active_occupancies`, `fetch_invoice`). They only insert or read rows. The tables are the constructor's inputs instead.
- The unit edit's form parsing: an unparseable rate becoming 0.0 and the name's whitespace stripping happen before `Registry.Facility.EditUnit`, which takes the parsed rate and stripped name.
- Floating-point money: rates and charges are exact reals, so float rounding and the two-decimal display formatting are not modelled.
- The clock and ISO-string parsing: `date.today()` and `datetime.utcnow()` are `today`/`now` parameters. Stored dates are `Date` triples, with `WellFormedRange` standing for "the stored string parses".
- The query's row order: SQL gives none without ORDER BY. `Registry.SelectRecords` returns rows in occupancy id order, and `Billing` and `Invoices` take the rows in whatever order they come.
- `Invoices.InvoiceStore.CreateInvoices` takes the query's rows as a parameter rather than reading a `Registry.Facility`, since `compute_billing` and `create_invoices` use separate connections.
- `Invoices.IsOverdue`: the same flag is computed again for the invoice detail page (app.py:842-844); that copy is not modelled separately.
- Ids are `nat`. A negative unit or tenant id from the occupancy form behaves like an absent one: `assign_unit` raises the same ValueError for the unit, and a row with a negative tenant id never joins.
- Vacancy: `assign_unit` does not check that a unit is vacant (only the form filters), and this model does not check it either.
- Invoice ids: `lastrowid` is modelled as a counter starting at 1. SQLite's AUTOINCREMENT also never reuses an id, and no invoice is ever deleted.
