/**
 * The invoice tables and what invoice generation, payment and the overdue
 * flag do to them. Invoices are unique per (tenant, year, month); generating
 * a period again replaces each billed tenant's invoice instead of adding one.
 */
module Invoices {
  import opened Wrappers
  import opened Calendar
  import opened Billing

  datatype Status = Pending | Paid

  /** A UTC timestamp: its calendar date and the time of day in microseconds. */
  datatype Timestamp = Timestamp(date: Date, micros: nat)

  /** A row of the invoices table, without its id. */
  datatype Invoice = Invoice(
    tenantId: int,
    year: int,
    month: int,
    total: real,
    status: Status,
    createdAt: Timestamp,
    paidAt: Option<Timestamp>)

  /** The invoices table's unique key. */
  datatype Key = Key(tenantId: int, year: int, month: int)

  function KeyOf(inv: Invoice): Key {
    Key(inv.tenantId, inv.year, inv.month)
  }

  /**
   * Both tables: invoices by id, each invoice's items (the invoice_items rows
   * with that invoice id, in insertion order), and the next id to assign.
   */
  datatype Tables = Tables(invoices: map<nat, Invoice>, items: map<nat, seq<Item>>, nextId: nat)

  /** Every invoice has its items, ids lie below the next id, and no key is used twice. */
  ghost predicate Consistent(s: Tables) {
    && s.items.Keys == s.invoices.Keys
    && 1 <= s.nextId
    && (forall id :: id in s.invoices ==> 1 <= id < s.nextId)
    && (forall i, j :: i in s.invoices && j in s.invoices && KeyOf(s.invoices[i]) == KeyOf(s.invoices[j]) ==> i == j)
  }

  ghost predicate HasKey(invoices: map<nat, Invoice>, k: Key) {
    exists id :: id in invoices && KeyOf(invoices[id]) == k
  }

  /** The id of the invoice with key k. */
  ghost function IdOf(invoices: map<nat, Invoice>, k: Key): nat
    requires HasKey(invoices, k)
  {
    var id :| id in invoices && KeyOf(invoices[id]) == k; id
  }

  /**
   * One tenant's step of invoice generation: an existing invoice gets the new
   * total, status pending, a fresh creation time, no paid time and the new
   * items in place of its old ones; otherwise a pending invoice is inserted
   * under the next id.
   */
  ghost function Upsert(s: Tables, k: Key, d: Draft, now: Timestamp): Tables {
    if HasKey(s.invoices, k) then
      var id := IdOf(s.invoices, k);
      Tables(
        s.invoices[id := s.invoices[id].(total := d.total, status := Pending, createdAt := now, paidAt := None)],
        s.items[id := d.items],
        s.nextId)
    else
      Tables(
        s.invoices[s.nextId := Invoice(k.tenantId, k.year, k.month, d.total, Pending, now, None)],
        s.items[s.nextId := d.items],
        s.nextId + 1)
  }

  /** Invoice generation for a period: one upsert per billed tenant, in billing order. */
  ghost function Regenerated(s: Tables, order: seq<int>, drafts: map<int, Draft>, year: int, month: int, now: Timestamp): Tables
    requires forall i :: 0 <= i < |order| ==> order[i] in drafts
    decreases |order|
  {
    if order == [] then s
    else
      var n := |order| - 1;
      Upsert(Regenerated(s, order[..n], drafts, year, month, now), Key(order[n], year, month), drafts[order[n]], now)
  }

  /** Invoice generation for a period from the billing query's rows. */
  ghost function Generated(s: Tables, records: seq<Record>, year: int, month: int, now: Timestamp): Tables
    requires ValidPeriod(year, month) && WellFormed(records)
  {
    BilledOrder(records, year, month);
    var b := Billed(records, year, month);
    Regenerated(s, b.order, b.drafts, year, month, now)
  }

  lemma RegeneratedStep(s: Tables, order: seq<int>, drafts: map<int, Draft>, year: int, month: int, now: Timestamp, i: nat)
    requires i < |order| && forall j :: 0 <= j < |order| ==> order[j] in drafts
    ensures Regenerated(s, order[..i + 1], drafts, year, month, now)
         == Upsert(Regenerated(s, order[..i], drafts, year, month, now), Key(order[i], year, month), drafts[order[i]], now)
  {
    assert order[..i + 1][..i] == order[..i];
  }

  /** Paying: the invoice with that id, if any, becomes paid at `now`. */
  ghost function PaidTables(s: Tables, id: nat, now: Timestamp): Tables {
    if id in s.invoices then
      s.(invoices := s.invoices[id := s.invoices[id].(status := Paid, paidAt := Some(now))])
    else s
  }

  /** A key is one the generation run for (year, month) over `order` writes. */
  predicate InRun(k: Key, order: seq<int>, year: int, month: int) {
    k.year == year && k.month == month && k.tenantId in order
  }

  lemma IdOfUnique(invoices: map<nat, Invoice>, k: Key, id: nat)
    requires forall i, j :: i in invoices && j in invoices && KeyOf(invoices[i]) == KeyOf(invoices[j]) ==> i == j
    requires id in invoices && KeyOf(invoices[id]) == k
    ensures HasKey(invoices, k) && IdOf(invoices, k) == id
  {
  }

  /** An upsert keeps the tables consistent and puts key k under its old id, or under the next id if new. */
  lemma UpsertConsistent(s: Tables, k: Key, d: Draft, now: Timestamp)
    requires Consistent(s)
    ensures var r := Upsert(s, k, d, now);
      && Consistent(r)
      && HasKey(r.invoices, k)
      && (HasKey(s.invoices, k) ==> IdOf(r.invoices, k) == IdOf(s.invoices, k) && r.nextId == s.nextId)
      && (!HasKey(s.invoices, k) ==> IdOf(r.invoices, k) == s.nextId && r.nextId == s.nextId + 1)
  {
    var r := Upsert(s, k, d, now);
    if HasKey(s.invoices, k) {
      IdOfUnique(r.invoices, k, IdOf(s.invoices, k));
    } else {
      IdOfUnique(r.invoices, k, s.nextId);
    }
  }

  /** After an upsert, key k holds exactly the new content. */
  lemma UpsertContent(s: Tables, k: Key, d: Draft, now: Timestamp)
    requires Consistent(s)
    ensures var r := Upsert(s, k, d, now);
      && HasKey(r.invoices, k)
      && r.invoices[IdOf(r.invoices, k)] == Invoice(k.tenantId, k.year, k.month, d.total, Pending, now, None)
      && r.items[IdOf(r.invoices, k)] == d.items
  {
    UpsertConsistent(s, k, d, now);
  }

  /** An upsert keeps every other invoice and its items, and adds no invoice but k's. */
  lemma UpsertOthers(s: Tables, k: Key, d: Draft, now: Timestamp)
    requires Consistent(s)
    ensures var r := Upsert(s, k, d, now);
      && (forall id :: id in s.invoices ==> id in r.invoices && KeyOf(r.invoices[id]) == KeyOf(s.invoices[id]))
      && (forall id :: id in s.invoices && KeyOf(s.invoices[id]) != k ==>
            r.invoices[id] == s.invoices[id] && r.items[id] == s.items[id])
      && (forall id :: id in r.invoices ==> id in s.invoices || KeyOf(r.invoices[id]) == k)
  {
  }

  /** After an upsert, every key present before is still present, under the same id. */
  lemma UpsertKeepsKeys(s: Tables, k: Key, d: Draft, now: Timestamp, other: Key)
    requires Consistent(s) && HasKey(s.invoices, other)
    ensures HasKey(Upsert(s, k, d, now).invoices, other)
    ensures IdOf(Upsert(s, k, d, now).invoices, other) == IdOf(s.invoices, other)
  {
    UpsertConsistent(s, k, d, now);
    UpsertOthers(s, k, d, now);
    IdOfUnique(Upsert(s, k, d, now).invoices, other, IdOf(s.invoices, other));
  }

  /** Generation keeps the tables consistent and every existing key under its id. */
  lemma {:induction false} RegeneratedKeeps(s: Tables, order: seq<int>, drafts: map<int, Draft>, year: int, month: int, now: Timestamp)
    requires Consistent(s)
    requires forall i :: 0 <= i < |order| ==> order[i] in drafts
    ensures var r := Regenerated(s, order, drafts, year, month, now);
      && Consistent(r)
      && s.nextId <= r.nextId
      && (forall k :: HasKey(s.invoices, k) ==> HasKey(r.invoices, k) && IdOf(r.invoices, k) == IdOf(s.invoices, k))
    decreases |order|
  {
    if order != [] {
      var n := |order| - 1;
      var x := Regenerated(s, order[..n], drafts, year, month, now);
      RegeneratedKeeps(s, order[..n], drafts, year, month, now);
      UpsertConsistent(x, Key(order[n], year, month), drafts[order[n]], now);
      forall k | HasKey(s.invoices, k)
        ensures HasKey(Regenerated(s, order, drafts, year, month, now).invoices, k)
        ensures IdOf(Regenerated(s, order, drafts, year, month, now).invoices, k) == IdOf(s.invoices, k)
      {
        UpsertKeepsKeys(x, Key(order[n], year, month), drafts[order[n]], now, k);
      }
    }
  }

  /**
   * After generating a period, each billed tenant has exactly one invoice for
   * it (the tables stay consistent), pending, unpaid, created now, holding the
   * computed total and items.
   */
  lemma {:induction false} RegeneratedWrites(s: Tables, order: seq<int>, drafts: map<int, Draft>, year: int, month: int, now: Timestamp)
    requires Consistent(s)
    requires forall i :: 0 <= i < |order| ==> order[i] in drafts
    requires forall i, j :: 0 <= i < j < |order| ==> order[i] != order[j]
    ensures var r := Regenerated(s, order, drafts, year, month, now);
      Consistent(r) && forall t :: t in order ==>
        && HasKey(r.invoices, Key(t, year, month))
        && r.invoices[IdOf(r.invoices, Key(t, year, month))] == Invoice(t, year, month, drafts[t].total, Pending, now, None)
        && r.items[IdOf(r.invoices, Key(t, year, month))] == drafts[t].items
    decreases |order|
  {
    if order != [] {
      var n := |order| - 1;
      var t := order[n];
      var x := Regenerated(s, order[..n], drafts, year, month, now);
      var r := Upsert(x, Key(t, year, month), drafts[t], now);
      RegeneratedWrites(s, order[..n], drafts, year, month, now);
      UpsertConsistent(x, Key(t, year, month), drafts[t], now);
      RegeneratedKeeps(s, order[..n], drafts, year, month, now);
      UpsertContent(x, Key(t, year, month), drafts[t], now);
      UpsertOthers(x, Key(t, year, month), drafts[t], now);
      forall u | u in order
        ensures HasKey(r.invoices, Key(u, year, month))
        ensures r.invoices[IdOf(r.invoices, Key(u, year, month))] == Invoice(u, year, month, drafts[u].total, Pending, now, None)
        ensures r.items[IdOf(r.invoices, Key(u, year, month))] == drafts[u].items
      {
        if u != t {
          assert u in order[..n];
          UpsertKeepsKeys(x, Key(t, year, month), drafts[t], now, Key(u, year, month));
        }
      }
    }
  }

  /**
   * Generating a period leaves every invoice of another tenant or period, and
   * its items, as they were.
   */
  lemma {:induction false} RegeneratedUntouched(s: Tables, order: seq<int>, drafts: map<int, Draft>, year: int, month: int, now: Timestamp)
    requires Consistent(s)
    requires forall i :: 0 <= i < |order| ==> order[i] in drafts
    ensures var r := Regenerated(s, order, drafts, year, month, now);
      Consistent(r) && forall id :: id in s.invoices && !InRun(KeyOf(s.invoices[id]), order, year, month) ==>
        id in r.invoices && r.invoices[id] == s.invoices[id] && r.items[id] == s.items[id]
    decreases |order|
  {
    if order != [] {
      var n := |order| - 1;
      var t := order[n];
      var x := Regenerated(s, order[..n], drafts, year, month, now);
      var r := Upsert(x, Key(t, year, month), drafts[t], now);
      RegeneratedUntouched(s, order[..n], drafts, year, month, now);
      UpsertConsistent(x, Key(t, year, month), drafts[t], now);
      UpsertOthers(x, Key(t, year, month), drafts[t], now);
      forall id | id in s.invoices && !InRun(KeyOf(s.invoices[id]), order, year, month)
        ensures id in r.invoices && r.invoices[id] == s.invoices[id] && r.items[id] == s.items[id]
      {
        var k := KeyOf(s.invoices[id]);
        assert !InRun(k, order[..n], year, month) by {
          assert forall u :: u in order[..n] ==> u in order;
        }
        assert x.invoices[id] == s.invoices[id] && x.items[id] == s.items[id];
        assert k != Key(t, year, month);
      }
    }
  }

  /**
   * Generating a period adds no invoice outside the period's billed tenants
   * and moves no invoice to another key.
   */
  lemma {:induction false} RegeneratedAddsOnlyRun(s: Tables, order: seq<int>, drafts: map<int, Draft>, year: int, month: int, now: Timestamp)
    requires Consistent(s)
    requires forall i :: 0 <= i < |order| ==> order[i] in drafts
    ensures var r := Regenerated(s, order, drafts, year, month, now);
      && (forall id :: id in r.invoices ==> id in s.invoices || InRun(KeyOf(r.invoices[id]), order, year, month))
      && (forall id :: id in s.invoices ==> id in r.invoices && KeyOf(r.invoices[id]) == KeyOf(s.invoices[id]))
    decreases |order|
  {
    if order != [] {
      var n := |order| - 1;
      var t := order[n];
      var x := Regenerated(s, order[..n], drafts, year, month, now);
      RegeneratedAddsOnlyRun(s, order[..n], drafts, year, month, now);
      RegeneratedKeeps(s, order[..n], drafts, year, month, now);
      UpsertOthers(x, Key(t, year, month), drafts[t], now);
      assert forall u :: u in order[..n] ==> u in order;
    }
  }

  /** Generating for the same tenant twice is generating once with the later time. */
  lemma UpsertTwice(s: Tables, k: Key, d: Draft, now1: Timestamp, now2: Timestamp)
    requires Consistent(s)
    ensures Upsert(Upsert(s, k, d, now1), k, d, now2) == Upsert(s, k, d, now2)
  {
    UpsertConsistent(s, k, d, now1);
    var x := Upsert(s, k, d, now1);
    var id := IdOf(x.invoices, k);
    if HasKey(s.invoices, k) {
      assert IdOf(s.invoices, k) == id;
    } else {
      assert id == s.nextId;
    }
  }

  /** An upsert of a key that has an invoice rewrites that invoice's header and items in place. */
  lemma UpsertExisting(s: Tables, k: Key, d: Draft, now: Timestamp, id: nat)
    requires Consistent(s) && id in s.invoices && KeyOf(s.invoices[id]) == k
    ensures Upsert(s, k, d, now) == Tables(
      s.invoices[id := s.invoices[id].(total := d.total, status := Pending, createdAt := now, paidAt := None)],
      s.items[id := d.items],
      s.nextId)
  {
    IdOfUnique(s.invoices, k, id);
  }

  /** Upserts of two different keys that both have invoices commute. */
  lemma UpsertSwapExisting(s: Tables, k1: Key, d1: Draft, now1: Timestamp, k2: Key, d2: Draft, now2: Timestamp)
    requires Consistent(s) && k1 != k2 && HasKey(s.invoices, k1) && HasKey(s.invoices, k2)
    ensures Upsert(Upsert(s, k1, d1, now1), k2, d2, now2) == Upsert(Upsert(s, k2, d2, now2), k1, d1, now1)
  {
    var id1, id2 := IdOf(s.invoices, k1), IdOf(s.invoices, k2);
    var s1, s2 := Upsert(s, k1, d1, now1), Upsert(s, k2, d2, now2);
    var inv1 := s.invoices[id1].(total := d1.total, status := Pending, createdAt := now1, paidAt := None);
    var inv2 := s.invoices[id2].(total := d2.total, status := Pending, createdAt := now2, paidAt := None);
    UpsertExisting(s, k1, d1, now1, id1);
    UpsertExisting(s, k2, d2, now2, id2);
    UpsertConsistent(s, k1, d1, now1);
    UpsertConsistent(s, k2, d2, now2);
    UpsertExisting(s1, k2, d2, now2, id2);
    UpsertExisting(s2, k1, d1, now1, id1);
    assert s.invoices[id1 := inv1][id2 := inv2] == s.invoices[id2 := inv2][id1 := inv1];
    assert s.items[id1 := d1.items][id2 := d2.items] == s.items[id2 := d2.items][id1 := d1.items];
  }

  /** An upsert of a new key commutes with an upsert of a key that has an invoice. */
  lemma UpsertSwapFresh(s: Tables, k1: Key, d1: Draft, now1: Timestamp, k2: Key, d2: Draft, now2: Timestamp)
    requires Consistent(s) && k1 != k2 && !HasKey(s.invoices, k1) && HasKey(s.invoices, k2)
    ensures Upsert(Upsert(s, k1, d1, now1), k2, d2, now2) == Upsert(Upsert(s, k2, d2, now2), k1, d1, now1)
  {
    var id2, n := IdOf(s.invoices, k2), s.nextId;
    var s1, s2 := Upsert(s, k1, d1, now1), Upsert(s, k2, d2, now2);
    var inv1 := Invoice(k1.tenantId, k1.year, k1.month, d1.total, Pending, now1, None);
    var inv2 := s.invoices[id2].(total := d2.total, status := Pending, createdAt := now2, paidAt := None);
    UpsertExisting(s, k2, d2, now2, id2);
    UpsertConsistent(s, k1, d1, now1);
    UpsertOthers(s, k2, d2, now2);
    assert s1 == Tables(s.invoices[n := inv1], s.items[n := d1.items], n + 1);
    UpsertExisting(s1, k2, d2, now2, id2);
    assert !HasKey(s2.invoices, k1);
    assert s.invoices[n := inv1][id2 := inv2] == s.invoices[id2 := inv2][n := inv1];
    assert s.items[n := d1.items][id2 := d2.items] == s.items[id2 := d2.items][n := d1.items];
  }

  /** Upserts of two different keys commute when the second key already has an invoice. */
  lemma UpsertSwap(s: Tables, k1: Key, d1: Draft, now1: Timestamp, k2: Key, d2: Draft, now2: Timestamp)
    requires Consistent(s) && k1 != k2 && HasKey(s.invoices, k2)
    ensures Upsert(Upsert(s, k1, d1, now1), k2, d2, now2) == Upsert(Upsert(s, k2, d2, now2), k1, d1, now1)
  {
    if HasKey(s.invoices, k1) {
      UpsertSwapExisting(s, k1, d1, now1, k2, d2, now2);
    } else {
      UpsertSwapFresh(s, k1, d1, now1, k2, d2, now2);
    }
  }

  /** Upserting a new tenant first and then the already invoiced others is the same in either order. */
  lemma {:induction false} UpsertThenRegenerated(s: Tables, t: int, order: seq<int>, drafts: map<int, Draft>, year: int, month: int,
                                                  now1: Timestamp, now2: Timestamp)
    requires Consistent(s) && t !in order && t in drafts
    requires forall i :: 0 <= i < |order| ==> order[i] in drafts
    requires forall i, j :: 0 <= i < j < |order| ==> order[i] != order[j]
    requires forall u :: u in order ==> HasKey(s.invoices, Key(u, year, month))
    ensures Regenerated(Upsert(s, Key(t, year, month), drafts[t], now1), order, drafts, year, month, now2)
         == Upsert(Regenerated(s, order, drafts, year, month, now2), Key(t, year, month), drafts[t], now1)
    decreases |order|
  {
    if order != [] {
      var n := |order| - 1;
      var u := order[n];
      UpsertThenRegenerated(s, t, order[..n], drafts, year, month, now1, now2);
      RegeneratedKeeps(s, order[..n], drafts, year, month, now2);
      UpsertSwap(Regenerated(s, order[..n], drafts, year, month, now2),
                 Key(t, year, month), drafts[t], now1, Key(u, year, month), drafts[u], now2);
    }
  }

  /**
   * Generating a period twice on the same billing gives the same tables as
   * generating it once at the second time: same ids, same items, same totals,
   * no duplicate invoice; only the creation times of the first run are gone.
   */
  lemma {:induction false} RegenerateIdempotent(s: Tables, order: seq<int>, drafts: map<int, Draft>, year: int, month: int,
                                                 now1: Timestamp, now2: Timestamp)
    requires Consistent(s)
    requires forall i :: 0 <= i < |order| ==> order[i] in drafts
    requires forall i, j :: 0 <= i < j < |order| ==> order[i] != order[j]
    ensures Regenerated(Regenerated(s, order, drafts, year, month, now1), order, drafts, year, month, now2)
         == Regenerated(s, order, drafts, year, month, now2)
    decreases |order|
  {
    if order != [] {
      var n := |order| - 1;
      var prior, t := order[..n], order[n];
      var k := Key(t, year, month);
      var x := Regenerated(s, prior, drafts, year, month, now1);
      var z := Regenerated(s, prior, drafts, year, month, now2);
      var once := Regenerated(s, order, drafts, year, month, now1);
      assert once == Upsert(x, k, drafts[t], now1);
      assert t !in prior;
      calc {
        Regenerated(once, order, drafts, year, month, now2);
        Upsert(Regenerated(once, prior, drafts, year, month, now2), k, drafts[t], now2);
        { RegeneratedKeeps(s, prior, drafts, year, month, now1);
          RegeneratedWrites(s, prior, drafts, year, month, now1);
          UpsertThenRegenerated(x, t, prior, drafts, year, month, now1, now2); }
        Upsert(Upsert(Regenerated(x, prior, drafts, year, month, now2), k, drafts[t], now1), k, drafts[t], now2);
        { RegenerateIdempotent(s, prior, drafts, year, month, now1, now2); }
        Upsert(Upsert(z, k, drafts[t], now1), k, drafts[t], now2);
        { RegeneratedKeeps(s, prior, drafts, year, month, now2);
          UpsertTwice(z, k, drafts[t], now1, now2); }
        Upsert(z, k, drafts[t], now2);
      }
    }
  }

  /**
   * Generating a period's invoices twice from the same rows leaves the tables
   * as one generation at the second time does.
   */
  lemma GenerateTwice(s: Tables, records: seq<Record>, year: int, month: int, now1: Timestamp, now2: Timestamp)
    requires Consistent(s) && ValidPeriod(year, month) && WellFormed(records)
    ensures Generated(Generated(s, records, year, month, now1), records, year, month, now2)
         == Generated(s, records, year, month, now2)
  {
    var b := Billed(records, year, month);
    BilledOrder(records, year, month);
    RegenerateIdempotent(s, b.order, b.drafts, year, month, now1, now2);
  }

  /**
   * A paid invoice of a tenant billed again for its period is back to pending
   * with no paid time after the next generation.
   */
  lemma PayThenRegenerate(s: Tables, id: nat, paidAt: Timestamp, order: seq<int>, drafts: map<int, Draft>,
                          year: int, month: int, now: Timestamp)
    requires Consistent(s) && id in s.invoices
    requires forall i :: 0 <= i < |order| ==> order[i] in drafts
    requires forall i, j :: 0 <= i < j < |order| ==> order[i] != order[j]
    requires InRun(KeyOf(s.invoices[id]), order, year, month)
    ensures PaidTables(s, id, paidAt).invoices[id].status == Paid
    ensures var r := Regenerated(PaidTables(s, id, paidAt), order, drafts, year, month, now);
      id in r.invoices && r.invoices[id].status == Pending && r.invoices[id].paidAt == None
  {
    var p := PaidTables(s, id, paidAt);
    var k := KeyOf(s.invoices[id]);
    IdOfUnique(p.invoices, k, id);
    RegeneratedWrites(p, order, drafts, year, month, now);
    RegeneratedKeeps(p, order, drafts, year, month, now);
  }

  /** Paying keeps the tables consistent and touches no other invoice. */
  lemma PaidTablesEffect(s: Tables, id: nat, now: Timestamp)
    requires Consistent(s)
    ensures var r := PaidTables(s, id, now);
      && Consistent(r)
      && r.items == s.items && r.nextId == s.nextId && r.invoices.Keys == s.invoices.Keys
      && (id in s.invoices ==> r.invoices[id].status == Paid && r.invoices[id].paidAt == Some(now)
                               && KeyOf(r.invoices[id]) == KeyOf(s.invoices[id]) && r.invoices[id].total == s.invoices[id].total)
      && (forall j :: j in s.invoices && j != id ==> r.invoices[j] == s.invoices[j])
  {
  }

  /** `created_date + timedelta(days=30)`. */
  function DueDate(inv: Invoice): Result<Date, CalendarError>
    requires ValidDate(inv.createdAt.date)
  {
    AddDays(inv.createdAt.date, 30)
  }

  /**
   * The overdue flag shown with an invoice: not paid and today later than 30
   * days after its creation date; the due-date addition overflows only for a
   * creation date within 30 days of the last representable date.
   */
  function IsOverdue(inv: Invoice, today: Date): (r: Result<bool, CalendarError>)
    requires ValidDate(inv.createdAt.date) && ValidDate(today)
    ensures r.Failure? <==> Ordinal(inv.createdAt.date) + 30 > Ordinal(MaxDate)
    ensures r.Success? ==> (r.value <==> inv.status != Paid && Ordinal(today) > Ordinal(inv.createdAt.date) + 30)
  {
    match DueDate(inv)
    case Failure(e) => Failure(e)
    case Success(due) =>
      OrdinalOrder(due, today);
      Success(inv.status != Paid && Before(due, today))
  }

  /** The i-th id names the invoice of the i-th tenant of `order` for the period. */
  ghost predicate Names(invoices: map<nat, Invoice>, ids: seq<nat>, order: seq<int>, year: int, month: int) {
    && |ids| <= |order|
    && forall j :: 0 <= j < |ids| ==> ids[j] in invoices && KeyOf(invoices[ids[j]]) == Key(order[j], year, month)
  }

  lemma NamesStep(before: map<nat, Invoice>, after: map<nat, Invoice>, ids: seq<nat>, id: nat, order: seq<int>, year: int, month: int)
    requires Names(before, ids, order, year, month) && |ids| < |order|
    requires forall j :: j in before ==> j in after && KeyOf(after[j]) == KeyOf(before[j])
    requires id in after && KeyOf(after[id]) == Key(order[|ids|], year, month)
    ensures Names(after, ids + [id], order, year, month)
  {
  }

  /** The invoices and invoice_items tables, held in memory. */
  class InvoiceStore {
    var invoices: map<nat, Invoice>
    var items: map<nat, seq<Item>>
    var nextId: nat

    ghost function State(): Tables
      reads this
    {
      Tables(invoices, items, nextId)
    }

    ghost predicate Valid()
      reads this
    {
      Consistent(State())
    }

    constructor ()
      ensures Valid() && invoices == map[] && items == map[] && nextId == 1
    {
      invoices, items, nextId := map[], map[], 1;
    }

    /** The SELECT of an invoice id by (tenant, year, month). */
    method FindInvoice(k: Key) returns (r: Option<nat>)
      requires Valid()
      ensures r.Some? <==> HasKey(invoices, k)
      ensures r.Some? ==> r.value in invoices && KeyOf(invoices[r.value]) == k && r.value == IdOf(invoices, k)
    {
      var ids := invoices.Keys;
      while ids != {}
        invariant ids <= invoices.Keys
        invariant forall j :: j in invoices && j !in ids ==> KeyOf(invoices[j]) != k
        decreases ids
      {
        var j :| j in ids;
        if KeyOf(invoices[j]) == k {
          IdOfUnique(invoices, k, j);
          return Some(j);
        }
        ids := ids - {j};
      }
      return None;
    }

    /**
     * One billed tenant's write: the invoice for key k, if any, gets the new
     * header and items in place of its old ones; otherwise a new invoice is
     * inserted. Returns the id written.
     */
    method WriteInvoice(k: Key, d: Draft, now: Timestamp) returns (id: nat)
      requires Valid()
      modifies this
      ensures Valid()
      ensures State() == Upsert(old(State()), k, d, now)
      ensures id in invoices && KeyOf(invoices[id]) == k
      ensures forall j :: j in old(invoices) ==> j in invoices && KeyOf(invoices[j]) == KeyOf(old(invoices)[j])
    {
      ghost var before := State();
      UpsertConsistent(before, k, d, now);
      UpsertOthers(before, k, d, now);
      var found := FindInvoice(k);
      if found.Some? {
        id := found.value;
        items := items[id := d.items];
        invoices := invoices[id := invoices[id].(total := d.total, status := Pending, createdAt := now, paidAt := None)];
      } else {
        id := nextId;
        invoices := invoices[id := Invoice(k.tenantId, k.year, k.month, d.total, Pending, now, None)];
        nextId := nextId + 1;
        items := items[id := d.items];
      }
      assert State() == Upsert(before, k, d, now);
    }

    /**
     * The loop of `create_invoices`: write each tenant's entry in the given
     * order and collect the ids written.
     */
    method WriteAll(order: seq<int>, drafts: map<int, Draft>, year: int, month: int, now: Timestamp) returns (ids: seq<nat>)
      requires Valid()
      requires forall i :: 0 <= i < |order| ==> order[i] in drafts
      modifies this
      ensures Valid()
      ensures State() == Regenerated(old(State()), order, drafts, year, month, now)
      ensures |ids| == |order|
      ensures forall i :: 0 <= i < |order| ==> ids[i] in invoices && KeyOf(invoices[ids[i]]) == Key(order[i], year, month)
    {
      ghost var s0 := State();
      ids := [];
      for i := 0 to |order|
        invariant Valid()
        invariant State() == Regenerated(s0, order[..i], drafts, year, month, now)
        invariant |ids| == i
        invariant Names(invoices, ids, order, year, month)
      {
        var t := order[i];
        RegeneratedStep(s0, order, drafts, year, month, now, i);
        ghost var written := invoices;
        var id := WriteInvoice(Key(t, year, month), drafts[t], now);
        NamesStep(written, invoices, ids, id, order, year, month);
        ids := ids + [id];
      }
      assert order[..|order|] == order;
    }

    /**
     * `create_invoices`: bill the period, then for each billed tenant in
     * billing order replace or insert its invoice and its items; return the
     * ids written, in that order.
     */
    method CreateInvoices(year: int, month: int, records: seq<Record>, now: Timestamp)
      returns (r: Result<seq<nat>, CalendarError>)
      requires Valid() && WellFormed(records)
      modifies this
      ensures Valid()
      ensures r.Failure? <==> !ValidPeriod(year, month)
      ensures r.Failure? ==> State() == old(State())
      ensures r.Success? ==>
        var b := Billed(records, year, month);
        && State() == Generated(old(State()), records, year, month, now)
        && |r.value| == |b.order|
        && forall i :: 0 <= i < |b.order| ==>
             r.value[i] in invoices && KeyOf(invoices[r.value[i]]) == Key(b.order[i], year, month)
    {
      var billing := ComputeBilling(year, month, records);
      if billing.Failure? {
        return Failure(billing.error);
      }
      var bill := billing.value;
      BilledOrder(records, year, month);
      var ids := WriteAll(bill.order, bill.drafts, year, month, now);
      return Success(ids);
    }

    /** The pay endpoint: mark the invoice with that id paid at `now`; no such id changes nothing. */
    method Pay(id: nat, now: Timestamp)
      requires Valid()
      modifies this
      ensures Valid()
      ensures State() == PaidTables(old(State()), id, now)
    {
      if id in invoices {
        invoices := invoices[id := invoices[id].(status := Paid, paidAt := Some(now))];
      }
    }
  }
}
