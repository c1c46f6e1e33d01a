/**
 Archives of a store (src/services/orderRepository.ts:116-151, 567-583, 1523-1619): export,
 comparison with a target and restoration into an empty store.
 */
module Archive {
  import opened Ledger
  import opened Journal
  import opened Ordering
  import opened Auditor
  import opened Sums
  import Printing
  import Repository

  type Technical = (string, Printing.OrderPrinting)

  datatype ArchiveContent = ArchiveContent(
    schemaVersion: int,
    archiveId: string,
    exportedAt: int,
    terminalId: string,
    terminalCode: string,
    displayName: string,
    metadata: Metadata,
    orders: seq<StoredOrder>,
    technical: seq<Technical>,
    entries: seq<Entry>)

  /** The archive hash carries the content it was computed from. */
  datatype SalesArchive = SalesArchive(content: ArchiveContent, archiveHash: ArchiveContent)

  const ARCHIVE_SCHEMA_VERSION := 1

  /** The stores of one terminal; metadata that was never written reads as its defaults. */
  datatype Stores = Stores(
    orders: map<string, StoredOrder>,
    technical: map<string, Printing.OrderPrinting>,
    ledger: map<string, Entry>,
    metadata: Metadata)

  ghost predicate WellKeyed(s: Stores) {
    && (forall id :: id in s.orders ==> s.orders[id].order.id == id)
    && (forall id :: id in s.ledger ==> s.ledger[id].Id() == id)
  }

  function SnapshotIn(c: ArchiveContent): Snapshot { Snapshot(c.metadata, c.orders, c.entries) }

  ghost predicate ArchiveValid(a: SalesArchive) {
    AuditValid(SnapshotIn(a.content)) && a.content.schemaVersion == ARCHIVE_SCHEMA_VERSION && a.archiveHash == a.content
  }

  method VerifySalesArchive(a: SalesArchive) returns (valid: bool)
    ensures valid <==> ArchiveValid(a)
  {
    hide AuditValid;
    var snapshot, complete := VerifyAuditSnapshot(SnapshotIn(a.content));
    return snapshot && a.content.schemaVersion == ARCHIVE_SCHEMA_VERSION && a.archiveHash == a.content;
  }

  // ----- Reading and adding records -----

  predicate Distinct<T(==)>(xs: seq<T>) { forall i, k :: 0 <= i < k < |xs| ==> xs[i] != xs[k] }

  function First<V>(r: (string, V)): string { r.0 }
  function Second<V>(r: (string, V)): V { r.1 }

  /** `getAll()`: every record once, in no particular order. */
  method ReadAll<V>(m: map<string, V>) returns (records: seq<(string, V)>)
    ensures Distinct(Keys(records, First)) && Holds(m, records, First, Second)
  {
    var rest := m.Keys;
    records := [];
    while rest != {}
      invariant rest <= m.Keys
      invariant forall i :: 0 <= i < |records| ==> records[i].0 in m && records[i].0 !in rest && m[records[i].0] == records[i].1
      invariant forall i, k :: 0 <= i < k < |records| ==> records[i].0 != records[k].0
      invariant forall id :: id in m && id !in rest ==> exists i :: 0 <= i < |records| && records[i].0 == id
      decreases |rest|
    {
      var id :| id in rest;
      rest := rest - {id};
      ghost var before := records;
      records := records + [(id, m[id])];
      forall other | other in m && other !in rest ensures exists i :: 0 <= i < |records| && records[i].0 == other {
        if other != id {
          var i :| 0 <= i < |before| && before[i].0 == other;
          assert records[i].0 == other;
        } else {
          assert records[|before|].0 == id;
        }
      }
    }
    FirstKeys(records);
  }

  lemma {:induction false} FirstKeys<V>(records: seq<(string, V)>)
    ensures |Keys(records, First)| == |records|
    ensures forall i :: 0 <= i < |records| ==> Keys(records, First)[i] == records[i].0
  {
    forall i | 0 <= i < |records| ensures Keys(records, First)[i] == records[i].0 {
      assert First(records[i]) == records[i].0;
    }
  }

  function OrderKey(o: StoredOrder): string { o.order.id }
  function EntryKey(e: Entry): string { e.Id() }
  function TechnicalKey(t: Technical): string { t.0 }

  function Keys<T>(xs: seq<T>, key: T -> string): seq<string> { seq(|xs|, i requires 0 <= i < |xs| => key(xs[i])) }

  /** `store.add` for each record: a key the store has, or one met twice, aborts the transaction. */
  method AddAll<T(==), V>(store: map<string, V>, xs: seq<T>, key: T -> string, value: T -> V) returns (m: Option<map<string, V>>)
    ensures m.Some? <==> Distinct(Keys(xs, key)) && NoneIn(store, xs, key)
    ensures m.Some? ==> Adds(store, m.value, xs, key, value)
  {
    var added := store;
    for i := 0 to |xs|
      invariant Distinct(Keys(xs[..i], key)) && NoneIn(store, xs[..i], key) && Adds(store, added, xs[..i], key, value)
    {
      assert Keys(xs[..i + 1], key) == Keys(xs[..i], key) + [key(xs[i])];
      assert forall k :: 0 <= k < |xs| ==> Keys(xs, key)[k] == key(xs[k]);
      if key(xs[i]) in added {
        if key(xs[i]) !in store {
          var k :| 0 <= k < i && key(xs[..i][k]) == key(xs[i]);
          assert Keys(xs, key)[k] == Keys(xs, key)[i];
        }
        return None;
      }
      added := added[key(xs[i]) := value(xs[i])];
      assert xs[..i + 1] == xs[..i] + [xs[i]];
      forall k | 0 <= k < i ensures key(xs[k]) != key(xs[i]) {
        assert key(xs[..i][k]) in added;
      }
    }
    assert xs[..|xs|] == xs;
    return Some(added);
  }

  ghost predicate NoneIn<T, V>(store: map<string, V>, xs: seq<T>, key: T -> string) {
    forall i :: 0 <= i < |xs| ==> key(xs[i]) !in store
  }

  /** A store after some records were added to it. */
  ghost predicate Adds<T, V>(store: map<string, V>, m: map<string, V>, xs: seq<T>, key: T -> string, value: T -> V) {
    && (forall i :: 0 <= i < |xs| ==> key(xs[i]) in m && m[key(xs[i])] == value(xs[i]))
    && (forall id :: id in store ==> id in m && m[id] == store[id])
    && (forall id :: id in m && id !in store ==> exists i :: 0 <= i < |xs| && key(xs[i]) == id)
  }

  /** Records added to a store give exactly themselves when the store was empty, and never otherwise. */
  lemma {:induction false} AddedAlone<T, V>(store: map<string, V>, m: map<string, V>, xs: seq<T>, key: T -> string, value: T -> V)
    requires NoneIn(store, xs, key) && Adds(store, m, xs, key, value)
    ensures Holds(m, xs, key, value) <==> store == map[]
  {
    if store != map[] {
      var id :| id in store;
      assert id in m;
    }
  }

  /** The map of some records, each under its own key. */
  ghost predicate Holds<T, V>(m: map<string, V>, xs: seq<T>, key: T -> string, value: T -> V) {
    && (forall i :: 0 <= i < |xs| ==> key(xs[i]) in m && m[key(xs[i])] == value(xs[i]))
    && (forall id :: id in m ==> exists i :: 0 <= i < |xs| && key(xs[i]) == id)
  }

  lemma {:induction false} HoldsIsUnique<T, V>(m: map<string, V>, n: map<string, V>, xs: seq<T>, key: T -> string, value: T -> V)
    requires Holds(m, xs, key, value) && Holds(n, xs, key, value)
    ensures m == n
  {
  }

  /** Records added to an empty store. */
  method Indexed<T(==), V>(xs: seq<T>, key: T -> string, value: T -> V) returns (m: Option<map<string, V>>)
    ensures m.Some? <==> Distinct(Keys(xs, key))
    ensures m.Some? ==> Holds(m.value, xs, key, value)
  {
    m := AddAll(map[], xs, key, value);
    if m.Some? { AddedAlone(map[], m.value, xs, key, value); }
  }

  lemma {:induction false} SameMap<T, V>(m: map<string, V>, built: Option<map<string, V>>, xs: seq<T>, key: T -> string, value: T -> V)
    requires built.Some? <==> Distinct(Keys(xs, key))
    requires built.Some? ==> Holds(built.value, xs, key, value)
    ensures built == Some(m) <==> Distinct(Keys(xs, key)) && Holds(m, xs, key, value)
  {
    hide Holds, Distinct;
    if built.Some? && Holds(m, xs, key, value) { HoldsIsUnique(m, built.value, xs, key, value); }
  }

  function SameOrder(o: StoredOrder): StoredOrder { o }
  function SameEntry(e: Entry): Entry { e }
  function PrintingPart(t: Technical): Printing.OrderPrinting { t.1 }

  /** The records of an archive, each store holding exactly its own. */
  ghost predicate Stored(s: Stores, c: ArchiveContent) {
    && Distinct(Keys(c.orders, OrderKey)) && Holds(s.orders, c.orders, OrderKey, SameOrder)
    && Distinct(Keys(c.technical, TechnicalKey)) && Holds(s.technical, c.technical, TechnicalKey, PrintingPart)
    && Distinct(Keys(c.entries, EntryKey)) && Holds(s.ledger, c.entries, EntryKey, SameEntry)
    && s.metadata == c.metadata
  }

  // ----- The state of a target -----

  datatype TargetState = Empty | MatchesArchive | Occupied

  /**
   getArchiveRestoreTargetState. The code compares hashes of the records sorted by id;
   a store holds each id once, so that is Stored.
   */
  ghost function TargetOf(s: Stores, a: SalesArchive): TargetState {
    if Stored(s, a.content) then MatchesArchive
    else if s.orders == map[] && s.ledger == map[] then Empty
    else Occupied
  }

  predicate NothingStored(s: Stores) { s.orders == map[] && s.ledger == map[] && s.technical == map[] }

  /** No two records of one kind share their key. */
  predicate Storable(c: ArchiveContent) {
    Distinct(Keys(c.orders, OrderKey)) && Distinct(Keys(c.technical, TechnicalKey)) && Distinct(Keys(c.entries, EntryKey))
  }

  /** restoreArchive accepts: only the orders and the ledger are counted, a technical record may be left over. */
  ghost predicate Restorable(s: Stores, a: SalesArchive) {
    && ArchiveValid(a) && Storable(a.content)
    && s.orders == map[] && s.ledger == map[]
    && NoneIn(s.technical, a.content.technical, TechnicalKey)
  }

  /** What restoreArchive leaves. */
  ghost predicate Restores(before: Stores, a: SalesArchive, after: Stores) {
    && Restorable(before, a)
    && Holds(after.orders, a.content.orders, OrderKey, SameOrder)
    && Adds(before.technical, after.technical, a.content.technical, TechnicalKey, PrintingPart)
    && Holds(after.ledger, a.content.entries, EntryKey, SameEntry)
    && after.metadata == a.content.metadata
  }

  /** A restored store matches its archive exactly when no technical record was left over. */
  lemma {:induction false} MatchesExactly(before: Stores, a: SalesArchive, after: Stores)
    requires Restores(before, a, after)
    ensures TargetOf(after, a) == MatchesArchive <==> before.technical == map[]
  {
    hide ArchiveValid, Holds, Adds, Distinct, NoneIn;
    AddedAlone(before.technical, after.technical, a.content.technical, TechnicalKey, PrintingPart);
  }

  /** A state some run of the writers leaves: what `Repository.OrderRepository` keeps. */
  ghost predicate Reachable(s: Stores, legacy: Legacy, firstOrder: nat, firstReceipt: nat, journal: seq<Entry>) {
    && LegacyValid(legacy)
    && WellFormed(legacy, journal)
    && Repository.LedgerMatches(s.ledger, journal)
    && Repository.OrdersMatch(s.orders, legacy, journal)
    && s.metadata == Repository.MetadataOf(firstOrder, firstReceipt, journal)
    && Repository.Numbered(firstOrder, firstReceipt, journal)
  }

  lemma {:induction false} ReachableIsKeyed(s: Stores, legacy: Legacy, firstOrder: nat, firstReceipt: nat, journal: seq<Entry>)
    requires Reachable(s, legacy, firstOrder, firstReceipt, journal)
    ensures WellKeyed(s)
  {
    hide WellFormed;
  }

  function Values<V>(records: seq<(string, V)>): (vs: seq<V>)
    ensures |vs| == |records| && forall i :: 0 <= i < |vs| ==> vs[i] == records[i].1
  {
    seq(|records|, i requires 0 <= i < |records| => records[i].1)
  }

  lemma {:induction false} ValuesHold<V>(m: map<string, V>, records: seq<(string, V)>, key: V -> string, same: V -> V)
    requires Distinct(Keys(records, First)) && Holds(m, records, First, Second)
    requires forall id :: id in m ==> key(m[id]) == id
    requires forall v :: same(v) == v
    ensures Distinct(Keys(Values(records), key)) && Holds(m, Values(records), key, same)
  {
    var vs := Values(records);
    forall i | 0 <= i < |vs| ensures key(vs[i]) == records[i].0 && key(vs[i]) in m && m[key(vs[i])] == vs[i] {
      assert First(records[i]) in m && m[First(records[i])] == Second(records[i]);
    }
    forall i, k | 0 <= i < k < |vs| ensures Keys(vs, key)[i] != Keys(vs, key)[k] {
      assert Keys(records, First)[i] != Keys(records, First)[k];
    }
    forall id | id in m ensures exists i :: 0 <= i < |vs| && key(vs[i]) == id {
      var i :| 0 <= i < |records| && First(records[i]) == id;
      assert key(vs[i]) == id;
    }
  }

  lemma {:induction false} TechnicalHold(m: map<string, Printing.OrderPrinting>, records: seq<Technical>)
    requires Distinct(Keys(records, First)) && Holds(m, records, First, Second)
    ensures Distinct(Keys(records, TechnicalKey)) && Holds(m, records, TechnicalKey, PrintingPart)
  {
    assert Keys(records, TechnicalKey) == Keys(records, First);
    forall i | 0 <= i < |records| ensures TechnicalKey(records[i]) in m && m[TechnicalKey(records[i])] == PrintingPart(records[i]) {
      assert First(records[i]) in m && m[First(records[i])] == Second(records[i]);
    }
    forall id | id in m ensures exists i :: 0 <= i < |records| && TechnicalKey(records[i]) == id {
      var i :| 0 <= i < |records| && First(records[i]) == id;
      assert TechnicalKey(records[i]) == id;
    }
  }

  lemma {:induction false} TwiceCounts<T>(xs: seq<T>, i: nat, k: nat)
    requires i < k < |xs| && xs[i] == xs[k]
    ensures multiset(xs)[xs[i]] >= 2
  {
    assert xs == xs[..k] + [xs[k]] + xs[k + 1..];
    assert xs[..k][i] == xs[i];
    assert xs[i] in xs[..k];
  }

  /** Sorting the entries changes neither the set of records nor the absence of duplicates. */
  lemma {:induction false} PermutationHolds(m: map<string, Entry>, entries: seq<Entry>, sorted: seq<Entry>)
    requires Distinct(Keys(entries, EntryKey)) && Holds(m, entries, EntryKey, SameEntry) && multiset(sorted) == multiset(entries)
    ensures Distinct(Keys(sorted, EntryKey)) && Holds(m, sorted, EntryKey, SameEntry)
  {
    SameElements(sorted, entries);
    forall i, k | 0 <= i < k < |entries| ensures entries[i] != entries[k] {
      assert Keys(entries, EntryKey)[i] != Keys(entries, EntryKey)[k];
    }
    forall i | 0 <= i < |sorted| ensures EntryKey(sorted[i]) in m && m[EntryKey(sorted[i])] == SameEntry(sorted[i]) {
      assert sorted[i] in entries;
      var n :| 0 <= n < |entries| && entries[n] == sorted[i];
    }
    forall id | id in m ensures exists i :: 0 <= i < |sorted| && EntryKey(sorted[i]) == id {
      var n :| 0 <= n < |entries| && EntryKey(entries[n]) == id;
      assert entries[n] in sorted;
    }
    forall i, k | 0 <= i < k < |sorted| ensures Keys(sorted, EntryKey)[i] != Keys(sorted, EntryKey)[k] {
      DistinctCount(entries, sorted[i]);
      if sorted[i] == sorted[k] { TwiceCounts(sorted, i, k); }
    }
  }

  lemma {:induction false} ReachableAudits(s: Stores, legacy: Legacy, firstOrder: nat, firstReceipt: nat, journal: seq<Entry>, c: ArchiveContent)
    requires Reachable(s, legacy, firstOrder, firstReceipt, journal) && Stored(s, c)
    ensures AuditValid(SnapshotIn(c))
  {
    hide WellFormed, AuditValid, StoredIn, LegacyValid, Repository.Numbered;
    EntriesAreJournal(s.ledger, legacy, journal, c.entries);
    OrdersAreStored(s.orders, legacy, journal, c.orders);
    WritersSatisfyAuditor(legacy, journal, SnapshotIn(c));
  }

  lemma {:induction false} EntriesAreJournal(m: map<string, Entry>, legacy: Legacy, journal: seq<Entry>, entries: seq<Entry>)
    requires WellFormed(legacy, journal) && Repository.LedgerMatches(m, journal)
    requires Distinct(Keys(entries, EntryKey)) && Holds(m, entries, EntryKey, SameEntry)
    ensures multiset(entries) == multiset(journal)
  {
    hide WellFormed;
    forall i, k | 0 <= i < k < |entries| ensures entries[i] != entries[k] {
      assert Keys(entries, EntryKey)[i] != Keys(entries, EntryKey)[k];
    }
    forall i, k | 0 <= i < k < |journal| ensures journal[i] != journal[k] {
      IdsAreDistinct(legacy, journal, i, k);
    }
    forall e ensures e in entries <==> e in journal {
      if e in entries {
        var i :| 0 <= i < |entries| && entries[i] == e;
        assert m[EntryKey(e)] == e;
      }
      if e in journal {
        var n :| 0 <= n < |journal| && journal[n] == e;
        assert e.Id() in m;
        var i :| 0 <= i < |entries| && EntryKey(entries[i]) == e.Id();
        assert m[EntryKey(entries[i])] == SameEntry(entries[i]);
      }
    }
    DistinctMultiset(entries, journal);
  }

  lemma {:induction false} OrdersAreStored(m: map<string, StoredOrder>, legacy: Legacy, journal: seq<Entry>, orders: seq<StoredOrder>)
    requires Repository.OrdersMatch(m, legacy, journal) && Holds(m, orders, OrderKey, SameOrder)
    ensures forall k :: 0 <= k < |orders| ==> StoredIn(legacy, journal, orders[k].order.id) == Some(orders[k])
    ensures forall id :: StoredIn(legacy, journal, id).Some? ==> FindOrder(orders, id).Some?
  {
  }

  /**
   The archive round trip: the records of a reachable store are a valid archive; what
   restores it into an empty store ends with exactly the stores it came from, in the state
   the same run of the writers left, and matches the archive.
   */
  lemma {:induction false} ArchiveRoundTrip(s: Stores, legacy: Legacy, firstOrder: nat, firstReceipt: nat, journal: seq<Entry>,
                                            a: SalesArchive, target: Stores, restored: Stores)
    requires Reachable(s, legacy, firstOrder, firstReceipt, journal) && Stored(s, a.content) && WellSealed(a)
    requires NothingStored(target)
    ensures Restorable(target, a)
    ensures Restores(target, a, restored) ==> restored == s && TargetOf(restored, a) == MatchesArchive
  {
    hide AuditValid, Holds, Distinct, Adds, Reachable;
    ReachableAudits(s, legacy, firstOrder, firstReceipt, journal, a.content);
    assert NoneIn(target.technical, a.content.technical, TechnicalKey);
    if Restores(target, a, restored) {
      MatchesExactly(target, a, restored);
      AddedAlone(target.technical, restored.technical, a.content.technical, TechnicalKey, PrintingPart);
      HoldsIsUnique(s.orders, restored.orders, a.content.orders, OrderKey, SameOrder);
      HoldsIsUnique(s.technical, restored.technical, a.content.technical, TechnicalKey, PrintingPart);
      HoldsIsUnique(s.ledger, restored.ledger, a.content.entries, EntryKey, SameEntry);
    }
  }

  /** The version and the hash exportArchive writes. */
  predicate WellSealed(a: SalesArchive) { a.content.schemaVersion == ARCHIVE_SCHEMA_VERSION && a.archiveHash == a.content }

  class LocalStores {
    var stores: Stores

    constructor (s: Stores)
      ensures stores == s
    {
      stores := s;
    }

    /** exportArchive: refused when the audit is not valid. */
    method ExportArchive(archiveId: string, exportedAt: int, terminalId: string, terminalCode: string, displayName: string)
      returns (archive: Option<SalesArchive>)
      requires WellKeyed(stores)
      ensures archive.Some? ==> ArchiveValid(archive.value) && Stored(stores, archive.value.content)
      ensures archive.Some? ==> archive.value.content.terminalId == terminalId && archive.value.content.terminalCode == terminalCode
                                && archive.value.content.displayName == displayName
      ensures forall legacy, firstOrder, firstReceipt, journal ::
                Reachable(stores, legacy, firstOrder, firstReceipt, journal) ==> archive.Some?
    {
      hide AuditValid, Holds, Distinct, Keys, Values, Reachable;
      var orderRecords := ReadAll(stores.orders);
      var technical := ReadAll(stores.technical);
      var entryRecords := ReadAll(stores.ledger);
      var orders := Values(orderRecords);
      ValuesHold(stores.orders, orderRecords, OrderKey, SameOrder);
      ValuesHold(stores.ledger, entryRecords, EntryKey, SameEntry);
      TechnicalHold(stores.technical, technical);
      var entries := SortBySequence(Values(entryRecords));
      PermutationHolds(stores.ledger, Values(entryRecords), entries);
      var content := ArchiveContent(ARCHIVE_SCHEMA_VERSION, archiveId, exportedAt, terminalId, terminalCode, displayName,
                             stores.metadata, orders, technical, entries);
      assert Stored(stores, content);
      var valid, complete := VerifyAuditSnapshot(SnapshotIn(content));
      forall legacy, firstOrder, firstReceipt, journal | Reachable(stores, legacy, firstOrder, firstReceipt, journal) ensures valid {
        ReachableAudits(stores, legacy, firstOrder, firstReceipt, journal, content);
      }
      if !valid { return None; }
      return Some(SalesArchive(content, content));
    }

    /** getArchiveRestoreTargetState, comparing the records key by key. */
    method GetTargetState(a: SalesArchive) returns (state: TargetState)
      ensures state == TargetOf(stores, a)
    {
      hide Holds, Distinct, Adds;
      var orders := Indexed(a.content.orders, OrderKey, SameOrder);
      var technical := Indexed(a.content.technical, TechnicalKey, PrintingPart);
      var ledger := Indexed(a.content.entries, EntryKey, SameEntry);
      SameMap(stores.orders, orders, a.content.orders, OrderKey, SameOrder);
      SameMap(stores.technical, technical, a.content.technical, TechnicalKey, PrintingPart);
      SameMap(stores.ledger, ledger, a.content.entries, EntryKey, SameEntry);
      if orders == Some(stores.orders) && technical == Some(stores.technical) && ledger == Some(stores.ledger)
         && stores.metadata == a.content.metadata { return MatchesArchive; }
      return if stores.orders == map[] && stores.ledger == map[] then Empty else Occupied;
    }

    /** restoreArchive: all records or none. */
    method RestoreArchive(a: SalesArchive) returns (ok: bool)
      modifies this
      ensures ok <==> old(Restorable(stores, a))
      ensures if ok then Restores(old(stores), a, stores) else stores == old(stores)
    {
      hide ArchiveValid, Holds, Distinct, Adds, NoneIn;
      var valid := VerifySalesArchive(a);
      if !valid || stores.orders != map[] || stores.ledger != map[] { return false; }
      var orders := Indexed(a.content.orders, OrderKey, SameOrder);
      if orders.None? { return false; }
      var technical := AddAll(stores.technical, a.content.technical, TechnicalKey, PrintingPart);
      if technical.None? { return false; }
      var ledger := Indexed(a.content.entries, EntryKey, SameEntry);
      if ledger.None? { return false; }
      stores := Stores(orders.value, technical.value, ledger.value, a.content.metadata);
      return true;
    }
  }
}
