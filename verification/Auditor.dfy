/**
 The independent replay of a whole store (src/services/orderRepository.ts:389-565), proved
 to accept every store the writers can leave and to pin down the journal by its head.
 */
module Auditor {
  import opened Ledger
  import opened Sums
  import opened Closures
  import opened CashSessions
  import opened Refunds
  import opened Journal
  import opened Ordering

  datatype Snapshot = Snapshot(metadata: Metadata, orders: seq<StoredOrder>, entries: seq<Entry>)

  // ----- What the auditor checks, entry by entry -----

  predicate LinkAudit(before: seq<Entry>, e: Entry) {
    && e.Sequence() == |before| + 1
    && e.content.previousHash == Head(before)
    && e.content.schemaVersion == LEDGER_SCHEMA_VERSION
    && e.Sealed()
  }

  /** `snapshot.orders.find` */
  function FindOrder(orders: seq<StoredOrder>, id: string): (found: Option<StoredOrder>)
    ensures found.Some? ==> found.value in orders && found.value.order.id == id
    ensures found.None? ==> forall k :: 0 <= k < |orders| ==> orders[k].order.id != id
  {
    if orders == [] then None
    else if orders[0].order.id == id then Some(orders[0])
    else
      var rest := FindOrder(orders[1..], id);
      assert forall k :: 1 <= k < |orders| ==> orders[k] == orders[1..][k - 1];
      rest
  }

  /** `entries.filter((candidate) => candidate.sequence < entry.sequence)` */
  function Preceding(entries: seq<Entry>, sequence: int): seq<Entry> {
    if entries == [] then []
    else
      var last := entries[|entries| - 1];
      Preceding(entries[..|entries| - 1], sequence) + if last.Sequence() < sequence then [last] else []
  }

  predicate ClosureAudit(active: Option<ActiveCash>, preceding: seq<Entry>, c: SalesClosure) {
    && c.totals == ClosureTotals(preceding, c.periodStart, c.periodEnd)
    && (NamesSession(c) ==>
          var s := c.session.value;
          && CashAmount(s.openingFloatCents)
          && SafeInteger(c.totals.cashCents)
          && SafeInteger(s.openingFloatCents + c.totals.cashCents)
          && s.theoreticalCashCents == s.openingFloatCents + c.totals.cashCents
          && active.Some?
          && active.value.id == s.cashSessionId
          && active.value.periodStart == c.periodStart
          && active.value.openingFloatCents == s.openingFloatCents)
  }

  predicate EntryAudit(orders: seq<StoredOrder>, entries: seq<Entry>, before: seq<Entry>, e: Entry) {
    var active := AuditorActive(before);
    match e.Body()
    case Sale(order) => FindSale(before, order.id).None?
    case Correction(c) =>
      var original := FindOrder(orders, c.originalOrderId);
      original.Some? && (original.value.integrity.Some? ==> c.originalSaleHash == Some(original.value.integrity.value.hash))
    case SessionOpened(s) =>
      && !OpenedIn(before, s.sessionId)
      && active.None?
      && CashAmount(s.openingFloatCents)
      && s.createdAt == e.RecordedAt()
      && s.periodStart <= s.createdAt
    case FloatUpdated(u) =>
      && active.Some?
      && active.value.id == u.sessionId
      && active.value.openingFloatCents == u.previousOpeningFloatCents
      && CashAmount(u.newOpeningFloatCents)
    case Closure(c) => ClosureAudit(active, Preceding(entries, e.Sequence()), c)
  }

  /** A sealed order points at its sale entry and equals what the entry recorded. */
  predicate OrderAudit(entries: seq<Entry>, stored: StoredOrder) {
    stored.integrity.Some? ==>
      var sale := FindSale(entries, stored.order.id);
      && sale.Some?
      && stored.integrity.value == Integrity(sale.value.Id(), sale.value.Sequence(), sale.value.hash)
      && stored.order == sale.value.Body().order
  }

  predicate MetadataAudit(metadata: Metadata, entries: seq<Entry>) {
    && metadata.nextJournalSequence == |entries| + 1
    && metadata.lastJournalHash == Head(entries)
    && metadata.lastClosureEnd == LastClosureEnd(entries)
  }

  ghost predicate SortedAudit(metadata: Metadata, orders: seq<StoredOrder>, entries: seq<Entry>) {
    && (forall n :: 0 <= n < |entries| ==> LinkAudit(entries[..n], entries[n]))
    && (forall n :: 0 <= n < |entries| ==> EntryAudit(orders, entries, entries[..n], entries[n]))
    && (forall k :: 0 <= k < |orders| ==> OrderAudit(entries, orders[k]))
    && (forall n :: 0 <= n < |entries| && entries[n].Body().Sale? ==> FindOrder(orders, entries[n].Body().order.id).Some?)
    && MetadataAudit(metadata, entries)
  }

  /** Some arrangement of the entries passes: at most one can, the one in sequence order. */
  ghost predicate AuditValid(s: Snapshot) {
    exists entries :: multiset(entries) == multiset(s.entries) && SortedAudit(s.metadata, s.orders, entries)
  }

  lemma {:induction false} SortedAuditIsSorted(metadata: Metadata, orders: seq<StoredOrder>, entries: seq<Entry>)
    requires SortedAudit(metadata, orders, entries)
    ensures Consecutive(entries) && Chained(entries)
  {
  }

  lemma {:induction false} TheArrangement(s: Snapshot, sorted: seq<Entry>)
    requires multiset(sorted) == multiset(s.entries) && SortedBySequence(sorted)
    ensures AuditValid(s) <==> SortedAudit(s.metadata, s.orders, sorted)
  {
    hide SortedAudit;
    if AuditValid(s) {
      var entries :| multiset(entries) == multiset(s.entries) && SortedAudit(s.metadata, s.orders, entries);
      SortedAuditIsSorted(s.metadata, s.orders, entries);
      SortRestoresJournal(sorted, entries);
    }
  }

  // ----- The replay -----

  method AuditLinks(entries: seq<Entry>) returns (ok: bool)
    ensures ok <==> forall n :: 0 <= n < |entries| ==> LinkAudit(entries[..n], entries[n])
  {
    var previousHash: Option<Digest> := None;
    ok := true;
    for index := 0 to |entries|
      invariant previousHash == Head(entries[..index])
      invariant ok <==> forall n :: 0 <= n < index ==> LinkAudit(entries[..n], entries[n])
    {
      var e := entries[index];
      if e.Sequence() != index + 1 || e.content.previousHash != previousHash
         || e.content.schemaVersion != LEDGER_SCHEMA_VERSION || !e.Sealed() {
        ok := false;
        assert !LinkAudit(entries[..index], entries[index]);
      }
      previousHash := Some(e.hash);
      assert entries[..index + 1][index] == e;
    }
  }

  /** What the replay remembers of the entries before one. */
  ghost predicate Remembers(before: seq<Entry>, sealedOrders: map<string, Entry>, sessions: set<string>, active: Option<ActiveCash>) {
    && (forall id :: (id in sealedOrders <==> FindSale(before, id).Some?)
                  && (id in sealedOrders ==> Some(sealedOrders[id]) == FindSale(before, id)))
    && (forall id :: id in sessions <==> OpenedIn(before, id))
    && active == AuditorActive(before)
  }

  lemma {:induction false} RemembersNext(before: seq<Entry>, e: Entry, sealedOrders: map<string, Entry>, sessions: set<string>,
                                         active: Option<ActiveCash>)
    requires Remembers(before, sealedOrders, sessions, active)
    ensures Remembers(before + [e],
              if e.Body().Sale? then sealedOrders[e.Body().order.id := e] else sealedOrders,
              if e.Body().SessionOpened? then sessions + {e.Body().session.sessionId} else sessions,
              AuditorActive(before + [e]))
    ensures AuditorActive(before + [e]) ==
      match e.Body()
      case SessionOpened(_) => Some(Opened(e))
      case FloatUpdated(u) =>
        if active.Some? && active.value.id == u.sessionId
        then Some(active.value.(openingFloatCents := u.newOpeningFloatCents)) else active
      case Closure(c) => if NamesSession(c) then None else active
      case _ => active
  {
  }

  /** One turn of the second loop. */
  method AuditEntry(orders: seq<StoredOrder>, entries: seq<Entry>, ghost before: seq<Entry>, e: Entry,
                    sealedOrders: map<string, Entry>, sessions: set<string>, active: Option<ActiveCash>) returns (fine: bool)
    requires Remembers(before, sealedOrders, sessions, active)
    ensures fine <==> EntryAudit(orders, entries, before, e)
  {
    hide ClosureAudit, Preceding, FindSale, OpenedIn, AuditorActive;
    match e.Body()
    case Sale(order) => return order.id !in sealedOrders;
    case Correction(c) =>
      var original := FindOrder(orders, c.originalOrderId);
      return original.Some?
        && (original.value.integrity.Some? ==> c.originalSaleHash == Some(original.value.integrity.value.hash));
    case SessionOpened(s) =>
      return s.sessionId !in sessions && active.None? && CashAmount(s.openingFloatCents)
        && s.createdAt == e.RecordedAt() && s.periodStart <= s.createdAt;
    case FloatUpdated(u) =>
      return active.Some? && active.value.id == u.sessionId
        && active.value.openingFloatCents == u.previousOpeningFloatCents && CashAmount(u.newOpeningFloatCents);
    case Closure(c) => fine := AuditClosure(entries, e, c, active);
  }

  /** The second loop: sealed sales, opened sessions and the active session. */
  method AuditEntries(orders: seq<StoredOrder>, entries: seq<Entry>) returns (ok: bool, sealedOrders: map<string, Entry>)
    ensures ok <==> forall n :: 0 <= n < |entries| ==> EntryAudit(orders, entries, entries[..n], entries[n])
    ensures forall id :: (id in sealedOrders <==> FindSale(entries, id).Some?)
                      && (id in sealedOrders ==> Some(sealedOrders[id]) == FindSale(entries, id))
  {
    hide EntryAudit, FindSale, OpenedIn, AuditorActive;
    sealedOrders, ok := map[], true;
    var sessions: set<string> := {};
    var active: Option<ActiveCash> := None;
    RemembersNothing(entries[..0]);
    for i := 0 to |entries|
      invariant Remembers(entries[..i], sealedOrders, sessions, active)
      invariant ok <==> forall n :: 0 <= n < i ==> EntryAudit(orders, entries, entries[..n], entries[n])
    {
      var e := entries[i];
      var fine := AuditEntry(orders, entries, entries[..i], e, sealedOrders, sessions, active);
      ok := ok && fine;
      RemembersNext(entries[..i], e, sealedOrders, sessions, active);
      assert entries[..i + 1] == entries[..i] + [e];
      match e.Body() {
        case Sale(order) => sealedOrders := sealedOrders[order.id := e];
        case SessionOpened(s) => sessions, active := sessions + {s.sessionId}, Some(Opened(e));
        case FloatUpdated(u) =>
          if active.Some? && active.value.id == u.sessionId {
            active := Some(active.value.(openingFloatCents := u.newOpeningFloatCents));
          }
        case Closure(c) => if c.session.Some? && c.session.value.cashSessionId != "" { active := None; }
        case Correction(_) =>
      }
    }
    assert entries[..|entries|] == entries;
  }

  lemma {:induction false} RemembersNothing(none: seq<Entry>)
    requires none == []
    ensures Remembers(none, map[], {}, None)
  {
  }

  method AuditClosure(entries: seq<Entry>, e: Entry, c: SalesClosure, active: Option<ActiveCash>) returns (fine: bool)
    ensures fine <==> ClosureAudit(active, Preceding(entries, e.Sequence()), c)
  {
    hide ClosureTotals;
    var preceding := Preceding(entries, e.Sequence());
    var expected := CalculateClosureTotals(preceding, c.periodStart, c.periodEnd);
    fine := expected == c.totals;
    if c.session.Some? && c.session.value.cashSessionId != "" {
      var s := c.session.value;
      if !CashAmount(s.openingFloatCents) || !SafeInteger(expected.cashCents)
         || !SafeInteger(s.openingFloatCents + expected.cashCents) { return false; }
      fine := fine && s.theoreticalCashCents == s.openingFloatCents + expected.cashCents
        && active.Some? && active.value.id == s.cashSessionId && active.value.periodStart == c.periodStart
        && active.value.openingFloatCents == s.openingFloatCents;
    }
  }

  method VerifyAuditSnapshot(s: Snapshot) returns (valid: bool, complete: bool)
    ensures valid <==> AuditValid(s)
    ensures complete <==> valid && forall k :: 0 <= k < |s.orders| ==> s.orders[k].integrity.Some?
  {
    hide LinkAudit, EntryAudit, AuditValid;
    var entries := SortBySequence(s.entries);
    TheArrangement(s, entries);
    var linked := AuditLinks(entries);
    var replayed, sealedOrders := AuditEntries(s.orders, entries);
    var ordersFine, legacy := true, false;
    for k := 0 to |s.orders|
      invariant ordersFine <==> forall m :: 0 <= m < k ==> OrderAudit(entries, s.orders[m])
      invariant legacy <==> exists m :: 0 <= m < k && s.orders[m].integrity.None?
    {
      var stored := s.orders[k];
      if stored.integrity.None? {
        legacy := true;
      } else if stored.order.id !in sealedOrders {
        ordersFine := false;
        assert !OrderAudit(entries, s.orders[k]);
      } else {
        var sale := sealedOrders[stored.order.id];
        if stored.integrity.value != Integrity(sale.Id(), sale.Sequence(), sale.hash) || stored.order != sale.Body().order {
          ordersFine := false;
          assert !OrderAudit(entries, s.orders[k]);
        }
      }
    }
    var present := forall id :: id in sealedOrders.Keys ==> FindOrder(s.orders, id).Some?;
    SealedKeys(s.orders, entries, sealedOrders);
    var described := MetadataAudit(s.metadata, entries);
    valid := linked && replayed && ordersFine && present && described;
    complete := valid && !legacy;
  }

  lemma {:induction false} SealedKeys(orders: seq<StoredOrder>, entries: seq<Entry>, sealedOrders: map<string, Entry>)
    requires forall id :: id in sealedOrders <==> FindSale(entries, id).Some?
    ensures (forall id :: id in sealedOrders.Keys ==> FindOrder(orders, id).Some?) <==>
            (forall n :: 0 <= n < |entries| && entries[n].Body().Sale? ==> FindOrder(orders, entries[n].Body().order.id).Some?)
  {
  }

  // ----- Every store the writers leave passes -----

  /** A snapshot reads every order and every entry once, in no particular order. */
  ghost predicate SnapshotOf(s: Snapshot, legacy: Legacy, journal: seq<Entry>) {
    && multiset(s.entries) == multiset(journal)
    && (forall k :: 0 <= k < |s.orders| ==> StoredIn(legacy, journal, s.orders[k].order.id) == Some(s.orders[k]))
    && (forall id :: StoredIn(legacy, journal, id).Some? ==> FindOrder(s.orders, id).Some?)
    && MetadataAudit(s.metadata, journal)
  }

  lemma {:induction false} PrecedingIsPrefix(entries: seq<Entry>, n: nat)
    requires Consecutive(entries) && n <= |entries|
    ensures Preceding(entries, n + 1) == entries[..n]
  {
    if n == |entries| {
      WholeBelow(entries, n + 1);
      assert entries[..n] == entries;
    } else {
      var front := entries[..|entries| - 1];
      PrecedingIsPrefix(front, n);
      assert front[..n] == entries[..n];
    }
  }

  lemma {:induction false} WholeBelow(entries: seq<Entry>, sequence: int)
    requires Consecutive(entries) && |entries| < sequence
    ensures Preceding(entries, sequence) == entries
  {
    if entries != [] {
      var n := |entries| - 1;
      assert entries[n].Sequence() < sequence;
      assert Preceding(entries, sequence) == Preceding(entries[..n], sequence) + [entries[n]];
      WholeBelow(entries[..n], sequence);
      assert entries == entries[..n] + [entries[n]];
    }
  }

  lemma {:induction false} AcceptedEntryAudits(legacy: Legacy, journal: seq<Entry>, orders: seq<StoredOrder>, n: nat)
    requires WellFormed(legacy, journal) && n < |journal|
    requires forall k :: 0 <= k < |orders| ==> StoredIn(legacy, journal, orders[k].order.id) == Some(orders[k])
    requires forall id :: StoredIn(legacy, journal, id).Some? ==> FindOrder(orders, id).Some?
    ensures LinkAudit(journal[..n], journal[n]) && EntryAudit(orders, journal, journal[..n], journal[n])
  {
    hide WellFormed, ClosureTotals, ValidOrder, CorrectionRule, PriorCorrections, LastClosureEnd, StoredIn, ActiveSession;
    var before, e := journal[..n], journal[n];
    WellFormedAt(legacy, journal, n);
    WellFormedIsChained(legacy, journal);
    WellFormedPrefix(legacy, journal, n);
    ActiveSessionForms(legacy, before);
    match e.Body()
    case Sale(order) => SaleNotBefore(legacy, journal, n);
    case Correction(c) =>
      StoredStays(legacy, journal, n, |journal|, c.originalOrderId);
      assert journal[..|journal|] == journal;
      var found := FindOrder(orders, c.originalOrderId).value;
      var k :| 0 <= k < |orders| && orders[k] == found;
    case SessionOpened(s) => FreshSession(legacy, journal, n);
    case FloatUpdated(u) =>
    case Closure(c) => PrecedingIsPrefix(journal, n);
  }

  lemma {:induction false} WellFormedAt(legacy: Legacy, journal: seq<Entry>, n: nat)
    requires WellFormed(legacy, journal) && n < |journal|
    ensures Accepted(legacy, journal[..n], journal[n])
  {
  }

  lemma {:induction false} SaleNotBefore(legacy: Legacy, journal: seq<Entry>, n: nat)
    requires WellFormed(legacy, journal) && n < |journal| && journal[n].Body().Sale?
    ensures FindSale(journal[..n], journal[n].Body().order.id).None?
  {
  }

  lemma {:induction false} StoredStays(legacy: Legacy, journal: seq<Entry>, n: nat, m: nat, id: string)
    requires WellFormed(legacy, journal) && n <= m <= |journal| && StoredIn(legacy, journal[..n], id).Some?
    ensures StoredIn(legacy, journal[..m], id) == StoredIn(legacy, journal[..n], id)
    decreases m
  {
    hide StoredIn, WellFormed, Accepted;
    if n < m {
      StoredStays(legacy, journal, n, m - 1, id);
      WellFormedPrefix(legacy, journal, m - 1);
      WellFormedAt(legacy, journal, m - 1);
      StoredOrderIsStable(legacy, journal[..m - 1], journal[m - 1], id);
      assert journal[..m - 1] + [journal[m - 1]] == journal[..m];
    }
  }

  lemma {:induction false} StoredOrderAudits(legacy: Legacy, journal: seq<Entry>, stored: StoredOrder)
    requires StoredIn(legacy, journal, stored.order.id) == Some(stored)
    ensures OrderAudit(journal, stored)
  {
  }

  /** Whatever the run of the writers and whatever order the stores are read in, the audit is valid. */
  lemma {:induction false} WritersSatisfyAuditor(legacy: Legacy, journal: seq<Entry>, s: Snapshot)
    requires WellFormed(legacy, journal) && SnapshotOf(s, legacy, journal)
    ensures AuditValid(s)
  {
    hide WellFormed, Accepted, StoredIn, LinkAudit, EntryAudit, OrderAudit, MetadataAudit;
    forall n | 0 <= n < |journal|
      ensures LinkAudit(journal[..n], journal[n]) && EntryAudit(s.orders, journal, journal[..n], journal[n])
    {
      AcceptedEntryAudits(legacy, journal, s.orders, n);
    }
    forall k | 0 <= k < |s.orders| ensures OrderAudit(journal, s.orders[k]) {
      StoredOrderAudits(legacy, journal, s.orders[k]);
    }
    forall n | 0 <= n < |journal| && journal[n].Body().Sale? ensures FindOrder(s.orders, journal[n].Body().order.id).Some? {
      SaleIsStored(legacy, journal, n);
    }
    assert SortedAudit(s.metadata, s.orders, journal);
  }

  lemma {:induction false} SaleIsStored(legacy: Legacy, journal: seq<Entry>, n: nat)
    requires WellFormed(legacy, journal) && n < |journal| && journal[n].Body().Sale?
    ensures StoredIn(legacy, journal, journal[n].Body().order.id) == Some(SealedOrder(journal[n]))
  {
    hide WellFormed;
    SaleIsUnique(legacy, journal, n);
  }

  // ----- A valid audit pins the store down -----

  /**
   Two stores that pass the audit with the same head digest hold the same entries and the
   same sealed orders: nothing recorded can be altered, dropped or reordered unnoticed.
   */
  lemma {:induction false} HeadPinsStore(a: Snapshot, b: Snapshot)
    requires AuditValid(a) && AuditValid(b) && a.metadata.lastJournalHash == b.metadata.lastJournalHash
    ensures multiset(a.entries) == multiset(b.entries)
    ensures a.metadata.nextJournalSequence == b.metadata.nextJournalSequence
    ensures a.metadata.lastClosureEnd == b.metadata.lastClosureEnd
    ensures forall k :: 0 <= k < |a.orders| && a.orders[k].integrity.Some? ==> SealedAlike(b.orders, a.orders[k])
  {
    hide LinkAudit, EntryAudit, OrderAudit, FindOrder, SealedAlike, FindSale;
    var xs :| multiset(xs) == multiset(a.entries) && SortedAudit(a.metadata, a.orders, xs);
    var ys :| multiset(ys) == multiset(b.entries) && SortedAudit(b.metadata, b.orders, ys);
    SortedAuditIsSorted(a.metadata, a.orders, xs);
    SortedAuditIsSorted(b.metadata, b.orders, ys);
    HeadDeterminesJournal(xs, ys);
    forall k | 0 <= k < |a.orders| && a.orders[k].integrity.Some? ensures SealedAlike(b.orders, a.orders[k]) {
      SealedOnce(xs, a.orders[k], b.orders);
    }
  }

  /** The other store holds the order too, and any seal it puts on it is the same. */
  predicate SealedAlike(orders: seq<StoredOrder>, stored: StoredOrder) {
    var other := FindOrder(orders, stored.order.id);
    other.Some? && (other.value.integrity.Some? ==> other.value == stored)
  }

  lemma {:induction false} SealedOnce(entries: seq<Entry>, stored: StoredOrder, orders: seq<StoredOrder>)
    requires OrderAudit(entries, stored) && stored.integrity.Some?
    requires forall k :: 0 <= k < |orders| ==> OrderAudit(entries, orders[k])
    requires forall n :: 0 <= n < |entries| && entries[n].Body().Sale? ==> FindOrder(orders, entries[n].Body().order.id).Some?
    ensures SealedAlike(orders, stored)
  {
  }
}
