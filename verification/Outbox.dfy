/**
 Delivery of the journal (native/android/OutboxStore.kt). Each method is one Room
 transaction: a refused `require` leaves the store as it was. The protocol invariant is
 proved for one live worker, over every interleaving of the transactions below, worker
 crashes included.
 */
module Outbox {
  import opened Ledger
  import opened OutboxRows

  // ----- The tables against the journal -----

  /** The row of a journal entry, and of a sale older than the journal. */
  predicate RowFor(r: Row, chain: string, payload: Payload) {
    && r.tuple.chainId == chain
    && r.tuple.payload == payload
    && r.tuple.eventId == (match payload case LedgerEvent(e) => e.Id() case LegacyOrder(o) => o.id)
  }

  /** Sequences are consecutive and each entry points at the one before it. */
  ghost predicate JournalShape(ledger: seq<Entry>) {
    && (forall n :: 0 <= n < |ledger| ==> ledger[n].Sequence() == n + 1 && ledger[n].Id() != "")
    && (forall n :: 0 <= n < |ledger| ==> ledger[n].content.previousHash == Head(ledger[..n]))
    && (forall n, m :: 0 <= n < m < |ledger| ==> ledger[n].Id() != ledger[m].Id())
  }

  /** Every row copies a source record. */
  ghost predicate RowsMatch(t: Table, chain: string, ledger: seq<Entry>, legacy: seq<Order>) {
    && Keyed(t)
    && forall id :: id in t ==>
         match t[id].tuple.payload
         case LedgerEvent(e) => e in ledger && RowFor(t[id], chain, LedgerEvent(e))
         case LegacyOrder(o) => o in legacy && RowFor(t[id], chain, LegacyOrder(o))
  }

  predicate HasEntry(t: Table, e: Entry) { e.Id() in t && t[e.Id()].tuple.payload == LedgerEvent(e) }

  predicate HasLegacy(t: Table, o: Order) { o.id in t && t[o.id].tuple.payload == LegacyOrder(o) }

  /** Every source record has its row. */
  ghost predicate Everything(t: Table, ledger: seq<Entry>, legacy: seq<Order>) {
    && (forall n :: 0 <= n < |ledger| ==> HasEntry(t, ledger[n]))
    && (forall n :: 0 <= n < |legacy| ==> HasLegacy(t, legacy[n]))
  }

  predicate SyncedAt(t: Table, ledger: seq<Entry>, n: int) {
    0 <= n < |ledger| && HasEntry(t, ledger[n]) && t[ledger[n].Id()].Status() == Synced
  }

  /** The synced ledger rows are a prefix of the journal. */
  ghost predicate PrefixSynced(t: Table, ledger: seq<Entry>) {
    forall m, n :: 0 <= m < n < |ledger| && SyncedAt(t, ledger, n) ==> SyncedAt(t, ledger, m)
  }

  // ----- The live claim -----

  datatype Claim = LiveClaim(owner: string, rows: seq<Tuple>)

  /** A ledger claim is the contiguous block right after the synced prefix; legacy sales are all synced before it. */
  ghost predicate Block(t: Table, ledger: seq<Entry>, rows: seq<Tuple>) {
    rows != [] && rows[0].payload.LedgerEvent? ==>
      exists k :: BlockAt(t, ledger, rows, k)
  }

  ghost predicate BlockAt(t: Table, ledger: seq<Entry>, rows: seq<Tuple>, k: int) {
    && 0 <= k && k + |rows| <= |ledger|
    && (forall i :: 0 <= i < |rows| ==> rows[i].payload == LedgerEvent(ledger[k + i]) && rows[i].eventId == ledger[k + i].Id())
    && (forall n :: 0 <= n < |ledger| ==> (SyncedAt(t, ledger, n) <==> n < k))
    && (forall id :: id in t && t[id].tuple.payload.LegacyOrder? ==> t[id].Status() == Synced)
  }

  predicate HeldBy(t: Table, owner: string, tuple: Tuple) {
    && tuple.eventId in t
    && t[tuple.eventId].tuple == tuple
    && t[tuple.eventId].Status() == Sending
    && t[tuple.eventId].evidence.claimOwner == Some(owner)
  }

  ghost predicate ClaimHeld(t: Table, ledger: seq<Entry>, c: Claim) {
    && (forall i :: 0 <= i < |c.rows| ==> HeldBy(t, c.owner, c.rows[i]))
    && (forall i, k :: 0 <= i < k < |c.rows| ==> c.rows[i].eventId != c.rows[k].eventId)
    && (forall i :: 0 < i < |c.rows| ==> (c.rows[i].payload.LedgerEvent? <==> c.rows[0].payload.LedgerEvent?))
    && Block(t, ledger, c.rows)
  }

  // ----- What a transaction may do to the rows -----

  /** Rows are never removed, their tuples never change and a stored receipt never changes. */
  ghost predicate Preserved(before: Table, after: Table) {
    && before.Keys <= after.Keys
    && forall id :: id in before ==>
         && after[id].tuple == before[id].tuple
         && (before[id].evidence.receiptId.Some? ==>
               after[id].evidence.receiptId == before[id].evidence.receiptId
               && after[id].evidence.serverReceivedAt == before[id].evidence.serverReceivedAt)
  }

  /** No row becomes synced or stops being synced. */
  ghost predicate SameSynced(before: Table, after: Table) {
    && before.Keys == after.Keys
    && forall id :: id in before ==>
         after[id].tuple == before[id].tuple && (after[id].Status() == Synced <==> before[id].Status() == Synced)
  }

  lemma {:induction false} SameSyncedKeeps(before: Table, after: Table, chain: string, ledger: seq<Entry>, legacy: seq<Order>)
    requires SameSynced(before, after) && RowsMatch(before, chain, ledger, legacy) && PrefixSynced(before, ledger)
    ensures RowsMatch(after, chain, ledger, legacy) && PrefixSynced(after, ledger)
    ensures Everything(before, ledger, legacy) ==> Everything(after, ledger, legacy)
    ensures forall n :: SyncedAt(after, ledger, n) <==> SyncedAt(before, ledger, n)
  {
    forall n ensures SyncedAt(after, ledger, n) <==> SyncedAt(before, ledger, n) {
    }
    forall id | id in after
      ensures after[id].Id() == id
      ensures match after[id].tuple.payload
              case LedgerEvent(e) => e in ledger && RowFor(after[id], chain, LedgerEvent(e))
              case LegacyOrder(o) => o in legacy && RowFor(after[id], chain, LegacyOrder(o))
    {
      assert before[id].Id() == id;
    }
  }

  // ----- The updates of single rows -----

  function FixClock(r: Row, now: int): Row {
    if r.evidence.lastAttemptAt.Some? && r.evidence.lastAttemptAt.value > now then
      r.(evidence := r.evidence.(
        lastAttemptAt := Some(now),
        nextAttemptAt := Min(r.evidence.nextAttemptAt, now + MAX_BACKOFF_MILLIS),
        leaseExpiresAt := match r.evidence.leaseExpiresAt case None => None case Some(at) => Some(Min(at, now + LEASE_MILLIS))))
    else r
  }

  function Min(a: int, b: int): int { if a <= b then a else b }

  predicate Expired(r: Row, now: int) {
    r.Status() == Sending && r.evidence.leaseExpiresAt.Some? && r.evidence.leaseExpiresAt.value <= now
  }

  function RecoverRow(r: Row, now: int): Row {
    if Expired(r, now) then r.(evidence := r.evidence.(status := Pending, claimOwner := None, leaseExpiresAt := None)) else r
  }

  function ResumeRow(r: Row): Row {
    if r.Status() == PausedAuth then r.(evidence := r.evidence.(status := Pending, nextAttemptAt := 0)) else r
  }

  function Bound(r: Row, scope: Scope, owner: string, now: int): Row {
    r.(evidence := r.evidence.(
      organizationId := Some(scope.organizationId),
      festivalId := Some(scope.festivalId),
      transportFingerprint := Some(Fingerprint(r.tuple, scope)),
      status := Sending, claimOwner := Some(owner), leaseExpiresAt := Some(now + LEASE_MILLIS), lastAttemptAt := Some(now)))
  }

  predicate Bindable(r: Row, scope: Scope) {
    && (r.evidence.organizationId.Some? ==>
          r.evidence.organizationId == Some(scope.organizationId) && r.evidence.festivalId == Some(scope.festivalId))
    && (r.evidence.transportFingerprint.Some? ==> r.evidence.transportFingerprint == Some(Fingerprint(r.tuple, scope)))
  }

  /** The rows changed one by one, as `forEach` and the UPDATE statements do. */
  function Change(t: Table, f: Row -> Row, touched: set<string>): Table {
    map id | id in t :: if id in touched then f(t[id]) else t[id]
  }

  /** What the three recovery statements of claim leave behind. */
  function Refreshed(t: Table, skewed: set<string>, now: int): Table {
    map id | id in t :: ResumeRow(RecoverRow(if id in skewed then FixClock(t[id], now) else t[id], now))
  }

  predicate Blocked(t: Table) {
    exists id :: id in t && t[id].Status() in {Quarantined, NeedsRecovery}
  }

  /** How many candidates the claim loop takes, when no binding is refused. */
  predicate Takes(r: Row, ledger: bool, now: int) {
    r.tuple.payload.LedgerEvent? == ledger && r.Status() == Pending && r.evidence.nextAttemptAt <= now
  }

  function TakeLength(rows: seq<Row>, ledger: bool, now: int, limit: nat): (n: nat)
    ensures n <= |rows| && n <= limit
  {
    if rows == [] || limit == 0 || !Takes(rows[0], ledger, now) then 0
    else 1 + TakeLength(rows[1..], ledger, now, limit - 1)
  }

  lemma {:induction false} TakeLengthIs(rows: seq<Row>, ledger: bool, now: int, limit: nat, j: nat)
    requires j <= |rows| && j <= limit
    requires forall i :: 0 <= i < j ==> Takes(rows[i], ledger, now)
    requires j == |rows| || j == limit || !Takes(rows[j], ledger, now)
    ensures TakeLength(rows, ledger, now, limit) == j
  {
    if j > 0 {
      TakeLengthIs(rows[1..], ledger, now, limit - 1, j - 1);
    }
  }

  // ----- The outstanding rows of a complete outbox -----

  /** Where an outstanding row stands against the i-th row of the query. */
  lemma {:induction false} Position(t: Table, rows: seq<Row>, limit: nat, row: Row, i: nat)
    requires IsOutstanding(t, rows, limit) && i < |rows|
    requires row.Id() in t && t[row.Id()] == row && Outstanding(row)
    ensures row == rows[i] || RowBefore(rows[i].tuple, row.tuple) || exists m :: 0 <= m < i && rows[m] == row
  {
  }

  lemma {:induction false} SameRowAt(t: Table, a: seq<Row>, b: seq<Row>, limit: nat, i: nat)
    requires IsOutstanding(t, a, limit) && IsOutstanding(t, b, limit) && i < |a| && i < |b|
    requires forall m :: 0 <= m < i ==> a[m] == b[m]
    ensures a[i] == b[i]
  {
    hide RowBefore, Outstanding;
    Position(t, a, limit, b[i], i);
    Position(t, b, limit, a[i], i);
    RowBeforeIsTotal(a[i].tuple, b[i].tuple);
    forall m | 0 <= m < i ensures a[m] != b[i] && b[m] != a[i] {
      assert RowBefore(a[m].tuple, a[i].tuple) && RowBefore(b[m].tuple, b[i].tuple);
      RowBeforeIsTotal(a[m].tuple, a[i].tuple);
      RowBeforeIsTotal(b[m].tuple, b[i].tuple);
    }
  }

  lemma {:induction false} SameRows(t: Table, a: seq<Row>, b: seq<Row>, limit: nat, n: nat)
    requires IsOutstanding(t, a, limit) && IsOutstanding(t, b, limit) && n <= |a| && n <= |b|
    ensures a[..n] == b[..n]
  {
    hide IsOutstanding;
    if n > 0 {
      SameRows(t, a, b, limit, n - 1);
      assert forall m :: 0 <= m < n - 1 ==> a[m] == a[..n - 1][m] == b[..n - 1][m] == b[m];
      SameRowAt(t, a, b, limit, n - 1);
    }
  }

  lemma {:induction false} NotLonger(t: Table, a: seq<Row>, b: seq<Row>, limit: nat)
    requires IsOutstanding(t, a, limit) && IsOutstanding(t, b, limit)
    ensures |b| <= |a|
  {
    hide RowBefore, Outstanding;
    if |a| < |b| {
      SameRows(t, a, b, limit, |a|);
      var row := b[|a|];
      forall m | 0 <= m < |a| ensures a[m] != row {
        assert a[m] == a[..|a|][m] == b[..|a|][m] == b[m] && RowBefore(b[m].tuple, row.tuple);
        RowBeforeIsTotal(b[m].tuple, row.tuple);
      }
    }
  }

  /** The query has one answer. */
  lemma {:induction false} OutstandingIsUnique(t: Table, a: seq<Row>, b: seq<Row>, limit: nat)
    requires IsOutstanding(t, a, limit) && IsOutstanding(t, b, limit)
    ensures a == b
  {
    hide IsOutstanding;
    NotLonger(t, a, b, limit);
    NotLonger(t, b, a, limit);
    SameRows(t, a, b, limit, |a|);
    assert a[..|a|] == a && b[..|a|] == b;
  }

  lemma {:induction false} BeforeFirstIsSynced(t: Table, rows: seq<Row>, limit: nat, row: Row)
    requires IsOutstanding(t, rows, limit) && rows != []
    requires row.Id() in t && t[row.Id()] == row && RowBefore(row.tuple, rows[0].tuple)
    ensures row.Status() == Synced
  {
    hide RowBefore, IsOutstanding;
    RowBeforeIsTotal(row.tuple, rows[0].tuple);
    if Outstanding(row) { Position(t, rows, limit, row, 0); }
  }

  lemma {:induction false} NotBetween(t: Table, rows: seq<Row>, limit: nat, i: nat, row: Row)
    requires IsOutstanding(t, rows, limit) && 0 < i < |rows|
    requires row.Id() in t && t[row.Id()] == row && Outstanding(row)
    ensures !(RowBefore(rows[i - 1].tuple, row.tuple) && RowBefore(row.tuple, rows[i].tuple))
  {
    hide RowBefore, Outstanding;
    RowBeforeIsTotal(rows[i].tuple, row.tuple);
    RowBeforeIsTotal(rows[i - 1].tuple, row.tuple);
    Position(t, rows, limit, row, i);
    forall m | 0 <= m < i && rows[m] == row ensures m == i - 1 || RowBefore(row.tuple, rows[i - 1].tuple) {
    }
  }

  lemma {:induction false} IndexOf(t: Table, chain: string, ledger: seq<Entry>, legacy: seq<Order>, r: Row) returns (k: nat)
    requires JournalShape(ledger) && RowsMatch(t, chain, ledger, legacy) && r.Id() in t && t[r.Id()] == r && r.tuple.payload.LedgerEvent?
    ensures k < |ledger| && r.tuple.payload == LedgerEvent(ledger[k]) && r.Id() == ledger[k].Id()
    ensures k == r.tuple.payload.entry.Sequence() - 1
  {
    var e := r.tuple.payload.entry;
    k :| 0 <= k < |ledger| && ledger[k] == e;
  }

  lemma {:induction false} SequencesGrow(ledger: seq<Entry>, n: nat, k: nat)
    requires JournalShape(ledger) && n < |ledger| && k < |ledger|
    ensures ledger[n].Sequence() < ledger[k].Sequence() <==> n < k
  {
  }

  /** Everything before the first outstanding ledger row is synced, legacy sales included. */
  lemma {:induction false} SyncedBefore(t: Table, chain: string, ledger: seq<Entry>, legacy: seq<Order>, rows: seq<Row>, limit: nat, k: nat)
    requires JournalShape(ledger) && RowsMatch(t, chain, ledger, legacy) && PrefixSynced(t, ledger)
    requires Everything(t, ledger, legacy) && IsOutstanding(t, rows, limit) && rows != []
    requires k < |ledger| && rows[0].tuple.payload == LedgerEvent(ledger[k]) && rows[0].Id() == ledger[k].Id()
    ensures forall n :: 0 <= n < |ledger| ==> (SyncedAt(t, ledger, n) <==> n < k)
    ensures forall id :: id in t && t[id].tuple.payload.LegacyOrder? ==> t[id].Status() == Synced
  {
    hide JournalShape;
    assert !SyncedAt(t, ledger, k);
    forall n | 0 <= n < k ensures SyncedAt(t, ledger, n) {
      assert HasEntry(t, ledger[n]);
      SequencesGrow(ledger, n, k);
      BeforeFirstIsSynced(t, rows, limit, t[ledger[n].Id()]);
    }
    forall id | id in t && t[id].tuple.payload.LegacyOrder? ensures t[id].Status() == Synced {
      BeforeFirstIsSynced(t, rows, limit, t[id]);
    }
  }

  /** Between two consecutive outstanding ledger rows there is no entry. */
  lemma {:induction false} NextRow(t: Table, ledger: seq<Entry>, legacy: seq<Order>, rows: seq<Row>, limit: nat, i: nat, p: nat, q: nat)
    requires JournalShape(ledger) && PrefixSynced(t, ledger) && Everything(t, ledger, legacy) && IsOutstanding(t, rows, limit)
    requires 0 < i < |rows| && p < |ledger| && q < |ledger|
    requires rows[i - 1].tuple.payload == LedgerEvent(ledger[p]) && rows[i].tuple.payload == LedgerEvent(ledger[q])
    requires rows[i - 1].Id() == ledger[p].Id() && rows[i].Id() == ledger[q].Id()
    ensures q == p + 1
  {
    hide JournalShape;
    SequencesGrow(ledger, p, q);
    SequencesGrow(ledger, q, p);
    assert RowBefore(rows[i - 1].tuple, rows[i].tuple);
    RowBeforeIsTotal(rows[i - 1].tuple, rows[i - 1].tuple);
    assert p < q;
    assert HasEntry(t, ledger[p + 1]);
    var row := t[ledger[p + 1].Id()];
    assert !SyncedAt(t, ledger, p);
    assert !SyncedAt(t, ledger, p + 1);
    SequencesGrow(ledger, p, p + 1);
    SequencesGrow(ledger, p + 1, q);
    NotBetween(t, rows, limit, i, row);
  }

  lemma {:induction false} ConsecutiveRows(t: Table, chain: string, ledger: seq<Entry>, legacy: seq<Order>,
                                           rows: seq<Row>, limit: nat, j: nat, k: nat)
    requires JournalShape(ledger) && RowsMatch(t, chain, ledger, legacy) && PrefixSynced(t, ledger)
    requires Everything(t, ledger, legacy) && IsOutstanding(t, rows, limit) && 0 < j <= |rows|
    requires forall i :: 0 <= i < j ==> rows[i].tuple.payload.LedgerEvent?
    requires k < |ledger| && rows[0].tuple.payload == LedgerEvent(ledger[k]) && rows[0].Id() == ledger[k].Id()
    ensures k + j <= |ledger|
    ensures forall i :: 0 <= i < j ==> rows[i].tuple.payload == LedgerEvent(ledger[k + i]) && rows[i].Id() == ledger[k + i].Id()
    decreases j
  {
    hide JournalShape, RowsMatch, PrefixSynced, Everything;
    if j > 1 {
      ConsecutiveRows(t, chain, ledger, legacy, rows, limit, j - 1, k);
      var q := IndexOf(t, chain, ledger, legacy, rows[j - 1]);
      NextRow(t, ledger, legacy, rows, limit, j - 1, k + j - 2, q);
    }
  }

  /** Under a synced prefix the outstanding ledger rows are consecutive, starting right after it. */
  lemma {:induction false} OutstandingIsBlock(t: Table, chain: string, ledger: seq<Entry>, legacy: seq<Order>,
                                              rows: seq<Row>, limit: nat, j: nat) returns (k: nat)
    requires JournalShape(ledger) && RowsMatch(t, chain, ledger, legacy) && PrefixSynced(t, ledger)
    requires Everything(t, ledger, legacy) && IsOutstanding(t, rows, limit) && 0 < j <= |rows|
    requires forall i :: 0 <= i < j ==> rows[i].tuple.payload.LedgerEvent?
    ensures k + j <= |ledger|
    ensures forall i :: 0 <= i < j ==> rows[i].tuple.payload == LedgerEvent(ledger[k + i]) && rows[i].Id() == ledger[k + i].Id()
    ensures forall n :: 0 <= n < |ledger| ==> (SyncedAt(t, ledger, n) <==> n < k)
    ensures forall id :: id in t && t[id].tuple.payload.LegacyOrder? ==> t[id].Status() == Synced
  {
    hide JournalShape, RowsMatch, PrefixSynced, Everything;
    k := IndexOf(t, chain, ledger, legacy, rows[0]);
    SyncedBefore(t, chain, ledger, legacy, rows, limit, k);
    ConsecutiveRows(t, chain, ledger, legacy, rows, limit, j, k);
  }
}
