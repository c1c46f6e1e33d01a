/**
 Recovery of the delivered prefix (native/android/SyncEngine.kt:106-150): capture whatever is
 missing, show every local ledger tuple to the server page by page, and only when each was
 confirmed without conflict send everything again.
 */
module Recovery {
  import opened Ledger
  import opened OutboxRows
  import opened Outbox
  import opened Acks
  import opened OutboxStore

  // ----- The results of one page -----

  datatype PrefixStatus = Match | Absent | Conflict | Unknown

  datatype PrefixResult = PrefixResult(
    eventId: string,
    sequence: Option<int>,
    hash: Option<Digest>,
    transportFingerprint: Option<Fingerprint>,
    status: PrefixStatus)

  /** The reply to one page of local tuples; None stands for any failure of the exchange. */
  type PrefixAnswer = seq<Event> -> Option<(ServerHead, seq<PrefixResult>)>

  /** The result repeats the tuple of the event. */
  predicate Repeats(r: PrefixResult, event: Event) {
    && r.eventId == event.eventId
    && r.sequence == event.sequence
    && r.hash == event.hash
    && r.transportFingerprint == event.transportFingerprint
  }

  predicate Confirms(r: PrefixResult, event: Event) { Repeats(r, event) && r.status in {Match, Absent} }

  ghost predicate ConfirmsSome(r: PrefixResult, page: seq<Event>) { exists m :: 0 <= m < |page| && Confirms(r, page[m]) }

  lemma {:induction false} Confirming(r: PrefixResult, page: seq<Event>, m: nat)
    requires m < |page| && Confirms(r, page[m])
    ensures ConfirmsSome(r, page)
  {
  }

  ghost predicate Answered(event: Event, results: seq<PrefixResult>) { exists k :: 0 <= k < |results| && Confirms(results[k], event) }

  /** Every row of a page is answered by exactly one result, and no result is a conflict. */
  ghost predicate Covered(page: seq<Event>, results: seq<PrefixResult>) {
    && |page| == |results|
    && (forall i :: 0 <= i < |page| ==> Answered(page[i], results))
    && (forall i, k :: 0 <= i < k < |results| ==> results[i].eventId != results[k].eventId)
  }

  /** Up to the i-th result every row is confirmed, and the i-th one reports a conflict. */
  ghost predicate ConflictAt(page: seq<Event>, results: seq<PrefixResult>, i: int) {
    && 0 <= i < |results|
    && results[i].status == Conflict
    && (exists m :: 0 <= m < |page| && Repeats(results[i], page[m]))
    && (forall k :: 0 <= k < i ==> ConfirmsSome(results[k], page))
    && (forall j, k :: 0 <= j < k <= i ==> results[j].eventId != results[k].eventId)
  }

  ghost predicate ReportsConflict(page: seq<Event>, results: seq<PrefixResult>) {
    |page| == |results| && exists i :: ConflictAt(page, results, i)
  }

  /** The result loop of recover. `conflict` is reported apart: it blocks the chain. */
  method CheckResults(page: seq<Event>, results: seq<PrefixResult>) returns (ok: bool, conflict: bool)
    requires forall i, k :: 0 <= i < k < |page| ==> page[i].eventId != page[k].eventId
    ensures ok <==> Covered(page, results)
    ensures conflict <==> ReportsConflict(page, results)
    ensures conflict ==> !ok
  {
    hide Covered, Repeats, ConfirmsSome, ReportsConflict;
    ResultsDecide(page, results);
    if |results| != |page| { return false, false; }
    var seen: set<string> := {};
    for i := 0 to |results|
      invariant seen == set k | 0 <= k < i :: results[k].eventId
      invariant forall j, k :: 0 <= j < k < i ==> results[j].eventId != results[k].eventId
      invariant forall k :: 0 <= k < i ==> ConfirmsSome(results[k], page)
    {
      var r := results[i];
      StopsAt(page, results, i);
      if !exists m :: 0 <= m < |page| && page[m].eventId == r.eventId {
        NoRow(page, r);
        return false, false;
      }
      var m :| 0 <= m < |page| && page[m].eventId == r.eventId;
      OwnRow(page, r, m);
      if r.eventId in seen { return false, false; }
      if r.sequence != page[m].sequence || r.hash != page[m].hash
         || r.transportFingerprint != page[m].transportFingerprint { return false, false; }
      if r.status == Conflict { return false, true; }
      if r.status != Match && r.status != Absent { return false, false; }
      seen := seen + {r.eventId};
    }
    return true, false;
  }

  lemma {:induction false} NoRow(page: seq<Event>, r: PrefixResult)
    requires forall m :: 0 <= m < |page| ==> page[m].eventId != r.eventId
    ensures !ConfirmsSome(r, page) && !RepeatsSome(r, page)
  {
  }

  ghost predicate RepeatsSome(r: PrefixResult, page: seq<Event>) { exists m :: 0 <= m < |page| && Repeats(r, page[m]) }

  /** Only the row of its id can repeat a result. */
  lemma {:induction false} OwnRow(page: seq<Event>, r: PrefixResult, m: nat)
    requires forall i, k :: 0 <= i < k < |page| ==> page[i].eventId != page[k].eventId
    requires m < |page| && page[m].eventId == r.eventId
    ensures RepeatsSome(r, page) <==> r.sequence == page[m].sequence && r.hash == page[m].hash
                                      && r.transportFingerprint == page[m].transportFingerprint
    ensures ConfirmsSome(r, page) <==> RepeatsSome(r, page) && r.status in {Match, Absent}
  {
    forall k | 0 <= k < |page| && Repeats(r, page[k]) ensures k == m {
    }
    if Repeats(r, page[m]) && r.status in {Match, Absent} { Confirming(r, page, m); }
  }

  lemma {:induction false} CoveredIsConfirmed(page: seq<Event>, results: seq<PrefixResult>)
    requires forall i, k :: 0 <= i < k < |page| ==> page[i].eventId != page[k].eventId
    ensures Covered(page, results) <==>
              && |page| == |results|
              && (forall i, k :: 0 <= i < k < |results| ==> results[i].eventId != results[k].eventId)
              && forall k :: 0 <= k < |results| ==> ConfirmsSome(results[k], page)
  {
    hide Answered, ConfirmsSome;
    if |page| == |results| && (forall i, k :: 0 <= i < k < |results| ==> results[i].eventId != results[k].eventId)
       && forall k :: 0 <= k < |results| ==> ConfirmsSome(results[k], page) {
      CoveredByCount(page, results);
    }
    if Covered(page, results) { ConfirmedByCount(page, results); }
  }

  lemma {:induction false} NoConflictAmong(page: seq<Event>, results: seq<PrefixResult>)
    requires |page| == |results| ==> forall k :: 0 <= k < |results| ==> ConfirmsSome(results[k], page)
    ensures !ReportsConflict(page, results)
  {
    hide ConfirmsSome, Repeats;
    if |page| == |results| {
      forall i ensures !ConflictAt(page, results, i) {
        if 0 <= i < |results| { ConfirmedIsNoConflict(results[i], page); }
      }
    }
  }

  /** What the loop decides, result by result. */
  lemma {:induction false} ResultsDecide(page: seq<Event>, results: seq<PrefixResult>)
    requires forall i, k :: 0 <= i < k < |page| ==> page[i].eventId != page[k].eventId
    ensures Covered(page, results) <==>
              && |page| == |results|
              && (forall i, k :: 0 <= i < k < |results| ==> results[i].eventId != results[k].eventId)
              && forall k :: 0 <= k < |results| ==> ConfirmsSome(results[k], page)
    ensures Covered(page, results) ==> !ReportsConflict(page, results)
    ensures |page| != |results| ==> !ReportsConflict(page, results)
  {
    hide Covered, ReportsConflict, ConfirmsSome;
    CoveredIsConfirmed(page, results);
    if Covered(page, results) || |page| != |results| { NoConflictAmong(page, results); }
  }

  lemma {:induction false} ConfirmedIsNoConflict(r: PrefixResult, page: seq<Event>)
    requires ConfirmsSome(r, page)
    ensures r.status != Conflict
  {
  }

  predicate FreshId(results: seq<PrefixResult>, i: nat)
    requires i < |results|
  {
    forall k :: 0 <= k < i ==> results[k].eventId != results[i].eventId
  }

  ghost predicate FreshConflict(page: seq<Event>, results: seq<PrefixResult>, i: nat)
    requires i < |results|
  {
    FreshId(results, i) && RepeatsSome(results[i], page) && results[i].status == Conflict
  }

  /** The loop stops at the first result that is repeated, misses its row or is no confirmation. */
  lemma {:induction false} StopsAt(page: seq<Event>, results: seq<PrefixResult>, i: nat)
    requires i < |results| && |page| == |results|
    requires forall k :: 0 <= k < i ==> ConfirmsSome(results[k], page)
    requires forall j, k :: 0 <= j < k < i ==> results[j].eventId != results[k].eventId
    ensures FreshConflict(page, results, i) ==> ReportsConflict(page, results)
    ensures !ConfirmsSome(results[i], page) || !FreshId(results, i) ==>
              (ReportsConflict(page, results) ==> FreshConflict(page, results, i))
  {
    hide Repeats, ConfirmsSome;
    if FreshConflict(page, results, i) {
      assert ConflictAt(page, results, i);
    }
    if ReportsConflict(page, results) {
      var n :| ConflictAt(page, results, n);
      if n < i { ConfirmedIsNoConflict(results[n], page); }
    }
  }

  /** The other way round: distinct answers to distinct rows leave no result over. */
  lemma {:induction false} ConfirmedByCount(page: seq<Event>, results: seq<PrefixResult>)
    requires Covered(page, results)
    requires forall i, k :: 0 <= i < k < |page| ==> page[i].eventId != page[k].eventId
    ensures forall k :: 0 <= k < |results| ==> ConfirmsSome(results[k], page)
  {
    var ids, answered := Ids(page, (e: Event) => e.eventId), Ids(results, (r: PrefixResult) => r.eventId);
    IdsCount(page, (e: Event) => e.eventId);
    IdsCount(results, (r: PrefixResult) => r.eventId);
    forall id | id in ids ensures id in answered {
      var i :| 0 <= i < |page| && page[i].eventId == id;
      assert Answered(page[i], results);
      var k :| 0 <= k < |results| && Confirms(results[k], page[i]);
      assert results[k].eventId == id;
    }
    SubsetOfSameSize(ids, answered);
    forall k | 0 <= k < |results| ensures ConfirmsSome(results[k], page) {
      assert results[k].eventId in ids;
      var i :| 0 <= i < |page| && page[i].eventId == results[k].eventId;
      assert Answered(page[i], results);
      var n :| 0 <= n < |results| && Confirms(results[n], page[i]);
      assert n == k;
    }
  }

  lemma {:induction false} CoveredByCount(page: seq<Event>, results: seq<PrefixResult>)
    requires |page| == |results|
    requires forall i, k :: 0 <= i < k < |page| ==> page[i].eventId != page[k].eventId
    requires forall i, k :: 0 <= i < k < |results| ==> results[i].eventId != results[k].eventId
    requires forall k :: 0 <= k < |results| ==> ConfirmsSome(results[k], page)
    ensures forall i :: 0 <= i < |page| ==> Answered(page[i], results)
  {
    var ids, answered := Ids(page, (e: Event) => e.eventId), Ids(results, (r: PrefixResult) => r.eventId);
    IdsCount(page, (e: Event) => e.eventId);
    IdsCount(results, (r: PrefixResult) => r.eventId);
    forall id | id in answered ensures id in ids {
      var k :| 0 <= k < |results| && results[k].eventId == id;
      assert ConfirmsSome(results[k], page);
      var m :| 0 <= m < |page| && Confirms(results[k], page[m]);
    }
    SubsetOfSameSize(answered, ids);
    forall i | 0 <= i < |page| ensures Answered(page[i], results) {
      assert page[i].eventId in answered;
      var k :| 0 <= k < |results| && results[k].eventId == page[i].eventId;
      assert ConfirmsSome(results[k], page);
      var m :| 0 <= m < |page| && Confirms(results[k], page[m]);
      assert m == i;
    }
  }


  // ----- The pages -----

  /** What one entry is shown as; it depends on no row. */
  function PageEvent(chain: string, scope: Scope, e: Entry): Event {
    Event(e.Id(), Some(e.Sequence()), Some(e.hash), Some(Fingerprint(Tuple(e.Id(), chain, LedgerEvent(e)), scope)))
  }

  function PageEvents(ledger: seq<Entry>, chain: string, scope: Scope, cursor: nat): seq<Event>
    requires cursor <= |ledger|
  {
    seq(Outbox.Min(BATCH, |ledger| - cursor), i requires 0 <= i < Outbox.Min(BATCH, |ledger| - cursor) => PageEvent(chain, scope, ledger[cursor + i]))
  }

  /** The server confirms every tuple of a page once, and its head is not beyond the local journal. */
  ghost predicate PagePasses(ledger: seq<Entry>, chain: string, scope: Scope, cursor: nat, answer: PrefixAnswer) {
    cursor < |ledger| ==>
      var events := PageEvents(ledger, chain, scope, cursor);
      && answer(events).Some?
      && ValidHead(answer(events).value.0)
      && answer(events).value.0.sequence <= |ledger|
      && Covered(events, answer(events).value.1)
  }

  ghost predicate AllPagesPass(ledger: seq<Entry>, chain: string, scope: Scope, answer: PrefixAnswer) {
    forall p: nat :: PagePasses(ledger, chain, scope, p * BATCH, answer)
  }

  predicate RowReady(r: Row, scope: Scope) { r.Status() != Quarantined && Bindable(r, scope) }

  /** No row of the journal is quarantined or carries the evidence of another scope. */
  ghost predicate RowsReady(t: Table, ledger: seq<Entry>, scope: Scope) {
    forall n :: 0 <= n < |ledger| && ledger[n].Id() in t ==> RowReady(t[ledger[n].Id()], scope)
  }

  /** When a recovery succeeds. A foreign chain has no rows: nothing is shown and nothing requeued. */
  ghost predicate Recoverable(t: Table, ledger: seq<Entry>, legacy: seq<Order>, chain: string, scope: Scope, answer: PrefixAnswer) {
    && ledger != []
    && !Clash(ledger, legacy)
    && (scope.chainId == chain ==> RowsReady(t, ledger, scope) && AllPagesPass(ledger, chain, scope, answer))
  }

  /** Every entry is confirmed by exactly one result of its page. */
  lemma {:induction false} ConfirmedOnce(ledger: seq<Entry>, chain: string, scope: Scope, answer: PrefixAnswer, n: nat) returns (k: nat)
    requires AllPagesPass(ledger, chain, scope, answer) && n < |ledger|
    ensures var cursor := n / BATCH * BATCH;
            && answer(PageEvents(ledger, chain, scope, cursor)).Some?
            && var results := answer(PageEvents(ledger, chain, scope, cursor)).value.1;
               && k < |results| && Confirms(results[k], PageEvent(chain, scope, ledger[n]))
               && forall j :: 0 <= j < |results| && results[j].eventId == ledger[n].Id() ==> j == k
  {
    var cursor := n / BATCH * BATCH;
    var events := PageEvents(ledger, chain, scope, cursor);
    assert PagePasses(ledger, chain, scope, (n / BATCH) * BATCH, answer);
    var results := answer(events).value.1;
    assert events[n - cursor] == PageEvent(chain, scope, ledger[n]) && Answered(events[n - cursor], results);
    k :| 0 <= k < |results| && Confirms(results[k], events[n - cursor]);
  }

  predicate PageRow(t: Table, row: Row, e: Entry) {
    row.Id() == e.Id() && row.Id() in t && row == t[row.Id()] && row.tuple.payload == LedgerEvent(e)
  }

  /** The rows of the entries after a cursor, in sequence order. */
  method LedgerPage(t: Table, ledger: seq<Entry>, legacy: seq<Order>, cursor: nat, limit: nat) returns (page: seq<Row>)
    requires Everything(t, ledger, legacy) && Keyed(t) && JournalShape(ledger) && cursor <= |ledger|
    ensures |page| == Outbox.Min(limit, |ledger| - cursor)
    ensures forall i :: 0 <= i < |page| ==> PageRow(t, page[i], ledger[cursor + i])
    ensures forall i, k :: 0 <= i < k < |page| ==> page[i].Id() != page[k].Id()
  {
    page := [];
    while |page| < limit && cursor + |page| < |ledger|
      invariant |page| <= limit && cursor + |page| <= |ledger|
      invariant forall i :: 0 <= i < |page| ==> PageRow(t, page[i], ledger[cursor + i])
    {
      var e := ledger[cursor + |page|];
      assert HasEntry(t, e);
      page := page + [t[e.Id()]];
    }
  }

  // ----- What a stretch of work keeps -----

  /** What a stretch of work leaves alone: tuples, receipts, the active destination and the evidence of the others. */
  ghost predicate Undisturbed(rows: Table, saved: Saved, destination: string, store: Store)
    reads store
  {
    && Preserved(rows, store.rows)
    && KeepsOthers(saved, store.saved, destination)
    && store.backfill.destinationId == destination
  }

  /** The cursors stand where they promise to. */
  ghost predicate Backfilled(store: Store)
    reads store
  {
    Reached(store.rows, store.ledger, store.legacy, store.backfill)
  }

  /** No row becomes synced or stops being synced, and new rows are not. */
  ghost predicate SyncedKept(before: Table, after: Table) {
    && before.Keys <= after.Keys
    && forall id :: id in after ==> (after[id].Status() == Synced <==> id in before && before[id].Status() == Synced)
  }

  /** No row gains or changes a receipt, and new rows have none. */
  ghost predicate NoNewReceipt(before: Table, after: Table) {
    && before.Keys <= after.Keys
    && forall id :: id in after && after[id].evidence.receiptId.Some? ==> id in before && SameReceipt(before[id], after[id])
  }

  lemma {:induction false} NoNewReceiptTwice(a: Table, b: Table, c: Table)
    requires NoNewReceipt(a, b) && NoNewReceipt(b, c)
    ensures NoNewReceipt(a, c)
  {
  }

  lemma {:induction false} ReceiptsStay(t: Table, chain: string)
    ensures NoNewReceipt(t, t)
    ensures forall after :: Captured(t, after, chain) ==> NoNewReceipt(t, after)
    ensures forall scope, ids :: NoNewReceipt(t, Change(t, Scoped(scope), ids))
    ensures forall after, status, code :: BlocksFirst(t, after, status, code) ==> NoNewReceipt(t, after)
    ensures forall includeLegacy :: NoNewReceipt(t, Requeued(t, includeLegacy))
    ensures NoNewReceipt(t, Shrunk(t))
  {
  }

  lemma {:induction false} SyncedKeptTwice(a: Table, b: Table, c: Table)
    requires SyncedKept(a, b) && SyncedKept(b, c)
    ensures SyncedKept(a, c)
  {
  }

  lemma {:induction false} SameIsKept(a: Table, b: Table)
    requires SameSynced(a, b)
    ensures SyncedKept(a, b)
  {
  }

  lemma {:induction false} CapturedIsKept(a: Table, b: Table, chain: string)
    requires Captured(a, b, chain)
    ensures SyncedKept(a, b)
  {
  }

  /** One more transaction that keeps the rows. */
  lemma {:induction false} StretchOn(start: Table, before: Table, store: Store)
    requires Preserved(start, before) && Preserved(before, store.rows)
    ensures Preserved(start, store.rows)
    ensures Reached(before, store.ledger, store.legacy, store.backfill) ==> Backfilled(store)
    ensures Everything(before, store.ledger, store.legacy) ==> Everything(store.rows, store.ledger, store.legacy)
  {
    hide Preserved, Reached, Everything;
    PreservedTwice(start, before, store.rows);
    KeptAcross(before, store.rows, store.ledger, store.legacy, store.backfill, store.backfill);
  }

  // ----- recover -----

  /** The rows not shown yet are as they were captured. */
  ghost predicate Untouched(captured: Table, t: Table, ledger: seq<Entry>, cursor: nat) {
    forall n :: cursor <= n < |ledger| && ledger[n].Id() in captured && ledger[n].Id() in t ==>
      t[ledger[n].Id()] == captured[ledger[n].Id()]
  }

  /** Every row shown so far was ready. */
  ghost predicate ReadyUpTo(t: Table, ledger: seq<Entry>, scope: Scope, cursor: nat) {
    forall n :: 0 <= n < cursor && n < |ledger| ==> ledger[n].Id() in t && RowReady(t[ledger[n].Id()], scope)
  }

  ghost predicate PassedUpTo(ledger: seq<Entry>, chain: string, scope: Scope, answer: PrefixAnswer, cursor: nat) {
    forall p: nat :: p * BATCH < cursor ==> PagePasses(ledger, chain, scope, p * BATCH, answer)
  }

  /** Captured rows are ready: only rows that were there can stand in the way. */
  lemma {:induction false} ReadyAfterCapture(before: Table, captured: Table, chain: string, ledger: seq<Entry>, legacy: seq<Order>, scope: Scope)
    requires Captured(before, captured, chain) && Everything(captured, ledger, legacy)
    ensures RowsReady(before, ledger, scope) <==> ReadyUpTo(captured, ledger, scope, |ledger|)
  {
    forall n | 0 <= n < |ledger| ensures ledger[n].Id() in captured && (ledger[n].Id() !in before ==> RowReady(captured[ledger[n].Id()], scope)) {
      assert HasEntry(captured, ledger[n]);
    }
  }

  lemma {:induction false} PageReady(captured: Table, t: Table, ledger: seq<Entry>, scope: Scope, cursor: nat, page: seq<Row>)
    requires cursor + |page| <= |ledger| && Untouched(captured, t, ledger, cursor) && captured.Keys <= t.Keys
    requires forall n :: 0 <= n < |ledger| ==> ledger[n].Id() in captured
    requires forall i :: 0 <= i < |page| ==> PageRow(t, page[i], ledger[cursor + i])
    ensures ReadyUpTo(captured, ledger, scope, cursor + |page|) <==>
              ReadyUpTo(captured, ledger, scope, cursor) && forall i :: 0 <= i < |page| ==> RowReady(page[i], scope)
  {
    hide RowReady;
    forall i | 0 <= i < |page| ensures captured[ledger[cursor + i].Id()] == page[i] {
      assert PageRow(t, page[i], ledger[cursor + i]);
    }
    forall n | cursor <= n < cursor + |page| ensures captured[ledger[n].Id()] == page[n - cursor] {
      assert ledger[cursor + (n - cursor)] == ledger[n];
    }
  }

  lemma {:induction false} BoundEvent(t: Table, ledger: seq<Entry>, chain: string, legacy: seq<Order>, scope: Scope, row: Row, e: Entry)
    requires RowsMatch(t, chain, ledger, legacy) && PageRow(t, row, e)
    ensures var bound := Scoped(scope)(row);
            EventOf(bound) == PageEvent(chain, scope, e) && bound.Id() == row.Id() && t[row.Id()] == row
  {
    assert row.tuple == Tuple(e.Id(), chain, LedgerEvent(e));
  }

  lemma {:induction false} PageBound(before: Table, after: Table, ledger: seq<Entry>, chain: string, legacy: seq<Order>, scope: Scope,
                                     cursor: nat, unbound: seq<Row>, page: seq<Row>)
    requires RowsMatch(before, chain, ledger, legacy) && cursor + |page| <= |ledger| && |page| == |unbound|
    requires |page| == Outbox.Min(BATCH, |ledger| - cursor)
    requires forall i :: 0 <= i < |unbound| ==> PageRow(before, unbound[i], ledger[cursor + i])
    requires after == Change(before, Scoped(scope), IdsOf(unbound))
    requires forall i :: 0 <= i < |page| ==> unbound[i].Id() in after && page[i] == after[unbound[i].Id()]
    ensures EventsOf(page) == PageEvents(ledger, chain, scope, cursor)
    ensures forall i :: 0 <= i < |page| ==> page[i].Id() == unbound[i].Id()
  {
    hide RowsMatch, Scoped, EventOf, PageEvent;
    var events := PageEvents(ledger, chain, scope, cursor);
    forall i | 0 <= i < |page| ensures EventOf(page[i]) == events[i] && page[i].Id() == unbound[i].Id() {
      var id := unbound[i].Id();
      assert id in IdsOf(unbound);
      BoundEvent(before, ledger, chain, legacy, scope, unbound[i], ledger[cursor + i]);
      assert page[i] == Scoped(scope)(unbound[i]);
    }
  }

  lemma {:induction false} RestUntouched(captured: Table, before: Table, after: Table, ledger: seq<Entry>, cursor: nat, page: seq<Row>, f: Row -> Row)
    requires JournalShape(ledger) && cursor + |page| <= |ledger| && Untouched(captured, before, ledger, cursor)
    requires forall i :: 0 <= i < |page| ==> PageRow(before, page[i], ledger[cursor + i])
    requires after == Change(before, f, IdsOf(page))
    ensures Untouched(captured, after, ledger, cursor + |page|)
  {
    forall n | cursor + |page| <= n < |ledger| && ledger[n].Id() in after
      ensures after[ledger[n].Id()] == before[ledger[n].Id()]
    {
      forall i | 0 <= i < |page| ensures page[i].Id() != ledger[n].Id() {
        assert PageRow(before, page[i], ledger[cursor + i]);
      }
    }
  }

  lemma {:induction false} OnePagePassed(ledger: seq<Entry>, chain: string, scope: Scope, answer: PrefixAnswer, cursor: nat, size: nat)
    requires cursor < |ledger| && cursor % BATCH == 0 && size == Outbox.Min(BATCH, |ledger| - cursor)
    ensures PassedUpTo(ledger, chain, scope, answer, cursor + size) <==>
              PassedUpTo(ledger, chain, scope, answer, cursor) && PagePasses(ledger, chain, scope, cursor, answer)
    ensures cursor + size == |ledger| || (cursor + size) % BATCH == 0
  {
    hide PagePasses;
    var p := cursor / BATCH;
    assert p * BATCH == cursor;
    forall q: nat | q * BATCH < cursor + size ensures q == p || q * BATCH < cursor {
    }
  }

  lemma {:induction false} AllPassed(ledger: seq<Entry>, chain: string, scope: Scope, answer: PrefixAnswer)
    ensures AllPagesPass(ledger, chain, scope, answer) <==> PassedUpTo(ledger, chain, scope, answer, |ledger|)
  {
    hide Covered, ValidHead;
  }

  /** Why a page stops the recovery. */
  lemma {:induction false} FailsHere(ledger: seq<Entry>, chain: string, scope: Scope, answer: PrefixAnswer, captured: Table, cursor: nat)
    requires cursor <= |ledger|
    ensures !ReadyUpTo(captured, ledger, scope, cursor) ==> !ReadyUpTo(captured, ledger, scope, |ledger|)
    ensures !PassedUpTo(ledger, chain, scope, answer, cursor) ==> !PassedUpTo(ledger, chain, scope, answer, |ledger|)
  {
    hide PagePasses, RowReady;
  }

  /**
   recover: it ends; it succeeds exactly when every record can be captured, every row of the
   journal bound, and every page of tuples is confirmed; and it requeues only then. `proven`
   is the outbox before the requeue: nothing became or stopped being synced up to there.
   */
  method Recover(store: Store, scope: Scope, includeLegacy: bool, answer: PrefixAnswer) returns (recovered: bool, ghost proven: Table)
    requires store.Valid() && store.live.None?
    modifies store
    ensures store.Valid() && store.live.None?
    ensures store.ledger == old(store.ledger) && store.legacy == old(store.legacy)
    ensures recovered <==> old(Recoverable(store.rows, store.ledger, store.legacy, store.chain, scope, answer))
    ensures SyncedKept(old(store.rows), proven)
    ensures store.rows == if recovered && scope.chainId == store.chain then Requeued(proven, includeLegacy) else proven
    ensures recovered ==> Everything(store.rows, store.ledger, store.legacy)
    ensures recovered && scope.chainId == store.chain ==> forall n :: !SyncedAt(store.rows, store.ledger, n)
    ensures SameSettings(old(store.backfill), store.backfill)
    ensures Undisturbed(old(store.rows), old(store.saved), old(store.backfill.destinationId), store)
    ensures old(Backfilled(store)) ==> Backfilled(store)
    ensures old(NoOrphans(store.rows, store.live)) ==> NoOrphans(store.rows, store.live)
    ensures NoNewReceipt(old(store.rows), store.rows)
  {
    hide NoOrphans, NoNewReceipt, JournalShape, RowsMatch, PrefixSynced, LegacyShape, SavedPrefixes, SavedFor, Everything, SameSynced, Preserved, Captured,
         Covered, Bindable, TextBefore, Reached, KeepsOthers, Clash, SyncedKept, RowsReady, AllPagesPass, PagePasses, ReadyUpTo,
         PassedUpTo, Untouched, Requeued, Change, PageEvents, BlocksFirst, ReportsConflict;
    ghost var start := store.rows;
    OthersSame(store.saved, store.backfill.destinationId);
    SameTable(start);
    SameIsKept(start, start);
    ReceiptsStay(start, store.chain);
    proven := start;
    if store.ledger == [] { return false, proven; }
    var ok := store.RewindAndBackfill();
    ghost var captured := store.rows;
    ReceiptsStay(captured, store.chain);
    CapturedIsPreserved(start, captured, store.chain);
    CapturedIsKept(start, captured, store.chain);
    proven := captured;
    if !ok { return false, proven; }
    if scope.chainId != store.chain { return true, proven; }
    ReadyAfterCapture(start, captured, store.chain, store.ledger, store.legacy, scope);
    AllPassed(store.ledger, store.chain, scope, answer);
    recovered, proven := ShowPages(store, scope, answer);
    NoNewReceiptTwice(start, captured, proven);
    ReceiptsStay(proven, store.chain);
    PreservedTwice(start, captured, proven);
    SyncedKeptTwice(start, captured, proven);
    if recovered {
      store.RequeueProvenPrefix(includeLegacy);
      NoNewReceiptTwice(start, proven, store.rows);
      StretchOn(start, proven, store);
    }
  }

  /** The page loop of recover over a complete outbox. */
  method ShowPages(store: Store, scope: Scope, answer: PrefixAnswer) returns (passed: bool, ghost shown: Table)
    requires store.Valid() && store.live.None? && Everything(store.rows, store.ledger, store.legacy) && Backfilled(store)
    modifies store`rows
    ensures store.Valid() && Everything(store.rows, store.ledger, store.legacy) && Backfilled(store)
    ensures shown == store.rows && Preserved(old(store.rows), shown) && SyncedKept(old(store.rows), shown)
    ensures passed <==> && ReadyUpTo(old(store.rows), store.ledger, scope, |store.ledger|)
                        && PassedUpTo(store.ledger, store.chain, scope, answer, |store.ledger|)
    ensures old(NoOrphans(store.rows, store.live)) ==> NoOrphans(store.rows, store.live)
    ensures NoNewReceipt(old(store.rows), store.rows)
  {
    hide NoOrphans, NoNewReceipt, JournalShape, RowsMatch, PrefixSynced, LegacyShape, SavedPrefixes, SavedFor, Everything, SameSynced, Preserved,
         Covered, Bindable, TextBefore, Reached, SyncedKept, PagePasses, ReadyUpTo, PassedUpTo, Untouched, Change, PageEvents,
         BlocksFirst, ReportsConflict;
    ghost var captured := store.rows;
    SameTable(captured);
    SameIsKept(captured, captured);
    ReceiptsStay(captured, store.chain);
    HasAll(captured, store.ledger, store.legacy);
    NothingShown(captured, store.ledger, store.chain, scope, answer);
    var cursor := 0;
    while cursor < |store.ledger|
      invariant store.Valid() && Everything(store.rows, store.ledger, store.legacy) && Backfilled(store)
      invariant cursor <= |store.ledger| && (cursor == |store.ledger| || cursor % BATCH == 0)
      invariant Preserved(captured, store.rows) && SyncedKept(captured, store.rows) && captured.Keys <= store.rows.Keys
      invariant Untouched(captured, store.rows, store.ledger, cursor)
      invariant ReadyUpTo(captured, store.ledger, scope, cursor)
      invariant PassedUpTo(store.ledger, store.chain, scope, answer, cursor)
      invariant old(NoOrphans(store.rows, store.live)) ==> NoOrphans(store.rows, store.live)
      invariant NoNewReceipt(captured, store.rows)
    {
      ghost var before := store.rows;
      var good := ShowPage(store, scope, answer, cursor, captured);
      shown := store.rows;
      var size := Outbox.Min(BATCH, |store.ledger| - cursor);
      PreservedTwice(captured, before, shown);
      NoNewReceiptTwice(captured, before, shown);
      KeysKept(captured, shown);
      SyncedKeptTwice(captured, before, shown);
      FailsHere(store.ledger, store.chain, scope, answer, captured, cursor + size);
      if !good { return false, shown; }
      cursor := cursor + size;
    }
    return true, store.rows;
  }

  lemma {:induction false} KeysKept(before: Table, after: Table)
    requires Preserved(before, after)
    ensures before.Keys <= after.Keys
  {
  }

  lemma {:induction false} HasAll(t: Table, ledger: seq<Entry>, legacy: seq<Order>)
    requires Everything(t, ledger, legacy)
    ensures forall n :: 0 <= n < |ledger| ==> ledger[n].Id() in t
  {
    forall n | 0 <= n < |ledger| ensures ledger[n].Id() in t {
      assert HasEntry(t, ledger[n]);
    }
  }

  lemma {:induction false} NothingShown(t: Table, ledger: seq<Entry>, chain: string, scope: Scope, answer: PrefixAnswer)
    ensures Untouched(t, t, ledger, 0) && ReadyUpTo(t, ledger, scope, 0) && PassedUpTo(ledger, chain, scope, answer, 0)
  {
    hide PagePasses;
  }

  /** A conflict blocks the chain. */
  method BlockConflict(store: Store)
    requires store.Valid() && store.live.None?
    modifies store`rows
    ensures store.Valid()
    ensures Preserved(old(store.rows), store.rows) && SyncedKept(old(store.rows), store.rows) && NoNewReceipt(old(store.rows), store.rows)
    ensures old(Everything(store.rows, store.ledger, store.legacy)) ==> Everything(store.rows, store.ledger, store.legacy)
    ensures old(Backfilled(store)) ==> Backfilled(store)
    ensures old(NoOrphans(store.rows, store.live)) ==> NoOrphans(store.rows, store.live)
  {
    hide NoOrphans, NoNewReceipt, JournalShape, RowsMatch, PrefixSynced, LegacyShape, SavedPrefixes, SavedFor, Everything, SameSynced, Preserved,
         Reached, SyncedKept, BlocksFirst;
    ghost var before := store.rows;
    SameTable(before);
    ReceiptsStay(before, store.chain);
    store.BlockChain(Quarantined, "PREFIX_CONFLICT");
    SameIsKept(before, store.rows);
    StretchOn(before, before, store);
  }

  /** One turn: read the page, bind it, send it, check the results. */
  method ShowPage(store: Store, scope: Scope, answer: PrefixAnswer, cursor: nat, ghost captured: Table) returns (good: bool)
    requires store.Valid() && store.live.None? && Everything(store.rows, store.ledger, store.legacy) && Backfilled(store)
    requires cursor < |store.ledger| && cursor % BATCH == 0
    requires captured.Keys <= store.rows.Keys && Untouched(captured, store.rows, store.ledger, cursor)
    requires forall n :: 0 <= n < |store.ledger| ==> store.ledger[n].Id() in captured
    requires ReadyUpTo(captured, store.ledger, scope, cursor) && PassedUpTo(store.ledger, store.chain, scope, answer, cursor)
    modifies store`rows
    ensures store.Valid() && Everything(store.rows, store.ledger, store.legacy) && Backfilled(store)
    ensures Preserved(old(store.rows), store.rows) && SyncedKept(old(store.rows), store.rows)
    ensures var next := cursor + Outbox.Min(BATCH, |store.ledger| - cursor);
            && (good <==> ReadyUpTo(captured, store.ledger, scope, next) && PassedUpTo(store.ledger, store.chain, scope, answer, next))
            && (good ==> Untouched(captured, store.rows, store.ledger, next))
            && (next == |store.ledger| || next % BATCH == 0)
    ensures old(NoOrphans(store.rows, store.live)) ==> NoOrphans(store.rows, store.live)
    ensures NoNewReceipt(old(store.rows), store.rows)
  {
    hide NoOrphans, NoNewReceipt, JournalShape, RowsMatch, PrefixSynced, LegacyShape, SavedPrefixes, SavedFor, Everything, SameSynced, Preserved,
         Covered, Bindable, TextBefore, Reached, SyncedKept, ReadyUpTo, PassedUpTo, Untouched, Change, PageEvents,
         BlocksFirst, ReportsConflict;
    ghost var before := store.rows;
    SameTable(before);
    SameIsKept(before, before);
    ReceiptsStay(before, store.chain);
    RowsAreKeyed(store.rows, store.chain, store.ledger, store.legacy);
    var unbound := LedgerPage(store.rows, store.ledger, store.legacy, cursor, BATCH);
    OnePagePassed(store.ledger, store.chain, scope, answer, cursor, |unbound|);
    PageReady(captured, store.rows, store.ledger, scope, cursor, unbound);
    if exists i :: 0 <= i < |unbound| && unbound[i].Status() == Quarantined { return false; }
    var bound := store.BindPage(unbound, scope);
    SameIsKept(before, store.rows);
    StretchOn(before, before, store);
    BindsWhenReady(before, unbound, scope);
    if bound.None? { return false; }
    var page := bound.value;
    PageBound(before, store.rows, store.ledger, store.chain, store.legacy, scope, cursor, unbound, page);
    RestUntouched(captured, before, store.rows, store.ledger, cursor, unbound, Scoped(scope));
    var reply := answer(EventsOf(page));
    if reply.None? { return false; }
    var (head, results) := reply.value;
    if !ValidHead(head) || head.sequence > |store.ledger| { return false; }
    PageIdsDiffer(unbound, page);
    var ok, conflict := CheckResults(EventsOf(page), results);
    if conflict {
      ghost var shown := store.rows;
      BlockConflict(store);
      NoNewReceiptTwice(before, shown, store.rows);
      SyncedKeptTwice(before, shown, store.rows);
      PreservedTwice(before, shown, store.rows);
    }
    return ok;
  }

  lemma {:induction false} BindsWhenReady(t: Table, page: seq<Row>, scope: Scope)
    requires forall i :: 0 <= i < |page| ==> page[i].Id() in t && page[i] == t[page[i].Id()] && page[i].Status() != Quarantined
    ensures (forall i :: 0 <= i < |page| ==> page[i].Id() in t && Bindable(t[page[i].Id()], scope))
            <==> forall i :: 0 <= i < |page| ==> RowReady(page[i], scope)
  {
    hide Bindable;
  }

  lemma {:induction false} PageIdsDiffer(unbound: seq<Row>, page: seq<Row>)
    requires |unbound| == |page| && forall i :: 0 <= i < |page| ==> page[i].Id() == unbound[i].Id()
    requires forall i, k :: 0 <= i < k < |unbound| ==> unbound[i].Id() != unbound[k].Id()
    ensures forall i, k :: 0 <= i < k < |page| ==> EventsOf(page)[i].eventId != EventsOf(page)[k].eventId
  {
  }
}
