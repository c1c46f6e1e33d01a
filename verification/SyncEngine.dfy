/**
 The delivery worker (native/android/SyncEngine.kt), driven against an arbitrary server:
 `answer` is any function of the request.
 */
module SyncEngine {
  import opened Ledger
  import opened OutboxRows
  import opened Outbox
  import opened Acks
  import opened OutboxStore
  import Claims
  import opened Recovery
  import Envelope

  datatype Reply =
    | Replied(response: Response)
    | AuthFailure(code: string)
    | HttpFailure(status: int, code: string, retryAfterMillis: Option<int>)
    | OtherFailure

  /** What the worker measures and where it cuts a batch. */
  datatype Limits = Limits(payloadSize: Payload -> nat, bodySize: seq<Event> -> nat, maxPayload: nat, maxBody: nat)

  // ----- The batch -----

  /** The head a batch expects: the sequence and hash of the entry before its first event. */
  function ExpectedHead(first: Row): Option<ServerHead> {
    match first.tuple.payload
    case LedgerEvent(e) => Some(ServerHead(e.Sequence() - 1, e.content.previousHash))
    case LegacyOrder(_) => None
  }

  predicate Fits(row: Row, events: seq<Event>, limits: Limits) {
    limits.payloadSize(row.tuple.payload) <= limits.maxPayload && limits.bodySize(events + [EventOf(row)]) <= limits.maxBody
  }

  /** The longest prefix of the claimed rows that fits. */
  method Select(rows: seq<Row>, limits: Limits) returns (n: nat)
    ensures n <= |rows|
    ensures forall i :: 0 <= i < n ==> Fits(rows[i], EventsOf(rows[..i]), limits)
    ensures n < |rows| ==> !Fits(rows[n], EventsOf(rows[..n]), limits)
  {
    var events: seq<Event> := [];
    n := 0;
    while n < |rows| && Fits(rows[n], events, limits)
      invariant n <= |rows| && events == EventsOf(rows[..n])
      invariant forall i :: 0 <= i < n ==> Fits(rows[i], EventsOf(rows[..i]), limits)
    {
      events := events + [EventOf(rows[n])];
      n := n + 1;
    }
  }

  /** A ledger request carries the contiguous block right after the synced prefix and expects its predecessor as head. */
  ghost predicate RightRequest(t: Table, ledger: seq<Entry>, request: Request) {
    request.expectedHead.Some? ==>
      exists k :: RightBlock(t, ledger, request, k)
  }

  ghost predicate RightBlock(t: Table, ledger: seq<Entry>, request: Request, k: nat) {
    && k + |request.events| <= |ledger|
    && request.expectedHead == Some(ServerHead(k, Head(ledger[..k])))
    && (forall i :: 0 <= i < |request.events| ==>
          && request.events[i].eventId == ledger[k + i].Id()
          && request.events[i].sequence == Some(k + i + 1)
          && request.events[i].hash == Some(ledger[k + i].hash))
    && (forall n :: 0 <= n < |ledger| ==> (SyncedAt(t, ledger, n) <==> n < k))
    && (forall id :: id in t && t[id].tuple.payload.LegacyOrder? ==> t[id].Status() == Synced)
  }

  lemma {:induction false} BatchIsRight(t: Table, ledger: seq<Entry>, c: Claim, held: seq<Row>, request: Request)
    requires JournalShape(ledger) && ClaimHeld(t, ledger, c) && c.rows == Tuples(held) && held != []
    requires request.events == EventsOf(held) && request.expectedHead == ExpectedHead(held[0])
    ensures RightRequest(t, ledger, request)
  {
    hide JournalShape, BlockAt, RightBlock;
    if held[0].tuple.payload.LedgerEvent? {
      assert c.rows[0] == held[0].tuple;
      var k :| BlockAt(t, ledger, c.rows, k);
      BlockIsRight(t, ledger, c.rows, k, held, request);
    }
  }

  lemma {:induction false} BlockIsRight(t: Table, ledger: seq<Entry>, rows: seq<Tuple>, k: int, held: seq<Row>, request: Request)
    requires JournalShape(ledger) && BlockAt(t, ledger, rows, k) && rows == Tuples(held) && held != []
    requires request.events == EventsOf(held) && request.expectedHead == ExpectedHead(held[0])
    ensures 0 <= k && RightBlock(t, ledger, request, k)
  {
    hide SyncedAt;
    forall i | 0 <= i < |held|
      ensures request.events[i].eventId == ledger[k + i].Id()
      ensures request.events[i].sequence == Some(k + i + 1) && request.events[i].hash == Some(ledger[k + i].hash)
    {
      assert rows[i] == held[i].tuple;
    }
    assert rows[0] == held[0].tuple;
  }

  // ----- What the rows of a batch carry -----

  /** The rows of a claim, each with the fingerprint of its tuple for the scope. */
  ghost predicate BoundRows(t: Table, tuples: seq<Tuple>, scope: Scope) {
    forall i :: 0 <= i < |tuples| ==> BoundRow(t, tuples[i], scope)
  }

  predicate BoundRow(t: Table, tuple: Tuple, scope: Scope) {
    && tuple.eventId in t
    && t[tuple.eventId].tuple == tuple
    && t[tuple.eventId].evidence.transportFingerprint == Some(Fingerprint(tuple, scope))
  }

  lemma {:induction false} ClaimBinds(before: Table, after: Table, claimed: seq<Row>, scope: Scope, owner: string, now: int, max: nat)
    requires ClaimSpec(before, after, claimed, scope, owner, now, max)
    ensures BoundRows(after, Tuples(claimed), scope) && |claimed| <= max
    ensures forall i :: 0 <= i < |claimed| ==> claimed[i].Id() in after && claimed[i].tuple == after[claimed[i].Id()].tuple
  {
    hide Refreshed, TakeLength, Blocked, RowBefore;
    var first: seq<Row>, candidates: seq<Row> :| ClaimSteps(before, first, candidates, after, claimed, scope, owner, now, max);
    if claimed != [] {
      var n := |claimed|;
      forall i | 0 <= i < n ensures BoundRow(after, claimed[i].tuple, scope) {
        assert candidates[..n][i] == candidates[i];
        assert candidates[i].Id() in IdsOf(candidates[..n]);
      }
    }
  }

  /** Release, renew and markAttempt leave tuples and fingerprints alone. */
  predicate KeepsBinding(f: Row -> Row, r: Row) {
    f(r).tuple == r.tuple && f(r).evidence.transportFingerprint == r.evidence.transportFingerprint
  }

  lemma {:induction false} StillBound(t: Table, f: Row -> Row, touched: set<string>, tuples: seq<Tuple>, scope: Scope)
    requires BoundRows(t, tuples, scope)
    requires forall id :: id in t ==> KeepsBinding(f, t[id])
    ensures BoundRows(Change(t, f, touched), tuples, scope)
  {
    forall i | 0 <= i < |tuples| ensures BoundRow(Change(t, f, touched), tuples[i], scope) {
      assert BoundRow(t, tuples[i], scope) && KeepsBinding(f, t[tuples[i].eventId]);
    }
  }

  /** From the claim to the attempt: the rows that stay held keep their binding. */
  lemma {:induction false} BoundThroughout(before: Table, claim: Table, trim: Table, renew: Table, last: Table, claimed: seq<Row>,
                                           n: nat, scope: Scope, owner: string, now: int, sendAt: int, max: nat)
    requires ClaimSpec(before, claim, claimed, scope, owner, now, max) && n <= |claimed|
    requires trim == Change(claim, Released(Pending, "BATCH_DEFERRED", 0), IdsOf(claimed[n..]))
    requires renew == Change(trim, Renewed(sendAt), IdsOf(claimed[..n]))
    requires last == Change(renew, Attempted(sendAt), IdsOf(claimed[..n]))
    ensures BoundRows(last, Tuples(claimed[..n]), scope) && n <= max
  {
    hide Change, ClaimSpec, BoundRows, IdsOf;
    ClaimBinds(before, claim, claimed, scope, owner, now, max);
    StillBound(claim, Released(Pending, "BATCH_DEFERRED", 0), IdsOf(claimed[n..]), Tuples(claimed), scope);
    StillBound(trim, Renewed(sendAt), IdsOf(claimed[..n]), Tuples(claimed), scope);
    StillBound(renew, Attempted(sendAt), IdsOf(claimed[..n]), Tuples(claimed), scope);
    BoundPrefix(last, claimed, n, scope);
  }

  lemma {:induction false} BoundPrefix(t: Table, rows: seq<Row>, n: nat, scope: Scope)
    requires n <= |rows| && BoundRows(t, Tuples(rows), scope)
    ensures BoundRows(t, Tuples(rows[..n]), scope)
  {
    forall i | 0 <= i < n ensures BoundRow(t, Tuples(rows[..n])[i], scope) {
      assert BoundRow(t, Tuples(rows)[i], scope);
    }
  }

  /** One event of a request against the row it was read from. */
  predicate CarriesRow(t: Table, event: Event, scope: Scope, ledger: bool, limits: Limits) {
    && event.eventId in t
    && var tuple := t[event.eventId].tuple;
       && event == Event(event.eventId, tuple.Sequence(), tuple.Hash(), Some(Fingerprint(tuple, scope)))
       && tuple.payload.LedgerEvent? == ledger
       && limits.payloadSize(tuple.payload) <= limits.maxPayload
  }

  ghost predicate Carries(t: Table, chain: string, scope: Scope, limits: Limits, request: Request) {
    && request.scope == scope && scope.chainId == chain
    && 0 < |request.events| <= BATCH && limits.bodySize(request.events) <= limits.maxBody
    && (forall i, k :: 0 <= i < k < |request.events| ==> request.events[i].eventId != request.events[k].eventId)
    && forall i :: 0 <= i < |request.events| ==> CarriesRow(t, request.events[i], scope, request.expectedHead.Some?, limits)
  }

  /** The request built from held rows carries them. */
  lemma {:induction false} HeldIsCarried(before: Table, t: Table, ledger: seq<Entry>, c: Claim, held: seq<Row>, claimed: seq<Row>,
                                         scope: Scope, limits: Limits, request: Request)
    requires ClaimHeld(t, ledger, c) && c.rows == Tuples(held) == Tuples(claimed) && 0 < |held| <= BATCH
    requires forall i :: 0 <= i < |held| ==> held[i].Id() in t && held[i] == t[held[i].Id()]
    requires BoundRows(t, Tuples(held), scope) && SameSynced(before, t)
    requires forall i :: 0 <= i < |claimed| ==> limits.payloadSize(claimed[i].tuple.payload) <= limits.maxPayload
    requires limits.bodySize(EventsOf(held)) <= limits.maxBody
    requires request == Request(request.requestId, scope, ExpectedHead(held[0]), EventsOf(held))
    ensures Carries(before, scope.chainId, scope, limits, request)
  {
    hide Block, HeldBy;
    var tuples := Tuples(held);
    assert |held| == |claimed| by { assert |Tuples(held)| == |Tuples(claimed)|; }
    forall i | 0 <= i < |held| ensures CarriesRow(before, request.events[i], scope, request.expectedHead.Some?, limits) {
      assert BoundRow(t, tuples[i], scope);
      assert tuples[i] == held[i].tuple == Tuples(claimed)[i] == claimed[i].tuple;
      assert tuples[i].payload.LedgerEvent? <==> tuples[0].payload.LedgerEvent?;
      assert before[held[i].Id()].tuple == held[i].tuple;
    }
    forall i, k | 0 <= i < k < |held| ensures request.events[i].eventId != request.events[k].eventId {
      assert tuples[i].eventId != tuples[k].eventId;
    }
  }

  lemma {:induction false} SizesFit(rows: seq<Row>, n: nat, limits: Limits)
    requires n <= |rows| && forall i :: 0 <= i < n ==> Fits(rows[i], EventsOf(rows[..i]), limits)
    ensures forall i :: 0 <= i < n ==> limits.payloadSize(rows[..n][i].tuple.payload) <= limits.maxPayload
  {
    forall i | 0 <= i < n ensures limits.payloadSize(rows[..n][i].tuple.payload) <= limits.maxPayload {
      assert Fits(rows[i], EventsOf(rows[..i]), limits);
    }
  }

  /** The events are those that were measured: the claim bound their fingerprints, and nothing after it changes them. */
  lemma {:induction false} SameEvents(before: Table, claim: Table, last: Table, claimed: seq<Row>, n: nat, held: seq<Row>, scope: Scope,
                                      owner: string, now: int, max: nat)
    requires Keyed(before) && ClaimSpec(before, claim, claimed, scope, owner, now, max) && n <= |claimed|
    requires Tuples(held) == Tuples(claimed[..n]) && BoundRows(last, Tuples(held), scope)
    requires forall i :: 0 <= i < |held| ==> held[i].Id() in last && held[i] == last[held[i].Id()]
    ensures EventsOf(held) == EventsOf(claimed[..n])
  {
    hide ClaimSpec, IsOutstanding, Claims.LongestDue, Claims.Leaves, IdsOf;
    var rows := Claims.ClaimIsRight(before, claim, claimed, scope, owner, now, max);
    assert |held| == n by { assert |Tuples(held)| == |Tuples(claimed[..n])|; }
    forall i | 0 <= i < n ensures EventOf(held[i]) == EventOf(claimed[..n][i]) {
      assert held[i].tuple == Tuples(held)[i] == Tuples(claimed[..n])[i] == claimed[i].tuple;
      assert BoundRow(last, Tuples(held)[i], scope) && Claims.Leases(claimed[i], rows[i], scope, owner, now);
    }
  }

  lemma {:induction false} BodyFits(claimed: seq<Row>, n: nat, limits: Limits)
    requires 0 < n <= |claimed| && Fits(claimed[n - 1], EventsOf(claimed[..n - 1]), limits)
    ensures limits.bodySize(EventsOf(claimed[..n])) <= limits.maxBody
  {
    assert EventsOf(claimed[..n]) == EventsOf(claimed[..n - 1]) + [EventOf(claimed[n - 1])];
  }

  // ----- One round of the worker -----

  const CHAIN_CODES: set<string> := {"HEAD_MOVED", "MISSING_PREDECESSOR", "DEPENDENCY_MISSING"}

  function Max(a: int, b: int): int { if a < b then b else a }

  /** A wait the server asks for, six hours at most. */
  function Wait(retryAfterMillis: Option<int>): int {
    if retryAfterMillis.None? || retryAfterMillis.value < 0 then 0
    else if retryAfterMillis.value > 21600000 then 21600000
    else retryAfterMillis.value
  }

  /**
   How the rows of a failed exchange go back. What time may heal is pending after its delay:
   an unusable reply, an unreachable server, the statuses 408, 429 and those from 500 on.
   Whatever else the session refused waits for a session; a refusal with one of six codes
   waits for a recovery; any other refusal is final.
   */
  predicate ReturnsAs(reply: Reply, now: int, backoff: int, status: RowStatus, error: string, next: int) {
    match reply
    case Replied(_) => status == Pending && error == "INVALID_ACK" && next == now + backoff
    case AuthFailure("server_unreachable") => status == Pending && error == "NETWORK_ERROR" && next == now + backoff
    case AuthFailure("needs_recovery") => status == NeedsRecovery && error == "AUTH_RECOVERY_REQUIRED" && next == 0
    case AuthFailure(_) => status == PausedAuth && error == "AUTH_REQUIRED" && next == 0
    case HttpFailure(http, code, wait) =>
      && error == code
      && (if http == 408 || http == 429 || http >= 500
          then status == Pending && next == now + (if backoff < Wait(wait) then Wait(wait) else backoff)
          else if code in ["HEAD_MOVED", "MISSING_PREDECESSOR", "DEPENDENCY_MISSING", "PROTOCOL_UNSUPPORTED",
                           "LEDGER_SCHEMA_UNSUPPORTED", "BATCH_TOO_LARGE"]
          then status == NeedsRecovery && next == 0
          else status == Quarantined && next == 0)
    case OtherFailure => status == NeedsRecovery && error == "LOCAL_SYNC_INCONSISTENCY" && next == 0
  }

  /** A row that went back: its claim is gone, and nothing but its status, error and next attempt changed. */
  predicate WentBack(before: Row, after: Row, reply: Reply, now: int, backoff: int) {
    && after.tuple == before.tuple
    && after.evidence.lastError.Some?
    && ReturnsAs(reply, now, backoff, after.evidence.status, after.evidence.lastError.value, after.evidence.nextAttemptAt)
    && after.evidence.claimOwner.None? && after.evidence.leaseExpiresAt.None?
    && after.evidence.attemptCount == before.evidence.attemptCount && after.evidence.lastAttemptAt == before.evidence.lastAttemptAt
    && SameReceipt(before, after) && after.evidence.transportFingerprint == before.evidence.transportFingerprint
  }

  /** The rows of the exchange went back, and no other row changed. */
  ghost predicate RowsWentBack(before: Table, back: Table, ids: set<string>, reply: Reply, now: int, backoff: int) {
    && back.Keys == before.Keys
    && forall id :: id in before ==>
         if id in ids then WentBack(before[id], back[id], reply, now, backoff) else back[id] == before[id]
  }

  /** The failures after which the worker does more than put its rows back. */
  predicate Reacts(reply: Reply) {
    reply.HttpFailure? && reply.code in ["HEAD_MOVED", "MISSING_PREDECESSOR", "DEPENDENCY_MISSING", "BATCH_TOO_LARGE"]
  }

  /** After a body too large: a smaller batch, or when there is none the first outstanding row is blocked. */
  ghost predicate MadeSmaller(back: Table, after: Table, size: nat, limit: nat, limitAfter: nat) {
    if size > 1 && limit > 1
    then after == Shrunk(back) && limitAfter == (if limit < 4 then 1 else limit / 2)
    else BlocksFirst(back, after, Quarantined, "EVENT_TOO_LARGE") && limitAfter == limit
  }

  predicate SyncedId(t: Table, id: string) { id in t && t[id].Status() == Synced }

  /** The server and the surroundings of one round. */
  datatype World = World(
    answer: Request -> Reply,
    prefix: PrefixAnswer,
    wellFormed: Ack -> bool,
    retryDelay: nat -> int)

  /** The request of a round is right for the table the round started from, and carries its rows. */
  lemma {:induction false} RequestIsRight(before: Table, claim: Table, trim: Table, renew: Table, last: Table, ledger: seq<Entry>,
                                          c: Claim, claimed: seq<Row>, n: nat, held: seq<Row>, scope: Scope, owner: string, now: int,
                                          sendAt: int, max: nat, limits: Limits, request: Request)
    requires Keyed(before) && JournalShape(ledger) && ClaimHeld(last, ledger, c) && 0 < n <= |claimed| && max <= BATCH
    requires c.rows == Tuples(held) == Tuples(claimed[..n])
    requires SameSynced(before, claim) && SameSynced(claim, trim) && SameSynced(trim, renew) && SameSynced(renew, last)
    requires ClaimSpec(before, claim, claimed, scope, owner, now, max)
    requires trim == Change(claim, Released(Pending, "BATCH_DEFERRED", 0), IdsOf(claimed[n..]))
    requires renew == Change(trim, Renewed(sendAt), IdsOf(claimed[..n]))
    requires last == Change(renew, Attempted(sendAt), IdsOf(claimed[..n]))
    requires forall i :: 0 <= i < |held| ==> held[i].Id() in last && held[i] == last[held[i].Id()]
    requires forall i :: 0 <= i < n ==> Fits(claimed[i], EventsOf(claimed[..i]), limits)
    requires held != [] && request == Request(request.requestId, scope, ExpectedHead(held[0]), EventsOf(held))
    ensures RightRequest(before, ledger, request) && Carries(before, scope.chainId, scope, limits, request)
  {
    hide JournalShape, ClaimHeld, SameSynced, ClaimSpec, Change, IdsOf, Fits, RightRequest, Carries, BoundRows;
    assert |held| == n by { assert |Tuples(held)| == |Tuples(claimed[..n])|; }
    BatchIsRight(last, ledger, c, held, request);
    SameSyncedChain(before, claim, trim, renew, last);
    RightEarlier(before, last, ledger, request);
    BoundThroughout(before, claim, trim, renew, last, claimed, n, scope, owner, now, sendAt, max);
    SizesFit(claimed, n, limits);
    SameEvents(before, claim, last, claimed, n, held, scope, owner, now, max);
    BodyFits(claimed, n, limits);
    HeldIsCarried(before, last, ledger, c, held, claimed[..n], scope, limits, request);
  }

  // ----- Which rows a round may mark -----

  function EventIds(events: seq<Event>): set<string> { set i | 0 <= i < |events| :: events[i].eventId }

  /** The given rows are synced too; otherwise nothing became or stopped being synced. */
  ghost predicate SyncedWith(before: Table, after: Table, ids: set<string>) {
    && before.Keys <= after.Keys
    && forall id :: id in after ==> (after[id].Status() == Synced <==> SyncedId(before, id) || id in ids)
  }

  /** What a recovery inside a round did, if there was one. */
  datatype Trace = Trace(recovered: bool, proven: Table)

  /** Nothing became or stopped being synced, except that a recovery requeued what it had proven. */
  ghost predicate Stretch(before: Table, trace: Trace, after: Table) {
    && SyncedKept(before, trace.proven)
    && (if trace.recovered then exists includeLegacy :: after == Requeued(trace.proven, includeLegacy) else after == trace.proven)
  }

  lemma {:induction false} StretchFrom(a: Table, b: Table, trace: Trace, after: Table)
    requires SyncedKept(a, b) && Stretch(b, trace, after)
    ensures Stretch(a, trace, after)
  {
    hide SyncedKept;
    SyncedKeptTwice(a, b, trace.proven);
  }

  lemma {:induction false} Unrecovered(before: Table, after: Table)
    requires SyncedKept(before, after)
    ensures Stretch(before, Trace(false, after), after)
  {
  }

  lemma {:induction false} Recovering(before: Table, proven: Table, after: Table, includeLegacy: bool)
    requires SyncedKept(before, proven) && after == Requeued(proven, includeLegacy)
    ensures Stretch(before, Trace(true, proven), after)
  {
  }

  lemma {:induction false} SyncedWithAfter(a: Table, b: Table, c: Table, ids: set<string>)
    requires SyncedKept(a, b) && SyncedWith(b, c, ids)
    ensures SyncedWith(a, c, ids)
  {
  }

  /** A stored receipt is repeated by its acknowledgement. */
  ghost predicate ReceiptsAgree(t: Table, events: seq<Event>, acks: seq<Ack>) {
    forall i, k :: 0 <= i < |events| && 0 <= k < |acks| && acks[k].eventId == events[i].eventId && events[i].eventId in t ==>
      ReceiptAgrees(t[events[i].eventId], acks[k])
  }

  predicate ReceiptAgrees(r: Row, ack: Ack) {
    r.evidence.receiptId.Some? ==>
      r.evidence.receiptId == Some(ack.receiptId) && r.evidence.serverReceivedAt == Some(ack.serverReceivedAt)
  }

  /** The exchange delivers the batch: a reply came, it passes the acceptance test and contradicts no receipt. */
  ghost predicate Delivers(t: Table, request: Request, world: World) {
    && world.answer(request).Replied?
    && GoodReply(request, world.answer(request).response, world.wellFormed)
    && ReceiptsAgree(t, request.events, world.answer(request).response.acknowledgements)
  }

  lemma {:induction false} ConfirmableIsReceipts(t: Table, held: seq<Row>, acks: seq<Ack>)
    requires forall i :: 0 <= i < |held| ==> held[i].Id() in t && held[i] == t[held[i].Id()]
    ensures Confirmable(t, held, acks) <==> ReceiptsAgree(t, EventsOf(held), acks)
  {
    var events := EventsOf(held);
    forall i, k | 0 <= i < |held| && 0 <= k < |acks| && acks[k].eventId == held[i].Id()
      ensures ConfirmableRow(t[held[i].Id()], held[i], acks[k]) <==> ReceiptAgrees(t[held[i].Id()], acks[k])
    {
      assert events[i].eventId == held[i].Id();
    }
    if ReceiptsAgree(t, events, acks) {
      forall i, k | 0 <= i < |held| && 0 <= k < |acks| && acks[k].eventId == held[i].Id()
        ensures ConfirmableRow(t[held[i].Id()], held[i], acks[k])
      {
        assert events[i].eventId == held[i].Id();
      }
    }
  }

  /** The receipts of the rows, and nothing about their status. */
  ghost predicate SameReceipts(before: Table, after: Table) {
    && before.Keys == after.Keys
    && forall id :: id in before ==> SameReceipt(before[id], after[id])
  }

  /** Receipts are as they were, or are those of the acknowledgements. */
  ghost predicate ReceiptsFrom(before: Table, after: Table, acks: seq<Ack>) {
    forall id :: id in after && after[id].evidence.receiptId.Some? ==>
      (id in before && SameReceipt(before[id], after[id])) || ReceivedFrom(after[id], id, acks)
  }

  ghost predicate ReceivedFrom(r: Row, id: string, acks: seq<Ack>) {
    exists k :: 0 <= k < |acks| && acks[k].eventId == id
      && r.evidence.receiptId == Some(acks[k].receiptId) && r.evidence.serverReceivedAt == Some(acks[k].serverReceivedAt)
  }

  lemma {:induction false} QuietReceipts(before: Table, after: Table)
    requires SameReceipts(before, after)
    ensures NoNewReceipt(before, after)
  {
  }

  lemma {:induction false} LaterReceipts(a: Table, b: Table, c: Table, acks: seq<Ack>)
    requires NoNewReceipt(a, b) && ReceiptsFrom(b, c, acks)
    ensures ReceiptsFrom(a, c, acks)
  {
    hide ReceivedFrom;
  }

  lemma {:induction false} AckedReceipts(before: Table, after: Table, held: seq<Row>, acks: seq<Ack>, now: int)
    requires before.Keys == after.Keys && forall id :: id in before ==> before[id].Id() == id
    requires forall id :: id in after ==>
      if id in IdsOf(held) then ConfirmedFrom(before[id], after[id], acks, now) else after[id] == before[id]
    ensures ReceiptsFrom(before, after, acks)
  {
    forall id | id in after && id in IdsOf(held) ensures ReceivedFrom(after[id], id, acks) {
      var k :| 0 <= k < |acks| && acks[k].eventId == before[id].Id() && after[id] == Confirmed(before[id], acks[k], now);
    }
  }

  lemma {:induction false} SameReceiptsAgree(before: Table, after: Table, events: seq<Event>, acks: seq<Ack>)
    requires SameReceipts(before, after)
    ensures ReceiptsAgree(before, events, acks) <==> ReceiptsAgree(after, events, acks)
  {
  }

  lemma {:induction false} SameReceiptsTwice(a: Table, b: Table, c: Table)
    requires SameReceipts(a, b) && SameReceipts(b, c)
    ensures SameReceipts(a, c)
  {
  }

  lemma {:induction false} RefreshedReceipts(t: Table, skewed: set<string>, now: int)
    ensures SameReceipts(t, Refreshed(t, skewed, now))
  {
  }

  lemma {:induction false} BoundReceipts(t: Table, ids: set<string>, scope: Scope, owner: string, now: int)
    ensures SameReceipts(t, Change(t, BindWith(scope, owner, now), ids))
  {
  }

  lemma {:induction false} ClaimKeepsReceipts(before: Table, after: Table, claimed: seq<Row>, scope: Scope, owner: string, now: int, max: nat)
    requires ClaimSpec(before, after, claimed, scope, owner, now, max)
    ensures SameReceipts(before, after)
  {
    hide IsOutstanding, TakeLength, Blocked, IdsOf, Refreshed, Change, SameReceipts;
    var first: seq<Row>, candidates: seq<Row> :| ClaimSteps(before, first, candidates, after, claimed, scope, owner, now, max);
    var ready := Refreshed(before, IdsOf(first), now);
    RefreshedReceipts(before, IdsOf(first), now);
    if !Blocked(ready) && candidates != [] {
      var n := TakeLength(candidates, candidates[0].tuple.payload.LedgerEvent?, now, max);
      BoundReceipts(ready, IdsOf(candidates[..n]), scope, owner, now);
      SameReceiptsTwice(before, ready, after);
    }
  }

  lemma {:induction false} BlockKeepsReceipts(before: Table, after: Table, status: RowStatus, code: string)
    requires BlocksFirst(before, after, status, code)
    ensures SameReceipts(before, after)
  {
  }

  // ----- The reply -----

  /** The status a failure leaves never hides a row from a later recovery. */
  lemma {:induction false} ReleasedIsReady(t: Table, ledger: seq<Entry>, scope: Scope, held: seq<Row>, status: RowStatus, code: string, next: int)
    requires status != Quarantined && forall id :: id in IdsOf(held) ==> id in t && t[id].Status() == Sending
    ensures RowsReady(Change(t, Released(status, code, next), IdsOf(held)), ledger, scope) <==> RowsReady(t, ledger, scope)
  {
    var after := Change(t, Released(status, code, next), IdsOf(held));
    forall id | id in t ensures RowReady(after[id], scope) <==> RowReady(t[id], scope) {
    }
  }

  /** The rows of a failed exchange are released as its failure says. */
  method ReleaseFailed(store: Store, held: seq<Row>, owner: string, status: RowStatus, error: string, next: int,
                       ghost reply: Reply, ghost now: int, ghost backoff: int) returns (ghost trace: Trace)
    requires store.Valid() && held != [] && store.live == Some(LiveClaim(owner, Tuples(held))) && status != Synced && status != Sending
    requires ReturnsAs(reply, now, backoff, status, error, next)
    modifies store`rows, store`live
    ensures store.Valid() && store.live.None?
    ensures store.rows == Change(old(store.rows), Released(status, error, next), IdsOf(held))
    ensures RowsWentBack(old(store.rows), store.rows, IdsOf(held), reply, now, backoff) && NoNewReceipt(old(store.rows), store.rows)
    ensures !trace.recovered && Stretch(old(store.rows), trace, store.rows) && SyncedKept(old(store.rows), store.rows)
    ensures Preserved(old(store.rows), store.rows)
    ensures old(Backfilled(store)) ==> Backfilled(store)
    ensures old(NoOrphans(store.rows, store.live)) ==> NoOrphans(store.rows, store.live)
  {
    hide NoOrphans, NoNewReceipt, JournalShape, RowsMatch, PrefixSynced, LegacyShape, SavedPrefixes, SavedFor, Everything, SameSynced, Preserved,
         ClaimHeld, Reached, Stretch, SyncedKept, RowsWentBack, Change, ReturnsAs;
    ghost var start := store.rows;
    SameTable(start);
    WholeIds(held);
    store.Release(held, 0, owner, status, error, next);
    ReleasedBack(start, held, status, error, next, reply, now, backoff);
    SameIsKept(start, store.rows);
    trace := Released0(start, store);
  }

  lemma {:induction false} AuthReturns(code: string, now: int, backoff: int)
    ensures var temporary, recovery := code == "server_unreachable", code == "needs_recovery";
            ReturnsAs(AuthFailure(code), now, backoff, if temporary then Pending else if recovery then NeedsRecovery else PausedAuth,
                      if temporary then "NETWORK_ERROR" else if recovery then "AUTH_RECOVERY_REQUIRED" else "AUTH_REQUIRED",
                      if temporary then now + backoff else 0)
  {
  }

  lemma {:induction false} HttpReturns(http: int, code: string, wait: Option<int>, now: int, backoff: int)
    ensures var temporary := http in {408, 429} || http >= 500;
            var recovery := code in {"HEAD_MOVED", "MISSING_PREDECESSOR", "DEPENDENCY_MISSING", "PROTOCOL_UNSUPPORTED",
                                     "LEDGER_SCHEMA_UNSUPPORTED", "BATCH_TOO_LARGE"};
            var asked := if wait.None? then 0 else Min(Max(wait.value, 0), 21600000);
            var status := if temporary then Pending else if recovery then NeedsRecovery else Quarantined;
            && ReturnsAs(HttpFailure(http, code, wait), now, backoff, status, code, if temporary then now + Max(backoff, asked) else 0)
            && (code in CHAIN_CODES ==> status != Quarantined)
  {
  }

  lemma {:induction false} OtherReturns(response: Response, now: int, backoff: int)
    ensures ReturnsAs(Replied(response), now, backoff, Pending, "INVALID_ACK", now + backoff)
  {
  }

  lemma {:induction false} LocalReturns(now: int, backoff: int)
    ensures ReturnsAs(OtherFailure, now, backoff, NeedsRecovery, "LOCAL_SYNC_INCONSISTENCY", 0)
  {
  }

  lemma {:induction false} HeldFacts(store: Store, owner: string, held: seq<Row>)
    requires store.Valid() && held != [] && store.live == Some(LiveClaim(owner, Tuples(held)))
    ensures !HoldsNothing(store.rows, owner) && Keyed(store.rows)
    ensures forall id :: id in IdsOf(held) ==> id in store.rows && store.rows[id].Status() == Sending
  {
    hide JournalShape, LegacyShape, PrefixSynced, SavedPrefixes, SavedFor, Everything;
    StillHeld(store.rows, store.ledger, store.live.value, owner, held);
    RowsAreKeyed(store.rows, store.chain, store.ledger, store.legacy);
  }

  /** A recovery would succeed after the release exactly when it would have before. */
  lemma {:induction false} SameRecoverable(start: Table, store: Store, scope: Scope, held: seq<Row>, status: RowStatus, code: string, next: int,
                                           prefix: PrefixAnswer)
    requires status != Quarantined && store.rows == Change(start, Released(status, code, next), IdsOf(held))
    requires forall id :: id in IdsOf(held) ==> id in start && start[id].Status() == Sending
    ensures Recoverable(start, store.ledger, store.legacy, store.chain, scope, prefix)
       <==> Recoverable(store.rows, store.ledger, store.legacy, store.chain, scope, prefix)
  {
    hide RowsReady, AllPagesPass, Clash, Change;
    ReleasedIsReady(start, store.ledger, scope, held, status, code, next);
  }

  /** What the reply does to the rows of the round: acknowledge, or release with the reason of the failure. */
  method SettleReply(store: Store, scope: Scope, held: seq<Row>, owner: string, now: int, request: Request, world: World)
      returns (acknowledged: bool, ghost trace: Trace, ghost back: Table)
    requires store.Valid() && held != [] && store.live == Some(LiveClaim(owner, Tuples(held))) && request.events == EventsOf(held)
    requires forall i :: 0 <= i < |held| ==> held[i].Id() in store.rows && held[i] == store.rows[held[i].Id()]
    requires scope.chainId == store.chain
    modifies store
    ensures store.Valid() && store.live.None?
    ensures store.ledger == old(store.ledger) && store.legacy == old(store.legacy)
    ensures acknowledged <==> Delivers(old(store.rows), request, world)
    ensures acknowledged ==> !trace.recovered && SyncedWith(old(store.rows), store.rows, EventIds(request.events))
    ensures !acknowledged ==> Stretch(old(store.rows), trace, store.rows)
    ensures !acknowledged ==>
              RowsWentBack(old(store.rows), back, IdsOf(held), world.answer(request), now, world.retryDelay(held[0].evidence.attemptCount))
    ensures !acknowledged ==> AfterBack(back, old(store.backfill), world.answer(request), |held|, store.rows, store.backfill.batchLimit)
    ensures acknowledged ==> ReceiptsFrom(old(store.rows), store.rows, world.answer(request).response.acknowledgements)
    ensures !acknowledged ==> NoNewReceipt(old(store.rows), store.rows)
    ensures trace.recovered <==>
              && RecoversAfter(world.answer(request))
              && old(store.backfill.recoveryAttempts) < 1
              && old(Recoverable(store.rows, store.ledger, store.legacy, store.chain, scope, world.prefix))
    ensures Undisturbed(old(store.rows), old(store.saved), old(store.backfill.destinationId), store)
    ensures old(Backfilled(store)) ==> Backfilled(store)
    ensures old(NoOrphans(store.rows, store.live)) ==> NoOrphans(store.rows, store.live)
  {
    hide NoOrphans, NoNewReceipt, ReceiptsFrom, SameReceipts, JournalShape, RowsMatch, PrefixSynced, LegacyShape, SavedPrefixes, SavedFor, Everything, SameSynced, Preserved, GoodReply,
         ClaimHeld, Confirmable, ReceiptsAgree, ConfirmedFrom, KeepsOthers, Reached, Stretch, SyncedKept, SyncedWith, HoldsNothing,
         RowsReady, AllPagesPass, Clash, RowsWentBack, Change, MadeSmaller, ReturnsAs, Recoverable, OutboxStore.Store.Valid, IdsOf;
    OthersSame(store.saved, store.backfill.destinationId);
    SameTable(store.rows);
    ghost var start := store.rows;
    acknowledged, trace, back := false, Trace(false, start), start;
    HeldFacts(store, owner, held);
    var reply := world.answer(request);
    var backoff := world.retryDelay(held[0].evidence.attemptCount);
    match reply {
      case Replied(response) =>
        ConfirmableIsReceipts(start, held, response.acknowledgements);
        acknowledged := store.Acknowledge(held, owner, request, response, world.wellFormed, now);
        if acknowledged {
          AckSyncs(start, store.rows, held, request, response, now);
          AckedReceipts(start, store.rows, held, response.acknowledgements, now);
          KeptAcross(start, store.rows, store.ledger, store.legacy, old(store.backfill), store.backfill);
        } else {
          OtherReturns(response, now, backoff);
          trace := ReleaseFailed(store, held, owner, Pending, "INVALID_ACK", now + backoff, reply, now, backoff);
        }
      case AuthFailure(code) =>
        var temporary, recovery := code == "server_unreachable", code == "needs_recovery";
        AuthReturns(code, now, backoff);
        trace := ReleaseFailed(store, held, owner,
                               if temporary then Pending else if recovery then NeedsRecovery else PausedAuth,
                               if temporary then "NETWORK_ERROR" else if recovery then "AUTH_RECOVERY_REQUIRED" else "AUTH_REQUIRED",
                               if temporary then now + backoff else 0, reply, now, backoff);
      case HttpFailure(http, code, wait) =>
        var temporary := http in {408, 429} || http >= 500;
        var recovery := code in {"HEAD_MOVED", "MISSING_PREDECESSOR", "DEPENDENCY_MISSING", "PROTOCOL_UNSUPPORTED",
                                 "LEDGER_SCHEMA_UNSUPPORTED", "BATCH_TOO_LARGE"};
        var status := if temporary then Pending else if recovery then NeedsRecovery else Quarantined;
        var asked := if wait.None? then 0 else Min(Max(wait.value, 0), 21600000);
        var next := if temporary then now + Max(backoff, asked) else 0;
        HttpReturns(http, code, wait, now, backoff);
        trace := ReleaseFailed(store, held, owner, status, code, next, reply, now, backoff);
        ghost var released := store.rows;
        if code in CHAIN_CODES { SameRecoverable(start, store, scope, held, status, code, next, world.prefix); }
        trace := AfterRefusal(store, scope, code, |held|, world.prefix);
        back := released;
        NoNewReceiptTwice(start, released, store.rows);
        PreservedTwice(start, released, store.rows);
        StretchFrom(start, released, trace, store.rows);
        return;
      case OtherFailure =>
        LocalReturns(now, backoff);
        trace := ReleaseFailed(store, held, owner, NeedsRecovery, "LOCAL_SYNC_INCONSISTENCY", 0, reply, now, backoff);
    }
    back := store.rows;
  }

  /** What follows once the rows went back. */
  ghost predicate AfterBack(back: Table, state: Backfill, reply: Reply, size: nat, after: Table, limit: nat) {
    && (!Reacts(reply) ==> after == back)
    && (RecoversAfter(reply) && 1 <= state.recoveryAttempts ==> after == back)
    && (reply.HttpFailure? && reply.code == "BATCH_TOO_LARGE" ==> MadeSmaller(back, after, size, state.batchLimit, limit))
  }

  lemma {:induction false} WholeIds(held: seq<Row>)
    ensures held[0..] == held
  {
  }

  lemma {:induction false} ReleasedBack(t: Table, held: seq<Row>, status: RowStatus, error: string, next: int, reply: Reply, now: int, backoff: int)
    requires ReturnsAs(reply, now, backoff, status, error, next)
    ensures var after := Change(t, Released(status, error, next), IdsOf(held));
            RowsWentBack(t, after, IdsOf(held), reply, now, backoff) && NoNewReceipt(t, after)
  {
    hide ReturnsAs;
  }

  /** The replies after which the worker tries to recover at once. */
  predicate RecoversAfter(reply: Reply) { reply.HttpFailure? && reply.code in CHAIN_CODES }

  lemma {:induction false} StillHeld(t: Table, ledger: seq<Entry>, c: Claim, owner: string, held: seq<Row>)
    requires ClaimHeld(t, ledger, c) && c == LiveClaim(owner, Tuples(held)) && held != []
    ensures !HoldsNothing(t, owner)
    ensures forall id :: id in IdsOf(held) ==> id in t && t[id].Status() == Sending
  {
    hide Block;
    HeldRows(t, ledger, c, held);
    assert held[0].Id() in IdsOf(held);
  }

  /** After a release nothing became or stopped being synced. */
  lemma {:induction false} Released0(start: Table, store: Store) returns (trace: Trace)
    requires SameSynced(start, store.rows) && Preserved(start, store.rows)
    ensures trace == Trace(false, store.rows) && Stretch(start, trace, store.rows) && Preserved(start, store.rows)
    ensures Reached(start, store.ledger, store.legacy, store.backfill) ==> Backfilled(store)
  {
    hide SameSynced, Preserved, SyncedKept, Reached, Stretch;
    trace := Trace(false, store.rows);
    SameIsKept(start, store.rows);
    Unrecovered(start, store.rows);
    SameTable(start);
    StretchOn(start, start, store);
  }

  /** One automatic recovery until the next ledger acknowledgement. */
  method RecoverOnce(store: Store, scope: Scope, code: string, prefix: PrefixAnswer) returns (ghost trace: Trace)
    requires store.Valid() && store.live.None? && scope.chainId == store.chain
    modifies store
    ensures store.Valid() && store.live.None?
    ensures store.ledger == old(store.ledger) && store.legacy == old(store.legacy)
    ensures trace.recovered <==>
              && old(store.backfill.recoveryAttempts) < 1
              && old(Recoverable(store.rows, store.ledger, store.legacy, store.chain, scope, prefix))
    ensures 1 <= old(store.backfill.recoveryAttempts) ==> store.rows == old(store.rows)
    ensures Stretch(old(store.rows), trace, store.rows)
    ensures Undisturbed(old(store.rows), old(store.saved), old(store.backfill.destinationId), store)
    ensures old(Backfilled(store)) ==> Backfilled(store)
    ensures old(NoOrphans(store.rows, store.live)) ==> NoOrphans(store.rows, store.live)
    ensures NoNewReceipt(old(store.rows), store.rows)
  {
    hide NoOrphans, NoNewReceipt, JournalShape, RowsMatch, PrefixSynced, LegacyShape, SavedPrefixes, SavedFor, Everything, SameSynced, Preserved, KeepsOthers,
         Reached, Recoverable, Stretch, SyncedKept, BlocksFirst, Requeued, SyncedAt;
    OthersSame(store.saved, store.backfill.destinationId);
    SameTable(store.rows);
    ghost var start := store.rows;
    ReceiptsStay(start, store.chain);
    SameIsKept(start, start);
    Unrecovered(start, start);
    trace := Trace(false, start);
    if store.backfill.recoveryAttempts < 1 {
      store.CountRecovery();
      KeptAcross(start, start, store.ledger, store.legacy, old(store.backfill), store.backfill);
      var recovered, proven := Recover(store, scope, code == "DEPENDENCY_MISSING", prefix);
      trace := Trace(recovered, proven);
      if recovered {
        Recovering(start, proven, store.rows, code == "DEPENDENCY_MISSING");
      } else {
        Unrecovered(start, proven);
      }
    }
  }

  /** A smaller batch, or the first outstanding row is too large by itself. */
  method ReduceOrBlock(store: Store, size: nat) returns (ghost trace: Trace)
    requires store.Valid() && store.live.None?
    modifies store
    ensures store.Valid() && store.live.None?
    ensures store.ledger == old(store.ledger) && store.legacy == old(store.legacy)
    ensures !trace.recovered && Stretch(old(store.rows), trace, store.rows)
    ensures MadeSmaller(old(store.rows), store.rows, size, old(store.backfill.batchLimit), store.backfill.batchLimit)
    ensures Undisturbed(old(store.rows), old(store.saved), old(store.backfill.destinationId), store)
    ensures old(Backfilled(store)) ==> Backfilled(store)
    ensures old(NoOrphans(store.rows, store.live)) ==> NoOrphans(store.rows, store.live)
    ensures NoNewReceipt(old(store.rows), store.rows)
  {
    hide NoOrphans, NoNewReceipt, JournalShape, RowsMatch, PrefixSynced, LegacyShape, SavedPrefixes, SavedFor, Everything, SameSynced, Preserved, KeepsOthers,
         Reached, Stretch, SyncedKept, BlocksFirst, Shrunk, SyncedAt;
    OthersSame(store.saved, store.backfill.destinationId);
    SameTable(store.rows);
    ghost var start := store.rows;
    ReceiptsStay(start, store.chain);
    var reduced := false;
    if size > 1 { reduced := store.ReduceBatch(); }
    KeptAcross(start, store.rows, store.ledger, store.legacy, old(store.backfill), store.backfill);
    if reduced {
      ShrinkReceipts(start);
      SameIsKept(start, store.rows);
    } else {
      store.BlockChain(Quarantined, "EVENT_TOO_LARGE");
      BlockKeepsReceipts(start, store.rows, Quarantined, "EVENT_TOO_LARGE");
      QuietReceipts(start, store.rows);
      StretchOn(start, start, store);
      SameIsKept(start, store.rows);
    }
    trace := Trace(false, store.rows);
    Unrecovered(start, store.rows);
  }

  lemma {:induction false} ShrinkReceipts(t: Table)
    ensures NoNewReceipt(t, Shrunk(t))
  {
  }

  /** After a refusal: one automatic recovery for a chain error, a smaller batch for a body too large. */
  method AfterRefusal(store: Store, scope: Scope, code: string, size: nat, prefix: PrefixAnswer) returns (ghost trace: Trace)
    requires store.Valid() && store.live.None? && scope.chainId == store.chain
    modifies store
    ensures store.Valid() && store.live.None?
    ensures store.ledger == old(store.ledger) && store.legacy == old(store.legacy)
    ensures trace.recovered <==>
              && code in CHAIN_CODES
              && old(store.backfill.recoveryAttempts) < 1
              && old(Recoverable(store.rows, store.ledger, store.legacy, store.chain, scope, prefix))
    ensures code !in CHAIN_CODES && code != "BATCH_TOO_LARGE" ==> store.rows == old(store.rows)
    ensures code in CHAIN_CODES && 1 <= old(store.backfill.recoveryAttempts) ==> store.rows == old(store.rows)
    ensures code == "BATCH_TOO_LARGE" ==>
              MadeSmaller(old(store.rows), store.rows, size, old(store.backfill.batchLimit), store.backfill.batchLimit)
    ensures Stretch(old(store.rows), trace, store.rows)
    ensures Undisturbed(old(store.rows), old(store.saved), old(store.backfill.destinationId), store)
    ensures old(Backfilled(store)) ==> Backfilled(store)
    ensures old(NoOrphans(store.rows, store.live)) ==> NoOrphans(store.rows, store.live)
    ensures NoNewReceipt(old(store.rows), store.rows)
  {
    hide NoOrphans, NoNewReceipt, JournalShape, RowsMatch, PrefixSynced, LegacyShape, SavedPrefixes, SavedFor, Everything, SameSynced, Preserved, KeepsOthers,
         Reached, Recoverable, Stretch, SyncedKept, MadeSmaller, OutboxStore.Store.Valid, Backfilled;
    if code in CHAIN_CODES {
      trace := RecoverOnce(store, scope, code, prefix);
    } else if code == "BATCH_TOO_LARGE" {
      trace := ReduceOrBlock(store, size);
    } else {
      OthersSame(store.saved, store.backfill.destinationId);
      SameTable(store.rows);
      ReceiptsStay(store.rows, store.chain);
      SameIsKept(store.rows, store.rows);
      Unrecovered(store.rows, store.rows);
      trace := Trace(false, store.rows);
    }
  }

  // ----- The send -----

  /** Why nothing is sent: the claim is refused or empty, its first row does not fit, or its lease ran out before the send. */
  ghost predicate NothingToSend(t: Table, chain: string, scope: Scope, owner: string, now: int, sendAt: int, max: nat, limits: Limits) {
    || scope.chainId != chain
    || ClaimRefused(t, scope, now, max)
    || exists after: Table, claimed: seq<Row> :: ClaimSpec(t, after, claimed, scope, owner, now, max)
         && (claimed == [] || !Fits(claimed[0], [], limits) || now + LEASE_MILLIS <= sendAt)
  }

  /** The batch is the longest part of the claim that fits. */
  ghost predicate LongestFit(claimed: seq<Row>, request: Request, limits: Limits) {
    var n := |request.events|;
    && 0 < n <= |claimed|
    && (forall i :: 0 <= i < n ==> request.events[i].eventId == claimed[i].Id())
    && (forall i :: 0 <= i < n ==> Fits(claimed[i], EventsOf(claimed[..i]), limits))
    && (n < |claimed| ==> !Fits(claimed[n], EventsOf(claimed[..n]), limits))
  }

  ghost predicate SendsLongest(t: Table, scope: Scope, owner: string, now: int, max: nat, limits: Limits, request: Request) {
    exists after: Table, claimed: seq<Row> :: ClaimSpec(t, after, claimed, scope, owner, now, max) && LongestFit(claimed, request, limits)
  }

  /**
   Up to the send: claim, cut the batch to size, renew, count the attempt. Without a
   request nothing is claimed any more.
   */
  method PrepareBatch(store: Store, scope: Scope, owner: string, now: int, sendAt: int, requestId: string, limits: Limits)
      returns (held: seq<Row>, request: Option<Request>)
    requires store.Valid() && store.live.None? && Everything(store.rows, store.ledger, store.legacy)
    modifies store`rows, store`live
    ensures store.Valid()
    ensures var max := Outbox.Min(BATCH, store.backfill.batchLimit);
            && (request.None? ==> store.live.None? && NothingToSend(old(store.rows), store.chain, scope, owner, now, sendAt, max, limits))
            && (request.Some? ==> SendsLongest(old(store.rows), scope, owner, now, max, limits, request.value))
    ensures request.Some? ==> held != [] && store.live == Some(LiveClaim(owner, Tuples(held))) && request.value.events == EventsOf(held)
    ensures request.Some? ==> forall i :: 0 <= i < |held| ==> held[i].Id() in store.rows && held[i] == store.rows[held[i].Id()]
    ensures request.Some? ==> RightRequest(old(store.rows), store.ledger, request.value)
    ensures request.Some? ==> Carries(old(store.rows), store.chain, scope, limits, request.value)
    ensures request.Some? ==> (RowsReady(old(store.rows), store.ledger, scope) <==> RowsReady(store.rows, store.ledger, scope))
    ensures request.Some? ==> NoneNewlyStops(old(store.rows), store.rows)
    ensures request.Some? ==> held[0].Id() in old(store.rows) && held[0].evidence.attemptCount == old(store.rows)[held[0].Id()].evidence.attemptCount + 1
    ensures Preserved(old(store.rows), store.rows) && SyncedKept(old(store.rows), store.rows)
    ensures SameReceipts(old(store.rows), store.rows)
    ensures old(NoOrphans(store.rows, store.live)) ==> NoOrphans(store.rows, store.live)
  {
    hide NoOrphans, JournalShape, RowsMatch, PrefixSynced, LegacyShape, SavedPrefixes, SavedFor, Everything, SameSynced, Preserved,
         RightRequest, ClaimHeld, ClaimSpec, Fits, Carries, BoundRows, SyncedKept, SameReceipts, Change, BlocksFirst, ClaimRefused,
         SendsLongest, LeaseAlive, SameReady, RowsReady;
    held, request := [], None;
    ghost var before := store.rows;
    SameTable(before);
    OwnReceipts(before);
    ghost var max := Outbox.Min(BATCH, store.backfill.batchLimit);
    var claimed := store.Claim(scope, owner, now, BATCH);
    ghost var afterClaim := store.rows;
    SameIsKept(before, afterClaim);
    if claimed.None? {
      store.BlockChain(NeedsRecovery, "LOCAL_SYNC_INCONSISTENCY");
      BlockKeepsReceipts(afterClaim, store.rows, NeedsRecovery, "LOCAL_SYNC_INCONSISTENCY");
      KeepsAll(before, afterClaim, store.rows);
      return;
    }
    ClaimKeepsReceipts(before, afterClaim, claimed.value, scope, owner, now, max);
    if claimed.value == [] {
      GivesUp(before, afterClaim, store.chain, [], scope, owner, now, sendAt, max, limits);
      return;
    }
    ClaimReady(before, afterClaim, claimed.value, scope, owner, now, max);
    HeldRows(afterClaim, store.ledger, store.live.value, claimed.value);
    held := claimed.value;
    var n := Select(held, limits);
    if n == 0 {
      assert EventsOf(held[..0]) == [];
      GivesUp(before, afterClaim, store.chain, held, scope, owner, now, sendAt, max, limits);
      store.Release(held, 0, owner, Quarantined, "EVENT_TOO_LARGE", 0);
      ReleaseIsQuiet(afterClaim, store.rows, Quarantined, "EVENT_TOO_LARGE", 0, IdsOf(held[0..]));
      KeepsAll(before, afterClaim, store.rows);
      return;
    }
    store.Release(held, n, owner, Pending, "BATCH_DEFERRED", 0);
    ghost var afterTrim := store.rows;
    ReleaseIsQuiet(afterClaim, afterTrim, Pending, "BATCH_DEFERRED", 0, IdsOf(held[n..]));
    KeepsAll(before, afterClaim, afterTrim);
    held := held[..n];
    var renewed := store.Renew(held, owner, sendAt);
    ghost var afterRenew := store.rows;
    if renewed { RenewIsQuiet(afterTrim, afterRenew, sendAt, IdsOf(held)); }
    SameRowsKept(before, afterTrim, afterRenew, renewed);
    if !renewed {
      LeaseRanOut(before, afterClaim, afterTrim, claimed.value, n, scope, owner, now, sendAt, max);
      GivesUp(before, afterClaim, store.chain, claimed.value, scope, owner, now, sendAt, max, limits);
      store.Release(held, 0, owner, NeedsRecovery, "LOCAL_SYNC_INCONSISTENCY", 0);
      ReleaseIsQuiet(afterRenew, store.rows, NeedsRecovery, "LOCAL_SYNC_INCONSISTENCY", 0, IdsOf(held[0..]));
      KeepsAll(before, afterRenew, store.rows);
      return;
    }
    held := store.MarkAttempt(held, owner, sendAt);
    AttemptIsQuiet(afterRenew, store.rows, sendAt, IdsOf(claimed.value[..n]));
    KeepsAll(before, afterRenew, store.rows);
    assert |held| == n by { assert |Tuples(held)| == n; }
    TailIds(claimed.value, n);
    SentReady(before, afterClaim, afterTrim, afterRenew, store.rows, IdsOf(claimed.value[n..]), IdsOf(claimed.value[..n]), scope, sendAt,
              store.ledger);
    request := Some(Request(requestId, scope, ExpectedHead(held[0]), EventsOf(held)));
    RowsAreKeyed(before, store.chain, store.ledger, store.legacy);
    RequestIsRight(before, afterClaim, afterTrim, afterRenew, store.rows, store.ledger, store.live.value, claimed.value, n, held,
                   scope, owner, now, sendAt, max, limits, request.value);
    SendingLongest(before, afterClaim, claimed.value, held, n, scope, owner, now, max, limits, request.value);
    PreparedRows(before, afterClaim, afterTrim, afterRenew, store.rows, claimed.value, n, held, scope, owner, now, sendAt, max);
  }

  /** No row gets in the way of the others that did not before. */
  ghost predicate NoneNewlyStops(before: Table, after: Table) {
    forall id :: id in after && Claims.Stops(after[id]) ==> id in before && Claims.Stops(before[id])
  }

  lemma {:induction false} StopsTwice(a: Table, b: Table, c: Table)
    requires NoneNewlyStops(a, b) && NoneNewlyStops(b, c)
    ensures NoneNewlyStops(a, c)
  {
    hide Claims.Stops;
  }

  lemma {:induction false} ChangeStopsNone(t: Table, f: Row -> Row, ids: set<string>)
    requires forall id :: id in t && Claims.Stops(f(t[id])) ==> Claims.Stops(t[id])
    ensures NoneNewlyStops(t, Change(t, f, ids))
  {
    hide Claims.Stops;
  }

  lemma {:induction false} ClaimStopsNone(before: Table, rows: seq<Row>, claim: Table, claimed: seq<Row>, scope: Scope, owner: string, now: int,
                                          max: nat)
    requires Claims.ClaimsRight(before, rows, claim, claimed, scope, owner, now, max)
    ensures NoneNewlyStops(before, claim)
  {
    hide IsOutstanding, Claims.LongestDue;
    forall id | id in claim ensures Claims.Stops(claim[id]) ==> Claims.Stops(before[id]) {
      if id in IdsOf(claimed) {
        var i := ClaimedAt(claimed, id);
        assert Claims.Leases(claimed[i], rows[i], scope, owner, now);
      } else {
        assert Claims.Leaves(claim[id], before[id], id in IdsOf(rows), now);
      }
    }
  }

  /** From the claim to the attempt: nothing is stopped, and the first row counts one more attempt. */
  lemma {:induction false} PreparedRows(before: Table, claim: Table, trim: Table, renew: Table, last: Table, claimed: seq<Row>, n: nat,
                                        held: seq<Row>, scope: Scope, owner: string, now: int, sendAt: int, max: nat)
    requires Keyed(before) && ClaimSpec(before, claim, claimed, scope, owner, now, max) && 0 < n <= |claimed| && |held| == n
    requires trim == Change(claim, Released(Pending, "BATCH_DEFERRED", 0), IdsOf(claimed[n..]))
    requires renew == Change(trim, Renewed(sendAt), IdsOf(claimed[..n])) && last == Change(renew, Attempted(sendAt), IdsOf(claimed[..n]))
    requires Tuples(held) == Tuples(claimed[..n])
    requires forall i :: 0 <= i < |held| ==> held[i].Id() in last && held[i] == last[held[i].Id()]
    ensures NoneNewlyStops(before, last)
    ensures held[0].Id() in before && held[0].evidence.attemptCount == before[held[0].Id()].evidence.attemptCount + 1
  {
    hide ClaimSpec, Claims.ClaimsRight, IdsOf, NoneNewlyStops, Change;
    var rows := Claims.ClaimIsRight(before, claim, claimed, scope, owner, now, max);
    ClaimStopsNone(before, rows, claim, claimed, scope, owner, now, max);
    ChangeStopsNone(claim, Released(Pending, "BATCH_DEFERRED", 0), IdsOf(claimed[n..]));
    ChangeStopsNone(trim, Renewed(sendAt), IdsOf(claimed[..n]));
    ChangeStopsNone(renew, Attempted(sendAt), IdsOf(claimed[..n]));
    StopsTwice(before, claim, trim);
    StopsTwice(before, trim, renew);
    StopsTwice(before, renew, last);
    assert held[0].tuple == Tuples(held)[0] == Tuples(claimed[..n])[0] == claimed[0].tuple;
    Claims.RunningIsNotTaken(before, rows, claim, claimed, scope, owner, now, max, 0);
    FirstIsKept(before, claim, claimed, scope, owner, now, max, n);
    ClaimedLease(before, claim, claimed, 0, scope, owner, now, max);
    OneMore(claim, claimed[0].Id(), IdsOf(claimed[n..]), IdsOf(claimed[..n]), sendAt);
  }

  lemma {:induction false} OneMore(claim: Table, id: string, deferred: set<string>, kept: set<string>, sendAt: int)
    requires id in claim && id in kept && id !in deferred
    ensures var last := Change(Change(Change(claim, Released(Pending, "BATCH_DEFERRED", 0), deferred), Renewed(sendAt), kept), Attempted(sendAt), kept);
            id in last && last[id].evidence.attemptCount == claim[id].evidence.attemptCount + 1
  {
  }

  lemma {:induction false} ClaimedAt(claimed: seq<Row>, id: string) returns (i: nat)
    requires id in IdsOf(claimed)
    ensures i < |claimed| && claimed[i].Id() == id
  {
    i :| 0 <= i < |claimed| && claimed[i].Id() == id;
  }

  lemma {:induction false} FirstIsKept(before: Table, claim: Table, claimed: seq<Row>, scope: Scope, owner: string, now: int, max: nat, n: nat)
    requires ClaimSpec(before, claim, claimed, scope, owner, now, max) && 0 < n <= |claimed|
    ensures claimed[0].Id() in IdsOf(claimed[..n]) && claimed[0].Id() !in IdsOf(claimed[n..])
  {
    hide ClaimSpec;
    ClaimedLease(before, claim, claimed, 0, scope, owner, now, max);
    assert claimed[..n][0] == claimed[0];
    forall k | 0 <= k < |claimed[n..]| ensures claimed[n..][k].Id() != claimed[0].Id() {
      assert claimed[n..][k] == claimed[n + k];
    }
  }

  /** A recovery would meet the same rows ready. */
  ghost predicate SameReady(before: Table, after: Table, scope: Scope) {
    before.Keys == after.Keys && forall id :: id in before ==> (RowReady(before[id], scope) <==> RowReady(after[id], scope))
  }

  lemma {:induction false} SameReadyRows(before: Table, after: Table, ledger: seq<Entry>, scope: Scope)
    requires SameReady(before, after, scope)
    ensures RowsReady(before, ledger, scope) <==> RowsReady(after, ledger, scope)
  {
    hide RowReady;
    assert forall n :: 0 <= n < |ledger| && ledger[n].Id() in before ==>
      (RowReady(before[ledger[n].Id()], scope) <==> RowReady(after[ledger[n].Id()], scope));
  }

  lemma {:induction false} RefreshedReady(t: Table, skewed: set<string>, now: int, scope: Scope)
    ensures SameReady(t, Refreshed(t, skewed, now), scope)
  {
  }

  /** What a claim binds was ready and stays so. */
  lemma {:induction false} TakenReady(ready: Table, candidates: seq<Row>, n: nat, scope: Scope, owner: string, now: int)
    requires IsOutstanding(ready, candidates, BATCH) && n <= |candidates|
    requires forall i :: 0 <= i < n ==> candidates[i].Status() == Pending && Bindable(candidates[i], scope)
    ensures SameReady(ready, Change(ready, BindWith(scope, owner, now), IdsOf(candidates[..n])), scope)
  {
    hide RowBefore;
    var taken := candidates[..n];
    forall id | id in IdsOf(taken) ensures id in ready && RowReady(ready[id], scope) {
      var i :| 0 <= i < |taken| && taken[i].Id() == id;
      assert candidates[i] == taken[i] && ready[candidates[i].Id()] == candidates[i];
    }
  }

  lemma {:induction false} ClaimReady(before: Table, after: Table, claimed: seq<Row>, scope: Scope, owner: string, now: int, max: nat)
    requires ClaimSpec(before, after, claimed, scope, owner, now, max) && !ClaimRefused(before, scope, now, max)
    ensures SameReady(before, after, scope)
  {
    hide Refreshed, Blocked, IsOutstanding, Change, Bindable, TakeLength, RowReady;
    var first: seq<Row>, candidates: seq<Row> :| ClaimSteps(before, first, candidates, after, claimed, scope, owner, now, max);
    var ready := Refreshed(before, IdsOf(first), now);
    RefreshedReady(before, IdsOf(first), now, scope);
    RefusedIs(before, first, candidates, scope, now, max);
    if !Blocked(ready) && candidates != [] {
      var ledger := candidates[0].tuple.payload.LedgerEvent?;
      TakeLengthFits(candidates, ledger, now, max);
      TakenReady(ready, candidates, TakeLength(candidates, ledger, now, max), scope, owner, now);
    }
  }

  lemma {:induction false} SameReadyTwice(a: Table, b: Table, c: Table, scope: Scope)
    requires SameReady(a, b, scope) && SameReady(b, c, scope)
    ensures SameReady(a, c, scope)
  {
  }

  /** What follows the claim moves no row in or out of quarantine, and no binding. */
  lemma {:induction false} SentReady(before: Table, claim: Table, trim: Table, renew: Table, last: Table, deferred: set<string>,
                                     kept: set<string>, scope: Scope, sendAt: int, ledger: seq<Entry>)
    requires SameReady(before, claim, scope)
    requires trim == Change(claim, Released(Pending, "BATCH_DEFERRED", 0), deferred)
    requires forall id :: id in deferred && id in claim ==> claim[id].Status() == Sending
    requires renew == Change(trim, Renewed(sendAt), kept) && last == Change(renew, Attempted(sendAt), kept)
    ensures RowsReady(before, ledger, scope) <==> RowsReady(last, ledger, scope)
  {
    hide SameReady, RowsReady, Change;
    ReleasedReady(claim, deferred, scope);
    QuietReady(trim, Renewed(sendAt), kept, scope);
    QuietReady(renew, Attempted(sendAt), kept, scope);
    SameReadyTwice(before, claim, trim, scope);
    SameReadyTwice(before, trim, renew, scope);
    SameReadyTwice(before, renew, last, scope);
    SameReadyRows(before, last, ledger, scope);
  }

  lemma {:induction false} TailIds(held: seq<Row>, from: nat)
    requires from <= |held|
    ensures IdsOf(held[from..]) <= IdsOf(held)
  {
    forall i | 0 <= i < |held[from..]| ensures held[from..][i].Id() in IdsOf(held) {
      assert held[from..][i] == held[from + i];
    }
  }

  lemma {:induction false} ReleasedReady(t: Table, ids: set<string>, scope: Scope)
    requires forall id :: id in ids && id in t ==> t[id].Status() == Sending
    ensures SameReady(t, Change(t, Released(Pending, "BATCH_DEFERRED", 0), ids), scope)
  {
  }

  lemma {:induction false} QuietReady(t: Table, f: Row -> Row, ids: set<string>, scope: Scope)
    requires forall id :: id in t ==> (RowReady(f(t[id]), scope) <==> RowReady(t[id], scope))
    ensures SameReady(t, Change(t, f, ids), scope)
  {
    hide RowReady;
  }

  lemma {:induction false} KeepsAll(a: Table, b: Table, c: Table)
    requires Preserved(a, b) && SyncedKept(a, b) && SameReceipts(a, b)
    requires Preserved(b, c) && SameSynced(b, c) && SameReceipts(b, c)
    ensures Preserved(a, c) && SyncedKept(a, c) && SameReceipts(a, c)
  {
    hide Preserved, SameSynced, SyncedKept, SameReceipts;
    PreservedTwice(a, b, c);
    SameIsKept(b, c);
    SyncedKeptTwice(a, b, c);
    SameReceiptsTwice(a, b, c);
  }

  lemma {:induction false} SameRowsKept(a: Table, b: Table, c: Table, changed: bool)
    requires Preserved(a, b) && SyncedKept(a, b) && SameReceipts(a, b)
    requires if changed then Preserved(b, c) && SameSynced(b, c) && SameReceipts(b, c) else b == c
    ensures Preserved(a, c) && SyncedKept(a, c) && SameReceipts(a, c)
  {
    hide Preserved, SameSynced, SyncedKept, SameReceipts;
    if changed { KeepsAll(a, b, c); }
  }

  lemma {:induction false} ReleaseIsQuiet(t: Table, after: Table, status: RowStatus, code: string, next: int, ids: set<string>)
    requires after == Change(t, Released(status, code, next), ids)
    ensures SameReceipts(t, after)
  {
  }

  lemma {:induction false} RenewIsQuiet(t: Table, after: Table, now: int, ids: set<string>)
    requires after == Change(t, Renewed(now), ids)
    ensures SameReceipts(t, after)
  {
  }

  lemma {:induction false} AttemptIsQuiet(t: Table, after: Table, now: int, ids: set<string>)
    requires after == Change(t, Attempted(now), ids)
    ensures SameReceipts(t, after)
  {
  }

  /** A renewal fails only when the lease of the claim is over. */
  lemma {:induction false} LeaseRanOut(before: Table, claim: Table, trim: Table, claimed: seq<Row>, n: nat, scope: Scope, owner: string,
                                       now: int, sendAt: int, max: nat)
    requires ClaimSpec(before, claim, claimed, scope, owner, now, max) && n <= |claimed|
    requires trim == Change(claim, Released(Pending, "BATCH_DEFERRED", 0), IdsOf(claimed[n..]))
    requires !forall i :: 0 <= i < n ==> claimed[i].Id() in trim && LeaseAlive(trim[claimed[i].Id()], sendAt)
    ensures now + LEASE_MILLIS <= sendAt
  {
    hide IsOutstanding, TakeLength, Blocked, Refreshed, Change, ClaimSpec, IdsOf;
    var i :| 0 <= i < n && !(claimed[i].Id() in trim && LeaseAlive(trim[claimed[i].Id()], sendAt));
    ClaimedLease(before, claim, claimed, i, scope, owner, now, max);
    NotReleased(claim, trim, claimed, n, i);
  }

  lemma {:induction false} ClaimedLease(before: Table, claim: Table, claimed: seq<Row>, i: nat, scope: Scope, owner: string, now: int, max: nat)
    requires ClaimSpec(before, claim, claimed, scope, owner, now, max) && i < |claimed|
    ensures claimed[i].Id() in claim && claim[claimed[i].Id()].evidence.leaseExpiresAt == Some(now + LEASE_MILLIS)
    ensures forall j, k :: 0 <= j < k < |claimed| ==> claimed[j].Id() != claimed[k].Id()
  {
    hide IsOutstanding, TakeLength, Blocked, Refreshed;
    var first: seq<Row>, candidates: seq<Row> :| ClaimSteps(before, first, candidates, claim, claimed, scope, owner, now, max);
    OutstandingFacts(Refreshed(before, IdsOf(first), now), candidates);
    var taken := candidates[..|claimed|];
    assert taken[i] == candidates[i] && candidates[i].Id() in IdsOf(taken);
    assert forall k :: 0 <= k < |claimed| ==> claimed[k].Id() == taken[k].Id() == candidates[k].Id();
  }

  lemma {:induction false} NotReleased(claim: Table, trim: Table, claimed: seq<Row>, n: nat, i: nat)
    requires i < n <= |claimed| && claimed[i].Id() in claim
    requires forall j, k :: 0 <= j < k < |claimed| ==> claimed[j].Id() != claimed[k].Id()
    requires trim == Change(claim, Released(Pending, "BATCH_DEFERRED", 0), IdsOf(claimed[n..]))
    ensures claimed[i].Id() in trim && trim[claimed[i].Id()] == claim[claimed[i].Id()]
  {
    forall k | 0 <= k < |claimed[n..]| ensures claimed[n..][k].Id() != claimed[i].Id() {
      assert claimed[n..][k] == claimed[n + k];
    }
  }

  lemma {:induction false} GivesUp(before: Table, claim: Table, chain: string, claimed: seq<Row>, scope: Scope, owner: string, now: int,
                                   sendAt: int, max: nat, limits: Limits)
    requires ClaimSpec(before, claim, claimed, scope, owner, now, max)
    requires claimed == [] || !Fits(claimed[0], [], limits) || now + LEASE_MILLIS <= sendAt
    ensures NothingToSend(before, chain, scope, owner, now, sendAt, max, limits)
  {
  }

  lemma {:induction false} OwnReceipts(t: Table)
    ensures SameReceipts(t, t)
  {
  }

  lemma {:induction false} SendingLongest(before: Table, claim: Table, claimed: seq<Row>, held: seq<Row>, n: nat, scope: Scope, owner: string,
                                          now: int, max: nat, limits: Limits, request: Request)
    requires ClaimSpec(before, claim, claimed, scope, owner, now, max) && 0 < n <= |claimed| && |held| == n
    requires Tuples(held) == Tuples(claimed[..n]) && request.events == EventsOf(held)
    requires forall i :: 0 <= i < n ==> Fits(claimed[i], EventsOf(claimed[..i]), limits)
    requires n < |claimed| ==> !Fits(claimed[n], EventsOf(claimed[..n]), limits)
    ensures SendsLongest(before, scope, owner, now, max, limits, request)
  {
    hide ClaimSpec, Fits;
    forall i | 0 <= i < n ensures request.events[i].eventId == claimed[i].Id() {
      assert held[i].tuple == Tuples(held)[i] == Tuples(claimed[..n])[i] == claimed[i].tuple;
    }
    assert LongestFit(claimed, request, limits);
  }

  /**
   One exchange: prepare, send, then acknowledge or release. Whatever the server answers, no
   claim is left and the protocol invariant holds; what was sent, if anything, was right; its
   rows become synced exactly when the exchange delivers them, and no other row does.
   */
  method SendBatch(store: Store, scope: Scope, owner: string, now: int, sendAt: int, requestId: string, limits: Limits, world: World)
      returns (sent: Option<Request>, acknowledged: bool, ghost trace: Trace, ghost back: Table)
    requires store.Valid() && store.live.None? && Everything(store.rows, store.ledger, store.legacy)
    modifies store
    ensures store.Valid() && store.live.None?
    ensures store.ledger == old(store.ledger) && store.legacy == old(store.legacy)
    ensures var max := Outbox.Min(BATCH, old(store.backfill.batchLimit));
            && (sent.None? ==> NothingToSend(old(store.rows), store.chain, scope, owner, now, sendAt, max, limits))
            && (sent.Some? ==> SendsLongest(old(store.rows), scope, owner, now, max, limits, sent.value))
    ensures sent.Some? ==> RightRequest(old(store.rows), store.ledger, sent.value)
    ensures sent.Some? ==> Carries(old(store.rows), store.chain, scope, limits, sent.value)
    ensures acknowledged <==> sent.Some? && Delivers(old(store.rows), sent.value, world)
    ensures acknowledged ==> !trace.recovered && SyncedWith(old(store.rows), store.rows, EventIds(sent.value.events))
    ensures sent.Some? && !acknowledged ==> Returned(old(store.rows), back, sent.value, world, sendAt)
    ensures sent.Some? && !acknowledged ==>
              AfterBack(back, old(store.backfill), world.answer(sent.value), |sent.value.events|, store.rows, store.backfill.batchLimit)
    ensures acknowledged ==> ReceiptsFrom(old(store.rows), store.rows, world.answer(sent.value).response.acknowledgements)
    ensures !acknowledged ==> NoNewReceipt(old(store.rows), store.rows)
    ensures !acknowledged ==> Stretch(old(store.rows), trace, store.rows)
    ensures trace.recovered <==>
              && sent.Some?
              && RecoversAfter(world.answer(sent.value))
              && old(store.backfill.recoveryAttempts) < 1
              && old(Recoverable(store.rows, store.ledger, store.legacy, store.chain, scope, world.prefix))
    ensures Undisturbed(old(store.rows), old(store.saved), old(store.backfill.destinationId), store)
    ensures old(Backfilled(store)) ==> Backfilled(store)
    ensures old(NoOrphans(store.rows, store.live)) ==> NoOrphans(store.rows, store.live)
  {
    hide NoOrphans, NoNewReceipt, ReceiptsFrom, JournalShape, RowsMatch, PrefixSynced, LegacyShape, SavedPrefixes, SavedFor, Everything, SameSynced, Preserved, GoodReply,
         RightRequest, ClaimHeld, Carries, KeepsOthers, Reached, Stretch, SyncedKept, SyncedWith, SameReceipts, ReceiptsAgree,
         HoldsNothing, NothingToSend, SendsLongest, AllPagesPass, RowsReady, Clash, RowsWentBack, AfterBack, Returned, NoneNewlyStops;
    ghost var before := store.rows;
    OthersSame(store.saved, store.backfill.destinationId);
    var held, request := PrepareBatch(store, scope, owner, now, sendAt, requestId, limits);
    KeptAcross(before, store.rows, store.ledger, store.legacy, store.backfill, store.backfill);
    ghost var sending := store.rows;
    sent, acknowledged, trace, back := request, false, Trace(false, sending), sending;
    QuietReceipts(before, sending);
    Unrecovered(before, sending);
    if request.None? { return; }
    assert request.value.scope == scope && scope.chainId == store.chain by { CarriesScope(before, store.chain, scope, limits, request.value); }
    if world.answer(request.value).Replied? {
      SameReceiptsAgree(before, sending, request.value.events, world.answer(request.value).response.acknowledgements);
    }
    StillHeld(sending, store.ledger, store.live.value, owner, held);
    acknowledged, trace, back := SettleReply(store, scope, held, owner, sendAt, request.value, world);
    if !acknowledged {
      SameAll(before, sending);
      ReturnedBatch(before, sending, back, held, request.value, world, sendAt);
    }
    PreservedTwice(before, sending, store.rows);
    if acknowledged {
      LaterReceipts(before, sending, store.rows, world.answer(request.value).response.acknowledgements);
      SyncedWithAfter(before, sending, store.rows, EventIds(request.value.events));
    } else {
      NoNewReceiptTwice(before, sending, store.rows);
      StretchFrom(before, sending, trace, store.rows);
    }
  }

  lemma {:induction false} NeverSynced(t: Table, back: Table, ids: set<string>, reply: Reply, now: int, backoff: int)
    requires RowsWentBack(t, back, ids, reply, now, backoff) && forall id :: id in ids && id in t ==> t[id].Status() == Sending
    ensures SameSynced(t, back)
  {
  }

  lemma {:induction false} SameAll(before: Table, after: Table)
    requires SameReceipts(before, after) && Preserved(before, after) && SyncedKept(before, after)
    ensures SameSynced(before, after)
  {
  }

  /** The rows of a failed batch went back by their failure, after the backoff of one more attempt, and no other row was stopped. */
  ghost predicate Returned(before: Table, back: Table, request: Request, world: World, at: int) {
    && SameSynced(before, back) && request.events != [] && request.events[0].eventId in before
    && (forall i :: 0 <= i < |request.events| ==>
          request.events[i].eventId in back
          && ReturnedRow(back[request.events[i].eventId], world.answer(request), at,
                         world.retryDelay(before[request.events[0].eventId].evidence.attemptCount + 1)))
    && forall id :: id in back && id !in EventIds(request.events) && Claims.Stops(back[id]) ==> Claims.Stops(before[id])
  }

  predicate ReturnedRow(r: Row, reply: Reply, at: int, backoff: int) {
    && r.evidence.lastError.Some?
    && ReturnsAs(reply, at, backoff, r.evidence.status, r.evidence.lastError.value, r.evidence.nextAttemptAt)
    && r.evidence.claimOwner.None? && r.evidence.leaseExpiresAt.None?
  }

  lemma {:induction false} ReturnedBatch(before: Table, sending: Table, back: Table, held: seq<Row>, request: Request, world: World, at: int)
    requires SameSynced(before, sending) && held != [] && request.events == EventsOf(held) && NoneNewlyStops(before, sending)
    requires forall i :: 0 <= i < |held| ==> held[i].Id() in sending
    requires forall id :: id in IdsOf(held) && id in sending ==> sending[id].Status() == Sending
    requires held[0].Id() in before && held[0].evidence.attemptCount == before[held[0].Id()].evidence.attemptCount + 1
    requires RowsWentBack(sending, back, IdsOf(held), world.answer(request), at, world.retryDelay(held[0].evidence.attemptCount))
    ensures Returned(before, back, request, world, at)
  {
    hide ReturnsAs;
    NeverSynced(sending, back, IdsOf(held), world.answer(request), at, world.retryDelay(held[0].evidence.attemptCount));
    forall i | 0 <= i < |request.events| ensures request.events[i].eventId == held[i].Id() && held[i].Id() in IdsOf(held) {
    }
    forall id | id in IdsOf(held) ensures id in EventIds(request.events) {
      var i :| 0 <= i < |held| && held[i].Id() == id;
      assert request.events[i].eventId == id;
    }
  }

  lemma {:induction false} CarriesScope(t: Table, chain: string, scope: Scope, limits: Limits, request: Request)
    requires Carries(t, chain, scope, limits, request)
    ensures request.scope == scope && scope.chainId == chain
  {
  }

  datatype AuthState = AuthState(status: string, scope: Option<Scope>)

  /** One run of the worker and what it meets. */
  datatype Run = Run(auth: AuthState, owner: string, now: int, sendAt: int, requestId: string, limits: Limits, world: World)

  /** What drainReady reports: the request it sent, whether it was delivered, and the two places a recovery can happen. */
  datatype Round = Round(sent: Option<Request>, acknowledged: bool, ghost first: Trace, ghost found: Table, ghost second: Trace,
                         ghost back: Table)

  /** What a round may send: the right batch for the rows it found, under an authorized session and an enabled outbox. */
  ghost predicate SendsRight(round: Round, run: Run, chain: string, ledger: seq<Entry>) {
    round.sent.Some? ==>
      && run.auth.scope.Some? && run.auth.status in {"authorized", "session_expired"}
      && RightRequest(round.found, ledger, round.sent.value)
      && Carries(round.found, chain, run.auth.scope.value, run.limits, round.sent.value)
  }

  /** What a round may do to the rows: see Stretch; and a batch is marked synced exactly when it was delivered. */
  ghost predicate MarksRight(before: Table, round: Round, run: Run, after: Table) {
    && Stretch(before, round.first, round.found)
    && (round.acknowledged <==> round.sent.Some? && Delivers(round.found, round.sent.value, run.world))
    && (round.acknowledged ==> !round.second.recovered && SyncedWith(round.found, after, EventIds(round.sent.value.events)))
    && (!round.acknowledged ==> Stretch(round.found, round.second, after))
  }

  /** What a round may stop: the rows of a batch that failed go back by their failure, and nothing else happens unless the failure asks for it. */
  ghost predicate ReturnsRight(round: Round, run: Run, backfill: Backfill, after: Table, limit: nat) {
    round.sent.Some? && !round.acknowledged ==>
      && Returned(round.found, round.back, round.sent.value, run.world, run.sendAt)
      && AfterBack(round.back, backfill, run.world.answer(round.sent.value), |round.sent.value.events|, after, limit)
  }

  /** What is sent is the longest part of a claim that fits, and nothing only when nothing could be. */
  ghost predicate SendsMost(round: Round, run: Run, backfill: Backfill, chain: string) {
    var max := Outbox.Min(BATCH, backfill.batchLimit);
    && (round.sent.Some? ==>
          && run.auth.scope.Some?
          && SendsLongest(round.found, run.auth.scope.value, run.owner, run.now, max, run.limits, round.sent.value))
    && (round.sent.None? && MaySend(backfill, run) ==>
          NothingToSend(round.found, chain, run.auth.scope.value, run.owner, run.now, run.sendAt, max, run.limits))
  }

  /** The first outstanding row waits for a recovery of the chain. */
  ghost predicate HeadBlocked(t: Table) {
    exists first: seq<Row> :: IsOutstanding(t, first, 1) && first != [] && Blocks(first[0])
  }

  predicate Blocks(r: Row) {
    r.Status() == NeedsRecovery && r.evidence.lastError.Some? && r.evidence.lastError.value in CHAIN_CODES
  }

  /** When a round starts with a recovery: it was asked for, and there is a scope and something to recover. */
  ghost predicate AsksRecovery(t: Table, backfill: Backfill, run: Run) {
    && backfill.enabled && backfill.recoveryRequested && run.auth.scope.Some?
    && (run.auth.status == "needs_recovery" || (MaySend(backfill, run) && HeadBlocked(t)))
  }

  /** When a round ends with one: the batch was refused for the chain, for the first time since the last delivery. */
  ghost predicate RecoversAgain(round: Round, run: Run, backfill: Backfill, chain: string, ledger: seq<Entry>, legacy: seq<Order>) {
    && round.sent.Some?
    && RecoversAfter(run.world.answer(round.sent.value))
    && backfill.recoveryAttempts < 1
    && run.auth.scope.Some?
    && Recoverable(round.found, ledger, legacy, chain, run.auth.scope.value, run.world.prefix)
  }

  /** Both recoveries of a round, exactly. */
  ghost predicate RecoversRight(before: Table, backfill: Backfill, round: Round, run: Run, chain: string, ledger: seq<Entry>, legacy: seq<Order>) {
    && (round.first.recovered <==>
          && AsksRecovery(before, backfill, run)
          && run.auth.scope.value.chainId == chain
          && Recoverable(before, ledger, legacy, chain, run.auth.scope.value, run.world.prefix))
    && (round.second.recovered <==> RecoversAgain(round, run, backfill, chain, ledger, legacy))
  }

  lemma {:induction false} HeadBlockedIs(t: Table, first: seq<Row>)
    requires IsOutstanding(t, first, 1)
    ensures HeadBlocked(t) <==> first != [] && Blocks(first[0])
  {
    hide IsOutstanding, Blocks;
    if HeadBlocked(t) {
      var other: seq<Row> :| IsOutstanding(t, other, 1) && other != [] && Blocks(other[0]);
      OutstandingIsUnique(t, first, other, 1);
    }
  }

  /** Whatever happened in the round, a row synced afterwards was synced before or was delivered by it. */
  lemma {:induction false} OnlyDeliveriesSync(before: Table, round: Round, run: Run, after: Table, id: string)
    requires MarksRight(before, round, run, after) && SyncedId(after, id)
    ensures SyncedId(before, id) || (round.sent.Some? && Delivers(round.found, round.sent.value, run.world)
                                     && id in EventIds(round.sent.value.events))
  {
    hide Delivers;
    if !(round.acknowledged && id in EventIds(round.sent.value.events)) {
      if !round.acknowledged { StretchSyncs(round.found, round.second, after, id); }
      assert SyncedId(round.found, id);
      StretchSyncs(before, round.first, round.found, id);
    }
  }

  lemma {:induction false} StretchSyncs(before: Table, trace: Trace, after: Table, id: string)
    requires Stretch(before, trace, after) && SyncedId(after, id)
    ensures SyncedId(before, id)
  {
  }

  lemma {:induction false} StretchKeeps(before: Table, trace: Trace, after: Table, id: string)
    requires Stretch(before, trace, after) && !trace.recovered && SyncedId(before, id)
    ensures SyncedId(after, id)
  {
  }

  /** Without a recovery no row stops being synced. */
  lemma {:induction false} OnlyRecoveryUnsyncs(before: Table, round: Round, run: Run, after: Table, id: string)
    requires MarksRight(before, round, run, after) && SyncedId(before, id)
    requires !round.first.recovered && !round.second.recovered
    ensures SyncedId(after, id)
  {
    hide Delivers;
    StretchKeeps(before, round.first, round.found, id);
    if !round.acknowledged { StretchKeeps(round.found, round.second, after, id); }
  }

  /** drainReady. A requested recovery comes first; without an authorized session nothing is sent. */
  method DrainReady(store: Store, run: Run) returns (round: Round)
    requires store.Valid() && store.live.None? && Everything(store.rows, store.ledger, store.legacy)
    modifies store
    ensures store.Valid() && store.live.None?
    ensures store.ledger == old(store.ledger) && store.legacy == old(store.legacy)
    ensures SendsRight(round, run, store.chain, store.ledger)
    ensures MarksRight(old(store.rows), round, run, store.rows)
    ensures RecoversRight(old(store.rows), old(store.backfill), round, run, store.chain, store.ledger, store.legacy)
    ensures ReturnsRight(round, run, old(store.backfill), store.rows, store.backfill.batchLimit)
    ensures Preserved(old(store.rows), round.found)
    ensures !old(store.backfill.enabled) ==> round.sent.None? && store.rows == old(store.rows)
    ensures SendsMost(round, run, old(store.backfill), store.chain)
    ensures Undisturbed(old(store.rows), old(store.saved), old(store.backfill.destinationId), store)
    ensures old(Backfilled(store)) ==> Backfilled(store)
    ensures old(NoOrphans(store.rows, store.live)) ==> NoOrphans(store.rows, store.live)
  {
    hide NoOrphans, JournalShape, RowsMatch, PrefixSynced, LegacyShape, SavedPrefixes, SavedFor, Everything, SameSynced, Preserved, GoodReply,
         RightRequest, ClaimHeld, Carries, KeepsOthers, Reached, SyncedAt, Stretch, SyncedKept, SyncedWith, ReceiptsAgree, Delivers,
         AllPagesPass, RowsReady, Clash, NothingToSend, SendsLongest, Requeued, HeadBlocked, Recoverable, Returned, AfterBack;
    ghost var start, kept := store.rows, store.saved;
    SameTable(start);
    OthersSame(kept, store.backfill.destinationId);
    SameIsKept(start, start);
    Unrecovered(start, start);
    ghost var none := Trace(false, start);
    round := Round(None, false, none, start, none, start);
    if !store.backfill.enabled { return; }
    if run.auth.status == "needs_recovery" {
      var requested := store.TakeRecoveryRequest();
      KeptAcross(start, start, store.ledger, store.legacy, old(store.backfill), store.backfill);
      if requested && run.auth.scope.Some? {
        ghost var trace := RequestedRecovery(store, run.auth.scope.value, false, run.world.prefix);
        NothingMore(store.rows);
        round := Round(None, false, trace, store.rows, Trace(false, store.rows), store.rows);
      }
      return;
    }
    if run.auth.status !in {"authorized", "session_expired"} || run.auth.scope.None? { return; }
    var scope := run.auth.scope.value;
    ghost var first := BlockedRecovery(store, scope, run.world.prefix);
    ghost var found, saved, asked := store.rows, store.saved, store.backfill;
    KeptAcross(start, found, store.ledger, store.legacy, store.backfill, store.backfill);
    var sent, acknowledged;
    ghost var second, back;
    sent, acknowledged, second, back := SendBatch(store, scope, run.owner, run.now, run.sendAt, run.requestId, run.limits, run.world);
    round := Round(sent, acknowledged, first, found, second, back);
    SameReturn(old(store.backfill), asked, round, run, store.rows, store.backfill.batchLimit);
    PreservedTwice(start, found, store.rows);
    OthersKeptTwice(kept, saved, store.saved, store.backfill.destinationId);
  }

  lemma {:induction false} NothingMore(t: Table)
    ensures Stretch(t, Trace(false, t), t)
  {
    SameTable(t);
    SameIsKept(t, t);
  }

  /** An enabled outbox under an authorized session may send. */
  predicate MaySend(backfill: Backfill, run: Run) {
    backfill.enabled && run.auth.status in {"authorized", "session_expired"} && run.auth.scope.Some?
  }

  /** A recovery asked for from outside. */
  method RequestedRecovery(store: Store, scope: Scope, includeLegacy: bool, prefix: PrefixAnswer) returns (ghost trace: Trace)
    requires store.Valid() && store.live.None?
    modifies store
    ensures store.Valid() && store.live.None?
    ensures store.ledger == old(store.ledger) && store.legacy == old(store.legacy)
    ensures Stretch(old(store.rows), trace, store.rows)
    ensures SameSettings(old(store.backfill), store.backfill)
    ensures trace.recovered <==>
              scope.chainId == store.chain && old(Recoverable(store.rows, store.ledger, store.legacy, store.chain, scope, prefix))
    ensures Undisturbed(old(store.rows), old(store.saved), old(store.backfill.destinationId), store)
    ensures old(Backfilled(store)) ==> Backfilled(store)
    ensures old(NoOrphans(store.rows, store.live)) ==> NoOrphans(store.rows, store.live)
  {
    hide NoOrphans, JournalShape, RowsMatch, PrefixSynced, LegacyShape, SavedPrefixes, SavedFor, Everything, SameSynced, Preserved, KeepsOthers,
         Reached, SyncedAt, Stretch, SyncedKept, AllPagesPass, RowsReady, Clash, Requeued, Recoverable;
    ghost var start := store.rows;
    var recovered, proven := Recover(store, scope, includeLegacy, prefix);
    trace := Trace(recovered && scope.chainId == store.chain, proven);
    if trace.recovered {
      Recovering(start, proven, store.rows, includeLegacy);
    } else {
      Unrecovered(start, proven);
    }
  }

  /** What the rows are when the destination is chosen: switched, or as they were. */
  function Chosen(t: Table, saved: Saved, active: string, target: string): Table {
    if target == active then t else SwitchAll(t, saved, target)
  }

  /** And what the cursors and counters are. */
  function ChosenState(state: Backfill, target: string): Backfill {
    if target == state.destinationId then state
    else state.(destinationId := target, ledgerCursor := 0, legacyCursor := "", legacyComplete := false,
                recoveryAttempts := 0, recoveryRequested := false)
  }

  const CAPTURES := 10

  /**
   drain: select the destination, capture what is missing in at most ten batches, and send
   once the outbox is complete. It completes exactly when no two records share an id and
   fewer than a thousand are left to capture. `ready` is the outbox after the captures.
   */
  method Drain(store: Store, target: string, run: Run) returns (selected: bool, completed: bool, round: Round, ghost ready: Table)
    requires store.Valid() && store.live.None? && Backfilled(store)
    modifies store
    ensures store.Valid() && store.live.None? && Backfilled(store)
    ensures store.ledger == old(store.ledger) && store.legacy == old(store.legacy)
    ensures selected <==> target == old(store.backfill.destinationId) || forall id :: id in old(store.rows) ==> !Busy(old(store.rows)[id], run.now)
    ensures !selected ==> unchanged(store) && !completed && round.sent.None?
    ensures selected ==> store.backfill.destinationId == target
    ensures selected ==> Captured(Chosen(old(store.rows), old(store.saved), old(store.backfill.destinationId), target), ready, store.chain)
    ensures selected ==> (completed <==> && !Clash(store.ledger, store.legacy)
                                         && Left(store.ledger, store.legacy, ChosenState(old(store.backfill), target)) < CAPTURES * BATCH)
    ensures selected && !completed ==> round.sent.None? && store.rows == ready
    ensures selected && !completed ==>
              || (Clash(store.ledger, store.legacy) && store.backfill.captureError)
              || Left(store.ledger, store.legacy, store.backfill)
                 == Left(store.ledger, store.legacy, ChosenState(old(store.backfill), target)) - CAPTURES * BATCH
    ensures completed ==> Everything(ready, store.ledger, store.legacy) && MarksRight(ready, round, run, store.rows)
    ensures completed ==>
              ReturnsRight(round, run, ChosenState(old(store.backfill), target), store.rows, store.backfill.batchLimit)
    ensures completed ==> RecoversRight(ready, ChosenState(old(store.backfill), target), round, run, store.chain, store.ledger, store.legacy)
    ensures completed ==> SendsMost(round, run, old(store.backfill), store.chain)
    ensures selected ==> SendsRight(round, run, store.chain, store.ledger)
    ensures selected ==> MarksRight(Chosen(old(store.rows), old(store.saved), old(store.backfill.destinationId), target), round, run, store.rows)
    ensures round.sent.Some? ==> Everything(round.found, store.ledger, store.legacy)
    ensures target == old(store.backfill.destinationId) ==> Undisturbed(old(store.rows), old(store.saved), target, store)
    ensures old(NoOrphans(store.rows, store.live)) ==> NoOrphans(store.rows, store.live)
  {
    hide NoOrphans, JournalShape, RowsMatch, PrefixSynced, LegacyShape, SavedPrefixes, SavedFor, Everything, SameSynced, Preserved, RightRequest,
         Carries, KeepsOthers, Reached, Captured, GoodReply, SwitchAll, EvidenceOf, Left, TextBefore, Busy, Stretch, SyncedKept,
         SyncedWith, Delivers, AllPagesPass, Recoverable, HeadBlocked, SendsRight, NothingToSend, SendsLongest, SendsMost, NothingSending, Clash, MarksRight, Returned, AfterBack;
    ghost var none := Trace(false, store.rows);
    round, completed, ready := Round(None, false, none, store.rows, none, store.rows), false, store.rows;
    ghost var at := store.backfill;
    selected := store.SelectDestination(target, run.now);
    SameTable(store.rows);
    if !selected { return; }
    if target != at.destinationId { StartReached(store.rows, store.ledger, store.legacy, store.backfill); }
    ghost var start, kept, state := store.rows, store.saved, store.backfill;
    SameTable(start);
    OthersSame(kept, target);
    CapturedNothing(start, store.chain);
    var batch := 0;
    while batch < CAPTURES && !completed
      invariant store.Valid() && store.live.None? && Backfilled(store) && SameSettings(state, store.backfill)
      invariant store.ledger == old(store.ledger) && store.legacy == old(store.legacy) && store.saved == kept
      invariant Captured(start, store.rows, store.chain) && batch <= CAPTURES
      invariant completed ==> Everything(store.rows, store.ledger, store.legacy)
      invariant completed ==> Left(store.ledger, store.legacy, state) < batch * BATCH
      invariant !completed ==> Left(store.ledger, store.legacy, store.backfill) == Left(store.ledger, store.legacy, state) - batch * BATCH
      invariant old(NoOrphans(store.rows, store.live)) ==> NoOrphans(store.rows, store.live)
      decreases CAPTURES - batch, if completed then 0 else 1
    {
      ghost var before := store.rows;
      var step := store.BackfillBatch();
      if step.None? {
        ghost var reached := store.backfill;
        store.RecordCaptureFailure();
        SameTable(before);
        KeptAcross(before, before, store.ledger, store.legacy, reached, store.backfill);
        CapturedIsPreserved(start, before, store.chain);
        ready := store.rows;
        round := Idle(start, store, run);
        return;
      }
      CapturedTwice(start, before, store.rows, store.chain);
      completed := step.value;
      batch := batch + 1;
    }
    ready := store.rows;
    CapturedIsPreserved(start, ready, store.chain);
    if !completed {
      round := Idle(start, store, run);
      return;
    }
    NoClash(ready, store.chain, store.ledger, store.legacy);
    CapturedIsKept(start, ready, store.chain);
    ghost var settled := store.backfill;
    round := DrainReady(store, run);
    SameRecovery(ready, state, settled, round, run, store.chain, store.ledger, store.legacy);
    SameReturn(state, settled, round, run, store.rows, store.backfill.batchLimit);
    SameMost(at, settled, round, run, store.chain);
    FoundIsComplete(ready, round, store.ledger, store.legacy);
    PreservedTwice(start, ready, store.rows);
    MarksFrom(start, ready, round, run, store.rows);
  }

  lemma {:induction false} SameMost(a: Backfill, b: Backfill, round: Round, run: Run, chain: string)
    requires a.enabled == b.enabled && a.batchLimit == b.batchLimit && SendsMost(round, run, b, chain)
    ensures SendsMost(round, run, a, chain)
  {
    hide SendsLongest, NothingToSend;
  }

  lemma {:induction false} SameReturn(a: Backfill, b: Backfill, round: Round, run: Run, after: Table, limit: nat)
    requires a.recoveryAttempts == b.recoveryAttempts && a.batchLimit == b.batchLimit && ReturnsRight(round, run, b, after, limit)
    ensures ReturnsRight(round, run, a, after, limit)
  {
    hide Returned, MadeSmaller;
  }

  /** The requested recovery, when the first outstanding row waits for one. */
  method BlockedRecovery(store: Store, scope: Scope, prefix: PrefixAnswer) returns (ghost first: Trace)
    requires store.Valid() && store.live.None?
    modifies store
    ensures store.Valid() && store.live.None?
    ensures store.ledger == old(store.ledger) && store.legacy == old(store.legacy)
    ensures SameSettings(old(store.backfill).(recoveryRequested := false), store.backfill)
    ensures Stretch(old(store.rows), first, store.rows)
    ensures first.recovered <==>
              && old(store.backfill.recoveryRequested) && old(HeadBlocked(store.rows)) && scope.chainId == store.chain
              && old(Recoverable(store.rows, store.ledger, store.legacy, store.chain, scope, prefix))
    ensures Undisturbed(old(store.rows), old(store.saved), old(store.backfill.destinationId), store)
    ensures old(Backfilled(store)) ==> Backfilled(store)
    ensures old(NoOrphans(store.rows, store.live)) ==> NoOrphans(store.rows, store.live)
  {
    hide NoOrphans, JournalShape, RowsMatch, PrefixSynced, LegacyShape, SavedPrefixes, SavedFor, Everything, SameSynced, Preserved, KeepsOthers,
         Reached, SyncedAt, Stretch, SyncedKept, Requeued, HeadBlocked, Recoverable, IsOutstanding;
    ghost var start := store.rows;
    SameTable(start);
    OthersSame(store.saved, store.backfill.destinationId);
    SameIsKept(start, start);
    Unrecovered(start, start);
    var requested := store.TakeRecoveryRequest();
    KeptAcross(start, start, store.ledger, store.legacy, old(store.backfill), store.backfill);
    first := Trace(false, start);
    if requested {
      RowsAreKeyed(store.rows, store.chain, store.ledger, store.legacy);
      var blocked := QueryOutstanding(store.rows, 1);
      HeadBlockedIs(store.rows, blocked);
      if blocked != [] && blocked[0].Status() == NeedsRecovery
         && blocked[0].evidence.lastError in [Some("HEAD_MOVED"), Some("MISSING_PREDECESSOR"), Some("DEPENDENCY_MISSING")] {
        first := RequestedRecovery(store, scope, blocked[0].evidence.lastError == Some("DEPENDENCY_MISSING"), prefix);
      }
    }
  }

  /** Captures change neither what a recovery needs to be asked for nor how often one was tried. */
  lemma {:induction false} SameRecovery(t: Table, a: Backfill, b: Backfill, round: Round, run: Run, chain: string, ledger: seq<Entry>, legacy: seq<Order>)
    requires SameSettings(a, b) && RecoversRight(t, b, round, run, chain, ledger, legacy)
    ensures RecoversRight(t, a, round, run, chain, ledger, legacy)
  {
    hide HeadBlocked, Recoverable;
  }

  lemma {:induction false} FoundIsComplete(before: Table, round: Round, ledger: seq<Entry>, legacy: seq<Order>)
    requires Everything(before, ledger, legacy) && Preserved(before, round.found)
    ensures Everything(round.found, ledger, legacy)
  {
    hide Preserved, Everything;
    EverythingStays(before, round.found, ledger, legacy);
  }

  /** A round that only captured. */
  method Idle(ghost start: Table, store: Store, run: Run) returns (round: Round)
    requires Captured(start, store.rows, store.chain)
    ensures round.sent.None? && MarksRight(start, round, run, store.rows) && SendsRight(round, run, store.chain, store.ledger)
  {
    hide SyncedKept, Stretch, Captured;
    ghost var trace := Trace(false, store.rows);
    CapturedIsKept(start, store.rows, store.chain);
    CapturedIsPreserved(start, store.rows, store.chain);
    Unrecovered(start, store.rows);
    NothingMore(store.rows);
    round := Round(None, false, trace, store.rows, trace, store.rows);
  }

  lemma {:induction false} MarksFrom(a: Table, b: Table, round: Round, run: Run, after: Table)
    requires SyncedKept(a, b) && MarksRight(b, round, run, after)
    ensures MarksRight(a, round, run, after)
  {
    hide SyncedKept, Stretch, SyncedWith, Delivers;
    StretchFrom(a, b, round.first, round.found);
  }

  // ----- Away and back -----

  /** One step of life: maybe a sale, a correction or a closure is recorded, then the worker runs. */
  datatype Step = Step(entry: Option<Entry>, run: Run)

  function RecordedBy(steps: seq<Step>): seq<Entry> {
    if steps == [] then []
    else (if steps[0].entry.Some? then [steps[0].entry.value] else []) + RecordedBy(steps[1..])
  }

  /** Some entry to be recorded has the id of a sale older than the journal. */
  ghost predicate SharesId(steps: seq<Step>, legacy: seq<Order>) {
    exists k, m :: 0 <= k < |steps| && steps[k].entry.Some? && 0 <= m < |legacy| && steps[k].entry.value.Id() == legacy[m].id
  }

  predicate RecordsOver(steps: seq<Step>, t: Table) {
    exists k :: 0 <= k < |steps| && steps[k].entry.Some? && steps[k].entry.value.Id() in t
  }

  /**
   The destination is left, the till goes on recording and delivering elsewhere, then it
   comes back: every row that existed has the evidence it was left with, whatever was
   recorded, sent, refused or recovered meanwhile. Only an expired claim comes back pending.
   Rows recorded meanwhile come as new ones, undelivered here. Leaving is refused while a row
   is being sent; recording is refused over an older sale of the same id; nothing else is,
   and coming back never.
   */
  method LeaveAndReturn(store: Store, away: string, leaveAt: int, steps: seq<Step>, returnAt: int) returns (ok: bool)
    requires store.Valid() && store.live.None? && Backfilled(store)
    requires away != store.backfill.destinationId && JournalShape(store.ledger + RecordedBy(steps))
    modifies store
    ensures store.Valid() && store.live.None?
    ensures ok ==> (forall id :: id in old(store.rows) ==> !Busy(old(store.rows)[id], leaveAt)) && !RecordsOver(steps, old(store.rows))
    ensures (forall id :: id in old(store.rows) ==> !Busy(old(store.rows)[id], leaveAt)) && !SharesId(steps, old(store.legacy)) ==> ok
    ensures old(Everything(store.rows, store.ledger, store.legacy)) ==>
              (ok <==> (forall id :: id in old(store.rows) ==> !Busy(old(store.rows)[id], leaveAt)) && !SharesId(steps, old(store.legacy)))
    ensures ok ==> store.ledger == old(store.ledger) + RecordedBy(steps) && store.legacy == old(store.legacy)
    ensures ok ==> store.backfill.destinationId == old(store.backfill.destinationId)
    ensures ok ==> forall id :: id in old(store.rows) ==>
              id in store.rows && store.rows[id] == old(store.rows)[id].(evidence := OutboxStore.Settle(old(store.rows)[id].evidence))
    ensures ok ==> forall id :: id in store.rows && id !in old(store.rows) ==>
              store.rows[id].Status() != Synced && store.rows[id].evidence.receiptId.None?
  {
    hide JournalShape, RowsMatch, PrefixSynced, LegacyShape, SavedPrefixes, SavedFor, Everything, SameSynced, Preserved, RightRequest,
         Carries, KeepsOthers, Reached, SwitchAll, EvidenceOf, TextBefore, Busy, NoOrphans, NothingSending, Captured, Clash, Left,
         SendsRight, MarksRight, RecoversRight, SharesId, RecordsOver, NothingToSend;
    ghost var rows, saved := store.rows, store.saved;
    var home := store.backfill.destinationId;
    if Everything(store.rows, store.ledger, store.legacy) { SharedIsThere(store.rows, store.ledger, store.legacy, steps); }
    ok := store.SelectDestination(away, leaveAt);
    if !ok { return; }
    StartReached(store.rows, store.ledger, store.legacy, store.backfill);
    SendsNothing(store.rows);
    SwitchedKeys(rows, saved, away);
    NoneRecorded(steps, rows);
    ghost var left, kept := store.rows, store.saved;
    SameTable(left);
    OthersSame(kept, away);
    assert steps[0..] == steps;
    for i := 0 to |steps|
      invariant store.Valid() && store.live.None? && Backfilled(store)
      invariant JournalShape(store.ledger + RecordedBy(steps[i..]))
      invariant store.ledger + RecordedBy(steps[i..]) == old(store.ledger) + RecordedBy(steps) && store.legacy == old(store.legacy)
      invariant Undisturbed(left, kept, away, store) && NoOrphans(store.rows, store.live)
      invariant left.Keys <= store.rows.Keys && !RecordsOver(steps[..i], rows)
    {
      ghost var before, others := store.rows, store.saved;
      RecordsNext(steps, i, rows);
      if steps[i].entry.Some? {
        var e := steps[i].entry.value;
        NextEntry(store.ledger, steps, i);
        if e.Id() in store.rows { SharesWith(store.rows, store.chain, store.ledger, store.legacy, steps, i); }
        ghost var shorter := store.ledger;
        ok := store.Record(e);
        if !ok { return; }
        PreservedTwice(left, before, store.rows);
        ReachedByMore(before, store.rows, shorter, e, store.legacy, store.backfill);
      } else {
        assert RecordedBy(steps[i..]) == RecordedBy(steps[i + 1..]) by { assert steps[i..][1..] == steps[i + 1..]; }
      }
      ghost var recorded := store.rows;
      var selected, completed, round, ready := Drain(store, away, steps[i].run);
      PreservedTwice(left, recorded, store.rows);
      KeysKept(left, store.rows);
      OthersKeptTwice(kept, others, store.saved, away);
    }
    assert steps[..|steps|] == steps;
    ghost var later, savedLater := store.rows, store.saved;
    SendsNothing(later);
    NothingBusy(later, returnAt);
    ok := store.SelectDestination(home, returnAt);
    BackHome(rows, saved, home, away, left, kept, later, savedLater);
    SwitchedKeys(later, savedLater, home);
    forall id | id in later && id !in rows
      ensures SwitchAll(later, savedLater, home)[id].Status() != Synced && SwitchAll(later, savedLater, home)[id].evidence.receiptId.None?
    {
      NewAtHome(rows, saved, home, away, kept, later, savedLater, id);
    }
  }

  lemma {:induction false} NothingBusy(t: Table, now: int)
    requires NothingSending(t)
    ensures forall id :: id in t ==> !Busy(t[id], now)
  {
  }

  lemma {:induction false} NoneRecorded(steps: seq<Step>, t: Table)
    ensures !RecordsOver(steps[..0], t)
  {
  }

  lemma {:induction false} RecordsNext(steps: seq<Step>, i: nat, t: Table)
    requires i < |steps|
    ensures RecordsOver(steps[..i + 1], t) <==> RecordsOver(steps[..i], t) || (steps[i].entry.Some? && steps[i].entry.value.Id() in t)
    ensures steps[i].entry.Some? && steps[i].entry.value.Id() in t ==> RecordsOver(steps, t)
  {
    assert steps[..i + 1] == steps[..i] + [steps[i]];
    if RecordsOver(steps[..i], t) {
      var k :| 0 <= k < i && steps[..i][k].entry.Some? && steps[..i][k].entry.value.Id() in t;
      assert steps[..i + 1][k] == steps[..i][k];
    }
    if steps[i].entry.Some? && steps[i].entry.value.Id() in t { assert steps[..i + 1][i] == steps[i]; }
  }

  /** A complete outbox has a row for every older sale. */
  lemma {:induction false} SharedIsThere(t: Table, ledger: seq<Entry>, legacy: seq<Order>, steps: seq<Step>)
    requires Everything(t, ledger, legacy)
    ensures SharesId(steps, legacy) ==> RecordsOver(steps, t)
  {
    if SharesId(steps, legacy) {
      var k, m :| 0 <= k < |steps| && steps[k].entry.Some? && 0 <= m < |legacy| && steps[k].entry.value.Id() == legacy[m].id;
      assert HasLegacy(t, legacy[m]);
    }
  }

  /** An entry that is refused meets the row of an older sale: entries have ids of their own. */
  lemma {:induction false} SharesWith(t: Table, chain: string, ledger: seq<Entry>, legacy: seq<Order>, steps: seq<Step>, i: nat)
    requires RowsMatch(t, chain, ledger, legacy) && i < |steps| && steps[i].entry.Some?
    requires JournalShape(ledger + [steps[i].entry.value]) && steps[i].entry.value.Id() in t
    ensures SharesId(steps, legacy)
  {
    var e := steps[i].entry.value;
    forall n | 0 <= n < |ledger| ensures ledger[n].Id() != e.Id() {
      assert (ledger + [e])[n] == ledger[n] && (ledger + [e])[|ledger|] == e;
    }
    assert t[e.Id()].tuple.payload.LegacyOrder?;
    var m :| 0 <= m < |legacy| && legacy[m] == t[e.Id()].tuple.payload.order;
  }

  lemma {:induction false} NextEntry(ledger: seq<Entry>, steps: seq<Step>, i: nat)
    requires i < |steps| && steps[i].entry.Some? && JournalShape(ledger + RecordedBy(steps[i..]))
    ensures JournalShape(ledger + [steps[i].entry.value])
    ensures ledger + RecordedBy(steps[i..]) == ledger + [steps[i].entry.value] + RecordedBy(steps[i + 1..])
  {
    assert steps[i..][1..] == steps[i + 1..];
    var all, n := ledger + RecordedBy(steps[i..]), |ledger| + 1;
    assert all[..n] == ledger + [steps[i].entry.value];
    ShapePrefix(all, n);
  }

  lemma {:induction false} ShapePrefix(ledger: seq<Entry>, m: nat)
    requires JournalShape(ledger) && m <= |ledger|
    ensures JournalShape(ledger[..m])
  {
    forall n | 0 <= n < m ensures ledger[..m][..n] == ledger[..n] {
    }
  }

  lemma {:induction false} ReachedByMore(before: Table, after: Table, ledger: seq<Entry>, e: Entry, legacy: seq<Order>, state: Backfill)
    requires Preserved(before, after) && Reached(before, ledger, legacy, state)
    ensures Reached(after, ledger + [e], legacy, state)
  {
    hide TextBefore;
    assert forall x: Entry :: HasEntry(before, x) ==> HasEntry(after, x);
    assert forall o: Order :: HasLegacy(before, o) ==> HasLegacy(after, o);
  }

  lemma {:induction false} BackHome(rows: Table, saved: Saved, home: string, away: string, left: Table, kept: Saved,
                                    later: Table, savedLater: Saved)
    requires home != away && left == SwitchAll(rows, saved, away) && kept == saved + EvidenceOf(rows, rows.Keys, home)
    requires Preserved(left, later) && KeepsOthers(kept, savedLater, away)
    ensures forall id :: id in rows ==>
              id in SwitchAll(later, savedLater, home) && SwitchAll(later, savedLater, home)[id] == rows[id].(evidence := OutboxStore.Settle(rows[id].evidence))
  {
    hide KeepsOthers, SavedFor, EvidenceOf, Preserved;
    forall id | id in rows
      ensures id in SwitchAll(later, savedLater, home) && SwitchAll(later, savedLater, home)[id] == rows[id].(evidence := OutboxStore.Settle(rows[id].evidence))
    {
      KeptTuple(left, later, id);
      assert EvidenceAt(savedLater, home, id) == EvidenceAt(kept, home, id) by { KeptEvidence(kept, savedLater, away, home, id); }
      SwitchRoundTrip(rows, saved, home, away, later, savedLater, id);
    }
  }

  lemma {:induction false} SwitchedKeys(t: Table, saved: Saved, target: string)
    ensures SwitchAll(t, saved, target).Keys == t.Keys
  {
  }

  lemma {:induction false} KeptTuple(before: Table, after: Table, id: string)
    requires Preserved(before, after) && id in before
    ensures id in after && after[id].tuple == before[id].tuple
  {
  }

  lemma {:induction false} KeptEvidence(before: Saved, after: Saved, active: string, d: string, id: string)
    requires KeepsOthers(before, after, active) && d != active
    ensures EvidenceAt(after, d, id) == EvidenceAt(before, d, id)
  {
  }

  /** A row that did not exist comes as a new one. */
  lemma {:induction false} NewAtHome(rows: Table, saved: Saved, home: string, away: string, kept: Saved, later: Table, savedLater: Saved, id: string)
    requires home != away && kept == saved + EvidenceOf(rows, rows.Keys, home) && SavedFor(saved, rows)
    requires KeepsOthers(kept, savedLater, away) && id in later && id !in rows
    ensures var row := SwitchAll(later, savedLater, home)[id]; row.Status() != Synced && row.evidence.receiptId.None?
  {
    KeptEvidence(kept, savedLater, away, home, id);
    assert (home, id) !in saved;
  }

  lemma {:induction false} SameSyncedChain(a: Table, b: Table, c: Table, d: Table, e: Table)
    requires SameSynced(a, b) && SameSynced(b, c) && SameSynced(c, d) && SameSynced(d, e)
    ensures SameSynced(a, e)
  {
  }

  /** A right request for the table at sending time is right for the one the round started from. */
  lemma {:induction false} RightEarlier(before: Table, after: Table, ledger: seq<Entry>, request: Request)
    requires SameSynced(before, after) && RightRequest(after, ledger, request)
    ensures RightRequest(before, ledger, request)
  {
    if request.expectedHead.Some? {
      var k :| RightBlock(after, ledger, request, k);
      SyncedSame(before, after, ledger);
      assert RightBlock(before, ledger, request, k);
    }
  }

  /** An acknowledgement marks the rows of its events and no other. */
  lemma {:induction false} AckSyncs(before: Table, after: Table, held: seq<Row>, request: Request, response: Response, now: int)
    requires request.events == EventsOf(held) && before.Keys == after.Keys
    requires forall id :: id in after ==>
      if id in IdsOf(held) then ConfirmedFrom(before[id], after[id], response.acknowledgements, now) else after[id] == before[id]
    ensures SyncedWith(before, after, EventIds(request.events))
  {
    var ids := EventIds(request.events);
    forall id ensures id in ids <==> id in IdsOf(held) {
      if id in IdsOf(held) {
        var i :| 0 <= i < |held| && held[i].Id() == id;
        assert request.events[i].eventId == id;
      }
    }
  }

  // ----- Against the envelope check of the server -----

  function WireEvents(t: Table, events: seq<Event>): seq<Envelope.WireEvent>
    requires forall i :: 0 <= i < |events| ==> events[i].eventId in t
  {
    seq(|events|, i requires 0 <= i < |events| => Envelope.Wire(t[events[i].eventId].tuple, events[i].transportFingerprint))
  }

  function EndpointOf(request: Request): Envelope.Endpoint {
    if request.expectedHead.Some? then Envelope.Ingest else Envelope.LegacySales
  }

  predicate SealedLedger(ledger: seq<Entry>) {
    |ledger| <= MAX_SAFE_INTEGER
    && forall n :: 0 <= n < |ledger| ==> ledger[n].Sealed() && ledger[n].content.schemaVersion == LEDGER_SCHEMA_VERSION
  }

  predicate NamesTerminal(e: Envelope.WireEvent) { !Blank(e.eventId) && !Blank(e.sourceTerminalId) }

  /**
   The server's envelope check accepts what a round sends exactly when every event names a
   terminal. A sale older than the journal may name none: its batch is refused for good.
   */
  lemma {:induction false} SentRequestPassesExactly(t: Table, chain: string, ledger: seq<Entry>, legacy: seq<Order>, scope: Scope,
                                                    limits: Limits, request: Request)
    requires JournalShape(ledger) && SealedLedger(ledger) && RowsMatch(t, chain, ledger, legacy)
    requires RightRequest(t, ledger, request) && Carries(t, chain, scope, limits, request)
    requires limits.maxPayload == Envelope.MAX_PAYLOAD
    ensures var events := WireEvents(t, request.events);
            Envelope.Accepts(EndpointOf(request), scope, request.expectedHead, events, limits.payloadSize)
            <==> forall i :: 0 <= i < |events| ==> NamesTerminal(events[i])
  {
    hide JournalShape, RowsMatch, RightRequest, SealedLedger, Envelope.BodyFault, Blank;
    var events, endpoint := WireEvents(t, request.events), EndpointOf(request);
    forall i | 0 <= i < |events|
      ensures Envelope.EventFits(endpoint, scope, events[i], limits.payloadSize) <==> NamesTerminal(events[i])
    {
      EventPassesExactly(t, chain, ledger, legacy, scope, limits, request, i);
    }
    forall i | 0 <= i < |events| ensures ReadFrom(t, request.events[i]) {
      assert CarriesRow(t, request.events[i], scope, request.expectedHead.Some?, limits);
      RowIsKeyed(t, chain, ledger, legacy, request.events[i].eventId);
    }
    HeadAndOrder(t, ledger, request);
  }

  lemma {:induction false} RowIsKeyed(t: Table, chain: string, ledger: seq<Entry>, legacy: seq<Order>, id: string)
    requires RowsMatch(t, chain, ledger, legacy) && id in t
    ensures t[id].Id() == id
  {
  }

  lemma {:induction false} EventPassesExactly(t: Table, chain: string, ledger: seq<Entry>, legacy: seq<Order>, scope: Scope,
                                              limits: Limits, request: Request, i: nat)
    requires JournalShape(ledger) && SealedLedger(ledger) && RowsMatch(t, chain, ledger, legacy)
    requires Carries(t, chain, scope, limits, request) && i < |request.events| && limits.maxPayload == Envelope.MAX_PAYLOAD
    ensures Envelope.EventFits(EndpointOf(request), scope, WireEvents(t, request.events)[i], limits.payloadSize)
            <==> NamesTerminal(WireEvents(t, request.events)[i])
  {
    hide Blank;
    var e := request.events[i];
    assert CarriesRow(t, e, scope, request.expectedHead.Some?, limits);
    var row := t[e.eventId];
    assert row.Id() == e.eventId && row.tuple.chainId == chain;
    if row.tuple.payload.LedgerEvent? {
      var k := IndexOf(t, chain, ledger, legacy, row);
      assert ledger[k].Sealed();
    }
  }

  predicate ReadFrom(t: Table, event: Event) {
    && event.eventId in t
    && t[event.eventId].Id() == event.eventId
    && t[event.eventId].tuple.Sequence() == event.sequence
  }

  lemma {:induction false} HeadAndOrder(t: Table, ledger: seq<Entry>, request: Request)
    requires JournalShape(ledger) && SealedLedger(ledger) && RightRequest(t, ledger, request)
    requires forall i, k :: 0 <= i < k < |request.events| ==> request.events[i].eventId != request.events[k].eventId
    requires forall i :: 0 <= i < |request.events| ==> request.events[i].eventId in t
    requires forall i :: 0 <= i < |request.events| ==> ReadFrom(t, request.events[i])
    ensures Envelope.HeadFits(EndpointOf(request), request.expectedHead)
    ensures Envelope.InOrder(EndpointOf(request), WireEvents(t, request.events))
  {
    hide SyncedAt;
    if request.expectedHead.Some? {
      var k: nat :| RightBlock(t, ledger, request, k);
      forall i | 0 <= i < |request.events| ensures WireEvents(t, request.events)[i].sequence == Some(k + i + 1) {
      }
    }
  }
}
