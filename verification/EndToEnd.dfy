/**
 The delivery engine against the server it is written for (native/android/SyncEngine.kt:43-104,
 server/src/ledger/routes.ts:112-176, errors.ts:46-69): what one exchange does to the rows and
 to the server's chain is one of the rounds whose convergence is known.
 */
module EndToEnd {
  import opened Ledger
  import opened OutboxRows
  import opened Outbox
  import opened Acks
  import opened OutboxStore
  import opened Recovery
  import opened SyncEngine
  import opened ServerStore
  import opened Convergence

  /** The server: its chain, how it judges, and the receipt it keeps for each event. */
  datatype Host = Host(chain: seq<Entry>, server: Server, receipts: string -> (string, string))

  /** The payloads of a ledger request. */
  function BatchOf(ledger: seq<Entry>, request: Request): Option<seq<Entry>> {
    match request.expectedHead
    case None => None
    case Some(head) =>
      if 0 <= head.sequence && head.sequence + |request.events| <= |ledger|
      then Some(ledger[head.sequence..head.sequence + |request.events|]) else None
  }

  function AckOf(event: Event, status: AckStatus, receipts: string -> (string, string)): Ack {
    Ack(event.eventId, status, receipts(event.eventId).0, receipts(event.eventId).1, event.sequence, event.hash, event.transportFingerprint)
  }

  function AcksOf(events: seq<Event>, statuses: seq<AckStatus>, receipts: string -> (string, string)): (acks: seq<Ack>)
    requires |statuses| == |events|
    ensures |acks| == |events|
  {
    seq(|events|, i requires 0 <= i < |events| => AckOf(events[i], statuses[i], receipts))
  }

  function CodeOf(refusal: Refusal): string {
    match refusal
    case EVENT_CONTENT_CONFLICT => "EVENT_CONTENT_CONFLICT"
    case SEQUENCE_FORK => "SEQUENCE_FORK"
    case MISSING_PREDECESSOR => "MISSING_PREDECESSOR"
    case HEAD_MOVED => "HEAD_MOVED"
    case DUPLICATE_ORDER_OTHER_CHAIN => "DUPLICATE_ORDER_OTHER_CHAIN"
    case DEPENDENCY_MISSING => "DEPENDENCY_MISSING"
    case SCOPE_DENIED => "SCOPE_DENIED"
    case BUSINESS_INCONSISTENCY => "BUSINESS_INCONSISTENCY"
  }

  function StatusOf(refusal: Refusal): int {
    if refusal.SCOPE_DENIED? then 403 else if refusal.BUSINESS_INCONSISTENCY? then 422 else 409
  }

  function OutcomeOf(ledger: seq<Entry>, host: Host, request: Request): Option<Outcome> {
    match BatchOf(ledger, request)
    case None => None
    case Some(entries) =>
      Some(PersistAll(host.chain, request.expectedHead.value, entries, host.server.judge, host.server.sold))
  }

  /** The reply of the ledger endpoint; requests of older sales go to another one. */
  function ReplyOf(ledger: seq<Entry>, host: Host, legacy: Request -> Reply, request: Request): Reply {
    match OutcomeOf(ledger, host, request)
    case None => legacy(request)
    case Some(Refused(code)) => HttpFailure(StatusOf(code), CodeOf(code), None)
    case Some(Committed(chain, statuses)) =>
      if |statuses| != |request.events| then OtherFailure
      else Replied(Response(1, request.requestId, request.scope, true, ServerHead(|chain|, Head(chain)),
                            AcksOf(request.events, statuses, host.receipts)))
  }

  /** What the server holds after a request. */
  function ChainAfter(ledger: seq<Entry>, host: Host, request: Request): seq<Entry> {
    match OutcomeOf(ledger, host, request)
    case Some(Committed(chain, _)) => chain
    case _ => host.chain
  }

  /** One turn of the worker. */
  datatype Turn = Turn(scope: Scope, owner: string, now: int, sendAt: int, requestId: string, limits: Limits, prefix: PrefixAnswer,
                       wellFormed: Ack -> bool, retryDelay: nat -> int, legacy: Request -> Reply)

  function WorldOf(ledger: seq<Entry>, host: Host, turn: Turn): World {
    World((request: Request) => ReplyOf(ledger, host, turn.legacy, request), turn.prefix, turn.wellFormed, turn.retryDelay)
  }

  // ----- What the two ends know of each other -----

  /** The server's acknowledgements pass the patterns of the client. */
  ghost predicate Readable(turn: Turn, host: Host) {
    forall event, status :: status in {Accepted, AlreadyPresent} ==> turn.wellFormed(AckOf(event, status, host.receipts))
  }

  ghost predicate FromHost(acks: seq<Ack>, receipts: string -> (string, string)) {
    forall i :: 0 <= i < |acks| ==> acks[i].receiptId == receipts(acks[i].eventId).0 && acks[i].serverReceivedAt == receipts(acks[i].eventId).1
  }

  /** The endpoint of the older sales keeps its receipts too. */
  ghost predicate LegacyHonest(turn: Turn, host: Host) {
    forall request :: turn.legacy(request).Replied? ==> FromHost(turn.legacy(request).response.acknowledgements, host.receipts)
  }

  /** Every stored receipt is the server's. */
  ghost predicate Receipted(t: Table, receipts: string -> (string, string)) {
    forall id :: id in t && t[id].evidence.receiptId.Some? ==>
      t[id].evidence.receiptId == Some(receipts(id).0) && t[id].evidence.serverReceivedAt == Some(receipts(id).1)
  }

  /** Older sales come first: nothing of the journal is delivered while one is not. */
  ghost predicate LegacyFirst(t: Table, k: nat) {
    0 < k ==> forall id :: id in t && t[id].tuple.payload.LegacyOrder? ==> t[id].Status() == Synced
  }

  ghost predicate Sound(ledger: seq<Entry>, host: Host) {
    && KeyedLedger(ledger) && |ledger| <= MAX_SAFE_INTEGER
    && SoldHereOnly(ledger, host.server.sold) && JudgesWell(ledger, host.server.judge)
    && host.chain <= ledger
  }

  // ----- The reply to a right batch -----

  predicate AllKnown(outcome: Outcome) {
    outcome.Committed? ==> forall i :: 0 <= i < |outcome.statuses| ==> outcome.statuses[i] in {Accepted, AlreadyPresent}
  }

  lemma {:induction false} TagIsKnown(status: AckStatus, rest: Outcome)
    requires AllKnown(rest) && status in {Accepted, AlreadyPresent}
    ensures AllKnown(Tagged(status, rest))
  {
  }

  lemma {:induction false} StatusesAre(chain: seq<Entry>, expected: ServerHead, events: seq<Entry>, added: bool, judge: Judge, sold: string -> bool)
    ensures AllKnown(Persist(chain, expected, events, added, judge, sold))
    decreases |events|
  {
    hide NewFault, AllKnown, Tagged;
    if events == [] {
      NothingTagged(chain);
    } else {
      StatusesAre(chain, expected, events[1..], added, judge, sold);
      StatusesAre(chain + [events[0]], expected, events[1..], true, judge, sold);
      TagIsKnown(AlreadyPresent, Persist(chain, expected, events[1..], added, judge, sold));
      TagIsKnown(Accepted, Persist(chain + [events[0]], expected, events[1..], true, judge, sold));
      RefusalIsKnown();
    }
  }

  lemma {:induction false} NothingTagged(chain: seq<Entry>)
    ensures AllKnown(Committed(chain, []))
  {
  }

  lemma {:induction false} RefusalIsKnown()
    ensures forall code :: AllKnown(Refused(code))
  {
  }

  /** The request is the block after the first k entries. */
  ghost predicate RightBatch(ledger: seq<Entry>, request: Request, k: nat) {
    && k + |request.events| <= |ledger| && request.events != []
    && request.expectedHead == Some(ServerHead(k, Head(ledger[..k])))
    && (forall i, j :: 0 <= i < j < |request.events| ==> request.events[i].eventId != request.events[j].eventId)
    && forall i :: 0 <= i < |request.events| ==>
         && request.events[i].eventId == ledger[k + i].Id()
         && request.events[i].sequence == Some(k + i + 1)
         && request.events[i].hash == Some(ledger[k + i].hash)
  }

  lemma {:induction false} OutcomeOfBlock(ledger: seq<Entry>, host: Host, request: Request, k: nat)
    requires Sound(ledger, host) && RightBatch(ledger, request, k)
    ensures var j, h := k + |request.events|, |host.chain|;
            && OutcomeOf(ledger, host, request).Some?
            && var outcome := OutcomeOf(ledger, host, request).value;
               && outcome == PersistAll(host.chain, ServerHead(k, Head(ledger[..k])), ledger[k..j], host.server.judge, host.server.sold)
               && (outcome.Committed? <==> j <= h || k == h)
               && (outcome.Committed? ==> |outcome.statuses| == |request.events| && outcome.chain == ledger[..if j <= h then h else j])
               && (outcome.Refused? ==> outcome.code in {MISSING_PREDECESSOR, HEAD_MOVED})
               && (outcome.Committed? ==> forall i :: 0 <= i < |outcome.statuses| ==> outcome.statuses[i] in {Accepted, AlreadyPresent})
  {
    hide KeyedLedger, SoldHereOnly, JudgesWell, Persist, FirstPass;
    var j := k + |request.events|;
    assert host.chain == ledger[..|host.chain|];
    BatchOutcome(ledger, |host.chain|, k, j, host.server.judge, host.server.sold);
    StatusesAre(host.chain, ServerHead(k, Head(ledger[..k])), ledger[k..j], false, host.server.judge, host.server.sold);
  }

  /** A stored batch is answered by a reply the client accepts, whatever receipts it has already. */
  lemma {:induction false} StoredIsDelivered(t: Table, ledger: seq<Entry>, host: Host, request: Request, k: nat, turn: Turn)
    requires Sound(ledger, host) && RightBatch(ledger, request, k) && Readable(turn, host) && Receipted(t, host.receipts)
    requires OutcomeOf(ledger, host, request).Some? && OutcomeOf(ledger, host, request).value.Committed?
    ensures Delivers(t, request, WorldOf(ledger, host, turn))
    ensures ReplyOf(ledger, host, turn.legacy, request).Replied?
    ensures FromHost(ReplyOf(ledger, host, turn.legacy, request).response.acknowledgements, host.receipts)
  {
    hide KeyedLedger, SoldHereOnly, JudgesWell, PersistAll, Receipted, Readable;
    OutcomeOfBlock(ledger, host, request, k);
    var outcome := OutcomeOf(ledger, host, request).value;
    var response := ReplyOf(ledger, host, turn.legacy, request).response;
    var acks := AcksOf(request.events, outcome.statuses, host.receipts);
    AcksAnswer(ledger, request, k, outcome.chain, response, outcome.statuses, host.receipts);
    AcksAreShaped(request.events, outcome.statuses, host, turn);
    AcksAgree(t, request.events, outcome.statuses, host.receipts);
    assert forall i, j :: 0 <= i < j < |acks| ==> acks[i].eventId == request.events[i].eventId && acks[j].eventId == request.events[j].eventId;
  }

  lemma {:induction false} AcksAnswer(ledger: seq<Entry>, request: Request, k: nat, chain: seq<Entry>, response: Response,
                                      statuses: seq<AckStatus>, receipts: string -> (string, string))
    requires RightBatch(ledger, request, k) && |ledger| <= MAX_SAFE_INTEGER && chain <= ledger && k + |request.events| <= |chain|
    requires |statuses| == |request.events| && response.acknowledgements == AcksOf(request.events, statuses, receipts)
    requires response.serverHead == ServerHead(|chain|, Head(chain))
    ensures forall i :: 0 <= i < |request.events| ==> Acks.Answered(request.events[i], response)
    ensures ValidHead(response.serverHead)
  {
    forall i | 0 <= i < |request.events| ensures Acks.Answered(request.events[i], response) {
      assert Answers(request.events[i], response.acknowledgements[i], response.serverHead);
    }
  }

  lemma {:induction false} AcksAreShaped(events: seq<Event>, statuses: seq<AckStatus>, host: Host, turn: Turn)
    requires |statuses| == |events| && Readable(turn, host)
    requires forall i :: 0 <= i < |statuses| ==> statuses[i] in {Accepted, AlreadyPresent}
    ensures var acks := AcksOf(events, statuses, host.receipts); forall i :: 0 <= i < |acks| ==> AckShape(acks[i], turn.wellFormed)
  {
  }

  lemma {:induction false} AcksAgree(t: Table, events: seq<Event>, statuses: seq<AckStatus>, receipts: string -> (string, string))
    requires |statuses| == |events| && Receipted(t, receipts)
    ensures ReceiptsAgree(t, events, AcksOf(events, statuses, receipts))
    ensures FromHost(AcksOf(events, statuses, receipts), receipts)
  {
  }

  // ----- What an exchange leaves of the rows -----

  lemma {:induction false} StillReceipted(before: Table, after: Table, receipts: string -> (string, string))
    requires NoNewReceipt(before, after) && Receipted(before, receipts)
    ensures Receipted(after, receipts)
  {
  }

  lemma {:induction false} NewlyReceipted(before: Table, after: Table, acks: seq<Ack>, receipts: string -> (string, string))
    requires ReceiptsFrom(before, after, acks) && Receipted(before, receipts) && FromHost(acks, receipts)
    ensures Receipted(after, receipts)
  {
    forall id | id in after && after[id].evidence.receiptId.Some?
      ensures after[id].evidence.receiptId == Some(receipts(id).0) && after[id].evidence.serverReceivedAt == Some(receipts(id).1)
    {
      if !(id in before && SameReceipt(before[id], after[id])) { assert ReceivedFrom(after[id], id, acks); }
    }
  }

  lemma {:induction false} StillDelivered(before: Table, after: Table, ledger: seq<Entry>, legacy: seq<Order>, k: nat)
    requires Everything(before, ledger, legacy) && Preserved(before, after) && SyncedKept(before, after) && DeliveredUpTo(before, ledger, k)
    ensures DeliveredUpTo(after, ledger, k)
  {
    forall n | 0 <= n < |ledger| ensures SyncedAt(after, ledger, n) <==> SyncedAt(before, ledger, n) {
      assert HasEntry(before, ledger[n]);
    }
  }

  /** A complete outbox has every older sale, so none appears unsynced. */
  lemma {:induction false} StillFirst(before: Table, after: Table, chain: string, ledger: seq<Entry>, legacy: seq<Order>, k: nat)
    requires Everything(before, ledger, legacy) && Preserved(before, after) && RowsMatch(after, chain, ledger, legacy) && LegacyFirst(before, k)
    requires forall id :: SyncedId(before, id) ==> SyncedId(after, id)
    ensures LegacyFirst(after, k)
  {
    forall id | 0 < k && id in after && after[id].tuple.payload.LegacyOrder? ensures after[id].Status() == Synced {
      var m :| 0 <= m < |legacy| && legacy[m] == after[id].tuple.payload.order;
      assert HasLegacy(before, legacy[m]);
      assert SyncedId(before, id);
    }
  }

  lemma {:induction false} KeptSynced(before: Table, after: Table)
    ensures SyncedKept(before, after) ==> forall id :: SyncedId(before, id) ==> SyncedId(after, id)
    ensures forall ids :: SyncedWith(before, after, ids) ==> forall id :: SyncedId(before, id) ==> SyncedId(after, id)
  {
  }

  /** What is sent first was not delivered yet. */
  lemma {:induction false} FirstIsUnsynced(t: Table, scope: Scope, owner: string, now: int, max: nat, limits: Limits, request: Request)
    requires SendsLongest(t, scope, owner, now, max, limits, request)
    ensures request.events != [] && !SyncedId(t, request.events[0].eventId)
  {
    hide Refreshed, Blocked, TakeLength, Fits, RowBefore;
    var after: Table, claimed: seq<Row> :| ClaimSpec(t, after, claimed, scope, owner, now, max) && LongestFit(claimed, request, limits);
    var first: seq<Row>, candidates: seq<Row> :| ClaimSteps(t, first, candidates, after, claimed, scope, owner, now, max);
    RefreshKeeps(t, IdsOf(first), now);
    assert claimed[0].Id() == candidates[..|claimed|][0].Id() == candidates[0].Id();
  }

  /** Older sales are only sent while nothing of the journal is delivered. */
  lemma {:induction false} LegacyBatchIsFirst(t: Table, chain: string, scope: Scope, owner: string, now: int, max: nat, limits: Limits,
                                              request: Request, k: nat)
    requires SendsLongest(t, scope, owner, now, max, limits, request) && Carries(t, chain, scope, limits, request)
    requires request.expectedHead.None? && LegacyFirst(t, k)
    ensures k == 0
  {
    hide SendsLongest;
    FirstIsUnsynced(t, scope, owner, now, max, limits, request);
    assert CarriesRow(t, request.events[0], scope, false, limits);
  }

  /** A delivered batch of older sales delivers nothing of the journal. */
  lemma {:induction false} LegacyBatchDelivers(before: Table, after: Table, chain: string, scope: Scope, limits: Limits, ledger: seq<Entry>,
                                               legacy: seq<Order>, request: Request)
    requires Everything(before, ledger, legacy) && Preserved(before, after) && DeliveredUpTo(before, ledger, 0)
    requires Carries(before, chain, scope, limits, request) && request.expectedHead.None?
    requires SyncedWith(before, after, EventIds(request.events))
    ensures DeliveredUpTo(after, ledger, 0)
  {
    forall n | 0 <= n < |ledger| ensures !SyncedAt(after, ledger, n) {
      assert HasEntry(before, ledger[n]) && !SyncedAt(before, ledger, n);
      forall i | 0 <= i < |request.events| ensures request.events[i].eventId != ledger[n].Id() {
        assert CarriesRow(before, request.events[i], scope, false, limits);
      }
    }
  }

  /** What the rows say is delivered is where a ledger batch starts. */
  lemma {:induction false} BatchStartsAt(t: Table, chain: string, ledger: seq<Entry>, scope: Scope, limits: Limits, request: Request, k: nat)
    requires RightRequest(t, ledger, request) && Carries(t, chain, scope, limits, request) && request.expectedHead.Some?
    requires k <= |ledger| && DeliveredUpTo(t, ledger, k)
    ensures RightBlock(t, ledger, request, k) && RightBatch(ledger, request, k) && |request.events| <= BATCH
  {
    hide CarriesRow, SyncedAt;
    var m: nat :| RightBlock(t, ledger, request, m);
    assert m < k ==> SyncedAt(t, ledger, m);
    assert k < m ==> SyncedAt(t, ledger, k);
  }

  // ----- One exchange -----

  function Fixed(cut: nat): nat -> nat { (k: nat) => cut }

  /** What SendBatch promises, of the tables before and after. */
  ghost predicate Exchanged(before: Table, after: Table, chain: string, ledger: seq<Entry>, legacy: seq<Order>, host: Host, turn: Turn,
                            max: nat, sent: Option<Request>, acknowledged: bool, trace: Trace) {
    && Everything(before, ledger, legacy) && Preserved(before, after) && RowsMatch(after, chain, ledger, legacy)
    && JournalShape(ledger)
    && (sent.Some? ==>
          && SendsLongest(before, turn.scope, turn.owner, turn.now, max, turn.limits, sent.value)
          && RightRequest(before, ledger, sent.value) && Carries(before, chain, turn.scope, turn.limits, sent.value))
    && (acknowledged <==> sent.Some? && Delivers(before, sent.value, WorldOf(ledger, host, turn)))
    && (acknowledged ==> && SyncedWith(before, after, EventIds(sent.value.events))
                         && ReceiptsFrom(before, after, ReplyOf(ledger, host, turn.legacy, sent.value).response.acknowledgements))
    && (!acknowledged ==> Stretch(before, trace, after) && NoNewReceipt(before, after))
    && (trace.recovered ==> !acknowledged && sent.Some?)
  }

  /** The rows of both ends after k deliveries. */
  ghost predicate RowsJoined(t: Table, ledger: seq<Entry>, host: Host, k: nat) {
    && Sound(ledger, host) && Receipted(t, host.receipts) && LegacyFirst(t, k)
    && k <= |ledger| && DeliveredUpTo(t, ledger, k)
  }

  /** Nothing was delivered: the rows stand where they stood, or at the start after a recovery. */
  lemma {:induction false} NotDelivered(before: Table, after: Table, chain: string, ledger: seq<Entry>, legacy: seq<Order>, host: Host,
                                        turn: Turn, max: nat, sent: Option<Request>, trace: Trace, k: nat)
    requires Exchanged(before, after, chain, ledger, legacy, host, turn, max, sent, false, trace) && RowsJoined(before, ledger, host, k)
    ensures RowsJoined(after, ledger, host, if trace.recovered then 0 else k)
  {
    hide Sound, Receipted, Everything, Preserved, RowsMatch, JournalShape, SendsLongest, RightRequest, Carries, Delivers, NoNewReceipt,
         SyncedKept, DeliveredUpTo, LegacyFirst, Requeued;
    StillReceipted(before, after, host.receipts);
    if trace.recovered {
      var includeLegacy :| after == Requeued(trace.proven, includeLegacy);
      RecoveryRestarts(trace.proven, ledger, includeLegacy);
      NoneFirst(after);
    } else {
      StillDelivered(before, after, ledger, legacy, k);
      KeptSynced(before, after);
      StillFirst(before, after, chain, ledger, legacy, k);
    }
  }

  lemma {:induction false} NoneFirst(t: Table)
    ensures LegacyFirst(t, 0)
  {
  }

  /** A delivered ledger batch moves the rows to its end. */
  lemma {:induction false} LedgerDelivered(before: Table, after: Table, chain: string, ledger: seq<Entry>, legacy: seq<Order>, host: Host,
                                           turn: Turn, max: nat, request: Request, trace: Trace, k: nat)
    requires Exchanged(before, after, chain, ledger, legacy, host, turn, max, Some(request), true, trace) && RowsJoined(before, ledger, host, k)
    requires RightBlock(before, ledger, request, k)
    requires var reply := ReplyOf(ledger, host, turn.legacy, request); reply.Replied? && FromHost(reply.response.acknowledgements, host.receipts)
    ensures RowsJoined(after, ledger, host, k + |request.events|)
  {
    hide Sound, Receipted, Everything, Preserved, RowsMatch, JournalShape, SendsLongest, RightRequest, Carries, Delivers, ReceiptsFrom,
         SyncedWith, DeliveredUpTo, FromHost, ReplyOf;
    NewlyReceipted(before, after, ReplyOf(ledger, host, turn.legacy, request).response.acknowledgements, host.receipts);
    DeliveryAdvances(before, after, ledger, legacy, request, k);
    KeptSynced(before, after);
    AllFirst(before, ledger, request, k);
    StillFirst(before, after, chain, ledger, legacy, k + |request.events|);
  }

  lemma {:induction false} AllFirst(t: Table, ledger: seq<Entry>, request: Request, k: nat)
    requires RightBlock(t, ledger, request, k)
    ensures forall m :: LegacyFirst(t, m)
  {
  }

  /** A batch of older sales leaves the journal undelivered. */
  lemma {:induction false} LegacyDelivered(before: Table, after: Table, chain: string, ledger: seq<Entry>, legacy: seq<Order>, host: Host,
                                           turn: Turn, max: nat, request: Request, trace: Trace, k: nat)
    requires Exchanged(before, after, chain, ledger, legacy, host, turn, max, Some(request), true, trace) && RowsJoined(before, ledger, host, k)
    requires request.expectedHead.None? && LegacyHonest(turn, host)
    ensures k == 0 && RowsJoined(after, ledger, host, 0)
  {
    hide Sound, Receipted, Everything, Preserved, RowsMatch, JournalShape, SendsLongest, RightRequest, Carries, ReceiptsFrom,
         SyncedWith, DeliveredUpTo, FromHost, GoodReply, ReceiptsAgree, LegacyFirst;
    LegacyBatchIsFirst(before, chain, turn.scope, turn.owner, turn.now, max, turn.limits, request, k);
    assert ReplyOf(ledger, host, turn.legacy, request) == turn.legacy(request);
    NewlyReceipted(before, after, turn.legacy(request).response.acknowledgements, host.receipts);
    LegacyBatchDelivers(before, after, chain, turn.scope, turn.limits, ledger, legacy, request);
    NoneFirst(after);
  }

  /** Where a round ends: at the end of its batch, or where it started when it sent none of the journal. */
  function CutOf(sent: Option<Request>, k: nat): nat {
    if sent.Some? && sent.value.expectedHead.Some? then k + |sent.value.events| else k
  }

  /** How many entries are delivered after it. */
  function DeliveredAfter(sent: Option<Request>, acknowledged: bool, recovered: bool, k: nat): nat {
    if acknowledged then CutOf(sent, k) else if recovered then 0 else k
  }

  /** The server after it. */
  function HostAfter(ledger: seq<Entry>, host: Host, sent: Option<Request>): Host {
    if sent.Some? then host.(chain := ChainAfter(ledger, host, sent.value)) else host
  }

  lemma {:induction false} HostMoves(t: Table, ledger: seq<Entry>, host: Host, m: nat, longer: seq<Entry>)
    requires RowsJoined(t, ledger, host, m) && longer <= ledger
    ensures RowsJoined(t, ledger, host.(chain := longer), m)
  {
    hide KeyedLedger, SoldHereOnly, JudgesWell, Receipted, LegacyFirst, DeliveredUpTo;
  }

  lemma {:induction false} LegacyRound(before: Table, after: Table, chain: string, ledger: seq<Entry>, legacy: seq<Order>, host: Host,
                                       turn: Turn, max: nat, request: Request, acknowledged: bool, trace: Trace, k: nat)
    requires Exchanged(before, after, chain, ledger, legacy, host, turn, max, Some(request), acknowledged, trace)
    requires RowsJoined(before, ledger, host, k) && LegacyHonest(turn, host) && request.expectedHead.None?
    ensures HostAfter(ledger, host, Some(request)) == host && CutOf(Some(request), k) == k == 0
    ensures RowsJoined(after, ledger, host, DeliveredAfter(Some(request), acknowledged, trace.recovered, k))
  {
    hide Sound, Receipted, Everything, Preserved, RowsMatch, JournalShape, SendsLongest, RightRequest, Carries, Delivers, ReceiptsFrom,
         SyncedWith, DeliveredUpTo, LegacyFirst, PersistAll, NoNewReceipt, LegacyHonest, Stretch;
    LegacyBatchIsFirst(before, chain, turn.scope, turn.owner, turn.now, max, turn.limits, request, k);
    if acknowledged {
      LegacyDelivered(before, after, chain, ledger, legacy, host, turn, max, request, trace, k);
    } else {
      NotDelivered(before, after, chain, ledger, legacy, host, turn, max, Some(request), trace, k);
    }
  }

  lemma {:induction false} LedgerRound(before: Table, after: Table, chain: string, ledger: seq<Entry>, legacy: seq<Order>, host: Host,
                                       turn: Turn, max: nat, request: Request, acknowledged: bool, trace: Trace, k: nat)
    requires Exchanged(before, after, chain, ledger, legacy, host, turn, max, Some(request), acknowledged, trace)
    requires RowsJoined(before, ledger, host, k) && Readable(turn, host) && request.expectedHead.Some?
    ensures var m := DeliveredAfter(Some(request), acknowledged, trace.recovered, k);
            && RowsJoined(after, ledger, HostAfter(ledger, host, Some(request)), m)
            && k < CutOf(Some(request), k) <= |ledger| && CutOf(Some(request), k) <= k + BATCH
            && Progress(HostAfter(ledger, host, Some(request)).chain, m)
               == RoundOf(ledger, Progress(host.chain, k), Fixed(CutOf(Some(request), k)), host.server, trace.recovered)
  {
    hide KeyedLedger, SoldHereOnly, JudgesWell, Receipted, Everything, Preserved, RowsMatch, JournalShape, SendsLongest, RightRequest, Carries,
         ReceiptsFrom, SyncedWith, DeliveredUpTo, LegacyFirst, PersistAll, NoNewReceipt, RightBlock, Readable, Stretch, GoodReply,
         ReceiptsAgree, FromHost;
    BatchStartsAt(before, chain, ledger, turn.scope, turn.limits, request, k);
    OutcomeOfBlock(ledger, host, request, k);
    var outcome := OutcomeOf(ledger, host, request).value;
    if outcome.Committed? {
      StoredIsDelivered(before, ledger, host, request, k, turn);
      LedgerDelivered(before, after, chain, ledger, legacy, host, turn, max, request, trace, k);
      HostMoves(after, ledger, host, k + |request.events|, outcome.chain);
    } else {
      NotDelivered(before, after, chain, ledger, legacy, host, turn, max, Some(request), trace, k);
    }
  }

  /** An exchange is a round, and leaves both ends joined. */
  lemma {:induction false} ExchangeIsARound(before: Table, after: Table, chain: string, ledger: seq<Entry>, legacy: seq<Order>, host: Host,
                                            turn: Turn, max: nat, sent: Option<Request>, acknowledged: bool, trace: Trace, k: nat)
    requires Exchanged(before, after, chain, ledger, legacy, host, turn, max, sent, acknowledged, trace)
    requires RowsJoined(before, ledger, host, k) && Readable(turn, host) && LegacyHonest(turn, host)
    ensures var m := DeliveredAfter(sent, acknowledged, trace.recovered, k);
            && RowsJoined(after, ledger, HostAfter(ledger, host, sent), m)
            && Cuts(Fixed(CutOf(sent, k)), k, BATCH, |ledger|)
            && Progress(HostAfter(ledger, host, sent).chain, m)
               == RoundOf(ledger, Progress(host.chain, k), Fixed(CutOf(sent, k)), host.server, trace.recovered)
  {
    hide Sound, Receipted, Everything, Preserved, RowsMatch, JournalShape, SendsLongest, RightRequest, Carries, Delivers, ReceiptsFrom,
         SyncedWith, DeliveredUpTo, FromHost, LegacyFirst, PersistAll, NoNewReceipt, RightBlock, RightBatch, Readable, LegacyHonest, Stretch;
    if sent.None? {
      NotDelivered(before, after, chain, ledger, legacy, host, turn, max, sent, trace, k);
    } else if sent.value.expectedHead.None? {
      LegacyRound(before, after, chain, ledger, legacy, host, turn, max, sent.value, acknowledged, trace, k);
    } else {
      LedgerRound(before, after, chain, ledger, legacy, host, turn, max, sent.value, acknowledged, trace, k);
    }
  }

  /** Both ends of a store with a complete outbox after k deliveries. */
  ghost predicate Joined(store: Store, host: Host, k: nat)
    reads store
  {
    && store.Valid() && store.live.None? && Everything(store.rows, store.ledger, store.legacy)
    && RowsJoined(store.rows, store.ledger, host, k)
  }

  /** One exchange of the engine with the server: a round, and both ends stay joined. */
  method Exchange(store: Store, host: Host, turn: Turn, ghost k: nat)
      returns (after: Host, ghost cut: nat, ghost recovered: bool, ghost delivered: nat)
    requires Joined(store, host, k) && Readable(turn, host) && LegacyHonest(turn, host)
    modifies store
    ensures store.ledger == old(store.ledger) && store.legacy == old(store.legacy)
    ensures after == host.(chain := after.chain) && Joined(store, after, delivered)
    ensures Cuts(Fixed(cut), k, BATCH, |store.ledger|)
    ensures Progress(after.chain, delivered) == RoundOf(store.ledger, Progress(host.chain, k), Fixed(cut), host.server, recovered)
  {
    hide RowsJoined, Everything, Preserved, RowsMatch, JournalShape, SendsLongest, RightRequest, Carries, Delivers, ReceiptsFrom,
         SyncedWith, NoNewReceipt, Readable, LegacyHonest, Stretch, NothingToSend, Recoverable, PrefixSynced, LegacyShape, SavedPrefixes,
         SavedFor, KeepsOthers, RoundOf, Reached, NoOrphans, ReplyOf, OutcomeOf;
    ghost var before, max := store.rows, Outbox.Min(BATCH, store.backfill.batchLimit);
    var world := WorldOf(store.ledger, host, turn);
    var sent, acknowledged;
    ghost var trace, back;
    sent, acknowledged, trace, back :=
      SendBatch(store, turn.scope, turn.owner, turn.now, turn.sendAt, turn.requestId, turn.limits, world);
    after := HostAfter(store.ledger, host, sent);
    EverythingStays(before, store.rows, store.ledger, store.legacy);
    ExchangeIsARound(before, store.rows, store.chain, store.ledger, store.legacy, host, turn, max, sent, acknowledged, trace, k);
    cut, recovered, delivered := CutOf(sent, k), trace.recovered, DeliveredAfter(sent, acknowledged, trace.recovered, k);
  }

  // ----- A whole life of both ends -----

  /** Maybe the till records the next entry of its journal, then the worker has a turn. */
  datatype Shift = Shift(records: bool, turn: Turn)

  /** The plan a list of rounds followed. */
  function PlanOf(starts: seq<nat>, cuts: seq<nat>): Plan {
    (n: nat) => (k: nat) => if n < |starts| && n < |cuts| && k == starts[n] then cuts[n] else k
  }

  function RecoveriesOf(recovered: seq<bool>): nat -> bool { (n: nat) => n < |recovered| && recovered[n] }

  lemma {:induction false} SoundPrefix(ledger: seq<Entry>, host: Host, m: nat)
    requires Sound(ledger, host) && m <= |ledger| && host.chain <= ledger[..m]
    ensures Sound(ledger[..m], host)
  {
    var front := ledger[..m];
    assert KeyedLedger(front) by { ShapePrefix(ledger, m); }
    forall n | 0 <= n < m ensures host.server.judge(front[..n], front[n]).None? {
      assert front[..n] == ledger[..n];
    }
  }

  /** A round only looks at the entries up to its end. */
  lemma {:induction false} SameRound(shorter: seq<Entry>, ledger: seq<Entry>, p: Progress, a: nat -> nat, b: nat -> nat, server: Server, recovers: bool)
    requires shorter <= ledger && p.synced <= |shorter| && a(p.synced) == b(p.synced) <= |shorter|
    ensures RoundOf(shorter, p, a, server, recovers) == RoundOf(ledger, p, b, server, recovers)
  {
    hide PersistAll;
    var k := p.synced;
    if k < a(k) {
      assert shorter[..k] == ledger[..k] && shorter[k..a(k)] == ledger[k..a(k)];
    }
  }

  lemma {:induction false} SameRounds(ledger: seq<Entry>, p: Progress, a: Plan, b: Plan, server: Server, x: nat -> bool, y: nat -> bool, n: nat)
    requires forall i: nat, k: nat :: i < n ==> a(i)(k) == b(i)(k)
    requires forall i: nat :: i < n ==> x(i) == y(i)
    ensures Rounds(ledger, p, a, server, x, n) == Rounds(ledger, p, b, server, y, n)
  {
    hide PersistAll;
    if n > 0 { SameRounds(ledger, p, a, b, server, x, y, n - 1); }
  }

  /** One more round. */
  lemma {:induction false} RoundsGoOn(ledger: seq<Entry>, p: Progress, q: Progress, server: Server, starts: seq<nat>, cuts: seq<nat>,
                                      recovered: seq<bool>, k: nat, cut: nat, again: bool)
    requires |starts| == |cuts| == |recovered| && p.synced <= |ledger|
    requires q == Rounds(ledger, p, PlanOf(starts, cuts), server, RecoveriesOf(recovered), |starts|) && q.synced == k
    requires Cuts(Fixed(cut), k, BATCH, |ledger|) && ValidPlan(PlanOf(starts, cuts), BATCH, |ledger|)
    ensures ValidPlan(PlanOf(starts + [k], cuts + [cut]), BATCH, |ledger|)
    ensures Rounds(ledger, p, PlanOf(starts + [k], cuts + [cut]), server, RecoveriesOf(recovered + [again]), |starts| + 1)
         == RoundOf(ledger, q, Fixed(cut), server, again)
  {
    hide RoundOf;
    var n, longer, more := |starts|, PlanOf(starts + [k], cuts + [cut]), RecoveriesOf(recovered + [again]);
    SameRounds(ledger, p, PlanOf(starts, cuts), longer, server, RecoveriesOf(recovered), more, n);
    forall i: nat, j: nat | j < |ledger| ensures Cuts(longer(i), j, BATCH, |ledger|) {
      assert Cuts(PlanOf(starts, cuts)(i), j, BATCH, |ledger|);
    }
    SameCut(ledger, q, longer(n), Fixed(cut), server, again);
  }

  lemma {:induction false} SameCut(ledger: seq<Entry>, p: Progress, a: nat -> nat, b: nat -> nat, server: Server, recovers: bool)
    requires a(p.synced) == b(p.synced)
    ensures RoundOf(ledger, p, a, server, recovers) == RoundOf(ledger, p, b, server, recovers)
  {
    hide PersistAll;
  }

  /** A recorded entry is not delivered. */
  lemma {:induction false} RecordedJoins(before: Table, after: Table, chain: string, ledger: seq<Entry>, e: Entry, host: Host, k: nat)
    requires RowsJoined(before, ledger, host, k) && Sound(ledger + [e], host) && e.Id() !in before
    requires after == before[e.Id() := Row(Tuple(e.Id(), chain, LedgerEvent(e)), UNSENT)]
    ensures RowsJoined(after, ledger + [e], host, k)
  {
    hide Sound, Receipted;
    var r := Row(Tuple(e.Id(), chain, LedgerEvent(e)), UNSENT);
    NewRowReceipted(before, r, host.receipts);
    forall n | 0 <= n < |ledger + [e]| ensures SyncedAt(after, ledger + [e], n) <==> n < k {
      SyncedInLonger(before, ledger, e, n);
      FreshRowIsNotSynced(before, r, ledger + [e], n);
    }
  }

  lemma {:induction false} NewRowReceipted(t: Table, r: Row, receipts: string -> (string, string))
    requires Receipted(t, receipts) && r.evidence.receiptId.None?
    ensures Receipted(t[r.Id() := r], receipts)
  {
  }

  /** The till records the next entry, if there is one. */
  method RecordNext(store: Store, host: Host, ledger: seq<Entry>, ghost k: nat)
    requires Joined(store, host, k) && store.ledger <= ledger && Sound(ledger, host) && !Clash(ledger, store.legacy)
    modifies store
    ensures Joined(store, host, k) && store.ledger <= ledger && store.legacy == old(store.legacy) && old(store.ledger) <= store.ledger
  {
    hide RowsJoined, Everything, Preserved, RowsMatch, JournalShape, PrefixSynced, LegacyShape, SavedPrefixes, SavedFor, Sound, Clash, NoOrphans;
    var m := |store.ledger|;
    if m == |ledger| { return; }
    var e := ledger[m];
    assert store.ledger == ledger[..m] && store.ledger + [e] == ledger[..m + 1];
    ghost var before := store.rows;
    KeyedIsShaped(ledger, host, m + 1);
    JoinedIsSound(before, store.ledger, host, k);
    SoundPrefix(ledger, host, m + 1);
    NextIsNew(before, store.chain, ledger, store.legacy, m);
    var ok := store.Record(e);
    RecordedJoins(before, store.rows, store.chain, ledger[..m], e, host, k);
  }

  lemma {:induction false} JoinedIsSound(t: Table, ledger: seq<Entry>, host: Host, k: nat)
    requires RowsJoined(t, ledger, host, k)
    ensures host.chain <= ledger && Sound(ledger, host)
  {
  }

  lemma {:induction false} KeyedIsShaped(ledger: seq<Entry>, host: Host, m: nat)
    requires Sound(ledger, host) && m <= |ledger|
    ensures JournalShape(ledger[..m])
  {
    hide JournalShape;
    ShapePrefix(ledger, m);
  }

  /** The next entry has an id of its own. */
  lemma {:induction false} NextIsNew(t: Table, chain: string, ledger: seq<Entry>, legacy: seq<Order>, m: nat)
    requires m < |ledger| && RowsMatch(t, chain, ledger[..m], legacy) && JournalShape(ledger[..m + 1]) && !Clash(ledger, legacy)
    ensures ledger[m].Id() !in t
  {
    forall id | id in t ensures id != ledger[m].Id() {
      match t[id].tuple.payload
      case LedgerEvent(e) =>
        var n :| 0 <= n < m && ledger[..m][n] == e;
        assert ledger[..m + 1][n] == e && ledger[..m + 1][m] == ledger[m];
      case LegacyOrder(o) =>
        var n :| 0 <= n < |legacy| && legacy[n] == o;
    }
  }

  ghost predicate AllReadable(shifts: seq<Shift>, host: Host) {
    forall i :: 0 <= i < |shifts| ==> Readable(shifts[i].turn, host) && LegacyHonest(shifts[i].turn, host)
  }

  lemma {:induction false} ReadableAt(shifts: seq<Shift>, first: Host, host: Host, i: nat)
    requires AllReadable(shifts, first) && i < |shifts| && host.receipts == first.receipts
    ensures Readable(shifts[i].turn, host) && LegacyHonest(shifts[i].turn, host)
  {
    assert Readable(shifts[i].turn, first) && LegacyHonest(shifts[i].turn, first);
  }

  /** None of the first rounds starts at the h entries the server has. */
  ghost predicate NeverStartsAt(ledger: seq<Entry>, h: nat, plan: Plan, server: Server, recovers: nat -> bool, n: nat)
    requires h <= |ledger|
  {
    forall m: nat :: m <= n ==> !StartsAt(ledger, h, plan, server, recovers, m, h)
  }

  /**
   Any life of a till and its server: entries are recorded, the worker has its turns, batches
   are cut by size, refused, recovered. What both ends hold afterwards is what the rounds of
   Convergence say; so if the worker starts over from the first entry and none of its rounds
   starts exactly at the server's head, the server has gained nothing.
   */
  method Live(store: Store, first: Host, ledger: seq<Entry>, shifts: seq<Shift>, ghost k: nat)
      returns (host: Host, ghost starts: seq<nat>, ghost cuts: seq<nat>, ghost recovered: seq<bool>, ghost delivered: nat)
    requires Joined(store, first, k) && store.ledger <= ledger && Sound(ledger, first) && !Clash(ledger, store.legacy)
    requires AllReadable(shifts, first)
    modifies store
    ensures Joined(store, host, delivered) && store.ledger <= ledger && host == first.(chain := host.chain)
    ensures ValidPlan(PlanOf(starts, cuts), BATCH, |ledger|)
    ensures Progress(host.chain, delivered)
         == Rounds(ledger, Progress(first.chain, k), PlanOf(starts, cuts), first.server, RecoveriesOf(recovered), |shifts|)
    ensures var h := |first.chain|;
            k == 0 && NeverStartsAt(ledger, h, PlanOf(starts, cuts), first.server, RecoveriesOf(recovered), |shifts|)
            ==> host.chain == first.chain
  {
    hide Joined, RowsJoined, Sound, Clash, AllReadable, Readable, LegacyHonest, ValidPlan, Rounds, RoundOf, PlanOf, RecoveriesOf;
    starts, cuts, recovered, delivered, host := [], [], [], k, first;
    JoinedFacts(store, first, k);
    NoRounds(ledger, Progress(first.chain, k), first.server);
    for i := 0 to |shifts|
      invariant Joined(store, host, delivered) && store.ledger <= ledger && host == first.(chain := host.chain) && Sound(ledger, host)
      invariant !Clash(ledger, store.legacy)
      invariant |starts| == |cuts| == |recovered| == i && ValidPlan(PlanOf(starts, cuts), BATCH, |ledger|)
      invariant Progress(host.chain, delivered)
             == Rounds(ledger, Progress(first.chain, k), PlanOf(starts, cuts), first.server, RecoveriesOf(recovered), i)
    {
      if shifts[i].records { RecordNext(store, host, ledger, delivered); }
      ReadableAt(shifts, first, host, i);
      ghost var cut, again, next;
      ghost var before := host;
      JoinedFacts(store, host, delivered);
      host, cut, again, next := Exchange(store, host, shifts[i].turn, delivered);
      JoinedFacts(store, host, next);
      StillSound(ledger, before, host, store.ledger);
      Rounding(store.ledger, ledger, Progress(before.chain, delivered), cut, first.server, again);
      RoundsGoOn(ledger, Progress(first.chain, k), Progress(before.chain, delivered), first.server, starts, cuts, recovered, delivered, cut, again);
      starts, cuts, recovered, delivered := starts + [delivered], cuts + [cut], recovered + [again], next;
    }
    GainsNothing(ledger, first, starts, cuts, recovered, |shifts|);
  }

  lemma {:induction false} JoinedFacts(store: Store, host: Host, k: nat)
    requires Joined(store, host, k)
    ensures k <= |store.ledger| && host.chain <= store.ledger
  {
  }

  lemma {:induction false} NoRounds(ledger: seq<Entry>, p: Progress, server: Server)
    ensures Rounds(ledger, p, PlanOf([], []), server, RecoveriesOf([]), 0) == p && ValidPlan(PlanOf([], []), BATCH, |ledger|)
  {
  }

  lemma {:induction false} StillSound(ledger: seq<Entry>, before: Host, after: Host, shorter: seq<Entry>)
    requires Sound(ledger, before) && after == before.(chain := after.chain) && after.chain <= shorter <= ledger
    ensures Sound(ledger, after)
  {
    hide KeyedLedger, SoldHereOnly, JudgesWell;
  }

  lemma {:induction false} Rounding(shorter: seq<Entry>, ledger: seq<Entry>, p: Progress, cut: nat, server: Server, recovers: bool)
    requires shorter <= ledger && p.synced <= |shorter| && Cuts(Fixed(cut), p.synced, BATCH, |shorter|)
    ensures RoundOf(shorter, p, Fixed(cut), server, recovers) == RoundOf(ledger, p, Fixed(cut), server, recovers)
    ensures Cuts(Fixed(cut), p.synced, BATCH, |ledger|)
  {
    hide RoundOf;
    SameRound(shorter, ledger, p, Fixed(cut), Fixed(cut), server, recovers);
  }

  lemma {:induction false} GainsNothing(ledger: seq<Entry>, first: Host, starts: seq<nat>, cuts: seq<nat>, recovered: seq<bool>, n: nat)
    requires Sound(ledger, first) && ValidPlan(PlanOf(starts, cuts), BATCH, |ledger|)
    ensures var h := |first.chain|;
            NeverStartsAt(ledger, h, PlanOf(starts, cuts), first.server, RecoveriesOf(recovered), n) ==>
              Rounds(ledger, Progress(first.chain, 0), PlanOf(starts, cuts), first.server, RecoveriesOf(recovered), n).chain == first.chain
  {
    hide KeyedLedger, SoldHereOnly, JudgesWell, ValidPlan, Rounds, PlanOf, RecoveriesOf;
    var h := |first.chain|;
    assert ledger[..h] == first.chain;
    if NeverStartsAt(ledger, h, PlanOf(starts, cuts), first.server, RecoveriesOf(recovered), n) {
      BeforeMeeting(ledger, h, PlanOf(starts, cuts), BATCH, first.server, RecoveriesOf(recovered), n);
    }
  }
}
