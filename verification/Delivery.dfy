/**
 From the till to the server in one statement: a journal the writers produced, cut into
 batches by the worker, checked and stored by the server.
 */
module Delivery {
  import opened Ledger
  import opened Journal
  import CashSessions
  import Server
  import Outbox
  import OutboxStore
  import Envelope
  import Refunds
  import SyncEngine
  import OutboxRows
  import Acks
  import ServerStore

  /** What the outbox and the envelope check need of a journal holds for every run of the writers. */
  lemma {:induction false} JournalIsDeliverable(legacy: Legacy, journal: seq<Entry>)
    requires WellFormed(legacy, journal) && |journal| <= MAX_SAFE_INTEGER
    ensures Outbox.JournalShape(journal) && SyncEngine.SealedLedger(journal)
  {
    hide Guard;
    forall n | 0 <= n < |journal|
      ensures Linked(journal[..n], journal[n]) && journal[n].Id() != "" && journal[n].Sequence() == n + 1
    {
      assert Accepted(legacy, journal[..n], journal[n]);
    }
    forall n, m | 0 <= n < m < |journal| ensures journal[n].Id() != journal[m].Id() {
      assert Accepted(legacy, journal[..m], journal[m]);
      assert journal[..m][n] == journal[n];
    }
  }

  // ----- checkReferences -----

  /** The sale a correction names is stored, and the session an update or a closure names was opened. */
  ghost predicate ReferenceFound(legacy: Legacy, prefix: seq<Entry>, e: Entry) {
    match e.Body()
    case Correction(c) => StoredIn(legacy, prefix, c.originalOrderId).Some?
    case FloatUpdated(u) => CashSessions.OpenedIn(prefix, u.sessionId)
    case Closure(c) => c.session.Some? ==> CashSessions.OpenedIn(prefix, c.session.value.cashSessionId)
    case _ => true
  }

  ghost predicate HashFound(legacy: Legacy, prefix: seq<Entry>, e: Entry) {
    e.Body().Correction? && StoredIn(legacy, prefix, e.Body().correction.originalOrderId).Some? ==>
      e.Body().correction.originalSaleHash == HashOf(StoredIn(legacy, prefix, e.Body().correction.originalOrderId).value)
  }

  /** checkReferences, then validateBusiness. `ranges` tells which sequences a terminal may write. */
  ghost function JudgeOf(legacy: Legacy, ranges: (string, int) -> bool): ServerStore.Judge {
    (prefix: seq<Entry>, e: Entry) =>
      if !ReferenceFound(legacy, prefix, e) then Some(ServerStore.DEPENDENCY_MISSING)
      else if !HashFound(legacy, prefix, e) then Some(ServerStore.BUSINESS_INCONSISTENCY)
      else if !ranges(e.content.terminalId, e.Sequence()) then Some(ServerStore.SCOPE_DENIED)
      else if !Server.ServerAccepts(legacy, prefix, e) then Some(ServerStore.BUSINESS_INCONSISTENCY)
      else None
  }

  /** What passes the business rules over a prefix of a run refers to nothing unknown. */
  lemma {:induction false} AcceptedRefers(legacy: Legacy, prefix: seq<Entry>, e: Entry)
    requires WellFormed(legacy, prefix) && Server.ServerAccepts(legacy, prefix, e)
    ensures ReferenceFound(legacy, prefix, e) && HashFound(legacy, prefix, e)
  {
    hide WellFormed, CashSessions.OpenedIn, CashSessions.ServerActive, CashSessions.AuditorActive, StoredIn;
    ActiveSessionForms(legacy, prefix);
    CashSessions.AuditorActiveIsOpened(prefix);
  }

  /** The terminals of the journal write within their ranges. */
  predicate InRanges(journal: seq<Entry>, ranges: (string, int) -> bool) {
    forall n :: 0 <= n < |journal| ==> ranges(journal[n].content.terminalId, journal[n].Sequence())
  }

  lemma {:induction false} RunIsJudgedWell(legacy: Legacy, journal: seq<Entry>, ranges: (string, int) -> bool)
    requires WellFormed(legacy, journal) && LegacyValid(legacy) && InRanges(journal, ranges)
    requires forall n :: 0 <= n < |journal| ==> Server.ServerOnly(journal[..n], journal[n])
    ensures ServerStore.JudgesWell(journal, JudgeOf(legacy, ranges))
  {
    hide WellFormed, LegacyValid, Server.ServerOnly, Server.ServerAccepts, ReferenceFound, HashFound;
    Server.ServerReplaysEveryRun(legacy, journal);
    forall n | 0 <= n < |journal| ensures JudgeOf(legacy, ranges)(journal[..n], journal[n]).None? {
      WellFormedPrefix(legacy, journal, n);
      AcceptedRefers(legacy, journal[..n], journal[n]);
    }
  }

  lemma {:induction false} JournalIsKeyed(legacy: Legacy, journal: seq<Entry>)
    requires WellFormed(legacy, journal) && |journal| <= MAX_SAFE_INTEGER
    ensures ServerStore.KeyedLedger(journal)
  {
    hide Guard, Outbox.JournalShape;
    JournalIsDeliverable(legacy, journal);
    forall n | 0 <= n < |journal| ensures journal[n].Id() == EntryId(journal[n].Body()) {
      assert Accepted(legacy, journal[..n], journal[n]);
    }
  }

  /**
   A batch the worker sends is stored by a server that holds the first h entries exactly
   when it starts at the server's head or ends within it, and then the server holds the
   journal up to the end of the batch. Otherwise it is refused for its place in the chain,
   never for what its events say. The orders must not be sold in another chain, and the
   terminals write within the ranges the server gave them.
   */
  lemma {:induction false} RightBatchIsStoredExactly(legacy: Legacy, journal: seq<Entry>, t: OutboxRows.Table, request: Acks.Request,
                                                     k: nat, h: nat, ranges: (string, int) -> bool, sold: string -> bool)
    requires WellFormed(legacy, journal) && LegacyValid(legacy) && |journal| <= MAX_SAFE_INTEGER
    requires forall n :: 0 <= n < |journal| ==> Server.ServerOnly(journal[..n], journal[n])
    requires InRanges(journal, ranges) && ServerStore.SoldHereOnly(journal, sold)
    requires SyncEngine.RightBlock(t, journal, request, k) && request.events != [] && h <= |journal|
    ensures var j := k + |request.events|;
            var outcome := ServerStore.PersistAll(journal[..h], request.expectedHead.value, journal[k..j], JudgeOf(legacy, ranges), sold);
            && (outcome.Committed? <==> k == h || j <= h)
            && (outcome.Committed? ==> outcome.chain == journal[..if j <= h then h else j])
            && (outcome.Refused? ==> outcome.code == if h < k then ServerStore.MISSING_PREDECESSOR else ServerStore.HEAD_MOVED)
  {
    hide WellFormed, LegacyValid, Server.ServerOnly, ServerStore.KeyedLedger, ServerStore.JudgesWell, ServerStore.SoldHereOnly,
         ServerStore.PersistAll, Outbox.SyncedAt, InRanges, JudgeOf;
    JournalIsKeyed(legacy, journal);
    RunIsJudgedWell(legacy, journal, ranges);
    ServerStore.BatchOutcome(journal, h, k, k + |request.events|, JudgeOf(legacy, ranges), sold);
  }

  // ----- A sale older than the journal, made before tills had an identity -----

  function OldSale(): Order {
    Order("old-1", "12", "12", "", Cash, 0, [Item("line-1", "tea", "Tea", 250, 2, 20)], 2, 500, 0)
  }

  /** The outbox row of the old sale, claimed for a scope, and the request that carries it. */
  function OldRow(scope: OutboxRows.Scope): OutboxRows.Row {
    var tuple := OutboxRows.Tuple("old-1", scope.chainId, OutboxRows.LegacyOrder(OldSale()));
    OutboxRows.Row(tuple, OutboxRows.UNSENT.(transportFingerprint := Some(OutboxRows.Fingerprint(tuple, scope)), status := OutboxRows.Sending))
  }

  function OldRequest(scope: OutboxRows.Scope): Acks.Request { Acks.Request("q", scope, None, [Acks.EventOf(OldRow(scope))]) }

  lemma {:induction false} OldSaleIsValid()
    ensures LegacyValid(map["old-1" := OldSale()])
  {
    var order := OldSale();
    assert order.items[..0] == [] && order.items[1..] == [];
    assert 'o' in order.id && 't' in order.items[0].productId && 'l' in order.items[0].lineId && 'T' in order.items[0].name;
  }

  lemma {:induction false} NoTerminal(scope: OutboxRows.Scope, t: OutboxRows.Table, size: OutboxRows.Payload -> nat)
    requires t == map["old-1" := OldRow(scope)]
    ensures var events := SyncEngine.WireEvents(t, OldRequest(scope).events);
            |events| == 1 && Envelope.BodyFault(Envelope.LegacySales, scope, events[0], size) == Some(Envelope.INVALID_PAYLOAD)
  {
    hide Envelope.Printed;
  }

  /**
   The stores of the till hold the sale, the worker sends it as it must, and the server
   refuses the request because the event names no terminal.
   */
  lemma {:induction false} OldSaleIsRefused(scope: OutboxRows.Scope, limits: SyncEngine.Limits)
    requires limits.maxPayload == Envelope.MAX_PAYLOAD && limits.payloadSize(OutboxRows.LegacyOrder(OldSale())) <= limits.maxPayload
    requires limits.bodySize(OldRequest(scope).events) <= limits.maxBody
    ensures LegacyValid(map["old-1" := OldSale()])
    ensures var t, request := map["old-1" := OldRow(scope)], OldRequest(scope);
            && Outbox.RowsMatch(t, scope.chainId, [], [OldSale()])
            && SyncEngine.RightRequest(t, [], request) && SyncEngine.Carries(t, scope.chainId, scope, limits, request)
            && !Envelope.Accepts(Envelope.LegacySales, scope, None, SyncEngine.WireEvents(t, request.events), limits.payloadSize)
            && Envelope.BodyFault(Envelope.LegacySales, scope, SyncEngine.WireEvents(t, request.events)[0], limits.payloadSize)
               == Some(Envelope.INVALID_PAYLOAD)
  {
    hide LegacyValid, Envelope.BodyFault, Envelope.InOrder, Envelope.HeadFits, SyncEngine.RightBlock;
    OldSaleIsValid();
    var t, request := map["old-1" := OldRow(scope)], OldRequest(scope);
    NoTerminal(scope, t, limits.payloadSize);
    assert request.events[0].eventId == "old-1";
    assert !Envelope.EventFits(Envelope.LegacySales, scope, SyncEngine.WireEvents(t, request.events)[0], limits.payloadSize);
  }

  /** The refusal quarantines the row, and a quarantined row stops every later claim. */
  lemma {:induction false} RefusedForGood(was: OutboxRows.Row, wait: Option<int>, at: int, backoff: int, t: OutboxRows.Table, id: string,
                                          after: OutboxRows.Table, claimed: seq<OutboxRows.Row>,
                                          scope: OutboxRows.Scope, owner: string, now: int, max: nat)
    requires id in t && SyncEngine.WentBack(was, t[id], SyncEngine.HttpFailure(422, "INVALID_PAYLOAD", wait), at, backoff)
    requires OutboxStore.ClaimSpec(t, after, claimed, scope, owner, now, max)
    ensures claimed == [] && id in after && after[id].Status() == t[id].Status()
  {
    hide Outbox.TakeLength, OutboxRows.IsOutstanding;
    var first: seq<OutboxRows.Row>, candidates: seq<OutboxRows.Row> :|
      OutboxStore.ClaimSteps(t, first, candidates, after, claimed, scope, owner, now, max);
    var ready := Outbox.Refreshed(t, OutboxStore.IdsOf(first), now);
    assert id in ready && ready[id].Status() == OutboxRows.Quarantined;
  }
}
