/**
 The envelope check of the server (server/src/ledger/protocol.ts, validateRequest): what a
 request must satisfy before any event of it is looked at against the stored chain.

 A payload stands for its canonical text; that text, its profiles and its parser are the
 subject of the Json modules.
 */
module Envelope {
  import opened Ledger
  import opened OutboxRows
  import opened Acks

  datatype Endpoint = Ingest | LegacySales | Prefix

  datatype Fault =
    | INVALID_ENVELOPE
    | INVALID_PAYLOAD
    | INVALID_HASH
    | INVALID_FINGERPRINT
    | LEDGER_SCHEMA_UNSUPPORTED
    | BATCH_TOO_LARGE
    | EVENT_TOO_LARGE

  const MAX_EVENTS := 100
  const MAX_PAYLOAD := 262144

  /** One event as it travels; a missing terminal travels as the empty text. */
  datatype WireEvent = WireEvent(
    eventId: string,
    ledger: bool,
    sourceTerminalId: string,
    sequence: Option<int>,
    hash: Option<Digest>,
    previousHash: Option<Digest>,
    payload: Payload,
    transportFingerprint: Option<Fingerprint>)

  function TerminalOf(payload: Payload): string {
    match payload case LedgerEvent(e) => e.content.terminalId case LegacyOrder(o) => o.terminalId
  }

  /** SyncProtocol.event: the wire form of a row. */
  function Wire(tuple: Tuple, fingerprint: Option<Fingerprint>): WireEvent {
    WireEvent(tuple.eventId, tuple.payload.LedgerEvent?, TerminalOf(tuple.payload), tuple.Sequence(), tuple.Hash(),
              tuple.PreviousHash(), tuple.payload, fingerprint)
  }

  predicate HeadFits(endpoint: Endpoint, expected: Option<ServerHead>) {
    if endpoint.Ingest? then
      expected.Some? && 0 <= expected.value.sequence <= MAX_SAFE_INTEGER
      && (expected.value.sequence == 0 <==> expected.value.hash.None?)
    else expected.None?
  }

  predicate Printed(e: WireEvent, scope: Scope) {
    && e.transportFingerprint == Some(Fingerprint(Tuple(e.eventId, scope.chainId, e.payload), scope))
    && e.sourceTerminalId == TerminalOf(e.payload)
  }

  /** What is wrong with one event by itself, after its id and its sequence. */
  function BodyFault(endpoint: Endpoint, scope: Scope, e: WireEvent, size: Payload -> nat): Option<Fault> {
    if endpoint.Prefix? then (if e.hash.None? then Some(INVALID_ENVELOPE) else None)
    else if Blank(e.sourceTerminalId) then Some(INVALID_PAYLOAD)
    else if size(e.payload) > MAX_PAYLOAD then Some(EVENT_TOO_LARGE)
    else if endpoint.LegacySales? then
      if e.ledger || e.sequence.Some? || e.hash.Some? || e.previousHash.Some? then Some(INVALID_ENVELOPE)
      else if !e.payload.LegacyOrder? || e.payload.order.id != e.eventId then Some(INVALID_PAYLOAD)
      else if !Printed(e, scope) then Some(INVALID_FINGERPRINT)
      else None
    else if !e.ledger || e.hash.None? then Some(INVALID_ENVELOPE)
    else if !e.payload.LedgerEvent? then Some(INVALID_PAYLOAD)
    else
      var entry := e.payload.entry;
      if entry.content.schemaVersion != LEDGER_SCHEMA_VERSION then Some(LEDGER_SCHEMA_UNSUPPORTED)
      else if entry.Id() != e.eventId || Some(entry.Sequence()) != e.sequence || Some(entry.hash) != e.hash
              || entry.content.previousHash != e.previousHash || entry.content.terminalId != e.sourceTerminalId
      then Some(INVALID_PAYLOAD)
      else if !entry.Sealed() || (entry.Sequence() == 1) != e.previousHash.None? then Some(INVALID_HASH)
      else if !Printed(e, scope) then Some(INVALID_FINGERPRINT)
      else None
  }

  /** When nothing is wrong with it. */
  predicate BodyFits(endpoint: Endpoint, scope: Scope, e: WireEvent, size: Payload -> nat) {
    match endpoint
    case Prefix => e.hash.Some?
    case LegacySales =>
      && !Blank(e.sourceTerminalId) && size(e.payload) <= 262144 && Printed(e, scope)
      && !e.ledger && e.sequence.None? && e.hash.None? && e.previousHash.None?
      && e.payload.LegacyOrder? && e.payload.order.id == e.eventId
    case Ingest =>
      && !Blank(e.sourceTerminalId) && size(e.payload) <= 262144 && Printed(e, scope)
      && e.ledger && e.payload.LedgerEvent?
      && var entry := e.payload.entry;
         && entry.content.schemaVersion == 1 && entry.content.id == e.eventId && entry.content.terminalId == e.sourceTerminalId
         && e.sequence == Some(entry.content.sequence) && e.hash == Some(entry.hash) && e.previousHash == entry.content.previousHash
         && entry.hash == Digest(entry.content) && (entry.content.sequence == 1 <==> entry.content.previousHash.None?)
  }

  /** The faults of a body, and none when it fits. */
  lemma {:induction false} BodyFaults(endpoint: Endpoint, scope: Scope, e: WireEvent, size: Payload -> nat)
    ensures BodyFault(endpoint, scope, e, size).None? <==> BodyFits(endpoint, scope, e, size)
    ensures BodyFault(endpoint, scope, e, size) == Some(EVENT_TOO_LARGE) <==>
              !endpoint.Prefix? && !Blank(e.sourceTerminalId) && size(e.payload) > 262144
    ensures BodyFault(endpoint, scope, e, size) != Some(BATCH_TOO_LARGE)
  {
  }

  /** The checks one after another. */
  method CheckBody(endpoint: Endpoint, scope: Scope, e: WireEvent, size: Payload -> nat) returns (fault: Option<Fault>)
    ensures fault == BodyFault(endpoint, scope, e, size)
  {
    hide Blank, Printed;
    if endpoint.Prefix? { return if e.hash.Some? then None else Some(INVALID_ENVELOPE); }
    if Blank(e.sourceTerminalId) { return Some(INVALID_PAYLOAD); }
    if size(e.payload) > MAX_PAYLOAD { return Some(EVENT_TOO_LARGE); }
    if endpoint.LegacySales? {
      if e.ledger || e.sequence.Some? || e.hash.Some? || e.previousHash.Some? { return Some(INVALID_ENVELOPE); }
      if !e.payload.LegacyOrder? || e.payload.order.id != e.eventId { return Some(INVALID_PAYLOAD); }
    } else {
      if !e.ledger || e.hash.None? { return Some(INVALID_ENVELOPE); }
      if !e.payload.LedgerEvent? { return Some(INVALID_PAYLOAD); }
      var entry := e.payload.entry;
      if entry.content.schemaVersion != LEDGER_SCHEMA_VERSION { return Some(LEDGER_SCHEMA_UNSUPPORTED); }
      if entry.Id() != e.eventId || Some(entry.Sequence()) != e.sequence || Some(entry.hash) != e.hash
         || entry.content.previousHash != e.previousHash || entry.content.terminalId != e.sourceTerminalId {
        return Some(INVALID_PAYLOAD);
      }
      if !entry.Sealed() || (entry.Sequence() == 1) != e.previousHash.None? { return Some(INVALID_HASH); }
    }
    return if Printed(e, scope) then None else Some(INVALID_FINGERPRINT);
  }

  predicate Numbered(endpoint: Endpoint, e: WireEvent) {
    endpoint.LegacySales? || (e.sequence.Some? && 1 <= e.sequence.value <= MAX_SAFE_INTEGER)
  }

  predicate EventFits(endpoint: Endpoint, scope: Scope, e: WireEvent, size: Payload -> nat) {
    !Blank(e.eventId) && e.transportFingerprint.Some? && Numbered(endpoint, e) && BodyFault(endpoint, scope, e, size).None?
  }

  predicate InOrder(endpoint: Endpoint, events: seq<WireEvent>) {
    && (forall i, k :: 0 <= i < k < |events| ==> events[i].eventId != events[k].eventId)
    && (!endpoint.LegacySales? ==>
          && (forall i :: 0 <= i < |events| ==> events[i].sequence.Some?)
          && forall i, k :: 0 <= i < k < |events| ==> events[i].sequence.value < events[k].sequence.value)
  }

  predicate Accepts(endpoint: Endpoint, scope: Scope, expected: Option<ServerHead>, events: seq<WireEvent>, size: Payload -> nat) {
    && HeadFits(endpoint, expected)
    && (events != [] || endpoint.Prefix?)
    && |events| <= MAX_EVENTS
    && InOrder(endpoint, events)
    && forall i :: 0 <= i < |events| ==> EventFits(endpoint, scope, events[i], size)
  }

  lemma {:induction false} InOrderStep(endpoint: Endpoint, events: seq<WireEvent>, i: nat)
    requires i < |events| && InOrder(endpoint, events[..i])
    requires forall k :: 0 <= k < i ==> events[k].eventId != events[i].eventId
    requires !endpoint.LegacySales? ==>
               && events[i].sequence.Some?
               && (0 < i ==> events[i - 1].sequence.Some? && events[i - 1].sequence.value < events[i].sequence.value)
    ensures InOrder(endpoint, events[..i + 1])
  {
    assert forall k :: 0 <= k < i ==> events[..i + 1][k] == events[..i][k] == events[k];
    if !endpoint.LegacySales? {
      forall k | 0 <= k < i ensures events[k].sequence.value < events[i].sequence.value {
        assert events[..i][k].sequence.value <= events[..i][i - 1].sequence.value;
      }
    }
  }

  /** The `ids` set and the `previousSequence` of the loop. */
  method ValidateRequest(endpoint: Endpoint, scope: Scope, expected: Option<ServerHead>, events: seq<WireEvent>, size: Payload -> nat)
      returns (fault: Option<Fault>)
    ensures fault.None? <==> Accepts(endpoint, scope, expected, events, size)
    ensures fault == Some(BATCH_TOO_LARGE) <==> HeadFits(endpoint, expected) && |events| > MAX_EVENTS
    ensures fault == Some(EVENT_TOO_LARGE) ==>
              !endpoint.Prefix? && exists i :: 0 <= i < |events| && size(events[i].payload) > MAX_PAYLOAD
  {
    hide Blank, Printed, BodyFault;
    if endpoint.Ingest? {
      if expected.None? { return Some(INVALID_ENVELOPE); }
      var head := expected.value;
      if head.sequence < 0 || head.sequence > MAX_SAFE_INTEGER { return Some(INVALID_ENVELOPE); }
      if (head.sequence == 0) != head.hash.None? { return Some(INVALID_ENVELOPE); }
    } else if expected.Some? { return Some(INVALID_ENVELOPE); }
    if events == [] && !endpoint.Prefix? { return Some(INVALID_ENVELOPE); }
    if |events| > MAX_EVENTS { return Some(BATCH_TOO_LARGE); }
    var ids: set<string> := {};
    var previousSequence := 0;
    for i := 0 to |events|
      invariant ids == set k | 0 <= k < i :: events[k].eventId
      invariant forall k :: 0 <= k < i ==> EventFits(endpoint, scope, events[k], size)
      invariant InOrder(endpoint, events[..i])
      invariant !endpoint.LegacySales? ==> previousSequence == if i == 0 then 0 else events[i - 1].sequence.value
    {
      var e := events[i];
      if Blank(e.eventId) { return Some(INVALID_PAYLOAD); }
      if e.eventId in ids { return Some(INVALID_ENVELOPE); }
      ids := ids + {e.eventId};
      if e.transportFingerprint.None? { return Some(INVALID_ENVELOPE); }
      if !endpoint.LegacySales? && (e.sequence.None? || e.sequence.value < 1 || e.sequence.value > MAX_SAFE_INTEGER) {
        return Some(INVALID_PAYLOAD);
      }
      if !endpoint.LegacySales? {
        if e.sequence.value <= previousSequence { return Some(INVALID_ENVELOPE); }
        previousSequence := e.sequence.value;
      }
      var fault := CheckBody(endpoint, scope, e, size);
      if fault.Some? {
        BodyFaults(endpoint, scope, e, size);
        return fault;
      }
      InOrderStep(endpoint, events, i);
    }
    assert events[..|events|] == events;
    return None;
  }
}
