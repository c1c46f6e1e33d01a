/**
 The acceptance test of a reply (native/android/SyncProtocol.kt:80-125). The server is
 arbitrary: a statement about validateAck holds for every reply it could send.
 */
module Acks {
  import opened Ledger
  import opened OutboxRows

  datatype Event = Event(eventId: string, sequence: Option<int>, hash: Option<Digest>, transportFingerprint: Option<Fingerprint>)

  datatype AckStatus = Accepted | AlreadyPresent | Other

  datatype Ack = Ack(
    eventId: string,
    status: AckStatus,
    receiptId: string,
    serverReceivedAt: string,
    sequence: Option<int>,
    hash: Option<Digest>,
    transportFingerprint: Option<Fingerprint>)

  datatype ServerHead = ServerHead(sequence: int, hash: Option<Digest>)

  datatype Request = Request(requestId: string, scope: Scope, expectedHead: Option<ServerHead>, events: seq<Event>)

  datatype Response = Response(
    protocolVersion: int,
    requestId: string,
    scope: Scope,
    committed: bool,
    serverHead: ServerHead,
    acknowledgements: seq<Ack>)

  function EventOf(r: Row): Event {
    Event(r.Id(), r.tuple.Sequence(), r.tuple.Hash(), r.evidence.transportFingerprint)
  }

  predicate ValidHead(head: ServerHead) {
    0 <= head.sequence <= MAX_SAFE_INTEGER && (if head.sequence == 0 then head.hash.None? else head.hash.Some?)
  }

  predicate ValidContext(request: Request, response: Response) {
    response.protocolVersion == 1 && response.requestId == request.requestId && response.scope == request.scope
  }

  /** One acknowledgement against the event it answers. */
  predicate Answers(event: Event, ack: Ack, head: ServerHead) {
    && ack.eventId == event.eventId
    && ack.sequence == event.sequence
    && ack.hash == event.hash
    && ack.transportFingerprint == event.transportFingerprint
    && (event.sequence.Some? ==>
          && 0 <= event.sequence.value <= MAX_SAFE_INTEGER
          && ack.hash.Some?
          && event.sequence.value <= head.sequence
          && (event.sequence.value == head.sequence ==> head.hash == ack.hash))
    && (event.sequence.None? ==> ack.hash.None?)
  }

  /** Shape of one acknowledgement; `wellFormed` stands for the uuid, date and digest patterns. */
  predicate AckShape(ack: Ack, wellFormed: Ack -> bool) {
    ack.status in {Accepted, AlreadyPresent} && wellFormed(ack)
  }

  ghost predicate Answered(event: Event, response: Response) {
    exists k :: 0 <= k < |response.acknowledgements| && Answers(event, response.acknowledgements[k], response.serverHead)
  }

  ghost predicate GoodReply(request: Request, response: Response, wellFormed: Ack -> bool) {
    var acks, sent := response.acknowledgements, request.events;
    && ValidContext(request, response)
    && response.committed
    && ValidHead(response.serverHead)
    && |acks| == |sent|
    && (forall i, k :: 0 <= i < k < |acks| ==> acks[i].eventId != acks[k].eventId)
    && (forall i :: 0 <= i < |acks| ==> AckShape(acks[i], wellFormed))
    && (forall i :: 0 <= i < |sent| ==> Answered(sent[i], response))
  }

  predicate Indexes(known: map<string, Ack>, acks: seq<Ack>) {
    && (forall k :: 0 <= k < |acks| ==> acks[k].eventId in known && known[acks[k].eventId] == acks[k])
    && (forall id :: id in known ==> known[id] in acks && known[id].eventId == id)
  }

  /** The first loop of validateAck: acknowledgements by id, none twice. */
  method IndexAcks(acks: seq<Ack>, wellFormed: Ack -> bool) returns (byId: Option<map<string, Ack>>)
    ensures byId.Some? <==>
              (forall i, k :: 0 <= i < k < |acks| ==> acks[i].eventId != acks[k].eventId)
              && (forall i :: 0 <= i < |acks| ==> AckShape(acks[i], wellFormed))
    ensures byId.Some? ==> Indexes(byId.value, acks)
  {
    var known: map<string, Ack> := map[];
    for i := 0 to |acks|
      invariant Indexes(known, acks[..i])
      invariant forall k :: 0 <= k < i ==> AckShape(acks[k], wellFormed)
      invariant forall j, k :: 0 <= j < k < i ==> acks[j].eventId != acks[k].eventId
    {
      if acks[i].eventId in known {
        var j :| 0 <= j < i && acks[j] == known[acks[i].eventId];
        return None;
      }
      assert acks[..i + 1] == acks[..i] + [acks[i]];
      known := known[acks[i].eventId := acks[i]];
      if acks[i].status == Other || !wellFormed(acks[i]) { return None; }
    }
    assert acks[..|acks|] == acks;
    return Some(known);
  }

  /** validateAck: the checks on the whole reply, then one lookup per sent event. */
  method ValidateAck(request: Request, response: Response, wellFormed: Ack -> bool) returns (byId: Option<map<string, Ack>>)
    ensures byId.Some? <==> GoodReply(request, response, wellFormed)
    ensures byId.Some? ==> Indexes(byId.value, response.acknowledgements)
    ensures byId.Some? ==> forall i :: 0 <= i < |request.events| ==>
              request.events[i].eventId in byId.value
              && Answers(request.events[i], byId.value[request.events[i].eventId], response.serverHead)
  {
    hide Answers, Answered, AckShape, Indexes;
    var sent, head := request.events, response.serverHead;
    if response.protocolVersion != 1 || response.requestId != request.requestId || response.scope != request.scope { return None; }
    if !response.committed { return None; }
    if head.sequence < 0 || head.sequence > MAX_SAFE_INTEGER || (head.sequence == 0) != head.hash.None? { return None; }
    if |response.acknowledgements| != |sent| { return None; }
    var known := IndexAcks(response.acknowledgements, wellFormed);
    if known.None? { return None; }
    for i := 0 to |sent|
      invariant forall m :: 0 <= m < i ==> Answered(sent[m], response)
      invariant forall m :: 0 <= m < i ==>
        sent[m].eventId in known.value && Answers(sent[m], known.value[sent[m].eventId], response.serverHead)
    {
      KnownAnswers(sent[i], response, known.value);
      if sent[i].eventId !in known.value { return None; }
      var answers := CheckAnswer(sent[i], known.value[sent[i].eventId], head);
      if !answers { return None; }
    }
    return known;
  }

  /** What the second loop of validateAck compares. */
  method CheckAnswer(event: Event, ack: Ack, head: ServerHead) returns (ok: bool)
    requires ack.eventId == event.eventId
    ensures ok <==> Answers(event, ack, head)
  {
    if ack.sequence != event.sequence || ack.hash != event.hash || ack.transportFingerprint != event.transportFingerprint { return false; }
    if event.sequence.None? { return ack.hash.None?; }
    var sequence := event.sequence.value;
    if sequence < 0 || sequence > MAX_SAFE_INTEGER || ack.hash.None? || head.sequence < sequence { return false; }
    return !(head.sequence == sequence && head.hash != ack.hash);
  }

  lemma {:induction false} KnownAnswers(event: Event, response: Response, known: map<string, Ack>)
    requires Indexes(known, response.acknowledgements)
    ensures Answered(event, response) <==>
            event.eventId in known && Answers(event, known[event.eventId], response.serverHead)
    ensures event.eventId in known ==> known[event.eventId].eventId == event.eventId
  {
  }

  /**
   An accepted reply matches the sent events one to one: no acknowledgement answers two
   events, none is left over, and the head is not behind any of them.
   */
  lemma {:induction false} RepliesAreOneToOne(request: Request, response: Response, wellFormed: Ack -> bool, k: nat)
    requires GoodReply(request, response, wellFormed)
    requires forall i, j :: 0 <= i < j < |request.events| ==> request.events[i].eventId != request.events[j].eventId
    requires k < |response.acknowledgements|
    ensures exists i :: 0 <= i < |request.events| && Answers(request.events[i], response.acknowledgements[k], response.serverHead)
    ensures forall i, j :: 0 <= i < |request.events| && 0 <= j < |request.events| ==>
              Answers(request.events[i], response.acknowledgements[k], response.serverHead) ==>
              Answers(request.events[j], response.acknowledgements[k], response.serverHead) ==> i == j
  {
    var sent, acks := request.events, response.acknowledgements;
    var sentIds, ackIds := Ids(sent, (e: Event) => e.eventId), Ids(acks, (a: Ack) => a.eventId);
    IdsCount(sent, (e: Event) => e.eventId);
    IdsCount(acks, (a: Ack) => a.eventId);
    assert sentIds <= ackIds by {
      forall id | id in sentIds ensures id in ackIds {
        var i :| 0 <= i < |sent| && sent[i].eventId == id;
        assert Answered(sent[i], response);
        var m :| 0 <= m < |acks| && Answers(sent[i], acks[m], response.serverHead);
      }
    }
    SubsetOfSameSize(sentIds, ackIds);
    assert acks[k].eventId in sentIds;
    var i :| 0 <= i < |sent| && sent[i].eventId == acks[k].eventId;
    assert Answered(sent[i], response);
    var m :| 0 <= m < |acks| && Answers(sent[i], acks[m], response.serverHead);
    assert m == k;
  }

  lemma {:induction false} SubsetOfSameSize(a: set<string>, b: set<string>)
    requires a <= b && |a| == |b|
    ensures a == b
  {
    assert |b - a| == |b| - |a|;
  }

  function Ids<T>(xs: seq<T>, id: T -> string): set<string> { set i | 0 <= i < |xs| :: id(xs[i]) }

  /** Distinct ids are as many as the elements that carry them. */
  lemma {:induction false} IdsCount<T>(xs: seq<T>, id: T -> string)
    requires forall i, k :: 0 <= i < k < |xs| ==> id(xs[i]) != id(xs[k])
    ensures |Ids(xs, id)| == |xs|
  {
    if xs != [] {
      var n := |xs| - 1;
      IdsCount(xs[..n], id);
      assert Ids(xs, id) == Ids(xs[..n], id) + {id(xs[n])} by {
        forall i | 0 <= i < n ensures xs[..n][i] == xs[i] {}
      }
    }
  }
}
