/**
 The server's ledger (server/src/persistence/store.ts, persistLedger): what a batch does to
 the stored chain, and what the right batches of a client do to it.
 */
module ServerStore {
  import opened Ledger
  import opened OutboxRows
  import opened Outbox
  import opened Acks
  import opened OutboxStore

  datatype Refusal =
    | EVENT_CONTENT_CONFLICT
    | SEQUENCE_FORK
    | MISSING_PREDECESSOR
    | HEAD_MOVED
    | DUPLICATE_ORDER_OTHER_CHAIN
    | DEPENDENCY_MISSING
    | SCOPE_DENIED
    | BUSINESS_INCONSISTENCY

  datatype Outcome = Committed(chain: seq<Entry>, statuses: seq<AckStatus>) | Refused(code: Refusal)

  /** checkReferences and validateBusiness against the stored prefix; None is acceptance. */
  type Judge = (seq<Entry>, Entry) -> Option<Refusal>

  function FindId(chain: seq<Entry>, id: string): (found: Option<Entry>)
    ensures found.Some? ==> found.value in chain && found.value.Id() == id
    ensures found.None? ==> forall n :: 0 <= n < |chain| ==> chain[n].Id() != id
  {
    if chain == [] then None
    else if chain[|chain| - 1].Id() == id then Some(chain[|chain| - 1])
    else FindId(chain[..|chain| - 1], id)
  }

  // ----- Identity -----

  /** Another stored event has this sequence. */
  predicate SequenceTaken(chain: seq<Entry>, e: Entry) {
    exists n :: 0 <= n < |chain| && chain[n].Sequence() == e.Sequence() && chain[n].Id() != e.Id()
  }

  predicate SellsOrder(e: Entry, id: string) { e.Body().Sale? && e.Body().order.id == id }

  predicate OrderSold(entries: seq<Entry>, id: string) {
    exists n :: 0 <= n < |entries| && SellsOrder(entries[n], id)
  }

  /** Two operations of one kind with one key; sales are compared by their order instead. */
  predicate SameOperation(a: Entry, b: Entry) {
    !a.Body().Sale? && SameKind(a.Body(), b.Body()) && OperationKey(a.Body()) == OperationKey(b.Body())
  }

  function KindOf(body: Body): nat {
    match body case Sale(_) => 0 case Correction(_) => 1 case SessionOpened(_) => 2 case FloatUpdated(_) => 3 case Closure(_) => 4
  }

  /** `${kind}:${operationId}` */
  function KeyOf(e: Entry): (nat, string) { (KindOf(e.Body()), OperationKey(e.Body())) }

  predicate OperationTaken(entries: seq<Entry>, e: Entry) {
    exists n :: 0 <= n < |entries| && SameOperation(entries[n], e)
  }

  /** What is wrong with the identity of one event; `sold` are the orders of other chains and of older sales. */
  function IdentityFault(chain: seq<Entry>, earlier: seq<Entry>, e: Entry, sold: string -> bool): Option<Refusal> {
    var existing := FindId(chain, e.Id());
    if existing.Some? && existing.value != e then Some(EVENT_CONTENT_CONFLICT)
    else if SequenceTaken(chain, e) then Some(SEQUENCE_FORK)
    else if existing.None? && e.Body().Sale?
            && (OrderSold(earlier, e.Body().order.id) || OrderSold(chain, e.Body().order.id) || sold(e.Body().order.id))
    then Some(DUPLICATE_ORDER_OTHER_CHAIN)
    else if existing.None? && (OperationTaken(earlier, e) || OperationTaken(chain, e)) then Some(EVENT_CONTENT_CONFLICT)
    else None
  }

  /** The first pass, from the left. */
  function FirstPass(chain: seq<Entry>, events: seq<Entry>, n: nat, sold: string -> bool): Option<Refusal>
    requires n <= |events|
    decreases |events| - n
  {
    if n == |events| then None
    else
      var fault := IdentityFault(chain, events[..n], events[n], sold);
      if fault.Some? then fault else FirstPass(chain, events, n + 1, sold)
  }

  predicate Contiguous(events: seq<Entry>) {
    forall n :: 0 < n < |events| ==> events[n].Sequence() == events[n - 1].Sequence() + 1
  }

  // ----- The two passes -----

  /** The second pass, from one event on. */
  function Persist(chain: seq<Entry>, expected: ServerHead, events: seq<Entry>, added: bool, judge: Judge, sold: string -> bool): Outcome
    decreases |events|
  {
    if events == [] then Committed(chain, [])
    else
      var e := events[0];
      var existing := FindId(chain, e.Id());
      if existing.Some? then
        if added || existing.value != e then Refused(EVENT_CONTENT_CONFLICT)
        else Tagged(AlreadyPresent, Persist(chain, expected, events[1..], added, judge, sold))
      else
        var fault := NewFault(chain, expected, e, added, judge, sold);
        if fault.Some? then Refused(fault.value)
        else Tagged(Accepted, Persist(chain + [e], expected, events[1..], true, judge, sold))
  }

  /** The checks on an event that is not stored yet. */
  function NewFault(chain: seq<Entry>, expected: ServerHead, e: Entry, added: bool, judge: Judge, sold: string -> bool): Option<Refusal> {
    if exists n :: 0 <= n < |chain| && chain[n].Sequence() == e.Sequence() then Some(SEQUENCE_FORK)
    else if e.Sequence() > |chain| + 1 then Some(MISSING_PREDECESSOR)
    else if e.Sequence() != |chain| + 1 || e.content.previousHash != Head(chain) then Some(SEQUENCE_FORK)
    else if !added && expected != ServerHead(|chain|, Head(chain)) then Some(HEAD_MOVED)
    else if OperationTaken(chain, e) then Some(EVENT_CONTENT_CONFLICT)
    else if judge(chain, e).Some? then judge(chain, e)
    else if e.Body().Sale? && (OrderSold(chain, e.Body().order.id) || sold(e.Body().order.id)) then Some(DUPLICATE_ORDER_OTHER_CHAIN)
    else None
  }

  function Tagged(status: AckStatus, rest: Outcome): Outcome {
    match rest case Committed(chain, statuses) => Committed(chain, [status] + statuses) case Refused(_) => rest
  }

  /** The whole of persistLedger on a non-empty batch of distinct events. */
  function PersistAll(chain: seq<Entry>, expected: ServerHead, events: seq<Entry>, judge: Judge, sold: string -> bool): Outcome {
    var fault := FirstPass(chain, events, 0, sold);
    if fault.Some? then Refused(fault.value)
    else if !Contiguous(events) then Refused(MISSING_PREDECESSOR)
    else Persist(chain, expected, events, false, judge, sold)
  }

  /** The first loop, with its `orders`, `operations` and `sessions` sets of what the batch brings. */
  method CheckIdentities(chain: seq<Entry>, events: seq<Entry>, sold: string -> bool) returns (fault: Option<Refusal>)
    ensures fault == FirstPass(chain, events, 0, sold)
  {
    hide SequenceTaken;
    var orders: set<string> := {};
    var operations: set<(nat, string)> := {};
    for i := 0 to |events|
      invariant FirstPass(chain, events, 0, sold) == FirstPass(chain, events, i, sold)
      invariant orders == set k | 0 <= k < i && events[k].Body().Sale? :: events[k].Body().order.id
      invariant operations == set k | 0 <= k < i && FindId(chain, events[k].Id()).None? && !events[k].Body().Sale? :: KeyOf(events[k])
      invariant forall k :: 0 <= k < i && FindId(chain, events[k].Id()).Some? ==> events[k] in chain
    {
      var e := events[i];
      KnownOrders(events[..i], orders, e);
      KnownOperations(chain, events[..i], operations, e);
      var existing := FindId(chain, e.Id());
      if existing.Some? && existing.value != e { return Some(EVENT_CONTENT_CONFLICT); }
      if SequenceTaken(chain, e) { return Some(SEQUENCE_FORK); }
      if existing.None? && e.Body().Sale?
         && (e.Body().order.id in orders || OrderSold(chain, e.Body().order.id) || sold(e.Body().order.id)) {
        return Some(DUPLICATE_ORDER_OTHER_CHAIN);
      }
      if e.Body().Sale? { orders := orders + {e.Body().order.id}; }
      if existing.None? && !e.Body().Sale? {
        if KeyOf(e) in operations || OperationTaken(chain, e) { return Some(EVENT_CONTENT_CONFLICT); }
        operations := operations + {KeyOf(e)};
      }
    }
    return None;
  }

  lemma {:induction false} KnownOrders(earlier: seq<Entry>, orders: set<string>, e: Entry)
    requires orders == set k | 0 <= k < |earlier| && earlier[k].Body().Sale? :: earlier[k].Body().order.id
    ensures e.Body().Sale? ==> (e.Body().order.id in orders <==> OrderSold(earlier, e.Body().order.id))
  {
    if e.Body().Sale? && e.Body().order.id in orders {
      var k :| 0 <= k < |earlier| && earlier[k].Body().Sale? && earlier[k].Body().order.id == e.Body().order.id;
      assert SellsOrder(earlier[k], e.Body().order.id);
    }
    if e.Body().Sale? && OrderSold(earlier, e.Body().order.id) {
      var k :| 0 <= k < |earlier| && SellsOrder(earlier[k], e.Body().order.id);
      assert earlier[k].Body().order.id in orders;
    }
  }

  lemma {:induction false} KeysMatch(a: Entry, b: Entry)
    ensures KeyOf(a) == KeyOf(b) <==> SameKind(a.Body(), b.Body()) && OperationKey(a.Body()) == OperationKey(b.Body())
  {
    assert KindOf(a.Body()) == KindOf(b.Body()) <==> SameKind(a.Body(), b.Body());
  }

  /** Earlier events that are stored already are found in the chain itself. */
  lemma {:induction false} KnownOperations(chain: seq<Entry>, earlier: seq<Entry>, operations: set<(nat, string)>, e: Entry)
    requires operations == set k | 0 <= k < |earlier| && FindId(chain, earlier[k].Id()).None? && !earlier[k].Body().Sale? :: KeyOf(earlier[k])
    requires forall k :: 0 <= k < |earlier| && FindId(chain, earlier[k].Id()).Some? ==> earlier[k] in chain
    ensures !e.Body().Sale? ==>
              (KeyOf(e) in operations || OperationTaken(chain, e) <==> OperationTaken(earlier, e) || OperationTaken(chain, e))
    ensures e.Body().Sale? ==> !OperationTaken(earlier, e) && !OperationTaken(chain, e)
  {
    if !e.Body().Sale? && KeyOf(e) in operations {
      var k :| 0 <= k < |earlier| && !earlier[k].Body().Sale? && KeyOf(earlier[k]) == KeyOf(e);
      KeysMatch(earlier[k], e);
      assert SameOperation(earlier[k], e);
    }
    if !e.Body().Sale? && OperationTaken(earlier, e) {
      var k :| 0 <= k < |earlier| && SameOperation(earlier[k], e);
      KeysMatch(earlier[k], e);
      if FindId(chain, earlier[k].Id()).Some? {
        var n :| 0 <= n < |chain| && chain[n] == earlier[k];
        assert SameOperation(chain[n], e);
      } else {
        assert KeyOf(earlier[k]) in operations;
      }
    }
  }

  /** Both loops: nothing is stored when any event is refused. */
  method PersistLedger(chain: seq<Entry>, expected: ServerHead, events: seq<Entry>, judge: Judge, sold: string -> bool)
      returns (outcome: Outcome)
    ensures outcome == PersistAll(chain, expected, events, judge, sold)
  {
    hide FirstPass;
    var identity := CheckIdentities(chain, events, sold);
    if identity.Some? { return Refused(identity.value); }
    if !Contiguous(events) { return Refused(MISSING_PREDECESSOR); }
    var head, added, statuses := chain, false, [];
    assert events[0..] == events;
    for i := 0 to |events|
      invariant Persist(chain, expected, events, false, judge, sold)
             == TaggedAll(statuses, Persist(head, expected, events[i..], added, judge, sold))
    {
      var e := events[i];
      assert events[i..][0] == e && events[i..][1..] == events[i + 1..];
      TaggedOne(statuses, AlreadyPresent, Persist(head, expected, events[i + 1..], added, judge, sold));
      TaggedOne(statuses, Accepted, Persist(head + [e], expected, events[i + 1..], true, judge, sold));
      var existing := FindId(head, e.Id());
      if existing.Some? {
        if added || existing.value != e { return Refused(EVENT_CONTENT_CONFLICT); }
        statuses := statuses + [AlreadyPresent];
      } else {
        var refusal := NewFault(head, expected, e, added, judge, sold);
        if refusal.Some? { return Refused(refusal.value); }
        head, added, statuses := head + [e], true, statuses + [Accepted];
      }
    }
    assert events[|events|..] == [];
    assert statuses + [] == statuses;
    return Committed(head, statuses);
  }

  function TaggedAll(statuses: seq<AckStatus>, rest: Outcome): Outcome {
    match rest case Committed(chain, more) => Committed(chain, statuses + more) case Refused(_) => rest
  }

  lemma {:induction false} TaggedOne(statuses: seq<AckStatus>, status: AckStatus, rest: Outcome)
    ensures TaggedAll(statuses, Tagged(status, rest)) == TaggedAll(statuses + [status], rest)
  {
  }

  // ----- A right batch against a prefix of the journal -----

  /** Every id is the id of its body, so one operation has one entry. */
  ghost predicate KeyedLedger(ledger: seq<Entry>) {
    JournalShape(ledger) && forall n :: 0 <= n < |ledger| ==> ledger[n].Id() == EntryId(ledger[n].Body())
  }

  /** No order of these entries is sold elsewhere. */
  predicate SoldHereOnly(ledger: seq<Entry>, sold: string -> bool) {
    forall n :: 0 <= n < |ledger| && ledger[n].Body().Sale? ==> !sold(ledger[n].Body().order.id)
  }

  /** The server judges well every entry of the journal over the entries before it. */
  ghost predicate JudgesWell(ledger: seq<Entry>, judge: Judge) {
    forall n :: 0 <= n < |ledger| ==> judge(ledger[..n], ledger[n]).None?
  }

  lemma {:induction false} FoundInPrefix(ledger: seq<Entry>, h: nat, n: nat)
    requires JournalShape(ledger) && h <= |ledger| && n < |ledger|
    ensures FindId(ledger[..h], ledger[n].Id()) == if n < h then Some(ledger[n]) else None
  {
    var found := FindId(ledger[..h], ledger[n].Id());
    if n < h {
      assert ledger[..h][n].Id() == ledger[n].Id();
    }
    if found.Some? {
      var m :| 0 <= m < h && ledger[..h][m] == found.value;
      assert ledger[m].Id() == ledger[n].Id();
    }
  }

  /** Entries of one journal never share an operation or an order. */
  lemma {:induction false} OperationsDiffer(ledger: seq<Entry>, m: nat, n: nat)
    requires KeyedLedger(ledger) && m < |ledger| && n < |ledger| && m != n
    ensures !SameOperation(ledger[m], ledger[n])
    ensures ledger[n].Body().Sale? ==> !SellsOrder(ledger[m], ledger[n].Body().order.id)
  {
    SameBodyId(ledger[m].Body(), ledger[n].Body());
    assert ledger[m].Id() != ledger[n].Id();
  }

  lemma {:induction false} SameBodyId(a: Body, b: Body)
    ensures SameKind(a, b) && OperationKey(a) == OperationKey(b) ==> EntryId(a) == EntryId(b)
  {
  }

  /** Over any part of the journal without it, an entry meets no operation or order of its own. */
  lemma {:induction false} PartIsFresh(ledger: seq<Entry>, a: nat, b: nat, n: nat)
    requires KeyedLedger(ledger) && a <= b <= |ledger| && n < |ledger| && !(a <= n < b)
    ensures !OperationTaken(ledger[a..b], ledger[n])
    ensures ledger[n].Body().Sale? ==> !OrderSold(ledger[a..b], ledger[n].Body().order.id)
  {
    hide KeyedLedger, SameOperation, SellsOrder;
    forall i | 0 <= i < b - a
      ensures !SameOperation(ledger[a..b][i], ledger[n])
      ensures ledger[n].Body().Sale? ==> !SellsOrder(ledger[a..b][i], ledger[n].Body().order.id)
    {
      OperationsDiffer(ledger, a + i, n);
    }
  }

  lemma {:induction false} SequenceIsOwn(ledger: seq<Entry>, h: nat, n: nat)
    requires JournalShape(ledger) && h <= |ledger| && n < |ledger|
    ensures !SequenceTaken(ledger[..h], ledger[n])
  {
  }

  lemma {:induction false} OneIdentity(ledger: seq<Entry>, h: nat, k: nat, n: nat, sold: string -> bool)
    requires KeyedLedger(ledger) && SoldHereOnly(ledger, sold) && h <= |ledger| && k <= n < |ledger|
    ensures IdentityFault(ledger[..h], ledger[k..n], ledger[n], sold).None?
  {
    hide KeyedLedger, FindId, SequenceTaken, OperationTaken, OrderSold;
    assert JournalShape(ledger) by { KeyedIsShaped(ledger); }
    FoundInPrefix(ledger, h, n);
    SequenceIsOwn(ledger, h, n);
    PartIsFresh(ledger, k, n, n);
    assert ledger[..h] == ledger[0..h];
    if h <= n { PartIsFresh(ledger, 0, h, n); }
  }

  lemma {:induction false} KeyedIsShaped(ledger: seq<Entry>)
    requires KeyedLedger(ledger)
    ensures JournalShape(ledger)
  {
  }

  /** No event of the journal has an identity fault over a stored prefix of it. */
  lemma {:induction false} NoIdentityFault(ledger: seq<Entry>, h: nat, k: nat, j: nat, i: nat, sold: string -> bool)
    requires KeyedLedger(ledger) && SoldHereOnly(ledger, sold) && h <= |ledger| && k <= j <= |ledger| && i <= j - k
    ensures FirstPass(ledger[..h], ledger[k..j], i, sold).None?
    decreases j - k - i
  {
    hide KeyedLedger, SoldHereOnly, IdentityFault;
    if i < j - k {
      assert ledger[k..j][i] == ledger[k + i] && ledger[k..j][..i] == ledger[k..k + i];
      OneIdentity(ledger, h, k, k + i, sold);
      NoIdentityFault(ledger, h, k, j, i + 1, sold);
    }
  }

  lemma {:induction false} JournalIsContiguous(ledger: seq<Entry>, k: nat, j: nat)
    requires JournalShape(ledger) && k <= j <= |ledger|
    ensures Contiguous(ledger[k..j])
  {
  }

  /** Events already stored are confirmed again and change nothing. */
  lemma {:induction false} Replayed(ledger: seq<Entry>, h: nat, k: nat, m: nat, j: nat, expected: ServerHead, judge: Judge, sold: string -> bool)
    requires JournalShape(ledger) && k <= m <= j <= |ledger| && m <= h <= |ledger|
    ensures var rest := Persist(ledger[..h], expected, ledger[m..j], false, judge, sold);
            var whole := Persist(ledger[..h], expected, ledger[k..j], false, judge, sold);
            rest.Refused? ==> whole == rest
    ensures var rest := Persist(ledger[..h], expected, ledger[m..j], false, judge, sold);
            var whole := Persist(ledger[..h], expected, ledger[k..j], false, judge, sold);
            rest.Committed? ==> whole.Committed? && whole.chain == rest.chain && |whole.statuses| == |rest.statuses| + (m - k)
    decreases m - k
  {
    hide NewFault;
    if k < m {
      FoundInPrefix(ledger, h, k);
      assert ledger[k..j][0] == ledger[k] && ledger[k..j][1..] == ledger[k + 1..j];
      Replayed(ledger, h, k + 1, m, j, expected, judge, sold);
    }
  }

  /** The entry after the head is new and without fault, once the head was the expected one or an event was added. */
  lemma {:induction false} NextHasNoFault(ledger: seq<Entry>, h: nat, expected: ServerHead, added: bool, judge: Judge, sold: string -> bool)
    requires KeyedLedger(ledger) && SoldHereOnly(ledger, sold) && JudgesWell(ledger, judge) && h < |ledger|
    requires added || expected == ServerHead(h, Head(ledger[..h]))
    ensures FindId(ledger[..h], ledger[h].Id()).None?
    ensures NewFault(ledger[..h], expected, ledger[h], added, judge, sold).None?
  {
    hide FindId, OperationTaken, OrderSold, Head;
    FoundInPrefix(ledger, h, h);
    assert ledger[..h] == ledger[0..h];
    PartIsFresh(ledger, 0, h, h);
  }

  /** New events extend the chain one by one. */
  lemma {:induction false} Appended(ledger: seq<Entry>, h: nat, j: nat, expected: ServerHead, added: bool, judge: Judge, sold: string -> bool)
    requires KeyedLedger(ledger) && SoldHereOnly(ledger, sold) && JudgesWell(ledger, judge) && h <= j <= |ledger|
    requires added || expected == ServerHead(h, Head(ledger[..h]))
    ensures var outcome := Persist(ledger[..h], expected, ledger[h..j], added, judge, sold);
            outcome.Committed? && outcome.chain == ledger[..j] && |outcome.statuses| == j - h
    decreases j - h
  {
    hide KeyedLedger, SoldHereOnly, JudgesWell, NewFault, FindId, Head;
    if h < j {
      assert ledger[h..j][0] == ledger[h] && ledger[h..j][1..] == ledger[h + 1..j];
      assert ledger[..h] + [ledger[h]] == ledger[..h + 1];
      NextHasNoFault(ledger, h, expected, added, judge, sold);
      Appended(ledger, h + 1, j, expected, true, judge, sold);
    } else {
      assert ledger[h..j] == [];
    }
  }

  /**
   What a batch k..j of the journal, expecting its predecessor as head, does to a server
   holding the first h entries: a stored batch is confirmed again, the next one is added,
   a gap is refused, and a batch that starts before the head and ends after it is refused
   as well. In every case the stored chain stays a prefix of the journal.
   */
  lemma {:induction false} BatchOutcome(ledger: seq<Entry>, h: nat, k: nat, j: nat, judge: Judge, sold: string -> bool)
    requires KeyedLedger(ledger) && SoldHereOnly(ledger, sold) && JudgesWell(ledger, judge) && h <= |ledger| && k < j <= |ledger|
    ensures var outcome := PersistAll(ledger[..h], ServerHead(k, Head(ledger[..k])), ledger[k..j], judge, sold);
            && (j <= h ==> outcome.Committed? && outcome.chain == ledger[..h])
            && (k == h ==> outcome.Committed? && outcome.chain == ledger[..j])
            && (h < k ==> outcome == Refused(MISSING_PREDECESSOR))
            && (k < h < j ==> outcome == Refused(HEAD_MOVED))
            && (outcome.Committed? ==> |outcome.statuses| == j - k)
  {
    hide FirstPass, OperationTaken, OrderSold;
    var expected := ServerHead(k, Head(ledger[..k]));
    NoIdentityFault(ledger, h, k, j, 0, sold);
    JournalIsContiguous(ledger, k, j);
    if j <= h {
      Replayed(ledger, h, k, j, j, expected, judge, sold);
      assert ledger[j..j] == [];
    } else if k == h {
      Appended(ledger, h, j, expected, false, judge, sold);
    } else if h < k {
      FoundInPrefix(ledger, h, k);
      assert ledger[k..j][0] == ledger[k];
    } else {
      Replayed(ledger, h, k, h, j, expected, judge, sold);
      FoundInPrefix(ledger, h, h);
      assert ledger[h..j][0] == ledger[h];
    }
  }
}
