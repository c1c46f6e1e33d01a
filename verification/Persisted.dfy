/**
 What persistLedger stores and what it refuses (server/src/persistence/store.ts:239-429), said
 of the whole batch: an independent account of both of its passes.
 */
module Persisted {
  import opened Ledger
  import opened Outbox
  import opened Acks
  import opened ServerStore

  /** What has to hold of an event that is added behind a stored prefix. */
  ghost predicate Addable(prefix: seq<Entry>, e: Entry, judge: Judge, sold: string -> bool) {
    && e.Sequence() == |prefix| + 1
    && e.content.previousHash == (if prefix == [] then None else Some(prefix[|prefix| - 1].hash))
    && (forall n :: 0 <= n < |prefix| ==> prefix[n].Id() != e.Id() && prefix[n].Sequence() != e.Sequence())
    && (forall n :: 0 <= n < |prefix| ==> !SharesOperation(prefix[n], e))
    && judge(prefix, e) == None
    && (e.Body().Sale? ==> !sold(e.Body().order.id))
  }

  /** The same order sold twice, or the same operation recorded twice under one kind. */
  predicate SharesOperation(a: Entry, b: Entry) {
    match (a.Body(), b.Body())
    case (Sale(x), Sale(y)) => x.id == y.id
    case (Correction(x), Correction(y)) => x.operationId == y.operationId
    case (SessionOpened(x), SessionOpened(y)) => x.sessionId == y.sessionId
    case (FloatUpdated(x), FloatUpdated(y)) => x.operationId == y.operationId
    case (Closure(x), Closure(y)) => x.operationId == y.operationId
    case _ => false
  }

  /** The first m events are stored already; the others are added behind the chain, one after another. */
  ghost predicate SplitAt(chain: seq<Entry>, expected: ServerHead, events: seq<Entry>, m: nat, judge: Judge, sold: string -> bool) {
    && m <= |events|
    && (forall i :: 0 <= i < m ==> events[i] in chain)
    && (forall i :: m <= i < |events| ==> Addable(chain + events[m..i], events[i], judge, sold))
    && (m < |events| ==> expected == ServerHead(|chain|, if chain == [] then None else Some(chain[|chain| - 1].hash)))
  }

  ghost predicate CommittedAs(chain: seq<Entry>, events: seq<Entry>, m: nat, outcome: Outcome)
    requires m <= |events|
  {
    && outcome.Committed?
    && outcome.chain == chain + events[m..]
    && |outcome.statuses| == |events|
    && forall i :: 0 <= i < |events| ==> outcome.statuses[i] == if i < m then AlreadyPresent else Accepted
  }

  lemma {:induction false} OperationsAre(a: Entry, b: Entry)
    ensures SharesOperation(a, b) <==> SameOperation(a, b) || (b.Body().Sale? && SellsOrder(a, b.Body().order.id))
  {
  }

  lemma {:induction false} TakenOrSold(prefix: seq<Entry>, e: Entry)
    ensures (forall n :: 0 <= n < |prefix| ==> !SharesOperation(prefix[n], e)) <==>
              !OperationTaken(prefix, e) && (e.Body().Sale? ==> !OrderSold(prefix, e.Body().order.id))
  {
    hide SameOperation, SharesOperation, SellsOrder;
    forall n | 0 <= n < |prefix|
      ensures SharesOperation(prefix[n], e) <==>
                SameOperation(prefix[n], e) || (e.Body().Sale? && SellsOrder(prefix[n], e.Body().order.id))
    {
      OperationsAre(prefix[n], e);
    }
  }

  lemma {:induction false} AbsentIs(prefix: seq<Entry>, id: string)
    ensures FindId(prefix, id).None? <==> forall n :: 0 <= n < |prefix| ==> prefix[n].Id() != id
  {
    if FindId(prefix, id).Some? {
      var n :| 0 <= n < |prefix| && prefix[n] == FindId(prefix, id).value;
    }
  }

  /** The checks on a new event, said at once. */
  lemma {:induction false} AddableIs(prefix: seq<Entry>, expected: ServerHead, e: Entry, added: bool, judge: Judge, sold: string -> bool)
    ensures FindId(prefix, e.Id()).None? && NewFault(prefix, expected, e, added, judge, sold).None? <==>
              Addable(prefix, e, judge, sold) && (added || expected == ServerHead(|prefix|, Head(prefix)))
  {
    hide OperationTaken, OrderSold, FindId;
    AbsentIs(prefix, e.Id());
    TakenOrSold(prefix, e);
  }

  /** Once something was added, everything is. */
  lemma {:induction false} AddedOnly(chain: seq<Entry>, expected: ServerHead, events: seq<Entry>, judge: Judge, sold: string -> bool)
    ensures Persist(chain, expected, events, true, judge, sold).Committed? <==>
              forall i :: 0 <= i < |events| ==> Addable(chain + events[..i], events[i], judge, sold)
    ensures Persist(chain, expected, events, true, judge, sold).Committed? ==>
              CommittedAs(chain, events, 0, Persist(chain, expected, events, true, judge, sold))
    decreases |events|
  {
    hide NewFault, Addable, FindId;
    if events != [] {
      var e, rest := events[0], events[1..];
      AddableIs(chain, expected, e, true, judge, sold);
      AddedOnly(chain + [e], expected, rest, judge, sold);
      assert chain + events[..0] == chain;
      forall i | 1 <= i < |events| ensures chain + events[..i] == chain + [e] + rest[..i - 1] && events[i] == rest[i - 1] {
      }
      assert chain + [e] + rest[0..] == chain + events[0..];
      if forall i :: 0 <= i < |events| ==> Addable(chain + events[..i], events[i], judge, sold) {
        assert Addable(chain + events[..0], events[0], judge, sold);
        forall i | 0 <= i < |rest| ensures Addable(chain + [e] + rest[..i], rest[i], judge, sold) {
          assert Addable(chain + events[..i + 1], events[i + 1], judge, sold);
        }
      }
      if Persist(chain, expected, events, true, judge, sold).Committed? {
        forall i | 0 <= i < |events| ensures Addable(chain + events[..i], events[i], judge, sold) {
          if i > 0 { assert Addable(chain + [e] + rest[..i - 1], rest[i - 1], judge, sold); }
        }
      }
    }
  }

  /** Events that are stored already are passed over until the first new one. */
  lemma {:induction false} SplitPersists(chain: seq<Entry>, expected: ServerHead, events: seq<Entry>, m: nat, judge: Judge, sold: string -> bool)
    requires m <= |events| && forall i :: 0 <= i < m ==> FindId(chain, events[i].Id()) == Some(events[i])
    requires m < |events| ==> FindId(chain, events[m].Id()).None?
    ensures var outcome := Persist(chain, expected, events, false, judge, sold);
            && (outcome.Committed? <==> SplitAt(chain, expected, events, m, judge, sold))
            && (outcome.Committed? ==> CommittedAs(chain, events, m, outcome))
    decreases m
  {
    hide NewFault, Addable, FindId;
    if m > 0 {
      var e, rest := events[0], events[1..];
      assert forall i :: 0 <= i < m - 1 ==> rest[i] == events[i + 1];
      SplitPersists(chain, expected, rest, m - 1, judge, sold);
      assert rest[m - 1..] == events[m..];
      assert FindId(chain, events[0].Id()) == Some(events[0]);
      SplitShifts(chain, expected, events, m, judge, sold);
    } else if events != [] {
      var e, rest := events[0], events[1..];
      AddableIs(chain, expected, e, false, judge, sold);
      AddedOnly(chain + [e], expected, rest, judge, sold);
      assert chain + [e] + rest[0..] == chain + events[0..];
      FirstAdded(chain, expected, events, judge, sold);
    }
  }

  /** No two stored entries share an id. */
  ghost predicate StoredOnce(chain: seq<Entry>) { forall i, k :: 0 <= i < k < |chain| ==> chain[i].Id() != chain[k].Id() }

  lemma {:induction false} FoundOnce(chain: seq<Entry>, e: Entry)
    requires StoredOnce(chain)
    ensures e in chain <==> FindId(chain, e.Id()) == Some(e)
  {
    if e in chain {
      var n :| 0 <= n < |chain| && chain[n] == e;
      var found := FindId(chain, e.Id());
      assert found.Some?;
      var k :| 0 <= k < |chain| && chain[k] == found.value;
      assert n == k;
    }
  }

  lemma {:induction false} Shifted(events: seq<Entry>, m: nat, i: nat)
    requires 0 < m <= i < |events|
    ensures events[m..i] == events[1..][m - 1..i - 1] && events[i] == events[1..][i - 1]
  {
    forall k | 0 <= k < i - m ensures events[m..i][k] == events[1..][m - 1..i - 1][k] {
    }
  }

  lemma {:induction false} SplitShifts(chain: seq<Entry>, expected: ServerHead, events: seq<Entry>, m: nat, judge: Judge, sold: string -> bool)
    requires 0 < m <= |events| && events[0] in chain
    ensures SplitAt(chain, expected, events, m, judge, sold) <==> SplitAt(chain, expected, events[1..], m - 1, judge, sold)
  {
    hide Addable;
    var rest := events[1..];
    forall i | m <= i < |events| ensures events[m..i] == rest[m - 1..i - 1] && events[i] == rest[i - 1] {
      Shifted(events, m, i);
    }
    if SplitAt(chain, expected, rest, m - 1, judge, sold) {
      forall i | 0 <= i < m ensures events[i] in chain {
        if i > 0 { assert rest[i - 1] in chain; }
      }
      forall i | m <= i < |events| ensures Addable(chain + events[m..i], events[i], judge, sold) {
        assert Addable(chain + rest[m - 1..i - 1], rest[i - 1], judge, sold);
      }
    }
    if SplitAt(chain, expected, events, m, judge, sold) {
      forall i | 0 <= i < m - 1 ensures rest[i] in chain {
        assert events[i + 1] in chain;
      }
      forall i | m - 1 <= i < |rest| ensures Addable(chain + rest[m - 1..i], rest[i], judge, sold) {
        assert Addable(chain + events[m..i + 1], events[i + 1], judge, sold);
      }
    }
  }

  lemma {:induction false} FirstAdded(chain: seq<Entry>, expected: ServerHead, events: seq<Entry>, judge: Judge, sold: string -> bool)
    requires events != []
    ensures var e, rest := events[0], events[1..];
            SplitAt(chain, expected, events, 0, judge, sold) <==>
              && Addable(chain, e, judge, sold) && expected == ServerHead(|chain|, Head(chain))
              && forall i :: 0 <= i < |rest| ==> Addable(chain + [e] + rest[..i], rest[i], judge, sold)
  {
    hide Addable;
    var e, rest := events[0], events[1..];
    assert chain + events[0..0] == chain;
    forall i | 0 <= i < |rest| ensures chain + [e] + rest[..i] == chain + events[0..i + 1] && rest[i] == events[i + 1] {
    }
    if SplitAt(chain, expected, events, 0, judge, sold) {
      assert Addable(chain + events[0..0], events[0], judge, sold);
      forall i | 0 <= i < |rest| ensures Addable(chain + [e] + rest[..i], rest[i], judge, sold) {
        assert Addable(chain + events[0..i + 1], events[i + 1], judge, sold);
      }
    }
    if Addable(chain, e, judge, sold) && forall i :: 0 <= i < |rest| ==> Addable(chain + [e] + rest[..i], rest[i], judge, sold) {
      forall i | 0 <= i < |events| ensures Addable(chain + events[0..i], events[i], judge, sold) {
        if i > 0 {
          assert Addable(chain + [e] + rest[..i - 1], rest[i - 1], judge, sold);
          assert chain + [e] + rest[..i - 1] == chain + events[0..i];
        }
      }
    }
  }

  /** Where the first new event stands. */
  lemma {:induction false} FirstNew(chain: seq<Entry>, events: seq<Entry>) returns (m: nat)
    ensures m <= |events| && forall i :: 0 <= i < m ==> FindId(chain, events[i].Id()).Some?
    ensures m < |events| ==> FindId(chain, events[m].Id()).None?
  {
    m := 0;
    while m < |events| && FindId(chain, events[m].Id()).Some?
      invariant m <= |events| && forall i :: 0 <= i < m ==> FindId(chain, events[i].Id()).Some?
    {
      m := m + 1;
    }
  }

  // ----- The first pass -----

  /** Sequences count from one, as in every chain the server built. */
  ghost predicate Counted(chain: seq<Entry>) { forall n :: 0 <= n < |chain| ==> chain[n].Sequence() == n + 1 }

  lemma {:induction false} PassedFrom(chain: seq<Entry>, events: seq<Entry>, n: nat, sold: string -> bool)
    requires n <= |events|
    ensures FirstPass(chain, events, n, sold).None? <==>
              forall i :: n <= i < |events| ==> IdentityFault(chain, events[..i], events[i], sold).None?
    decreases |events| - n
  {
    hide IdentityFault;
    if n < |events| { PassedFrom(chain, events, n + 1, sold); }
  }

  /** An event the chain holds, unchanged, has no identity fault. */
  lemma {:induction false} StoredPasses(chain: seq<Entry>, earlier: seq<Entry>, e: Entry, sold: string -> bool)
    requires StoredOnce(chain) && Counted(chain) && e in chain
    ensures IdentityFault(chain, earlier, e, sold).None?
  {
    hide FindId, OperationTaken, OrderSold;
    FoundOnce(chain, e);
    var k :| 0 <= k < |chain| && chain[k] == e;
  }

  /** Nor has one that can be added. */
  lemma {:induction false} AddablePasses(chain: seq<Entry>, events: seq<Entry>, m: nat, i: nat, judge: Judge, sold: string -> bool)
    requires Counted(chain) && m <= i < |events| && (forall k :: 0 <= k < m ==> events[k] in chain)
    requires Addable(chain + events[m..i], events[i], judge, sold)
    ensures IdentityFault(chain, events[..i], events[i], sold).None?
  {
    hide FindId, OperationTaken, OrderSold, SharesOperation;
    var prefix, e := chain + events[m..i], events[i];
    forall n | 0 <= n < |chain| ensures chain[n].Id() != e.Id() && !SharesOperation(chain[n], e) {
      assert prefix[n] == chain[n];
    }
    forall k | 0 <= k < i ensures !SharesOperation(events[..i][k], e) {
      if k < m {
        assert events[k] in chain;
      } else {
        assert prefix[|chain| + (k - m)] == events[k];
      }
    }
    AbsentIs(chain, e.Id());
    TakenOrSold(chain, e);
    TakenOrSold(events[..i], e);
  }

  lemma {:induction false} Identified(chain: seq<Entry>, events: seq<Entry>, i: nat, sold: string -> bool)
    requires i < |events| && IdentityFault(chain, events[..i], events[i], sold).None?
    ensures FindId(chain, events[i].Id()).Some? ==> FindId(chain, events[i].Id()) == Some(events[i])
  {
  }

  // ----- The whole of it -----

  ghost predicate InSequence(events: seq<Entry>) {
    forall n :: 1 <= n < |events| ==> events[n].Sequence() == events[n - 1].Sequence() + 1
  }

  lemma {:induction false} ContiguousIs(events: seq<Entry>)
    ensures Contiguous(events) <==> InSequence(events)
  {
  }

  /**
   Whatever the chain, the batch and the judge: what is stored is the old chain and, behind
   it, the events that were not in it, each of them linked to the one before it, judged well
   over everything before it, and new in its operation and its order; the others are in the
   chain already, unchanged. Exactly the added ones are reported as accepted.
   */
  lemma {:induction false} StoresOnlyAddable(chain: seq<Entry>, expected: ServerHead, events: seq<Entry>, judge: Judge, sold: string -> bool)
      returns (m: nat)
    requires PersistAll(chain, expected, events, judge, sold).Committed?
    ensures SplitAt(chain, expected, events, m, judge, sold) && InSequence(events)
    ensures CommittedAs(chain, events, m, PersistAll(chain, expected, events, judge, sold))
  {
    hide NewFault, Addable, FindId, IdentityFault, Persist, FirstPass, SplitAt, CommittedAs;
    m := FirstNew(chain, events);
    PassedFrom(chain, events, 0, sold);
    ContiguousIs(events);
    forall i | 0 <= i < m ensures FindId(chain, events[i].Id()) == Some(events[i]) {
      assert IdentityFault(chain, events[..i], events[i], sold).None?;
      Identified(chain, events, i, sold);
    }
    SplitPersists(chain, expected, events, m, judge, sold);
    assert m <= |events| by { SplitInside(chain, expected, events, m, judge, sold); }
  }

  lemma {:induction false} SplitInside(chain: seq<Entry>, expected: ServerHead, events: seq<Entry>, m: nat, judge: Judge, sold: string -> bool)
    requires SplitAt(chain, expected, events, m, judge, sold)
    ensures m <= |events|
    ensures forall i :: 0 <= i < m ==> events[i] in chain
    ensures forall i :: m <= i < |events| ==> Addable(chain + events[m..i], events[i], judge, sold)
  {
    hide Addable;
  }

  /** And a batch of that kind is always stored. */
  lemma {:induction false} AddableIsStored(chain: seq<Entry>, expected: ServerHead, events: seq<Entry>, m: nat, judge: Judge, sold: string -> bool)
    requires StoredOnce(chain) && Counted(chain) && SplitAt(chain, expected, events, m, judge, sold) && InSequence(events)
    ensures PersistAll(chain, expected, events, judge, sold).Committed?
  {
    hide NewFault, Addable, FindId, IdentityFault, Persist, FirstPass, SplitAt, CommittedAs, StoredOnce, Counted;
    SplitInside(chain, expected, events, m, judge, sold);
    ContiguousIs(events);
    PassedFrom(chain, events, 0, sold);
    forall i | 0 <= i < |events| ensures IdentityFault(chain, events[..i], events[i], sold).None? {
      if i < m {
        StoredPasses(chain, events[..i], events[i], sold);
      } else {
        AddablePasses(chain, events, m, i, judge, sold);
      }
    }
    forall i | 0 <= i < m ensures FindId(chain, events[i].Id()) == Some(events[i]) {
      FoundOnce(chain, events[i]);
    }
    if m < |events| { NewIsAbsent(chain, events, m, judge, sold); }
    SplitPersists(chain, expected, events, m, judge, sold);
  }

  lemma {:induction false} NewIsAbsent(chain: seq<Entry>, events: seq<Entry>, m: nat, judge: Judge, sold: string -> bool)
    requires m < |events| && Addable(chain + events[m..m], events[m], judge, sold)
    ensures FindId(chain, events[m].Id()).None?
  {
    assert chain + events[m..m] == chain;
    AbsentIs(chain, events[m].Id());
  }

  // ----- Refusals -----

  /** What the second pass says of the first event it cannot take, the prefix before it being stored. */
  ghost predicate RefusedFor(prefix: seq<Entry>, first: bool, expected: ServerHead, e: Entry, judge: Judge, sold: string -> bool, code: Refusal) {
    var head := if prefix == [] then None else Some(prefix[|prefix| - 1].hash);
    if exists n :: 0 <= n < |prefix| && prefix[n].Id() == e.Id() then code == EVENT_CONTENT_CONFLICT
    else if exists n :: 0 <= n < |prefix| && prefix[n].Sequence() == e.Sequence() then code == SEQUENCE_FORK
    else if e.Sequence() > |prefix| + 1 then code == MISSING_PREDECESSOR
    else if e.Sequence() != |prefix| + 1 || e.content.previousHash != head then code == SEQUENCE_FORK
    else if first && expected != ServerHead(|prefix|, head) then code == HEAD_MOVED
    else if !e.Body().Sale? && exists n :: 0 <= n < |prefix| && SharesOperation(prefix[n], e) then code == EVENT_CONTENT_CONFLICT
    else if judge(prefix, e).Some? then judge(prefix, e) == Some(code)
    else e.Body().Sale? && code == DUPLICATE_ORDER_OTHER_CHAIN
  }

  lemma {:induction false} NewRefusal(prefix: seq<Entry>, first: bool, expected: ServerHead, e: Entry, judge: Judge, sold: string -> bool)
    requires FindId(prefix, e.Id()).None? && NewFault(prefix, expected, e, !first, judge, sold).Some?
    ensures RefusedFor(prefix, first, expected, e, judge, sold, NewFault(prefix, expected, e, !first, judge, sold).value)
  {
    hide OperationTaken, OrderSold, FindId, SharesOperation;
    AbsentIs(prefix, e.Id());
    TakenOrSold(prefix, e);
    SalesAreOrders(prefix, e);
  }

  lemma {:induction false} SalesAreOrders(prefix: seq<Entry>, e: Entry)
    ensures e.Body().Sale? ==> !OperationTaken(prefix, e)
  {
  }

  /** After something was added, the refusal speaks of the first event that cannot follow. */
  lemma {:induction false} AddingRefuses(chain: seq<Entry>, expected: ServerHead, events: seq<Entry>, judge: Judge, sold: string -> bool) returns (n: nat)
    requires Persist(chain, expected, events, true, judge, sold).Refused?
    ensures n < |events| && forall i :: 0 <= i < n ==> Addable(chain + events[..i], events[i], judge, sold)
    ensures RefusedFor(chain + events[..n], false, expected, events[n], judge, sold, Persist(chain, expected, events, true, judge, sold).code)
    decreases |events|
  {
    hide NewFault, Addable, FindId, RefusedFor;
    var e, rest := events[0], events[1..];
    assert chain + events[..0] == chain;
    AddableIs(chain, expected, e, true, judge, sold);
    if FindId(chain, e.Id()).Some? {
      n := 0;
      KnownRefusal(chain, false, expected, e, judge, sold);
    } else if NewFault(chain, expected, e, true, judge, sold).Some? {
      n := 0;
      NewRefusal(chain, false, expected, e, judge, sold);
    } else {
      var k := AddingRefuses(chain + [e], expected, rest, judge, sold);
      n := k + 1;
      assert chain + [e] + rest[..k] == chain + events[..n];
      forall i | 0 <= i < n ensures Addable(chain + events[..i], events[i], judge, sold) {
        if i > 0 {
          assert Addable(chain + [e] + rest[..i - 1], rest[i - 1], judge, sold);
          assert chain + [e] + rest[..i - 1] == chain + events[..i];
        }
      }
    }
  }

  lemma {:induction false} KnownRefusal(prefix: seq<Entry>, first: bool, expected: ServerHead, e: Entry, judge: Judge, sold: string -> bool)
    requires FindId(prefix, e.Id()).Some?
    ensures RefusedFor(prefix, first, expected, e, judge, sold, EVENT_CONTENT_CONFLICT)
  {
    var n :| 0 <= n < |prefix| && prefix[n] == FindId(prefix, e.Id()).value;
  }

  /** What the second pass refuses, and for what: the first event that is neither stored nor addable. */
  lemma {:induction false} RefusesFirst(chain: seq<Entry>, expected: ServerHead, events: seq<Entry>, judge: Judge, sold: string -> bool)
      returns (m: nat, n: nat)
    requires FirstPass(chain, events, 0, sold).None? && InSequence(events) && PersistAll(chain, expected, events, judge, sold).Refused?
    ensures m <= n < |events| && (forall i :: 0 <= i < m ==> events[i] in chain)
    ensures forall i :: m <= i < n ==> Addable(chain + events[m..i], events[i], judge, sold)
    ensures m < n ==> expected == ServerHead(|chain|, Head(chain))
    ensures RefusedFor(chain + events[m..n], m == n, expected, events[n], judge, sold,
                       PersistAll(chain, expected, events, judge, sold).code)
  {
    hide NewFault, Addable, FindId, IdentityFault, Persist, FirstPass, RefusedFor;
    m := FirstNew(chain, events);
    PassedFrom(chain, events, 0, sold);
    ContiguousIs(events);
    forall i | 0 <= i < m ensures FindId(chain, events[i].Id()) == Some(events[i]) {
      assert IdentityFault(chain, events[..i], events[i], sold).None?;
      Identified(chain, events, i, sold);
    }
    PassesOver(chain, expected, events, m, judge, sold);
    n := RefusesNew(chain, expected, events, m, judge, sold);
  }

  /** Stored events are passed over. */
  lemma {:induction false} PassesOver(chain: seq<Entry>, expected: ServerHead, events: seq<Entry>, m: nat, judge: Judge, sold: string -> bool)
    requires m <= |events| && forall i :: 0 <= i < m ==> FindId(chain, events[i].Id()) == Some(events[i])
    ensures Persist(chain, expected, events, false, judge, sold).Refused? <==> Persist(chain, expected, events[m..], false, judge, sold).Refused?
    ensures Persist(chain, expected, events, false, judge, sold).Refused? ==>
              Persist(chain, expected, events, false, judge, sold).code == Persist(chain, expected, events[m..], false, judge, sold).code
    decreases m
  {
    hide NewFault, FindId;
    if m > 0 {
      var rest := events[1..];
      assert forall i :: 0 <= i < m - 1 ==> rest[i] == events[i + 1];
      PassesOver(chain, expected, rest, m - 1, judge, sold);
      assert rest[m - 1..] == events[m..] && FindId(chain, events[0].Id()) == Some(events[0]);
    } else {
      assert events[0..] == events;
    }
  }

  lemma {:induction false} RefusesNew(chain: seq<Entry>, expected: ServerHead, events: seq<Entry>, m: nat, judge: Judge, sold: string -> bool)
      returns (n: nat)
    requires m <= |events| && (m < |events| ==> FindId(chain, events[m].Id()).None?)
    requires Persist(chain, expected, events[m..], false, judge, sold).Refused?
    ensures m <= n < |events| && forall i :: m <= i < n ==> Addable(chain + events[m..i], events[i], judge, sold)
    ensures m < n ==> expected == ServerHead(|chain|, Head(chain))
    ensures RefusedFor(chain + events[m..n], m == n, expected, events[n], judge, sold,
                       Persist(chain, expected, events[m..], false, judge, sold).code)
  {
    hide NewFault, Addable, FindId, RefusedFor;
    var e, rest := events[m], events[m + 1..];
    assert events[m..][0] == e && events[m..][1..] == rest && chain + events[m..m] == chain;
    AddableIs(chain, expected, e, false, judge, sold);
    if NewFault(chain, expected, e, false, judge, sold).Some? {
      n := m;
      NewRefusal(chain, true, expected, e, judge, sold);
    } else {
      var k := AddingRefuses(chain + [e], expected, rest, judge, sold);
      n := m + 1 + k;
      assert chain + [e] + rest[..k] == chain + events[m..n] && rest[k] == events[n];
      forall i | m <= i < n ensures Addable(chain + events[m..i], events[i], judge, sold) {
        if i > m {
          assert Addable(chain + [e] + rest[..i - m - 1], rest[i - m - 1], judge, sold);
          assert chain + [e] + rest[..i - m - 1] == chain + events[m..i];
        }
      }
    }
  }
}
