/**
 Why one worker at a time (native/android/OutboxWorker.kt:34-37 gives the work of a chain one
 unique name): what requeueProvenPrefix of one worker does to the claim of another.
 */
module Workers {
  import opened Ledger
  import opened OutboxRows
  import opened Outbox
  import opened Acks
  import opened OutboxStore
  import Convergence

  /** The effect of an accepted acknowledgement on the rows. */
  ghost predicate Acknowledged(before: Table, after: Table, held: seq<Row>, acks: seq<Ack>, now: int) {
    && after.Keys == before.Keys
    && forall id :: id in after ==>
         if id in IdsOf(held) then ConfirmedFrom(before[id], after[id], acks, now) else after[id] == before[id]
  }

  /**
   One worker holds a claim, another requeues what the server confirmed, then the first one
   is acknowledged: nothing in the store refuses that, and the delivered rows are still a
   prefix if and only if the claim holds older sales or starts with the first entry.
   */
  lemma {:induction false} RequeueUnderAClaim(t: Table, chain: string, ledger: seq<Entry>, legacy: seq<Order>, owner: string, held: seq<Row>,
                                              includeLegacy: bool, acks: seq<Ack>, now: int, after: Table)
    requires JournalShape(ledger) && RowsMatch(t, chain, ledger, legacy) && PrefixSynced(t, ledger)
    requires ClaimHeld(t, ledger, LiveClaim(owner, Tuples(held))) && held != []
    requires Acknowledged(Requeued(t, includeLegacy), after, held, acks, now)
    ensures HoldsAll(Requeued(t, includeLegacy), owner, held)
    ensures Confirmable(Requeued(t, includeLegacy), held, acks) <==> Confirmable(t, held, acks)
    ensures PrefixSynced(after, ledger) <==> held[0].tuple.payload.LegacyOrder? || held[0].tuple.Sequence() == Some(1)
  {
    hide Block, PrefixSynced, RowsMatch, JournalShape;
    var c, requeued := LiveClaim(owner, Tuples(held)), Requeued(t, includeLegacy);
    HeldRows(t, ledger, c, held);
    RequeueKeeps(t, chain, ledger, legacy, includeLegacy);
    forall i | 0 <= i < |held| ensures HeldBy(requeued, owner, held[i].tuple) && requeued[held[i].Id()] == t[held[i].Id()] {
      assert HeldBy(t, owner, held[i].tuple);
    }
    if held[0].tuple.payload.LedgerEvent? {
      assert c.rows[0] == held[0].tuple;
      OnlyTheBlock(t, requeued, after, ledger, c, held, acks, now);
    } else {
      NoneOfTheJournal(requeued, after, ledger, c, held, acks, now);
    }
  }

  /** After the requeue only the rows of the claim are delivered. */
  lemma {:induction false} OnlyTheBlock(t: Table, requeued: Table, after: Table, ledger: seq<Entry>, c: Claim, held: seq<Row>, acks: seq<Ack>, now: int)
    requires JournalShape(ledger) && ClaimHeld(t, ledger, c) && c.rows == Tuples(held) && held != [] && held[0].tuple.payload.LedgerEvent?
    requires forall i :: 0 <= i < |held| ==> HeldBy(requeued, c.owner, held[i].tuple)
    requires (forall n :: !SyncedAt(requeued, ledger, n)) && Acknowledged(requeued, after, held, acks, now)
    ensures PrefixSynced(after, ledger) <==> held[0].tuple.Sequence() == Some(1)
  {
    hide ConfirmedFrom;
    assert c.rows[0] == held[0].tuple;
    var k: nat :| BlockAt(t, ledger, c.rows, k);
    forall n | 0 <= n < |ledger| ensures SyncedAt(after, ledger, n) <==> k <= n < k + |held| {
      DeliveredInBlock(requeued, after, ledger, c, held, acks, now, k, n);
    }
    assert c.rows[0].payload == LedgerEvent(ledger[k + 0]) && ledger[k].Sequence() == k + 1;
    OneStretch(after, ledger, k, |held|);
  }

  lemma {:induction false} OneStretch(t: Table, ledger: seq<Entry>, k: nat, size: nat)
    requires 0 < size && k + size <= |ledger|
    requires forall n :: 0 <= n < |ledger| ==> (SyncedAt(t, ledger, n) <==> k <= n < k + size)
    ensures PrefixSynced(t, ledger) <==> k == 0
  {
    hide SyncedAt;
    assert SyncedAt(t, ledger, k);
    if 0 < k { assert !SyncedAt(t, ledger, 0); }
  }

  lemma {:induction false} DeliveredInBlock(requeued: Table, after: Table, ledger: seq<Entry>, c: Claim, held: seq<Row>, acks: seq<Ack>, now: int,
                                            k: int, n: nat)
    requires JournalShape(ledger) && c.rows == Tuples(held) && n < |ledger| && 0 <= k && k + |held| <= |ledger|
    requires forall i :: 0 <= i < |held| ==> c.rows[i].payload == LedgerEvent(ledger[k + i]) && c.rows[i].eventId == ledger[k + i].Id()
    requires forall i :: 0 <= i < |held| ==> HeldBy(requeued, c.owner, held[i].tuple)
    requires (forall m :: !SyncedAt(requeued, ledger, m)) && Acknowledged(requeued, after, held, acks, now)
    ensures SyncedAt(after, ledger, n) <==> k <= n < k + |held|
  {
    forall i | 0 <= i < |held| ensures held[i].Id() == ledger[k + i].Id() && (held[i].Id() == ledger[n].Id() ==> n == k + i) {
      assert c.rows[i] == held[i].tuple;
    }
    assert !SyncedAt(requeued, ledger, n);
    if k <= n < k + |held| {
      var i := n - k;
      assert c.rows[i] == held[i].tuple && HeldBy(requeued, c.owner, held[i].tuple);
      assert held[i].Id() in IdsOf(held);
    }
  }

  lemma {:induction false} NoneOfTheJournal(requeued: Table, after: Table, ledger: seq<Entry>, c: Claim, held: seq<Row>, acks: seq<Ack>, now: int)
    requires c.rows == Tuples(held) && held != [] && !held[0].tuple.payload.LedgerEvent?
    requires forall i :: 0 < i < |c.rows| ==> (c.rows[i].payload.LedgerEvent? <==> c.rows[0].payload.LedgerEvent?)
    requires forall i :: 0 <= i < |held| ==> HeldBy(requeued, c.owner, held[i].tuple)
    requires (forall n :: !SyncedAt(requeued, ledger, n)) && Acknowledged(requeued, after, held, acks, now)
    ensures PrefixSynced(after, ledger)
  {
    forall n | 0 <= n < |ledger| && HasEntry(after, ledger[n]) ensures !SyncedAt(after, ledger, n) {
      assert !SyncedAt(requeued, ledger, n);
      forall i | 0 <= i < |held| ensures held[i].Id() != ledger[n].Id() {
        assert c.rows[i] == held[i].tuple && HeldBy(requeued, c.owner, held[i].tuple);
      }
    }
  }

  // ----- A run that breaks the prefix -----

  datatype Scene = Scene(
    ledger: seq<Entry>,
    rows: Table,
    owner: string,
    held: seq<Row>,
    request: Request,
    response: Response)

  /** The first entry is delivered, the second one is claimed by worker "b". */
  function TwoWorkers(): Scene {
    var ledger := Convergence.TwoEntries();
    var scope := Scope("o", "f", "c");
    var first := Tuple(ledger[0].Id(), "c", LedgerEvent(ledger[0]));
    var second := Tuple(ledger[1].Id(), "c", LedgerEvent(ledger[1]));
    var delivered := Row(first, UNSENT.(status := Synced, receiptId := Some("r1"), serverReceivedAt := Some("d1"), syncedAt := Some(0)));
    var sending := Row(second, UNSENT.(transportFingerprint := Some(Fingerprint(second, scope)), status := Sending,
                                       claimOwner := Some("b"), leaseExpiresAt := Some(LEASE_MILLIS)));
    var ack := Ack(second.eventId, Accepted, "r2", "d2", second.Sequence(), second.Hash(), Some(Fingerprint(second, scope)));
    Scene(ledger, map[first.eventId := delivered, second.eventId := sending], "b", [sending],
          Request("q", scope, Some(ServerHead(1, first.Hash())), [EventOf(sending)]),
          Response(1, "q", scope, true, ServerHead(2, second.Hash()), [ack]))
  }

  /** What worker "a" leaves when it recovers, and what the acknowledgement of "b" then makes of it. */
  function Aftermath(s: Scene, now: int): Table
    requires s.held != [] && s.response.acknowledgements != []
  {
    Requeued(s.rows, false)[s.held[0].Id() := Confirmed(s.held[0], s.response.acknowledgements[0], now)]
  }

  /**
   The outbox is complete and in order, "b" holds a claim in order, its reply is accepted,
   and yet after the requeue of "a" the second entry is delivered and the first one is not.
   */
  lemma {:induction false} TwoWorkersBreakThePrefix(now: int)
    ensures var s := TwoWorkers();
            && JournalShape(s.ledger) && RowsMatch(s.rows, "c", s.ledger, []) && Everything(s.rows, s.ledger, []) && PrefixSynced(s.rows, s.ledger)
            && ClaimHeld(s.rows, s.ledger, LiveClaim(s.owner, Tuples(s.held)))
            && GoodReply(s.request, s.response, (ack: Ack) => true)
            && Confirmable(Requeued(s.rows, false), s.held, s.response.acknowledgements)
            && Acknowledged(Requeued(s.rows, false), Aftermath(s, now), s.held, s.response.acknowledgements, now)
            && !PrefixSynced(Aftermath(s, now), s.ledger)
  {
    hide TwoWorkers, Aftermath, Acknowledged, RowsMatch, Everything, PrefixSynced, ClaimHeld, GoodReply, Confirmable, JournalShape, Requeued;
    var s := TwoWorkers();
    SceneFacts();
    SceneIsInOrder();
    AftermathIsAcknowledged(now);
    RequeueUnderAClaim(s.rows, "c", s.ledger, [], s.owner, s.held, false, s.response.acknowledgements, now, Aftermath(s, now));
  }

  lemma {:induction false} AftermathIsAcknowledged(now: int)
    ensures var s := TwoWorkers();
            Acknowledged(Requeued(s.rows, false), Aftermath(s, now), s.held, s.response.acknowledgements, now)
  {
    hide Convergence.TwoEntries;
    SceneFacts();
    var s := TwoWorkers();
    var requeued := Requeued(s.rows, false);
    assert IdsOf(s.held) == {s.held[0].Id()};
    assert requeued[s.held[0].Id()] == s.held[0];
    assert s.response.acknowledgements[0].eventId == s.held[0].Id();
    assert ConfirmedFrom(s.held[0], Aftermath(s, now)[s.held[0].Id()], s.response.acknowledgements, now);
  }

  lemma {:induction false} SceneFacts()
    ensures var s := TwoWorkers();
            && JournalShape(s.ledger) && |s.ledger| == 2 && s.ledger[0].Sequence() == 1 && s.ledger[1].Sequence() == 2
            && s.ledger[0].Id() != s.ledger[1].Id()
            && |s.held| == 1 && |s.response.acknowledgements| == 1 && s.held[0].tuple.payload.LedgerEvent?
            && s.held[0].tuple.Sequence() == Some(2)
            && GoodReply(s.request, s.response, (ack: Ack) => true)
  {
    Convergence.TwoEntriesAreKeyed();
    var s := TwoWorkers();
    assert Answers(s.request.events[0], s.response.acknowledgements[0], s.response.serverHead);
  }

  lemma {:induction false} SceneIsInOrder()
    ensures var s := TwoWorkers();
            && RowsMatch(s.rows, "c", s.ledger, []) && Everything(s.rows, s.ledger, []) && PrefixSynced(s.rows, s.ledger)
            && ClaimHeld(s.rows, s.ledger, LiveClaim(s.owner, Tuples(s.held)))
            && Confirmable(s.rows, s.held, s.response.acknowledgements)
  {
    hide Convergence.TwoEntries;
    var s := TwoWorkers();
    SceneFacts();
    assert SyncedAt(s.rows, s.ledger, 0) && !SyncedAt(s.rows, s.ledger, 1);
    assert BlockAt(s.rows, s.ledger, Tuples(s.held), 1);
  }
}
