/**
 What an outage of the server or of the network costs (native/android/SyncEngine.kt:72-90):
 nothing but time. The rows of the batch are sent again, first and in their order, by any
 claim after the delay and by none before it, and no row is stopped.
 */
module Outage {
  import opened Ledger
  import opened OutboxRows
  import opened Outbox
  import opened Acks
  import opened OutboxStore
  import opened Recovery
  import opened SyncEngine
  import Claims

  /** Failures that time heals: an unusable reply, an unreachable server, a server that is busy, slow or broken. */
  predicate Heals(reply: Reply) {
    || reply.Replied?
    || reply == AuthFailure("server_unreachable")
    || (reply.HttpFailure? && (reply.status == 408 || reply.status == 429 || reply.status >= 500)
        && reply.code !in ["HEAD_MOVED", "MISSING_PREDECESSOR", "DEPENDENCY_MISSING", "BATCH_TOO_LARGE"])
  }

  /** From when on its rows may be sent: after the backoff, and after the wait the server asked for up to six hours. */
  predicate RetriedFrom(reply: Reply, at: int, backoff: int, from: int) {
    && from >= at + backoff
    && (reply.HttpFailure? ==>
          && from >= at
          && (reply.retryAfterMillis.Some? ==> from >= at + reply.retryAfterMillis.value || from >= at + 21600000))
  }

  lemma {:induction false} WaitsFor(reply: Reply, at: int, backoff: int, status: RowStatus, error: string, next: int, from: int)
    requires Heals(reply) && ReturnsAs(reply, at, backoff, status, error, next)
    ensures status == Pending && (RetriedFrom(reply, at, backoff, from) <==> next <= from)
  {
  }

  lemma {:induction false} EventIsDue(r: Row, reply: Reply, at: int, backoff: int, from: int)
    requires Heals(reply) && ReturnedRow(r, reply, at, backoff)
    ensures r.evidence.status == Pending && !Claims.Stops(r) && (RetriedFrom(reply, at, backoff, from) <==> Claims.Due(r, from))
  {
    WaitsFor(reply, at, backoff, r.evidence.status, r.evidence.lastError.value, r.evidence.nextAttemptAt, from);
  }

  /** A claim that took something met no stopped row. */
  lemma {:induction false} NothingStopped(t: Table, rows: seq<Row>, claim: Table, claimed: seq<Row>, scope: Scope, owner: string, now: int,
                                          max: nat)
    requires Claims.ClaimsRight(t, rows, claim, claimed, scope, owner, now, max) && claimed != []
    ensures forall id :: id in t ==> !Claims.Stops(t[id])
  {
    hide IsOutstanding, Claims.LongestDue, Claims.Leases, Claims.Leaves, Claims.Stops;
  }

  lemma {:induction false} NoneStopped(t: Table, back: Table, request: Request, world: World, at: int)
    requires Returned(t, back, request, world, at) && Heals(world.answer(request)) && forall id :: id in t ==> !Claims.Stops(t[id])
    ensures forall id :: id in back ==> !Claims.Stops(back[id])
  {
    hide ReturnedRow, ReturnsAs, Heals, Claims.Stops;
    forall id | id in back ensures !Claims.Stops(back[id]) {
      if id in EventIds(request.events) {
        var i :| 0 <= i < |request.events| && request.events[i].eventId == id;
        EventIsDue(back[id], world.answer(request), at, world.retryDelay(t[request.events[0].eventId].evidence.attemptCount + 1), 0);
      }
    }
  }

  /**
   The outage law. A round sent a batch and met a failure that time heals: no row of the
   outbox is stopped afterwards, and a claim of at least that many rows, by any worker, takes
   exactly the rows of the batch first once the delay is over, and nothing before.
   */
  lemma {:induction false} OnlyTimeIsLost(round: Round, run: Run, backfill: Backfill, after: Table, limit: nat, chain: string,
                                          last: Table, again: seq<Row>, other: Scope, owner: string, from: int, most: nat)
    requires Keyed(round.found) && Keyed(after) && ReturnsRight(round, run, backfill, after, limit)
    requires round.sent.Some? && !round.acknowledged && Heals(run.world.answer(round.sent.value))
    requires SendsMost(round, run, backfill, chain)
    requires ClaimSpec(after, last, again, other, owner, from, most) && |round.sent.value.events| <= most
    ensures after.Keys == round.found.Keys && forall id :: id in after ==> after[id].evidence.status !in {Quarantined, NeedsRecovery}
    ensures var request := round.sent.value;
            request.events != [] && request.events[0].eventId in round.found
            && var tries := round.found[request.events[0].eventId].evidence.attemptCount;
               if RetriedFrom(run.world.answer(request), run.sendAt, run.world.retryDelay(tries + 1), from)
               then |request.events| <= |again| && forall i :: 0 <= i < |request.events| ==> again[i].Id() == request.events[i].eventId
               else again == []
  {
    hide ClaimSpec, IsOutstanding, RetriedFrom, ReturnedRow, Heals, Claims.Due, Claims.ClaimsRight, SameSynced, Fits;
    var request, found := round.sent.value, round.found;
    var scope, max := run.auth.scope.value, Outbox.Min(BATCH, backfill.batchLimit);
    var claim: Table, claimed: seq<Row> :| ClaimSpec(found, claim, claimed, scope, run.owner, run.now, max) && LongestFit(claimed, request, run.limits);
    var rows := Claims.ClaimIsRight(found, claim, claimed, scope, run.owner, run.now, max);
    NothingStopped(found, rows, claim, claimed, scope, run.owner, run.now, max);
    assert after == round.back by { NotReacting(run.world.answer(request)); }
    NoneStopped(found, after, request, run.world, run.sendAt);
    var backoff := run.world.retryDelay(found[request.events[0].eventId].evidence.attemptCount + 1);
    forall i | 0 <= i < |request.events|
      ensures request.events[i].eventId in after
      ensures RetriedFrom(run.world.answer(request), run.sendAt, backoff, from) <==> Claims.Due(after[request.events[i].eventId], from)
    {
      EventIsDue(after[request.events[i].eventId], run.world.answer(request), run.sendAt, backoff, from);
    }
    Claims.ClaimSame(found, claim, claimed, scope, run.owner, run.now, max);
    SameBetween(found, claim, after);
    if RetriedFrom(run.world.answer(request), run.sendAt, backoff, from) {
      Claims.TakenAgain(found, claim, claimed, scope, run.owner, run.now, max, after, last, again, other, owner, from, most, |request.events|);
      forall i | 0 <= i < |request.events| ensures again[i].Id() == request.events[i].eventId {
        assert again[i].tuple == claimed[i].tuple;
      }
    } else {
      NotYet(found, rows, claim, claimed, scope, run.owner, run.now, max, after, last, again, other, owner, from, most);
    }
  }

  lemma {:induction false} NotReacting(reply: Reply)
    requires Heals(reply)
    ensures !Reacts(reply)
  {
  }

  lemma {:induction false} SameBetween(a: Table, b: Table, c: Table)
    requires SameSynced(a, b) && SameSynced(a, c)
    ensures SameSynced(b, c) && a.Keys == c.Keys
  {
  }

  /** While the first row of the earlier claim is not due, nothing is taken. */
  lemma {:induction false} NotYet(before: Table, rows: seq<Row>, claim: Table, claimed: seq<Row>, scope: Scope, owner: string, now: int, max: nat,
                                  later: Table, last: Table, again: seq<Row>, other: Scope, worker: string, at: int, most: nat)
    requires Keyed(before) && Keyed(later) && Claims.ClaimsRight(before, rows, claim, claimed, scope, owner, now, max) && claimed != []
    requires SameSynced(before, later) && ClaimSpec(later, last, again, other, worker, at, most)
    requires claimed[0].Id() in later && !Claims.Due(later[claimed[0].Id()], at)
    ensures again == []
  {
    hide ClaimSpec, IsOutstanding, Claims.LongestDue, Claims.Leaves, Claims.Due;
    var next := Claims.ClaimIsRight(later, last, again, other, worker, at, most);
    Claims.SameOrder(before, later, rows, next);
    Claims.RunningIsNotTaken(before, rows, claim, claimed, scope, owner, now, max, 0);
    Claims.ListedRow(later, next, 0);
    if again != [] { Claims.FirstDecides(next, |again|, at, most); }
  }
}
