/**
 What a claim takes and what it leaves (native/android/OutboxStore.kt:103-131 with the recovery
 statements of native/android/OutboxEntry.kt:67-80), said of the rows before and after it.
 */
module Claims {
  import opened Ledger
  import opened OutboxRows
  import opened Outbox
  import opened Acks
  import opened OutboxStore

  /** What is outstanding and blocks everything behind it. */
  predicate Stops(r: Row) { r.evidence.status == Quarantined || r.evidence.status == NeedsRecovery }

  /** Whose lease is over: nobody renews it for two minutes. */
  predicate LeaseOver(r: Row, now: int) {
    r.evidence.status == Sending && r.evidence.leaseExpiresAt.Some? && r.evidence.leaseExpiresAt.value <= now
  }

  /** What can be sent now: due rows, rows of a worker that is gone, and rows that waited for a session. */
  predicate Due(r: Row, now: int) {
    match r.evidence.status
    case Pending => r.evidence.nextAttemptAt <= now
    case Sending => LeaseOver(r, now) && r.evidence.nextAttemptAt <= now
    case PausedAuth => 0 <= now
    case _ => false
  }

  predicate SameKind(a: Row, b: Row) { a.tuple.payload.LedgerEvent? <==> b.tuple.payload.LedgerEvent? }

  /** The row was touched by a clock that was ahead of this one. */
  predicate Skewed(r: Row, now: int) { r.evidence.lastAttemptAt.Some? && r.evidence.lastAttemptAt.value > now }

  /** The longest start of the outstanding rows that is due, of one kind, and within the limit. */
  ghost predicate LongestDue(rows: seq<Row>, n: nat, now: int, max: nat) {
    && n <= |rows| && n <= max
    && (forall i :: 0 <= i < n ==> Due(rows[i], now) && SameKind(rows[i], rows[0]))
    && (n < |rows| && n < max ==> !(Due(rows[n], now) && SameKind(rows[n], rows[0])))
  }

  /** What a claim does not change in any row. */
  predicate Keeps(r: Row, was: Row) {
    && r.tuple == was.tuple
    && r.evidence.attemptCount == was.evidence.attemptCount && r.evidence.lastError == was.evidence.lastError
    && r.evidence.receiptId == was.evidence.receiptId && r.evidence.serverReceivedAt == was.evidence.serverReceivedAt
    && r.evidence.syncedAt == was.evidence.syncedAt
  }

  /** When the row may be tried: at once after waiting for a session, within six hours after a clock was ahead. */
  function NextAttempt(was: Row, ahead: bool, now: int): int {
    if was.evidence.status == PausedAuth then 0
    else if ahead && was.evidence.nextAttemptAt > now + 21600000 then now + 21600000
    else was.evidence.nextAttemptAt
  }

  /** A claimed row is leased to the worker for two minutes, under the scope it sends with. */
  predicate Leases(r: Row, was: Row, scope: Scope, owner: string, now: int) {
    && Keeps(r, was)
    && r.evidence.status == Sending && r.evidence.claimOwner == Some(owner)
    && r.evidence.leaseExpiresAt == Some(now + 120000) && r.evidence.lastAttemptAt == Some(now)
    && r.evidence.organizationId == Some(scope.organizationId) && r.evidence.festivalId == Some(scope.festivalId)
    && r.evidence.transportFingerprint == Some(Fingerprint(was.tuple, scope))
    && r.evidence.nextAttemptAt == NextAttempt(was, Skewed(was, now), now)
  }

  /** Any other row is freed when its lease is over, resumed when it waited for a session, and set right when its clock was ahead. */
  predicate Leaves(r: Row, was: Row, listed: bool, now: int) {
    var ahead := listed && Skewed(was, now);
    var late := ahead && was.evidence.leaseExpiresAt.Some? && was.evidence.leaseExpiresAt.value > now + 120000;
    && Keeps(r, was)
    && r.evidence.organizationId == was.evidence.organizationId && r.evidence.festivalId == was.evidence.festivalId
    && r.evidence.transportFingerprint == was.evidence.transportFingerprint
    && r.evidence.status == (if LeaseOver(was, now) || was.evidence.status == PausedAuth then Pending else was.evidence.status)
    && r.evidence.claimOwner == (if LeaseOver(was, now) then None else was.evidence.claimOwner)
    && r.evidence.leaseExpiresAt == (if LeaseOver(was, now) then None else if late then Some(now + 120000) else was.evidence.leaseExpiresAt)
    && r.evidence.lastAttemptAt == (if ahead then Some(now) else was.evidence.lastAttemptAt)
    && r.evidence.nextAttemptAt == NextAttempt(was, ahead, now)
  }

  /**
   The whole of a claim over the first hundred outstanding rows: none is taken behind a
   stopped row, else the longest due start of them, and every row is what it should be.
   */
  ghost predicate ClaimsRight(before: Table, rows: seq<Row>, after: Table, claimed: seq<Row>, scope: Scope, owner: string, now: int, max: nat) {
    && IsOutstanding(before, rows, 100)
    && (if exists id :: id in before && Stops(before[id]) then claimed == [] else LongestDue(rows, |claimed|, now, max))
    && |claimed| <= |rows| && after.Keys == before.Keys
    && (forall i :: 0 <= i < |claimed| ==> claimed[i].Id() in after && after[claimed[i].Id()] == claimed[i])
    && (forall i :: 0 <= i < |claimed| ==> Leases(claimed[i], rows[i], scope, owner, now))
    && forall id :: id in after && id !in IdsOf(claimed) ==> Leaves(after[id], before[id], id in IdsOf(rows), now)
  }

  // ----- The proof -----

  lemma {:induction false} StopsIsBlocked(t: Table, skewed: set<string>, now: int)
    ensures Blocked(Refreshed(t, skewed, now)) <==> exists id :: id in t && Stops(t[id])
  {
    if Blocked(Refreshed(t, skewed, now)) {
      var id :| id in t && Refreshed(t, skewed, now)[id].Status() in {Quarantined, NeedsRecovery};
      assert Stops(t[id]);
    }
    if exists id :: id in t && Stops(t[id]) {
      var id :| id in t && Stops(t[id]);
      assert Refreshed(t, skewed, now)[id].Status() in {Quarantined, NeedsRecovery};
    }
  }

  function Ready(r: Row, listed: bool, now: int): Row { ResumeRow(RecoverRow(if listed then FixClock(r, now) else r, now)) }

  /** The three statements on one row. */
  lemma {:induction false} ReadyLeaves(r: Row, listed: bool, now: int)
    ensures Leaves(Ready(r, listed, now), r, listed, now)
    ensures Takes(Ready(r, listed, now), r.tuple.payload.LedgerEvent?, now) <==> Due(r, now)
    ensures Outstanding(Ready(r, listed, now)) <==> Outstanding(r)
  {
  }

  lemma {:induction false} BoundLeases(r: Row, scope: Scope, owner: string, now: int)
    ensures Leases(Bound(Ready(r, true, now), scope, owner, now), r, scope, owner, now)
  {
  }

  lemma {:induction false} ReadyKeeps(r: Row, listed: bool, now: int)
    ensures Ready(r, listed, now).tuple == r.tuple
    ensures Outstanding(Ready(r, listed, now)) <==> Outstanding(r)
  {
  }

  lemma {:induction false} ReadyTable(t: Table, rows: seq<Row>, now: int)
    ensures Refreshed(t, IdsOf(rows), now).Keys == t.Keys
    ensures forall id :: id in t ==> Refreshed(t, IdsOf(rows), now)[id] == Ready(t[id], id in IdsOf(rows), now)
  {
  }

  function ReadyRows(rows: seq<Row>, now: int): (ready: seq<Row>)
    ensures |ready| == |rows| && forall i :: 0 <= i < |rows| ==> ready[i] == Ready(rows[i], true, now)
  {
    seq(|rows|, i requires 0 <= i < |rows| => Ready(rows[i], true, now))
  }

  lemma {:induction false} ReadyListed(t: Table, rows: seq<Row>, now: int)
    requires IsOutstanding(t, rows, 100)
    ensures var ready, expected := Refreshed(t, IdsOf(rows), now), ReadyRows(rows, now);
            && (forall i :: 0 <= i < |rows| ==> expected[i].Id() in ready && ready[expected[i].Id()] == expected[i] && Outstanding(expected[i]))
            && (forall i, k :: 0 <= i < k < |rows| ==> RowBefore(expected[i].tuple, expected[k].tuple))
  {
    hide RowBefore, Ready, Refreshed, Outstanding;
    ReadyTable(t, rows, now);
    forall i | 0 <= i < |rows| ensures rows[i].Id() in IdsOf(rows) && ReadyRows(rows, now)[i].tuple == rows[i].tuple {
      ReadyKeeps(rows[i], true, now);
    }
    forall i | 0 <= i < |rows| ensures Outstanding(ReadyRows(rows, now)[i]) {
      ReadyKeeps(rows[i], true, now);
    }
  }

  lemma {:induction false} ReadyUnlisted(t: Table, rows: seq<Row>, now: int, id: string)
    requires Keyed(t) && IsOutstanding(t, rows, 100)
    requires var ready := Refreshed(t, IdsOf(rows), now); id in ready && Outstanding(ready[id]) && ready[id] !in ReadyRows(rows, now)
    ensures |rows| == 100
    ensures forall i :: 0 <= i < |rows| ==> RowBefore(ReadyRows(rows, now)[i].tuple, Refreshed(t, IdsOf(rows), now)[id].tuple)
  {
    hide RowBefore, Ready, Refreshed, Outstanding;
    ReadyTable(t, rows, now);
    ReadyKeeps(t[id], id in IdsOf(rows), now);
    forall i | 0 <= i < |rows| ensures rows[i] != t[id] {
      assert rows[i].Id() in IdsOf(rows) && ReadyRows(rows, now)[i] in ReadyRows(rows, now);
    }
    forall i | 0 <= i < |rows| ensures ReadyRows(rows, now)[i].tuple == rows[i].tuple {
      ReadyKeeps(rows[i], true, now);
    }
  }

  lemma {:induction false} ReadyIsOutstanding(t: Table, rows: seq<Row>, now: int)
    requires Keyed(t) && IsOutstanding(t, rows, 100)
    ensures IsOutstanding(Refreshed(t, IdsOf(rows), now), ReadyRows(rows, now), 100)
  {
    hide RowBefore, Ready, Refreshed, Outstanding;
    var ready := Refreshed(t, IdsOf(rows), now);
    ReadyListed(t, rows, now);
    forall id | id in ready && Outstanding(ready[id]) && ready[id] !in ReadyRows(rows, now)
      ensures |rows| == 100 && forall i :: 0 <= i < |rows| ==> RowBefore(ReadyRows(rows, now)[i].tuple, ready[id].tuple)
    {
      ReadyUnlisted(t, rows, now, id);
    }
  }

  /** The rows outstanding after the three statements are the rows outstanding before, each as they leave it. */
  lemma {:induction false} ReadyOutstanding(t: Table, rows: seq<Row>, candidates: seq<Row>, now: int)
    requires Keyed(t) && IsOutstanding(t, rows, 100) && IsOutstanding(Refreshed(t, IdsOf(rows), now), candidates, 100)
    ensures |candidates| == |rows| && forall i :: 0 <= i < |rows| ==> candidates[i] == Ready(rows[i], true, now)
  {
    hide IsOutstanding, Ready, Refreshed;
    ReadyIsOutstanding(t, rows, now);
    OutstandingIsUnique(Refreshed(t, IdsOf(rows), now), ReadyRows(rows, now), candidates, 100);
  }

  lemma {:induction false} TakenIsLongest(rows: seq<Row>, candidates: seq<Row>, now: int, max: nat)
    requires rows != [] && |candidates| == |rows| && forall i :: 0 <= i < |rows| ==> candidates[i] == Ready(rows[i], true, now)
    ensures LongestDue(rows, TakeLength(candidates, candidates[0].tuple.payload.LedgerEvent?, now, max), now, max)
  {
    hide Ready, Takes, Due;
    var ledger := candidates[0].tuple.payload.LedgerEvent?;
    var n := TakeLength(candidates, ledger, now, max);
    forall i | 0 <= i < |rows| ensures Takes(candidates[i], ledger, now) <==> Due(rows[i], now) && SameKind(rows[i], rows[0]) {
      ReadyLeaves(rows[i], true, now);
      ReadyLeaves(rows[0], true, now);
      KindDecides(candidates[i], now);
    }
    TakeLengthFits(candidates, ledger, now, max);
    TakeLengthEnds(candidates, ledger, now, max);
  }

  lemma {:induction false} KindDecides(r: Row, now: int)
    ensures forall ledger :: Takes(r, ledger, now) <==> Takes(r, r.tuple.payload.LedgerEvent?, now) && r.tuple.payload.LedgerEvent? == ledger
  {
  }

  lemma {:induction false} TakeLengthEnds(rows: seq<Row>, ledger: bool, now: int, limit: nat)
    ensures var n := TakeLength(rows, ledger, now, limit); n < |rows| && n < limit ==> !Takes(rows[n], ledger, now)
  {
    hide Takes;
    if rows != [] && limit > 0 && Takes(rows[0], ledger, now) {
      TakeLengthEnds(rows[1..], ledger, now, limit - 1);
    }
  }

  lemma {:induction false} NoneTaken(rows: seq<Row>, now: int, max: nat)
    ensures rows == [] ==> LongestDue(rows, 0, now, max)
  {
  }

  lemma {:induction false} ClaimedRows(before: Table, rows: seq<Row>, ready: Table, candidates: seq<Row>, n: nat, scope: Scope, owner: string,
                                       now: int)
    requires IsOutstanding(before, rows, 100) && IsOutstanding(ready, candidates, 100) && |candidates| == |rows| && n <= |rows|
    requires forall i :: 0 <= i < |rows| ==> candidates[i] == Ready(rows[i], true, now)
    ensures var claimed := Taken(candidates[..n], scope, owner, now);
            var after := Change(ready, BindWith(scope, owner, now), IdsOf(candidates[..n]));
            && (forall i :: 0 <= i < n ==> claimed[i].Id() in after && after[claimed[i].Id()] == claimed[i])
            && (forall i :: 0 <= i < n ==> Leases(claimed[i], rows[i], scope, owner, now))
            && (forall id :: id in after && id !in IdsOf(claimed) ==> after[id] == ready[id])
  {
    hide Ready, Leases, RowBefore;
    var taken := candidates[..n];
    var claimed := Taken(taken, scope, owner, now);
    TakenIds(taken, scope, owner, now);
    forall i | 0 <= i < n ensures claimed[i] == Bound(candidates[i], scope, owner, now) && candidates[i].Id() in IdsOf(taken) {
      assert taken[i] == candidates[i];
    }
    forall i | 0 <= i < n ensures Leases(claimed[i], rows[i], scope, owner, now) {
      BoundLeases(rows[i], scope, owner, now);
    }
  }

  /** Every claim is right in this sense. */
  lemma {:induction false} ClaimIsRight(before: Table, after: Table, claimed: seq<Row>, scope: Scope, owner: string, now: int, max: nat)
      returns (rows: seq<Row>)
    requires Keyed(before) && ClaimSpec(before, after, claimed, scope, owner, now, max)
    ensures ClaimsRight(before, rows, after, claimed, scope, owner, now, max)
  {
    hide IsOutstanding, TakeLength, Blocked, Ready, Refreshed, Leaves, Leases, LongestDue, Bound, RowBefore, Stops;
    var candidates: seq<Row>;
    rows, candidates :| ClaimSteps(before, rows, candidates, after, claimed, scope, owner, now, max);
    var ready := Refreshed(before, IdsOf(rows), now);
    StopsIsBlocked(before, IdsOf(rows), now);
    ReadyOutstanding(before, rows, candidates, now);
    RefreshKeeps(before, IdsOf(rows), now);
    ReadyTable(before, rows, now);
    forall id | id in ready ensures Leaves(ready[id], before[id], id in IdsOf(rows), now) {
      ReadyLeaves(before[id], id in IdsOf(rows), now);
    }
    if !Blocked(ready) && candidates != [] {
      TakenIsLongest(rows, candidates, now, max);
      ClaimedRows(before, rows, ready, candidates, |claimed|, scope, owner, now);
    } else {
      NoneTaken(rows, now, max);
    }
  }

  // ----- What follows -----

  /**
   After a claim no lease is over, no row waits for a session, and a row another worker is
   still sending is untouched, unless its clock was ahead.
   */
  lemma {:induction false} NothingLingers(before: Table, after: Table, claimed: seq<Row>, scope: Scope, owner: string, now: int, max: nat, id: string)
    requires Keyed(before) && ClaimSpec(before, after, claimed, scope, owner, now, max) && id in after
    ensures !LeaseOver(after[id], now) && after[id].evidence.status != PausedAuth
    ensures before[id].evidence.status == Sending && !LeaseOver(before[id], now) && !Skewed(before[id], now) ==> after[id] == before[id]
  {
    hide ClaimSpec, IsOutstanding, LongestDue;
    var rows := ClaimIsRight(before, after, claimed, scope, owner, now, max);
    if id in IdsOf(claimed) {
      var i :| 0 <= i < |claimed| && claimed[i].Id() == id;
      RunningIsNotTaken(before, rows, after, claimed, scope, owner, now, max, i);
    } else {
      assert Leaves(after[id], before[id], id in IdsOf(rows), now);
    }
  }

  /** What is taken was due, so no other worker was sending it. */
  lemma {:induction false} RunningIsNotTaken(before: Table, rows: seq<Row>, after: Table, claimed: seq<Row>, scope: Scope, owner: string,
                                             now: int, max: nat, i: nat)
    requires ClaimsRight(before, rows, after, claimed, scope, owner, now, max) && i < |claimed|
    ensures claimed[i].Id() in before && before[claimed[i].Id()] == rows[i] && Due(rows[i], now)
    ensures Leases(claimed[i], rows[i], scope, owner, now) && after[claimed[i].Id()] == claimed[i]
  {
    hide RowBefore, Leaves;
  }

  /** The first outstanding rows of a table are those of another with the same tuples and the same rows delivered. */
  lemma {:induction false} SameOrder(before: Table, after: Table, a: seq<Row>, b: seq<Row>)
    requires Keyed(before) && Keyed(after) && SameSynced(before, after) && IsOutstanding(before, a, 100) && IsOutstanding(after, b, 100)
    ensures |a| == |b| && forall i :: 0 <= i < |a| ==> b[i].tuple == a[i].tuple
  {
    hide RowBefore;
    var moved := seq(|a|, i requires 0 <= i < |a| => after[a[i].Id()]);
    forall id | id in after && Outstanding(after[id]) && after[id] !in moved
      ensures |moved| == 100 && forall i :: 0 <= i < |moved| ==> RowBefore(moved[i].tuple, after[id].tuple)
    {
      forall i | 0 <= i < |a| ensures a[i] != before[id] {
        assert moved[i] in moved;
      }
    }
    assert IsOutstanding(after, moved, 100);
    OutstandingIsUnique(after, moved, b, 100);
  }

  /** The first rows of a claim, once they are due again, are the first rows of the next one. */
  lemma {:induction false} TakenAgain(before: Table, after: Table, claimed: seq<Row>, scope: Scope, owner: string, now: int, max: nat,
                                      later: Table, last: Table, again: seq<Row>, its: Scope, other: string, at: int, limit: nat, n: nat)
    requires Keyed(before) && Keyed(later) && ClaimSpec(before, after, claimed, scope, owner, now, max)
    requires SameSynced(after, later) && ClaimSpec(later, last, again, its, other, at, limit)
    requires n <= |claimed| && n <= limit && forall i :: 0 <= i < n ==> claimed[i].Id() in later && Due(later[claimed[i].Id()], at)
    requires forall id :: id in later ==> !Stops(later[id])
    ensures n <= |again| <= limit && forall i :: 0 <= i < n ==> again[i].tuple == claimed[i].tuple
  {
    hide ClaimSpec, IsOutstanding, Due, Leases, Leaves;
    var rows := ClaimIsRight(before, after, claimed, scope, owner, now, max);
    var next := ClaimIsRight(later, last, again, its, other, at, limit);
    ClaimSame(before, after, claimed, scope, owner, now, max);
    SyncedTwice(before, after, later);
    SameOrder(before, later, rows, next);
    forall i | 0 <= i < n ensures Due(next[i], at) && next[i].tuple == claimed[i].tuple && SameKind(next[i], next[0]) {
      LeasedTuple(claimed[i], rows[i], scope, owner, now);
      ListedRow(later, next, i);
      LongestKind(rows, |claimed|, i, now, max);
    }
    LongestReaches(next, |again|, n, at, limit);
    forall i | 0 <= i < n ensures again[i].tuple == claimed[i].tuple {
      LeasedTuple(again[i], next[i], its, other, at);
    }
  }

  lemma {:induction false} SyncedTwice(a: Table, b: Table, c: Table)
    requires SameSynced(a, b) && SameSynced(b, c)
    ensures SameSynced(a, c)
  {
  }

  lemma {:induction false} ClaimSame(before: Table, after: Table, claimed: seq<Row>, scope: Scope, owner: string, now: int, max: nat)
    requires ClaimSpec(before, after, claimed, scope, owner, now, max)
    ensures SameSynced(before, after)
  {
    hide TakeLength, Blocked, RowBefore, Refreshed, Bound;
    var first: seq<Row>, candidates: seq<Row> :| ClaimSteps(before, first, candidates, after, claimed, scope, owner, now, max);
    var ready := Refreshed(before, IdsOf(first), now);
    RefreshKeeps(before, IdsOf(first), now);
    if !(Blocked(ready) || candidates == []) {
      TakenKeeps(ready, candidates, TakeLength(candidates, candidates[0].tuple.payload.LedgerEvent?, now, max), scope, owner, now);
    }
  }

  lemma {:induction false} LeasedTuple(r: Row, was: Row, scope: Scope, owner: string, now: int)
    requires Leases(r, was, scope, owner, now)
    ensures r.tuple == was.tuple
  {
  }

  lemma {:induction false} ListedRow(t: Table, rows: seq<Row>, i: nat)
    requires IsOutstanding(t, rows, 100) && i < |rows|
    ensures rows[i].Id() in t && t[rows[i].Id()] == rows[i]
  {
    hide RowBefore;
  }

  lemma {:induction false} LongestKind(rows: seq<Row>, n: nat, i: nat, now: int, max: nat)
    requires LongestDue(rows, n, now, max) && i < n
    ensures SameKind(rows[i], rows[0])
  {
    hide Due;
  }

  lemma {:induction false} LongestReaches(rows: seq<Row>, m: nat, n: nat, now: int, max: nat)
    requires LongestDue(rows, m, now, max) && n <= |rows| && n <= max
    requires forall i :: 0 <= i < n ==> Due(rows[i], now) && SameKind(rows[i], rows[0])
    ensures n <= m
  {
    hide Due, SameKind;
  }

  /**
   The crash law: a worker claims rows and dies. Nothing else happening, a claim two minutes
   later or more takes those rows first, and an earlier one takes nothing.
   */
  lemma {:induction false} CrashFreesRows(before: Table, after: Table, claimed: seq<Row>, scope: Scope, owner: string, now: int, max: nat,
                                          last: Table, again: seq<Row>, other: string, at: int)
    requires Keyed(before) && Keyed(after) && ClaimSpec(before, after, claimed, scope, owner, now, max) && claimed != []
    requires ClaimSpec(after, last, again, scope, other, at, max)
    ensures at >= now + 120000 ==> |claimed| <= |again| <= max && forall i :: 0 <= i < |claimed| ==> again[i].tuple == claimed[i].tuple
    ensures at < now + 120000 ==> again == []
  {
    hide ClaimSpec, IsOutstanding, Leaves, LongestDue;
    var rows := ClaimIsRight(before, after, claimed, scope, owner, now, max);
    ClaimSame(before, after, claimed, scope, owner, now, max);
    TakesWithin(rows, |claimed|, now, max);
    forall id | id in after ensures !Stops(after[id]) {
      NoneStops(before, rows, after, claimed, scope, owner, now, max, id);
    }
    forall i | 0 <= i < |claimed| ensures claimed[i].Id() in after && (at >= now + 120000 <==> Due(after[claimed[i].Id()], at)) {
      RunningIsNotTaken(before, rows, after, claimed, scope, owner, now, max, i);
    }
    if at >= now + 120000 {
      SelfSynced(after);
      TakenAgain(before, after, claimed, scope, owner, now, max, after, last, again, scope, other, at, max, |claimed|);
    } else {
      var next := ClaimIsRight(after, last, again, scope, other, at, max);
      SameOrder(before, after, rows, next);
      RunningIsNotTaken(before, rows, after, claimed, scope, owner, now, max, 0);
      ListedRow(after, next, 0);
      FirstDecides(next, |again|, at, max);
    }
  }

  lemma {:induction false} SelfSynced(t: Table)
    ensures SameSynced(t, t)
  {
  }

  lemma {:induction false} TakesWithin(rows: seq<Row>, n: nat, now: int, max: nat)
    requires LongestDue(rows, n, now, max)
    ensures n <= max && n <= |rows| && forall i :: 0 <= i < n ==> Due(rows[i], now)
  {
    hide Due, SameKind;
  }

  lemma {:induction false} FirstDecides(rows: seq<Row>, n: nat, now: int, max: nat)
    requires LongestDue(rows, n, now, max) && rows != [] && !Due(rows[0], now)
    ensures n == 0
  {
    hide Due, SameKind;
  }

  /** A claim that took something found nothing stopped and stopped nothing. */
  lemma {:induction false} NoneStops(before: Table, rows: seq<Row>, after: Table, claimed: seq<Row>, scope: Scope, owner: string, now: int,
                                     max: nat, id: string)
    requires ClaimsRight(before, rows, after, claimed, scope, owner, now, max) && claimed != [] && id in after
    ensures !Stops(after[id])
  {
    hide IsOutstanding, LongestDue;
    if id in IdsOf(claimed) {
      var i :| 0 <= i < |claimed| && claimed[i].Id() == id;
      assert Leases(claimed[i], rows[i], scope, owner, now);
    } else {
      assert Leaves(after[id], before[id], id in IdsOf(rows), now) && !Stops(before[id]);
    }
  }

  // ----- Refusals -----

  /** The row carries the evidence of another scope. */
  predicate Foreign(r: Row, scope: Scope) {
    || (r.evidence.organizationId.Some?
        && (r.evidence.organizationId.value != scope.organizationId || r.evidence.festivalId != Some(scope.festivalId)))
    || (r.evidence.transportFingerprint.Some? && r.evidence.transportFingerprint.value != Fingerprint(r.tuple, scope))
  }

  ghost predicate MeetsForeign(before: Table, rows: seq<Row>, i: nat, n: nat, scope: Scope, now: int, max: nat) {
    IsOutstanding(before, rows, 100) && LongestDue(rows, n, now, max) && i < n && Foreign(rows[i], scope)
  }

  lemma {:induction false} ForeignIsUnbindable(r: Row, scope: Scope, now: int)
    ensures Bindable(Ready(r, true, now), scope) <==> !Foreign(r, scope)
  {
  }

  /** A claim is refused exactly when nothing stops it and a row it would take carries the evidence of another scope. */
  lemma {:induction false} RefusedForForeign(before: Table, scope: Scope, now: int, max: nat)
    requires Keyed(before)
    ensures ClaimRefused(before, scope, now, max) <==>
              && (forall id :: id in before ==> !Stops(before[id]))
              && exists rows: seq<Row>, i: nat, n: nat :: MeetsForeign(before, rows, i, n, scope, now, max)
  {
    hide IsOutstanding, Blocked, Refreshed, Ready, Stops, LongestDue, Foreign, Bindable, TakeLength;
    if ClaimRefused(before, scope, now, max) {
      var rows: seq<Row>, candidates: seq<Row> :|
        && IsOutstanding(before, rows, 100)
        && IsOutstanding(Refreshed(before, IdsOf(rows), now), candidates, 100)
        && !Blocked(Refreshed(before, IdsOf(rows), now))
        && Unbindable(candidates, scope, now, max);
      StopsIsBlocked(before, IdsOf(rows), now);
      ReadyOutstanding(before, rows, candidates, now);
      TakenIsLongest(rows, candidates, now, max);
      var n := TakeLength(candidates, candidates[0].tuple.payload.LedgerEvent?, now, max);
      var i: nat :| i < n && !Bindable(candidates[i], scope);
      ForeignIsUnbindable(rows[i], scope, now);
      assert MeetsForeign(before, rows, i, n, scope, now, max);
    }
    if (forall id :: id in before ==> !Stops(before[id]))
       && exists rows: seq<Row>, i: nat, n: nat :: MeetsForeign(before, rows, i, n, scope, now, max) {
      var rows: seq<Row>, i: nat, n: nat :| MeetsForeign(before, rows, i, n, scope, now, max);
      var candidates := ReadyRows(rows, now);
      StopsIsBlocked(before, IdsOf(rows), now);
      ReadyIsOutstanding(before, rows, now);
      TakesWithin(rows, n, now, max);
      TakenIsLongest(rows, candidates, now, max);
      SameLength(rows, n, TakeLength(candidates, candidates[0].tuple.payload.LedgerEvent?, now, max), now, max);
      ForeignIsUnbindable(rows[i], scope, now);
      MeetsUnbindable(candidates, i, scope, now, max);
      assert IsOutstanding(before, rows, BATCH) && IsOutstanding(Refreshed(before, IdsOf(rows), now), candidates, BATCH);
    }
  }

  lemma {:induction false} MeetsUnbindable(candidates: seq<Row>, i: nat, scope: Scope, now: int, max: nat)
    requires candidates != [] && i < TakeLength(candidates, candidates[0].tuple.payload.LedgerEvent?, now, max) && !Bindable(candidates[i], scope)
    ensures Unbindable(candidates, scope, now, max)
  {
  }

  lemma {:induction false} SameLength(rows: seq<Row>, n: nat, m: nat, now: int, max: nat)
    requires LongestDue(rows, n, now, max) && LongestDue(rows, m, now, max)
    ensures n == m
  {
    hide Due, SameKind;
  }
}
