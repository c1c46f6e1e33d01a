/**
 The transactions of the outbox (native/android/OutboxStore.kt) as a class over its tables.
 `Valid` is the protocol invariant; every method keeps it, so it holds on every run.
 */
module OutboxStore {
  import opened Ledger
  import opened OutboxRows
  import opened Outbox
  import opened Acks

  datatype Backfill = Backfill(
    ledgerCursor: nat,
    legacyCursor: string,
    legacyComplete: bool,
    batchLimit: nat,
    recoveryAttempts: nat,
    recoveryRequested: bool,
    enabled: bool,
    destinationId: string,
    captureError: bool)

  const BATCH := 100

  /** The sales older than the journal, in the order of their ids. */
  ghost predicate LegacyShape(legacy: seq<Order>) {
    && (forall n :: 0 <= n < |legacy| ==> TextBefore("", legacy[n].id))
    && (forall n, m :: 0 <= n < m < |legacy| ==> TextBefore(legacy[n].id, legacy[m].id))
  }

  // ----- Saved evidence of the destinations that are not active -----

  datatype Destination = Destination(ledger: bool, evidence: Evidence)

  type Saved = map<(string, string), Destination>

  /** Saved evidence belongs to a row of its type, so restoring it is never refused. */
  ghost predicate SavedFor(saved: Saved, t: Table) {
    forall d, id :: (d, id) in saved ==> id in t && saved[(d, id)].ledger == t[id].tuple.payload.LedgerEvent?
  }

  predicate SavedSyncedAt(saved: Saved, destination: string, ledger: seq<Entry>, n: int) {
    && 0 <= n < |ledger|
    && (destination, ledger[n].Id()) in saved
    && saved[(destination, ledger[n].Id())].ledger
    && saved[(destination, ledger[n].Id())].evidence.status == Synced
  }

  /** For every other destination, what it had received when it was left is a prefix too. */
  ghost predicate SavedPrefixes(saved: Saved, active: string, ledger: seq<Entry>) {
    forall d, m, n :: d != active && 0 <= m < n < |ledger| && SavedSyncedAt(saved, d, ledger, n) ==> SavedSyncedAt(saved, d, ledger, m)
  }

  // ----- Facts the transactions use -----

  lemma {:induction false} FreshRowIsNotSynced(t: Table, r: Row, ledger: seq<Entry>, n: int)
    requires r.Id() !in t && r.Status() == Pending
    ensures SyncedAt(t[r.Id() := r], ledger, n) <==> SyncedAt(t, ledger, n)
  {
  }

  lemma {:induction false} SyncedInLonger(t: Table, ledger: seq<Entry>, e: Entry, n: int)
    requires e.Id() !in t
    ensures SyncedAt(t, ledger + [e], n) <==> SyncedAt(t, ledger, n)
  {
  }

  /** A row added by capture or backfill is pending: it changes no synced prefix. */
  lemma {:induction false} AddedRow(t: Table, chain: string, ledger: seq<Entry>, legacy: seq<Order>, r: Row)
    requires RowsMatch(t, chain, ledger, legacy) && PrefixSynced(t, ledger) && r.Id() !in t && r.Status() == Pending
    requires match r.tuple.payload
             case LedgerEvent(e) => e in ledger && RowFor(r, chain, LedgerEvent(e))
             case LegacyOrder(o) => o in legacy && RowFor(r, chain, LegacyOrder(o))
    ensures RowsMatch(t[r.Id() := r], chain, ledger, legacy) && PrefixSynced(t[r.Id() := r], ledger)
    ensures forall n :: SyncedAt(t[r.Id() := r], ledger, n) <==> SyncedAt(t, ledger, n)
  {
    hide SyncedAt, RowFor;
    forall n ensures SyncedAt(t[r.Id() := r], ledger, n) <==> SyncedAt(t, ledger, n) {
      FreshRowIsNotSynced(t, r, ledger, n);
    }
    var after := t[r.Id() := r];
    forall m, n | 0 <= m < n < |ledger| && SyncedAt(after, ledger, n) ensures SyncedAt(after, ledger, m) {
      assert SyncedAt(t, ledger, n) && SyncedAt(t, ledger, m);
    }
  }

  lemma {:induction false} LongerLedger(t: Table, chain: string, ledger: seq<Entry>, legacy: seq<Order>, e: Entry)
    requires RowsMatch(t, chain, ledger, legacy) && PrefixSynced(t, ledger) && e.Id() !in t
    ensures RowsMatch(t, chain, ledger + [e], legacy) && PrefixSynced(t, ledger + [e])
    ensures forall n :: SyncedAt(t, ledger + [e], n) <==> SyncedAt(t, ledger, n)
  {
    hide SyncedAt, RowFor;
    forall n ensures SyncedAt(t, ledger + [e], n) <==> SyncedAt(t, ledger, n) {
      SyncedInLonger(t, ledger, e, n);
    }
    forall m, n | 0 <= m < n < |ledger + [e]| && SyncedAt(t, ledger + [e], n) ensures SyncedAt(t, ledger + [e], m) {
      assert n < |ledger| by { SyncedInside(t, ledger, n); }
    }
  }

  lemma {:induction false} SyncedInside(t: Table, ledger: seq<Entry>, n: int)
    requires SyncedAt(t, ledger, n)
    ensures 0 <= n < |ledger|
  {
  }

  lemma {:induction false} EverythingRecorded(t: Table, ledger: seq<Entry>, legacy: seq<Order>, e: Entry, r: Row)
    requires Everything(t, ledger, legacy) && r.Id() !in t && r.Id() == e.Id() && r.tuple.payload == LedgerEvent(e)
    ensures Everything(t[r.Id() := r], ledger + [e], legacy)
  {
  }

  lemma {:induction false} RecordedRow(t: Table, chain: string, ledger: seq<Entry>, legacy: seq<Order>, e: Entry, r: Row)
    requires RowsMatch(t, chain, ledger, legacy) && PrefixSynced(t, ledger)
    requires e.Id() !in t && RowFor(r, chain, LedgerEvent(e)) && r.Status() == Pending
    ensures RowsMatch(t[r.Id() := r], chain, ledger + [e], legacy) && PrefixSynced(t[r.Id() := r], ledger + [e])
    ensures Everything(t, ledger, legacy) ==> Everything(t[r.Id() := r], ledger + [e], legacy)
    ensures forall n :: SyncedAt(t[r.Id() := r], ledger + [e], n) <==> SyncedAt(t, ledger, n)
  {
    hide SyncedAt, RowsMatch, PrefixSynced, Everything;
    LongerLedger(t, chain, ledger, legacy, e);
    assert (ledger + [e])[|ledger|] == e;
    AddedRow(t, chain, ledger + [e], legacy, r);
    if Everything(t, ledger, legacy) { EverythingRecorded(t, ledger, legacy, e, r); }
  }

  /** No legacy sale is added or stops being synced. */
  ghost predicate LegacyKept(before: Table, after: Table) {
    forall id :: id in after && after[id].tuple.payload.LegacyOrder? ==>
      && id in before
      && before[id].tuple == after[id].tuple
      && (before[id].Status() == Synced ==> after[id].Status() == Synced)
  }

  /** A claim survives whatever leaves its rows held and the synced rows as they were. */
  lemma {:induction false} ClaimSurvives(before: Table, after: Table, ledger: seq<Entry>, later: seq<Entry>, c: Claim)
    requires ClaimHeld(before, ledger, c) && ledger <= later
    requires forall i :: 0 <= i < |c.rows| ==> HeldBy(after, c.owner, c.rows[i])
    requires forall n :: SyncedAt(after, later, n) <==> SyncedAt(before, ledger, n)
    requires c.rows != [] && c.rows[0].payload.LedgerEvent? ==> LegacyKept(before, after)
    ensures ClaimHeld(after, later, c)
  {
    if c.rows != [] && c.rows[0].payload.LedgerEvent? {
      var k :| BlockAt(before, ledger, c.rows, k);
      assert BlockAt(after, later, c.rows, k);
    }
  }

  // ----- No row is sent by a worker that is gone -----

  ghost predicate Names(rows: seq<Tuple>, id: string) { exists i :: 0 <= i < |rows| && rows[i].eventId == id }

  /** Every row being sent belongs to the live claim; only a crash leaves another one. */
  ghost predicate NoOrphans(t: Table, live: Option<Claim>) {
    forall id :: id in t && t[id].Status() == Sending ==> live.Some? && Names(live.value.rows, id)
  }

  /** No row starts being sent. */
  predicate NoNewSender(before: Table, after: Table) {
    forall id :: id in after && after[id].Status() == Sending ==> id in before && before[id].Status() == Sending
  }

  lemma {:induction false} StillNoOrphans(before: Table, after: Table, live: Option<Claim>)
    requires NoNewSender(before, after)
    ensures NoOrphans(before, live) ==> NoOrphans(after, live)
  {
  }

  lemma {:induction false} RefreshSendsNothing(t: Table, skewed: set<string>, now: int, live: Option<Claim>)
    ensures NoOrphans(t, live) ==> NoOrphans(Refreshed(t, skewed, now), live)
  {
  }

  lemma {:induction false} SendsNothing(t: Table)
    ensures NothingSending(t) <==> NoOrphans(t, None)
  {
  }

  lemma {:induction false} CapturedSendsNothing(before: Table, after: Table, chain: string, live: Option<Claim>)
    requires Captured(before, after, chain)
    ensures NoOrphans(before, live) ==> NoOrphans(after, live)
  {
  }

  lemma {:induction false} HeldNames(held: seq<Row>, id: string)
    ensures Names(Tuples(held), id) <==> id in IdsOf(held)
  {
    if id in IdsOf(held) {
      var i :| 0 <= i < |held| && held[i].Id() == id;
      assert Tuples(held)[i].eventId == id;
    }
  }

  lemma {:induction false} ReleaseLeavesNoOrphans(t: Table, owner: string, held: seq<Row>, from: nat, status: RowStatus, code: string, next: int)
    requires from <= |held| && status != Sending && NoOrphans(t, Some(LiveClaim(owner, Tuples(held))))
    ensures NoOrphans(Change(t, Released(status, code, next), IdsOf(held[from..])),
                      if from == 0 then None else Some(LiveClaim(owner, Tuples(held[..from]))))
  {
    hide Names, IdsOf;
    forall id | id in t && t[id].Status() == Sending && id !in IdsOf(held[from..])
      ensures from > 0 && Names(Tuples(held[..from]), id)
    {
      HeldNames(held, id);
      SplitIds(held, from, id);
      HeldNames(held[..from], id);
    }
  }

  lemma {:induction false} SplitIds(held: seq<Row>, from: nat, id: string)
    requires from <= |held| && id in IdsOf(held) && id !in IdsOf(held[from..])
    ensures from > 0 && id in IdsOf(held[..from])
  {
    var i :| 0 <= i < |held| && held[i].Id() == id;
    forall k | from <= k < |held| ensures held[k].Id() in IdsOf(held[from..]) {
      assert held[from..][k - from] == held[k];
    }
    assert held[..from][i].Id() == id;
  }

  lemma {:induction false} AckLeavesNoOrphans(t: Table, owner: string, held: seq<Row>, known: map<string, Ack>, now: int)
    requires NoOrphans(t, Some(LiveClaim(owner, Tuples(held)))) && forall i :: 0 <= i < |held| ==> held[i].Id() in known
    ensures NoOrphans(ConfirmAll(t, IdsOf(held), known, now), None)
  {
    hide Names;
    var after := ConfirmAll(t, IdsOf(held), known, now);
    forall id | id in after ensures after[id].Status() != Sending {
      HeldNames(held, id);
    }
  }

  /** Only the claim starts sending. */
  lemma {:induction false} TakeLeavesNoOrphans(t: Table, candidates: seq<Row>, n: nat, scope: Scope, owner: string, now: int)
    requires NoOrphans(t, None) && n <= |candidates|
    ensures NoOrphans(Change(t, BindWith(scope, owner, now), IdsOf(candidates[..n])),
                      if n == 0 then None else Some(ClaimOf(owner, Taken(candidates[..n], scope, owner, now))))
  {
    hide Names, IdsOf;
    var taken := candidates[..n];
    if n == 0 { assert IdsOf(taken) == {} by { NoIds(taken); } }
    forall id | id in IdsOf(taken) ensures n > 0 && Names(Tuples(Taken(taken, scope, owner, now)), id) {
      TakenIds(taken, scope, owner, now);
      HeldNames(Taken(taken, scope, owner, now), id);
    }
  }

  lemma {:induction false} NoIds(rows: seq<Row>)
    ensures rows == [] <==> IdsOf(rows) == {}
  {
    if rows != [] { assert rows[0].Id() in IdsOf(rows); }
  }

  lemma {:induction false} TakenIds(rows: seq<Row>, scope: Scope, owner: string, now: int)
    ensures IdsOf(Taken(rows, scope, owner, now)) == IdsOf(rows)
  {
    forall i | 0 <= i < |rows| ensures Taken(rows, scope, owner, now)[i].Id() == rows[i].Id() {
    }
    assert forall id :: id in IdsOf(rows) ==> exists i :: 0 <= i < |rows| && Taken(rows, scope, owner, now)[i].Id() == id;
  }

  class Store {
    const chain: string
    /** The source tables: journal entries by sequence, unsealed sales by id. */
    var ledger: seq<Entry>
    var legacy: seq<Order>
    var rows: Table
    var backfill: Backfill
    var saved: Saved

    /** The claim of the one live worker, if it holds any. A crash forgets it. */
    ghost var live: Option<Claim>

    ghost predicate Valid()
      reads this
    {
      && JournalShape(ledger)
      && LegacyShape(legacy)
      && RowsMatch(rows, chain, ledger, legacy)
      && PrefixSynced(rows, ledger)
      && SavedPrefixes(saved, backfill.destinationId, ledger)
      && SavedFor(saved, rows)
      && (live.Some? ==> ClaimHeld(rows, ledger, live.value) && Everything(rows, ledger, legacy))
    }

    constructor (chainId: string, orders: seq<Order>, destination: string)
      requires LegacyShape(orders)
      ensures Valid() && ledger == [] && legacy == orders && rows == map[] && live.None?
    {
      chain, ledger, legacy, rows, saved, live := chainId, [], orders, map[], map[], None;
      backfill := Backfill(0, "", false, 100, 0, false, true, destination, false);
    }

    /** capture, inside the financial transaction: the entry and its row are stored together or not at all. */
    method Record(e: Entry) returns (ok: bool)
      requires Valid() && JournalShape(ledger + [e])
      modifies `ledger, `rows
      ensures Valid()
      ensures ok <==> e.Id() !in old(rows)
      ensures ok ==> ledger == old(ledger) + [e]
                     && rows == old(rows)[e.Id() := Row(Tuple(e.Id(), chain, LedgerEvent(e)), UNSENT)]
      ensures !ok ==> unchanged(this)
      ensures Preserved(old(rows), rows)
      ensures old(Everything(rows, ledger, legacy)) ==> Everything(rows, ledger, legacy)
      ensures old(NoOrphans(rows, live)) ==> NoOrphans(rows, live)
    {
      hide NoOrphans, JournalShape, RowsMatch, PrefixSynced, Everything, ClaimHeld;
      ok := e.Id() !in rows;
      if !ok { return; }
      var r := Row(Tuple(e.Id(), chain, LedgerEvent(e)), UNSENT);
      RecordedRow(rows, chain, ledger, legacy, e, r);
      SavedGrows(saved, backfill.destinationId, ledger, e, rows);
      if live.Some? { AddedRowKeepsClaim(rows, ledger, ledger + [e], live.value, r); }
      StillNoOrphans(rows, rows[e.Id() := r], live);
      ledger := ledger + [e];
      rows := rows[e.Id() := r];
    }

    // ----- Claim -----

    /**
     The first outstanding rows become one claim. None is a foreign chain or a refused
     binding, never a missing predecessor, and leaves the store untouched; an empty claim
     means nothing can be sent now.
     */
    method Claim(scope: Scope, owner: string, now: int, limit: nat) returns (claimed: Option<seq<Row>>)
      requires Valid() && live.None? && Everything(rows, ledger, legacy)
      modifies `rows, `live
      ensures Valid() && Everything(rows, ledger, legacy)
      ensures Preserved(old(rows), rows) && SameSynced(old(rows), rows)
      ensures claimed.None? <==> scope.chainId != chain || ClaimRefused(old(rows), scope, now, Min(limit, backfill.batchLimit))
      ensures claimed.None? ==> unchanged(this)
      ensures claimed.Some? ==> live == if claimed.value == [] then None else Some(ClaimOf(owner, claimed.value))
      ensures claimed.Some? ==> ClaimSpec(old(rows), rows, claimed.value, scope, owner, now, Min(limit, backfill.batchLimit))
      ensures old(NoOrphans(rows, live)) ==> NoOrphans(rows, live)
    {
      hide NoOrphans, JournalShape, RowsMatch, PrefixSynced, Everything, LegacyShape, SavedPrefixes, IsOutstanding, Blocked, ClaimHeld,
           SameSynced, Preserved, Refreshed, BindWith, ClaimRefused, Bindable, Follows, Takes;
      SameTable(rows);
      RowsAreKeyed(rows, chain, ledger, legacy);
      if scope.chainId != chain { return None; }
      var first := QueryOutstanding(rows, BATCH);
      var ready := Refreshed(rows, IdsOf(first), now);
      RefreshSendsNothing(rows, IdsOf(first), now, None);
      RefreshKeeps(rows, IdsOf(first), now);
      SameSyncedKeeps(rows, ready, chain, ledger, legacy);
      RowsAreKeyed(ready, chain, ledger, legacy);
      var candidates := QueryOutstanding(ready, BATCH);
      var max := Min(limit, backfill.batchLimit);
      RefusedIs(rows, first, candidates, scope, now, max);
      if Blocked(ready) || candidates == [] {
        assert ClaimSteps(rows, first, candidates, ready, [], scope, owner, now, max);
        SavedStays(saved, rows, ready);
        rows := ready;
        return Some([]);
      }
      var n, accepted := TakeRows(candidates, scope, now, max);
      CandidatesFollow(ready, chain, ledger, legacy, candidates, now, max);
      if !accepted { return None; }
      var t := Change(ready, BindWith(scope, owner, now), IdsOf(candidates[..n]));
      TakenKeeps(ready, candidates, n, scope, owner, now);
      KeptTwice(rows, ready, t);
      if NoOrphans(ready, None) { TakeLeavesNoOrphans(ready, candidates, n, scope, owner, now); }
      SameSyncedKeeps(ready, t, chain, ledger, legacy);
      SavedStays(saved, rows, t);
      assert ClaimSteps(rows, first, candidates, t, Taken(candidates[..n], scope, owner, now), scope, owner, now, max);
      rows := t;
      claimed := Some(Taken(candidates[..n], scope, owner, now));
      if n > 0 {
        live := Some(ClaimOf(owner, claimed.value));
        TakenIsClaim(ready, chain, ledger, legacy, candidates, n, scope, owner, now);
      }
    }

    // ----- The claim in flight -----

    /** renew: the lease of every held row is pushed back, or nothing changes. */
    method Renew(held: seq<Row>, owner: string, now: int) returns (ok: bool)
      requires Valid() && live == Some(LiveClaim(owner, Tuples(held)))
      modifies `rows
      ensures Valid()
      ensures ok <==> forall i :: 0 <= i < |held| ==> held[i].Id() in old(rows) && LeaseAlive(old(rows)[held[i].Id()], now)
      ensures rows == if ok then Change(old(rows), Renewed(now), IdsOf(held)) else old(rows)
      ensures Preserved(old(rows), rows) && SameSynced(old(rows), rows)
      ensures old(NoOrphans(rows, live)) ==> NoOrphans(rows, live)
    {
      hide NoOrphans, JournalShape, RowsMatch, PrefixSynced, LegacyShape, SavedPrefixes, SameSynced, Preserved, Block, LeaseAlive;
      SameTable(rows);
      HeldRows(rows, ledger, live.value, held);
      ok := forall i :: 0 <= i < |held| ==>
        (var lease := rows[held[i].Id()].evidence.leaseExpiresAt; lease.Some? && lease.value > now);
      AllAlive(rows, held, now);
      if !ok { return; }
      var t := LeasedOn(rows, IdsOf(held), now);
      QuietChange(rows, chain, ledger, legacy, saved, live.value, held, Renewed(now));
      StillNoOrphans(rows, t, live);
      rows := t;
    }

    /** markAttempt: one more attempt on every held row; the worker goes on with the updated rows. */
    method MarkAttempt(held: seq<Row>, owner: string, now: int) returns (marked: seq<Row>)
      requires Valid() && live == Some(LiveClaim(owner, Tuples(held)))
      modifies `rows
      ensures Valid()
      ensures rows == Change(old(rows), Attempted(now), IdsOf(held))
      ensures Tuples(marked) == Tuples(held)
      ensures forall i :: 0 <= i < |marked| ==> marked[i].Id() in rows && marked[i] == rows[marked[i].Id()]
      ensures Preserved(old(rows), rows) && SameSynced(old(rows), rows)
      ensures old(NoOrphans(rows, live)) ==> NoOrphans(rows, live)
    {
      hide NoOrphans, JournalShape, RowsMatch, PrefixSynced, LegacyShape, SavedPrefixes, SameSynced, Preserved, Block;
      HeldRows(rows, ledger, live.value, held);
      QuietChange(rows, chain, ledger, legacy, saved, live.value, held, Attempted(now));
      var t := TriedOnce(rows, IdsOf(held), now);
      StillNoOrphans(rows, t, live);
      rows := t;
      marked := seq(|held|, i requires 0 <= i < |held| reads this => if held[i].Id() in rows then rows[held[i].Id()] else held[i]);
    }

    /** release: the rows from `from` on leave the claim with the given status, the rest stays claimed. */
    method Release(held: seq<Row>, from: nat, owner: string, status: RowStatus, code: string, next: int)
      requires Valid() && live == Some(LiveClaim(owner, Tuples(held))) && from <= |held|
      requires status != Synced && status != Sending
      modifies `rows, `live
      ensures Valid()
      ensures rows == Change(old(rows), Released(status, code, next), IdsOf(held[from..]))
      ensures live == if from == 0 then None else Some(LiveClaim(owner, Tuples(held[..from])))
      ensures Preserved(old(rows), rows) && SameSynced(old(rows), rows)
      ensures old(Everything(rows, ledger, legacy)) ==> Everything(rows, ledger, legacy)
      ensures old(NoOrphans(rows, live)) ==> NoOrphans(rows, live)
    {
      hide NoOrphans, JournalShape, RowsMatch, PrefixSynced, LegacyShape, SavedPrefixes, SameSynced, Preserved, Everything;
      HeldRows(rows, ledger, live.value, held);
      ReleaseKeeps(rows, ledger, live.value, held, from, status, code, next);
      var t := GivenBack(rows, IdsOf(held[from..]), status, code, next);
      SameSyncedKeeps(rows, t, chain, ledger, legacy);
      SavedStays(saved, rows, t);
      if NoOrphans(rows, live) { ReleaseLeavesNoOrphans(rows, owner, held, from, status, code, next); }
      rows := t;
      live := if from == 0 then None else Some(LiveClaim(owner, Tuples(held[..from])));
    }

    /** A worker that dies leaves its rows claimed: only the expiry of their lease frees them. */
    ghost method Crash()
      requires Valid()
      modifies `live
      ensures Valid() && live.None?
    {
      live := None;
    }

    /**
     acknowledge: every held row becomes synced with its receipt, or nothing changes. The
     synced ledger rows stay a prefix: the block was the one right after it. A worker that
     has lost its claim is refused, whatever the server answered.
     */
    method Acknowledge(held: seq<Row>, owner: string, request: Request, response: Response, wellFormed: Ack -> bool, now: int)
        returns (ok: bool)
      requires Valid() && held != [] && (live == Some(LiveClaim(owner, Tuples(held))) || HoldsNothing(rows, owner))
      requires request.events == EventsOf(held)
      modifies `rows, `live, `saved, `backfill
      ensures Valid()
      ensures ok <==> !HoldsNothing(old(rows), owner) && GoodReply(request, response, wellFormed)
                      && Confirmable(old(rows), held, response.acknowledgements)
      ensures !ok ==> unchanged(this)
      ensures rows.Keys == old(rows).Keys
      ensures ok ==> live.None? && forall id :: id in rows ==>
        if id in IdsOf(held) then ConfirmedFrom(old(rows)[id], rows[id], response.acknowledgements, now) else rows[id] == old(rows)[id]
      ensures Preserved(old(rows), rows)
      ensures SameCursors(old(backfill), backfill) && KeepsOthers(old(saved), saved, backfill.destinationId)
      ensures old(Everything(rows, ledger, legacy)) ==> Everything(rows, ledger, legacy)
      ensures old(NoOrphans(rows, live)) ==> NoOrphans(rows, live)
    {
      hide NoOrphans, JournalShape, RowsMatch, PrefixSynced, LegacyShape, SavedPrefixes, Everything, GoodReply, Answers, Confirmable,
           AllConfirmable, ConfirmAll, EvidenceOf, ConfirmedFrom, Indexes, Preserved, ClaimHeld, KeepsOthers, HoldsAll, HoldsNothing,
           SavedFor, HeldBy;
      OthersSame(saved, backfill.destinationId);
      SameTable(rows);
      var acks := ValidateAck(request, response, wellFormed);
      if acks.None? { return false; }
      HoldsExactly(rows, ledger, live, owner, held);
      if !HoldsAll(rows, owner, held) { return false; }
      HeldRows(rows, ledger, live.value, held);
      EventsAnswered(held, request, response, acks.value);
      ConfirmableByMap(rows, held, response.acknowledgements, acks.value);
      if !AllConfirmable(rows, held, acks.value) { return false; }
      RowsAreKeyed(rows, chain, ledger, legacy);
      var t := ConfirmEach(rows, held, acks.value, now);
      var updated := saved + EvidenceOf(t, IdsOf(held), backfill.destinationId);
      AckKeeps(rows, chain, ledger, legacy, saved, backfill.destinationId, owner, held, response.acknowledgements, acks.value, now);
      if exists i :: 0 <= i < |held| && held[i].tuple.payload.LedgerEvent? { backfill := backfill.(recoveryAttempts := 0); }
      rows, saved, live := t, updated, None;
      return true;
    }

    // ----- Recovery -----

    /**
     requeueProvenPrefix: every synced ledger row is pending again, so the synced prefix is
     empty. It must not run while a claim is live: see RequeueUnderAClaim.
     */
    method RequeueProvenPrefix(includeLegacy: bool)
      requires Valid() && live.None?
      modifies `rows
      ensures Valid()
      ensures rows == Requeued(old(rows), includeLegacy)
      ensures forall n :: !SyncedAt(rows, ledger, n)
      ensures Preserved(old(rows), rows)
      ensures old(Everything(rows, ledger, legacy)) ==> Everything(rows, ledger, legacy)
      ensures old(NoOrphans(rows, live)) ==> NoOrphans(rows, live)
    {
      hide NoOrphans, JournalShape, LegacyShape, SavedPrefixes, Everything;
      RequeueKeeps(rows, chain, ledger, legacy, includeLegacy);
      StillNoOrphans(rows, Requeued(rows, includeLegacy), live);
      rows := PendingAgain(rows, includeLegacy);
    }

    /** reduceBatch: half the batch, and the rows refused for size are tried again. */
    method ReduceBatch() returns (reduced: bool)
      requires Valid() && live.None?
      modifies `rows, `backfill
      ensures Valid()
      ensures reduced <==> old(backfill.batchLimit) > 1
      ensures reduced ==> backfill.batchLimit == if old(backfill.batchLimit) < 4 then 1 else old(backfill.batchLimit) / 2
      ensures backfill == old(backfill).(batchLimit := backfill.batchLimit) && (!reduced ==> backfill == old(backfill))
      ensures rows == if reduced then Shrunk(old(rows)) else old(rows)
      ensures SameSynced(old(rows), rows) && Preserved(old(rows), rows)
      ensures old(NoOrphans(rows, live)) ==> NoOrphans(rows, live)
    {
      hide NoOrphans, JournalShape, RowsMatch, PrefixSynced, LegacyShape, SavedPrefixes, SavedFor, SameSynced, Preserved, Shrunk;
      SameTable(rows);
      if backfill.batchLimit <= 1 { return false; }
      var t := SizesAgain(rows);
      ShrinkKeeps(rows);
      SameSyncedKeeps(rows, t, chain, ledger, legacy);
      backfill := backfill.(batchLimit := if backfill.batchLimit / 2 > 1 then backfill.batchLimit / 2 else 1);
      SavedStays(saved, rows, t);
      StillNoOrphans(rows, t, live);
      rows := t;
      return true;
    }

    /** blockChain: the first outstanding row, unless it is being sent, gets a blocking status. */
    method BlockChain(status: RowStatus, code: string)
      requires Valid() && live.None? && status in {NeedsRecovery, Quarantined}
      modifies `rows
      ensures Valid()
      ensures SameSynced(old(rows), rows) && Preserved(old(rows), rows)
      ensures BlocksFirst(old(rows), rows, status, code)
      ensures old(NoOrphans(rows, live)) ==> NoOrphans(rows, live)
    {
      hide NoOrphans, JournalShape, RowsMatch, PrefixSynced, LegacyShape, SavedPrefixes;
      SameTable(rows);
      RowsAreKeyed(rows, chain, ledger, legacy);
      var first := QueryOutstanding(rows, 1);
      assert IsOutstanding(rows, first, 1);
      if first == [] || first[0].Status() == Sending { return; }
      var id := first[0].Id();
      var t := rows[id := rows[id].(evidence := rows[id].evidence.(status := status, lastError := Some(code)))];
      assert SameSynced(rows, t) && Preserved(rows, t) && t[id].Status() == status;
      SameSyncedKeeps(rows, t, chain, ledger, legacy);
      StillNoOrphans(rows, t, live);
      rows := t;
    }

    /** bindPage: the rows of a recovery page get their fingerprint; a refused binding changes nothing. */
    method BindPage(page: seq<Row>, scope: Scope) returns (bound: Option<seq<Row>>)
      requires Valid() && live.None? && forall i :: 0 <= i < |page| ==> page[i].Id() in rows
      modifies `rows
      ensures Valid()
      ensures bound.Some? <==> forall i :: 0 <= i < |page| ==> page[i].Id() in old(rows) && Bindable(old(rows)[page[i].Id()], scope)
      ensures rows == if bound.Some? then Change(old(rows), Scoped(scope), IdsOf(page)) else old(rows)
      ensures bound.Some? ==> |bound.value| == |page| && forall i :: 0 <= i < |page| ==>
                page[i].Id() in rows && bound.value[i] == rows[page[i].Id()]
      ensures SameSynced(old(rows), rows) && Preserved(old(rows), rows)
      ensures old(Everything(rows, ledger, legacy)) ==> Everything(rows, ledger, legacy)
      ensures old(NoOrphans(rows, live)) ==> NoOrphans(rows, live)
    {
      hide NoOrphans, JournalShape, RowsMatch, PrefixSynced, LegacyShape, SavedPrefixes, Bindable, Everything;
      SameTable(rows);
      if !forall i :: 0 <= i < |page| ==> Bindable(rows[page[i].Id()], scope) { return None; }
      var t := InScope(rows, IdsOf(page), scope);
      assert SameSynced(rows, t) && Preserved(rows, t);
      SameSyncedKeeps(rows, t, chain, ledger, legacy);
      StillNoOrphans(rows, t, live);
      rows := t;
      bound := Some(seq(|page|, i requires 0 <= i < |page| => if page[i].Id() in t then t[page[i].Id()] else page[i]));
    }

    /** allowAutomaticRecovery: one automatic recovery until the next ledger acknowledgement. */
    method CountRecovery()
      requires Valid()
      modifies `backfill
      ensures Valid() && backfill == old(backfill).(recoveryAttempts := old(backfill).recoveryAttempts + 1)
    {
      backfill := backfill.(recoveryAttempts := backfill.recoveryAttempts + 1);
    }

    method RecordCaptureFailure()
      requires Valid()
      modifies `backfill
      ensures Valid() && backfill == old(backfill).(captureError := true)
    {
      backfill := backfill.(captureError := true);
    }

    /** takeRecoveryRequest: a request is taken once. */
    method TakeRecoveryRequest() returns (requested: bool)
      requires Valid()
      modifies `backfill
      ensures Valid() && backfill == old(backfill).(recoveryRequested := false)
      ensures requested == old(backfill.recoveryRequested)
    {
      requested := backfill.recoveryRequested;
      backfill := backfill.(recoveryRequested := false);
    }

    // ----- Backfill -----

    /** The sales older than the journal come first. */
    method LegacyStep() returns (t: Option<Table>, state: Backfill, remaining: nat)
      requires Reached(rows, ledger, legacy, backfill) && LegacyShape(legacy)
      ensures t.Some? ==> Captured(rows, t.value, chain) && Sourced(rows, t.value, ledger, legacy)
      ensures t.Some? ==> Reached(t.value, ledger, legacy, state) && SameSettings(backfill, state)
      ensures remaining <= BATCH
      ensures t.Some? ==> Left(ledger, legacy, state) == Left(ledger, legacy, backfill) - (BATCH - remaining)
      ensures t.Some? ==> (state.legacyComplete <==> remaining > 0)
      ensures t.None? ==> LegacyCollides(rows, chain, legacy)
    {
      hide Collides, TextBefore, LegacyShape, Reached, Left, HasPayload;
      CapturedNothing(rows, chain);
      if backfill.legacyComplete { return Some(rows), backfill, BATCH; }
      var p := AfterCursor(legacy, backfill.legacyCursor);
      var q := Outbox.Min(p + BATCH, |legacy|);
      t := CapturePage(rows, LegacyPayloads(legacy[p..q]));
      state := LegacyState(legacy, backfill, p, q);
      remaining := BATCH - (q - p);
      if t.None? { LegacyPageCollides(rows, chain, legacy, p, q); }
      if t.Some? { LegacyPageReached(rows, t.value, chain, ledger, legacy, backfill, p, q); }
    }

    /** Then the journal entries after the cursor, within what remains of the batch. */
    method LedgerStep(t: Table, state: Backfill, remaining: nat) returns (after: Option<Table>, next: Backfill, size: nat)
      requires Reached(t, ledger, legacy, state) && JournalShape(ledger)
      ensures after.Some? ==> Captured(t, after.value, chain) && Sourced(t, after.value, ledger, legacy)
      ensures after.Some? ==> Reached(after.value, ledger, legacy, next) && SameSettings(state, next)
      ensures next == state.(ledgerCursor := next.ledgerCursor) && size <= remaining
      ensures next.ledgerCursor == state.ledgerCursor + size <= |ledger|
      ensures size < remaining ==> next.ledgerCursor == |ledger|
      ensures after.None? ==> LedgerCollides(t, chain, ledger)
    {
      hide Collides, TextBefore, JournalShape, HasPayload, HasEntry, HasLegacy;
      var from := state.ledgerCursor;
      var to := Outbox.Min(from + remaining, |ledger|);
      size, next := to - from, state;
      after := CapturePage(t, LedgerPayloads(ledger[from..to]));
      if to > from {
        LastSequence(ledger, to);
        next := state.(ledgerCursor := ledger[to - 1].Sequence());
      }
      if after.None? { LedgerPageCollides(t, chain, ledger, from, to); }
      if after.Some? { LedgerPageReached(t, after.value, chain, ledger, legacy, state, from, to); }
    }

    /**
     One batch of at most 100 source records, at any moment of a claim. True means the outbox
     is complete. It is refused only over an order and an entry that share their id, and then
     leaves the store untouched.
     */
    method BackfillBatch() returns (complete: Option<bool>)
      requires Valid() && Reached(rows, ledger, legacy, backfill)
      modifies `rows, `backfill
      ensures Valid() && Reached(rows, ledger, legacy, backfill)
      ensures complete.None? ==> unchanged(this) && Clash(ledger, legacy)
      ensures complete == Some(true) ==> Everything(rows, ledger, legacy)
      ensures complete == Some(true) ==> old(Left(ledger, legacy, backfill)) < BATCH && Left(ledger, legacy, backfill) == 0
      ensures complete == Some(false) ==> Left(ledger, legacy, backfill) == old(Left(ledger, legacy, backfill)) - BATCH
      ensures complete.Some? ==> Captured(old(rows), rows, chain)
      ensures old(Everything(rows, ledger, legacy)) ==> complete.Some? && rows == old(rows)
      ensures SameSettings(old(backfill), backfill)
      ensures old(NoOrphans(rows, live)) ==> NoOrphans(rows, live)
    {
      hide NoOrphans, JournalShape, RowsMatch, PrefixSynced, Everything, SavedPrefixes, LegacyShape, TextBefore, Reached, Left, Captured, Sourced,
           Clash, LegacyCollides, LedgerCollides, ClaimHeld;
      if Everything(rows, ledger, legacy) { NoClash(rows, chain, ledger, legacy); }
      var half, mid, remaining := LegacyStep();
      if half.None? {
        LegacyCollision(rows, chain, ledger, legacy);
        return None;
      }
      CapturedKeeps(rows, half.value, chain, ledger, legacy, saved);
      var t, state, size := LedgerStep(half.value, mid, remaining);
      if t.None? {
        LedgerCollision(half.value, chain, ledger, legacy);
        return None;
      }
      LedgerLeft(ledger, legacy, mid, state);
      var done := state.legacyComplete && size < remaining;
      if done {
        NothingLeft(ledger, legacy, state);
        state := state.(captureError := false);
        CompleteBatch(t.value, ledger, legacy, state);
      }
      CapturedTwice(rows, half.value, t.value, chain);
      SourcedTwice(rows, half.value, t.value, chain, ledger, legacy);
      CapturedKeeps(rows, t.value, chain, ledger, legacy, saved);
      if Everything(rows, ledger, legacy) { NothingNew(rows, t.value, chain, ledger, legacy); }
      CapturedSendsNothing(rows, t.value, chain, live);
      rows, backfill := t.value, state;
      return Some(done);
    }

    /** insertIdentical for a page of source records. */
    method CapturePage(t: Table, payloads: seq<Payload>) returns (after: Option<Table>)
      ensures after.None? <==> Collides(t, chain, payloads)
      ensures after.Some? ==> Inserted(t, after.value, chain, payloads)
    {
      var u := t;
      for i := 0 to |payloads|
        invariant Inserted(t, u, chain, payloads[..i])
      {
        var id := match payloads[i] case LedgerEvent(e) => e.Id() case LegacyOrder(o) => o.id;
        var r := Row(Tuple(id, chain, payloads[i]), Evidence(None, None, None, Pending, 0, None, 0, None, None, None, None, None, None));
        assert r == NewRow(chain, payloads[i]);
        assert payloads[..i + 1] == payloads[..i] + [payloads[i]];
        if r.Id() !in u {
          InsertedOne(t, u, chain, payloads[..i], payloads[i]);
          u := u[r.Id() := r];
        } else if u[r.Id()].tuple != r.tuple {
          CollidesAt(t, u, chain, payloads, i);
          return None;
        }
      }
      assert payloads[..|payloads|] == payloads;
      NoCollision(t, u, chain, payloads);
      return Some(u);
    }

    /** The loop of recovery: rewind the cursors and capture until complete, or give up on a refused capture. */
    method RewindAndBackfill() returns (ok: bool)
      requires Valid()
      modifies `rows, `backfill
      ensures Valid() && Reached(rows, ledger, legacy, backfill) && (ok ==> Everything(rows, ledger, legacy))
      ensures ok <==> !Clash(ledger, legacy)
      ensures Captured(old(rows), rows, chain)
      ensures SameSettings(old(backfill), backfill)
      ensures old(NoOrphans(rows, live)) ==> NoOrphans(rows, live)
    {
      hide NoOrphans, JournalShape, RowsMatch, PrefixSynced, Everything, SavedPrefixes, LegacyShape, Left, Reached, Captured, Clash, ClaimHeld;
      backfill := backfill.(ledgerCursor := 0, legacyCursor := "", legacyComplete := false);
      StartReached(rows, ledger, legacy, backfill);
      CapturedNothing(rows, chain);
      ghost var before := rows;
      var complete := false;
      while !complete
        invariant Valid() && Reached(rows, ledger, legacy, backfill) && Captured(before, rows, chain)
        invariant complete ==> Everything(rows, ledger, legacy)
        invariant SameSettings(old(backfill), backfill)
        invariant old(NoOrphans(rows, live)) ==> NoOrphans(rows, live)
        decreases if complete then 0 else 1 + Left(ledger, legacy, backfill)
      {
        ghost var here := rows;
        var step := BackfillBatch();
        if step.None? { return false; }
        CapturedTwice(before, here, rows, chain);
        complete := step.value;
      }
      NoClash(rows, chain, ledger, legacy);
      return true;
    }

    // ----- Destinations -----

    /**
     selectDestination: the evidence of every row is saved under the destination that is
     left and replaced by what the new one had, page after page, each row exactly once. A
     row still being sent refuses the switch; once its lease is over the switch takes the
     claim away from its worker.
     */
    method SelectDestination(target: string, now: int) returns (ok: bool)
      requires Valid()
      modifies `rows, `backfill, `saved, `live
      ensures Valid()
      ensures !ok ==> unchanged(this)
      ensures target != old(backfill.destinationId) && old(live).Some? && Leased(old(rows), old(live).value, now) ==> !ok
      ensures ok && target != old(backfill.destinationId) ==> live.None? && NothingSending(rows)
      ensures ok <==> target == old(backfill.destinationId) || forall id :: id in old(rows) ==> !Busy(old(rows)[id], now)
      ensures ok && target == old(backfill.destinationId) ==> unchanged(this)
      ensures ok && target != old(backfill.destinationId) ==>
        && rows == SwitchAll(old(rows), old(saved), target)
        && saved == old(saved) + EvidenceOf(old(rows), old(rows).Keys, old(backfill.destinationId))
        && backfill == old(backfill).(destinationId := target, ledgerCursor := 0, legacyCursor := "", legacyComplete := false,
                                      recoveryAttempts := 0, recoveryRequested := false)
      ensures old(NoOrphans(rows, live)) ==> NoOrphans(rows, live)
    {
      hide NoOrphans, JournalShape, RowsMatch, PrefixSynced, SavedPrefixes, LegacyShape, TextBefore, Switched, SwitchSome, SwitchAll, EvidenceOf,
           SavedFor, IsPage, Busy, ClaimHeld, Everything, Leased, NothingSending;
      var active := backfill.destinationId;
      if active == target { return true; }
      var cursor, t, kept := "", rows, saved;
      ghost var visited: set<string> := {};
      IdsAreNotEmpty(rows, chain, ledger, legacy);
      AllSwitched(rows, saved, target);
      while true
        invariant visited <= rows.Keys
        invariant forall id :: id in rows ==> (id in visited <==> !TextBefore(cursor, id))
        invariant t == SwitchSome(rows, saved, target, visited)
        invariant kept == saved + EvidenceOf(rows, visited, active)
        invariant forall id :: id in visited ==> !Busy(rows[id], now)
        modifies {}
        decreases rows.Keys - visited
      {
        var page := QueryPage(rows, cursor, BATCH);
        PageFacts(rows, cursor, page);
        if page == [] {
          assert visited == rows.Keys;
          break;
        }
        NextPage(rows, cursor, page, visited);
        var ids := PageIds(page);
        NotYetSwitched(rows, saved, target, visited, page);
        var free, after, evidence := SwitchPage(rows, t, kept, page, saved, target, active, now);
        if !free { return false; }
        t, kept := after, evidence;
        PageSwitched(rows, saved, target, active, visited, ids);
        visited := visited + ids;
        cursor := page[|page| - 1];
      }
      AllSwitched(rows, saved, target);
      SwitchKeeps(rows, saved, target, active, chain, ledger, legacy);
      SwitchSettles(rows, saved, target);
      if live.Some? { LeaseIsBusy(rows, ledger, live.value, now); }
      SendsNothing(t);
      rows, saved, live := t, kept, None;
      backfill := backfill.(destinationId := target, ledgerCursor := 0, legacyCursor := "", legacyComplete := false,
                            recoveryAttempts := 0, recoveryRequested := false);
      return true;
    }
  }

  // ----- Backfill facts -----

  /** Backfill moves cursors; it clears a capture error only when it completes. */
  predicate SameSettings(a: Backfill, b: Backfill) {
    b == a.(ledgerCursor := b.ledgerCursor, legacyCursor := b.legacyCursor, legacyComplete := b.legacyComplete,
            captureError := b.captureError)
  }

  predicate SameCursors(a: Backfill, b: Backfill) {
    && b.ledgerCursor == a.ledgerCursor
    && b.legacyCursor == a.legacyCursor
    && b.legacyComplete == a.legacyComplete
    && b.destinationId == a.destinationId
  }

  lemma {:induction false} LedgerLeft(ledger: seq<Entry>, legacy: seq<Order>, before: Backfill, after: Backfill)
    requires after == before.(ledgerCursor := after.ledgerCursor) && before.ledgerCursor <= after.ledgerCursor <= |ledger|
    ensures Left(ledger, legacy, after) == Left(ledger, legacy, before) - (after.ledgerCursor - before.ledgerCursor)
  {
  }

  lemma {:induction false} NothingLeft(ledger: seq<Entry>, legacy: seq<Order>, state: Backfill)
    requires state.ledgerCursor <= |ledger|
    ensures state.legacyComplete && state.ledgerCursor == |ledger| ==> Left(ledger, legacy, state) == 0
    ensures Left(ledger, legacy, state.(captureError := false)) == Left(ledger, legacy, state)
  {
  }

  lemma {:induction false} LastSequence(ledger: seq<Entry>, to: nat)
    requires JournalShape(ledger) && 0 < to <= |ledger|
    ensures ledger[to - 1].Sequence() == to
  {
  }

  lemma {:induction false} CompleteBatch(t: Table, ledger: seq<Entry>, legacy: seq<Order>, state: Backfill)
    requires exists error :: Reached(t, ledger, legacy, state.(captureError := error))
    requires state.legacyComplete && state.ledgerCursor == |ledger|
    ensures Everything(t, ledger, legacy) && Reached(t, ledger, legacy, state)
  {
  }

  lemma {:induction false} SourcedTwice(a: Table, b: Table, c: Table, chain: string, ledger: seq<Entry>, legacy: seq<Order>)
    requires Captured(a, b, chain) && Captured(b, c, chain) && Sourced(a, b, ledger, legacy) && Sourced(b, c, ledger, legacy)
    ensures Sourced(a, c, ledger, legacy)
  {
  }

  function NewRow(chain: string, payload: Payload): Row {
    Row(Tuple(match payload case LedgerEvent(e) => e.Id() case LegacyOrder(o) => o.id, chain, payload), UNSENT)
  }

  function LegacyPayloads(orders: seq<Order>): seq<Payload> { seq(|orders|, i requires 0 <= i < |orders| => LegacyOrder(orders[i])) }

  function LedgerPayloads(entries: seq<Entry>): seq<Payload> { seq(|entries|, i requires 0 <= i < |entries| => LedgerEvent(entries[i])) }

  /** How many sales the query `id > cursor` skips. */
  function AfterCursor(legacy: seq<Order>, cursor: string): (p: nat)
    ensures p <= |legacy|
    ensures forall i :: 0 <= i < p ==> !TextBefore(cursor, legacy[i].id)
    ensures p < |legacy| ==> TextBefore(cursor, legacy[p].id)
  {
    if legacy == [] || TextBefore(cursor, legacy[0].id) then 0
    else
      var rest := AfterCursor(legacy[1..], cursor);
      assert forall i :: 1 <= i < |legacy| ==> legacy[i] == legacy[1..][i - 1];
      1 + rest
  }

  /** Rows already there stay as they are; every new row is a fresh copy of its source. */
  ghost predicate Captured(before: Table, after: Table, chain: string) {
    && before.Keys <= after.Keys
    && (forall id :: id in before ==> after[id] == before[id])
    && (forall id :: id in after && id !in before ==> after[id] == NewRow(chain, after[id].tuple.payload) && after[id].Id() == id)
  }

  predicate HasPayload(t: Table, chain: string, payload: Payload) {
    var r := NewRow(chain, payload);
    r.Id() in t && t[r.Id()].tuple == r.tuple
  }

  ghost predicate Inserted(before: Table, after: Table, chain: string, payloads: seq<Payload>) {
    && Captured(before, after, chain)
    && (forall i :: 0 <= i < |payloads| ==> HasPayload(after, chain, payloads[i]))
    && (forall id :: id in after && id !in before ==> after[id].tuple.payload in payloads)
  }

  /** The id of a payload belongs to a row with other content. */
  predicate TakenByOther(t: Table, chain: string, payload: Payload) {
    var r := NewRow(chain, payload);
    r.Id() in t && t[r.Id()].tuple != r.tuple
  }

  predicate SameIdOtherPayload(chain: string, a: Payload, b: Payload) {
    NewRow(chain, a).Id() == NewRow(chain, b).Id() && a != b
  }

  /** Where insertIdentical refuses: a record meets a row, or an earlier record, of its id with other content. */
  ghost predicate Collides(t: Table, chain: string, payloads: seq<Payload>) {
    || (exists i :: 0 <= i < |payloads| && TakenByOther(t, chain, payloads[i]))
    || (exists i, k :: 0 <= i < k < |payloads| && SameIdOtherPayload(chain, payloads[i], payloads[k]))
  }

  lemma {:induction false} CollidesAt(t: Table, u: Table, chain: string, payloads: seq<Payload>, i: nat)
    requires i < |payloads| && Inserted(t, u, chain, payloads[..i]) && TakenByOther(u, chain, payloads[i])
    ensures Collides(t, chain, payloads)
  {
    var id := NewRow(chain, payloads[i]).Id();
    if id in t {
      assert TakenByOther(t, chain, payloads[i]);
    } else {
      var k :| 0 <= k < |payloads[..i]| && payloads[..i][k] == u[id].tuple.payload;
      assert SameIdOtherPayload(chain, payloads[k], payloads[i]);
    }
  }

  lemma {:induction false} NoCollision(t: Table, u: Table, chain: string, payloads: seq<Payload>)
    requires Inserted(t, u, chain, payloads)
    ensures !Collides(t, chain, payloads)
  {
    forall i | 0 <= i < |payloads| ensures !TakenByOther(t, chain, payloads[i]) {
      assert HasPayload(u, chain, payloads[i]);
    }
    forall i, k | 0 <= i < k < |payloads| ensures !SameIdOtherPayload(chain, payloads[i], payloads[k]) {
      assert HasPayload(u, chain, payloads[i]) && HasPayload(u, chain, payloads[k]);
    }
  }

  /** An order older than the journal has the id of a journal entry. */
  ghost predicate Clash(ledger: seq<Entry>, legacy: seq<Order>) {
    exists n, m :: 0 <= n < |ledger| && 0 <= m < |legacy| && ledger[n].Id() == legacy[m].id
  }

  ghost predicate LegacyCollides(t: Table, chain: string, legacy: seq<Order>) {
    exists m :: 0 <= m < |legacy| && TakenByOther(t, chain, LegacyOrder(legacy[m]))
  }

  ghost predicate LedgerCollides(t: Table, chain: string, ledger: seq<Entry>) {
    exists n :: 0 <= n < |ledger| && TakenByOther(t, chain, LedgerEvent(ledger[n]))
  }

  lemma {:induction false} LegacyPageCollides(t: Table, chain: string, legacy: seq<Order>, p: nat, q: nat)
    requires LegacyShape(legacy) && p <= q <= |legacy| && Collides(t, chain, LegacyPayloads(legacy[p..q]))
    ensures LegacyCollides(t, chain, legacy)
  {
    hide LegacyShape, TakenByOther;
    var payloads := LegacyPayloads(legacy[p..q]);
    forall i, k | 0 <= i < k < |payloads| ensures !SameIdOtherPayload(chain, payloads[i], payloads[k]) {
      NoTwinOrders(chain, legacy, p + i, p + k);
    }
    var i :| 0 <= i < |payloads| && TakenByOther(t, chain, payloads[i]);
    assert payloads[i] == LegacyOrder(legacy[p + i]);
  }

  lemma {:induction false} NoTwinOrders(chain: string, legacy: seq<Order>, k: nat, m: nat)
    requires LegacyShape(legacy) && k < |legacy| && m < |legacy|
    ensures !SameIdOtherPayload(chain, LegacyOrder(legacy[k]), LegacyOrder(legacy[m]))
  {
    hide LegacyShape;
    if legacy[k].id == legacy[m].id { SameOrder(legacy, legacy[k], legacy[m]); }
  }

  lemma {:induction false} LedgerPageCollides(t: Table, chain: string, ledger: seq<Entry>, p: nat, q: nat)
    requires JournalShape(ledger) && p <= q <= |ledger| && Collides(t, chain, LedgerPayloads(ledger[p..q]))
    ensures LedgerCollides(t, chain, ledger)
  {
    hide JournalShape, TakenByOther;
    var payloads := LedgerPayloads(ledger[p..q]);
    forall i, k | 0 <= i < k < |payloads| ensures !SameIdOtherPayload(chain, payloads[i], payloads[k]) {
      NoTwinEntries(chain, ledger, p + i, p + k);
    }
    var i :| 0 <= i < |payloads| && TakenByOther(t, chain, payloads[i]);
    assert payloads[i] == LedgerEvent(ledger[p + i]);
  }

  lemma {:induction false} NoTwinEntries(chain: string, ledger: seq<Entry>, k: nat, m: nat)
    requires JournalShape(ledger) && k < |ledger| && m < |ledger|
    ensures !SameIdOtherPayload(chain, LedgerEvent(ledger[k]), LedgerEvent(ledger[m]))
  {
    hide JournalShape;
    if ledger[k].Id() == ledger[m].Id() { SameEntry(ledger, ledger[k], ledger[m]); }
  }

  lemma {:induction false} SameOrder(legacy: seq<Order>, a: Order, b: Order)
    requires LegacyShape(legacy) && a in legacy && b in legacy && a.id == b.id
    ensures a == b
  {
    hide TextBefore;
    var k :| 0 <= k < |legacy| && legacy[k] == a;
    var m :| 0 <= m < |legacy| && legacy[m] == b;
    TextBeforeIsTotal(legacy[k].id, legacy[m].id);
  }

  lemma {:induction false} SameEntry(ledger: seq<Entry>, a: Entry, b: Entry)
    requires JournalShape(ledger) && a in ledger && b in ledger && a.Id() == b.Id()
    ensures a == b
  {
    var k :| 0 <= k < |ledger| && ledger[k] == a;
    var m :| 0 <= m < |ledger| && ledger[m] == b;
    assert k < m ==> ledger[k].Id() != ledger[m].Id();
  }

  /** Rows are copies and ids are distinct on either side, so only the two sides can collide. */
  lemma {:induction false} LegacyCollision(t: Table, chain: string, ledger: seq<Entry>, legacy: seq<Order>)
    requires LegacyShape(legacy) && RowsMatch(t, chain, ledger, legacy) && LegacyCollides(t, chain, legacy)
    ensures Clash(ledger, legacy)
  {
    hide LegacyShape, RowsMatch, TakenByOther, Clash;
    var m :| 0 <= m < |legacy| && TakenByOther(t, chain, LegacyOrder(legacy[m]));
    TakenByEntry(t, chain, ledger, legacy, m);
  }

  lemma {:induction false} TakenByEntry(t: Table, chain: string, ledger: seq<Entry>, legacy: seq<Order>, m: nat)
    requires LegacyShape(legacy) && RowsMatch(t, chain, ledger, legacy) && m < |legacy|
    requires TakenByOther(t, chain, LegacyOrder(legacy[m]))
    ensures Clash(ledger, legacy)
  {
    hide TextBefore, LegacyShape;
    var row := t[legacy[m].id];
    if row.tuple.payload.LegacyOrder? {
      SameOrder(legacy, row.tuple.payload.order, legacy[m]);
    } else {
      var n :| 0 <= n < |ledger| && ledger[n] == row.tuple.payload.entry;
      assert ledger[n].Id() == legacy[m].id;
    }
  }

  lemma {:induction false} LedgerCollision(t: Table, chain: string, ledger: seq<Entry>, legacy: seq<Order>)
    requires JournalShape(ledger) && RowsMatch(t, chain, ledger, legacy) && LedgerCollides(t, chain, ledger)
    ensures Clash(ledger, legacy)
  {
    hide JournalShape, RowsMatch, TakenByOther, Clash;
    var n :| 0 <= n < |ledger| && TakenByOther(t, chain, LedgerEvent(ledger[n]));
    TakenByOrder(t, chain, ledger, legacy, n);
  }

  lemma {:induction false} TakenByOrder(t: Table, chain: string, ledger: seq<Entry>, legacy: seq<Order>, n: nat)
    requires JournalShape(ledger) && RowsMatch(t, chain, ledger, legacy) && n < |ledger|
    requires TakenByOther(t, chain, LedgerEvent(ledger[n]))
    ensures Clash(ledger, legacy)
  {
    hide JournalShape;
    var row := t[ledger[n].Id()];
    if row.tuple.payload.LedgerEvent? {
      SameEntry(ledger, row.tuple.payload.entry, ledger[n]);
    } else {
      var m :| 0 <= m < |legacy| && legacy[m] == row.tuple.payload.order;
      assert ledger[n].Id() == legacy[m].id;
    }
  }

  /** A complete outbox has one row per record, so no two records share an id. */
  lemma {:induction false} NoClash(t: Table, chain: string, ledger: seq<Entry>, legacy: seq<Order>)
    requires RowsMatch(t, chain, ledger, legacy) && Everything(t, ledger, legacy)
    ensures !Clash(ledger, legacy)
  {
    forall n, m | 0 <= n < |ledger| && 0 <= m < |legacy| ensures ledger[n].Id() != legacy[m].id {
      assert HasEntry(t, ledger[n]) && HasLegacy(t, legacy[m]);
    }
  }

  /** Capturing over a complete outbox adds nothing. */
  lemma {:induction false} NothingNew(before: Table, after: Table, chain: string, ledger: seq<Entry>, legacy: seq<Order>)
    requires Everything(before, ledger, legacy) && Captured(before, after, chain) && Sourced(before, after, ledger, legacy)
    ensures after == before
  {
    forall id | id in after ensures id in before {
      if id !in before { KnownPayload(before, chain, ledger, legacy, after[id].tuple.payload); }
    }
  }

  lemma {:induction false} KnownPayload(t: Table, chain: string, ledger: seq<Entry>, legacy: seq<Order>, payload: Payload)
    requires Everything(t, ledger, legacy)
    requires match payload case LedgerEvent(e) => e in ledger case LegacyOrder(o) => o in legacy
    ensures NewRow(chain, payload).Id() in t
  {
    match payload
    case LedgerEvent(e) =>
      var n :| 0 <= n < |ledger| && ledger[n] == e;
      assert HasEntry(t, ledger[n]);
    case LegacyOrder(o) =>
      var m :| 0 <= m < |legacy| && legacy[m] == o;
      assert HasLegacy(t, legacy[m]);
  }

  lemma {:induction false} InsertedOne(before: Table, after: Table, chain: string, payloads: seq<Payload>, payload: Payload)
    requires Inserted(before, after, chain, payloads) && NewRow(chain, payload).Id() !in after
    ensures Inserted(before, after[NewRow(chain, payload).Id() := NewRow(chain, payload)], chain, payloads + [payload])
  {
  }

  lemma {:induction false} CapturedNothing(t: Table, chain: string)
    ensures Captured(t, t, chain)
  {
  }

  lemma {:induction false} CapturedTwice(a: Table, b: Table, c: Table, chain: string)
    requires Captured(a, b, chain) && Captured(b, c, chain)
    ensures Captured(a, c, chain)
  {
  }

  /** What the cursors promise: everything before them has its row. */
  ghost predicate Reached(t: Table, ledger: seq<Entry>, legacy: seq<Order>, state: Backfill) {
    && state.ledgerCursor <= |ledger|
    && (forall n :: 0 <= n < state.ledgerCursor ==> HasEntry(t, ledger[n]))
    && (forall n :: 0 <= n < |legacy| && (state.legacyComplete || !TextBefore(state.legacyCursor, legacy[n].id)) ==> HasLegacy(t, legacy[n]))
  }

  /** How many records are left to scan: a batch takes 100 of them, or all there are. */
  function Left(ledger: seq<Entry>, legacy: seq<Order>, state: Backfill): nat {
    (if state.legacyComplete then 0 else |legacy| - AfterCursor(legacy, state.legacyCursor))
    + (if state.ledgerCursor <= |ledger| then |ledger| - state.ledgerCursor else 0)
  }

  /** New rows copy records of the source tables. */
  ghost predicate Sourced(before: Table, after: Table, ledger: seq<Entry>, legacy: seq<Order>) {
    forall id :: id in after && id !in before ==>
      match after[id].tuple.payload case LedgerEvent(e) => e in ledger case LegacyOrder(o) => o in legacy
  }

  function LegacyState(legacy: seq<Order>, state: Backfill, p: nat, q: nat): Backfill
    requires p <= q <= |legacy|
  {
    state.(legacyCursor := if q > p then legacy[q - 1].id else state.legacyCursor, legacyComplete := q - p < BATCH)
  }

  /** The sales up to the new cursor all have their row, and less is left to scan. */
  lemma {:induction false} LegacyPageReached(before: Table, after: Table, chain: string, ledger: seq<Entry>, legacy: seq<Order>,
                                             state: Backfill, p: nat, q: nat)
    requires Reached(before, ledger, legacy, state) && LegacyShape(legacy) && !state.legacyComplete
    requires p == AfterCursor(legacy, state.legacyCursor) && q == Outbox.Min(p + BATCH, |legacy|)
    requires Inserted(before, after, chain, LegacyPayloads(legacy[p..q]))
    ensures Reached(after, ledger, legacy, LegacyState(legacy, state, p, q)) && Sourced(before, after, ledger, legacy)
    ensures Left(ledger, legacy, LegacyState(legacy, state, p, q)) == Left(ledger, legacy, state) - (q - p)
  {
    hide TextBefore, Captured, HasEntry, HasLegacy, AfterCursor, LegacyShape;
    assert q <= |legacy|;
    forall n | 0 <= n < state.ledgerCursor ensures HasEntry(after, ledger[n]) {
      EntryStays(before, after, chain, ledger[n]);
    }
    SalesUpTo(before, after, chain, ledger, legacy, state, p, q);
    if q > p {
      CursorAt(legacy, q);
      BeyondCursor(legacy, q);
    }
    NewSales(before, after, chain, ledger, legacy, p, q);
  }

  lemma {:induction false} SalesUpTo(before: Table, after: Table, chain: string, ledger: seq<Entry>, legacy: seq<Order>,
                                     state: Backfill, p: nat, q: nat)
    requires Reached(before, ledger, legacy, state) && p == AfterCursor(legacy, state.legacyCursor) && p <= q <= |legacy|
    requires Inserted(before, after, chain, LegacyPayloads(legacy[p..q]))
    ensures forall n :: 0 <= n < q ==> HasLegacy(after, legacy[n])
  {
    hide TextBefore, Captured, HasEntry, HasLegacy, AfterCursor, HasPayload;
    var payloads := LegacyPayloads(legacy[p..q]);
    forall n | 0 <= n < q ensures HasLegacy(after, legacy[n]) {
      if n < p {
        LegacyStays(before, after, chain, legacy[n]);
      } else {
        assert payloads[n - p] == LegacyOrder(legacy[n]);
        PayloadIsLegacy(after, chain, legacy[n]);
      }
    }
  }

  lemma {:induction false} BeyondCursor(legacy: seq<Order>, q: nat)
    requires LegacyShape(legacy) && 0 < q <= |legacy|
    ensures forall n :: q <= n < |legacy| ==> TextBefore(legacy[q - 1].id, legacy[n].id)
  {
  }

  lemma {:induction false} NewSales(before: Table, after: Table, chain: string, ledger: seq<Entry>, legacy: seq<Order>, p: nat, q: nat)
    requires p <= q <= |legacy| && Inserted(before, after, chain, LegacyPayloads(legacy[p..q]))
    ensures Sourced(before, after, ledger, legacy)
  {
  }

  lemma {:induction false} CursorAt(legacy: seq<Order>, q: nat)
    requires LegacyShape(legacy) && 0 < q <= |legacy|
    ensures AfterCursor(legacy, legacy[q - 1].id) == q
  {
    hide TextBefore;
    var p := AfterCursor(legacy, legacy[q - 1].id);
    forall n | 0 <= n < q ensures !TextBefore(legacy[q - 1].id, legacy[n].id) {
      TextBeforeIsTotal(legacy[q - 1].id, legacy[n].id);
    }
    assert p < |legacy| ==> q <= p;
    assert q < |legacy| ==> TextBefore(legacy[q - 1].id, legacy[q].id);
  }

  lemma {:induction false} LedgerPageReached(before: Table, after: Table, chain: string, ledger: seq<Entry>, legacy: seq<Order>,
                                             state: Backfill, from: nat, to: nat)
    requires Reached(before, ledger, legacy, state) && from == state.ledgerCursor && from <= to <= |ledger|
    requires Inserted(before, after, chain, LedgerPayloads(ledger[from..to]))
    ensures Reached(after, ledger, legacy, state.(ledgerCursor := to)) && Sourced(before, after, ledger, legacy)
  {
    hide TextBefore, Captured, HasEntry, HasLegacy;
    var payloads := LedgerPayloads(ledger[from..to]);
    forall n | 0 <= n < to ensures HasEntry(after, ledger[n]) {
      if n < from {
        EntryStays(before, after, chain, ledger[n]);
      } else {
        assert payloads[n - from] == LedgerEvent(ledger[n]) && HasPayload(after, chain, payloads[n - from]);
        PayloadIsEntry(after, chain, ledger[n]);
      }
    }
    forall n | 0 <= n < |legacy| && HasLegacy(before, legacy[n]) ensures HasLegacy(after, legacy[n]) {
      LegacyStays(before, after, chain, legacy[n]);
    }
    forall id | id in after && id !in before
      ensures match after[id].tuple.payload case LedgerEvent(e) => e in ledger case LegacyOrder(o) => o in legacy
    {
      var i :| 0 <= i < |payloads| && payloads[i] == after[id].tuple.payload;
      assert ledger[from..to][i] == ledger[from + i];
    }
  }

  lemma {:induction false} EntryStays(before: Table, after: Table, chain: string, e: Entry)
    requires Captured(before, after, chain) && HasEntry(before, e)
    ensures HasEntry(after, e)
  {
  }

  lemma {:induction false} LegacyStays(before: Table, after: Table, chain: string, o: Order)
    requires Captured(before, after, chain) && HasLegacy(before, o)
    ensures HasLegacy(after, o)
  {
  }

  lemma {:induction false} PayloadIsLegacy(t: Table, chain: string, o: Order)
    requires HasPayload(t, chain, LegacyOrder(o))
    ensures HasLegacy(t, o)
  {
  }

  lemma {:induction false} PayloadIsEntry(t: Table, chain: string, e: Entry)
    requires HasPayload(t, chain, LedgerEvent(e))
    ensures HasEntry(t, e)
  {
  }

  /** Captured rows change nothing of the protocol: they are pending copies of their sources. */
  lemma {:induction false} CapturedKeeps(before: Table, after: Table, chain: string, ledger: seq<Entry>, legacy: seq<Order>, saved: Saved)
    requires RowsMatch(before, chain, ledger, legacy) && PrefixSynced(before, ledger)
    requires Captured(before, after, chain) && Sourced(before, after, ledger, legacy)
    requires SavedFor(saved, before)
    ensures RowsMatch(after, chain, ledger, legacy) && PrefixSynced(after, ledger)
    ensures SavedFor(saved, after)
  {
    forall n ensures SyncedAt(after, ledger, n) <==> SyncedAt(before, ledger, n) {
    }
    forall m, n | 0 <= m < n < |ledger| && SyncedAt(after, ledger, n) ensures SyncedAt(after, ledger, m) {
      assert SyncedAt(before, ledger, n) && SyncedAt(before, ledger, m);
    }
  }

  // ----- Destination facts -----

  /** `row.status != "sending" || (row.leaseExpiresAt ?: Long.MAX_VALUE) <= now` fails. */
  predicate Busy(r: Row, now: int) {
    r.Status() == Sending && (r.evidence.leaseExpiresAt.None? || r.evidence.leaseExpiresAt.value > now)
  }

  /** Some row of a claim has a lease that is still running. */
  ghost predicate Leased(t: Table, c: Claim, now: int) {
    exists i :: 0 <= i < |c.rows| && c.rows[i].eventId in t && LeaseAlive(t[c.rows[i].eventId], now)
  }

  predicate NothingSending(t: Table) { forall id :: id in t ==> t[id].Status() != Sending }

  lemma {:induction false} LeaseIsBusy(t: Table, ledger: seq<Entry>, c: Claim, now: int)
    requires ClaimHeld(t, ledger, c) && forall id :: id in t ==> !Busy(t[id], now)
    ensures !Leased(t, c, now)
  {
    hide Block;
    forall i | 0 <= i < |c.rows| && c.rows[i].eventId in t ensures !LeaseAlive(t[c.rows[i].eventId], now) {
      assert HeldBy(t, c.owner, c.rows[i]) && !Busy(t[c.rows[i].eventId], now);
    }
  }

  lemma {:induction false} SwitchSettles(t: Table, saved: Saved, target: string)
    ensures NothingSending(SwitchAll(t, saved, target))
  {
  }

  function EvidenceAt(saved: Saved, destination: string, id: string): Option<Evidence> {
    if (destination, id) in saved then Some(saved[(destination, id)].evidence) else None
  }

  function Settle(e: Evidence): Evidence {
    if e.status == Sending then e.(status := Pending, claimOwner := None, leaseExpiresAt := None) else e
  }

  /** A row under a destination it has evidence for, or as a new one for it. */
  function Switched(r: Row, previous: Option<Evidence>): Row {
    match previous
    case Some(e) => r.(evidence := Settle(e))
    case None =>
      var blocked := r.Status() in {Quarantined, NeedsRecovery};
      r.(evidence := UNSENT.(status := if blocked then r.Status() else Pending,
                             lastError := if blocked then r.evidence.lastError else None))
  }

  /**
   One page of the switch, row by row: the evidence of a row is kept for the destination that
   is left, and the row gets what was kept for the new one or starts anew, never with a live claim.
   */
  method SwitchPage(rows: Table, t: Table, kept: Saved, page: seq<string>, saved: Saved, target: string, active: string, now: int)
      returns (free: bool, after: Table, evidence: Saved)
    requires forall i :: 0 <= i < |page| ==> page[i] in rows && page[i] in t && t[page[i]] == rows[page[i]]
    ensures free <==> forall i :: 0 <= i < |page| ==> !Busy(rows[page[i]], now)
    ensures free ==> after == SwitchSome(t, saved, target, PageIds(page)) && evidence == kept + EvidenceOf(rows, PageIds(page), active)
  {
    hide SwitchSome, EvidenceOf, PageIds, Switched;
    after, evidence := t, kept;
    NoPage(rows, t, kept, saved, target, active);
    for i := 0 to |page|
      invariant after == SwitchSome(t, saved, target, PageIds(page[..i])) && evidence == kept + EvidenceOf(rows, PageIds(page[..i]), active)
      invariant forall k :: 0 <= k < i ==> !Busy(rows[page[k]], now)
    {
      var id, row := page[i], rows[page[i]];
      if row.Status() == Sending && (row.evidence.leaseExpiresAt.None? || row.evidence.leaseExpiresAt.value > now) {
        free := false;
        return;
      }
      var stopped := row.Status() == Quarantined || row.Status() == NeedsRecovery;
      var restored :=
        if (target, id) in saved then saved[(target, id)].evidence
        else Evidence(None, None, None, if stopped then row.Status() else Pending, 0, None, 0,
                      if stopped then row.evidence.lastError else None, None, None, None, None, None);
      var ready := if restored.status == Sending then restored.(status := Pending, claimOwner := None, leaseExpiresAt := None) else restored;
      SwitchedRow(row, saved, target, id);
      OneMoreSwitched(rows, t, kept, page, i, saved, target, active);
      evidence := evidence[(active, id) := Destination(row.tuple.payload.LedgerEvent?, row.evidence)];
      after := after[id := row.(evidence := ready)];
    }
    free := true;
    assert page[..|page|] == page;
  }

  lemma {:induction false} SwitchedRow(row: Row, saved: Saved, target: string, id: string)
    ensures var stopped := row.Status() == Quarantined || row.Status() == NeedsRecovery;
            var restored :=
              if (target, id) in saved then saved[(target, id)].evidence
              else Evidence(None, None, None, if stopped then row.Status() else Pending, 0, None, 0,
                            if stopped then row.evidence.lastError else None, None, None, None, None, None);
            var ready := if restored.status == Sending then restored.(status := Pending, claimOwner := None, leaseExpiresAt := None) else restored;
            Switched(row, EvidenceAt(saved, target, id)) == row.(evidence := ready)
  {
  }

  lemma {:induction false} NoPage(rows: Table, t: Table, kept: Saved, saved: Saved, target: string, active: string)
    ensures t == SwitchSome(t, saved, target, PageIds([])) && kept == kept + EvidenceOf(rows, PageIds([]), active)
  {
    assert EvidenceOf(rows, PageIds([]), active) == map[];
  }

  lemma {:induction false} OneMoreSwitched(rows: Table, t: Table, kept: Saved, page: seq<string>, i: nat, saved: Saved, target: string,
                                           active: string)
    requires i < |page| && page[i] in rows && page[i] in t
    ensures SwitchSome(t, saved, target, PageIds(page[..i]))[page[i] := Switched(t[page[i]], EvidenceAt(saved, target, page[i]))]
         == SwitchSome(t, saved, target, PageIds(page[..i + 1]))
    ensures (kept + EvidenceOf(rows, PageIds(page[..i]), active))
              [(active, page[i]) := Destination(rows[page[i]].tuple.payload.LedgerEvent?, rows[page[i]].evidence)]
         == kept + EvidenceOf(rows, PageIds(page[..i + 1]), active)
  {
    hide Switched;
    var ids, more := PageIds(page[..i]), PageIds(page[..i + 1]);
    assert more == ids + {page[i]} by {
      assert page[..i + 1][i] == page[i];
      assert forall k :: 0 <= k < i ==> page[..i + 1][k] == page[..i][k];
    }
  }

  function SwitchAll(t: Table, saved: Saved, target: string): Table {
    map id | id in t :: Switched(t[id], EvidenceAt(saved, target, id))
  }

  lemma {:induction false} IdsAreNotEmpty(t: Table, chain: string, ledger: seq<Entry>, legacy: seq<Order>)
    requires RowsMatch(t, chain, ledger, legacy) && LegacyShape(legacy) && JournalShape(ledger)
    ensures forall id :: id in t ==> TextBefore("", id)
  {
  }

  function PageIds(page: seq<string>): set<string> { set i | 0 <= i < |page| :: page[i] }

  /** The table with the rows of some ids switched. */
  function SwitchSome(t: Table, saved: Saved, target: string, ids: set<string>): Table {
    map id | id in t :: if id in ids then Switched(t[id], EvidenceAt(saved, target, id)) else t[id]
  }

  lemma {:induction false} PageSwitched(t: Table, saved: Saved, target: string, active: string, visited: set<string>, ids: set<string>)
    requires ids !! visited
    ensures SwitchSome(SwitchSome(t, saved, target, visited), saved, target, ids) == SwitchSome(t, saved, target, visited + ids)
    ensures saved + EvidenceOf(t, visited, active) + EvidenceOf(t, ids, active) == saved + EvidenceOf(t, visited + ids, active)
  {
  }

  lemma {:induction false} AllSwitched(t: Table, saved: Saved, target: string)
    ensures SwitchSome(t, saved, target, t.Keys) == SwitchAll(t, saved, target)
    ensures SwitchSome(t, saved, target, {}) == t
    ensures forall active :: saved + EvidenceOf(t, {}, active) == saved
  {
  }

  lemma {:induction false} NotYetSwitched(t: Table, saved: Saved, target: string, visited: set<string>, page: seq<string>)
    requires PageIds(page) !! visited && forall i :: 0 <= i < |page| ==> page[i] in t
    ensures var after := SwitchSome(t, saved, target, visited); forall i :: 0 <= i < |page| ==> page[i] in after && after[page[i]] == t[page[i]]
  {
    hide Switched;
    forall i | 0 <= i < |page| ensures page[i] in PageIds(page) {
    }
  }

  lemma {:induction false} PageFacts(t: Table, cursor: string, page: seq<string>)
    requires IsPage(t, cursor, page, BATCH)
    ensures forall i :: 0 <= i < |page| ==> page[i] in t
    ensures page == [] ==> forall id :: id in t ==> !TextBefore(cursor, id)
  {
  }

  /** The next page is new, and afterwards the cursor stands right behind everything visited. */
  lemma {:induction false} NextPage(t: Table, cursor: string, page: seq<string>, visited: set<string>)
    requires IsPage(t, cursor, page, BATCH) && page != [] && visited <= t.Keys
    requires forall id :: id in t ==> (id in visited <==> !TextBefore(cursor, id))
    ensures var ids := PageIds(page); var last := page[|page| - 1];
            && ids <= t.Keys && ids !! visited && ids != {}
            && forall id :: id in t ==> (id in visited + ids <==> !TextBefore(last, id))
  {
    hide TextBefore;
    var ids, last := PageIds(page), page[|page| - 1];
    assert last in ids;
    forall id | id in t ensures id in visited + ids <==> !TextBefore(last, id) {
      TextBeforeIsTotal(last, id);
      if id in ids {
        var i :| 0 <= i < |page| && page[i] == id;
        assert i < |page| - 1 ==> TextBefore(id, last);
      } else if TextBefore(cursor, id) {
        assert id !in page;
        assert TextBefore(page[|page| - 1], id);
      } else if TextBefore(last, id) {
        TextBeforeIsTransitive(cursor, last, id);
      }
    }
  }

  /** The switch keeps the protocol invariant: what was saved for the target is a prefix. */
  lemma {:induction false} SwitchKeeps(t: Table, saved: Saved, target: string, active: string, chain: string, ledger: seq<Entry>, legacy: seq<Order>)
    requires JournalShape(ledger)
    requires RowsMatch(t, chain, ledger, legacy) && PrefixSynced(t, ledger) && SavedPrefixes(saved, active, ledger) && target != active
    requires SavedFor(saved, t)
    ensures RowsMatch(SwitchAll(t, saved, target), chain, ledger, legacy) && PrefixSynced(SwitchAll(t, saved, target), ledger)
    ensures SavedPrefixes(saved + EvidenceOf(t, t.Keys, active), target, ledger)
    ensures SavedFor(saved + EvidenceOf(t, t.Keys, active), SwitchAll(t, saved, target))
  {
    var after, kept := SwitchAll(t, saved, target), saved + EvidenceOf(t, t.Keys, active);
    forall n | 0 <= n < |ledger| ensures SyncedAt(after, ledger, n) ==> SavedSyncedAt(saved, target, ledger, n) {}
    forall n | 0 <= n < |ledger| ensures SavedSyncedAt(saved, target, ledger, n) ==> SyncedAt(after, ledger, n) {
      SavedRowIsThere(t, saved, target, chain, ledger, legacy, n);
    }
    forall m, n | 0 <= m < n < |ledger| && SyncedAt(after, ledger, n) ensures SyncedAt(after, ledger, m) {
      assert SavedSyncedAt(saved, target, ledger, n) && SavedSyncedAt(saved, target, ledger, m);
    }
    KeptPrefixes(t, saved, target, active, chain, ledger, legacy);
  }

  lemma {:induction false} SavedRowIsThere(t: Table, saved: Saved, target: string, chain: string, ledger: seq<Entry>, legacy: seq<Order>, n: nat)
    requires RowsMatch(t, chain, ledger, legacy) && JournalShape(ledger) && n < |ledger| && SavedFor(saved, t)
    ensures SavedSyncedAt(saved, target, ledger, n) ==> HasEntry(t, ledger[n])
  {
  }

  /** What the left destination had received is saved as a prefix; the others stay as they were. */
  lemma {:induction false} KeptPrefixes(t: Table, saved: Saved, target: string, active: string, chain: string, ledger: seq<Entry>, legacy: seq<Order>)
    requires JournalShape(ledger) && RowsMatch(t, chain, ledger, legacy) && PrefixSynced(t, ledger)
    requires SavedPrefixes(saved, active, ledger) && SavedFor(saved, t)
    ensures SavedPrefixes(saved + EvidenceOf(t, t.Keys, active), target, ledger)
  {
    var kept := saved + EvidenceOf(t, t.Keys, active);
    forall d, n | d != active ensures SavedSyncedAt(kept, d, ledger, n) <==> SavedSyncedAt(saved, d, ledger, n) {}
    forall n | 0 <= n < |ledger| ensures SavedSyncedAt(kept, active, ledger, n) <==> SyncedAt(t, ledger, n) {
      LeftEvidence(t, saved, active, chain, ledger, legacy, n);
    }
  }

  lemma {:induction false} LeftEvidence(t: Table, saved: Saved, active: string, chain: string, ledger: seq<Entry>, legacy: seq<Order>, n: nat)
    requires JournalShape(ledger) && RowsMatch(t, chain, ledger, legacy) && SavedFor(saved, t) && n < |ledger|
    ensures SavedSyncedAt(saved + EvidenceOf(t, t.Keys, active), active, ledger, n) <==> SyncedAt(t, ledger, n)
  {
  }

  /**
   Leaving a destination and coming back restores its evidence for every row that existed,
   whatever was recorded or delivered in between; only a claim that had expired comes back
   as pending.
   */
  lemma {:induction false} SwitchRoundTrip(t: Table, saved: Saved, home: string, away: string, later: Table, savedLater: Saved, id: string)
    requires home != away && id in t && id in later && later[id].tuple == t[id].tuple
    requires EvidenceAt(savedLater, home, id) == EvidenceAt(saved + EvidenceOf(t, t.Keys, home), home, id)
    ensures SwitchAll(later, savedLater, home)[id] == t[id].(evidence := Settle(t[id].evidence))
  {
  }

  /** The evidence kept for every destination but one stays as it is. */
  ghost predicate KeepsOthers(before: Saved, after: Saved, active: string) {
    forall d, id :: d != active ==> EvidenceAt(after, d, id) == EvidenceAt(before, d, id)
  }

  lemma {:induction false} OthersSame(saved: Saved, active: string)
    ensures KeepsOthers(saved, saved, active)
  {
  }

  lemma {:induction false} OthersKept(saved: Saved, t: Table, ids: set<string>, active: string)
    ensures KeepsOthers(saved, saved + EvidenceOf(t, ids, active), active)
  {
  }

  lemma {:induction false} OthersKeptTwice(a: Saved, b: Saved, c: Saved, active: string)
    requires KeepsOthers(a, b, active) && KeepsOthers(b, c, active)
    ensures KeepsOthers(a, c, active)
  {
  }

  lemma {:induction false} PreservedTwice(a: Table, b: Table, c: Table)
    requires Preserved(a, b) && Preserved(b, c)
    ensures Preserved(a, c)
  {
  }

  lemma {:induction false} CapturedIsPreserved(before: Table, after: Table, chain: string)
    requires Captured(before, after, chain)
    ensures Preserved(before, after)
  {
  }

  /** Rows that are kept leave completeness and the reach of the cursors as they were. */
  lemma {:induction false} KeptAcross(before: Table, after: Table, ledger: seq<Entry>, legacy: seq<Order>, from: Backfill, to: Backfill)
    requires Preserved(before, after) && SameCursors(from, to)
    ensures Everything(before, ledger, legacy) ==> Everything(after, ledger, legacy)
    ensures Reached(before, ledger, legacy, from) ==> Reached(after, ledger, legacy, to)
  {
    hide TextBefore;
    assert forall e: Entry :: HasEntry(before, e) ==> HasEntry(after, e);
    assert forall o: Order :: HasLegacy(before, o) ==> HasLegacy(after, o);
  }

  lemma {:induction false} EverythingStays(before: Table, after: Table, ledger: seq<Entry>, legacy: seq<Order>)
    requires Preserved(before, after)
    ensures Everything(before, ledger, legacy) ==> Everything(after, ledger, legacy)
  {
  }

  lemma {:induction false} StartReached(t: Table, ledger: seq<Entry>, legacy: seq<Order>, state: Backfill)
    requires LegacyShape(legacy) && state.ledgerCursor == 0 && state.legacyCursor == "" && !state.legacyComplete
    ensures Reached(t, ledger, legacy, state)
  {
  }

  /** The UPDATE statement of the requeue. */
  method PendingAgain(t: Table, includeLegacy: bool) returns (after: Table)
    ensures after == Requeued(t, includeLegacy)
  {
    after := map id | id in t ::
      if (includeLegacy || t[id].tuple.payload.LedgerEvent?) && (t[id].Status() == Synced || t[id].Status() == NeedsRecovery)
      then t[id].(evidence := t[id].evidence.(status := Pending, nextAttemptAt := 0, claimOwner := None, leaseExpiresAt := None))
      else t[id];
  }

  function Requeued(t: Table, includeLegacy: bool): Table {
    map id | id in t ::
      if (t[id].tuple.payload.LedgerEvent? || includeLegacy) && t[id].Status() in {Synced, NeedsRecovery}
      then t[id].(evidence := t[id].evidence.(status := Pending, nextAttemptAt := 0, claimOwner := None, leaseExpiresAt := None))
      else t[id]
  }

  /** The UPDATE statement of reduceBatch. */
  method SizesAgain(t: Table) returns (after: Table)
    ensures after == Shrunk(t)
  {
    after := map id | id in t ::
      if t[id].Status() == NeedsRecovery && t[id].evidence.lastError == Some("BATCH_TOO_LARGE")
      then t[id].(evidence := t[id].evidence.(status := Pending, nextAttemptAt := 0)) else t[id];
  }

  lemma {:induction false} ShrinkKeeps(t: Table)
    ensures SameSynced(t, Shrunk(t)) && Preserved(t, Shrunk(t)) && NoNewSender(t, Shrunk(t))
  {
  }

  function Shrunk(t: Table): Table {
    map id | id in t ::
      if t[id].Status() == NeedsRecovery && t[id].evidence.lastError == Some("BATCH_TOO_LARGE")
      then t[id].(evidence := t[id].evidence.(status := Pending, nextAttemptAt := 0)) else t[id]
  }

  function BlockRow(r: Row, status: RowStatus, code: string): Row {
    r.(evidence := r.evidence.(status := status, lastError := Some(code)))
  }

  /** The first outstanding row is blocked, unless there is none or it is being sent. */
  ghost predicate BlocksFirst(before: Table, after: Table, status: RowStatus, code: string) {
    exists first: seq<Row> :: IsOutstanding(before, first, 1)
      && after == if first == [] || first[0].Status() == Sending then before
                  else before[first[0].Id() := BlockRow(first[0], status, code)]
  }

  function Scoped(scope: Scope): Row -> Row {
    (r: Row) => r.(evidence := r.evidence.(organizationId := Some(scope.organizationId), festivalId := Some(scope.festivalId),
                                           transportFingerprint := Some(Fingerprint(r.tuple, scope))))
  }

  lemma {:induction false} RequeueKeeps(t: Table, chain: string, ledger: seq<Entry>, legacy: seq<Order>, includeLegacy: bool)
    requires RowsMatch(t, chain, ledger, legacy)
    ensures var after := Requeued(t, includeLegacy);
            && RowsMatch(after, chain, ledger, legacy) && PrefixSynced(after, ledger) && Preserved(t, after)
            && (forall n :: !SyncedAt(after, ledger, n))
            && after.Keys == t.Keys
            && (Everything(t, ledger, legacy) ==> Everything(after, ledger, legacy))
  {
    var after := Requeued(t, includeLegacy);
    forall n | 0 <= n < |ledger| && HasEntry(t, ledger[n]) ensures HasEntry(after, ledger[n]) {}
    forall n | 0 <= n < |legacy| && HasLegacy(t, legacy[n]) ensures HasLegacy(after, legacy[n]) {}
  }

  // The updates of renew, markAttempt, release and bindPage, row by row.

  method LeasedOn(t: Table, ids: set<string>, now: int) returns (after: Table)
    ensures after == Change(t, Renewed(now), ids)
  {
    after := map id | id in t ::
      if id in ids then t[id].(evidence := t[id].evidence.(leaseExpiresAt := Some(now + LEASE_MILLIS))) else t[id];
  }

  method TriedOnce(t: Table, ids: set<string>, now: int) returns (after: Table)
    ensures after == Change(t, Attempted(now), ids)
  {
    after := map id | id in t ::
      if id in ids then t[id].(evidence := t[id].evidence.(attemptCount := t[id].evidence.attemptCount + 1, lastAttemptAt := Some(now)))
      else t[id];
  }

  method GivenBack(t: Table, ids: set<string>, status: RowStatus, code: string, next: int) returns (after: Table)
    ensures after == Change(t, Released(status, code, next), ids)
  {
    after := map id | id in t ::
      if id in ids
      then t[id].(evidence := t[id].evidence.(status := status, lastError := Some(code), nextAttemptAt := next,
                                              claimOwner := None, leaseExpiresAt := None))
      else t[id];
  }

  method InScope(t: Table, ids: set<string>, scope: Scope) returns (after: Table)
    ensures after == Change(t, Scoped(scope), ids)
  {
    after := map id | id in t ::
      if id in ids
      then t[id].(evidence := t[id].evidence.(organizationId := Some(scope.organizationId), festivalId := Some(scope.festivalId),
                                              transportFingerprint := Some(Fingerprint(t[id].tuple, scope))))
      else t[id];
  }

  function Renewed(now: int): Row -> Row { (r: Row) => r.(evidence := r.evidence.(leaseExpiresAt := Some(now + LEASE_MILLIS))) }

  function Attempted(now: int): Row -> Row {
    (r: Row) => r.(evidence := r.evidence.(attemptCount := r.evidence.attemptCount + 1, lastAttemptAt := Some(now)))
  }

  function Released(status: RowStatus, code: string, next: int): Row -> Row {
    (r: Row) => r.(evidence := r.evidence.(status := status, lastError := Some(code), nextAttemptAt := next,
                                           claimOwner := None, leaseExpiresAt := None))
  }

  lemma {:induction false} AllAlive(t: Table, held: seq<Row>, now: int)
    requires forall i :: 0 <= i < |held| ==> held[i].Id() in t
    ensures (forall i :: 0 <= i < |held| ==> LeaseAlive(t[held[i].Id()], now)) <==>
            (forall i :: 0 <= i < |held| ==> (var lease := t[held[i].Id()].evidence.leaseExpiresAt; lease.Some? && lease.value > now))
  {
  }

  predicate LeaseAlive(r: Row, now: int) { r.evidence.leaseExpiresAt.Some? && r.evidence.leaseExpiresAt.value > now }

  function EventsOf(rows: seq<Row>): seq<Event> { seq(|rows|, i requires 0 <= i < |rows| => EventOf(rows[i])) }

  /** The rows a worker holds are there, distinct, sending and its own. */
  lemma {:induction false} HeldRows(t: Table, ledger: seq<Entry>, c: Claim, held: seq<Row>)
    requires ClaimHeld(t, ledger, c) && c.rows == Tuples(held)
    ensures forall i :: 0 <= i < |held| ==> held[i].Id() in t && HeldBy(t, c.owner, held[i].tuple)
    ensures forall id :: id in IdsOf(held) ==> id in t && t[id].Status() == Sending && t[id].evidence.claimOwner == Some(c.owner)
  {
    hide Block;
    forall i | 0 <= i < |held| ensures held[i].Id() in t && HeldBy(t, c.owner, held[i].tuple) {
      assert c.rows[i] == held[i].tuple;
    }
  }

  /** A change of lease or attempts keeps status, owner, tuple and receipt. */
  ghost predicate Quiet(f: Row -> Row) {
    forall r ::
      && f(r).tuple == r.tuple
      && f(r).Status() == r.Status()
      && f(r).evidence.claimOwner == r.evidence.claimOwner
      && f(r).evidence.receiptId == r.evidence.receiptId
      && f(r).evidence.serverReceivedAt == r.evidence.serverReceivedAt
  }

  lemma {:induction false} QuietChange(t: Table, chain: string, ledger: seq<Entry>, legacy: seq<Order>, saved: Saved,
                                       c: Claim, held: seq<Row>, f: Row -> Row)
    requires RowsMatch(t, chain, ledger, legacy) && PrefixSynced(t, ledger) && ClaimHeld(t, ledger, c) && Quiet(f)
    requires SavedFor(saved, t)
    ensures var after := Change(t, f, IdsOf(held));
            && RowsMatch(after, chain, ledger, legacy) && PrefixSynced(after, ledger) && ClaimHeld(after, ledger, c)
            && SameSynced(t, after) && Preserved(t, after)
            && SavedFor(saved, after)
  {
    hide RowsMatch, PrefixSynced, Block;
    var after := Change(t, f, IdsOf(held));
    assert SameSynced(t, after) && Preserved(t, after);
    SameSyncedKeeps(t, after, chain, ledger, legacy);
    ClaimSurvives(t, after, ledger, ledger, c);
  }

  lemma {:induction false} ReleaseIsSame(t: Table, ids: set<string>, status: RowStatus, code: string, next: int)
    requires status != Synced && forall id :: id in ids ==> id in t && t[id].Status() == Sending
    ensures var after := Change(t, Released(status, code, next), ids); SameSynced(t, after) && Preserved(t, after)
  {
  }

  lemma {:induction false} ReleaseKeeps(t: Table, ledger: seq<Entry>, c: Claim, held: seq<Row>, from: nat,
                                        status: RowStatus, code: string, next: int)
    requires ClaimHeld(t, ledger, c) && c.rows == Tuples(held) && from <= |held| && status != Synced
    requires forall id :: id in IdsOf(held) ==> id in t && t[id].Status() == Sending
    ensures var after := Change(t, Released(status, code, next), IdsOf(held[from..]));
            && SameSynced(t, after) && Preserved(t, after)
            && ClaimHeld(after, ledger, LiveClaim(c.owner, Tuples(held[..from])))
  {
    hide RowBefore, SameSynced, Preserved;
    var after := Change(t, Released(status, code, next), IdsOf(held[from..]));
    var kept := LiveClaim(c.owner, Tuples(held[..from]));
    forall id | id in IdsOf(held[from..]) ensures id in IdsOf(held) {
      var i :| 0 <= i < |held[from..]| && held[from..][i].Id() == id;
      assert held[from + i].Id() == id;
    }
    ReleaseIsSame(t, IdsOf(held[from..]), status, code, next);
    SyncedSame(t, after, ledger);
    forall i | 0 <= i < from ensures HeldBy(after, c.owner, kept.rows[i]) && kept.rows[i] == c.rows[i] {
      assert kept.rows[i] == held[i].tuple == c.rows[i];
      assert HeldBy(t, c.owner, c.rows[i]);
      NotInTail(c, held, from, i);
    }
    if from > 0 && kept.rows[0].payload.LedgerEvent? {
      var k :| BlockAt(t, ledger, c.rows, k);
      LegacyStillSynced(t, after);
      assert BlockAt(after, ledger, kept.rows, k);
    }
  }

  lemma {:induction false} LegacyStillSynced(t: Table, after: Table)
    requires SameSynced(t, after)
    ensures LegacyKept(t, after)
  {
  }

  lemma {:induction false} NotInTail(c: Claim, held: seq<Row>, from: nat, i: nat)
    requires c.rows == Tuples(held) && i < from <= |held|
    requires forall i, k :: 0 <= i < k < |c.rows| ==> c.rows[i].eventId != c.rows[k].eventId
    ensures held[i].Id() !in IdsOf(held[from..])
  {
    forall k | 0 <= k < |held[from..]| ensures held[from..][k].Id() != held[i].Id() {
      assert c.rows[i].eventId != c.rows[from + k].eventId;
    }
  }

  // ----- Acknowledgements -----

  /** No row is being sent by this worker. */
  predicate HoldsNothing(t: Table, owner: string) {
    forall id :: id in t ==> !(t[id].Status() == Sending && t[id].evidence.claimOwner == Some(owner))
  }

  predicate HoldsAll(t: Table, owner: string, held: seq<Row>) {
    forall i :: 0 <= i < |held| ==> HeldBy(t, owner, held[i].tuple)
  }

  /** A worker holds all its rows or none: it still has its claim, or has lost it. */
  lemma {:induction false} HoldsExactly(t: Table, ledger: seq<Entry>, live: Option<Claim>, owner: string, held: seq<Row>)
    requires held != [] && (live.Some? ==> ClaimHeld(t, ledger, live.value))
    requires live == Some(LiveClaim(owner, Tuples(held))) || HoldsNothing(t, owner)
    ensures HoldsAll(t, owner, held) <==> !HoldsNothing(t, owner)
    ensures HoldsAll(t, owner, held) ==> live == Some(LiveClaim(owner, Tuples(held)))
  {
    hide Block;
    if HoldsAll(t, owner, held) {
      assert HeldBy(t, owner, held[0].tuple);
    }
    if live == Some(LiveClaim(owner, Tuples(held))) { HeldRows(t, ledger, live.value, held); }
  }

  predicate ConfirmableRow(current: Row, row: Row, ack: Ack) {
    && current.evidence.transportFingerprint == row.evidence.transportFingerprint
    && (current.evidence.receiptId.Some? ==>
          current.evidence.receiptId == Some(ack.receiptId) && current.evidence.serverReceivedAt == Some(ack.serverReceivedAt))
  }

  predicate SameReceipt(before: Row, after: Row) {
    after.evidence.receiptId == before.evidence.receiptId && after.evidence.serverReceivedAt == before.evidence.serverReceivedAt
  }

  function Confirmed(r: Row, ack: Ack, now: int): Row {
    r.(evidence := r.evidence.(status := Synced, attemptCount := 0, lastError := None, nextAttemptAt := 0, claimOwner := None,
                               leaseExpiresAt := None, receiptId := Some(ack.receiptId),
                               serverReceivedAt := Some(ack.serverReceivedAt), syncedAt := Some(now)))
  }

  predicate AllConfirmable(t: Table, held: seq<Row>, known: map<string, Ack>) {
    forall i :: 0 <= i < |held| ==>
      held[i].Id() in t && held[i].Id() in known && ConfirmableRow(t[held[i].Id()], held[i], known[held[i].Id()])
  }

  function ConfirmAll(t: Table, ids: set<string>, known: map<string, Ack>, now: int): Table {
    map id | id in t :: if id in ids && id in known then Confirmed(t[id], known[id], now) else t[id]
  }

  /** The loop of acknowledge: each row gets its receipt. */
  method ConfirmEach(rows: Table, held: seq<Row>, known: map<string, Ack>, now: int) returns (t: Table)
    requires forall i :: 0 <= i < |held| ==> held[i].Id() in rows && held[i].Id() in known
    ensures t == ConfirmAll(rows, IdsOf(held), known, now)
  {
    hide IdsOf, ConfirmAll, Confirmed;
    t := rows;
    NoneConfirmed(rows, known, now);
    for i := 0 to |held|
      invariant t == ConfirmAll(rows, IdsOf(held[..i]), known, now)
    {
      var row, ack := rows[held[i].Id()], known[held[i].Id()];
      OneMoreConfirmed(rows, held, i, known, now);
      ConfirmedRow(row, ack, now);
      t := t[held[i].Id() := row.(evidence := row.evidence.(
        status := Synced, attemptCount := 0, lastError := None, nextAttemptAt := 0, claimOwner := None, leaseExpiresAt := None,
        receiptId := Some(ack.receiptId), serverReceivedAt := Some(ack.serverReceivedAt), syncedAt := Some(now)))];
    }
    assert held[..|held|] == held;
  }

  lemma {:induction false} ConfirmedRow(row: Row, ack: Ack, now: int)
    ensures Confirmed(row, ack, now) == row.(evidence := row.evidence.(
      status := Synced, attemptCount := 0, lastError := None, nextAttemptAt := 0, claimOwner := None, leaseExpiresAt := None,
      receiptId := Some(ack.receiptId), serverReceivedAt := Some(ack.serverReceivedAt), syncedAt := Some(now)))
  {
  }

  lemma {:induction false} NoneConfirmed(rows: Table, known: map<string, Ack>, now: int)
    ensures ConfirmAll(rows, IdsOf([]), known, now) == rows
  {
  }

  lemma {:induction false} OneMoreConfirmed(rows: Table, held: seq<Row>, i: nat, known: map<string, Ack>, now: int)
    requires i < |held| && held[i].Id() in rows && held[i].Id() in known
    ensures ConfirmAll(rows, IdsOf(held[..i]), known, now)[held[i].Id() := Confirmed(rows[held[i].Id()], known[held[i].Id()], now)]
         == ConfirmAll(rows, IdsOf(held[..i + 1]), known, now)
  {
    hide Confirmed;
    assert IdsOf(held[..i + 1]) == IdsOf(held[..i]) + {held[i].Id()} by {
      assert held[..i + 1][i] == held[i];
      assert forall k :: 0 <= k < i ==> held[..i + 1][k] == held[..i][k];
    }
  }

  /** saveDestination for the given rows. */
  function EvidenceOf(t: Table, ids: set<string>, destination: string): Saved {
    map id | id in t && id in ids :: (destination, id) := Destination(t[id].tuple.payload.LedgerEvent?, t[id].evidence)
  }

  ghost predicate Confirmable(t: Table, held: seq<Row>, acks: seq<Ack>) {
    forall i, k :: 0 <= i < |held| && 0 <= k < |acks| && acks[k].eventId == held[i].Id() && held[i].Id() in t ==>
      ConfirmableRow(t[held[i].Id()], held[i], acks[k])
  }

  ghost predicate ConfirmedFrom(before: Row, after: Row, acks: seq<Ack>, now: int) {
    exists k :: 0 <= k < |acks| && acks[k].eventId == before.Id() && after == Confirmed(before, acks[k], now)
  }

  lemma {:induction false} EventsAnswered(held: seq<Row>, request: Request, response: Response, known: map<string, Ack>)
    requires request.events == EventsOf(held)
    requires forall i :: 0 <= i < |request.events| ==>
               request.events[i].eventId in known && Answers(request.events[i], known[request.events[i].eventId], response.serverHead)
    ensures forall i :: 0 <= i < |held| ==> held[i].Id() in known
    ensures forall id :: id in IdsOf(held) ==> id in known
  {
    hide Answers;
    forall i | 0 <= i < |held| ensures held[i].Id() in known {
      assert request.events[i].eventId == held[i].Id();
    }
  }

  lemma {:induction false} ConfirmableByMap(t: Table, held: seq<Row>, acks: seq<Ack>, known: map<string, Ack>)
    requires Indexes(known, acks)
    requires forall i :: 0 <= i < |held| ==> held[i].Id() in known && held[i].Id() in t
    ensures Confirmable(t, held, acks) <==> AllConfirmable(t, held, known)
  {
  }

  lemma {:induction false} ConfirmKeeps(t: Table, after: Table, chain: string, ledger: seq<Entry>, legacy: seq<Order>, c: Claim,
                                        held: seq<Row>, acks: seq<Ack>, known: map<string, Ack>, now: int)
    requires JournalShape(ledger) && RowsMatch(t, chain, ledger, legacy) && PrefixSynced(t, ledger)
    requires ClaimHeld(t, ledger, c) && c.rows == Tuples(held)
    requires Indexes(known, acks)
    requires forall id :: id in IdsOf(held) ==> id in t && id in known
    requires AllConfirmable(t, held, known) && after == ConfirmAll(t, IdsOf(held), known, now)
    ensures RowsMatch(after, chain, ledger, legacy) && PrefixSynced(after, ledger) && Preserved(t, after)
    ensures Everything(t, ledger, legacy) ==> Everything(after, ledger, legacy)
    ensures forall id :: id in after ==>
      if id in IdsOf(held) then ConfirmedFrom(t[id], after[id], acks, now) else after[id] == t[id]
    ensures t.Keys == after.Keys && forall id :: id in t ==> after[id].tuple == t[id].tuple
  {
    hide PrefixSynced, Block;
    forall id | id in after
      ensures after[id].tuple == t[id].tuple
      ensures if id in IdsOf(held) then ConfirmedFrom(t[id], after[id], acks, now) else after[id] == t[id]
      ensures t[id].evidence.receiptId.Some? ==> SameReceipt(t[id], after[id])
    {
      if id in IdsOf(held) {
        var i :| 0 <= i < |held| && held[i].Id() == id;
        assert known[id] in acks;
        var k :| 0 <= k < |acks| && acks[k] == known[id];
        assert t[id].Id() == id;
      }
    }
    AcknowledgedPrefix(t, after, ledger, c, held);
  }

  /** What an accepted acknowledgement leaves: the invariant, the other destinations, and nothing being sent. */
  lemma {:induction false} AckKeeps(t: Table, chain: string, ledger: seq<Entry>, legacy: seq<Order>, saved: Saved, active: string, owner: string,
                                    held: seq<Row>, acks: seq<Ack>, known: map<string, Ack>, now: int)
    requires JournalShape(ledger) && RowsMatch(t, chain, ledger, legacy) && PrefixSynced(t, ledger)
    requires SavedPrefixes(saved, active, ledger) && SavedFor(saved, t)
    requires ClaimHeld(t, ledger, LiveClaim(owner, Tuples(held))) && Indexes(known, acks) && AllConfirmable(t, held, known)
    requires forall id :: id in IdsOf(held) ==> id in t && id in known
    requires forall i :: 0 <= i < |held| ==> held[i].Id() in known
    ensures var after := ConfirmAll(t, IdsOf(held), known, now);
            && RowsMatch(after, chain, ledger, legacy) && PrefixSynced(after, ledger) && Preserved(t, after) && t.Keys == after.Keys
            && (Everything(t, ledger, legacy) ==> Everything(after, ledger, legacy))
            && (forall id :: id in after ==> if id in IdsOf(held) then ConfirmedFrom(t[id], after[id], acks, now) else after[id] == t[id])
            && SavedPrefixes(saved + EvidenceOf(after, IdsOf(held), active), active, ledger)
            && SavedFor(saved + EvidenceOf(after, IdsOf(held), active), after)
            && KeepsOthers(saved, saved + EvidenceOf(after, IdsOf(held), active), active)
            && (NoOrphans(t, Some(LiveClaim(owner, Tuples(held)))) ==> NoOrphans(after, None))
  {
    hide NoOrphans, JournalShape, RowsMatch, PrefixSynced, SavedPrefixes, Everything, AllConfirmable, ConfirmAll, EvidenceOf, ConfirmedFrom,
         Indexes, Preserved, ClaimHeld, KeepsOthers, SavedFor;
    var after := ConfirmAll(t, IdsOf(held), known, now);
    ConfirmKeeps(t, after, chain, ledger, legacy, LiveClaim(owner, Tuples(held)), held, acks, known, now);
    if NoOrphans(t, Some(LiveClaim(owner, Tuples(held)))) { AckLeavesNoOrphans(t, owner, held, known, now); }
    SavedElsewhere(saved, saved + EvidenceOf(after, IdsOf(held), active), active, ledger, t, after, IdsOf(held));
    OthersKept(saved, after, IdsOf(held), active);
  }

  /** Confirming the block right after the prefix makes a longer prefix. */
  lemma {:induction false} AcknowledgedPrefix(t: Table, after: Table, ledger: seq<Entry>, c: Claim, held: seq<Row>)
    requires JournalShape(ledger) && PrefixSynced(t, ledger) && ClaimHeld(t, ledger, c) && c.rows == Tuples(held)
    requires t.Keys == after.Keys
    requires forall id :: id in t ==> after[id].tuple == t[id].tuple && (id in IdsOf(held) ==> after[id].Status() == Synced)
    requires forall id :: id in t && id !in IdsOf(held) ==> after[id] == t[id]
    ensures PrefixSynced(after, ledger)
  {
    if c.rows != [] && c.rows[0].payload.LedgerEvent? {
      var k :| BlockAt(t, ledger, c.rows, k);
      forall n | 0 <= n < |ledger| ensures SyncedAt(after, ledger, n) <==> n < k + |held| {
        BlockSynced(t, after, ledger, c, held, k, n);
      }
    } else {
      forall n ensures SyncedAt(after, ledger, n) <==> SyncedAt(t, ledger, n) {
        LegacyBlock(t, after, ledger, c, held, n);
      }
      forall m, n | 0 <= m < n < |ledger| && SyncedAt(after, ledger, n) ensures SyncedAt(after, ledger, m) {
        assert SyncedAt(t, ledger, n) && SyncedAt(t, ledger, m);
      }
    }
  }

  lemma {:induction false} BlockSynced(t: Table, after: Table, ledger: seq<Entry>, c: Claim, held: seq<Row>, k: int, n: nat)
    requires JournalShape(ledger) && BlockAt(t, ledger, c.rows, k) && c.rows == Tuples(held) && n < |ledger| && t.Keys == after.Keys
    requires forall i :: 0 <= i < |c.rows| ==> HeldBy(t, c.owner, c.rows[i])
    requires forall id :: id in t ==> after[id].tuple == t[id].tuple && (id in IdsOf(held) ==> after[id].Status() == Synced)
    requires forall id :: id in t && id !in IdsOf(held) ==> after[id] == t[id]
    ensures SyncedAt(after, ledger, n) <==> n < k + |held|
  {
    hide HeldBy, IdsOf, JournalShape;
    assert SyncedAt(t, ledger, n) <==> n < k;
    if k <= n < k + |held| {
      BlockRowIs(t, ledger, c, held, k, n - k);
      IsHeld(held, n - k);
    } else {
      OutsideBlock(t, ledger, c, held, k, n);
    }
  }

  lemma {:induction false} IsHeld(held: seq<Row>, i: nat)
    requires i < |held|
    ensures held[i].Id() in IdsOf(held)
  {
  }

  lemma {:induction false} OutsideBlock(t: Table, ledger: seq<Entry>, c: Claim, held: seq<Row>, k: int, n: nat)
    requires JournalShape(ledger) && BlockAt(t, ledger, c.rows, k) && c.rows == Tuples(held) && n < |ledger| && !(k <= n < k + |held|)
    requires forall i :: 0 <= i < |c.rows| ==> HeldBy(t, c.owner, c.rows[i])
    ensures ledger[n].Id() !in IdsOf(held)
  {
    hide HeldBy, SyncedAt;
    forall i | 0 <= i < |held| ensures held[i].Id() != ledger[n].Id() {
      BlockRowIs(t, ledger, c, held, k, i);
    }
  }

  lemma {:induction false} BlockRowIs(t: Table, ledger: seq<Entry>, c: Claim, held: seq<Row>, k: int, i: nat)
    requires BlockAt(t, ledger, c.rows, k) && c.rows == Tuples(held) && i < |held| && HeldBy(t, c.owner, c.rows[i])
    ensures held[i].Id() == ledger[k + i].Id() && held[i].Id() in t && t[held[i].Id()].tuple.payload == LedgerEvent(ledger[k + i])
  {
    hide SyncedAt;
    assert c.rows[i] == held[i].tuple;
  }

  lemma {:induction false} LegacyBlock(t: Table, after: Table, ledger: seq<Entry>, c: Claim, held: seq<Row>, n: int)
    requires ClaimHeld(t, ledger, c) && c.rows == Tuples(held) && t.Keys == after.Keys
    requires c.rows != [] ==> !c.rows[0].payload.LedgerEvent?
    requires forall id :: id in t ==> after[id].tuple == t[id].tuple
    requires forall id :: id in t && id !in IdsOf(held) ==> after[id] == t[id]
    ensures SyncedAt(after, ledger, n) <==> SyncedAt(t, ledger, n)
  {
    hide Block;
    if 0 <= n < |ledger| && HasEntry(t, ledger[n]) {
      forall i | 0 <= i < |held| ensures held[i].Id() != ledger[n].Id() {
        assert HeldBy(t, c.owner, c.rows[i]);
        assert c.rows[i] == held[i].tuple;
      }
    }
  }

  /** Saving evidence of the active destination leaves the other destinations as they were. */
  lemma {:induction false} SavedElsewhere(saved: Saved, updated: Saved, active: string, ledger: seq<Entry>, before: Table, after: Table,
                                          ids: set<string>)
    requires SavedPrefixes(saved, active, ledger) && before.Keys == after.Keys && ids <= after.Keys
    requires forall id :: id in before ==> after[id].tuple == before[id].tuple
    requires SavedFor(saved, before)
    requires updated == saved + EvidenceOf(after, ids, active)
    ensures SavedPrefixes(updated, active, ledger)
    ensures SavedFor(updated, after)
  {
    forall d, n | d != active ensures SavedSyncedAt(updated, d, ledger, n) <==> SavedSyncedAt(saved, d, ledger, n) {
    }
  }

  function ClaimOf(owner: string, rows: seq<Row>): Claim { LiveClaim(owner, Tuples(rows)) }

  function Tuples(rows: seq<Row>): seq<Tuple> { seq(|rows|, i requires 0 <= i < |rows| => rows[i].tuple) }

  function IdsOf(rows: seq<Row>): set<string> { set i | 0 <= i < |rows| :: rows[i].Id() }

  function BindWith(scope: Scope, owner: string, now: int): Row -> Row { (r: Row) => Bound(r, scope, owner, now) }

  function Taken(rows: seq<Row>, scope: Scope, owner: string, now: int): seq<Row> {
    seq(|rows|, i requires 0 <= i < |rows| => Bound(rows[i], scope, owner, now))
  }

  /** The loop goes on to the i-th candidate only if it follows the one before it. */
  predicate Follows(rows: seq<Row>, i: nat)
    requires i < |rows|
  {
    rows[i].tuple.payload.LedgerEvent? && 0 < i ==>
      rows[i - 1].tuple.payload.LedgerEvent? && rows[i].tuple.payload.entry.Sequence() == rows[i - 1].tuple.payload.entry.Sequence() + 1
  }

  /** The whole effect of claim, given the two queries it makes. */
  ghost predicate ClaimSteps(before: Table, first: seq<Row>, candidates: seq<Row>, after: Table, claimed: seq<Row>,
                             scope: Scope, owner: string, now: int, max: nat) {
    var ready := Refreshed(before, IdsOf(first), now);
    && IsOutstanding(before, first, BATCH)
    && IsOutstanding(ready, candidates, BATCH)
    && if Blocked(ready) || candidates == [] then claimed == [] && after == ready
       else
         var n := TakeLength(candidates, candidates[0].tuple.payload.LedgerEvent?, now, max);
         && claimed == Taken(candidates[..n], scope, owner, now)
         && after == Change(ready, BindWith(scope, owner, now), IdsOf(candidates[..n]))
  }

  ghost predicate ClaimSpec(before: Table, after: Table, claimed: seq<Row>, scope: Scope, owner: string, now: int, max: nat) {
    exists first, candidates :: ClaimSteps(before, first, candidates, after, claimed, scope, owner, now, max)
  }

  /** Some candidate the loop would take carries the evidence of another scope. */
  ghost predicate Unbindable(candidates: seq<Row>, scope: Scope, now: int, max: nat) {
    candidates != []
    && exists i :: 0 <= i < TakeLength(candidates, candidates[0].tuple.payload.LedgerEvent?, now, max) && !Bindable(candidates[i], scope)
  }

  ghost predicate ClaimRefused(before: Table, scope: Scope, now: int, max: nat) {
    exists first: seq<Row>, candidates: seq<Row> ::
      && IsOutstanding(before, first, BATCH)
      && IsOutstanding(Refreshed(before, IdsOf(first), now), candidates, BATCH)
      && !Blocked(Refreshed(before, IdsOf(first), now))
      && Unbindable(candidates, scope, now, max)
  }

  /** The two queries have one answer each. */
  lemma {:induction false} RefusedIs(before: Table, first: seq<Row>, candidates: seq<Row>, scope: Scope, now: int, max: nat)
    requires IsOutstanding(before, first, BATCH) && IsOutstanding(Refreshed(before, IdsOf(first), now), candidates, BATCH)
    ensures ClaimRefused(before, scope, now, max) <==>
              !Blocked(Refreshed(before, IdsOf(first), now)) && Unbindable(candidates, scope, now, max)
  {
    hide IsOutstanding, Refreshed, Blocked, Unbindable, IdsOf;
    if ClaimRefused(before, scope, now, max) {
      var f: seq<Row>, c: seq<Row> :|
        && IsOutstanding(before, f, BATCH)
        && IsOutstanding(Refreshed(before, IdsOf(f), now), c, BATCH)
        && !Blocked(Refreshed(before, IdsOf(f), now))
        && Unbindable(c, scope, now, max);
      OutstandingIsUnique(before, first, f, BATCH);
      OutstandingIsUnique(Refreshed(before, IdsOf(first), now), candidates, c, BATCH);
    }
  }

  /** Under the protocol invariant no candidate lacks its predecessor. */
  lemma {:induction false} CandidatesFollow(t: Table, chain: string, ledger: seq<Entry>, legacy: seq<Order>, candidates: seq<Row>,
                                            now: int, max: nat)
    requires JournalShape(ledger) && RowsMatch(t, chain, ledger, legacy) && PrefixSynced(t, ledger) && Everything(t, ledger, legacy)
    requires IsOutstanding(t, candidates, BATCH) && candidates != []
    ensures forall i :: 0 <= i < TakeLength(candidates, candidates[0].tuple.payload.LedgerEvent?, now, max) ==> Follows(candidates, i)
  {
    hide RowsMatch, PrefixSynced, Everything, IsOutstanding;
    var ledgerFirst := candidates[0].tuple.payload.LedgerEvent?;
    var n := TakeLength(candidates, ledgerFirst, now, max);
    TakeLengthFits(candidates, ledgerFirst, now, max);
    if n > 0 && ledgerFirst {
      var k := OutstandingIsBlock(t, chain, ledger, legacy, candidates, BATCH, n);
    }
  }

  lemma {:induction false} TakeLengthFits(rows: seq<Row>, ledger: bool, now: int, limit: nat)
    ensures forall i :: 0 <= i < TakeLength(rows, ledger, now, limit) ==> Takes(rows[i], ledger, now)
  {
    hide Takes;
    if rows != [] && limit > 0 && Takes(rows[0], ledger, now) {
      TakeLengthFits(rows[1..], ledger, now, limit - 1);
    }
  }

  /** The claim loop: how many rows it takes, and whether a `require` of it fails. */
  method TakeRows(candidates: seq<Row>, scope: Scope, now: int, max: nat) returns (n: nat, accepted: bool)
    requires candidates != []
    ensures n <= |candidates|
    ensures accepted ==> n == TakeLength(candidates, candidates[0].tuple.payload.LedgerEvent?, now, max)
    ensures accepted ==> forall i :: 0 <= i < n ==> Takes(candidates[i], candidates[0].tuple.payload.LedgerEvent?, now)
    ensures accepted ==> forall i :: 0 <= i < n ==> Follows(candidates, i) && Bindable(candidates[i], scope)
    ensures !accepted ==> n < TakeLength(candidates, candidates[0].tuple.payload.LedgerEvent?, now, max)
                          && !(Follows(candidates, n) && Bindable(candidates[n], scope))
  {
    hide Follows, Bindable;
    var ledger := candidates[0].tuple.payload.LedgerEvent?;
    n, accepted := 0, true;
    while n < max && n < |candidates| && Takes(candidates[n], ledger, now)
      invariant n <= max && n <= |candidates|
      invariant forall i :: 0 <= i < n ==> Takes(candidates[i], ledger, now) && Follows(candidates, i) && Bindable(candidates[i], scope)
      decreases |candidates| - n
    {
      if !Follows(candidates, n) || !Bindable(candidates[n], scope) {
        TakeLengthReaches(candidates, ledger, now, max, n + 1);
        return n, false;
      }
      n := n + 1;
    }
    TakeLengthIs(candidates, ledger, now, max, n);
  }

  lemma {:induction false} TakeLengthReaches(rows: seq<Row>, ledger: bool, now: int, limit: nat, j: nat)
    requires j <= |rows| && j <= limit && forall i :: 0 <= i < j ==> Takes(rows[i], ledger, now)
    ensures j <= TakeLength(rows, ledger, now, limit)
  {
    if j > 0 {
      TakeLengthReaches(rows[1..], ledger, now, limit - 1, j - 1);
    }
  }

  lemma {:induction false} RowsAreKeyed(t: Table, chain: string, ledger: seq<Entry>, legacy: seq<Order>)
    requires RowsMatch(t, chain, ledger, legacy)
    ensures Keyed(t)
  {
  }

  lemma {:induction false} RefreshKeeps(t: Table, skewed: set<string>, now: int)
    ensures SameSynced(t, Refreshed(t, skewed, now)) && Preserved(t, Refreshed(t, skewed, now))
  {
  }

  lemma {:induction false} TakenKeeps(t: Table, candidates: seq<Row>, n: nat, scope: Scope, owner: string, now: int)
    requires n <= |candidates| && IsOutstanding(t, candidates, BATCH)
    ensures var after := Change(t, BindWith(scope, owner, now), IdsOf(candidates[..n]));
            SameSynced(t, after) && Preserved(t, after)
  {
  }

  lemma {:induction false} SameTable(t: Table)
    ensures SameSynced(t, t) && Preserved(t, t)
  {
  }

  lemma {:induction false} KeptTwice(a: Table, b: Table, c: Table)
    requires SameSynced(a, b) && Preserved(a, b) && SameSynced(b, c) && Preserved(b, c)
    ensures SameSynced(a, c) && Preserved(a, c)
  {
  }

  lemma {:induction false} SavedStays(saved: Saved, before: Table, after: Table)
    requires SameSynced(before, after) && SavedFor(saved, before)
    ensures SavedFor(saved, after)
  {
  }

  /** What claim took is held, contiguous and right after the synced prefix. */
  lemma {:induction false} TakenIsClaim(t: Table, chain: string, ledger: seq<Entry>, legacy: seq<Order>,
                                        candidates: seq<Row>, n: nat, scope: Scope, owner: string, now: int)
    requires JournalShape(ledger) && RowsMatch(t, chain, ledger, legacy) && PrefixSynced(t, ledger) && Everything(t, ledger, legacy)
    requires IsOutstanding(t, candidates, BATCH) && 0 < n <= |candidates|
    requires forall i :: 0 <= i < n ==> Takes(candidates[i], candidates[0].tuple.payload.LedgerEvent?, now)
    ensures ClaimHeld(Change(t, BindWith(scope, owner, now), IdsOf(candidates[..n])), ledger,
                      ClaimOf(owner, Taken(candidates[..n], scope, owner, now)))
  {
    hide JournalShape, RowsMatch, PrefixSynced, Everything, IsOutstanding;
    var after := Change(t, BindWith(scope, owner, now), IdsOf(candidates[..n]));
    var c := ClaimOf(owner, Taken(candidates[..n], scope, owner, now));
    OutstandingFacts(t, candidates);
    forall i | 0 <= i < n ensures HeldBy(after, owner, c.rows[i]) && c.rows[i] == candidates[i].tuple {
      assert candidates[..n][i] == candidates[i];
      assert candidates[i].Id() in IdsOf(candidates[..n]);
    }
    if candidates[0].tuple.payload.LedgerEvent? {
      var k := OutstandingIsBlock(t, chain, ledger, legacy, candidates, BATCH, n);
      TakenKeeps(t, candidates, n, scope, owner, now);
      SyncedSame(t, after, ledger);
      assert BlockAt(after, ledger, c.rows, k);
    }
  }

  lemma {:induction false} OutstandingFacts(t: Table, rows: seq<Row>)
    requires IsOutstanding(t, rows, BATCH)
    ensures forall i :: 0 <= i < |rows| ==> rows[i].Id() in t && t[rows[i].Id()] == rows[i]
    ensures forall i, k :: 0 <= i < k < |rows| ==> rows[i].Id() != rows[k].Id()
  {
    hide RowBefore;
    forall i, k | 0 <= i < k < |rows| ensures rows[i].Id() != rows[k].Id() {
      assert RowBefore(rows[i].tuple, rows[k].tuple);
      RowBeforeIsTotal(rows[i].tuple, rows[k].tuple);
    }
  }

  lemma {:induction false} SyncedSame(before: Table, after: Table, ledger: seq<Entry>)
    requires SameSynced(before, after)
    ensures forall n :: SyncedAt(after, ledger, n) <==> SyncedAt(before, ledger, n)
  {
  }

  /** A row that was not there is not part of the claim; a ledger row is no legacy sale. */
  lemma {:induction false} AddedRowKeepsClaim(t: Table, ledger: seq<Entry>, later: seq<Entry>, c: Claim, r: Row)
    requires ClaimHeld(t, ledger, c) && ledger <= later && r.Id() !in t && r.Status() == Pending
    requires r.tuple.payload.LedgerEvent? || (c.rows != [] ==> !c.rows[0].payload.LedgerEvent?)
    requires forall n :: SyncedAt(t[r.Id() := r], later, n) <==> SyncedAt(t, ledger, n)
    ensures ClaimHeld(t[r.Id() := r], later, c)
  {
    forall i | 0 <= i < |c.rows| ensures HeldBy(t[r.Id() := r], c.owner, c.rows[i]) {
      assert HeldBy(t, c.owner, c.rows[i]);
    }
    ClaimSurvives(t, t[r.Id() := r], ledger, later, c);
  }

  /** A new entry has no saved evidence: its id is new to every table. */
  lemma {:induction false} SavedGrows(saved: Saved, active: string, ledger: seq<Entry>, e: Entry, t: Table)
    requires SavedPrefixes(saved, active, ledger) && e.Id() !in t && SavedFor(saved, t)
    ensures SavedPrefixes(saved, active, ledger + [e])
  {
    forall d, m, n | d != active && 0 <= m < n < |ledger + [e]| && SavedSyncedAt(saved, d, ledger + [e], n)
      ensures SavedSyncedAt(saved, d, ledger + [e], m)
    {
      assert n == |ledger| ==> (d, e.Id()) in saved;
      assert SavedSyncedAt(saved, d, ledger, n) && SavedSyncedAt(saved, d, ledger, m);
    }
  }
}