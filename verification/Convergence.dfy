/**
 When delivery converges after a recovery. The worker of native/android/SyncEngine.kt sends
 its rows again from the first entry, cut into batches as Select cuts them; the server of
 server/src/persistence/store.ts holds the first entries of the journal. A round is one batch
 through persistLedger, and a refused one sends the worker back to the start.
 */
module Convergence {
  import opened Ledger
  import opened OutboxRows
  import opened Outbox
  import opened Acks
  import opened Recovery
  import opened ServerStore
  import OutboxStore
  import SyncEngine

  /** The server's chain, and how many entries the worker has delivered. */
  datatype Progress = Progress(chain: seq<Entry>, synced: nat)

  /** Where a round that starts after k entries ends: k itself when it sends nothing. */
  predicate Cuts(cut: nat -> nat, k: nat, limit: nat, end: nat) { k <= cut(k) <= end && cut(k) <= k + limit }

  /** Every round has its own cuts: rows may not be due, the limit may shrink, entries may be recorded meanwhile. */
  type Plan = nat -> nat -> nat

  ghost predicate ValidPlan(plan: Plan, limit: nat, end: nat) {
    forall n: nat, k: nat :: k < end ==> Cuts(plan(n), k, limit, end)
  }

  /** Whatever is left is sent sooner or later. */
  ghost predicate Lively(plan: Plan, end: nat) {
    forall n: nat, k: nat :: k < end ==> SendsLater(plan, n, k)
  }

  ghost predicate SendsLater(plan: Plan, n: nat, k: nat) { exists m: nat :: n <= m && Sends(plan, m, k) }

  predicate Sends(plan: Plan, n: nat, k: nat) { k < plan(n)(k) }

  /** The server of the rounds and how it sees the journal. */
  datatype Server = Server(judge: Judge, sold: string -> bool)

  /** One round. After a refusal the worker starts over when its recovery succeeds, and else stays where it is. */
  function RoundOf(ledger: seq<Entry>, p: Progress, cut: nat -> nat, server: Server, recovers: bool): Progress {
    var k := p.synced;
    if !(k < cut(k) <= |ledger|) then p
    else
      match PersistAll(p.chain, ServerHead(k, Head(ledger[..k])), ledger[k..cut(k)], server.judge, server.sold)
      case Committed(chain, _) => Progress(chain, cut(k))
      case Refused(_) => Progress(p.chain, if recovers then 0 else k)
  }

  /** The rounds of a run; `recovers` tells for each of them whether its recovery, if any, succeeds. */
  function Rounds(ledger: seq<Entry>, p: Progress, plan: Plan, server: Server, recovers: nat -> bool, n: nat): Progress {
    if n == 0 then p
    else RoundOf(ledger, Rounds(ledger, p, plan, server, recovers, n - 1), plan(n - 1), server, recovers(n - 1))
  }

  ghost predicate Reaches(ledger: seq<Entry>, p: Progress, plan: Plan, server: Server, recovers: nat -> bool) {
    exists n: nat :: Rounds(ledger, p, plan, server, recovers, n).synced == |ledger|
  }

  /** Some round starts exactly where the server's chain ends. */
  ghost predicate Meets(ledger: seq<Entry>, h: nat, plan: Plan, server: Server, recovers: nat -> bool)
    requires h <= |ledger|
  {
    exists n: nat :: StartsAt(ledger, h, plan, server, recovers, n, h)
  }

  predicate StartsAt(ledger: seq<Entry>, h: nat, plan: Plan, server: Server, recovers: nat -> bool, n: nat, k: nat)
    requires h <= |ledger|
  {
    Rounds(ledger, Progress(ledger[..h], 0), plan, server, recovers, n).synced == k
  }

  /** The journal, the rounds and the server a run is about. */
  ghost predicate Setting(ledger: seq<Entry>, plan: Plan, limit: nat, server: Server) {
    && KeyedLedger(ledger) && SoldHereOnly(ledger, server.sold) && JudgesWell(ledger, server.judge)
    && ValidPlan(plan, limit, |ledger|)
  }

  /** One round of a worker that has delivered no more than the server has. */
  lemma {:induction false} OneRound(ledger: seq<Entry>, h: nat, k: nat, cut: nat -> nat, limit: nat, server: Server, recovers: bool)
    requires KeyedLedger(ledger) && SoldHereOnly(ledger, server.sold) && JudgesWell(ledger, server.judge)
    requires k <= h <= |ledger| && (k < |ledger| ==> Cuts(cut, k, limit, |ledger|))
    ensures var next := RoundOf(ledger, Progress(ledger[..h], k), cut, server, recovers);
            if k == |ledger| || cut(k) == k then next == Progress(ledger[..h], k)
            else if cut(k) <= h then next == Progress(ledger[..h], cut(k))
            else if k == h then next == Progress(ledger[..cut(k)], cut(k))
            else next == Progress(ledger[..h], if recovers then 0 else k)
  {
    hide KeyedLedger, SoldHereOnly, JudgesWell, PersistAll;
    if k < |ledger| && k < cut(k) { BatchOutcome(ledger, h, k, cut(k), server.judge, server.sold); }
  }

  /** Until a round starts at the server's head, the server gains nothing and the worker stays behind it. */
  lemma {:induction false} BeforeMeeting(ledger: seq<Entry>, h: nat, plan: Plan, limit: nat, server: Server, recovers: nat -> bool, n: nat)
    requires Setting(ledger, plan, limit, server) && h <= |ledger|
    requires forall m: nat :: m <= n ==> !StartsAt(ledger, h, plan, server, recovers, m, h)
    ensures var p := Rounds(ledger, Progress(ledger[..h], 0), plan, server, recovers, n);
            p.chain == ledger[..h] && p.synced < h
  {
    hide KeyedLedger, SoldHereOnly, JudgesWell, RoundOf;
    assert !StartsAt(ledger, h, plan, server, recovers, n, h);
    if n == 0 {
      assert !StartsAt(ledger, h, plan, server, recovers, 0, h);
    } else {
      BeforeMeeting(ledger, h, plan, limit, server, recovers, n - 1);
      var p := Rounds(ledger, Progress(ledger[..h], 0), plan, server, recovers, n - 1);
      OneRound(ledger, h, p.synced, plan(n - 1), limit, server, recovers(n - 1));
    }
  }

  /** From there on the two go together. */
  lemma {:induction false} AfterMeeting(ledger: seq<Entry>, h: nat, plan: Plan, limit: nat, server: Server, recovers: nat -> bool, n: nat, m: nat)
    requires Setting(ledger, plan, limit, server) && h <= |ledger| && n <= m
    requires var p := Rounds(ledger, Progress(ledger[..h], 0), plan, server, recovers, n);
             p.synced <= |ledger| && p.chain == ledger[..p.synced]
    ensures var p := Rounds(ledger, Progress(ledger[..h], 0), plan, server, recovers, n);
            var q := Rounds(ledger, Progress(ledger[..h], 0), plan, server, recovers, m);
            p.synced <= q.synced <= |ledger| && q.chain == ledger[..q.synced]
    decreases m - n
  {
    hide KeyedLedger, SoldHereOnly, JudgesWell, RoundOf;
    if n < m {
      AfterMeeting(ledger, h, plan, limit, server, recovers, n, m - 1);
      var q := Rounds(ledger, Progress(ledger[..h], 0), plan, server, recovers, m - 1);
      OneRound(ledger, q.synced, q.synced, plan(m - 1), limit, server, recovers(m - 1));
    }
  }

  /** And while something is left a later round delivers more. */
  lemma {:induction false} NextDelivery(ledger: seq<Entry>, h: nat, plan: Plan, limit: nat, server: Server, recovers: nat -> bool, n: nat)
      returns (m: nat)
    requires Setting(ledger, plan, limit, server) && Lively(plan, |ledger|) && h <= |ledger|
    requires var p := Rounds(ledger, Progress(ledger[..h], 0), plan, server, recovers, n);
             p.synced < |ledger| && p.chain == ledger[..p.synced]
    ensures n <= m
    ensures var p := Rounds(ledger, Progress(ledger[..h], 0), plan, server, recovers, n);
            var q := Rounds(ledger, Progress(ledger[..h], 0), plan, server, recovers, m);
            p.synced < q.synced <= |ledger| && q.chain == ledger[..q.synced]
  {
    hide KeyedLedger, SoldHereOnly, JudgesWell, RoundOf;
    var k := Rounds(ledger, Progress(ledger[..h], 0), plan, server, recovers, n).synced;
    assert SendsLater(plan, n, k);
    var r: nat :| n <= r && Sends(plan, r, k);
    AfterMeeting(ledger, h, plan, limit, server, recovers, n, r);
    AfterMeeting(ledger, h, plan, limit, server, recovers, n, r + 1);
    var q := Rounds(ledger, Progress(ledger[..h], 0), plan, server, recovers, r);
    OneRound(ledger, q.synced, q.synced, plan(r), limit, server, recovers(r));
    m := if q.synced > k then r else r + 1;
  }

  lemma {:induction false} Finishes(ledger: seq<Entry>, h: nat, plan: Plan, limit: nat, server: Server, recovers: nat -> bool, n: nat)
    requires Setting(ledger, plan, limit, server) && Lively(plan, |ledger|) && h <= |ledger|
    requires var p := Rounds(ledger, Progress(ledger[..h], 0), plan, server, recovers, n);
             p.synced <= |ledger| && p.chain == ledger[..p.synced]
    ensures Reaches(ledger, Progress(ledger[..h], 0), plan, server, recovers)
    decreases |ledger| - Rounds(ledger, Progress(ledger[..h], 0), plan, server, recovers, n).synced
  {
    hide Setting, Lively, RoundOf;
    if Rounds(ledger, Progress(ledger[..h], 0), plan, server, recovers, n).synced < |ledger| {
      var m := NextDelivery(ledger, h, plan, limit, server, recovers, n);
      Finishes(ledger, h, plan, limit, server, recovers, m);
    }
  }

  /** The first round that starts at the server's head finds the server as it was. */
  lemma {:induction false} FirstMeeting(ledger: seq<Entry>, h: nat, plan: Plan, limit: nat, server: Server, recovers: nat -> bool, n: nat)
      returns (m: nat)
    requires Setting(ledger, plan, limit, server) && h <= |ledger| && StartsAt(ledger, h, plan, server, recovers, n, h)
    ensures m <= n && Rounds(ledger, Progress(ledger[..h], 0), plan, server, recovers, m) == Progress(ledger[..h], h)
    decreases n
  {
    hide Setting, RoundOf;
    if exists i: nat :: i < n && StartsAt(ledger, h, plan, server, recovers, i, h) {
      var i: nat :| i < n && StartsAt(ledger, h, plan, server, recovers, i, h);
      m := FirstMeeting(ledger, h, plan, limit, server, recovers, i);
    } else {
      m := n;
      if n > 0 {
        BeforeMeeting(ledger, h, plan, limit, server, recovers, n - 1);
        LastStep(ledger, h, plan, limit, server, recovers, n);
      }
    }
  }

  lemma {:induction false} LastStep(ledger: seq<Entry>, h: nat, plan: Plan, limit: nat, server: Server, recovers: nat -> bool, n: nat)
    requires Setting(ledger, plan, limit, server) && h <= |ledger| && 0 < n
    requires var p := Rounds(ledger, Progress(ledger[..h], 0), plan, server, recovers, n - 1); p.chain == ledger[..h] && p.synced < h
    ensures Rounds(ledger, Progress(ledger[..h], 0), plan, server, recovers, n).chain == ledger[..h]
  {
    hide KeyedLedger, SoldHereOnly, JudgesWell, RoundOf;
    var p := Rounds(ledger, Progress(ledger[..h], 0), plan, server, recovers, n - 1);
    OneRound(ledger, h, p.synced, plan(n - 1), limit, server, recovers(n - 1));
  }

  /**
   Whatever the rounds send and whichever recoveries succeed: the rounds reach the end of the
   journal if and only if one of them starts exactly at the server's head. Otherwise the
   batch across the head is refused each time, and the server never stores another entry.
   */
  lemma {:induction false} RoundsReachExactly(ledger: seq<Entry>, h: nat, plan: Plan, limit: nat, server: Server, recovers: nat -> bool)
    requires Setting(ledger, plan, limit, server) && Lively(plan, |ledger|) && h <= |ledger|
    ensures Reaches(ledger, Progress(ledger[..h], 0), plan, server, recovers) <==> Meets(ledger, h, plan, server, recovers)
    ensures !Meets(ledger, h, plan, server, recovers) ==>
              forall n: nat :: Rounds(ledger, Progress(ledger[..h], 0), plan, server, recovers, n).chain == ledger[..h]
  {
    hide Setting, Lively, Rounds;
    if Meets(ledger, h, plan, server, recovers) {
      var n: nat :| StartsAt(ledger, h, plan, server, recovers, n, h);
      var m := FirstMeeting(ledger, h, plan, limit, server, recovers, n);
      Finishes(ledger, h, plan, limit, server, recovers, m);
    } else {
      forall n: nat
        ensures Rounds(ledger, Progress(ledger[..h], 0), plan, server, recovers, n).chain == ledger[..h]
        ensures Rounds(ledger, Progress(ledger[..h], 0), plan, server, recovers, n).synced < h
      {
        BeforeMeeting(ledger, h, plan, limit, server, recovers, n);
      }
    }
  }

  // ----- Batches of one shape -----

  /** The rounds of a worker whose batches only depend on where they start. */
  function Same(cut: nat -> nat): Plan { (n: nat) => cut }

  /** Such a batch is never empty. */
  ghost predicate ValidCut(cut: nat -> nat, limit: nat, end: nat) {
    forall k: nat :: k < end ==> k < cut(k) && Cuts(cut, k, limit, end)
  }

  /** The n-th cut counted from the start. */
  function CutAt(cut: nat -> nat, n: nat, end: nat): nat {
    if n == 0 then 0
    else
      var k := CutAt(cut, n - 1, end);
      if k < end then cut(k) else k
  }

  /** h falls between two batches. */
  ghost predicate Boundary(cut: nat -> nat, h: nat, end: nat) { exists n: nat :: CutAt(cut, n, end) == h }

  /** Short of the first batch across the server's head, each round makes the next cut. */
  lemma {:induction false} RoundsFollowCuts(ledger: seq<Entry>, h: nat, cut: nat -> nat, limit: nat, server: Server, recovers: nat -> bool, n: nat)
    requires Setting(ledger, Same(cut), limit, server) && ValidCut(cut, limit, |ledger|) && h <= |ledger|
    requires CutAt(cut, n, |ledger|) <= h && forall m: nat :: m < n ==> CutAt(cut, m, |ledger|) < h
    ensures Rounds(ledger, Progress(ledger[..h], 0), Same(cut), server, recovers, n) == Progress(ledger[..h], CutAt(cut, n, |ledger|))
  {
    hide KeyedLedger, SoldHereOnly, JudgesWell, RoundOf;
    if n > 0 {
      RoundsFollowCuts(ledger, h, cut, limit, server, recovers, n - 1);
      OneRound(ledger, h, CutAt(cut, n - 1, |ledger|), cut, limit, server, recovers(n - 1));
    }
  }

  /** Every round starts at a cut. */
  lemma {:induction false} RoundsStartAtCuts(ledger: seq<Entry>, h: nat, cut: nat -> nat, limit: nat, server: Server, recovers: nat -> bool, n: nat)
    requires Setting(ledger, Same(cut), limit, server) && ValidCut(cut, limit, |ledger|) && h <= |ledger|
    requires forall m: nat :: m < n ==> !StartsAt(ledger, h, Same(cut), server, recovers, m, h)
    ensures var p := Rounds(ledger, Progress(ledger[..h], 0), Same(cut), server, recovers, n); Boundary(cut, p.synced, |ledger|)
  {
    hide KeyedLedger, SoldHereOnly, JudgesWell, RoundOf;
    assert CutAt(cut, 0, |ledger|) == 0;
    if n > 0 {
      RoundsStartAtCuts(ledger, h, cut, limit, server, recovers, n - 1);
      BeforeMeeting(ledger, h, Same(cut), limit, server, recovers, n - 1);
      var p := Rounds(ledger, Progress(ledger[..h], 0), Same(cut), server, recovers, n - 1);
      OneRound(ledger, h, p.synced, cut, limit, server, recovers(n - 1));
      var m: nat :| CutAt(cut, m, |ledger|) == p.synced;
      assert CutAt(cut, m + 1, |ledger|) == cut(p.synced);
    }
  }

  /** The first cut at or beyond h. */
  lemma {:induction false} FirstCut(cut: nat -> nat, limit: nat, end: nat, h: nat, n: nat) returns (m: nat)
    requires ValidCut(cut, limit, end) && h <= end && CutAt(cut, n, end) == h
    ensures CutAt(cut, m, end) == h && forall i: nat :: i < m ==> CutAt(cut, i, end) < h
    decreases n
  {
    if exists i: nat :: i < n && CutAt(cut, i, end) == h {
      var i: nat :| i < n && CutAt(cut, i, end) == h;
      m := FirstCut(cut, limit, end, h, i);
    } else {
      m := n;
      forall i: nat | i < n ensures CutAt(cut, i, end) < h {
        CutsOrdered(cut, limit, i, n, end);
      }
    }
  }

  lemma {:induction false} CutsOrdered(cut: nat -> nat, limit: nat, n: nat, m: nat, end: nat)
    requires ValidCut(cut, limit, end) && n <= m
    ensures CutAt(cut, n, end) <= CutAt(cut, m, end)
    decreases m - n
  {
    if n < m {
      CutsOrdered(cut, limit, n, m - 1, end);
      var k := CutAt(cut, m - 1, end);
      assert k < end ==> Cuts(cut, k, limit, end);
    }
  }

  lemma {:induction false} SamePlan(cut: nat -> nat, limit: nat, end: nat)
    requires ValidCut(cut, limit, end)
    ensures ValidPlan(Same(cut), limit, end) && Lively(Same(cut), end)
  {
    forall n: nat, k: nat | k < end ensures SendsLater(Same(cut), n, k) {
      assert Sends(Same(cut), n, k);
    }
  }

  /** The end of the journal is a cut. */
  lemma {:induction false} EndIsACut(cut: nat -> nat, limit: nat, end: nat, n: nat)
    requires ValidCut(cut, limit, end)
    ensures CutAt(cut, n, end) <= end && (CutAt(cut, n, end) == end || n <= CutAt(cut, n, end))
    ensures n == end ==> Boundary(cut, end, end)
  {
    if n > 0 {
      EndIsACut(cut, limit, end, n - 1);
      assert CutAt(cut, n - 1, end) < end ==> Cuts(cut, CutAt(cut, n - 1, end), limit, end);
    }
  }

  /**
   With batches of one shape that is: if and only if the server's head falls between two
   batches, as the end of the journal always does.
   */
  lemma {:induction false} RecoveryReachesExactly(ledger: seq<Entry>, h: nat, cut: nat -> nat, limit: nat, server: Server,
                                                  recovers: nat -> bool)
    requires KeyedLedger(ledger) && SoldHereOnly(ledger, server.sold) && JudgesWell(ledger, server.judge)
    requires ValidCut(cut, limit, |ledger|) && h <= |ledger|
    ensures Reaches(ledger, Progress(ledger[..h], 0), Same(cut), server, recovers) <==> Boundary(cut, h, |ledger|)
    ensures h == |ledger| ==> Boundary(cut, h, |ledger|)
    ensures !Boundary(cut, h, |ledger|) ==>
              forall n: nat :: Rounds(ledger, Progress(ledger[..h], 0), Same(cut), server, recovers, n).chain == ledger[..h]
  {
    hide KeyedLedger, SoldHereOnly, JudgesWell, Rounds, Lively, ValidCut, ValidPlan;
    SamePlan(cut, limit, |ledger|);
    EndIsACut(cut, limit, |ledger|, |ledger|);
    RoundsReachExactly(ledger, h, Same(cut), limit, server, recovers);
    if Boundary(cut, h, |ledger|) {
      var n: nat :| CutAt(cut, n, |ledger|) == h;
      var m := FirstCut(cut, limit, |ledger|, h, n);
      RoundsFollowCuts(ledger, h, cut, limit, server, recovers, m);
      assert StartsAt(ledger, h, Same(cut), server, recovers, m, h);
    } else {
      forall n: nat ensures !StartsAt(ledger, h, Same(cut), server, recovers, n, h) {
        NeverMeets(ledger, h, cut, limit, server, recovers, n);
      }
    }
  }

  lemma {:induction false} NeverMeets(ledger: seq<Entry>, h: nat, cut: nat -> nat, limit: nat, server: Server, recovers: nat -> bool, n: nat)
    requires Setting(ledger, Same(cut), limit, server) && ValidCut(cut, limit, |ledger|) && h <= |ledger| && !Boundary(cut, h, |ledger|)
    ensures !StartsAt(ledger, h, Same(cut), server, recovers, n, h)
    decreases n
  {
    hide Setting, ValidCut, Rounds, Boundary;
    forall m: nat | m < n ensures !StartsAt(ledger, h, Same(cut), server, recovers, m, h) {
      NeverMeets(ledger, h, cut, limit, server, recovers, m);
    }
    RoundsStartAtCuts(ledger, h, cut, limit, server, recovers, n);
  }

  // ----- The same steps on the outbox -----

  /** What a round of the worker sends is a cut, and its exchange with the server is a round. */
  lemma {:induction false} SentIsARound(t: Table, chain: string, ledger: seq<Entry>, scope: Scope, limits: SyncEngine.Limits, request: Request,
                                        k: nat, stored: seq<Entry>, cut: nat -> nat, server: Server, recovers: bool)
    requires SyncEngine.RightBlock(t, ledger, request, k) && SyncEngine.Carries(t, chain, scope, limits, request)
    requires cut(k) == k + |request.events|
    ensures Cuts(cut, k, OutboxStore.BATCH, |ledger|)
    ensures RoundOf(ledger, Progress(stored, k), cut, server, recovers) ==
              match PersistAll(stored, request.expectedHead.value, ledger[k..k + |request.events|], server.judge, server.sold)
              case Committed(longer, _) => Progress(longer, k + |request.events|)
              case Refused(_) => Progress(stored, if recovers then 0 else k)
  {
    hide PersistAll, SyncEngine.CarriesRow, SyncedAt;
  }

  ghost predicate DeliveredUpTo(t: Table, ledger: seq<Entry>, k: nat) {
    forall n :: 0 <= n < |ledger| ==> (SyncedAt(t, ledger, n) <==> n < k)
  }

  /** A delivered batch moves the worker as a committed round does. */
  lemma {:induction false} DeliveryAdvances(before: Table, after: Table, ledger: seq<Entry>, legacy: seq<Order>, request: Request, k: nat)
    requires JournalShape(ledger) && Everything(before, ledger, legacy) && Preserved(before, after)
    requires SyncEngine.RightBlock(before, ledger, request, k)
    requires SyncEngine.SyncedWith(before, after, SyncEngine.EventIds(request.events))
    ensures DeliveredUpTo(before, ledger, k) && DeliveredUpTo(after, ledger, k + |request.events|)
  {
    var ids := SyncEngine.EventIds(request.events);
    forall n | 0 <= n < |ledger|
      ensures SyncedAt(after, ledger, n) <==> SyncedAt(before, ledger, n) || k <= n < k + |request.events|
    {
      assert HasEntry(before, ledger[n]);
      if k <= n < k + |request.events| {
        assert request.events[n - k].eventId == ledger[k + (n - k)].Id();
      }
      if ledger[n].Id() in ids {
        var i :| 0 <= i < |request.events| && request.events[i].eventId == ledger[n].Id();
        assert ledger[k + i].Id() == ledger[n].Id();
      }
    }
  }

  /** A recovery sends the worker back to the start, as a refused round does. */
  lemma {:induction false} RecoveryRestarts(proven: Table, ledger: seq<Entry>, includeLegacy: bool)
    ensures DeliveredUpTo(OutboxStore.Requeued(proven, includeLegacy), ledger, 0)
  {
  }

  // ----- The smallest case -----

  function Sealed(sequence: int, body: Body, previous: Option<Digest>): Entry {
    var content := Content(LEDGER_SCHEMA_VERSION, EntryId(body), sequence, 0, previous, "t", body);
    Entry(content, Digest(content))
  }

  /** A session is opened and its float is changed. */
  function TwoEntries(): seq<Entry> {
    var opening := Sealed(1, SessionOpened(SessionOpening("s", 0, 0, 0)), None);
    [opening, Sealed(2, FloatUpdated(FloatUpdate("u", "s", 0, 100, 0)), Some(opening.hash))]
  }

  lemma {:induction false} TwoEntriesAreKeyed()
    ensures KeyedLedger(TwoEntries())
  {
    var ledger := TwoEntries();
    assert ledger[..0] == [] && ledger[..1] == [ledger[0]];
    assert ledger[0].Id() == "cash-session:s" && ledger[1].Id() == "cash-float-update:u";
    assert ledger[0].Id()[5] != ledger[1].Id()[5];
  }

  /**
   One entry is stored, its acknowledgement is lost, a second entry is recorded. Both fit one
   batch, so every round sends both, the server refuses the batch, and the second entry is
   never stored, whatever the recoveries do.
   */
  lemma {:induction false} LostAcknowledgementBlocks(server: Server, recovers: nat -> bool, n: nat)
    requires SoldHereOnly(TwoEntries(), server.sold) && JudgesWell(TwoEntries(), server.judge)
    ensures var ledger := TwoEntries();
            var p := Rounds(ledger, Progress(ledger[..1], 0), Same((k: nat) => 2), server, recovers, n);
            p.chain == ledger[..1] && p.synced == 0
  {
    hide KeyedLedger, SoldHereOnly, JudgesWell, TwoEntries, Rounds;
    var ledger, cut := TwoEntries(), (k: nat) => 2;
    TwoEntriesAreKeyed();
    TwoLong();
    assert ValidCut(cut, 100, 2);
    SamePlan(cut, 100, 2);
    forall m: nat ensures CutAt(cut, m, 2) != 1 {
      OnlyTwoCuts(m);
    }
    forall m: nat ensures !StartsAt(ledger, 1, Same(cut), server, recovers, m, 1) {
      NeverMeets(ledger, 1, cut, 100, server, recovers, m);
    }
    BeforeMeeting(ledger, 1, Same(cut), 100, server, recovers, n);
  }

  lemma {:induction false} TwoLong()
    ensures |TwoEntries()| == 2
  {
  }

  lemma {:induction false} OnlyTwoCuts(m: nat)
    ensures CutAt((k: nat) => 2, m, 2) in {0, 2}
  {
    if m > 0 { OnlyTwoCuts(m - 1); }
  }
}
