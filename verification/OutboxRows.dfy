/**
 The rows of the outbox (native/android/OutboxEntry.kt): an immutable financial tuple and
 the delivery evidence of the active destination (native/android/OutboxDestination.kt).

 All rows of a store carry one chain, so the chain filters of the queries are left out.
 */
module OutboxRows {
  import opened Ledger

  /** What is delivered: a journal entry, or a sale older than the journal. */
  datatype Payload = LedgerEvent(entry: Entry) | LegacyOrder(order: Order)

  datatype Tuple = Tuple(eventId: string, chainId: string, payload: Payload) {
    function Sequence(): Option<int> { if payload.LedgerEvent? then Some(payload.entry.Sequence()) else None }
    function Hash(): Option<Digest> { if payload.LedgerEvent? then Some(payload.entry.hash) else None }
    function PreviousHash(): Option<Digest> { if payload.LedgerEvent? then payload.entry.content.previousHash else None }
  }

  datatype Scope = Scope(organizationId: string, festivalId: string, chainId: string)

  /** The transport fingerprint hashes the event with its scope; it carries what it hashes. */
  datatype Fingerprint = Fingerprint(tuple: Tuple, scope: Scope)

  datatype RowStatus = Pending | Sending | Synced | PausedAuth | NeedsRecovery | Quarantined

  datatype Evidence = Evidence(
    organizationId: Option<string>,
    festivalId: Option<string>,
    transportFingerprint: Option<Fingerprint>,
    status: RowStatus,
    attemptCount: nat,
    lastAttemptAt: Option<int>,
    nextAttemptAt: int,
    lastError: Option<string>,
    claimOwner: Option<string>,
    leaseExpiresAt: Option<int>,
    receiptId: Option<string>,
    serverReceivedAt: Option<string>,
    syncedAt: Option<int>)

  datatype Row = Row(tuple: Tuple, evidence: Evidence) {
    function Id(): string { tuple.eventId }
    function Status(): RowStatus { evidence.status }
  }

  type Table = map<string, Row>

  const UNSENT := Evidence(None, None, None, Pending, 0, None, 0, None, None, None, None, None, None)

  const LEASE_MILLIS := 120000
  const MAX_BACKOFF_MILLIS := 21600000

  // ----- Text order -----

  /** `ORDER BY eventId`: code by code, a prefix first. */
  predicate TextBefore(a: string, b: string) {
    if b == [] then false
    else if a == [] then true
    else if a[0] != b[0] then a[0] < b[0]
    else TextBefore(a[1..], b[1..])
  }

  /** A proper prefix, or a smaller code where the texts first differ. */
  ghost predicate Precedes(a: string, b: string) {
    (|a| < |b| && AgreeUpTo(a, b, |a|)) || exists p: nat :: SmallerAt(a, b, p)
  }

  predicate AgreeUpTo(a: string, b: string, n: nat)
    requires n <= |a| && n <= |b|
  {
    forall k :: 0 <= k < n ==> a[k] == b[k]
  }

  predicate SmallerAt(a: string, b: string, p: nat) { p < |a| && p < |b| && AgreeUpTo(a, b, p) && a[p] < b[p] }

  lemma {:induction false} TextBeforeExactly(a: string, b: string)
    ensures TextBefore(a, b) <==> Precedes(a, b)
  {
    if a != [] && b != [] && a[0] == b[0] {
      var c, d := a[1..], b[1..];
      TextBeforeExactly(c, d);
      forall p: nat | p < |a| && p < |b| ensures AgreeUpTo(c, d, p) <==> AgreeUpTo(a, b, p + 1) {
        LaterAgree(a, b, p);
      }
      if |a| <= |b| { LaterAgree(a, b, |c|); }
      if p: nat :| SmallerAt(c, d, p) { assert SmallerAt(a, b, p + 1); }
      if p: nat :| SmallerAt(a, b, p) { assert SmallerAt(c, d, p - 1); }
    } else if a != [] && b != [] {
      if a[0] < b[0] { assert SmallerAt(a, b, 0); }
      assert forall p: nat :: SmallerAt(a, b, p) ==> p == 0;
    }
  }

  lemma {:induction false} LaterAgree(a: string, b: string, p: nat)
    requires p < |a| && p < |b| && a[0] == b[0]
    ensures AgreeUpTo(a[1..], b[1..], p) <==> AgreeUpTo(a, b, p + 1)
  {
    var c, d := a[1..], b[1..];
    if AgreeUpTo(c, d, p) {
      forall k | 0 <= k < p + 1 ensures a[k] == b[k] {
        assert k == 0 || (a[k] == c[k - 1] && b[k] == d[k - 1]);
      }
    }
    if AgreeUpTo(a, b, p + 1) {
      forall k | 0 <= k < p ensures c[k] == d[k] {
        assert c[k] == a[k + 1] && d[k] == b[k + 1];
      }
    }
  }

  lemma {:induction false} TextBeforeIsTotal(a: string, b: string)
    ensures a == b || TextBefore(a, b) || TextBefore(b, a)
    ensures !(TextBefore(a, b) && TextBefore(b, a))
    ensures !TextBefore(a, a)
  {
    if a != [] && b != [] && a[0] == b[0] {
      TextBeforeIsTotal(a[1..], b[1..]);
      assert a == [a[0]] + a[1..] && b == [b[0]] + b[1..];
    }
    if a != [] && (b == [] || a[0] != b[0]) {
      TextBeforeIsTotal(a[1..], a[1..]);
    }
  }

  lemma {:induction false} TextBeforeIsTransitive(a: string, b: string, c: string)
    requires TextBefore(a, b) && TextBefore(b, c)
    ensures TextBefore(a, c)
  {
    if a != [] && a[0] == b[0] == c[0] {
      TextBeforeIsTransitive(a[1..], b[1..], c[1..]);
    }
  }

  // ----- Row order: rows without a sequence first, then by sequence, then by id -----

  predicate RowBefore(a: Tuple, b: Tuple) {
    match (a.Sequence(), b.Sequence())
    case (None, None) => TextBefore(a.eventId, b.eventId)
    case (None, Some(_)) => true
    case (Some(_), None) => false
    case (Some(m), Some(n)) => m < n || (m == n && TextBefore(a.eventId, b.eventId))
  }

  lemma {:induction false} RowBeforeIsTotal(a: Tuple, b: Tuple)
    ensures a.eventId == b.eventId || RowBefore(a, b) || RowBefore(b, a)
    ensures !(RowBefore(a, b) && RowBefore(b, a))
  {
    TextBeforeIsTotal(a.eventId, b.eventId);
  }

  lemma {:induction false} RowBeforeIsTransitive(a: Tuple, b: Tuple, c: Tuple)
    requires RowBefore(a, b) && RowBefore(b, c)
    ensures RowBefore(a, c)
  {
    hide TextBefore;
    if TextBefore(a.eventId, b.eventId) && TextBefore(b.eventId, c.eventId) {
      TextBeforeIsTransitive(a.eventId, b.eventId, c.eventId);
    }
  }

  // ----- The outstanding query -----

  predicate Outstanding(r: Row) { r.Status() != Synced }

  ghost predicate Keyed(t: Table) {
    forall id :: id in t ==> t[id].Id() == id
  }

  /** The first rows that are not synced, in row order, up to a limit. */
  ghost predicate IsOutstanding(t: Table, rows: seq<Row>, limit: nat) {
    && |rows| <= limit
    && (forall i :: 0 <= i < |rows| ==> rows[i].Id() in t && t[rows[i].Id()] == rows[i] && Outstanding(rows[i]))
    && (forall i, k :: 0 <= i < k < |rows| ==> RowBefore(rows[i].tuple, rows[k].tuple))
    && (forall id :: id in t && Outstanding(t[id]) && t[id] !in rows ==>
          |rows| == limit && forall i :: 0 <= i < |rows| ==> RowBefore(rows[i].tuple, t[id].tuple))
  }

  /** The smallest outstanding row among some keys. */
  method First(t: Table, keys: set<string>) returns (id: string)
    requires Keyed(t) && keys <= t.Keys && keys != {}
    ensures id in keys
    ensures forall other :: other in keys && other != id ==> RowBefore(t[id].tuple, t[other].tuple)
  {
    var rest := keys;
    id :| id in rest;
    rest := rest - {id};
    while rest != {}
      invariant rest <= keys && id in keys && id !in rest
      invariant forall other :: other in keys - rest && other != id ==> RowBefore(t[id].tuple, t[other].tuple)
      decreases |rest|
    {
      hide RowBefore;
      var other :| other in rest;
      rest := rest - {other};
      RowBeforeIsTotal(t[id].tuple, t[other].tuple);
      if RowBefore(t[other].tuple, t[id].tuple) {
        forall third | third in keys - rest && third != other ensures RowBefore(t[other].tuple, t[third].tuple) {
          if third != id { RowBeforeIsTransitive(t[other].tuple, t[id].tuple, t[third].tuple); }
        }
        id := other;
      }
    }
  }

  method QueryOutstanding(t: Table, limit: nat) returns (rows: seq<Row>)
    requires Keyed(t)
    ensures IsOutstanding(t, rows, limit)
  {
    hide RowBefore, Outstanding;
    rows := [];
    var keys := set id | id in t && Outstanding(t[id]);
    while |rows| < limit && keys != {}
      invariant |rows| <= limit && keys <= t.Keys
      invariant forall id :: id in keys ==> Outstanding(t[id]) && t[id] !in rows
      invariant forall i :: 0 <= i < |rows| ==> rows[i].Id() in t && t[rows[i].Id()] == rows[i] && Outstanding(rows[i])
      invariant forall i, k :: 0 <= i < k < |rows| ==> RowBefore(rows[i].tuple, rows[k].tuple)
      invariant forall i, id :: 0 <= i < |rows| && id in keys ==> RowBefore(rows[i].tuple, t[id].tuple)
      invariant forall id :: id in t && Outstanding(t[id]) && t[id] !in rows ==> id in keys
      decreases |keys|
    {
      var id := First(t, keys);
      keys := keys - {id};
      rows := rows + [t[id]];
    }
  }

  // ----- The page query: ids after a cursor, in id order -----

  ghost predicate IsPage(t: Table, cursor: string, ids: seq<string>, limit: nat) {
    && |ids| <= limit
    && (forall i :: 0 <= i < |ids| ==> ids[i] in t && TextBefore(cursor, ids[i]))
    && (forall i, k :: 0 <= i < k < |ids| ==> TextBefore(ids[i], ids[k]))
    && (forall id :: id in t && TextBefore(cursor, id) && id !in ids ==>
          |ids| == limit && forall i :: 0 <= i < |ids| ==> TextBefore(ids[i], id))
  }

  method FirstText(keys: set<string>) returns (id: string)
    requires keys != {}
    ensures id in keys
    ensures forall other :: other in keys && other != id ==> TextBefore(id, other)
  {
    hide TextBefore;
    var rest := keys;
    id :| id in rest;
    rest := rest - {id};
    while rest != {}
      invariant rest <= keys && id in keys && id !in rest
      invariant forall other :: other in keys - rest && other != id ==> TextBefore(id, other)
      decreases |rest|
    {
      var other :| other in rest;
      rest := rest - {other};
      TextBeforeIsTotal(id, other);
      if TextBefore(other, id) {
        forall third | third in keys - rest && third != other ensures TextBefore(other, third) {
          if third != id { TextBeforeIsTransitive(other, id, third); }
        }
        id := other;
      }
    }
  }

  method QueryPage(t: Table, cursor: string, limit: nat) returns (ids: seq<string>)
    ensures IsPage(t, cursor, ids, limit)
  {
    hide TextBefore;
    ids := [];
    var keys := set id | id in t && TextBefore(cursor, id);
    while |ids| < limit && keys != {}
      invariant |ids| <= limit && keys <= t.Keys
      invariant forall id :: id in keys ==> TextBefore(cursor, id) && id !in ids
      invariant forall i :: 0 <= i < |ids| ==> ids[i] in t && TextBefore(cursor, ids[i])
      invariant forall i, k :: 0 <= i < k < |ids| ==> TextBefore(ids[i], ids[k])
      invariant forall i, id :: 0 <= i < |ids| && id in keys ==> TextBefore(ids[i], id)
      invariant forall id :: id in t && TextBefore(cursor, id) && id !in ids ==> id in keys
      decreases |keys|
    {
      var id := FirstText(keys);
      keys := keys - {id};
      ids := ids + [id];
    }
  }
}
