/**
 Checkout intents: the durable states an encashment goes through before it is a sale
 (src/types/checkout.ts, src/services/orderValidation.ts:324-397 and
 src/services/orderRepository.ts:595-691, 1632-1679).
 */
module Checkout {
  import opened Ledger
  import opened Refunds
  import opened Journal
  import opened Numbers

  datatype IntentStatus = PendingPayment | PaymentToVerify | PaymentConfirmed | Finalized | Abandoned

  datatype Intent = Intent(
    id: string,
    cart: seq<Item>,
    itemCount: int,
    totalCents: int,
    paymentMethod: PaymentMethod,
    status: IntentStatus,
    terminalId: string,
    terminalCode: string,
    sourceTerminalId: string,
    orderNumberPrefix: string,
    receiptNumberPrefix: string,
    createdAt: int,
    updatedAt: int,
    paymentConfirmedAt: Option<int>,
    finalizedOrderId: Option<string>,
    abandonedAt: Option<int>)

  /** The order an intent becomes. The numbers come from the store's sequences. */
  function OrderOf(i: Intent, paidAt: int, orderSequence: nat, receiptSequence: nat): Order {
    Order(i.id, SequenceNumber(i.orderNumberPrefix, orderSequence), SequenceNumber(i.receiptNumberPrefix, receiptSequence),
          i.terminalId, i.paymentMethod, paidAt, i.cart, i.itemCount, i.totalCents, paidAt)
  }

  predicate ValidIntent(i: Intent) {
    && ValidNewOrder(OrderOf(i, i.createdAt, 0, 0))
    && i.sourceTerminalId == i.terminalId
    && i.orderNumberPrefix == i.terminalCode
    && "R-" + i.terminalCode + "-" <= i.receiptNumberPrefix
    && !Blank(i.orderNumberPrefix)
    && !Blank(i.receiptNumberPrefix)
    && (i.finalizedOrderId.Some? ==> !Blank(i.finalizedOrderId.value))
    && (i.status == PaymentConfirmed ==> i.paymentConfirmedAt.Some?)
    && (i.status == Finalized ==> i.paymentConfirmedAt.Some? && i.finalizedOrderId.Some?)
    && (i.status == Abandoned ==> i.abandonedAt.Some?)
  }

  /** The checks in the order of the code. */
  method CheckIntent(i: Intent) returns (ok: bool)
    ensures ok <==> ValidIntent(i)
  {
    hide ValidNewOrder, Blank;
    if !ValidNewOrder(OrderOf(i, i.createdAt, 0, 0)) { return false; }
    if i.sourceTerminalId != i.terminalId { return false; }
    if Blank(i.orderNumberPrefix) || Blank(i.receiptNumberPrefix) { return false; }
    if i.orderNumberPrefix != i.terminalCode { return false; }
    if !("R-" + i.terminalCode + "-" <= i.receiptNumberPrefix) { return false; }
    if i.finalizedOrderId.Some? && Blank(i.finalizedOrderId.value) { return false; }
    if i.status == PaymentConfirmed && i.paymentConfirmedAt.None? { return false; }
    if i.status == Finalized && (i.paymentConfirmedAt.None? || i.finalizedOrderId.None?) { return false; }
    return !(i.status == Abandoned && i.abandonedAt.None?);
  }

  function Keep(date: Option<int>, now: int): Option<int> { if date.Some? then date else Some(now) }

  function MarkToVerify(i: Intent, now: int): Option<Intent> {
    if i.status in {PendingPayment, PaymentToVerify} then Some(i.(status := PaymentToVerify, updatedAt := now)) else None
  }

  function Confirm(i: Intent, now: int): Option<Intent> {
    if i.status in {PaymentToVerify, PaymentConfirmed} then
      Some(i.(status := PaymentConfirmed, paymentConfirmedAt := Keep(i.paymentConfirmedAt, now), updatedAt := now))
    else None
  }

  function Abandon(i: Intent, now: int): Option<Intent> {
    if i.status in {PendingPayment, PaymentToVerify, Abandoned} then
      Some(i.(status := Abandoned, abandonedAt := Keep(i.abandonedAt, now), updatedAt := now))
    else None
  }

  function Finalize(i: Intent, now: int): Intent {
    i.(status := Finalized, finalizedOrderId := Some(i.id), updatedAt := now)
  }

  lemma {:induction false} TransitionsKeepValid(i: Intent, now: int)
    requires ValidIntent(i)
    ensures MarkToVerify(i, now).Some? ==> ValidIntent(MarkToVerify(i, now).value)
    ensures Confirm(i, now).Some? ==> ValidIntent(Confirm(i, now).value)
    ensures Abandon(i, now).Some? ==> ValidIntent(Abandon(i, now).value)
    ensures i.status == PaymentConfirmed ==> ValidIntent(Finalize(i, now))
  {
  }

  function Rank(s: IntentStatus): nat {
    match s case PendingPayment => 0 case PaymentToVerify => 1 case PaymentConfirmed => 2 case Finalized => 3 case Abandoned => 3
  }

  /**
   One intent later in a run: what is sold and for how much never changes, the state only
   advances, a confirmed payment is never abandoned, final states stay, first dates are kept.
   */
  predicate Later(i: Intent, k: Intent) {
    && i.id == k.id && i.cart == k.cart && i.itemCount == k.itemCount && i.totalCents == k.totalCents
    && i.paymentMethod == k.paymentMethod && i.terminalId == k.terminalId && i.sourceTerminalId == k.sourceTerminalId
    && i.orderNumberPrefix == k.orderNumberPrefix && i.receiptNumberPrefix == k.receiptNumberPrefix
    && Rank(i.status) <= Rank(k.status)
    && (i.status in {Finalized, Abandoned} ==> k.status == i.status)
    && (i.status == PaymentConfirmed ==> k.status != Abandoned)
    && (i.paymentConfirmedAt.Some? ==> k.paymentConfirmedAt == i.paymentConfirmedAt)
    && (i.abandonedAt.Some? ==> k.abandonedAt == i.abandonedAt)
  }

  lemma {:induction false} TransitionsAdvance(i: Intent, now: int)
    ensures MarkToVerify(i, now).Some? ==> Later(i, MarkToVerify(i, now).value)
    ensures Confirm(i, now).Some? ==> Later(i, Confirm(i, now).value)
    ensures Abandon(i, now).Some? ==> Later(i, Abandon(i, now).value)
    ensures i.status == PaymentConfirmed ==> Later(i, Finalize(i, now))
  {
  }

  /** The transitions there are, a repetition being one. */
  predicate Leads(before: IntentStatus, after: IntentStatus) {
    (before, after) in [(PendingPayment, PaymentToVerify), (PaymentToVerify, PaymentToVerify),
                        (PaymentToVerify, PaymentConfirmed), (PaymentConfirmed, PaymentConfirmed),
                        (PendingPayment, Abandoned), (PaymentToVerify, Abandoned), (Abandoned, Abandoned)]
  }

  /** What a transition makes of an intent: its state, its date, and the date of that state unless it had one. */
  predicate Becomes(i: Intent, k: Option<Intent>, to: IntentStatus, now: int) {
    if !Leads(i.status, to) then k.None?
    else
      && k.Some?
      && k.value.status == to && k.value.updatedAt == now
      && k.value.paymentConfirmedAt == (if to == PaymentConfirmed && i.paymentConfirmedAt.None? then Some(now) else i.paymentConfirmedAt)
      && k.value.abandonedAt == (if to == Abandoned && i.abandonedAt.None? then Some(now) else i.abandonedAt)
      && k.value.finalizedOrderId == i.finalizedOrderId && k.value.createdAt == i.createdAt
      && Later(i, k.value)
  }

  /**
   The three transitions, exactly: a payment may be awaited, then verified, and abandoned
   until it is confirmed. Finalizing sets the state, the sale and the date, and nothing else.
   */
  lemma {:induction false} TransitionsExactly(i: Intent, now: int)
    ensures Becomes(i, MarkToVerify(i, now), PaymentToVerify, now)
    ensures Becomes(i, Confirm(i, now), PaymentConfirmed, now)
    ensures Becomes(i, Abandon(i, now), Abandoned, now)
    ensures var k := Finalize(i, now);
            && k.status == Finalized && k.finalizedOrderId == Some(i.id) && k.updatedAt == now
            && k.(status := i.status, finalizedOrderId := i.finalizedOrderId, updatedAt := i.updatedAt) == i
  {
    TransitionsAdvance(i, now);
  }

  /** The intents of a store later in a run. Every method of the repository ensures it. */
  ghost predicate Evolves(before: map<string, Intent>, after: map<string, Intent>) {
    forall id :: id in before ==> id in after && Later(before[id], after[id])
  }

  lemma {:induction false} EvolvesIsTransitive(a: map<string, Intent>, b: map<string, Intent>, c: map<string, Intent>)
    requires Evolves(a, b) && Evolves(b, c)
    ensures Evolves(a, c)
  {
  }

  /** What links a finalized intent to its sale. */
  ghost predicate SoldAs(journal: seq<Entry>, i: Intent) {
    var sale := FindSale(journal, i.id);
    && i.finalizedOrderId == Some(i.id)
    && i.paymentConfirmedAt.Some?
    && sale.Some?
    && sale.value.Body().order.items == i.cart
    && sale.value.Body().order.totalCents == i.totalCents
    && sale.value.Body().order.paymentMethod == i.paymentMethod
    && sale.value.Body().order.paidAt == i.paymentConfirmedAt.value
    && sale.value.content.terminalId == i.terminalId
  }

  /** The state of all intents of a store: direct sales are the ones created without an intent. */
  ghost predicate IntentsMatch(intents: map<string, Intent>, direct: set<string>, journal: seq<Entry>) {
    && (forall id :: id in intents ==>
          && intents[id].id == id
          && ValidIntent(intents[id])
          && (intents[id].status == Finalized ==> SoldAs(journal, intents[id]))
          && (FindSale(journal, id).Some? && id !in direct ==> intents[id].status == Finalized))
    && (forall e :: e in journal && e.Body().Sale? ==> e.Body().order.id in direct || e.Body().order.id in intents)
  }

  /**
   Once a closure ends after the confirmation date of an unsold intent, the intent can
   neither be finalized nor abandoned: it stays confirmed in every later state.
   */
  lemma {:induction false} ConfirmedStuckForever(legacy: Legacy, before: seq<Entry>, after: seq<Entry>, i: Intent, k: Intent)
    requires WellFormed(legacy, after) && before <= after
    requires i.status == PaymentConfirmed && i.paymentConfirmedAt.Some? && FindSale(before, i.id).None?
    requires !NotBefore(LastClosureEnd(before), i.paymentConfirmedAt.value)
    requires Later(i, k) && (k.status == Finalized ==> SoldAs(after, k))
    ensures k.status == PaymentConfirmed && k.paymentConfirmedAt == i.paymentConfirmedAt
    ensures !NotBefore(LastClosureEnd(after), i.paymentConfirmedAt.value)
  {
    hide Accepted, Guard;
    assert after[..|before|] == before;
    var c := SomeClosure(before);
    LastEndReached(legacy, after, c, |before|);
    if |before| < |after| { LastEndGrows(legacy, after, c, |after|); }
    assert after[..|after|] == after;
    if k.status == Finalized {
      var sale := FindSale(after, k.id).value;
      var n :| 0 <= n < |after| && after[n] == sale;
      SaleBeforeIsFound(before, after, n);
      LaterEntriesAreLater(legacy, after, c, n);
      assert false;
    }
  }

  lemma {:induction false} SaleBeforeIsFound(before: seq<Entry>, after: seq<Entry>, n: nat)
    requires before <= after && n < |after| && after[n].Body().Sale? && FindSale(before, after[n].Body().order.id).None?
    ensures |before| <= n
  {
  }

  lemma {:induction false} SomeClosure(journal: seq<Entry>) returns (c: nat)
    requires LastClosureEnd(journal).Some?
    ensures c < |journal| && IsClosure(journal[c]) && LastClosureEnd(journal) == Some(journal[c].Body().closure.periodEnd)
  {
    c := |journal| - 1;
    if !IsClosure(journal[c]) {
      c := SomeClosure(journal[..c]);
    }
  }

  lemma {:induction false} LastEndReached(legacy: Legacy, journal: seq<Entry>, c: nat, m: nat)
    requires WellFormed(legacy, journal) && c < m <= |journal| && IsClosure(journal[c])
    ensures LastClosureEnd(journal[..m]).Some? && journal[c].Body().closure.periodEnd <= LastClosureEnd(journal[..m]).value
  {
    LastEndGrows(legacy, journal, c, m);
  }
}
