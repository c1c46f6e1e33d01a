/**
 Print tracking of an order (src/printing/orderPrinting.ts, src/services/orderService.ts).
 */
module Printing {

  datatype Document = PickupTicket | CustomerReceipt | PreparationTicket

  datatype DocumentStatus = NotRequested | Pending | Printed | Failed | Unknown

  datatype PrintStatus = AllPending | Partial | AllPrinted | AllFailed | SomeUnknown

  datatype OrderPrinting = OrderPrinting(
    status: PrintStatus,
    pickupTicket: DocumentStatus,
    customerReceipt: DocumentStatus,
    preparationTicket: DocumentStatus,
    attempts: nat,
    updatedAt: int,
    failure: bool)
  {
    function Get(d: Document): DocumentStatus {
      match d case PickupTicket => pickupTicket case CustomerReceipt => customerReceipt case PreparationTicket => preparationTicket
    }

    function Set(d: Document, s: DocumentStatus): OrderPrinting {
      match d
      case PickupTicket => this.(pickupTicket := s)
      case CustomerReceipt => this.(customerReceipt := s)
      case PreparationTicket => this.(preparationTicket := s)
    }
  }

  const DOCUMENTS: seq<Document> := [PickupTicket, CustomerReceipt, PreparationTicket]

  function DeriveStatus(p: OrderPrinting): PrintStatus {
    if forall d: Document :: p.Get(d) == NotRequested then AllPrinted
    else if exists d: Document :: p.Get(d) == Unknown then SomeUnknown
    else if forall d: Document :: p.Get(d) in {NotRequested, Printed} then AllPrinted
    else if exists d: Document :: p.Get(d) == Printed then Partial
    else if exists d: Document :: p.Get(d) == Pending then AllPending
    else AllFailed
  }

  predicate Retryable(p: OrderPrinting, d: Document) { p.Get(d) in {Pending, Failed} }

  predicate Settled(s: DocumentStatus) { s in {NotRequested, Printed} }

  function Selected(p: OrderPrinting, selection: seq<Document>, give: Document -> DocumentStatus, d: Document): DocumentStatus {
    if d in selection && !Settled(p.Get(d)) then give(d) else p.Get(d)
  }

  function Rewrite(p: OrderPrinting, selection: seq<Document>, give: Document -> DocumentStatus): OrderPrinting {
    var q := p.(pickupTicket := Selected(p, selection, give, PickupTicket),
                customerReceipt := Selected(p, selection, give, CustomerReceipt),
                preparationTicket := Selected(p, selection, give, PreparationTicket));
    q.(status := DeriveStatus(q))
  }

  /** `for (const document of selectedDocuments(selection))`, as begin, complete and fail run it. */
  method UpdateSelected(printing: OrderPrinting, selection: seq<Document>, give: Document -> DocumentStatus)
      returns (next: OrderPrinting)
    ensures next == Rewrite(printing, selection, give)
  {
    hide DeriveStatus;
    next := printing;
    for i := 0 to |DOCUMENTS|
      invariant forall d: Document ::
        next.Get(d) == if d in DOCUMENTS[..i] then Selected(printing, selection, give, d) else printing.Get(d)
      invariant next.attempts == printing.attempts && next.updatedAt == printing.updatedAt && next.failure == printing.failure
    {
      var d := DOCUMENTS[i];
      if d in selection && !Settled(next.Get(d)) { next := next.Set(d, give(d)); }
    }
    AllDocuments();
    RewriteDerives(printing, selection, give);
    SameDocuments(next, Rewrite(printing, selection, give));
    next := next.(status := DeriveStatus(next));
  }

  lemma {:induction false} AllDocuments()
    ensures forall d: Document :: d in DOCUMENTS[..|DOCUMENTS|]
  {
    forall d: Document ensures d in DOCUMENTS[..|DOCUMENTS|] {
      var i := match d case PickupTicket => 0 case CustomerReceipt => 1 case PreparationTicket => 2;
      assert DOCUMENTS[..|DOCUMENTS|][i] == d;
    }
  }

  lemma {:induction false} SameDocuments(p: OrderPrinting, q: OrderPrinting)
    requires forall d: Document :: p.Get(d) == q.Get(d)
    ensures p.pickupTicket == q.pickupTicket && p.customerReceipt == q.customerReceipt
    ensures p.preparationTicket == q.preparationTicket && DeriveStatus(p) == DeriveStatus(q)
  {
    assert p.Get(PickupTicket) == q.Get(PickupTicket) && p.Get(CustomerReceipt) == q.Get(CustomerReceipt);
    assert p.Get(PreparationTicket) == q.Get(PreparationTicket);
  }

  lemma {:induction false} RewriteDerives(p: OrderPrinting, selection: seq<Document>, give: Document -> DocumentStatus)
    ensures Rewrite(p, selection, give).status == DeriveStatus(Rewrite(p, selection, give))
    ensures forall d: Document :: Rewrite(p, selection, give).Get(d) == Selected(p, selection, give, d)
  {
    var r := Rewrite(p, selection, give);
    forall d: Document ensures r.Get(d) == r.(status := p.status).Get(d) {}
    SameDocuments(r, r.(status := p.status));
  }

  datatype Operation =
    | Begin(selection: seq<Document>, at: int)
    | Complete(selection: seq<Document>, completed: seq<Document>, at: int)
    | Fail(selection: seq<Document>, completed: seq<Document>, unknown: seq<Document>, at: int)

  /** What an update gives a selected document that is not settled. */
  function Give(op: Operation): Document -> DocumentStatus {
    (d: Document) =>
      match op
      case Begin(_, _) => Unknown
      case Complete(_, completed, _) => if d in completed then Printed else Failed
      case Fail(_, completed, unknown, _) => if d in completed then Printed else if d in unknown then Unknown else Failed
  }

  function Stamped(p: OrderPrinting, op: Operation): OrderPrinting {
    p.(attempts := if op.Begin? then p.attempts + 1 else p.attempts, updatedAt := op.at, failure := op.Fail?)
  }

  function Apply(p: OrderPrinting, op: Operation): OrderPrinting {
    Rewrite(Stamped(p, op), op.selection, Give(op))
  }

  function Run(p: OrderPrinting, ops: seq<Operation>): OrderPrinting {
    if ops == [] then p else Apply(Run(p, ops[..|ops| - 1]), ops[|ops| - 1])
  }

  /**
   Over any run of the three updates the stored status is the derived one, a printed or
   unrequested document never changes again, and a document becomes printed only when
   some update reported it completed.
   */
  lemma {:induction false} PrintingRuns(p: OrderPrinting, ops: seq<Operation>, d: Document)
    ensures ops != [] ==> Run(p, ops).status == DeriveStatus(Run(p, ops))
    ensures Settled(p.Get(d)) ==> Run(p, ops).Get(d) == p.Get(d)
    ensures Run(p, ops).Get(d) == Printed && p.Get(d) != Printed ==>
              exists k :: 0 <= k < |ops| && ReportsCompleted(ops[k], d)
  {
    if ops != [] {
      var n := |ops| - 1;
      PrintingRuns(p, ops[..n], d);
      RewriteDerives(Stamped(Run(p, ops[..n]), ops[n]), ops[n].selection, Give(ops[n]));
      var before := Run(p, ops[..n]);
      if before.Get(d) == Printed && p.Get(d) != Printed {
        var k :| 0 <= k < n && ReportsCompleted(ops[..n][k], d);
        assert ops[k] == ops[..n][k];
      }
      assert before.Get(d) != Printed && Run(p, ops).Get(d) == Printed ==> ReportsCompleted(ops[n], d);
    }
  }

  predicate SomeIs(p: OrderPrinting, s: DocumentStatus) { s in [p.pickupTicket, p.customerReceipt, p.preparationTicket] }

  /** What a derived status says: the worst news first, and printed when nothing is left to print. */
  lemma {:induction false} StatusMeans(p: OrderPrinting)
    ensures DeriveStatus(p) == SomeUnknown <==> SomeIs(p, Unknown)
    ensures DeriveStatus(p) == AllPrinted <==> !SomeIs(p, Unknown) && !SomeIs(p, Pending) && !SomeIs(p, Failed)
    ensures DeriveStatus(p) == Partial <==> !SomeIs(p, Unknown) && SomeIs(p, Printed) && (SomeIs(p, Pending) || SomeIs(p, Failed))
    ensures DeriveStatus(p) == AllPending <==> !SomeIs(p, Unknown) && !SomeIs(p, Printed) && SomeIs(p, Pending)
    ensures DeriveStatus(p) == AllFailed <==> !SomeIs(p, Unknown) && !SomeIs(p, Printed) && !SomeIs(p, Pending) && SomeIs(p, Failed)
  {
    assert p.Get(PickupTicket) == p.pickupTicket && p.Get(CustomerReceipt) == p.customerReceipt;
    assert p.Get(PreparationTicket) == p.preparationTicket;
  }

  /**
   One update: a selected document that was still to be printed is unknown from the beginning
   of the job on, printed when the job completed it, unknown when a failed job may have
   printed it, and failed otherwise; every other document stays as it is.
   */
  lemma {:induction false} UpdateMeans(p: OrderPrinting, op: Operation, d: Document)
    ensures Apply(p, op).Get(d) ==
              if d !in op.selection || p.Get(d) == NotRequested || p.Get(d) == Printed then p.Get(d)
              else if op.Begin? then Unknown
              else if d in op.completed then Printed
              else if op.Fail? && d in op.unknown then Unknown
              else Failed
    ensures Apply(p, op).attempts == p.attempts + (if op.Begin? then 1 else 0) && Apply(p, op).updatedAt == op.at
    ensures Apply(p, op).failure <==> op.Fail?
  {
    RewriteDerives(Stamped(p, op), op.selection, Give(op));
  }

  predicate ReportsCompleted(op: Operation, d: Document) {
    !op.Begin? && d in op.selection && d in op.completed
  }

  /** Once printing began, a crash leaves no selected document that would be printed again. */
  lemma {:induction false} BeginLeavesNothingRetryable(p: OrderPrinting, selection: seq<Document>, at: int, d: Document)
    requires d in selection
    ensures !Retryable(Apply(p, Begin(selection, at)), d)
  {
  }
}
