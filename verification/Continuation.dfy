/**
 Going on from an archive: a store exported, restored elsewhere, opened by the repository
 and written to again (src/services/orderRepository.ts:693-1512, 1523-1619).
 */
module Continuation {
  import opened Ledger
  import Closures
  import opened Refunds
  import opened Journal
  import opened Checkout
  import opened Repository
  import opened Archive
  import Auditor
  import Printing

  /** One call of a writer. */
  datatype Operation =
    | CreateOrder(order: OrderRequest, sourceTerminal: string)
    | OpenCashSession(session: SessionRequest)
    | UpdateCashFloat(float: FloatRequest)
    | RecordCorrection(correction: CorrectionRequest)
    | ClosePeriod(closure: ClosureRequest)
    | CreateCheckoutIntent(intent: Intent)
    | MarkIntentToVerify(id: string, now: int)
    | ConfirmIntentPayment(id: string, now: int)
    | AbandonIntent(id: string, now: int)
    | FinalizeIntent(id: string, now: int)

  /** What the writers depend on and change. */
  datatype State = State(legacy: Legacy, firstOrder: nat, firstReceipt: nat, journal: seq<Entry>, intents: map<string, Intent>) {
    /** The stores in which this run of the writers ends. */
    ghost predicate Left(s: Stores) { Reachable(s, legacy, firstOrder, firstReceipt, journal) }

    predicate Usable() { SequencesUsable(MetadataOf(firstOrder, firstReceipt, journal)) }

    /** A keyed entry is appended when its id is new and its guard holds. */
    function Keyed(e: Entry, allowed: bool): State {
      if FreshId(journal, e.Id()) && Usable() && Guard(legacy, journal, e) && allowed then this.(journal := journal + [e]) else this
    }

    function Sell(r: OrderRequest, sourceTerminal: string): State {
      var e := Repository.Envelope(journal, r.createdAt, sourceTerminal,
                 Sale(BuildPersistedOrder(r, firstOrder + SaleCount(journal), firstReceipt + SaleCount(journal))));
      if Usable() && Guard(legacy, journal, e) && FindSale(journal, r.id).None? then this.(journal := journal + [e]) else this
    }

    function Correct(r: CorrectionRequest): State {
      match StoredIn(legacy, journal, r.originalOrderId)
      case None => this
      case Some(stored) => Keyed(Repository.Envelope(journal, r.recordedAt, r.terminalId, Correction(CorrectionOf(r, stored))), true)
    }

    function Close(r: ClosureRequest): State {
      Keyed(Repository.Envelope(journal, r.recordedAt, r.terminalId, Closure(ClosureOf(journal, r))),
            AsksSession(r) ==> r.openingFloatCents.Some?)
    }

    function Change(id: string, next: Intent -> Option<Intent>): State {
      if id in intents && next(intents[id]).Some? then this.(intents := intents[id := next(intents[id]).value]) else this
    }

    predicate Finalizes(id: string) {
      && id in intents && intents[id].status == PaymentConfirmed && intents[id].paymentConfirmedAt.Some?
      && Usable()
      && StoredIn(legacy, journal, id).None?
      && NotBefore(LastClosureEnd(journal), intents[id].paymentConfirmedAt.value)
    }

    function SellIntent(id: string, now: int): State {
      if Finalizes(id) then
        var i := intents[id];
        var paidAt := i.paymentConfirmedAt.value;
        var order := OrderOf(i, paidAt, firstOrder + SaleCount(journal), firstReceipt + SaleCount(journal));
        this.(journal := journal + [Repository.Envelope(journal, paidAt, i.sourceTerminalId, Sale(order))],
              intents := intents[id := Finalize(i, now)])
      else this
    }
  }

  /** One call as a function of the state: a refusal and a retry leave it as it was. */
  function Next(s: State, op: Operation): State {
    match op
    case CreateOrder(order, sourceTerminal) => s.Sell(order, sourceTerminal)
    case OpenCashSession(r) =>
      s.Keyed(Repository.Envelope(s.journal, r.recordedAt, r.terminalId, SessionOpened(r.opening)), true)
    case UpdateCashFloat(r) =>
      s.Keyed(Repository.Envelope(s.journal, r.recordedAt, r.terminalId, FloatUpdated(r.update)), true)
    case RecordCorrection(r) => s.Correct(r)
    case ClosePeriod(r) => s.Close(r)
    case CreateCheckoutIntent(i) =>
      if ValidIntent(i) && i.status == PendingPayment && i.id !in s.intents then s.(intents := s.intents[i.id := i]) else s
    case MarkIntentToVerify(id, now) => s.Change(id, (i: Intent) => MarkToVerify(i, now))
    case ConfirmIntentPayment(id, now) => s.Change(id, (i: Intent) => Confirm(i, now))
    case AbandonIntent(id, now) => s.Change(id, (i: Intent) => Abandon(i, now))
    case FinalizeIntent(id, now) => s.SellIntent(id, now)
  }

  function Replay(s: State, ops: seq<Operation>): State {
    if ops == [] then s else Next(Replay(s, ops[..|ops| - 1]), ops[|ops| - 1])
  }

  ghost function StateOf(repository: OrderRepository): State
    reads repository
  {
    State(repository.legacy, repository.firstOrder, repository.firstReceipt, repository.journal, repository.intents)
  }

  /** What the maps of a repository say of its journal. */
  lemma {:induction false} MapsAreJournal(repository: OrderRepository)
    requires repository.Valid()
    ensures repository.metadata == MetadataOf(repository.firstOrder, repository.firstReceipt, repository.journal)
    ensures forall id :: id !in repository.ledger <==> FreshId(repository.journal, id)
    ensures forall id :: id in repository.orders <==> StoredIn(repository.legacy, repository.journal, id).Some?
    ensures forall id :: id in repository.orders ==>
              StoredIn(repository.legacy, repository.journal, id) == Some(repository.orders[id])
  {
    hide WellFormed, LegacyValid, Numbered, IntentsMatch, StoredIn, MetadataOf;
    forall id ensures id !in repository.ledger <==> FreshId(repository.journal, id) {
      AbsentIsFresh(repository.ledger, repository.journal, id);
    }
  }

  lemma {:induction false} AbsentIsFresh(ledger: map<string, Entry>, journal: seq<Entry>, id: string)
    requires LedgerMatches(ledger, journal)
    ensures id !in ledger <==> FreshId(journal, id)
  {
  }

  lemma {:induction false} FinalizesIs(repository: OrderRepository, id: string)
    requires repository.Valid()
    ensures StateOf(repository).Finalizes(id) <==> id in repository.intents && repository.Finalizable(repository.intents[id])
    ensures StateOf(repository).Finalizes(id) ==>
              repository.IntentEntry(repository.intents[id])
              == Repository.Envelope(repository.journal, repository.intents[id].paymentConfirmedAt.value,
                   repository.intents[id].sourceTerminalId,
                   Sale(OrderOf(repository.intents[id], repository.intents[id].paymentConfirmedAt.value,
                                repository.firstOrder + SaleCount(repository.journal),
                                repository.firstReceipt + SaleCount(repository.journal))))
  {
    hide OrderRepository.Valid, StoredIn, SequencesUsable, MetadataOf, LastClosureEnd, ValidIntent, FindSale;
    MapsAreJournal(repository);
    if id in repository.intents { IntentFacts(repository, id); }
  }

  /** The methods of the repository are this transition system, call by call. */
  method Perform(repository: OrderRepository, op: Operation)
    requires repository.Valid()
    modifies repository
    ensures repository.Valid() && StateOf(repository) == Next(old(StateOf(repository)), op)
  {
    hide OrderRepository.Valid, Guard, SequencesUsable, FreshId, MetadataOf, Evolves, ValidIntent, StoredIn, FindSale, SaleCount,
         LastClosureEnd, Closures.ClosureTotals, KeepsRequest, KeepsIntent, RecordsSale;
    MapsAreJournal(repository);
    match op
    case CreateOrder(order, sourceTerminal) =>
      var created := repository.CreateOrder(order, sourceTerminal);
    case OpenCashSession(session) =>
      var entry := repository.OpenCashSession(session);
    case UpdateCashFloat(float) =>
      var entry := repository.UpdateCashFloat(float);
    case RecordCorrection(correction) =>
      var entry := repository.RecordCorrection(correction);
    case ClosePeriod(closure) =>
      var entry := repository.ClosePeriod(closure);
    case CreateCheckoutIntent(intent) =>
      var created := repository.CreateCheckoutIntent(intent);
    case MarkIntentToVerify(id, now) =>
      var intent := repository.Transition(id, now, MarkToVerify);
    case ConfirmIntentPayment(id, now) =>
      var intent := repository.Transition(id, now, Confirm);
    case AbandonIntent(id, now) =>
      var intent := repository.Transition(id, now, Abandon);
    case FinalizeIntent(id, now) =>
      FinalizesIs(repository, id);
      var sale := repository.FinalizeCheckoutIntent(id, now);
  }

  /** The stores of a repository, beside the technical records it was opened with. */
  ghost function StoresOf(repository: OrderRepository, technical: map<string, Printing.OrderPrinting>): Stores
    reads repository
  {
    Stores(repository.orders, technical, repository.ledger, repository.metadata)
  }

  lemma {:induction false} ValidIsReachable(repository: OrderRepository, technical: map<string, Printing.OrderPrinting>)
    requires repository.Valid()
    ensures Reachable(StoresOf(repository, technical), repository.legacy, repository.firstOrder, repository.firstReceipt,
                      repository.journal)
  {
    hide LegacyValid, WellFormed, LedgerMatches, OrdersMatch, Numbered, IntentsMatch, MetadataOf;
  }

  /** An archive with the identity of the terminal that exports it. */
  datatype Label = Label(archiveId: string, exportedAt: int, terminalId: string, terminalCode: string, displayName: string)

  /** From any reachable store into an empty one: the export succeeds, the restoration is accepted, and nothing is lost. */
  method Move(source: LocalStores, target: LocalStores, header: Label, ghost run: State) returns (archive: SalesArchive)
    requires run.Left(source.stores) && NothingStored(target.stores) && source != target
    modifies target
    ensures target.stores == source.stores && ArchiveValid(archive) && TargetOf(target.stores, archive) == MatchesArchive
  {
    hide Reachable, Stored, Restores, Restorable, Auditor.AuditValid, WellKeyed;
    ReachableIsKeyed(source.stores, run.legacy, run.firstOrder, run.firstReceipt, run.journal);
    var exported := source.ExportArchive(header.archiveId, header.exportedAt, header.terminalId, header.terminalCode, header.displayName);
    archive := exported.value;
    ghost var before := target.stores;
    var restored := target.RestoreArchive(archive);
    ArchiveRoundTrip(source.stores, run.legacy, run.firstOrder, run.firstReceipt, run.journal, archive, before, target.stores);
  }

  lemma {:induction false} Opens(run: State, s: Stores)
    requires run.Left(s)
    ensures LegacyValid(run.legacy) && WellFormed(run.legacy, run.journal) && LedgerMatches(s.ledger, run.journal)
    ensures OrdersMatch(s.orders, run.legacy, run.journal) && Numbered(run.firstOrder, run.firstReceipt, run.journal)
    ensures s.metadata == MetadataOf(run.firstOrder, run.firstReceipt, run.journal)
  {
    hide LegacyValid, WellFormed, LedgerMatches, OrdersMatch, Numbered, MetadataOf;
  }

  /** A repository opened on stores that hold a run: intents are not part of an archive. */
  method Open(target: LocalStores, ghost run: State) returns (repository: OrderRepository)
    requires run.Left(target.stores)
    ensures fresh(repository) && repository.Valid() && StateOf(repository) == run.(intents := map[])
  {
    hide Reachable, OrderRepository.Valid;
    Opens(run, target.stores);
    repository := new OrderRepository.FromStores(target.stores.orders, target.stores.ledger, target.stores.metadata,
                                                 run.legacy, run.firstOrder, run.firstReceipt, run.journal);
  }

  method PerformAll(repository: OrderRepository, ops: seq<Operation>)
    requires repository.Valid()
    modifies repository
    ensures repository.Valid() && StateOf(repository) == Replay(old(StateOf(repository)), ops)
  {
    hide OrderRepository.Valid, Next;
    for i := 0 to |ops|
      invariant repository.Valid() && StateOf(repository) == Replay(old(StateOf(repository)), ops[..i])
    {
      Perform(repository, ops[i]);
      assert ops[..i + 1][..i] == ops[..i];
    }
    assert ops[..|ops|] == ops;
  }

  /** Calls only add to the journal, and never touch what a store started from. */
  lemma {:induction false} ReplayGrows(s: State, ops: seq<Operation>)
    ensures var after := Replay(s, ops);
            && s.journal <= after.journal && after.legacy == s.legacy
            && after.firstOrder == s.firstOrder && after.firstReceipt == s.firstReceipt
  {
    hide Guard, SequencesUsable, FreshId, MetadataOf, ValidIntent, StoredIn, FindSale, LastClosureEnd;
    if ops != [] { ReplayGrows(s, ops[..|ops| - 1]); }
  }

  /** The stores after the writers, exported again. */
  method ExportAgain(repository: OrderRepository, target: LocalStores, header: Label) returns (archive: SalesArchive)
    requires repository.Valid()
    modifies target
    ensures target.stores == StoresOf(repository, old(target.stores.technical))
    ensures ArchiveValid(archive) && Stored(target.stores, archive.content)
  {
    hide Reachable, Stored, Auditor.AuditValid, WellKeyed, OrderRepository.Valid;
    target.stores := Stores(repository.orders, target.stores.technical, repository.ledger, repository.metadata);
    ValidIsReachable(repository, target.stores.technical);
    ReachableIsKeyed(target.stores, repository.legacy, repository.firstOrder, repository.firstReceipt, repository.journal);
    var exported := target.ExportArchive(header.archiveId, header.exportedAt, header.terminalId, header.terminalCode, header.displayName);
    archive := exported.value;
  }

  /**
   Every writer can go on from a restored archive, for any number of calls and whatever
   their outcomes: the store behaves as the archived one would without its intents, its
   journal extends the archived one, and it can be exported again with a valid audit.
   */
  method ContinueFromArchive(source: LocalStores, target: LocalStores, first: Label, later: Label, ops: seq<Operation>, ghost run: State)
    returns (repository: OrderRepository, archive: SalesArchive)
    requires run.Left(source.stores) && NothingStored(target.stores) && source != target
    modifies target
    ensures fresh(repository) && repository.Valid() && StateOf(repository) == Replay(run.(intents := map[]), ops)
    ensures run.journal <= repository.journal && StateOf(repository).Left(target.stores)
    ensures target.stores == StoresOf(repository, source.stores.technical)
    ensures ArchiveValid(archive) && Stored(target.stores, archive.content)
  {
    hide Reachable, Stored, ArchiveValid, TargetOf, OrderRepository.Valid;
    archive := Move(source, target, first, run);
    repository := Open(target, run);
    PerformAll(repository, ops);
    ReplayGrows(run.(intents := map[]), ops);
    ValidIsReachable(repository, target.stores.technical);
    archive := ExportAgain(repository, target, later);
  }
}
