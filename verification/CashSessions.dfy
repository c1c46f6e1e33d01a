/**
 The active cash session and its current float, in the four forms the system has:
 the session list searched backwards (src/services/orderRepository.ts:306-337), the
 auditor's fold (same file, 413-505), the native fold (native/android/RoomOrderStore.kt:
 1117-1148) and the server's queries (server/src/ledger/business.ts:319-342).
 */
module CashSessions {
  import opened Ledger

  datatype CashSession = CashSession(
    id: string,
    terminalId: string,
    periodStart: int,
    createdAt: int,
    openingFloatCents: int,
    closedAt: Option<int>)

  /** What the four forms have in common. */
  datatype ActiveCash = ActiveCash(
    id: string,
    terminalId: string,
    periodStart: int,
    openingFloatCents: int)

  /** The closure fields name a session, as `if (closure.cashSessionId)` reads them. */
  predicate NamesSession(closure: SalesClosure) {
    closure.session.Some? && closure.session.value.cashSessionId != ""
  }

  // ----- The list of sessions -----

  /** Index of the first session with the given id, or the length of the list. */
  function FindSession(sessions: seq<CashSession>, id: string): (index: nat)
    ensures index <= |sessions|
    ensures index < |sessions| ==> sessions[index].id == id
    ensures forall k :: 0 <= k < index ==> sessions[k].id != id
  {
    if sessions == [] then 0
    else if sessions[0].id == id then 0
    else
      var rest := FindSession(sessions[1..], id);
      assert forall k :: 1 <= k < 1 + rest ==> sessions[k] == sessions[1..][k - 1];
      1 + rest
  }

  function SessionsAfter(sessions: seq<CashSession>, e: Entry): seq<CashSession> {
    match e.Body()
    case SessionOpened(s) =>
      sessions + [CashSession(s.sessionId, e.content.terminalId, s.periodStart, s.createdAt, s.openingFloatCents, None)]
    case FloatUpdated(u) =>
      var i := FindSession(sessions, u.sessionId);
      if i < |sessions| then sessions[i := sessions[i].(openingFloatCents := u.newOpeningFloatCents)] else sessions
    case Closure(c) =>
      if NamesSession(c) then
        var i := FindSession(sessions, c.session.value.cashSessionId);
        if i < |sessions| then sessions[i := sessions[i].(closedAt := Some(c.periodEnd))] else sessions
      else sessions
    case _ => sessions
  }

  function SessionsOf(journal: seq<Entry>): seq<CashSession> {
    if journal == [] then []
    else SessionsAfter(SessionsOf(journal[..|journal| - 1]), journal[|journal| - 1])
  }

  function LastOpen(sessions: seq<CashSession>): Option<CashSession> {
    if sessions == [] then None
    else if sessions[|sessions| - 1].closedAt.None? then Some(sessions[|sessions| - 1])
    else LastOpen(sessions[..|sessions| - 1])
  }

  function ActiveSession(journal: seq<Entry>): Option<CashSession> {
    LastOpen(SessionsOf(journal))
  }

  /** The loops of getCashSessions and getActiveCashSession over entries in sequence order. */
  method GetActiveCashSession(journal: seq<Entry>) returns (active: Option<CashSession>)
    ensures active == ActiveSession(journal)
  {
    var sessions: seq<CashSession> := [];
    for i := 0 to |journal|
      invariant sessions == SessionsOf(journal[..i])
    {
      assert journal[..i + 1][..i] == journal[..i];
      match journal[i].Body()
      case SessionOpened(s) =>
        sessions := sessions + [CashSession(s.sessionId, journal[i].content.terminalId, s.periodStart, s.createdAt,
                                            s.openingFloatCents, None)];
      case FloatUpdated(u) =>
        var k := FindSession(sessions, u.sessionId);
        if k < |sessions| {
          sessions := sessions[k := sessions[k].(openingFloatCents := u.newOpeningFloatCents)];
        }
      case Closure(c) =>
        if c.session.Some? && c.session.value.cashSessionId != "" {
          var k := FindSession(sessions, c.session.value.cashSessionId);
          if k < |sessions| {
            sessions := sessions[k := sessions[k].(closedAt := Some(c.periodEnd))];
          }
        }
      case _ =>
    }
    assert journal[..|journal|] == journal;
    var k := |sessions|;
    assert sessions[..k] == sessions;
    while k > 0
      invariant 0 <= k <= |sessions|
      invariant LastOpen(sessions) == LastOpen(sessions[..k])
    {
      if sessions[k - 1].closedAt.None? {
        return Some(sessions[k - 1]);
      }
      assert sessions[..k][..k - 1] == sessions[..k - 1];
      k := k - 1;
    }
    return None;
  }

  function ListActive(journal: seq<Entry>): Option<ActiveCash> {
    match ActiveSession(journal)
    case None => None
    case Some(s) => Some(ActiveCash(s.id, s.terminalId, s.periodStart, s.openingFloatCents))
  }

  // ----- The folds -----

  function Opened(e: Entry): ActiveCash
    requires e.Body().SessionOpened?
  {
    var s := e.Body().session;
    ActiveCash(s.sessionId, e.content.terminalId, s.periodStart, s.openingFloatCents)
  }

  /** The auditor drops the active session at any closure that names one. */
  function AuditorActive(journal: seq<Entry>): Option<ActiveCash> {
    if journal == [] then None
    else
      var e := journal[|journal| - 1];
      var before := AuditorActive(journal[..|journal| - 1]);
      match e.Body()
      case SessionOpened(_) => Some(Opened(e))
      case FloatUpdated(u) =>
        if before.Some? && before.value.id == u.sessionId
        then Some(before.value.(openingFloatCents := u.newOpeningFloatCents)) else before
      case Closure(c) => if NamesSession(c) then None else before
      case _ => before
  }

  /** The native store compares ids, an absent closure session reading as the empty text. */
  function NativeActive(journal: seq<Entry>): Option<ActiveCash> {
    if journal == [] then None
    else
      var e := journal[|journal| - 1];
      var before := NativeActive(journal[..|journal| - 1]);
      match e.Body()
      case SessionOpened(_) => Some(Opened(e))
      case FloatUpdated(u) =>
        if before.Some? && before.value.id == u.sessionId
        then Some(before.value.(openingFloatCents := u.newOpeningFloatCents)) else before
      case Closure(c) =>
        var id := if c.session.Some? then c.session.value.cashSessionId else "";
        if before.Some? && before.value.id == id then None else before
      case _ => before
  }

  // ----- The server's queries -----

  function LatestOpened(journal: seq<Entry>): Option<Entry> {
    if journal == [] then None
    else if journal[|journal| - 1].Body().SessionOpened? then Some(journal[|journal| - 1])
    else LatestOpened(journal[..|journal| - 1])
  }

  /** `referencedSessionId` of a closure: the session field whenever it is present. */
  predicate ClosesSession(e: Entry, id: string) {
    e.Body().Closure? && e.Body().closure.session.Some? && e.Body().closure.session.value.cashSessionId == id
  }

  predicate UpdatesSession(e: Entry, id: string) {
    e.Body().FloatUpdated? && e.Body().update.sessionId == id
  }

  predicate ClosedByReference(journal: seq<Entry>, id: string) {
    exists n :: 0 <= n < |journal| && ClosesSession(journal[n], id)
  }

  function LatestFloat(journal: seq<Entry>, id: string): Option<int> {
    if journal == [] then None
    else if UpdatesSession(journal[|journal| - 1], id) then Some(journal[|journal| - 1].Body().update.newOpeningFloatCents)
    else LatestFloat(journal[..|journal| - 1], id)
  }

  function ServerActive(journal: seq<Entry>): Option<ActiveCash> {
    match LatestOpened(journal)
    case None => None
    case Some(e) =>
      var active := if e.Body().SessionOpened? then Opened(e) else ActiveCash("", "", 0, 0);
      if ClosedByReference(journal, active.id) then None
      else match LatestFloat(journal, active.id)
        case None => Some(active)
        case Some(cents) => Some(active.(openingFloatCents := cents))
  }

  // ----- What the writers guarantee about sessions -----

  predicate OpenedIn(journal: seq<Entry>, id: string) {
    exists n :: 0 <= n < |journal| && journal[n].Body().SessionOpened? && journal[n].Body().session.sessionId == id
  }

  /** The session guards of the three writers that append session entries. */
  predicate SessionRule(journal: seq<Entry>, e: Entry) {
    match e.Body()
    case SessionOpened(s) => ActiveSession(journal).None? && !OpenedIn(journal, s.sessionId)
    case FloatUpdated(u) => ActiveSession(journal).Some? && ActiveSession(journal).value.id == u.sessionId
    case Closure(c) =>
      c.session.Some? ==>
        && c.session.value.cashSessionId != ""
        && ActiveSession(journal).Some?
        && ActiveSession(journal).value.id == c.session.value.cashSessionId
    case _ => true
  }

  ghost predicate SessionDiscipline(journal: seq<Entry>) {
    forall n :: 0 <= n < |journal| ==> SessionRule(journal[..n], journal[n])
  }

  lemma {:induction false} DisciplinePrefix(journal: seq<Entry>, m: nat)
    requires SessionDiscipline(journal) && m <= |journal|
    ensures SessionDiscipline(journal[..m])
  {
    forall n | 0 <= n < m ensures SessionRule(journal[..m][..n], journal[..m][n]) {
      assert journal[..m][..n] == journal[..n];
    }
  }

  /** Ids are distinct, opened in the journal, and only the last session can be open. */
  ghost predicate ListShape(journal: seq<Entry>) {
    var sessions := SessionsOf(journal);
    && (forall i, k :: 0 <= i < k < |sessions| ==> sessions[i].id != sessions[k].id)
    && (forall i :: 0 <= i < |sessions| ==> OpenedIn(journal, sessions[i].id))
    && (forall i :: 0 <= i < |sessions| - 1 ==> sessions[i].closedAt.Some?)
    && (forall id :: OpenedIn(journal, id) ==> exists i :: 0 <= i < |sessions| && sessions[i].id == id)
  }

  lemma {:induction false} OpenedInGrows(journal: seq<Entry>, e: Entry, id: string)
    ensures OpenedIn(journal + [e], id) <==>
            OpenedIn(journal, id) || (e.Body().SessionOpened? && e.Body().session.sessionId == id)
  {
    var longer := journal + [e];
    if OpenedIn(journal, id) {
      var n :| 0 <= n < |journal| && journal[n].Body().SessionOpened? && journal[n].Body().session.sessionId == id;
      assert longer[n] == journal[n];
    }
    if e.Body().SessionOpened? && e.Body().session.sessionId == id {
      assert longer[|journal|] == e;
    }
  }

  lemma {:induction false} AllClosedMeansNoneOpen(sessions: seq<CashSession>)
    requires forall i :: 0 <= i < |sessions| ==> sessions[i].closedAt.Some?
    ensures LastOpen(sessions).None?
  {
    if sessions != [] {
      AllClosedMeansNoneOpen(sessions[..|sessions| - 1]);
    }
  }

  lemma {:induction false} NoneOpenMeansAllClosed(sessions: seq<CashSession>)
    requires LastOpen(sessions).None?
    ensures forall i :: 0 <= i < |sessions| ==> sessions[i].closedAt.Some?
  {
    if sessions != [] {
      NoneOpenMeansAllClosed(sessions[..|sessions| - 1]);
    }
  }

  lemma {:induction false} OpenIsLast(sessions: seq<CashSession>)
    requires forall i :: 0 <= i < |sessions| - 1 ==> sessions[i].closedAt.Some?
    ensures LastOpen(sessions) == if sessions != [] && sessions[|sessions| - 1].closedAt.None?
                                  then Some(sessions[|sessions| - 1]) else None
  {
    if sessions != [] {
      AllClosedMeansNoneOpen(sessions[..|sessions| - 1]);
    }
  }

  lemma {:induction false} ListShapeHolds(journal: seq<Entry>)
    requires SessionDiscipline(journal)
    ensures ListShape(journal)
  {
    if journal != [] {
      var n := |journal| - 1;
      var front, e := journal[..n], journal[n];
      DisciplinePrefix(journal, n);
      ListShapeHolds(front);
      assert journal == front + [e];
      forall id ensures OpenedIn(journal, id) <==>
          OpenedIn(front, id) || (e.Body().SessionOpened? && e.Body().session.sessionId == id) {
        OpenedInGrows(front, e, id);
      }
      assert SessionRule(front, e);
      ListShapeStep(front, e);
    }
  }

  /** Updates and closures change one session in place. */
  lemma {:induction false} SessionsChangeInPlace(before: seq<CashSession>, e: Entry)
    requires !e.Body().SessionOpened?
    ensures var after := SessionsAfter(before, e);
            && |after| == |before|
            && (forall i :: 0 <= i < |before| ==> after[i].id == before[i].id)
            && (forall i :: 0 <= i < |before| && before[i].closedAt.Some? ==> after[i].closedAt.Some?)
  {
  }

  lemma {:induction false} ListShapeStep(front: seq<Entry>, e: Entry)
    requires ListShape(front) && SessionRule(front, e)
    requires forall id :: OpenedIn(front + [e], id) <==>
               OpenedIn(front, id) || (e.Body().SessionOpened? && e.Body().session.sessionId == id)
    ensures ListShape(front + [e])
  {
    var before, journal := SessionsOf(front), front + [e];
    assert journal[..|front|] == front;
    var after := SessionsOf(journal);
    assert after == SessionsAfter(before, e);
    if e.Body().SessionOpened? {
      NoneOpenMeansAllClosed(before);
      assert forall i :: 0 <= i < |before| ==> after[i] == before[i];
      assert after[|before|].id == e.Body().session.sessionId;
    } else {
      SessionsChangeInPlace(before, e);
    }
    forall other | OpenedIn(journal, other) ensures exists i :: 0 <= i < |after| && after[i].id == other {
      if OpenedIn(front, other) {
        var i :| 0 <= i < |before| && before[i].id == other;
        assert after[i].id == other;
      }
    }
  }

  /** Every closure and float entry refers to a session opened before it. */
  lemma {:induction false} ReferencesAreOpened(journal: seq<Entry>, id: string)
    requires SessionDiscipline(journal)
    ensures ClosedByReference(journal, id) || LatestFloat(journal, id).Some? ==> OpenedIn(journal, id)
  {
    if journal != [] {
      var n := |journal| - 1;
      var front, e := journal[..n], journal[n];
      DisciplinePrefix(journal, n);
      ReferencesAreOpened(front, id);
      ListShapeHolds(front);
      OpenIsLast(SessionsOf(front));
      assert journal == front + [e];
      OpenedInGrows(front, e, id);
      assert SessionRule(front, e);
      if ClosedByReference(journal, id) && !ClosesSession(e, id) {
        var k :| 0 <= k < |journal| && ClosesSession(journal[k], id);
        assert front[k] == journal[k];
      }
    }
  }

  function Project(active: Option<CashSession>): Option<ActiveCash> {
    match active case None => None case Some(s) => Some(ActiveCash(s.id, s.terminalId, s.periodStart, s.openingFloatCents))
  }

  predicate OnlyLastOpen(sessions: seq<CashSession>) { forall i :: 0 <= i < |sessions| - 1 ==> sessions[i].closedAt.Some? }

  predicate DistinctSessions(sessions: seq<CashSession>) {
    forall i, k :: 0 <= i < k < |sessions| ==> sessions[i].id != sessions[k].id
  }

  /** The session guards on the list alone. */
  predicate ListGuard(sessions: seq<CashSession>, e: Entry) {
    var active := LastOpen(sessions);
    match e.Body()
    case SessionOpened(_) => active.None?
    case FloatUpdated(u) => active.Some? && active.value.id == u.sessionId
    case Closure(c) => c.session.Some? ==>
      c.session.value.cashSessionId != "" && active.Some? && active.value.id == c.session.value.cashSessionId
    case _ => true
  }

  function AuditorStep(before: Option<ActiveCash>, e: Entry): Option<ActiveCash> {
    match e.Body()
    case SessionOpened(_) => Some(Opened(e))
    case FloatUpdated(u) =>
      if before.Some? && before.value.id == u.sessionId
      then Some(before.value.(openingFloatCents := u.newOpeningFloatCents)) else before
    case Closure(c) => if NamesSession(c) then None else before
    case _ => before
  }

  /** One entry changes the last open session of the list as it changes the fold. */
  lemma {:induction false} ListStep(sessions: seq<CashSession>, e: Entry)
    requires OnlyLastOpen(sessions) && DistinctSessions(sessions) && ListGuard(sessions, e)
    ensures Project(LastOpen(SessionsAfter(sessions, e))) == AuditorStep(Project(LastOpen(sessions)), e)
  {
    hide LastOpen;
    var after := SessionsAfter(sessions, e);
    OpenIsLast(sessions);
    if e.Body().SessionOpened? {
      NoneOpenMeansAllClosed(sessions);
      OpenIsLast(after);
    } else {
      SessionsChangeInPlace(sessions, e);
      OpenIsLast(after);
    }
  }

  /** The list and the auditor's fold name the same session, period and float. */
  lemma {:induction false} ListAgreesWithAuditor(journal: seq<Entry>)
    requires SessionDiscipline(journal)
    ensures ListActive(journal) == AuditorActive(journal)
  {
    hide LastOpen, SessionsAfter;
    if journal != [] {
      var n := |journal| - 1;
      var front, e := journal[..n], journal[n];
      DisciplinePrefix(journal, n);
      ListAgreesWithAuditor(front);
      ShapeOfList(front);
      GuardOnList(journal, n);
      ListStep(SessionsOf(front), e);
    } else {
      OpenIsLast([]);
    }
  }

  lemma {:induction false} ShapeOfList(journal: seq<Entry>)
    requires SessionDiscipline(journal)
    ensures OnlyLastOpen(SessionsOf(journal)) && DistinctSessions(SessionsOf(journal))
  {
    hide OpenedIn;
    ListShapeHolds(journal);
  }

  lemma {:induction false} GuardOnList(journal: seq<Entry>, n: nat)
    requires SessionDiscipline(journal) && n < |journal|
    ensures ListGuard(SessionsOf(journal[..n]), journal[n])
  {
    hide SessionsOf, LastOpen, OpenedIn;
    assert SessionRule(journal[..n], journal[n]);
  }

  /** The server's three queries name it too. */
  lemma {:induction false} AuditorAgreesWithServer(journal: seq<Entry>)
    requires SessionDiscipline(journal)
    ensures AuditorActive(journal) == ServerActive(journal)
  {
    if journal != [] {
      var n := |journal| - 1;
      var front, e := journal[..n], journal[n];
      DisciplinePrefix(journal, n);
      AuditorAgreesWithServer(front);
      ListAgreesWithAuditor(front);
      assert SessionRule(front, e);
      assert journal == front + [e];
      forall id ensures ClosedByReference(journal, id) <==> ClosedByReference(front, id) || ClosesSession(e, id) {
        ClosedByReferenceGrows(front, e, id);
      }
      if e.Body().SessionOpened? {
        ReferencesAreOpened(front, e.Body().session.sessionId);
      }
    }
  }

  lemma {:induction false} ClosedByReferenceGrows(front: seq<Entry>, e: Entry, id: string)
    ensures ClosedByReference(front + [e], id) <==> ClosedByReference(front, id) || ClosesSession(e, id)
  {
    var longer := front + [e];
    if ClosedByReference(front, id) {
      var k :| 0 <= k < |front| && ClosesSession(front[k], id);
      assert ClosesSession(longer[k], id);
    }
    if ClosesSession(e, id) {
      assert ClosesSession(longer[|front|], id);
    }
  }

  /** A session with an empty id, once opened, followed by any closure. */
  ghost predicate BlankSessionThenClosure(journal: seq<Entry>) {
    exists i, k :: 0 <= i < k < |journal|
      && journal[i].Body().SessionOpened? && journal[i].Body().session.sessionId == ""
      && journal[k].Body().Closure?
  }

  /**
   The native fold agrees exactly when no closure follows the opening of a session
   whose id is empty. The native writer refuses that id, the web repository does not.
   */
  lemma {:induction false} NativeAgreesExactly(journal: seq<Entry>)
    requires SessionDiscipline(journal)
    ensures NativeActive(journal) == AuditorActive(journal) <==> !BlankSessionThenClosure(journal)
  {
    NativeStates(journal);
  }

  /** Once an empty id is open nothing closes it for the auditor; the native fold drops it at a closure. */
  ghost predicate NativeState(journal: seq<Entry>) {
    && (OpenedIn(journal, "") ==> AuditorActive(journal).Some? && AuditorActive(journal).value.id == "")
    && (BlankSessionThenClosure(journal) ==> NativeActive(journal).None? && OpenedIn(journal, ""))
    && (!BlankSessionThenClosure(journal) ==> NativeActive(journal) == AuditorActive(journal))
  }

  lemma {:induction false} NativeStates(journal: seq<Entry>)
    requires SessionDiscipline(journal)
    ensures NativeState(journal)
  {
    hide OpenedIn, BlankSessionThenClosure, SessionRule;
    if journal == [] {
      NothingOpened();
    } else {
      var n := |journal| - 1;
      var front, e := journal[..n], journal[n];
      DisciplinePrefix(journal, n);
      NativeStates(front);
      assert journal == front + [e];
      AuditorRule(front, e);
      NativeStep(front, e);
    }
  }

  lemma {:induction false} NothingOpened()
    ensures !OpenedIn([], "") && !BlankSessionThenClosure([])
  {
  }

  /** The session guards in terms of the auditor's fold. */
  predicate AuditorGuard(front: seq<Entry>, e: Entry) {
    match e.Body()
    case SessionOpened(s) => AuditorActive(front).None?
    case FloatUpdated(u) => AuditorActive(front).Some? && AuditorActive(front).value.id == u.sessionId
    case Closure(c) => c.session.Some? ==>
      c.session.value.cashSessionId != "" && AuditorActive(front).Some? && AuditorActive(front).value.id == c.session.value.cashSessionId
    case _ => true
  }

  lemma {:induction false} AuditorRule(front: seq<Entry>, e: Entry)
    requires SessionDiscipline(front + [e])
    ensures AuditorGuard(front, e)
  {
    hide AuditorActive, ActiveSession;
    var journal := front + [e];
    assert journal[..|front|] == front && journal[|front|] == e;
    assert SessionRule(journal[..|front|], journal[|front|]);
    DisciplinePrefix(journal, |front|);
    ListAgreesWithAuditor(front);
  }

  lemma {:induction false} NativeStep(front: seq<Entry>, e: Entry)
    requires NativeState(front) && AuditorGuard(front, e)
    ensures NativeState(front + [e])
  {
    hide OpenedIn, BlankSessionThenClosure;
    var journal := front + [e];
    assert journal[..|front|] == front && journal[|front|] == e;
    OpenedInGrows(front, e, "");
    BlankThenClosureGrows(front, e);
    if AuditorActive(front).Some? && AuditorActive(front).value.id == "" {
      AuditorActiveIsOpened(front);
    }
  }

  lemma {:induction false} AuditorActiveIsOpened(journal: seq<Entry>)
    ensures AuditorActive(journal).Some? ==> OpenedIn(journal, AuditorActive(journal).value.id)
  {
    if journal != [] {
      var n := |journal| - 1;
      AuditorActiveIsOpened(journal[..n]);
      assert journal == journal[..n] + [journal[n]];
      if AuditorActive(journal).Some? {
        OpenedInGrows(journal[..n], journal[n], AuditorActive(journal).value.id);
      }
    }
  }

  lemma {:induction false} BlankThenClosureGrows(front: seq<Entry>, e: Entry)
    ensures BlankSessionThenClosure(front + [e]) <==>
            BlankSessionThenClosure(front) || (OpenedIn(front, "") && e.Body().Closure?)
  {
    var longer := front + [e];
    if BlankSessionThenClosure(front) {
      var i, k :| 0 <= i < k < |front|
        && front[i].Body().SessionOpened? && front[i].Body().session.sessionId == "" && front[k].Body().Closure?;
      assert longer[i] == front[i] && longer[k] == front[k];
    }
    if OpenedIn(front, "") && e.Body().Closure? {
      var i :| 0 <= i < |front| && front[i].Body().SessionOpened? && front[i].Body().session.sessionId == "";
      assert longer[i] == front[i] && longer[|front|] == e;
    }
    if BlankSessionThenClosure(longer) {
      var i, k :| 0 <= i < k < |longer|
        && longer[i].Body().SessionOpened? && longer[i].Body().session.sessionId == "" && longer[k].Body().Closure?;
      assert front[i] == longer[i];
      if k < |front| {
        assert front[k] == longer[k];
      }
    }
  }
}
