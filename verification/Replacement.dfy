/**
 Replacing a tablet from an archive (src/services/tabletReplacementService.ts:79-164). A
 call may be cut after any durable step; `budget` is the number of steps it gets to do.
 */
module Replacement {
  import opened Ledger
  import opened Archive
  import Journal

  datatype Identity = Identity(terminalId: string, terminalCode: string, displayName: string)

  datatype Pending = Pending(archiveHash: ArchiveContent, terminal: Identity)

  datatype Outcome = Done | Crashed | Refused

  function Source(a: SalesArchive): Identity { Identity(a.content.terminalId, a.content.terminalCode, a.content.displayName) }

  predicate SameTerminal(x: Identity, y: Identity) { x.terminalId == y.terminalId && x.terminalCode == y.terminalCode }

  function PendingOf(a: SalesArchive): Pending { Pending(a.archiveHash, Source(a)) }

  /** sameReplacement */
  predicate SameReplacement(p: Pending, a: SalesArchive) { p.archiveHash == a.archiveHash && SameTerminal(p.terminal, Source(a)) }

  predicate HasRecords(a: SalesArchive) { a.content.orders != [] || a.content.entries != [] }

  const TERMINAL_CODES := {"A", "B", "C", "D"}

  /** requireArchiveTerminalIdentity */
  predicate IdentityUsable(a: SalesArchive) {
    !Blank(a.content.terminalId) && a.content.terminalCode in TERMINAL_CODES && !Blank(a.content.displayName)
  }

  const MAX_NAME := 40

  predicate NameFits(name: string) { 0 < |Trim(name)| <= 40 }

  /** The configuration adoptRestoredIdentity saves. */
  function Adopted(identity: Identity): Identity { identity.(displayName := Trim(identity.displayName)) }

  class Tablet {
    const disk: LocalStores
    var config: Option<Identity>
    var pending: Option<Pending>
    var syncPrepared: bool
    /** How many restorations were applied. */
    ghost var restorations: nat

    constructor (stores: LocalStores)
      ensures disk == stores && config.None? && pending.None? && restorations == 0
    {
      disk, config, pending, syncPrepared, restorations := stores, None, None, false, 0;
    }

    /** The states the procedure can leave, from an empty tablet and one archive. */
    ghost predicate InProgress(a: SalesArchive)
      reads this, disk
    {
      && ArchiveValid(a) && Storable(a.content) && IdentityUsable(a)
      && (pending.Some? ==> pending == Some(PendingOf(a)))
      && (config.Some? ==> config == Some(Adopted(Source(a))) && NameFits(a.content.displayName) && Stored(disk.stores, a.content))
      && (restorations == 0 ==> NothingStored(disk.stores))
      && (restorations == 1 ==> Stored(disk.stores, a.content) && (pending.Some? || config.Some?))
      && restorations <= 1
      && (pending.None? && config.None? && TargetOf(disk.stores, a) == MatchesArchive ==> !HasRecords(a))
    }

    /** When an uninterrupted call ends with the identity adopted. */
    ghost predicate Replaceable(a: SalesArchive)
      reads this, disk
    {
      && ArchiveValid(a) && IdentityUsable(a)
      && (pending.Some? ==> SameReplacement(pending.value, a))
      && if config.Some? then SameTerminal(config.value, Source(a)) && Stored(disk.stores, a.content)
         else
           && NameFits(a.content.displayName)
           && if Stored(disk.stores, a.content) then pending.Some? || !HasRecords(a)
              else Storable(a.content) && NothingStored(disk.stores)
    }

    /** adoptRestoredIdentity on a tablet without identity. */
    method Adopt(identity: Identity) returns (ok: bool)
      modifies `config
      ensures ok <==> if old(config).Some? then SameTerminal(old(config).value, identity)
                      else !Blank(identity.terminalId) && NameFits(identity.displayName)
      ensures config == if ok && old(config).None? then Some(Adopted(identity)) else old(config)
    {
      if config.Some? { return config.value.terminalId == identity.terminalId && config.value.terminalCode == identity.terminalCode; }
      if Blank(identity.terminalId) { return false; }
      var name := Trim(identity.displayName);
      if name == "" || |name| > MAX_NAME { return false; }
      config := Some(Identity(identity.terminalId, identity.terminalCode, name));
      return true;
    }

    /**
     Whatever the archive and the state: an identity is adopted only over the journal of
     the archive, another archive is refused while one is pending, and a refusal before
     the first durable step changes nothing.
     */
    method ReplaceFromArchive(a: SalesArchive, budget: nat) returns (outcome: Outcome)
      modifies this, disk
      ensures old(config).None? && config.Some? ==>
                config == Some(Adopted(Source(a))) && Stored(disk.stores, a.content) && ArchiveValid(a) && IdentityUsable(a)
      ensures old(config).Some? ==> config == old(config) && disk.stores == old(disk.stores)
      ensures (old(pending).Some? && !SameReplacement(old(pending).value, a)) || !ArchiveValid(a) || !IdentityUsable(a) ==>
                outcome == Refused && config == old(config) && pending == old(pending) && disk.stores == old(disk.stores)
      ensures outcome == Done ==>
                config.Some? && SameTerminal(config.value, Source(a)) && pending.None? && Stored(disk.stores, a.content)
      ensures outcome == Done ==> old(Replaceable(a))
      ensures budget >= 5 && old(Replaceable(a)) ==> outcome == Done
      ensures old(InProgress(a)) ==> InProgress(a)
      ensures budget >= 5 && old(InProgress(a)) ==>
                && Stored(disk.stores, a.content)
                && if NameFits(a.content.displayName) then outcome == Done else config.None? && pending == Some(PendingOf(a))
    {
      hide ArchiveValid, Stored, Storable, NothingStored, Restores, Restorable, TrimStart, TrimEnd;
      RestoredMatches(a);
      TrimsToNothing(a.content.displayName);
      var left := budget;
      var valid := VerifySalesArchive(a);
      if !valid { return Refused; }
      var terminal := Identity(a.content.terminalId, a.content.terminalCode, a.content.displayName);
      if Blank(terminal.terminalId) || Blank(terminal.displayName) { return Refused; }
      if terminal.terminalCode !in TERMINAL_CODES { return Refused; }
      if pending.Some? && (pending.value.archiveHash != a.archiveHash || pending.value.terminal.terminalId != terminal.terminalId
                           || pending.value.terminal.terminalCode != terminal.terminalCode) {
        return Refused;
      }
      if config.Some? && (config.value.terminalId != terminal.terminalId || config.value.terminalCode != terminal.terminalCode) {
        return Refused;
      }
      var target := disk.GetTargetState(a);
      if config.Some? {
        if target != MatchesArchive { return Refused; }
        if left == 0 { return Crashed; }
        pending := None;
        return Done;
      }
      if target == Occupied { return Refused; }
      if target == MatchesArchive && pending.None? && (a.content.orders != [] || a.content.entries != []) { return Refused; }
      if pending.None? {
        if left == 0 { return Crashed; }
        syncPrepared, left := true, left - 1;
        if left == 0 { return Crashed; }
        pending, left := Some(Pending(a.archiveHash, terminal)), left - 1;
      }
      if target == Empty {
        if left == 0 { return Crashed; }
        RestoringEmpty(disk.stores, a);
        var restored := disk.RestoreArchive(a);
        left := left - 1;
        if !restored { return Refused; }
        restorations := restorations + 1;
        target := disk.GetTargetState(a);
        if target != MatchesArchive { return Refused; }
      }
      if left == 0 { return Crashed; }
      var adopted := Adopt(terminal);
      left := left - 1;
      if !adopted { return Refused; }
      if left == 0 { return Crashed; }
      pending := None;
      return Done;
    }
  }

  /** Restoring over stores without orders and entries: accepted and matching exactly when nothing at all was there. */
  lemma {:induction false} RestoringEmpty(s: Stores, a: SalesArchive)
    requires ArchiveValid(a) && TargetOf(s, a) == Empty
    ensures NothingStored(s) <==> s.technical == map[]
    ensures Storable(a.content) && NothingStored(s) ==> Restorable(s, a)
    ensures Restorable(s, a) ==> Storable(a.content)
    ensures forall after :: Restores(s, a, after) ==> (TargetOf(after, a) == MatchesArchive <==> NothingStored(s))
  {
    hide ArchiveValid, Holds, Adds, Distinct;
    forall after | Restores(s, a, after) ensures TargetOf(after, a) == MatchesArchive <==> NothingStored(s) {
      MatchesExactly(s, a, after);
    }
  }

  /** Stores that match an archive with records are not empty, and the other way round. */
  lemma {:induction false} RestoredMatches(a: SalesArchive)
    ensures forall s: Stores :: TargetOf(s, a) == MatchesArchive <==> Stored(s, a.content)
    ensures forall s: Stores :: TargetOf(s, a) == Empty ==> s.orders == map[] && s.ledger == map[]
    ensures forall s: Stores :: NothingStored(s) ==> TargetOf(s, a) != Occupied
  {
  }

  lemma {:induction false} HoldsNothing<T, V>(m: map<string, V>, xs: seq<T>, key: T -> string, value: T -> V)
    requires m == map[]
    ensures Holds(m, xs, key, value) ==> xs == []
  {
    if xs != [] {
      assert key(xs[0]) !in m;
    }
  }

  /** An empty tablet is where the procedure starts. */
  lemma {:induction false} EmptyTabletCanStart(tablet: Tablet, a: SalesArchive)
    requires NothingStored(tablet.disk.stores) && tablet.config.None? && tablet.pending.None? && tablet.restorations == 0
    requires ArchiveValid(a) && Storable(a.content) && IdentityUsable(a)
    ensures tablet.InProgress(a)
  {
    hide ArchiveValid, Distinct;
    HoldsNothing(tablet.disk.stores.orders, a.content.orders, OrderKey, SameOrder);
    HoldsNothing(tablet.disk.stores.ledger, a.content.entries, EntryKey, SameEntry);
  }

  /**
   From an empty tablet, after any number of interrupted calls with one archive, a call
   that is not interrupted has restored the journal, once. It ends with the identity
   adopted exactly when the name in the archive fits: otherwise the journal stays on a
   tablet without identity.
   */
  method RunToTheEnd(stores: LocalStores, a: SalesArchive, budgets: seq<nat>) returns (tablet: Tablet)
    requires NothingStored(stores.stores) && ArchiveValid(a) && Storable(a.content) && IdentityUsable(a)
    modifies stores
    ensures tablet.disk == stores && Stored(stores.stores, a.content) && tablet.restorations <= 1
    ensures if NameFits(a.content.displayName) then tablet.config == Some(Adopted(Source(a))) && tablet.pending.None?
            else tablet.config.None? && tablet.pending == Some(PendingOf(a))
  {
    tablet := new Tablet(stores);
    EmptyTabletCanStart(tablet, a);
    for i := 0 to |budgets|
      invariant fresh(tablet) && tablet.disk == stores && tablet.InProgress(a)
    {
      var outcome := tablet.ReplaceFromArchive(a, budgets[i]);
    }
    var outcome := tablet.ReplaceFromArchive(a, 5);
  }

  /** A name of 41 characters. */
  const LONG_NAME := "Caisse centrale du grand hall de festival"

  lemma {:induction false} LongNameIsTooLong()
    ensures !Blank(LONG_NAME) && |Trim(LONG_NAME)| == 41 && !NameFits(LONG_NAME)
  {
    assert LONG_NAME[0] in LONG_NAME && |LONG_NAME| == 41;
  }

  /** From any reachable store: a valid archive, restored completely, on a tablet that never gets its identity. */
  method MoveUnderLongName(source: LocalStores, target: LocalStores, ghost legacy: Journal.Legacy, ghost firstOrder: nat,
                           ghost firstReceipt: nat, ghost journal: seq<Entry>, budgets: seq<nat>)
      returns (archive: SalesArchive, tablet: Tablet)
    requires Reachable(source.stores, legacy, firstOrder, firstReceipt, journal) && NothingStored(target.stores) && source != target
    modifies target
    ensures ArchiveValid(archive) && IdentityUsable(archive)
    ensures Stored(source.stores, archive.content) && Stored(target.stores, archive.content)
    ensures tablet.disk == target && tablet.config.None? && tablet.pending == Some(PendingOf(archive))
  {
    hide ArchiveValid, Reachable, Stored, Storable, Blank, Trim, WellKeyed, NameFits;
    LongNameIsTooLong();
    Visible("till");
    ReachableIsKeyed(source.stores, legacy, firstOrder, firstReceipt, journal);
    var exported := source.ExportArchive("archive", 0, "till", "A", LONG_NAME);
    archive := exported.value;
    StoredIsStorable(source.stores, archive.content);
    tablet := RunToTheEnd(target, archive, budgets);
  }

  lemma {:induction false} StoredIsStorable(s: Stores, c: ArchiveContent)
    requires Stored(s, c)
    ensures Storable(c)
  {
    hide Holds, Distinct;
  }

  lemma {:induction false} Visible(text: string)
    requires text != "" && text[0] !in WHITESPACE
    ensures !Blank(text)
  {
    assert text[0] in text;
  }
}
