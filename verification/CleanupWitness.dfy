/** Inputs on which a cleanup pass does less than it promises. */
module CleanupWitness {
  import opened CleanupTexts
  import opened Optional
  import opened Text
  import opened Ordering
  import opened CleanupLedger
  import opened CleanupMerge
  import opened CleanupSafety
  import opened CleanupSettle
  import opened CleanupDetails
  import opened CleanupRestart
  import opened CleanupOrder
  import opened CleanupExposure
  import opened CleanupConvergence

  // ---- a successful deletion whose ledger the next pass refuses --------------------------------

  const SPELLING := Observation("k", "", "n", "passwor", true, true, false, false)

  lemma SpellingPrefix()
    ensures Prefix(Adopt(SPELLING)) == "knpasswor" && Fields(Adopt(SPELLING)) == "knpasswor" + ADOPTED
  {
    assert "k" + "" + "n" + "passwor" == "knpasswor";
  }

  lemma SpellingScan()
    ensures !Sensitive("knpasswor" + ADOPTED)
  {
    SpellingNotSensitive();
    AdoptedText();
    WrittenSensitiveIff("knpasswor", ADOPTED);
  }

  lemma SpellingLines()
    ensures RequiredLine("k") && RequiredLine("n") && RequiredLine("passwor") && RequiredLine(ADOPTED)
  {
    AdoptedText();
    LineOfKnownStart(ADOPTED);
    assert !IsSpace("k"[0]) && !IsSpace("n"[0]) && !IsSpace("passwor"[0]);
  }

  lemma RankNotNegative(kind: string, role: string)
    ensures DefaultRank(kind, role) >= 0
  {
  }

  lemma SpellingAdopted()
    ensures ValidResource(Adopt(SPELLING)) && EndsInPasswor(Prefix(Adopt(SPELLING)))
  {
    SpellingPrefix();
    SpellingScan();
    SpellingLines();
    SpellingNotSensitive();
    RankNotNegative(SPELLING.kind, SPELLING.role);
  }

  lemma SpellingNotSensitive()
    ensures !Sensitive("knpasswor") && EndsInPasswor("knpasswor")
  {
    var t := "knpasswor";
    forall i | 0 <= i < |t| ensures !SensitiveAt(t, i) {
      assert !WordAt(t, i, "password") by { if i + 8 <= |t| { assert Fold(t[i + 2]) != "password"[2]; } }
      assert !WordAt(t, i, "secret") by { if i + 6 <= |t| { assert Fold(t[i]) != "secret"[0]; } }
      assert !WordAt(t, i, "token") by { if i + 5 <= |t| { assert Fold(t[i]) != "token"[0]; } }
      forall k: nat ensures !WordAt(t, k, "key") { if k + 3 <= |t| { assert Fold(t[k]) != "key"[0] || Fold(t[k + 1]) != "key"[1]; } }
    }
    forall j | 0 <= j < 7 ensures Fold(t[2 + j]) == "passwor"[j] {}
  }

  lemma SpellingConverges(h: Header)
    requires ValidHeader(h)
    ensures Convergent(h, [], [SPELLING]) && SpellsPassword([], [SPELLING])
  {
    var rs: seq<Resource>, observed := [], [SPELLING];
    SpellingAdopted();
    MergeIntoNothing(SPELLING);
    SpellingLines();
    assert ValidObservation(SPELLING);
    assert Written(rs, observed, 0) == Adopt(SPELLING);
    assert Merge(rs, observed)[0] == Adopt(SPELLING);
    assert Matches(Adopt(SPELLING), SPELLING) && SPELLING in observed;
    assert Observed(Merge(rs, observed)[0], observed);
  }

  /** A deletion that succeeds can leave a `complete` report whose ledger every later pass refuses. */
  lemma SuccessfulDeletionCanStrandLedger(s: Services, o: Options, s': Services, o': Options, h: Header)
    requires ValidHeader(h) && Reliable(s) && !o.dryRun
    ensures Convergent(h, [], [SPELLING])
    ensures var left := Left(s, o, [], [SPELLING]);
            var first := Reconcile(s, o, h, [], Some([SPELLING]), Some(left));
            && first.Reported? && first.report.verdict == Complete
            && Reconcile(s', o', h, first.report.resources, Some(left), Some(left)) == Aborted(BadLedger)
  {
    SpellingConverges(h);
    SweepReliable(s, o, [], [SPELLING]);
    FirstPassCompletes(s, o, h, [], [SPELLING]);
    SecondPassIdlesIff(s, o, s', o', h, [], [SPELLING]);
  }

  // ---- a rejected deletion whose ledger the next pass refuses ----------------------------------

  const OWNED := Observation("k", "", "n", "i", true, true, false, false)
  const MESSAGE := "token expired"

  /** Every save works and every deletion is rejected with the message. */
  ghost predicate Rejecting(s: Services, message: string) {
    && (forall log :: s.save(log) == SaveOk)
    && (forall log, r :: s.delete(log, r) == DeleteFailed(message))
  }

  lemma RejectedDeletion(s: Services, o: Options, index: nat, p: Pass, message: string)
    requires Rejecting(s, message) && o.persist && index < |p.resources| && p.failure.None?
    ensures var q := DeleteLive(s, o, index, p);
            var entry := p.resources[index].(status := Deleting, detail := FailureDetail(message));
            && q.failure == Some(DeleteRejected(message))
            && q.log != [] && q.log[|q.log| - 1] == Save(p.resources[index := entry], SaveOk)
  {
  }

  lemma OneEntryDriven(s: Services, o: Options, inventory: map<string, Observation>, r: Resource, p: Pass)
    requires p.resources == [r] && p.failure.None? && WillDelete(o, Lookup(inventory, r), r)
    ensures Drive(s, o, inventory, [r], p) == DeleteLive(s, o, 0, p)
  {
    assert [r][..0] == [];
    assert Drive(s, o, inventory, [r][..0], p) == p;
    assert KeyIndex(p.resources, Key(r), 0) == 0;
    TreatDeletes(s, o, inventory, 0, p);
  }

  lemma OwnedAdopted()
    ensures ValidInventory([OWNED]) && Merge([], [OWNED]) == [Adopt(OWNED)]
    ensures Lookup(IndexInventory([OWNED]), Adopt(OWNED)) == Some(OWNED)
  {
    MergeIntoNothing(OWNED);
    LookupBound([OWNED], Adopt(OWNED));
    assert OWNED in [OWNED] && SameIdentity(Adopt(OWNED), OWNED);
    assert !IsSpace("k"[0]) && !IsSpace("n"[0]) && !IsSpace("i"[0]);
  }

  lemma TokenInDetail(r: Resource)
    requires WordAt(r.detail, 0, "token")
    ensures !ValidResource(r)
  {
    WordShifted(Prefix(r), r.detail, 0, "token");
    assert Fields(r) == Prefix(r) + r.detail;
    assert SensitiveAt(Fields(r), |Prefix(r)|);
  }

  const REJECTED := Adopt(OWNED).(status := Deleting, detail := MESSAGE)

  lemma RejectedDrive(s: Services, o: Options, inventory: map<string, Observation>, r: Resource, p: Pass, message: string)
    requires Rejecting(s, message) && o.persist && p.resources == [r] && p.failure.None?
    requires WillDelete(o, Lookup(inventory, r), r)
    ensures var q := Drive(s, o, inventory, [r], p);
            && q.failure == Some(DeleteRejected(message)) && q.log != []
            && q.log[|q.log| - 1] == Save([r.(status := Deleting, detail := FailureDetail(message))], SaveOk)
  {
    OneEntryDriven(s, o, inventory, r, p);
    RejectedDeletion(s, o, 0, p, message);
    var entry := r.(status := Deleting, detail := FailureDetail(message));
    assert p.resources[0 := entry] == [entry];
  }

  lemma OneEntrySweep(s: Services, o: Options, rs: seq<Resource>, observed: seq<Observation>, r: Resource)
    requires Merge(rs, observed) == [r] && Start(s, o, rs, observed).failure.None?
    ensures Start(s, o, rs, observed).resources == [r]
    ensures Sweep(s, o, rs, observed) == Drive(s, o, IndexInventory(observed), [r], Start(s, o, rs, observed))
  {
    assert Sort([r][1..], RankOrder) == [];
  }

  lemma RejectedPass(s: Services, o: Options, rs: seq<Resource>, observed: seq<Observation>, r: Resource, message: string)
    requires Rejecting(s, message) && o.persist && Merge(rs, observed) == [r]
    requires WillDelete(o, Lookup(IndexInventory(observed), r), r)
    ensures var p := Sweep(s, o, rs, observed);
            && p.failure == Some(DeleteRejected(message)) && p.log != []
            && p.log[|p.log| - 1] == Save([r.(status := Deleting, detail := FailureDetail(message))], SaveOk)
  {
    OneEntrySweep(s, o, rs, observed, r);
    RejectedDrive(s, o, IndexInventory(observed), r, Start(s, o, rs, observed), message);
  }

  lemma OwnedIsDue(o: Options)
    requires !o.dryRun
    ensures WillDelete(o, Some(OWNED), Adopt(OWNED))
  {
  }

  lemma MessageIsKept()
    ensures FailureDetail(MESSAGE) == MESSAGE
  {
  }

  lemma RejectedSweep(s: Services, o: Options)
    requires Rejecting(s, MESSAGE) && o.persist && !o.dryRun
    ensures var p := Sweep(s, o, [], [OWNED]);
            && p.failure == Some(DeleteRejected(MESSAGE))
            && p.log != [] && p.log[|p.log| - 1] == Save([REJECTED], SaveOk)
  {
    OwnedAdopted();
    OwnedIsDue(o);
    MessageIsKept();
    RejectedPass(s, o, [], [OWNED], Adopt(OWNED), MESSAGE);
  }

  lemma RejectedInvalid()
    ensures !ValidResources([REJECTED])
  {
    assert WordAt(MESSAGE, 0, "token");
    TokenInDetail(REJECTED);
    assert [REJECTED][0] == REJECTED;
  }

  /** The ledger on disk after the pass. */
  function Disk(s: Services, o: Options, h: Header, rs: seq<Resource>, observed: seq<Observation>): seq<Resource> {
    Survives(rs, Log(s, o, h, rs, Some(observed)))
  }

  lemma EndsInSave(s: Services, o: Options, h: Header, rs: seq<Resource>, observed: seq<Observation>,
                   final: Option<seq<Observation>>, saved: seq<Resource>)
    requires ValidLedger(h, rs) && ValidInventory(observed)
    requires var p := Sweep(s, o, rs, observed);
             p.failure.Some? && p.log != [] && p.log[|p.log| - 1] == Save(saved, SaveOk)
    ensures Disk(s, o, h, rs, observed) == saved
    ensures Reconcile(s, o, h, rs, Some(observed), final) == Aborted(Sweep(s, o, rs, observed).failure.value)
  {
  }

  /** A provider that names a token in its error message leaves a ledger on disk that every later pass refuses. */
  lemma RejectionMessageCanStrandLedger(s: Services, o: Options, s': Services, o': Options, h: Header,
                                        observed: Option<seq<Observation>>, final: Option<seq<Observation>>)
    requires ValidHeader(h) && Rejecting(s, MESSAGE) && o.persist && !o.dryRun
    ensures ValidLedger(h, []) && ValidInventory([OWNED])
    ensures Reconcile(s, o, h, [], Some([OWNED]), final) == Aborted(DeleteRejected(MESSAGE))
    ensures Reconcile(s', o', h, Disk(s, o, h, [], [OWNED]), observed, final) == Aborted(BadLedger)
  {
    OwnedAdopted();
    RejectedSweep(s, o);
    EndsInSave(s, o, h, [], [OWNED], final, [REJECTED]);
    RejectedInvalid();
  }

  // ---- an unbound entry that names somebody else's resource ------------------------------------

  const BOUND_ENTRY := Resource("k", "", "m", "O", 10, Claimed, "")
  const UNBOUND_ENTRY := Resource("k", "", "n", "", 20, Claimed, "")
  const FOREIGN := Observation("k", "", "n", "U", false, true, false, false)
  const NAMESAKE := Observation("k", "", "n", "O", true, true, false, false)

  lemma ShortNotSensitive(t: string)
    requires |t| < 5
    ensures !Sensitive(t)
  {
  }

  lemma LettersAccepted()
    ensures RequiredLine("k") && RequiredLine("n") && RequiredLine("m") && RequiredLine("O") && RequiredLine("U")
  {
    assert !IsSpace("k"[0]) && !IsSpace("n"[0]) && !IsSpace("m"[0]) && !IsSpace("O"[0]) && !IsSpace("U"[0]);
  }

  lemma EntryAccepted(r: Resource)
    requires r in [BOUND_ENTRY, UNBOUND_ENTRY]
    ensures ValidResource(r)
  {
    LettersAccepted();
    ShortNotSensitive(Fields(r));
  }

  lemma EntriesAccepted()
    ensures ValidResources([BOUND_ENTRY, UNBOUND_ENTRY])
  {
    LettersAccepted();
    EntryAccepted(BOUND_ENTRY);
    EntryAccepted(UNBOUND_ENTRY);
    assert Key(BOUND_ENTRY) == "k" + ":" + "O" && Key(UNBOUND_ENTRY) == "k" + ":" + "n";
    assert ("k" + ":" + "O")[2] != ("k" + ":" + "n")[2];
  }

  lemma InventoryAccepted()
    ensures ValidInventory([FOREIGN, NAMESAKE]) && Deletable1([FOREIGN, NAMESAKE])
    ensures WellFormed([BOUND_ENTRY, UNBOUND_ENTRY], [FOREIGN, NAMESAKE])
  {
    LettersAccepted();
    assert ValidObservation(FOREIGN) && ValidObservation(NAMESAKE);
  }

  lemma EntriesMerged()
    ensures Merge([BOUND_ENTRY, UNBOUND_ENTRY], [FOREIGN, NAMESAKE]) == [BOUND_ENTRY, UNBOUND_ENTRY]
  {
    var rs, observed := [BOUND_ENTRY, UNBOUND_ENTRY], [FOREIGN, NAMESAKE];
    assert observed[..1] == [FOREIGN] && [FOREIGN][..0] == [];
    assert Merge(rs, [FOREIGN][..0]) == rs;
    assert Merge(rs, [FOREIGN]) == rs;
    assert SameIdentity(rs[0], NAMESAKE) && InventoryMatch(rs, NAMESAKE) == 0;
    assert Bind(BOUND_ENTRY, NAMESAKE) == BOUND_ENTRY;
    assert rs[0 := BOUND_ENTRY] == rs;
  }

  lemma EntriesLookedUp()
    ensures Lookup(IndexInventory([FOREIGN, NAMESAKE]), BOUND_ENTRY) == Some(NAMESAKE)
    ensures Lookup(IndexInventory([FOREIGN, NAMESAKE]), UNBOUND_ENTRY) == Some(NAMESAKE)
  {
    var observed := [FOREIGN, NAMESAKE];
    LookupBound(observed, BOUND_ENTRY);
    assert NAMESAKE in observed && SameIdentity(BOUND_ENTRY, NAMESAKE);
    NamesakeLookup(observed, UNBOUND_ENTRY, NAMESAKE);
  }

  lemma EntriesPlanned(o: Options)
    requires !o.dryRun
    ensures var rs := [BOUND_ENTRY, UNBOUND_ENTRY];
            Planned(o, IndexInventory([FOREIGN, NAMESAKE]), RankSorted(rs))
            == [BOUND_ENTRY.(status := Deleting), UNBOUND_ENTRY.(status := Deleting)]
  {
    var rs, inventory := [BOUND_ENTRY, UNBOUND_ENTRY], IndexInventory([FOREIGN, NAMESAKE]);
    assert rs[1..] == [UNBOUND_ENTRY] && [UNBOUND_ENTRY][1..] == [];
    assert Sort([UNBOUND_ENTRY], RankOrder) == [UNBOUND_ENTRY];
    assert RankSorted(rs) == rs;
    EntriesLookedUp();
    assert rs[..1] == [BOUND_ENTRY] && [BOUND_ENTRY][..0] == [];
    assert Planned(o, inventory, [BOUND_ENTRY]) == [BOUND_ENTRY.(status := Deleting)];
  }

  lemma EntriesRemoved()
    ensures var d, d' := BOUND_ENTRY.(status := Deleting), UNBOUND_ENTRY.(status := Deleting);
            RemoveAll([FOREIGN, NAMESAKE], [d]) == [FOREIGN] && RemoveAll([FOREIGN, NAMESAKE], [d, d']) == []
  {
    var d, d', observed := BOUND_ENTRY.(status := Deleting), UNBOUND_ENTRY.(status := Deleting), [FOREIGN, NAMESAKE];
    assert [d][..0] == [] && [d, d'][..1] == [d];
    assert observed[..1] == [FOREIGN] && [FOREIGN][..0] == [];
    assert Remove([FOREIGN], d) == [FOREIGN];
    assert Remove(observed, d) == [FOREIGN];
    assert Remove([FOREIGN], d') == [];
  }

  /**
   * An accepted ledger and inventory on which an error-free pass deletes an owned resource twice over: the second time
   * by kind and name, when the only resource left under that name is not owned.
   */
  lemma UnboundEntryCanNameForeign(s: Services, o: Options)
    requires Reliable(s) && !o.dryRun
    ensures var rs, observed := [BOUND_ENTRY, UNBOUND_ENTRY], [FOREIGN, NAMESAKE];
            var d, d' := BOUND_ENTRY.(status := Deleting), UNBOUND_ENTRY.(status := Deleting);
            && ValidResources(rs) && ValidInventory(observed) && WellFormed(rs, observed) && Deletable1(observed)
            && Deletions(Sweep(s, o, rs, observed).log) == [d, d']
            && !FOREIGN.owned && Matches(d', FOREIGN)
            && RemoveAll(observed, [d]) == [FOREIGN] && RemoveAll(observed, [d, d']) == []
  {
    EntriesAccepted();
    InventoryAccepted();
    EntriesMerged();
    EntriesPlanned(o);
    EntriesRemoved();
    SweepReliable(s, o, [BOUND_ENTRY, UNBOUND_ENTRY], [FOREIGN, NAMESAKE]);
    SweepSettles(s, o, [BOUND_ENTRY, UNBOUND_ENTRY], [FOREIGN, NAMESAKE]);
  }
}
