/** Cleanup finishes: one error-free pass deletes everything owned, and the next one has nothing to do. */
module CleanupConvergence {
  import opened Optional
  import opened Ordering
  import opened CleanupLedger
  import opened CleanupMerge
  import opened CleanupSafety
  import opened CleanupSettle
  import opened CleanupDetails
  import opened CleanupRestart

  // ---- convergence -----------------------------------------------------------------------------

  ghost predicate Reliable(s: Services) {
    && (forall log :: s.save(log) == SaveOk)
    && (forall log, r :: s.delete(log, r) == DeleteOk)
  }

  /** Every owned observation can be deleted now. */
  predicate Deletable1(observed: seq<Observation>) {
    forall j | 0 <= j < |observed| && observed[j].owned ::
      observed[j].live && !observed[j].isProtected && !observed[j].delayed
  }

  /** No entry is finished, tombstoned, refused, or claimed without an identity. */
  predicate Open(rs: seq<Resource>) {
    forall i | 0 <= i < |rs| ::
      rs[i].status == Intended || rs[i].status == Deleting || (rs[i].status == Claimed && rs[i].identity != "")
  }

  predicate NoForeignMatch(rs: seq<Resource>, observed: seq<Observation>) {
    forall i, j | 0 <= i < |rs| && 0 <= j < |observed| && !observed[j].owned :: !Matches(rs[i], observed[j])
  }

  /** The provider forgets what Delete names, by identity or, for an unbound entry, by kind and name. */
  function Remove(observed: seq<Observation>, r: Resource): seq<Observation> {
    if observed == [] then []
    else
      var o := observed[|observed| - 1];
      Remove(observed[..|observed| - 1], r)
      + if o.identity == r.identity || SameName(r, o) then [] else [o]
  }

  function RemoveAll(observed: seq<Observation>, rs: seq<Resource>): seq<Observation> {
    if rs == [] then observed else Remove(RemoveAll(observed, rs[..|rs| - 1]), rs[|rs| - 1])
  }

  lemma {:induction false} RemoveMembers(observed: seq<Observation>, r: Resource)
    ensures forall o :: o in Remove(observed, r) <==> o in observed && o.identity != r.identity && !SameName(r, o)
  {
    if observed != [] {
      var front, o := observed[..|observed| - 1], observed[|observed| - 1];
      RemoveMembers(front, r);
      assert observed == front + [o];
    }
  }

  lemma {:induction false} RemoveKeepsValid(observed: seq<Observation>, r: Resource)
    requires ValidInventory(observed)
    ensures ValidInventory(Remove(observed, r))
  {
    if observed != [] {
      var front, o := observed[..|observed| - 1], observed[|observed| - 1];
      RemoveKeepsValid(front, r);
      RemoveMembers(front, r);
      var rest := Remove(front, r);
      forall i | 0 <= i < |rest| ensures rest[i].identity != o.identity {
        assert rest[i] in front;
        var k :| 0 <= k < |front| && front[k] == rest[i];
        assert observed[k].identity != observed[|front|].identity;
      }
    }
  }

  lemma {:induction false} RemoveAllMembers(observed: seq<Observation>, rs: seq<Resource>)
    ensures forall o | o in RemoveAll(observed, rs) ::
              o in observed && forall i | 0 <= i < |rs| :: o.identity != rs[i].identity
    ensures ValidInventory(observed) ==> ValidInventory(RemoveAll(observed, rs))
  {
    if rs != [] {
      RemoveAllMembers(observed, rs[..|rs| - 1]);
      RemoveMembers(RemoveAll(observed, rs[..|rs| - 1]), rs[|rs| - 1]);
      if ValidInventory(observed) { RemoveKeepsValid(RemoveAll(observed, rs[..|rs| - 1]), rs[|rs| - 1]); }
    }
  }

  lemma TreatReliable(s: Services, o: Options, inventory: map<string, Observation>, index: nat, p: Pass)
    requires Reliable(s) && p.failure.None? && index < |p.resources|
    ensures Treat(s, o, inventory, index, p).failure.None?
  {
  }

  lemma {:induction false} DriveReliable(s: Services, o: Options, inventory: map<string, Observation>,
                                         snapshot: seq<Resource>, p: Pass)
    requires Reliable(s) && p.failure.None?
    ensures Drive(s, o, inventory, snapshot, p).failure.None?
  {
    if snapshot != [] {
      DriveReliable(s, o, inventory, snapshot[..|snapshot| - 1], p);
      var before := Drive(s, o, inventory, snapshot[..|snapshot| - 1], p);
      var index := KeyIndex(before.resources, Key(snapshot[|snapshot| - 1]), 0);
      if index >= 0 {
        TreatReliable(s, o, inventory, index, before);
      }
    }
  }

  lemma SweepReliable(s: Services, o: Options, rs: seq<Resource>, observed: seq<Observation>)
    requires Reliable(s)
    ensures Sweep(s, o, rs, observed).failure.None?
  {
    var start := Start(s, o, rs, observed);
    DriveReliable(s, o, IndexInventory(observed), RankSorted(start.resources), start);
  }

  // ---- what the plan contains, and in which order ----------------------------------------------

  lemma {:induction false} PlannedMembers(o: Options, inventory: map<string, Observation>, snapshot: seq<Resource>, r: Resource)
    requires r in snapshot && WillDelete(o, Lookup(inventory, r), r)
    ensures r.(status := Deleting) in Planned(o, inventory, snapshot)
  {
    var n := |snapshot| - 1;
    if r != snapshot[n] {
      assert snapshot == snapshot[..n] + [snapshot[n]];
      PlannedMembers(o, inventory, snapshot[..n], r);
    }
  }

  // ---- fates under the convergence hypotheses --------------------------------------------------

  predicate Convergent(h: Header, rs: seq<Resource>, observed: seq<Observation>) {
    && ValidLedger(h, rs) && ValidInventory(observed)
    && WellFormed(rs, observed) && FieldsAcceptable(rs, observed)
    && Deletable1(observed) && Open(rs) && NoForeignMatch(rs, observed)
  }

  predicate OpenEntry(r: Resource) {
    r.status == Intended || r.status == Deleting || (r.status == Claimed && r.identity != "")
  }

  lemma UntouchedOpen(rs: seq<Resource>, observed: seq<Observation>, merged: seq<Resource>, i: nat)
    requires Open(rs) && NoForeignMatch(rs, observed) && Untouched(rs, merged, i)
    ensures OpenEntry(merged[i]) && forall o | o in observed && Matches(merged[i], o) :: o.owned
  {
    forall o | o in observed && Matches(merged[i], o) ensures o.owned {
      var j :| 0 <= j < |observed| && observed[j] == o;
      assert Matches(rs[i], observed[j]);
    }
  }

  lemma TouchedOpen(rs: seq<Resource>, observed: seq<Observation>, merged: seq<Resource>, i: nat, k: nat)
    requires Open(rs) && Deletable1(observed) && ValidInventory(observed) && k < |observed| && TouchedBy(rs, merged, i, observed[k])
    ensures OpenEntry(merged[i]) && forall o | o in observed && Matches(merged[i], o) :: o.owned
  {
    assert merged[i].identity == observed[k].identity != "";
    forall o | o in observed && Matches(merged[i], o) ensures o.owned {
      var j :| 0 <= j < |observed| && observed[j] == o;
      OneHolder(observed, j, k);
    }
  }

  lemma MergedEntryOpen(h: Header, rs: seq<Resource>, observed: seq<Observation>, i: nat)
    requires Convergent(h, rs, observed) && i < |Merge(rs, observed)|
    ensures OpenEntry(Merge(rs, observed)[i])
    ensures NoColon(Merge(rs, observed)[i].kind)
    ensures forall o | o in observed && Matches(Merge(rs, observed)[i], o) :: o.owned
  {
    var merged := Merge(rs, observed);
    MergeProvenance(rs, observed);
    MergedKinds(rs, observed);
    assert Explained(rs, observed, merged, i);
    if Untouched(rs, merged, i) {
      UntouchedOpen(rs, observed, merged, i);
    } else {
      var k :| 0 <= k < |observed| && TouchedBy(rs, merged, i, observed[k]);
      TouchedOpen(rs, observed, merged, i, k);
    }
  }

  lemma OneHolder(observed: seq<Observation>, j: nat, k: nat)
    requires ValidInventory(observed) && j < |observed| && k < |observed|
    ensures observed[j].identity == observed[k].identity <==> j == k
  {
    if j < k { assert observed[j].identity != observed[k].identity; }
    if k < j { assert observed[k].identity != observed[j].identity; }
  }

  /** The fate of an open entry, given what its lookup means. */
  lemma OpenFate(o: Options, inventory: map<string, Observation>, r: Resource)
    requires OpenEntry(r) && !o.dryRun
    requires Lookup(inventory, r).Some? ==> Deletable(Lookup(inventory, r))
    ensures Lookup(inventory, r).Some? ==> WillDelete(o, Lookup(inventory, r), r)
    ensures !AddsPending(o, Lookup(inventory, r), r)
    ensures Fate(o, inventory, r).status == Gone || (Fate(o, inventory, r) == r && r.status == Intended
                                                     && Lookup(inventory, r).None?)
  {
  }

  /** Each merged entry is either deleted, found to be gone, or never was created. */
  lemma MergedFate(o: Options, h: Header, rs: seq<Resource>, observed: seq<Observation>, i: nat)
    requires Convergent(h, rs, observed) && i < |Merge(rs, observed)| && !o.dryRun
    ensures var r, inventory := Merge(rs, observed)[i], IndexInventory(observed);
            && (Lookup(inventory, r).Some? <==> exists obs :: obs in observed && Matches(r, obs))
            && (Lookup(inventory, r).Some? ==> WillDelete(o, Lookup(inventory, r), r))
            && !AddsPending(o, Lookup(inventory, r), r)
            && (Fate(o, inventory, r).status == Gone || (Fate(o, inventory, r) == r && r.status == Intended
                                                        && Lookup(inventory, r).None?))
  {
    var r := Merge(rs, observed)[i];
    MergedEntryOpen(h, rs, observed, i);
    MergedLookup(rs, observed, r);
    OpenFate(o, IndexInventory(observed), r);
  }

  lemma MergedLookup(rs: seq<Resource>, observed: seq<Observation>, r: Resource)
    requires Deletable1(observed) && WellFormed(rs, observed) && NoColon(r.kind)
    requires forall obs | obs in observed && Matches(r, obs) :: obs.owned
    ensures var seen := Lookup(IndexInventory(observed), r);
      && (seen.Some? <==> exists obs :: obs in observed && Matches(r, obs))
      && (seen.Some? ==> Deletable(seen))
  {
    forall obs | obs in observed ensures NoColon(obs.kind) {
      var j :| 0 <= j < |observed| && observed[j] == obs;
    }
    if r.identity != "" {
      LookupBound(observed, r);
    } else {
      forall obs | obs in observed ensures !Clashing(r.kind, obs.kind) { NoColonNoClash(r.kind, obs.kind); }
      LookupUnbound(observed, r);
    }
    var seen := Lookup(IndexInventory(observed), r);
    if seen.Some? {
      var j :| 0 <= j < |observed| && observed[j] == seen.value;
      assert observed[j].owned;
    }
  }

  /** The ledger after a converged pass. */
  function Final(s: Services, o: Options, rs: seq<Resource>, observed: seq<Observation>): seq<Resource> {
    Sweep(s, o, rs, observed).resources
  }

  /** The inventory after a converged pass, when only Delete changes the provider. */
  function Left(s: Services, o: Options, rs: seq<Resource>, observed: seq<Observation>): seq<Observation> {
    RemoveAll(observed, Deletions(Sweep(s, o, rs, observed).log))
  }

  predicate Names(rs: seq<Resource>, identity: string) {
    exists k :: 0 <= k < |rs| && rs[k].identity == identity
  }

  lemma PlannedNames(o: Options, inventory: map<string, Observation>, rs: seq<Resource>, i: nat)
    requires i < |rs| && WillDelete(o, Lookup(inventory, rs[i]), rs[i])
    ensures Names(Planned(o, inventory, RankSorted(rs)), rs[i].identity)
  {
    SortMembers(rs, RankOrder, rs[i]);
    PlannedMembers(o, inventory, RankSorted(rs), rs[i]);
  }

  /** An error-free pass deletes every owned observation, by its identity. */
  lemma OwnedAreDeleted(s: Services, o: Options, h: Header, rs: seq<Resource>, observed: seq<Observation>, j: nat)
    requires Convergent(h, rs, observed) && !o.dryRun && Sweep(s, o, rs, observed).failure.None?
    requires j < |observed| && observed[j].owned
    ensures Names(Deletions(Sweep(s, o, rs, observed).log), observed[j].identity)
  {
    var merged := Merge(rs, observed);
    MergedLedgerValidIff(h, rs, observed);
    SweepSettles(s, o, rs, observed);
    MergeCovers(rs, observed, j);
    var i :| HeldBy(merged, observed[j].identity, i);
    HeldIsDeleted(o, h, rs, observed, i, j);
    PlannedNames(o, IndexInventory(observed), merged, i);
  }

  lemma HeldIsDeleted(o: Options, h: Header, rs: seq<Resource>, observed: seq<Observation>, i: nat, j: nat)
    requires Convergent(h, rs, observed) && !o.dryRun
    requires j < |observed| && observed[j].owned && HeldBy(Merge(rs, observed), observed[j].identity, i)
    ensures WillDelete(o, Lookup(IndexInventory(observed), Merge(rs, observed)[i]), Merge(rs, observed)[i])
  {
    MergedFate(o, h, rs, observed, i);
    assert observed[j] in observed && Matches(Merge(rs, observed)[i], observed[j]);
  }

  lemma LeftIsForeign(s: Services, o: Options, h: Header, rs: seq<Resource>, observed: seq<Observation>)
    requires Convergent(h, rs, observed) && !o.dryRun && Sweep(s, o, rs, observed).failure.None?
    ensures ValidInventory(Left(s, o, rs, observed))
    ensures forall obs | obs in Left(s, o, rs, observed) :: obs in observed && !obs.owned
  {
    RemoveAllMembers(observed, Deletions(Sweep(s, o, rs, observed).log));
    forall obs | obs in Left(s, o, rs, observed) ensures !obs.owned {
      var j :| 0 <= j < |observed| && observed[j] == obs;
      if observed[j].owned {
        OwnedAreDeleted(s, o, h, rs, observed, j);
      }
    }
  }

  lemma FinalIsSettled(s: Services, o: Options, h: Header, rs: seq<Resource>, observed: seq<Observation>)
    requires Convergent(h, rs, observed) && !o.dryRun && Sweep(s, o, rs, observed).failure.None?
    ensures |Final(s, o, rs, observed)| == |Merge(rs, observed)|
    ensures forall i | 0 <= i < |Merge(rs, observed)| ::
              var r := Final(s, o, rs, observed)[i];
              r.status == Gone || (r.status == Intended && r == Merge(rs, observed)[i])
    ensures Sweep(s, o, rs, observed).refused == [] && Sweep(s, o, rs, observed).pending == []
  {
    var merged, inventory := Merge(rs, observed), IndexInventory(observed);
    MergedLedgerValidIff(h, rs, observed);
    SweepSettles(s, o, rs, observed);
    StartFacts(s, o, rs, observed);
    forall r | r in RankSorted(merged) ensures !AddsPending(o, Lookup(inventory, r), r) && Fate(o, inventory, r).status != Refused {
      SortMembers(merged, RankOrder, r);
      var i :| 0 <= i < |merged| && merged[i] == r;
      MergedFate(o, h, rs, observed, i);
    }
    forall i | 0 <= i < |merged|
      ensures var r := Final(s, o, rs, observed)[i]; r.status == Gone || (r.status == Intended && r == merged[i])
    {
      MergedFate(o, h, rs, observed, i);
    }
  }

  /** Cleanup convergence, first pass: it reports `complete` exactly when none of its saves and deletions fails. */
  lemma FirstPassCompletes(s: Services, o: Options, h: Header, rs: seq<Resource>, observed: seq<Observation>)
    requires Convergent(h, rs, observed) && !o.dryRun
    ensures var result := Reconcile(s, o, h, rs, Some(observed), Some(Left(s, o, rs, observed)));
            && (result.Reported? <==> Sweep(s, o, rs, observed).failure.None?)
            && (result.Reported? ==>
                  result.report.verdict == Complete && result.report.resources == Final(s, o, rs, observed))
  {
    var p := Sweep(s, o, rs, observed);
    if p.failure.None? {
      LeftIsForeign(s, o, h, rs, observed);
      FinalIsSettled(s, o, h, rs, observed);
      VerdictIff(o, p, Left(s, o, rs, observed));
    }
  }

  lemma {:induction false} MergeNothingOwned(rs: seq<Resource>, observed: seq<Observation>)
    requires forall o | o in observed :: !o.owned
    ensures Merge(rs, observed) == rs
  {
    if observed != [] {
      var n := |observed| - 1;
      assert observed == observed[..n] + [observed[n]];
      MergeNothingOwned(rs, observed[..n]);
    }
  }

  lemma FinalEntryStays(s: Services, o: Options, o': Options, h: Header, rs: seq<Resource>, observed: seq<Observation>, i: nat)
    requires Convergent(h, rs, observed) && !o.dryRun && Sweep(s, o, rs, observed).failure.None?
    requires i < |Final(s, o, rs, observed)|
    ensures Resting(o', IndexInventory(Left(s, o, rs, observed)), Final(s, o, rs, observed)[i])
  {
    var r, left := Final(s, o, rs, observed)[i], Left(s, o, rs, observed);
    FinalIsSettled(s, o, h, rs, observed);
    LeftIsForeign(s, o, h, rs, observed);
    if r.status == Intended {
      MergedEntryOpen(h, rs, observed, i);
      forall obs | obs in left ensures NoColon(obs.kind) {
        var j :| 0 <= j < |observed| && observed[j] == obs;
      }
      if r.identity != "" {
        LookupBound(left, r);
      } else {
        forall obs | obs in left ensures !Clashing(r.kind, obs.kind) { NoColonNoClash(r.kind, obs.kind); }
        LookupUnbound(left, r);
      }
    }
  }

  /** The entry keeps its fate, is not deleted, and holds nothing up. */
  predicate Resting(o: Options, inventory: map<string, Observation>, r: Resource) {
    && Fate(o, inventory, r) == r && !WillDelete(o, Lookup(inventory, r), r)
    && !AddsPending(o, Lookup(inventory, r), r) && (r.status == Gone || r.status == Intended)
  }

  predicate AllRest(o: Options, inventory: map<string, Observation>, rs: seq<Resource>) {
    forall i | 0 <= i < |rs| :: Resting(o, inventory, rs[i])
  }

  /** The passes agree but for the entries reported gone. */
  predicate Idle(p: Pass, q: Pass) {
    q.(gone := p.gone) == p
  }

  lemma TreatIdles(s: Services, o: Options, inventory: map<string, Observation>, index: nat, p: Pass)
    requires index < |p.resources| && Resting(o, inventory, p.resources[index])
    ensures Idle(p, Treat(s, o, inventory, index, p))
  {
  }

  lemma {:induction false} DriveIdles(s: Services, o: Options, inventory: map<string, Observation>, snapshot: seq<Resource>, p: Pass)
    requires AllRest(o, inventory, p.resources)
    ensures Idle(p, Drive(s, o, inventory, snapshot, p))
  {
    if snapshot != [] {
      DriveIdles(s, o, inventory, snapshot[..|snapshot| - 1], p);
      var before := Drive(s, o, inventory, snapshot[..|snapshot| - 1], p);
      var index := KeyIndex(before.resources, Key(snapshot[|snapshot| - 1]), 0);
      if before.failure.None? && index >= 0 {
        TreatIdles(s, o, inventory, index, before);
      }
    }
  }

  /** The one effect of a pass with nothing to do is its first save. */
  predicate FirstSaveWorks(s: Services, o: Options) {
    o.persist ==> s.save([]) == SaveOk
  }

  /** A ledger whose entries all rest, over an inventory with nothing owned, is at rest, whatever the services do. */
  lemma AtRest(s: Services, o: Options, ledger: seq<Resource>, left: seq<Observation>)
    requires forall obs | obs in left :: !obs.owned
    requires AllRest(o, IndexInventory(left), ledger)
    ensures var p := Sweep(s, o, ledger, left);
            && p.resources == ledger && Deletions(p.log) == [] && (p.failure.None? <==> FirstSaveWorks(s, o))
            && Judge(o, p, left).verdict == Complete
  {
    MergeNothingOwned(ledger, left);
    StartFacts(s, o, ledger, left);
    DriveIdles(s, o, IndexInventory(left), RankSorted(ledger), Start(s, o, ledger, left));
    forall i | 0 <= i < |ledger| ensures ledger[i].status == Gone || ledger[i].status == Intended {
      assert Resting(o, IndexInventory(left), ledger[i]);
    }
    VerdictIff(o, Sweep(s, o, ledger, left), left);
  }

  /** Some entry the pass deletes ends, before its detail, in "passwor". */
  predicate SpellsPassword(rs: seq<Resource>, observed: seq<Observation>) {
    exists i | 0 <= i < |Merge(rs, observed)| ::
      EndsInPasswor(Prefix(Merge(rs, observed)[i])) && Observed(Merge(rs, observed)[i], observed)
  }

  predicate Observed(r: Resource, observed: seq<Observation>) {
    exists o | o in observed :: Matches(r, o)
  }

  lemma {:induction false} PlannedFrom(o: Options, inventory: map<string, Observation>, snapshot: seq<Resource>, d: Resource)
    returns (r: Resource)
    requires d in Planned(o, inventory, snapshot)
    ensures r in snapshot && WillDelete(o, Lookup(inventory, r), r) && d == r.(status := Deleting)
  {
    var n := |snapshot| - 1;
    if d in Planned(o, inventory, snapshot[..n]) {
      r := PlannedFrom(o, inventory, snapshot[..n], d);
    } else {
      r := snapshot[n];
    }
  }

  lemma StrandedSpells(o: Options, h: Header, rs: seq<Resource>, observed: seq<Observation>, d: Resource)
    requires Convergent(h, rs, observed) && !o.dryRun
    requires d in Planned(o, IndexInventory(observed), RankSorted(Merge(rs, observed))) && Stranding(d)
    ensures SpellsPassword(rs, observed)
  {
    var merged, inventory := Merge(rs, observed), IndexInventory(observed);
    var r := PlannedFrom(o, inventory, RankSorted(merged), d);
    SortMembers(merged, RankOrder, r);
    var i :| 0 <= i < |merged| && merged[i] == r;
    MergedFate(o, h, rs, observed, i);
    assert Prefix(d) == Prefix(merged[i]);
    assert Observed(merged[i], observed);
  }

  lemma SpellsStranded(o: Options, h: Header, rs: seq<Resource>, observed: seq<Observation>, i: nat)
    requires Convergent(h, rs, observed) && !o.dryRun && i < |Merge(rs, observed)|
    requires EndsInPasswor(Prefix(Merge(rs, observed)[i])) && Observed(Merge(rs, observed)[i], observed)
    ensures exists d | d in Planned(o, IndexInventory(observed), RankSorted(Merge(rs, observed))) :: Stranding(d)
  {
    var merged, inventory := Merge(rs, observed), IndexInventory(observed);
    MergedFate(o, h, rs, observed, i);
    SortMembers(merged, RankOrder, merged[i]);
    PlannedMembers(o, inventory, RankSorted(merged), merged[i]);
    assert Stranding(merged[i].(status := Deleting));
  }

  lemma DeletedSpellsIff(s: Services, o: Options, h: Header, rs: seq<Resource>, observed: seq<Observation>)
    requires Convergent(h, rs, observed) && !o.dryRun && Sweep(s, o, rs, observed).failure.None?
    ensures Stranded(Sweep(s, o, rs, observed).log) <==> SpellsPassword(rs, observed)
  {
    var log := Sweep(s, o, rs, observed).log;
    MergedLedgerValidIff(h, rs, observed);
    SweepSettles(s, o, rs, observed);
    if Stranded(log) {
      var d :| d in Deletions(log) && Stranding(d);
      StrandedSpells(o, h, rs, observed, d);
    } else if SpellsPassword(rs, observed) {
      var i :| 0 <= i < |Merge(rs, observed)| && EndsInPasswor(Prefix(Merge(rs, observed)[i]))
               && Observed(Merge(rs, observed)[i], observed);
      SpellsStranded(o, h, rs, observed, i);
    }
  }

  lemma AgainAtRest(s: Services, o: Options, s': Services, o': Options, h: Header, rs: seq<Resource>,
                    observed: seq<Observation>)
    requires Convergent(h, rs, observed) && !o.dryRun && Sweep(s, o, rs, observed).failure.None?
    requires ValidLedger(h, Final(s, o, rs, observed))
    ensures var left, ledger := Left(s, o, rs, observed), Final(s, o, rs, observed);
            var again := Reconcile(s', o', h, ledger, Some(left), Some(left));
            && Deletions(Log(s', o', h, ledger, Some(left))) == [] && (again.Reported? <==> FirstSaveWorks(s', o'))
            && (again.Reported? ==> again.report.verdict == Complete && again.report.resources == ledger)
  {
    var left, ledger := Left(s, o, rs, observed), Final(s, o, rs, observed);
    LeftIsForeign(s, o, h, rs, observed);
    forall i | 0 <= i < |ledger| ensures Resting(o', IndexInventory(left), ledger[i]) {
      FinalEntryStays(s, o, o', h, rs, observed, i);
    }
    AtRest(s', o', ledger, left);
  }

  /** A pass that reports `complete` with the ledger it was given. */
  predicate Idles(again: Result, ledger: seq<Resource>) {
    again.Reported? && again.report.verdict == Complete && again.report.resources == ledger
  }

  /**
   * Cleanup convergence, any next pass, with other services and options: it deletes nothing. It reports `complete`
   * exactly when its first save works and no deleted entry spells a sensitive word with the text that records its
   * deletion; if one does, it refuses the ledger.
   */
  lemma SecondPassIdlesIff(s: Services, o: Options, s': Services, o': Options, h: Header, rs: seq<Resource>,
                           observed: seq<Observation>)
    requires Convergent(h, rs, observed) && !o.dryRun && Sweep(s, o, rs, observed).failure.None?
    ensures var left, ledger := Left(s, o, rs, observed), Final(s, o, rs, observed);
            var again := Reconcile(s', o', h, ledger, Some(left), Some(left));
            && Deletions(Log(s', o', h, ledger, Some(left))) == []
            && (Idles(again, ledger) <==> !SpellsPassword(rs, observed) && FirstSaveWorks(s', o'))
            && (SpellsPassword(rs, observed) ==> again == Aborted(BadLedger))
  {
    var ledger := Final(s, o, rs, observed);
    MergedLedgerValidIff(h, rs, observed);
    ReportedLedgerRestarts(s, o, h, rs, observed);
    DeletedSpellsIff(s, o, h, rs, observed);
    if ValidLedger(h, ledger) {
      AgainAtRest(s, o, s', o', h, rs, observed);
    }
  }
}
