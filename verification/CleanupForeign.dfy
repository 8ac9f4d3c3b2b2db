/** When a pass calls Delete for an entry that names a resource nobody confirmed as owned. */
module CleanupForeign {
  import opened CleanupLedger
  import opened CleanupMerge
  import opened CleanupSafety
  import opened CleanupSettle
  import opened CleanupOrder
  import opened CleanupDue

  // ---- one pass --------------------------------------------------------------------------------

  /** Some Delete call names, by identity or by kind and name, an observed resource that is not owned. */
  predicate NamesForeign(log: seq<Event>, observed: seq<Observation>) {
    exists d, o | d in Attempts(log) && o in observed :: !o.owned && Matches(d, o)
  }

  predicate ForeignNamesake(observed: seq<Observation>, r: Resource) {
    exists o | o in observed :: !o.owned && SameName(r, o)
  }

  /** Every owned observation of the entry's kind and name belongs to another entry by identity. */
  predicate LeftUnbound(rs: seq<Resource>, observed: seq<Observation>, r: Resource) {
    forall m | 0 <= m < |observed| && observed[m].owned && SameName(r, observed[m]) :: IdentityMatch(rs, observed[m], 0) >= 0
  }

  /** An unbound entry whose lookup finds a deletable resource while an unowned one shares its kind and name. */
  predicate Exposed(rs: seq<Resource>, observed: seq<Observation>, n: nat) {
    && n < |rs| && rs[n].identity == "" && !Absorbing(rs[n].status)
    && ForeignNamesake(observed, rs[n]) && LeftUnbound(rs, observed, rs[n])
    && Deletable(Lookup(IndexInventory(observed), rs[n]))
    && (n < |Merge(rs, observed)| ==> !Shadowed(Merge(rs, observed), n))
  }

  lemma LeftUnboundIff(rs: seq<Resource>, observed: seq<Observation>, n: nat)
    requires n < |rs|
    ensures LeftUnbound(rs, observed, rs[n]) <==> !Taken(rs, observed, n)
  {
    if !LeftUnbound(rs, observed, rs[n]) {
      var m :| 0 <= m < |observed| && observed[m].owned && SameName(rs[n], observed[m]) && IdentityMatch(rs, observed[m], 0) < 0;
      assert Takes(rs, observed, n, m);
    }
    if Taken(rs, observed, n) {
      var m :| 0 <= m < |observed| && Takes(rs, observed, n, m);
      assert observed[m].owned;
    }
  }

  lemma SameIdentitySame(observed: seq<Observation>, a: Observation, b: Observation)
    requires ValidInventory(observed) && a in observed && b in observed && a.identity == b.identity
    ensures a == b
  {
    var i :| 0 <= i < |observed| && observed[i] == a;
    var k :| 0 <= k < |observed| && observed[k] == b;
    assert i == k;
  }

  /** A deletable entry that names an unowned resource carries no identity. */
  lemma ForeignIsByName(observed: seq<Observation>, r: Resource, o: Observation)
    requires ValidInventory(observed) && Deletable(Lookup(IndexInventory(observed), r))
    requires o in observed && !o.owned && Matches(r, o)
    ensures r.identity == "" && SameName(r, o)
  {
    if r.identity != "" {
      LookupBound(observed, r);
      SameIdentitySame(observed, Lookup(IndexInventory(observed), r).value, o);
    }
  }

  lemma DueForeignIsExposed(options: Options, rs: seq<Resource>, observed: seq<Observation>, k: nat, o: Observation)
    requires ValidResources(rs) && ValidInventory(observed)
    requires Due(options, IndexInventory(observed), Merge(rs, observed), k)
    requires o in observed && !o.owned && Matches(Merge(rs, observed)[k], o)
    ensures Exposed(rs, observed, k)
  {
    ForeignIsByName(observed, Merge(rs, observed)[k], o);
    UnboundIsOld(rs, observed, k);
    UnboundIff(rs, observed, k);
    LeftUnboundIff(rs, observed, k);
    assert ForeignNamesake(observed, rs[k]);
  }

  lemma ExposedIsDue(options: Options, rs: seq<Resource>, observed: seq<Observation>, n: nat)
    requires ValidResources(rs) && ValidInventory(observed) && Exposed(rs, observed, n) && !options.dryRun
    ensures Due(options, IndexInventory(observed), Merge(rs, observed), n) && Merge(rs, observed)[n] == rs[n]
  {
    UnboundIff(rs, observed, n);
    LeftUnboundIff(rs, observed, n);
    UnboundIsOld(rs, observed, n);
  }

  lemma NamedIsExposed(o: Options, rs: seq<Resource>, observed: seq<Observation>, log: seq<Event>) returns (k: nat)
    requires ValidResources(rs) && ValidInventory(observed) && NamesForeign(log, observed)
    requires OnlyDue(o, IndexInventory(observed), Merge(rs, observed), Attempts(log))
    ensures Exposed(rs, observed, k)
  {
    var merged := Merge(rs, observed);
    var d, obs :| d in Attempts(log) && obs in observed && !obs.owned && Matches(d, obs);
    k :| 0 <= k < |merged| && Due(o, IndexInventory(observed), merged, k) && d == merged[k].(status := Deleting);
    DueForeignIsExposed(o, rs, observed, k, obs);
  }

  lemma ExposedIsNamed(o: Options, rs: seq<Resource>, observed: seq<Observation>, log: seq<Event>, n: nat)
    requires ValidResources(rs) && ValidInventory(observed) && !o.dryRun && Exposed(rs, observed, n)
    requires forall k | 0 <= k < |Merge(rs, observed)| && Due(o, IndexInventory(observed), Merge(rs, observed), k) ::
               Merge(rs, observed)[k].(status := Deleting) in Attempts(log)
    ensures NamesForeign(log, observed)
  {
    ExposedIsDue(o, rs, observed, n);
    var obs :| obs in observed && !obs.owned && SameName(rs[n], obs);
    assert Matches(rs[n].(status := Deleting), obs);
  }

  ghost predicate Exposes(rs: seq<Resource>, observed: seq<Observation>) {
    exists n :: Exposed(rs, observed, n)
  }

  /**
   * Whatever fails, a pass calls Delete for an entry that names an unowned resource only where an entry is exposed;
   * an error-free pass that is no dry run does so exactly then.
   */
  lemma DeletesOnlyOwnedIff(s: Services, o: Options, rs: seq<Resource>, observed: seq<Observation>)
    requires ValidResources(rs) && ValidInventory(observed)
    ensures NamesForeign(Sweep(s, o, rs, observed).log, observed) ==> Exposes(rs, observed)
    ensures Sweep(s, o, rs, observed).failure.None? && !o.dryRun ==>
              (NamesForeign(Sweep(s, o, rs, observed).log, observed) <==> Exposes(rs, observed))
  {
    var p := Sweep(s, o, rs, observed);
    SweepDue(s, o, rs, observed);
    if NamesForeign(p.log, observed) {
      var k := NamedIsExposed(o, rs, observed, p.log);
    } else if p.failure.None? && !o.dryRun && Exposes(rs, observed) {
      var n :| Exposed(rs, observed, n);
      ExposedIsNamed(o, rs, observed, p.log, n);
    }
  }

  // ---- any number of passes --------------------------------------------------------------------

  lemma {:induction false} AttemptsPrefix(log: seq<Event>, n: nat)
    requires n <= |log|
    ensures forall d | d in Attempts(log[..n]) :: d in Attempts(log)
  {
    if n < |log| {
      AttemptsPrefix(log[..|log| - 1], n);
      assert log[..|log| - 1][..n] == log[..n];
    } else {
      assert log[..n] == log;
    }
  }

  /** Over every sequence of passes: a Delete call names an unowned resource only where the ledger on disk exposes one. */
  lemma RunDeletesOnlyOwned(h: Header, rs: seq<Resource>, attempts: seq<Attempt>, k: nat)
    requires k < |attempts| && attempts[k].observed.Some?
    requires NamesForeign(Effects(h, Run(h, rs, attempts[..k]), attempts[k]), attempts[k].observed.value)
    ensures Exposes(Run(h, rs, attempts[..k]), attempts[k].observed.value)
  {
    var a, before, observed := attempts[k], Run(h, rs, attempts[..k]), attempts[k].observed.value;
    var log, effects := Log(a.services, a.options, h, before, a.observed), Effects(h, before, a);
    AttemptsPrefix(log, |effects|);
    var d, o :| d in Attempts(effects) && o in observed && !o.owned && Matches(d, o);
    assert d in Attempts(log);
    assert NamesForeign(log, observed);
    DeletesOnlyOwnedIff(a.services, a.options, before, observed);
  }
}
