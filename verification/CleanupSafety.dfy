/** Properties of every reachable effect: write-ahead deletion, and a ledger that only moves forward. */
module CleanupSafety {
  import opened CleanupTexts
  import opened Optional
  import opened CleanupLedger
  import opened CleanupMerge

  // ---- write-ahead deletion --------------------------------------------------------------------

  /** The one kind of observation that licenses a deletion. */
  predicate Deletable(seen: Option<Observation>) {
    seen.Some? && seen.value.owned && seen.value.live && !seen.value.isProtected && !seen.value.delayed
  }

  /** The event just before a deletion saved, successfully, a ledger that marks the entry as deleting. */
  predicate Announced(log: seq<Event>, i: nat) {
    && 0 < i < |log| && log[i].Delete?
    && log[i - 1].Save? && log[i - 1].saved == SaveOk && log[i].resource in log[i - 1].resources
  }

  predicate SafeAt(persist: bool, inventory: map<string, Observation>, log: seq<Event>, i: nat)
    requires i < |log|
  {
    log[i].Delete? ==>
      && log[i].resource.status == Deleting
      && Deletable(Lookup(inventory, log[i].resource))
      && (persist ==> Announced(log, i))
  }

  predicate SafeLog(persist: bool, inventory: map<string, Observation>, log: seq<Event>) {
    forall i | 0 <= i < |log| :: SafeAt(persist, inventory, log, i)
  }

  lemma SafeAppend(persist: bool, inventory: map<string, Observation>, log: seq<Event>, e: Event)
    requires SafeLog(persist, inventory, log)
    requires SafeAt(persist, inventory, log + [e], |log|)
    ensures SafeLog(persist, inventory, log + [e])
  {
    forall i | 0 <= i < |log + [e]| ensures SafeAt(persist, inventory, log + [e], i) {
      if i < |log| { assert SafeAt(persist, inventory, log, i); }
    }
  }

  lemma PersistSafe(s: Services, o: Options, inventory: map<string, Observation>, p: Pass)
    requires SafeLog(o.persist, inventory, p.log)
    ensures SafeLog(o.persist, inventory, Persist(s, o, p).log)
    ensures Persist(s, o, p).resources == p.resources
    ensures Persist(s, o, p).failure.None? && o.persist ==>
              Persist(s, o, p).log == p.log + [Save(p.resources, SaveOk)]
  {
    if o.persist {
      SafeAppend(o.persist, inventory, p.log, Save(p.resources, s.save(p.log)));
    }
  }

  lemma DeleteLiveSafe(s: Services, o: Options, inventory: map<string, Observation>, index: nat, p: Pass)
    requires index < |p.resources| && p.failure.None? && SafeLog(o.persist, inventory, p.log)
    requires Deletable(Lookup(inventory, p.resources[index]))
    ensures SafeLog(o.persist, inventory, DeleteLive(s, o, index, p).log)
  {
    var deleting := p.resources[index].(status := Deleting);
    var p0 := Put(p, index, deleting);
    var p1 := Persist(s, o, p0);
    PersistSafe(s, o, inventory, p0);
    if p1.failure.None? {
      var outcome := s.delete(p1.log, deleting);
      var p2 := p1.(log := p1.log + [Delete(deleting, outcome)]);
      assert p1.resources[index] == deleting;
      assert Lookup(inventory, deleting) == Lookup(inventory, p.resources[index]);
      SafeAppend(o.persist, inventory, p1.log, Delete(deleting, outcome));
      match outcome
      case DeleteFailed(m) =>
        PersistSafe(s, o, inventory, Put(p2, index, deleting.(detail := FailureDetail(m))));
      case DeleteOk =>
        var p3 := Put(p2, index, deleting.(status := Gone, detail := DELETED));
        PersistSafe(s, o, inventory, p3.(deleted := p3.deleted + [Key(deleting)]));
    }
  }

  lemma TreatSafe(s: Services, o: Options, inventory: map<string, Observation>, index: nat, p: Pass)
    requires index < |p.resources| && p.failure.None? && SafeLog(o.persist, inventory, p.log)
    ensures SafeLog(o.persist, inventory, Treat(s, o, inventory, index, p).log)
  {
    var r := p.resources[index];
    var seen := Lookup(inventory, r);
    if r.status == Gone || r.status == Refused || r.status == Tombstone {
    } else if seen.Some? && !seen.value.owned {
      PersistSafe(s, o, inventory, Put(p, index, r.(status := Refused, detail := UNCONFIRMED)).(refused := p.refused + [Key(r)]));
    } else if seen.Some? && seen.value.isProtected {
      PersistSafe(s, o, inventory, Put(p, index, r.(status := Claimed, detail := PROTECTED)).(pending := p.pending + [Key(r)]));
    } else if seen.Some? && seen.value.delayed {
      PersistSafe(s, o, inventory, Put(p, index, r.(status := Tombstone, detail := DELAYED)).(pending := p.pending + [Key(r)]));
    } else if seen.None? && r.identity == "" && r.status == Claimed {
    } else if seen.None? && (r.status == Claimed || r.status == Deleting) {
      PersistSafe(s, o, inventory, Put(p, index, r.(status := Gone, detail := VANISHED)).(gone := p.gone + [Key(r)]));
    } else if seen.Some? && seen.value.live && !o.dryRun {
      DeleteLiveSafe(s, o, inventory, index, p);
    }
  }

  lemma {:induction false} DriveSafe(s: Services, o: Options, inventory: map<string, Observation>, snapshot: seq<Resource>, p: Pass)
    requires p.failure.None? && SafeLog(o.persist, inventory, p.log)
    ensures SafeLog(o.persist, inventory, Drive(s, o, inventory, snapshot, p).log)
  {
    if snapshot != [] {
      DriveSafe(s, o, inventory, snapshot[..|snapshot| - 1], p);
      var before := Drive(s, o, inventory, snapshot[..|snapshot| - 1], p);
      var index := KeyIndex(before.resources, Key(snapshot[|snapshot| - 1]), 0);
      if before.failure.None? && index >= 0 {
        TreatSafe(s, o, inventory, index, before);
      }
    }
  }

  lemma SweepSafe(s: Services, o: Options, rs: seq<Resource>, observed: seq<Observation>)
    ensures SafeLog(o.persist, IndexInventory(observed), Sweep(s, o, rs, observed).log)
  {
    PersistSafe(s, o, IndexInventory(observed), Pass(Merge(rs, observed), [], [], [], [], [], None));
    var start := Start(s, o, rs, observed);
    if start.failure.None? {
      DriveSafe(s, o, IndexInventory(observed), RankSorted(start.resources), start);
    }
  }

  // ---- the inventory index ---------------------------------------------------------------------

  predicate Produces(o: Observation, key: string) {
    key == IdKey(o.identity) || (o.name != "" && key == NameKey(o.kind, o.name))
  }

  lemma {:induction false} IndexSound(observed: seq<Observation>, key: string)
    requires key in IndexInventory(observed)
    ensures IndexInventory(observed)[key] in observed && Produces(IndexInventory(observed)[key], key)
  {
    var n := |observed| - 1;
    if !Produces(observed[n], key) {
      IndexSound(observed[..n], key);
    }
  }

  lemma {:induction false} IndexComplete(observed: seq<Observation>, o: Observation, key: string)
    requires o in observed && Produces(o, key)
    ensures key in IndexInventory(observed)
  {
    var n := |observed| - 1;
    if o != observed[n] {
      IndexComplete(observed[..n], o, key);
    }
  }

  lemma KeysOfTwoKinds(identity: string, kind: string, name: string, other: string)
    ensures IdKey(identity) != NameKey(kind, name)
    ensures IdKey(identity) == IdKey(other) ==> identity == other
  {
    assert IdKey(identity)[0] == 'i' && NameKey(kind, name)[0] == 'n';
    assert IdKey(identity)[3..] == identity && IdKey(other)[3..] == other;
  }

  /** One kind is the other followed by the separator and possibly more. */
  predicate Clashing(kind: string, kind': string) {
    kind + ":" <= kind' || kind' + ":" <= kind
  }

  lemma NameKeyTail(kind: string, name: string)
    ensures NameKey(kind, name) == "name:" + (kind + ":" + name) && NameKey(kind, name)[5..] == kind + ":" + name
  {
  }

  lemma SameKeyClashes(kind: string, name: string, kind': string, name': string)
    requires |kind| < |kind'| && kind + ":" + name == kind' + ":" + name'
    ensures kind + ":" <= kind'
  {
    var s := kind + ":" + name;
    assert s[..|kind| + 1] == kind + ":" && s == kind' + (":" + name');
    assert s[..|kind'|] == kind';
    assert kind'[..|kind| + 1] == s[..|kind| + 1];
  }

  lemma SameLengthSplits(kind: string, name: string, kind': string, name': string)
    requires |kind| == |kind'| && kind + ":" + name == kind' + ":" + name'
    ensures kind == kind' && name == name'
  {
    var s := kind + ":" + name;
    assert s[..|kind|] == kind && s[|kind| + 1..] == name;
    assert s[..|kind'|] == kind' && s[|kind'| + 1..] == name';
  }

  lemma NameKeySplits(kind: string, name: string, kind': string, name': string)
    requires !Clashing(kind, kind') && NameKey(kind, name) == NameKey(kind', name')
    ensures kind == kind' && name == name'
  {
    NameKeyTail(kind, name);
    NameKeyTail(kind', name');
    if |kind| < |kind'| {
      SameKeyClashes(kind, name, kind', name');
    } else if |kind'| < |kind| {
      SameKeyClashes(kind', name', kind, name);
    } else {
      SameLengthSplits(kind, name, kind', name');
    }
  }

  lemma ExtensionHasColon(kind: string, longer: string)
    ensures kind + ":" <= longer ==> ':' in longer
  {
    if kind + ":" <= longer {
      assert longer[|kind|] == (kind + ":")[|kind|];
    }
  }

  lemma NoColonNoClash(kind: string, kind': string)
    requires NoColon(kind) && NoColon(kind')
    ensures !Clashing(kind, kind')
  {
    ExtensionHasColon(kind, kind');
    ExtensionHasColon(kind', kind);
  }

  /** A bound entry is looked up by its identity alone. */
  lemma LookupBound(observed: seq<Observation>, r: Resource)
    requires r.identity != ""
    ensures var seen := Lookup(IndexInventory(observed), r);
            && (seen.Some? ==> seen.value in observed && SameIdentity(r, seen.value))
            && (seen.None? ==> forall o | o in observed :: !SameIdentity(r, o))
  {
    var index := IndexInventory(observed);
    if IdKey(r.identity) in index {
      IndexSound(observed, IdKey(r.identity));
      var o := index[IdKey(r.identity)];
      KeysOfTwoKinds(r.identity, o.kind, o.name, o.identity);
    } else {
      forall o | o in observed ensures !SameIdentity(r, o) {
        if SameIdentity(r, o) { IndexComplete(observed, o, IdKey(o.identity)); }
      }
    }
  }

  /** The lookup of an unbound entry finds an observation of its kind and name, or there is none. */
  predicate LooksUpRight(observed: seq<Observation>, r: Resource) {
    var seen := Lookup(IndexInventory(observed), r);
    && (seen.Some? ==> seen.value in observed && SameName(r, seen.value))
    && (seen.None? ==> forall o | o in observed :: !SameName(r, o))
  }

  /** An unbound entry is looked up by kind and name while no observed kind clashes with its own. */
  lemma LookupUnbound(observed: seq<Observation>, r: Resource)
    requires r.identity == "" && forall o | o in observed :: !Clashing(r.kind, o.kind)
    ensures LooksUpRight(observed, r)
  {
    var index, key := IndexInventory(observed), NameKey(r.kind, r.name);
    if r.name != "" && key in index {
      IndexSound(observed, key);
      var o := index[key];
      KeysOfTwoKinds(o.identity, r.kind, r.name, "");
      NameKeySplits(r.kind, r.name, o.kind, o.name);
    } else {
      forall o | o in observed ensures !SameName(r, o) {
        if SameName(r, o) { IndexComplete(observed, o, key); }
      }
    }
  }

  lemma ClashHasWitness(kind: string, kind': string) returns (r: Resource, o: Observation)
    requires Clashing(kind, kind')
    ensures r.identity == "" && r.kind == kind && o.kind == kind' && !LooksUpRight([o], r)
  {
    var name, name' := "n", "n";
    if kind + ":" <= kind' {
      var more := kind'[|kind| + 1..];
      assert kind' == kind + ":" + more;
      name := more + ":" + "n";
      assert kind' + ":" + "n" == kind + ":" + name;
    } else {
      var more := kind[|kind'| + 1..];
      assert kind == kind' + ":" + more;
      name' := more + ":" + "n";
      assert kind + ":" + "n" == kind' + ":" + name';
    }
    NameKeyTail(kind, name);
    NameKeyTail(kind', name');
    r := Resource(kind, "", name, "", 0, Claimed, "");
    o := Observation(kind', "", name', "id", true, true, false, false);
    assert [o][..0] == [];
    assert IndexInventory([o][..0]) == map[];
    assert Lookup(IndexInventory([o]), r) == Some(o);
  }

  /** Lookups over a set of kinds are always right exactly when no two of the kinds clash. */
  lemma LookupRightIff(kinds: set<string>)
    ensures (forall observed: seq<Observation>, r: Resource |
               r.identity == "" && r.kind in kinds && (forall o | o in observed :: o.kind in kinds) ::
               LooksUpRight(observed, r))
       <==> forall k, k' | k in kinds && k' in kinds :: !Clashing(k, k')
  {
    if forall k, k' | k in kinds && k' in kinds :: !Clashing(k, k') {
      forall observed: seq<Observation>, r: Resource |
        r.identity == "" && r.kind in kinds && (forall o | o in observed :: o.kind in kinds)
        ensures LooksUpRight(observed, r)
      {
        LookupUnbound(observed, r);
      }
    } else {
      var k, k' :| k in kinds && k' in kinds && Clashing(k, k');
      var r, o := ClashHasWitness(k, k');
      assert forall x | x in [o] :: x.kind in kinds;
    }
  }

  /** With a separator in a kind the lookup finds an observation of another kind and another name. */
  lemma ColonInKindConfusesLookup()
    ensures var r := Resource("db", "", "a:b", "", 0, Claimed, "");
            var o := Observation("db:a", "", "b", "id-7", true, true, false, false);
            Lookup(IndexInventory([o]), r) == Some(o) && !Matches(r, o)
  {
    var o := Observation("db:a", "", "b", "id-7", true, true, false, false);
    assert [o][..0] == [];
    assert IndexInventory([o][..0]) == map[];
    assert NameKey("db", "a:b") == NameKey("db:a", "b") by {
      assert "db" + ":" + "a:b" == "db:a" + ":" + "b";
      assert NameKey("db", "a:b") == "name:" + ("db" + ":" + "a:b");
      assert NameKey("db:a", "b") == "name:" + ("db:a" + ":" + "b");
    }
  }

  // ---- the ledger only moves forward -----------------------------------------------------------

  predicate Absorbing(s: Status) {
    s == Gone || s == Refused || s == Tombstone
  }

  predicate Follows(a: Resource, b: Resource) {
    && (a.kind != "" ==> b.kind == a.kind)
    && (a.role != "" ==> b.role == a.role)
    && (a.name != "" ==> b.name == a.name)
    && (a.identity != "" ==> b.identity == a.identity)
    && (a.rank != 0 ==> b.rank == a.rank)
    && (Absorbing(a.status) ==> b.status == a.status)
    && (b.status == Intended ==> a.status == Intended)
  }

  /** Entries are only appended, bound fields stay, and gone, refused and tombstone are final. */
  predicate Evolves(before: seq<Resource>, after: seq<Resource>) {
    |before| <= |after| && forall i | 0 <= i < |before| :: Follows(before[i], after[i])
  }

  lemma {:induction false} MergeEvolves(rs: seq<Resource>, observed: seq<Observation>)
    ensures Evolves(rs, Merge(rs, observed))
  {
    if observed != [] {
      MergeEvolves(rs, observed[..|observed| - 1]);
    }
  }

  /** Every saved ledger in `log` lies between `rs` and `now`, and later ones follow earlier ones. */
  predicate Chronicle(rs: seq<Resource>, log: seq<Event>, now: seq<Resource>) {
    && Evolves(rs, now)
    && (forall i | 0 <= i < |log| && log[i].Save? ::
          Evolves(rs, log[i].resources) && Evolves(log[i].resources, now))
    && (forall i, j | 0 <= i < j < |log| && log[i].Save? && log[j].Save? ::
          Evolves(log[i].resources, log[j].resources))
  }

  lemma EvolvesTransitive(a: seq<Resource>, b: seq<Resource>, c: seq<Resource>)
    requires Evolves(a, b) && Evolves(b, c)
    ensures Evolves(a, c)
  {
    forall i | 0 <= i < |a| ensures Follows(a[i], c[i]) {
      assert Follows(a[i], b[i]) && Follows(b[i], c[i]);
    }
  }

  lemma ChronicleAdvances(rs: seq<Resource>, log: seq<Event>, now: seq<Resource>, next: seq<Resource>)
    requires Chronicle(rs, log, now) && Evolves(now, next)
    ensures Chronicle(rs, log, next)
  {
    EvolvesTransitive(rs, now, next);
    forall i | 0 <= i < |log| && log[i].Save? ensures Evolves(log[i].resources, next) {
      EvolvesTransitive(log[i].resources, now, next);
    }
  }

  lemma PutEvolves(p: Pass, index: nat, r: Resource)
    requires index < |p.resources| && Follows(p.resources[index], r)
    ensures Evolves(p.resources, Put(p, index, r).resources)
  {
  }

  lemma PutChronicle(rs: seq<Resource>, p: Pass, index: nat, r: Resource)
    requires index < |p.resources| && Follows(p.resources[index], r)
    requires Chronicle(rs, p.log, p.resources)
    ensures Chronicle(rs, p.log, p.resources[index := r])
  {
    PutEvolves(p, index, r);
    ChronicleAdvances(rs, p.log, p.resources, p.resources[index := r]);
  }

  lemma PersistChronicle(s: Services, o: Options, rs: seq<Resource>, p: Pass)
    requires Chronicle(rs, p.log, p.resources)
    ensures Chronicle(rs, Persist(s, o, p).log, Persist(s, o, p).resources)
  {
    var log := Persist(s, o, p).log;
    forall i, j | 0 <= i < j < |log| && log[i].Save? && log[j].Save?
      ensures Evolves(log[i].resources, log[j].resources)
    {
    }
  }

  lemma DeleteLiveChronicle(s: Services, o: Options, rs: seq<Resource>, index: nat, p: Pass)
    requires index < |p.resources| && Chronicle(rs, p.log, p.resources)
    requires !Absorbing(p.resources[index].status)
    ensures var q := DeleteLive(s, o, index, p); Chronicle(rs, q.log, q.resources)
  {
    var deleting := p.resources[index].(status := Deleting);
    var p0 := Put(p, index, deleting);
    PutChronicle(rs, p, index, deleting);
    var p1 := Persist(s, o, p0);
    PersistChronicle(s, o, rs, p0);
    if p1.failure.None? {
      var outcome := s.delete(p1.log, deleting);
      var p2 := p1.(log := p1.log + [Delete(deleting, outcome)]);
      assert p2.resources[index] == deleting;
      match outcome
      case DeleteFailed(m) =>
        PutChronicle(rs, p2, index, deleting.(detail := FailureDetail(m)));
        PersistChronicle(s, o, rs, Put(p2, index, deleting.(detail := FailureDetail(m))));
      case DeleteOk =>
        var gone := deleting.(status := Gone, detail := DELETED);
        PutChronicle(rs, p2, index, gone);
        PersistChronicle(s, o, rs, Put(p2, index, gone).(deleted := p2.deleted + [Key(deleting)]));
    }
  }

  lemma TreatChronicle(s: Services, o: Options, rs: seq<Resource>, inventory: map<string, Observation>, index: nat, p: Pass)
    requires index < |p.resources| && Chronicle(rs, p.log, p.resources)
    ensures var q := Treat(s, o, inventory, index, p); Chronicle(rs, q.log, q.resources)
  {
    var r := p.resources[index];
    var seen := Lookup(inventory, r);
    if Absorbing(r.status) {
    } else if seen.Some? && !seen.value.owned {
      var r' := r.(status := Refused, detail := UNCONFIRMED);
      PutChronicle(rs, p, index, r');
      PersistChronicle(s, o, rs, Put(p, index, r').(refused := p.refused + [Key(r)]));
    } else if seen.Some? && seen.value.isProtected {
      var r' := r.(status := Claimed, detail := PROTECTED);
      PutChronicle(rs, p, index, r');
      PersistChronicle(s, o, rs, Put(p, index, r').(pending := p.pending + [Key(r)]));
    } else if seen.Some? && seen.value.delayed {
      var r' := r.(status := Tombstone, detail := DELAYED);
      PutChronicle(rs, p, index, r');
      PersistChronicle(s, o, rs, Put(p, index, r').(pending := p.pending + [Key(r)]));
    } else if seen.None? && r.identity == "" && r.status == Claimed {
    } else if seen.None? && (r.status == Claimed || r.status == Deleting) {
      var r' := r.(status := Gone, detail := VANISHED);
      PutChronicle(rs, p, index, r');
      PersistChronicle(s, o, rs, Put(p, index, r').(gone := p.gone + [Key(r)]));
    } else if seen.Some? && seen.value.live && !o.dryRun {
      DeleteLiveChronicle(s, o, rs, index, p);
    }
  }

  lemma {:induction false} DriveChronicle(s: Services, o: Options, rs: seq<Resource>, inventory: map<string, Observation>,
                                          snapshot: seq<Resource>, p: Pass)
    requires Chronicle(rs, p.log, p.resources)
    ensures var q := Drive(s, o, inventory, snapshot, p); Chronicle(rs, q.log, q.resources)
  {
    if snapshot != [] {
      DriveChronicle(s, o, rs, inventory, snapshot[..|snapshot| - 1], p);
      var before := Drive(s, o, inventory, snapshot[..|snapshot| - 1], p);
      var index := KeyIndex(before.resources, Key(snapshot[|snapshot| - 1]), 0);
      if before.failure.None? && index >= 0 {
        TreatChronicle(s, o, rs, inventory, index, before);
      }
    }
  }

  lemma SweepChronicle(s: Services, o: Options, rs: seq<Resource>, observed: seq<Observation>)
    ensures var q := Sweep(s, o, rs, observed); Chronicle(rs, q.log, q.resources)
  {
    MergeEvolves(rs, observed);
    PersistChronicle(s, o, rs, Pass(Merge(rs, observed), [], [], [], [], [], None));
    var start := Start(s, o, rs, observed);
    if start.failure.None? {
      DriveChronicle(s, o, rs, IndexInventory(observed), RankSorted(start.resources), start);
    }
  }

  // ---- any number of passes, each interrupted anywhere -----------------------------------------

  /** What the disk holds after `log`, having held `rs` before. */
  function Survives(rs: seq<Resource>, log: seq<Event>): seq<Resource> {
    if log == [] then rs
    else
      var last := log[|log| - 1];
      if last.Save? && last.saved != SaveLost then last.resources else Survives(rs, log[..|log| - 1])
  }

  /** One pass, stopped after its first `effects` effects (or run to its end when there are fewer). */
  datatype Attempt = Attempt(services: Services, options: Options, observed: Option<seq<Observation>>, effects: nat)

  function Effects(h: Header, rs: seq<Resource>, a: Attempt): seq<Event> {
    var log := Log(a.services, a.options, h, rs, a.observed);
    if a.effects < |log| then log[..a.effects] else log
  }

  function Run(h: Header, rs: seq<Resource>, attempts: seq<Attempt>): seq<Resource> {
    if attempts == [] then rs
    else
      var before := Run(h, rs, attempts[..|attempts| - 1]);
      Survives(before, Effects(h, before, attempts[|attempts| - 1]))
  }

  lemma {:induction false} SurvivesIsSaved(rs: seq<Resource>, log: seq<Event>)
    ensures Survives(rs, log) == rs || exists i :: 0 <= i < |log| && log[i].Save? && Survives(rs, log) == log[i].resources
  {
    if log != [] {
      var n := |log| - 1;
      if !(log[n].Save? && log[n].saved != SaveLost) {
        SurvivesIsSaved(rs, log[..n]);
      }
    }
  }

  lemma AttemptEvolves(h: Header, rs: seq<Resource>, a: Attempt)
    ensures Evolves(rs, Survives(rs, Effects(h, rs, a)))
  {
    var effects := Effects(h, rs, a);
    SurvivesIsSaved(rs, effects);
    if FirstFailure(h, rs, a.observed).None? {
      SweepChronicle(a.services, a.options, rs, a.observed.value);
      var log := Log(a.services, a.options, h, rs, a.observed);
      assert forall i | 0 <= i < |effects| :: effects[i] == log[i];
    }
  }

  /** Ledger monotonicity over every sequence of passes and interruptions. */
  lemma {:induction false} RunEvolves(h: Header, rs: seq<Resource>, attempts: seq<Attempt>)
    ensures Evolves(rs, Run(h, rs, attempts))
  {
    if attempts != [] {
      var n := |attempts| - 1;
      RunEvolves(h, rs, attempts[..n]);
      AttemptEvolves(h, Run(h, rs, attempts[..n]), attempts[n]);
      EvolvesTransitive(rs, Run(h, rs, attempts[..n]), Run(h, rs, attempts));
    }
  }

  lemma SurvivesAnnounced(rs: seq<Resource>, log: seq<Event>, i: nat)
    requires Announced(log, i)
    ensures log[i].resource in Survives(rs, log[..i])
  {
    assert log[..i][|log[..i]| - 1] == log[i - 1];
  }

  lemma AttemptDeletesAhead(h: Header, rs: seq<Resource>, a: Attempt, i: nat)
    requires a.options.persist
    requires i < |Effects(h, rs, a)| && Effects(h, rs, a)[i].Delete?
    ensures a.observed.Some?
    ensures Effects(h, rs, a)[i].resource.status == Deleting
    ensures Effects(h, rs, a)[i].resource in Survives(rs, Effects(h, rs, a)[..i])
    ensures Deletable(Lookup(IndexInventory(a.observed.value), Effects(h, rs, a)[i].resource))
  {
    var effects, log := Effects(h, rs, a), Log(a.services, a.options, h, rs, a.observed);
    assert forall n | 0 <= n < |effects| :: effects[n] == log[n];
    SweepSafe(a.services, a.options, rs, a.observed.value);
    assert SafeAt(true, IndexInventory(a.observed.value), log, i);
    assert Announced(effects, i);
    SurvivesAnnounced(rs, effects, i);
  }

  /**
   * Write-ahead deletion over every run: when a pass calls Delete, the disk already marks that entry as
   * deleting, and the pass's own inventory shows a matching resource that is owned, live, not protected
   * and not delayed.
   */
  lemma RunDeletesAhead(h: Header, rs: seq<Resource>, attempts: seq<Attempt>, k: nat, i: nat)
    requires k < |attempts| && attempts[k].options.persist
    requires var effects := Effects(h, Run(h, rs, attempts[..k]), attempts[k]);
             i < |effects| && effects[i].Delete?
    ensures var before := Run(h, rs, attempts[..k]);
            var effects := Effects(h, before, attempts[k]);
            var r := effects[i].resource;
            && attempts[k].observed.Some?
            && r.status == Deleting && r in Survives(before, effects[..i])
            && Deletable(Lookup(IndexInventory(attempts[k].observed.value), r))
  {
    AttemptDeletesAhead(h, Run(h, rs, attempts[..k]), attempts[k], i);
  }
}
