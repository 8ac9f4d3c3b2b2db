/** The reconciler in the source's own form: loops over the ledger slice, one effect at a time. */
module CleanupReconciler {
  import opened CleanupTexts
  import opened Optional
  import opened Ordering
  import opened CleanupLedger

  /** The disk, the provider and the two inventory calls of one pass; every answer is arbitrary. */
  class CleanupServices {
    const services: Services
    const inventories: seq<Option<seq<Observation>>>
    var calls: nat
    var log: seq<Event>

    constructor (services: Services, first: Option<seq<Observation>>, second: Option<seq<Observation>>)
      ensures this.services == services && inventories == [first, second] && calls == 0 && log == []
    {
      this.services := services;
      inventories := [first, second];
      calls := 0;
      log := [];
    }

    method Inventory() returns (observed: Option<seq<Observation>>)
      requires calls < |inventories|
      modifies this`calls
      ensures calls == old(calls) + 1 && observed == inventories[old(calls)]
    {
      observed := inventories[calls];
      calls := calls + 1;
    }

    method Save(resources: seq<Resource>) returns (ok: bool)
      modifies this`log
      ensures log == old(log) + [Event.Save(resources, services.save(old(log)))]
      ensures ok <==> services.save(old(log)) == SaveOk
    {
      var outcome := services.save(log);
      log := log + [Event.Save(resources, outcome)];
      ok := outcome == SaveOk;
    }

    method Delete(resource: Resource) returns (outcome: DeleteOutcome)
      modifies this`log
      ensures outcome == services.delete(old(log), resource)
      ensures log == old(log) + [Event.Delete(resource, outcome)]
    {
      outcome := services.delete(log, resource);
      log := log + [Event.Delete(resource, outcome)];
    }
  }

  method CleanupInventoryMatch(rs: seq<Resource>, o: Observation) returns (index: int)
    ensures index == InventoryMatch(rs, o)
  {
    for i := 0 to |rs|
      invariant IdentityMatch(rs, o, 0) == IdentityMatch(rs, o, i)
    {
      if rs[i].identity != "" && rs[i].identity == o.identity {
        return i;
      }
    }
    for i := 0 to |rs|
      invariant NameMatch(rs, o, 0) == NameMatch(rs, o, i)
    {
      if rs[i].identity == "" && rs[i].kind == o.kind && rs[i].name != "" && rs[i].name == o.name {
        return i;
      }
    }
    return -1;
  }

  method MergeCleanupInventory(rs: seq<Resource>, observed: seq<Observation>) returns (merged: seq<Resource>)
    ensures merged == Merge(rs, observed)
  {
    merged := rs;
    for k := 0 to |observed|
      invariant merged == Merge(rs, observed[..k])
    {
      var o := observed[k];
      assert observed[..k + 1][..k] == observed[..k];
      if !o.owned {
        continue;
      }
      var index := CleanupInventoryMatch(merged, o);
      if index >= 0 {
        var current := merged[index];
        if current.identity == "" { current := current.(identity := o.identity); }
        if current.name == "" { current := current.(name := o.name); }
        if current.role == "" { current := current.(role := o.role); }
        if current.kind == "" { current := current.(kind := o.kind); }
        if current.rank == 0 { current := current.(rank := DefaultRank(current.kind, current.role)); }
        if current.status == Intended { current := current.(status := Claimed); }
        merged := merged[index := current];
        continue;
      }
      var status := Claimed;
      if o.delayed { status := Tombstone; }
      merged := merged + [Resource(o.kind, o.role, o.name, o.identity, DefaultRank(o.kind, o.role), status, ADOPTED)];
    }
    assert observed[..|observed|] == observed;
  }

  method IndexCleanupInventory(observed: seq<Observation>) returns (index: map<string, Observation>)
    ensures index == IndexInventory(observed)
  {
    index := map[];
    for k := 0 to |observed|
      invariant index == IndexInventory(observed[..k])
    {
      assert observed[..k + 1][..k] == observed[..k];
      index := index[IdKey(observed[k].identity) := observed[k]];
      if observed[k].name != "" {
        index := index[NameKey(observed[k].kind, observed[k].name) := observed[k]];
      }
    }
    assert observed[..|observed|] == observed;
  }

  method CleanupResourceIndex(rs: seq<Resource>, wanted: Resource) returns (index: int)
    ensures index == KeyIndex(rs, Key(wanted), 0)
  {
    for i := 0 to |rs|
      invariant KeyIndex(rs, Key(wanted), 0) == KeyIndex(rs, Key(wanted), i)
    {
      if Key(rs[i]) == Key(wanted) {
        return i;
      }
    }
    return -1;
  }

  method PersistCleanupLedger(env: CleanupServices, o: Options, p: Pass) returns (q: Pass)
    requires env.log == p.log
    modifies env`log
    ensures q == Persist(env.services, o, p) && env.log == q.log
  {
    if !o.persist {
      return p;
    }
    var ok := env.Save(p.resources);
    q := p.(log := env.log);
    if !ok { q := q.(failure := Some(SaveFailed)); }
  }

  /** Marks the entry, saves, deletes, and saves again. */
  method DeleteEntry(env: CleanupServices, o: Options, index: nat, p: Pass) returns (q: Pass)
    requires index < |p.resources| && env.log == p.log
    modifies env`log
    ensures q == DeleteLive(env.services, o, index, p) && env.log == q.log
  {
    var current := p.resources[index].(status := Deleting);
    q := p.(resources := p.resources[index := current]);
    q := PersistCleanupLedger(env, o, q);
    if q.failure.Some? {
      return;
    }
    var outcome := env.Delete(current);
    q := q.(log := env.log);
    if outcome.DeleteFailed? {
      current := current.(detail := FailureDetail(outcome.message));
      q := q.(resources := q.resources[index := current]);
      q := PersistCleanupLedger(env, o, q);
      q := q.(failure := Some(DeleteRejected(outcome.message)));
      return;
    }
    q := q.(deleted := q.deleted + [Key(current)]);
    current := current.(status := Gone, detail := DELETED);
    q := q.(resources := q.resources[index := current]);
    q := PersistCleanupLedger(env, o, q);
  }

  method TreatEntry(env: CleanupServices, o: Options, inventory: map<string, Observation>, index: nat, p: Pass)
    returns (q: Pass)
    requires index < |p.resources| && env.log == p.log
    modifies env`log
    ensures q == Treat(env.services, o, inventory, index, p) && env.log == q.log
  {
    var current := p.resources[index];
    var key := Key(current);
    var seen := Lookup(inventory, current);
    q := p;
    if current.status == Gone {
      q := q.(gone := q.gone + [key]);
    } else if current.status == Refused {
      q := q.(refused := q.refused + [key]);
    } else if current.status == Tombstone {
      q := q.(pending := q.pending + [key]);
    } else if seen.Some? && !seen.value.owned {
      q := q.(resources := q.resources[index := current.(status := Refused, detail := UNCONFIRMED)],
              refused := q.refused + [key]);
      q := PersistCleanupLedger(env, o, q);
    } else if seen.Some? && seen.value.isProtected {
      q := q.(resources := q.resources[index := current.(status := Claimed, detail := PROTECTED)],
              pending := q.pending + [key]);
      q := PersistCleanupLedger(env, o, q);
    } else if seen.Some? && seen.value.delayed {
      q := q.(resources := q.resources[index := current.(status := Tombstone, detail := DELAYED)],
              pending := q.pending + [key]);
      q := PersistCleanupLedger(env, o, q);
    } else if seen.None? && current.status == Intended {
    } else if seen.None? && current.identity == "" && current.status == Claimed {
      q := q.(pending := q.pending + [key]);
    } else if seen.None? && (current.status == Claimed || current.status == Deleting) {
      q := q.(resources := q.resources[index := current.(status := Gone, detail := VANISHED)],
              gone := q.gone + [key]);
      q := PersistCleanupLedger(env, o, q);
    } else if seen.Some? && seen.value.live {
      if o.dryRun {
        q := q.(pending := q.pending + [key]);
      } else {
        q := DeleteEntry(env, o, index, q);
      }
    }
  }

  lemma DriveStops(s: Services, o: Options, inventory: map<string, Observation>, snapshot: seq<Resource>, p: Pass, k: nat)
    requires k <= |snapshot| && Drive(s, o, inventory, snapshot[..k], p).failure.Some?
    ensures Drive(s, o, inventory, snapshot, p) == Drive(s, o, inventory, snapshot[..k], p)
    decreases |snapshot|
  {
    if k < |snapshot| {
      var front := snapshot[..|snapshot| - 1];
      assert front[..k] == snapshot[..k];
      DriveStops(s, o, inventory, front, p, k);
    } else {
      assert snapshot[..k] == snapshot;
    }
  }

  lemma DriveNext(s: Services, o: Options, inventory: map<string, Observation>, snapshot: seq<Resource>, p: Pass, k: nat)
    requires k < |snapshot| && Drive(s, o, inventory, snapshot[..k], p).failure.None?
    ensures Drive(s, o, inventory, snapshot[..k + 1], p)
            == Step(s, o, inventory, snapshot[k], Drive(s, o, inventory, snapshot[..k], p))
  {
    assert snapshot[..k + 1][..k] == snapshot[..k];
  }

  method UniqueCleanupKeys(values: seq<string>) returns (result: seq<string>)
    ensures result == UniqueKeys(values)
  {
    var seen: set<string> := {};
    result := [];
    for k := 0 to |values|
      invariant result == Unique(values[..k])
      invariant forall v :: v in seen <==> v in result
    {
      assert values[..k + 1][..k] == values[..k];
      if values[k] in seen {
        continue;
      }
      seen := seen + {values[k]};
      result := result + [values[k]];
    }
    assert values[..|values|] == values;
    result := Sort(result, StrLe);
  }

  method PendingCleanupKeys(rs: seq<Resource>, pending: seq<string>) returns (keys: seq<string>)
    ensures keys == PendingKeys(rs, pending)
  {
    keys := pending;
    for k := 0 to |rs|
      invariant keys == pending + UnfinishedKeys(rs[..k])
    {
      assert rs[..k + 1][..k] == rs[..k];
      match rs[k].status {
        case Claimed | Deleting | Tombstone => keys := keys + [Key(rs[k])];
        case _ =>
      }
    }
    assert rs[..|rs|] == rs;
    keys := UniqueCleanupKeys(keys);
  }

  method RemainingCleanupResources(rs: seq<Resource>) returns (remaining: seq<Resource>)
    ensures remaining == Remaining(rs)
  {
    remaining := [];
    for k := 0 to |rs|
      invariant remaining == Remaining(rs[..k])
    {
      assert rs[..k + 1][..k] == rs[..k];
      if rs[k].status != Gone {
        remaining := remaining + [rs[k]];
      }
    }
    assert rs[..|rs|] == rs;
  }

  method JudgePass(o: Options, p: Pass, final: seq<Observation>) returns (report: Report)
    ensures report == Judge(o, p, final)
  {
    var live: seq<string>, delayed: seq<string> := [], [];
    for k := 0 to |final|
      invariant live == OwnedLive(final[..k]) && delayed == OwnedDelayed(final[..k])
    {
      assert final[..k + 1][..k] == final[..k];
      if !final[k].owned {
        continue;
      }
      if final[k].live { live := live + [final[k].identity]; }
      if final[k].delayed { delayed := delayed + [final[k].identity]; }
    }
    assert final[..|final|] == final;
    live, delayed := Sort(live, StrLe), Sort(delayed, StrLe);
    var remaining := RemainingCleanupResources(p.resources);
    var active := PendingCleanupKeys(p.resources, p.pending);
    report := Report(Complete, p.deleted, p.gone, p.pending, p.refused, remaining, p.resources);
    if p.refused != [] {
      report := report.(verdict := Failed);
    } else if o.dryRun && (live != [] || active != []) {
      var pending := UniqueCleanupKeys(active + live);
      report := report.(verdict := Pending, pending := pending);
    } else if live != [] {
      report := report.(verdict := Failed);
    } else if delayed != [] || active != [] {
      var pending := UniqueCleanupKeys(active + delayed);
      report := report.(verdict := Pending, pending := pending);
    }
  }

  /** One turn of the deletion loop: the ledger entry with the snapshot entry's key. */
  method DriveEntry(env: CleanupServices, o: Options, inventory: map<string, Observation>, wanted: Resource, p: Pass)
    returns (q: Pass)
    requires env.log == p.log && p.failure.None?
    modifies env`log
    ensures q == Step(env.services, o, inventory, wanted, p) && env.log == q.log
  {
    var index := CleanupResourceIndex(p.resources, wanted);
    if index < 0 {
      return p;
    }
    q := TreatEntry(env, o, inventory, index, p);
  }

  /** The deletion loop: a rank-ordered snapshot decides the order, the ledger itself the treatment. */
  method DriveEntries(env: CleanupServices, o: Options, inventory: map<string, Observation>, start: Pass)
    returns (p: Pass)
    requires env.log == start.log && start.failure.None?
    modifies env`log
    ensures p == Drive(env.services, o, inventory, RankSorted(start.resources), start) && env.log == p.log
  {
    var sorted := RankSorted(start.resources);
    p := start;
    for i := 0 to |sorted|
      invariant p == Drive(env.services, o, inventory, sorted[..i], start) && env.log == p.log
      invariant p.failure.None?
    {
      DriveNext(env.services, o, inventory, sorted, start, i);
      p := DriveEntry(env, o, inventory, sorted[i], p);
      if p.failure.Some? {
        DriveStops(env.services, o, inventory, sorted, start, i + 1);
        return;
      }
    }
    assert sorted[..|sorted|] == sorted;
  }

  /** From a valid first inventory to the end of the deletion loop. */
  method SweepOnce(env: CleanupServices, o: Options, rs: seq<Resource>, observed: seq<Observation>) returns (p: Pass)
    requires env.log == []
    modifies env`log
    ensures p == Sweep(env.services, o, rs, observed) && env.log == p.log
  {
    var merged := MergeCleanupInventory(rs, observed);
    p := PersistCleanupLedger(env, o, Pass(merged, [], [], [], [], [], None));
    if p.failure.Some? {
      return;
    }
    var inventory := IndexCleanupInventory(observed);
    p := DriveEntries(env, o, inventory, p);
  }

  /** One reconcile pass against arbitrary services refines the pass specification, effects included. */
  method ReconcileCleanup(env: CleanupServices, o: Options, h: Header, rs: seq<Resource>) returns (result: Result)
    requires env.calls == 0 && env.log == [] && |env.inventories| == 2
    modifies env
    ensures result == Reconcile(env.services, o, h, rs, env.inventories[0], env.inventories[1])
    ensures env.log == Log(env.services, o, h, rs, env.inventories[0])
  {
    if !ValidLedger(h, rs) {
      return Aborted(BadLedger);
    }
    var observed := env.Inventory();
    if observed.None? {
      return Aborted(InventoryFailed);
    }
    if !ValidInventory(observed.value) {
      return Aborted(BadInventory);
    }
    var p := SweepOnce(env, o, rs, observed.value);
    if p.failure.Some? {
      return Aborted(p.failure.value);
    }
    var final := env.Inventory();
    if final.None? {
      return Aborted(InventoryFailed);
    }
    if !ValidInventory(final.value) {
      return Aborted(BadInventory);
    }
    var report := JudgePass(o, p, final.value);
    return Reported(report);
  }
}
