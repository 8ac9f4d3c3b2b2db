/** The order of a pass's Delete calls, whatever fails. */
module CleanupOrder {
  import opened CleanupTexts
  import opened Optional
  import opened Ordering
  import opened CleanupLedger
  import opened CleanupSafety
  import opened CleanupSettle

  /** A lower rank first, and within a rank the lesser key. */
  predicate Before(a: Resource, b: Resource) {
    a.rank < b.rank || (a.rank == b.rank && StrLe(Key(a), Key(b)))
  }

  predicate InOrder(rs: seq<Resource>) {
    forall i, j | 0 <= i < j < |rs| :: Before(rs[i], rs[j])
  }

  lemma BeforeTransitive(a: Resource, b: Resource, c: Resource)
    requires Before(a, b) && Before(b, c)
    ensures Before(a, c)
  {
    if a.rank == b.rank == c.rank { StrTransitive(Key(a), Key(b), Key(c)); }
  }

  lemma RankOrderIsRanking()
    ensures Ranking(RankOrder)
  {
    forall a, b ensures RankOrder(a, b) || RankOrder(b, a) { StrTotal(Key(a), Key(b)); }
    forall a, b, c | RankOrder(a, b) && RankOrder(b, c) ensures RankOrder(a, c) {
      if a.rank == b.rank == c.rank { StrTransitive(Key(a), Key(b), Key(c)); }
    }
  }

  /** The entries of every Delete call, failed ones included. */
  function Attempts(log: seq<Event>): seq<Resource> {
    if log == [] then []
    else
      var last := log[|log| - 1];
      Attempts(log[..|log| - 1]) + if last.Delete? then [last.resource] else []
  }

  lemma AttemptsAppend(log: seq<Event>, e: Event)
    ensures Attempts(log + [e]) == Attempts(log) + if e.Delete? then [e.resource] else []
  {
    assert (log + [e])[..|log|] == log;
  }

  lemma AttemptsPersist(s: Services, o: Options, p: Pass)
    ensures Attempts(Persist(s, o, p).log) == Attempts(p.log)
  {
    if o.persist {
      AttemptsAppend(p.log, Save(p.resources, s.save(p.log)));
    }
  }

  /** Same entries in the same places, but for status and detail. */
  predicate Relisted(a: seq<Resource>, b: seq<Resource>) {
    |a| == |b| && forall i | 0 <= i < |a| :: b[i] == a[i].(status := b[i].status, detail := b[i].detail)
  }

  lemma DeleteLiveRelists(s: Services, o: Options, index: nat, p: Pass)
    requires index < |p.resources|
    ensures Relisted(p.resources, DeleteLive(s, o, index, p).resources)
  {
  }

  lemma AfterAttempt(s: Services, o: Options, p: Pass, q: Pass, e: Event)
    requires e.Delete? && q.log == p.log + [e]
    ensures Attempts(Persist(s, o, q).log) == Attempts(p.log) + [e.resource]
  {
    AttemptsAppend(p.log, e);
    AttemptsPersist(s, o, q);
  }

  lemma DeleteLiveAttempts(s: Services, o: Options, index: nat, p: Pass)
    requires index < |p.resources| && p.failure.None?
    ensures var q := DeleteLive(s, o, index, p);
            || (q.failure.Some? && Attempts(q.log) == Attempts(p.log))
            || Attempts(q.log) == Attempts(p.log) + [p.resources[index].(status := Deleting)]
  {
    var deleting := p.resources[index].(status := Deleting);
    var p0 := Put(p, index, deleting);
    AttemptsPersist(s, o, p0);
    var p1 := Persist(s, o, p0);
    if p1.failure.None? {
      var outcome := s.delete(p1.log, deleting);
      var e := Delete(deleting, outcome);
      var p2 := p1.(log := p1.log + [e]);
      match outcome
      case DeleteFailed(m) => AfterAttempt(s, o, p1, Put(p2, index, deleting.(detail := FailureDetail(m))), e);
      case DeleteOk =>
        var p3 := Put(p2, index, deleting.(status := Gone, detail := DELETED));
        AfterAttempt(s, o, p1, p3.(deleted := p3.deleted + [Key(deleting)]), e);
    }
  }

  lemma TreatSpares(s: Services, o: Options, inventory: map<string, Observation>, index: nat, p: Pass)
    requires index < |p.resources| && !WillDelete(o, Lookup(inventory, p.resources[index]), p.resources[index])
    ensures Attempts(Treat(s, o, inventory, index, p).log) == Attempts(p.log)
  {
    var r := p.resources[index];
    var seen := Lookup(inventory, r);
    if Absorbing(r.status) {
    } else if seen.Some? && !seen.value.owned {
      AttemptsPersist(s, o, Put(p, index, r.(status := Refused, detail := UNCONFIRMED)).(refused := p.refused + [Key(r)]));
    } else if seen.Some? && seen.value.isProtected {
      AttemptsPersist(s, o, Put(p, index, r.(status := Claimed, detail := PROTECTED)).(pending := p.pending + [Key(r)]));
    } else if seen.Some? && seen.value.delayed {
      AttemptsPersist(s, o, Put(p, index, r.(status := Tombstone, detail := DELAYED)).(pending := p.pending + [Key(r)]));
    } else if seen.None? && (r.identity != "" || r.status != Claimed) && (r.status == Claimed || r.status == Deleting) {
      AttemptsPersist(s, o, Put(p, index, r.(status := Gone, detail := VANISHED)).(gone := p.gone + [Key(r)]));
    }
  }

  lemma TreatDeletes(s: Services, o: Options, inventory: map<string, Observation>, index: nat, p: Pass)
    requires index < |p.resources| && WillDelete(o, Lookup(inventory, p.resources[index]), p.resources[index])
    ensures Treat(s, o, inventory, index, p) == DeleteLive(s, o, index, p)
  {
  }

  lemma RewriteRelists(s: Services, o: Options, p: Pass, q: Pass, index: nat, r: Resource)
    requires index < |p.resources| && q.resources == p.resources[index := r]
    requires r == p.resources[index].(status := r.status, detail := r.detail)
    ensures Relisted(p.resources, Persist(s, o, q).resources)
  {
  }

  lemma SparedRelists(s: Services, o: Options, inventory: map<string, Observation>, index: nat, p: Pass)
    requires index < |p.resources| && !WillDelete(o, Lookup(inventory, p.resources[index]), p.resources[index])
    ensures Relisted(p.resources, Treat(s, o, inventory, index, p).resources)
  {
    var r := p.resources[index];
    var seen := Lookup(inventory, r);
    if Absorbing(r.status) {
    } else if seen.Some? && !seen.value.owned {
      var r' := r.(status := Refused, detail := UNCONFIRMED);
      RewriteRelists(s, o, p, Put(p, index, r').(refused := p.refused + [Key(r)]), index, r');
    } else if seen.Some? && seen.value.isProtected {
      var r' := r.(status := Claimed, detail := PROTECTED);
      RewriteRelists(s, o, p, Put(p, index, r').(pending := p.pending + [Key(r)]), index, r');
    } else if seen.Some? && seen.value.delayed {
      var r' := r.(status := Tombstone, detail := DELAYED);
      RewriteRelists(s, o, p, Put(p, index, r').(pending := p.pending + [Key(r)]), index, r');
    } else if seen.None? && (r.identity != "" || r.status != Claimed) && (r.status == Claimed || r.status == Deleting) {
      var r' := r.(status := Gone, detail := VANISHED);
      RewriteRelists(s, o, p, Put(p, index, r').(gone := p.gone + [Key(r)]), index, r');
    }
  }

  lemma TreatRelists(s: Services, o: Options, inventory: map<string, Observation>, index: nat, p: Pass)
    requires index < |p.resources|
    ensures Relisted(p.resources, Treat(s, o, inventory, index, p).resources)
  {
    if WillDelete(o, Lookup(inventory, p.resources[index]), p.resources[index]) {
      TreatDeletes(s, o, inventory, index, p);
      DeleteLiveRelists(s, o, index, p);
    } else {
      SparedRelists(s, o, inventory, index, p);
    }
  }

  /** The loop calls Delete for the entry at hand exactly when it is due, unless a save fails first. */
  lemma TreatAttempts(s: Services, o: Options, inventory: map<string, Observation>, index: nat, p: Pass)
    requires index < |p.resources| && p.failure.None?
    ensures var q, r := Treat(s, o, inventory, index, p), p.resources[index];
            if WillDelete(o, Lookup(inventory, r), r)
            then || (q.failure.Some? && Attempts(q.log) == Attempts(p.log))
                 || Attempts(q.log) == Attempts(p.log) + [r.(status := Deleting)]
            else Attempts(q.log) == Attempts(p.log)
  {
    if WillDelete(o, Lookup(inventory, p.resources[index]), p.resources[index]) {
      TreatDeletes(s, o, inventory, index, p);
      DeleteLiveAttempts(s, o, index, p);
    } else {
      TreatSpares(s, o, inventory, index, p);
    }
  }

  predicate SamePlace(a: Resource, b: Resource) {
    a.rank == b.rank && Key(a) == Key(b)
  }

  /** One turn of the loop calls Delete at most once. */
  lemma OneAttempt(s: Services, o: Options, inventory: map<string, Observation>, index: nat, p: Pass) returns (more: seq<Resource>)
    requires index < |p.resources| && p.failure.None?
    ensures Attempts(Treat(s, o, inventory, index, p).log) == Attempts(p.log) + more
    ensures more == [] || (|more| == 1 && SamePlace(more[0], p.resources[index]))
  {
    TreatAttempts(s, o, inventory, index, p);
    more := if Attempts(Treat(s, o, inventory, index, p).log) == Attempts(p.log) then []
            else [p.resources[index].(status := Deleting)];
  }

  predicate Within(rs: seq<Resource>, bound: Resource) {
    forall i | 0 <= i < |rs| :: Before(rs[i], bound)
  }

  lemma OrderAppends(rs: seq<Resource>, more: seq<Resource>, bound: Resource)
    requires InOrder(rs) && Within(rs, bound) && (more == [] || (|more| == 1 && SamePlace(more[0], bound)))
    ensures InOrder(rs + more) && Within(rs + more, bound)
  {
    if more != [] { StrTotal(Key(bound), Key(bound)); }
  }

  lemma EntryOf(start: seq<Resource>, now: seq<Resource>, r: Resource, index: nat)
    requires Relisted(start, now) && DistinctKeys(start) && r in start && index < |now| && Key(now[index]) == Key(r)
    ensures SamePlace(now[index], r)
  {
    var k :| 0 <= k < |start| && start[k] == r;
    assert now[index] == start[index].(status := now[index].status, detail := now[index].detail);
    assert Key(start[index]) == Key(start[k]);
    assert index == k;
  }

  /** The Delete calls so far are in order and none comes after the bound. */
  predicate Ascending(start: seq<Resource>, q: Pass, bound: Resource) {
    Relisted(start, q.resources) && InOrder(Attempts(q.log)) && Within(Attempts(q.log), bound)
  }

  lemma RelistedTransitive(a: seq<Resource>, b: seq<Resource>, c: seq<Resource>)
    requires Relisted(a, b) && Relisted(b, c)
    ensures Relisted(a, c)
  {
    forall i | 0 <= i < |a| ensures c[i] == a[i].(status := c[i].status, detail := c[i].detail) {
      assert b[i] == a[i].(status := b[i].status, detail := b[i].detail);
      assert c[i] == b[i].(status := c[i].status, detail := c[i].detail);
    }
  }

  lemma StepAscends(s: Services, o: Options, inventory: map<string, Observation>, start: seq<Resource>, r: Resource, before: Pass)
    requires DistinctKeys(start) && r in start && before.failure.None? && Ascending(start, before, r)
    ensures Ascending(start, Step(s, o, inventory, r, before), r)
  {
    var index := KeyIndex(before.resources, Key(r), 0);
    if index >= 0 {
      TreatRelists(s, o, inventory, index, before);
      RelistedTransitive(start, before.resources, Treat(s, o, inventory, index, before).resources);
      var more := OneAttempt(s, o, inventory, index, before);
      EntryOf(start, before.resources, r, index);
      OrderAppends(Attempts(before.log), more, r);
    }
  }

  lemma WithinLater(rs: seq<Resource>, bound: Resource, later: Resource)
    requires Within(rs, bound) && Before(bound, later)
    ensures Within(rs, later)
  {
    forall i | 0 <= i < |rs| ensures Before(rs[i], later) { BeforeTransitive(rs[i], bound, later); }
  }

  /** Whatever fails, the loop calls Delete in the order of its snapshot. */
  lemma {:induction false} DriveAttempts(s: Services, o: Options, inventory: map<string, Observation>,
                                         snapshot: seq<Resource>, p: Pass, bound: Resource)
    requires p.failure.None? && Attempts(p.log) == [] && InOrder(snapshot) && DistinctKeys(p.resources)
    requires Within(snapshot, bound) && forall r | r in snapshot :: r in p.resources
    ensures Ascending(p.resources, Drive(s, o, inventory, snapshot, p), bound)
  {
    if snapshot != [] {
      var front, r := snapshot[..|snapshot| - 1], snapshot[|snapshot| - 1];
      DriveAttempts(s, o, inventory, front, p, r);
      var before := Drive(s, o, inventory, front, p);
      if before.failure.None? { StepAscends(s, o, inventory, p.resources, r, before); }
      WithinLater(Attempts(Drive(s, o, inventory, snapshot, p).log), r, bound);
    }
  }

  /**
   * Deletion order: whatever save or deletion fails, a pass over distinct keys calls Delete in nondecreasing rank, and
   * within a rank in the order of the keys.
   */
  lemma DeletionsAscend(s: Services, o: Options, rs: seq<Resource>, observed: seq<Observation>)
    requires DistinctKeys(Merge(rs, observed))
    ensures InOrder(Attempts(Sweep(s, o, rs, observed).log))
  {
    var start, merged := Start(s, o, rs, observed), Merge(rs, observed);
    AttemptsPersist(s, o, Pass(merged, [], [], [], [], [], None));
    if start.failure.None? {
      RankOrderIsRanking();
      SortSorts(merged, RankOrder);
      var snapshot := RankSorted(merged);
      forall i, j | 0 <= i < j < |snapshot| ensures Before(snapshot[i], snapshot[j]) {
        assert RankOrder(snapshot[i], snapshot[j]);
      }
      forall r | r in snapshot ensures r in merged { SortMembers(merged, RankOrder, r); }
      if snapshot != [] {
        var last := snapshot[|snapshot| - 1];
        StrTotal(Key(last), Key(last));
        DriveAttempts(s, o, IndexInventory(observed), snapshot, start, last);
      }
    }
  }
}
