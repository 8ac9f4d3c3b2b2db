/** Which entries a pass calls Delete for, whatever the keys and whatever fails. */
module CleanupDue {
  import opened Optional
  import opened Ordering
  import opened CleanupLedger
  import opened CleanupSettle
  import opened CleanupOrder

  /** The loop reaches this entry and finds it deletable. */
  predicate Due(o: Options, inventory: map<string, Observation>, rs: seq<Resource>, k: nat) {
    k < |rs| && !Shadowed(rs, k) && WillDelete(o, Lookup(inventory, rs[k]), rs[k])
  }

  predicate OnlyDue(o: Options, inventory: map<string, Observation>, rs: seq<Resource>, attempts: seq<Resource>) {
    forall d | d in attempts :: exists k | 0 <= k < |rs| :: Due(o, inventory, rs, k) && d == rs[k].(status := Deleting)
  }

  predicate Reached(snapshot: seq<Resource>, r: Resource) {
    exists v | v in snapshot :: Key(v) == Key(r)
  }

  /** Where an entry stands after the loop visited `snapshot`. */
  predicate Stands(o: Options, inventory: map<string, Observation>, snapshot: seq<Resource>, attempts: seq<Resource>,
                   was: Resource, now: Resource)
  {
    if WillDelete(o, Lookup(inventory, was), was)
    then if Reached(snapshot, was) then now.status == Gone && was.(status := Deleting) in attempts else now == was
    else !WillDelete(o, Lookup(inventory, now), now)
  }

  predicate AllStand(o: Options, inventory: map<string, Observation>, snapshot: seq<Resource>, p: Pass, q: Pass) {
    && Relisted(p.resources, q.resources)
    && forall k | 0 <= k < |p.resources| && !Shadowed(p.resources, k) ::
         Stands(o, inventory, snapshot, Attempts(q.log), p.resources[k], q.resources[k])
  }

  lemma SameLookup(inventory: map<string, Observation>, a: Resource, b: Resource)
    requires b == a.(status := b.status, detail := b.detail)
    ensures Lookup(inventory, a) == Lookup(inventory, b) && Key(a) == Key(b)
  {
  }

  lemma RelistedKeys(a: seq<Resource>, b: seq<Resource>)
    requires Relisted(a, b)
    ensures SameKeys(a, b)
  {
    forall i | 0 <= i < |a| ensures Key(a[i]) == Key(b[i]) { assert b[i] == a[i].(status := b[i].status, detail := b[i].detail); }
  }

  lemma KeyIndexFirst(rs: seq<Resource>, key: string)
    ensures var index := KeyIndex(rs, key, 0);
            && (index >= 0 ==> !Shadowed(rs, index))
            && forall k | 0 <= k < |rs| && !Shadowed(rs, k) && Key(rs[k]) == key :: k == index
  {
  }

  lemma ReachedNext(front: seq<Resource>, last: Resource, r: Resource)
    ensures Reached(front + [last], r) <==> Reached(front, r) || Key(last) == Key(r)
  {
    if Reached(front, r) {
      var v :| v in front && Key(v) == Key(r);
      assert v in front + [last];
    }
    if Key(last) == Key(r) { assert last in front + [last]; }
  }

  /** `q` is `before` after the loop treated its entry at `index`, without a failure. */
  predicate Turned(o: Options, inventory: map<string, Observation>, before: Pass, index: nat, q: Pass)
    requires index < |before.resources|
  {
    var r := before.resources[index];
    var seen := Lookup(inventory, r);
    && q.resources == before.resources[index := Settle(o, seen, r)]
    && Attempts(q.log) == Attempts(before.log) + (if WillDelete(o, seen, r) then [r.(status := Deleting)] else [])
  }

  lemma TreatTurns(s: Services, o: Options, inventory: map<string, Observation>, index: nat, p: Pass)
    requires index < |p.resources| && p.failure.None? && Treat(s, o, inventory, index, p).failure.None?
    ensures Turned(o, inventory, p, index, Treat(s, o, inventory, index, p))
  {
    TreatSettles(s, o, inventory, index, p);
    TreatAttempts(s, o, inventory, index, p);
  }

  lemma SettleStands(o: Options, inventory: map<string, Observation>, r: Resource)
    ensures var seen := Lookup(inventory, r);
      && Lookup(inventory, Settle(o, seen, r)) == seen
      && if WillDelete(o, seen, r) then Settle(o, seen, r).status == Gone else !WillDelete(o, seen, Settle(o, seen, r))
  {
  }

  /** The entry the turn treats. */
  lemma TreatedStands(o: Options, inventory: map<string, Observation>, front: seq<Resource>, last: Resource,
                      attempts: seq<Resource>, was: Resource, now: Resource)
    requires Stands(o, inventory, front, attempts, was, now) && Key(was) == Key(last)
    requires now == was.(status := now.status, detail := now.detail)
    ensures var seen := Lookup(inventory, now);
            Stands(o, inventory, front + [last],
                   attempts + (if WillDelete(o, seen, now) then [now.(status := Deleting)] else []),
                   was, Settle(o, seen, now))
  {
    SameLookup(inventory, was, now);
    ReachedNext(front, last, was);
    SettleStands(o, inventory, now);
  }

  /** The other entries. */
  lemma OtherStands(o: Options, inventory: map<string, Observation>, front: seq<Resource>, last: Resource,
                    attempts: seq<Resource>, more: seq<Resource>, was: Resource, now: Resource)
    requires Stands(o, inventory, front, attempts, was, now) && Key(was) != Key(last)
    ensures Stands(o, inventory, front + [last], attempts + more, was, now)
  {
    ReachedNext(front, last, was);
  }

  lemma TurnStands(o: Options, inventory: map<string, Observation>, snapshot: seq<Resource>, p: Pass, before: Pass, q: Pass)
    requires snapshot != [] && AllStand(o, inventory, snapshot[..|snapshot| - 1], p, before)
    requires Relisted(before.resources, q.resources)
    requires var index := KeyIndex(before.resources, Key(snapshot[|snapshot| - 1]), 0);
             if index < 0 then q == before else Turned(o, inventory, before, index, q)
    ensures AllStand(o, inventory, snapshot, p, q)
  {
    var front, last := snapshot[..|snapshot| - 1], snapshot[|snapshot| - 1];
    assert snapshot == front + [last];
    var rs := p.resources;
    RelistedKeys(rs, before.resources);
    RelistedTransitive(rs, before.resources, q.resources);
    KeyIndexByKeys(rs, before.resources, Key(last), 0);
    KeyIndexFirst(rs, Key(last));
    forall k | 0 <= k < |rs| && !Shadowed(rs, k) ensures Stands(o, inventory, snapshot, Attempts(q.log), rs[k], q.resources[k]) {
      if Key(rs[k]) == Key(last) {
        TreatedStands(o, inventory, front, last, Attempts(before.log), rs[k], before.resources[k]);
      } else {
        var more := Attempts(q.log)[|Attempts(before.log)|..];
        OtherStands(o, inventory, front, last, Attempts(before.log), more, rs[k], before.resources[k]);
      }
    }
  }

  /** Entries that were never due are not due later. */
  lemma StillDue(o: Options, inventory: map<string, Observation>, snapshot: seq<Resource>, p: Pass, q: Pass, k: nat)
    requires AllStand(o, inventory, snapshot, p, q)
    requires k < |p.resources| && !Shadowed(p.resources, k)
    requires WillDelete(o, Lookup(inventory, q.resources[k]), q.resources[k])
    ensures Due(o, inventory, p.resources, k) && q.resources[k] == p.resources[k]
  {
    assert Stands(o, inventory, snapshot, Attempts(q.log), p.resources[k], q.resources[k]);
  }

  lemma TreatOnlyDue(s: Services, o: Options, inventory: map<string, Observation>, front: seq<Resource>, p: Pass,
                     before: Pass, key: string)
    requires before.failure.None? && AllStand(o, inventory, front, p, before)
    requires OnlyDue(o, inventory, p.resources, Attempts(before.log)) && KeyIndex(before.resources, key, 0) >= 0
    ensures var q := Treat(s, o, inventory, KeyIndex(before.resources, key, 0), before);
            OnlyDue(o, inventory, p.resources, Attempts(q.log))
  {
    var index := KeyIndex(before.resources, key, 0);
    var r := before.resources[index];
    RelistedKeys(p.resources, before.resources);
    KeyIndexByKeys(p.resources, before.resources, key, 0);
    KeyIndexFirst(p.resources, key);
    TreatAttempts(s, o, inventory, index, before);
    if WillDelete(o, Lookup(inventory, r), r) {
      StillDue(o, inventory, front, p, before, index);
    }
  }

  /** The loop calls Delete only for due entries and, unless something fails, for all of them it reaches. */
  lemma {:induction false} DriveDue(s: Services, o: Options, inventory: map<string, Observation>,
                                    snapshot: seq<Resource>, p: Pass)
    requires p.failure.None? && Attempts(p.log) == []
    ensures var q := Drive(s, o, inventory, snapshot, p);
            && OnlyDue(o, inventory, p.resources, Attempts(q.log))
            && (q.failure.None? ==> AllStand(o, inventory, snapshot, p, q))
  {
    if snapshot != [] {
      var front, last := snapshot[..|snapshot| - 1], snapshot[|snapshot| - 1];
      DriveDue(s, o, inventory, front, p);
      var before, q := Drive(s, o, inventory, front, p), Drive(s, o, inventory, snapshot, p);
      if before.failure.None? {
        var index := KeyIndex(before.resources, Key(last), 0);
        if index >= 0 {
          TreatOnlyDue(s, o, inventory, front, p, before, Key(last));
          TreatRelists(s, o, inventory, index, before);
          if q.failure.None? { TreatTurns(s, o, inventory, index, before); }
        }
        if q.failure.None? { TurnStands(o, inventory, snapshot, p, before, q); }
      }
    }
  }

  /**
   * Whatever the keys: a pass calls Delete only for merged entries it reaches and finds owned, live, unprotected and
   * undelayed, and an error-free pass for each of them.
   */
  lemma SweepDue(s: Services, o: Options, rs: seq<Resource>, observed: seq<Observation>)
    ensures var p, merged, inventory := Sweep(s, o, rs, observed), Merge(rs, observed), IndexInventory(observed);
            && OnlyDue(o, inventory, merged, Attempts(p.log))
            && (p.failure.None? ==>
                  forall k | 0 <= k < |merged| && Due(o, inventory, merged, k) ::
                    merged[k].(status := Deleting) in Attempts(p.log))
  {
    var merged, inventory, start := Merge(rs, observed), IndexInventory(observed), Start(s, o, rs, observed);
    AttemptsPersist(s, o, Pass(merged, [], [], [], [], [], None));
    if start.failure.None? {
      DriveDue(s, o, inventory, RankSorted(merged), start);
      var p := Sweep(s, o, rs, observed);
      if p.failure.None? {
        forall k | 0 <= k < |merged| && Due(o, inventory, merged, k) ensures merged[k].(status := Deleting) in Attempts(p.log) {
          SortMembers(merged, RankOrder, merged[k]);
          assert Reached(RankSorted(merged), merged[k]);
          assert Stands(o, inventory, RankSorted(merged), Attempts(p.log), merged[k], p.resources[k]);
        }
      }
    }
  }
}
