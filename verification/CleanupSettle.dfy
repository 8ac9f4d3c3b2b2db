/** What an uninterrupted pass makes of each entry, and what its verdict means. */
module CleanupSettle {
  import opened CleanupTexts
  import opened Optional
  import opened Text
  import opened Ordering
  import opened CleanupLedger
  import opened CleanupSafety

  // ---- the fate of one entry -------------------------------------------------------------------

  predicate WillDelete(o: Options, seen: Option<Observation>, r: Resource) {
    !o.dryRun && !Absorbing(r.status) && Deletable(seen)
  }

  /** The entry after a pass, in terms of the entry and its observation alone. */
  function Settle(o: Options, seen: Option<Observation>, r: Resource): Resource {
    if Absorbing(r.status) then r
    else
      match seen
      case Some(obs) =>
        if !obs.owned then r.(status := Refused, detail := UNCONFIRMED)
        else if obs.isProtected then r.(status := Claimed, detail := PROTECTED)
        else if obs.delayed then r.(status := Tombstone, detail := DELAYED)
        else if WillDelete(o, seen, r) then r.(status := Gone, detail := DELETED)
        else r
      case None =>
        if (r.status == Claimed && r.identity != "") || r.status == Deleting
        then r.(status := Gone, detail := VANISHED)
        else r
  }

  predicate AddsPending(o: Options, seen: Option<Observation>, r: Resource) {
    || r.status == Tombstone
    || (!Absorbing(r.status)
        && match seen
           case None => r.status == Claimed && r.identity == ""
           case Some(obs) => obs.owned && (obs.isProtected || obs.delayed || (obs.live && o.dryRun)))
  }

  function Deletions(log: seq<Event>): seq<Resource> {
    if log == [] then []
    else
      var last := log[|log| - 1];
      Deletions(log[..|log| - 1]) + if last.Delete? && last.deleted == DeleteOk then [last.resource] else []
  }

  lemma DeletionsAppend(log: seq<Event>, e: Event)
    ensures Deletions(log + [e]) == Deletions(log) + if e.Delete? && e.deleted == DeleteOk then [e.resource] else []
  {
    assert (log + [e])[..|log|] == log;
  }

  lemma DeletionsPersist(s: Services, o: Options, p: Pass)
    ensures Deletions(Persist(s, o, p).log) == Deletions(p.log)
  {
    if o.persist {
      DeletionsAppend(p.log, Save(p.resources, s.save(p.log)));
    }
  }

  /** `q` is `p` after the entry at `index` met its fate. */
  predicate Settled(o: Options, seen: Option<Observation>, index: nat, p: Pass, q: Pass)
    requires index < |p.resources|
  {
    var r := p.resources[index];
    && q.resources == p.resources[index := Settle(o, seen, r)]
    && q.refused == p.refused + (if Settle(o, seen, r).status == Refused then [Key(r)] else [])
    && q.pending == p.pending + (if AddsPending(o, seen, r) then [Key(r)] else [])
    && Deletions(q.log) == Deletions(p.log) + (if WillDelete(o, seen, r) then [r.(status := Deleting)] else [])
  }

  /** A deletion that fails nowhere: mark, save, delete, mark gone, save. */
  function MarkedDeleting(s: Services, o: Options, index: nat, p: Pass): Pass
    requires index < |p.resources|
  {
    Persist(s, o, Put(p, index, p.resources[index].(status := Deleting)))
  }

  lemma PersistKeeps(s: Services, o: Options, p: Pass)
    ensures Persist(s, o, p).(log := p.log, failure := p.failure) == p
  {
  }

  lemma DeleteLiveForm(s: Services, o: Options, index: nat, p: Pass)
    requires index < |p.resources| && p.failure.None? && DeleteLive(s, o, index, p).failure.None?
    ensures var deleting, marked := p.resources[index].(status := Deleting), MarkedDeleting(s, o, index, p);
      && index < |marked.resources|
      && DeleteLive(s, o, index, p)
         == var done := Put(marked.(log := marked.log + [Delete(deleting, DeleteOk)]), index,
                            deleting.(status := Gone, detail := DELETED));
            Persist(s, o, done.(deleted := done.deleted + [Key(deleting)]))
  {
    var deleting, marked := p.resources[index].(status := Deleting), MarkedDeleting(s, o, index, p);
    PersistKeeps(s, o, Put(p, index, deleting));
    assert s.delete(marked.log, deleting) == DeleteOk || s.delete(marked.log, deleting).DeleteFailed?;
  }

  lemma DeleteLiveDeletions(s: Services, o: Options, index: nat, p: Pass)
    requires index < |p.resources| && p.failure.None? && DeleteLive(s, o, index, p).failure.None?
    ensures Deletions(DeleteLive(s, o, index, p).log) == Deletions(p.log) + [p.resources[index].(status := Deleting)]
  {
    var deleting, marked := p.resources[index].(status := Deleting), MarkedDeleting(s, o, index, p);
    DeleteLiveForm(s, o, index, p);
    DeletionsPersist(s, o, Put(p, index, deleting));
    DeletionsAppend(marked.log, Delete(deleting, DeleteOk));
    var done := Put(marked.(log := marked.log + [Delete(deleting, DeleteOk)]), index,
                    deleting.(status := Gone, detail := DELETED));
    DeletionsPersist(s, o, done.(deleted := done.deleted + [Key(deleting)]));
  }

  lemma DeleteLiveSettles(s: Services, o: Options, seen: Option<Observation>, index: nat, p: Pass)
    requires index < |p.resources| && p.failure.None? && WillDelete(o, seen, p.resources[index])
    requires DeleteLive(s, o, index, p).failure.None?
    ensures Settled(o, seen, index, p, DeleteLive(s, o, index, p))
  {
    DeleteLiveDeletions(s, o, index, p);
    assert DeleteLive(s, o, index, p).resources == p.resources[index := Settle(o, seen, p.resources[index])];
  }

  lemma TreatSettles(s: Services, o: Options, inventory: map<string, Observation>, index: nat, p: Pass)
    requires index < |p.resources| && p.failure.None?
    requires Treat(s, o, inventory, index, p).failure.None?
    ensures Settled(o, Lookup(inventory, p.resources[index]), index, p, Treat(s, o, inventory, index, p))
  {
    var r := p.resources[index];
    var seen := Lookup(inventory, r);
    assert p.resources[index := r] == p.resources;
    if Absorbing(r.status) {
    } else if seen.Some? && !seen.value.owned {
      DeletionsPersist(s, o, Put(p, index, r.(status := Refused, detail := UNCONFIRMED)).(refused := p.refused + [Key(r)]));
    } else if seen.Some? && seen.value.isProtected {
      DeletionsPersist(s, o, Put(p, index, r.(status := Claimed, detail := PROTECTED)).(pending := p.pending + [Key(r)]));
    } else if seen.Some? && seen.value.delayed {
      DeletionsPersist(s, o, Put(p, index, r.(status := Tombstone, detail := DELAYED)).(pending := p.pending + [Key(r)]));
    } else if seen.None? && (r.identity != "" || r.status != Claimed) && (r.status == Claimed || r.status == Deleting) {
      DeletionsPersist(s, o, Put(p, index, r.(status := Gone, detail := VANISHED)).(gone := p.gone + [Key(r)]));
    } else if WillDelete(o, seen, r) {
      DeleteLiveSettles(s, o, seen, index, p);
    }
  }

  // ---- the fate of every entry -----------------------------------------------------------------

  function Fate(o: Options, inventory: map<string, Observation>, r: Resource): Resource {
    Settle(o, Lookup(inventory, r), r)
  }

  /** The deletions a pass makes, in the order of its snapshot. */
  function Planned(o: Options, inventory: map<string, Observation>, snapshot: seq<Resource>): seq<Resource> {
    if snapshot == [] then []
    else
      var r := snapshot[|snapshot| - 1];
      Planned(o, inventory, snapshot[..|snapshot| - 1])
      + if WillDelete(o, Lookup(inventory, r), r) then [r.(status := Deleting)] else []
  }

  predicate EntriesSettled(o: Options, inventory: map<string, Observation>, snapshot: seq<Resource>,
                           before: seq<Resource>, after: seq<Resource>)
  {
    && |after| == |before|
    && forall i | 0 <= i < |before| ::
         after[i] == if before[i] in snapshot then Fate(o, inventory, before[i]) else before[i]
  }

  predicate NoneRefused(o: Options, inventory: map<string, Observation>, snapshot: seq<Resource>) {
    forall r | r in snapshot :: Fate(o, inventory, r).status != Refused
  }

  predicate NonePending(o: Options, inventory: map<string, Observation>, snapshot: seq<Resource>) {
    forall r | r in snapshot :: !AddsPending(o, Lookup(inventory, r), r)
  }

  predicate SettledLike(o: Options, inventory: map<string, Observation>, snapshot: seq<Resource>, p: Pass, q: Pass) {
    && EntriesSettled(o, inventory, snapshot, p.resources, q.resources)
    && (q.refused == [] <==> p.refused == [] && NoneRefused(o, inventory, snapshot))
    && (q.pending == [] <==> p.pending == [] && NonePending(o, inventory, snapshot))
    && Deletions(q.log) == Deletions(p.log) + Planned(o, inventory, snapshot)
  }

  lemma FateKey(o: Options, inventory: map<string, Observation>, r: Resource)
    ensures Key(Fate(o, inventory, r)) == Key(r)
  {
  }

  lemma SettledKeys(o: Options, inventory: map<string, Observation>, snapshot: seq<Resource>,
                    before: seq<Resource>, after: seq<Resource>)
    requires EntriesSettled(o, inventory, snapshot, before, after) && DistinctKeys(before)
    ensures DistinctKeys(after)
  {
    forall i | 0 <= i < |before| ensures Key(after[i]) == Key(before[i]) {
      FateKey(o, inventory, before[i]);
    }
  }

  lemma FindByKey(rs: seq<Resource>, i: nat)
    requires i < |rs| && DistinctKeys(rs)
    ensures KeyIndex(rs, Key(rs[i]), 0) == i
  {
    var found := KeyIndex(rs, Key(rs[i]), 0);
    assert found >= 0;
    assert found <= i;
  }

  lemma LastIsNew(front: seq<Resource>, last: Resource)
    requires DistinctKeys(front + [last])
    ensures last !in front
  {
    forall i | 0 <= i < |front| ensures front[i] != last {
      assert Key((front + [last])[i]) != Key((front + [last])[|front|]);
    }
  }

  lemma EntryStepSettles(o: Options, inventory: map<string, Observation>, front: seq<Resource>, last: Resource, i: nat,
                         rs: seq<Resource>, before: seq<Resource>)
    requires EntriesSettled(o, inventory, front, rs, before) && last !in front
    requires i < |rs| && rs[i] == last && DistinctKeys(rs)
    ensures EntriesSettled(o, inventory, front + [last], rs, before[i := Fate(o, inventory, last)])
  {
    forall k | 0 <= k < |rs| && k != i ensures rs[k] != last {
      if k < i { assert Key(rs[k]) != Key(rs[i]); } else { assert Key(rs[i]) != Key(rs[k]); }
    }
  }

  lemma TreatedSettles(o: Options, inventory: map<string, Observation>, front: seq<Resource>, last: Resource, i: nat,
                       p: Pass, before: Pass, q: Pass)
    requires SettledLike(o, inventory, front, p, before) && last !in front
    requires i < |p.resources| && p.resources[i] == last && DistinctKeys(p.resources)
    requires i < |before.resources| && before.resources[i] == last
    requires Settled(o, Lookup(inventory, last), i, before, q)
    ensures SettledLike(o, inventory, front + [last], p, q)
  {
    EntryStepSettles(o, inventory, front, last, i, p.resources, before.resources);
    var snapshot := front + [last];
    assert snapshot[..|snapshot| - 1] == front;
    assert forall r :: r in snapshot <==> r in front || r == last;
    assert NoneRefused(o, inventory, snapshot) <==> NoneRefused(o, inventory, front) && Fate(o, inventory, last).status != Refused;
    assert NonePending(o, inventory, snapshot) <==> NonePending(o, inventory, front) && !AddsPending(o, Lookup(inventory, last), last);
  }

  lemma StepSettles(s: Services, o: Options, inventory: map<string, Observation>, front: seq<Resource>, last: Resource,
                    p: Pass, before: Pass)
    requires SettledLike(o, inventory, front, p, before) && last !in front && last in p.resources
    requires DistinctKeys(p.resources) && before.failure.None?
    requires Step(s, o, inventory, last, before).failure.None?
    ensures SettledLike(o, inventory, front + [last], p, Step(s, o, inventory, last, before))
  {
    SettledKeys(o, inventory, front, p.resources, before.resources);
    var i :| 0 <= i < |p.resources| && p.resources[i] == last;
    assert before.resources[i] == last;
    FindByKey(before.resources, i);
    TreatSettles(s, o, inventory, i, before);
    TreatedSettles(o, inventory, front, last, i, p, before, Step(s, o, inventory, last, before));
  }

  lemma {:induction false} DriveSettles(s: Services, o: Options, inventory: map<string, Observation>,
                                        snapshot: seq<Resource>, p: Pass)
    requires p.failure.None? && DistinctKeys(p.resources) && DistinctKeys(snapshot)
    requires forall r | r in snapshot :: r in p.resources
    requires Drive(s, o, inventory, snapshot, p).failure.None?
    ensures SettledLike(o, inventory, snapshot, p, Drive(s, o, inventory, snapshot, p))
  {
    if snapshot != [] {
      var front, last := snapshot[..|snapshot| - 1], snapshot[|snapshot| - 1];
      assert snapshot == front + [last];
      LastIsNew(front, last);
      DriveSettles(s, o, inventory, front, p);
      StepSettles(s, o, inventory, front, last, p, Drive(s, o, inventory, front, p));
    }
  }

  lemma SnapshotKeys(rs: seq<Resource>)
    requires DistinctKeys(rs)
    ensures DistinctKeys(RankSorted(rs))
    ensures forall r :: r in RankSorted(rs) <==> r in rs
  {
    var t := RankSorted(rs);
    forall r ensures r in t <==> r in rs { SortMembers(rs, RankOrder, r); }
    assert NoRepeats(rs);
    SortKeeps(rs, RankOrder);
    NoRepeatsForgetsOrder(rs, t);
    forall i, j | 0 <= i < j < |t| ensures Key(t[i]) != Key(t[j]) {
      assert t[i] in t && t[j] in t;
      var a :| 0 <= a < |rs| && rs[a] == t[i];
      var b :| 0 <= b < |rs| && rs[b] == t[j];
      assert t[i] != t[j];
      if a < b { assert Key(rs[a]) != Key(rs[b]); } else { assert Key(rs[b]) != Key(rs[a]); }
    }
  }

  lemma StartFacts(s: Services, o: Options, rs: seq<Resource>, observed: seq<Observation>)
    ensures var start := Start(s, o, rs, observed);
            && start.resources == Merge(rs, observed) && start.refused == [] && start.pending == []
            && Deletions(start.log) == []
  {
    DeletionsPersist(s, o, Pass(Merge(rs, observed), [], [], [], [], [], None));
  }

  /** An uninterrupted pass gives every merged entry its fate and makes exactly the planned deletions. */
  lemma SweepSettles(s: Services, o: Options, rs: seq<Resource>, observed: seq<Observation>)
    requires DistinctKeys(Merge(rs, observed))
    requires Sweep(s, o, rs, observed).failure.None?
    ensures SettledLike(o, IndexInventory(observed), RankSorted(Merge(rs, observed)),
                        Start(s, o, rs, observed), Sweep(s, o, rs, observed))
    ensures Sweep(s, o, rs, observed).resources
         == seq(|Merge(rs, observed)|, i requires 0 <= i < |Merge(rs, observed)| =>
                  Fate(o, IndexInventory(observed), Merge(rs, observed)[i]))
    ensures Deletions(Sweep(s, o, rs, observed).log)
         == Planned(o, IndexInventory(observed), RankSorted(Merge(rs, observed)))
  {
    var merged := Merge(rs, observed);
    StartFacts(s, o, rs, observed);
    SnapshotKeys(merged);
    DriveSettles(s, o, IndexInventory(observed), RankSorted(merged), Start(s, o, rs, observed));
    var q := Sweep(s, o, rs, observed);
    forall i | 0 <= i < |merged| ensures q.resources[i] == Fate(o, IndexInventory(observed), merged[i]) {
      assert merged[i] in RankSorted(merged);
    }
  }

  // ---- the verdict -----------------------------------------------------------------------------

  predicate Unfinished(s: Status) {
    s == Claimed || s == Deleting || s == Tombstone
  }

  lemma {:induction false} UniqueEmpty(values: seq<string>)
    ensures Unique(values) == [] <==> values == []
  {
    if values != [] {
      UniqueEmpty(values[..|values| - 1]);
    }
  }

  lemma SortEmpty(values: seq<string>)
    ensures Sort(values, StrLe) == [] <==> values == []
  {
    SortKeeps(values, StrLe);
  }

  lemma {:induction false} NoUnfinishedKeys(rs: seq<Resource>)
    ensures UnfinishedKeys(rs) == [] <==> forall i | 0 <= i < |rs| :: !Unfinished(rs[i].status)
  {
    if rs != [] {
      var n := |rs| - 1;
      NoUnfinishedKeys(rs[..n]);
      assert forall i | 0 <= i < n :: rs[..n][i] == rs[i];
      assert UnfinishedKeys(rs) == [] <==> UnfinishedKeys(rs[..n]) == [] && !Unfinished(rs[n].status);
    }
  }

  predicate Quiescent(final: seq<Observation>) {
    forall i | 0 <= i < |final| && final[i].owned :: !final[i].live && !final[i].delayed
  }

  lemma {:induction false} NothingOwnedLeft(final: seq<Observation>)
    ensures OwnedLive(final) == [] && OwnedDelayed(final) == [] <==> Quiescent(final)
  {
    if final != [] {
      NothingOwnedLeft(final[..|final| - 1]);
    }
  }

  /** When a report says `complete`, in dry-run mode as well. */
  lemma VerdictIff(o: Options, p: Pass, final: seq<Observation>)
    ensures Judge(o, p, final).verdict == Complete
       <==> && p.refused == [] && p.pending == []
            && (forall i | 0 <= i < |p.resources| :: !Unfinished(p.resources[i].status))
            && Quiescent(final)
  {
    NothingOwnedLeft(final);
    NoUnfinishedKeys(p.resources);
    SortEmpty(OwnedLive(final));
    SortEmpty(OwnedDelayed(final));
    var keys := p.pending + UnfinishedKeys(p.resources);
    UniqueEmpty(keys);
    SortEmpty(Unique(keys));
  }

  predicate Supported(rs: seq<Resource>) {
    forall i | 0 <= i < |rs| :: !rs[i].status.Unsupported?
  }

  lemma {:induction false} MergeSupported(rs: seq<Resource>, observed: seq<Observation>)
    requires Supported(rs)
    ensures Supported(Merge(rs, observed))
  {
    if observed != [] {
      MergeSupported(rs, observed[..|observed| - 1]);
    }
  }

  // ---- verdict soundness, whatever the keys ------------------------------------------------------

  /** An earlier entry has the same key, so the loop, which takes the first match, never reaches this one. */
  predicate Shadowed(rs: seq<Resource>, k: nat)
    requires k < |rs|
  {
    exists i | 0 <= i < k :: Key(rs[i]) == Key(rs[k])
  }

  predicate SameKeys(a: seq<Resource>, b: seq<Resource>) {
    |a| == |b| && forall i | 0 <= i < |a| :: Key(a[i]) == Key(b[i])
  }

  lemma KeyIndexByKeys(a: seq<Resource>, b: seq<Resource>, key: string, from: nat)
    requires SameKeys(a, b) && from <= |a|
    ensures KeyIndex(a, key, from) == KeyIndex(b, key, from)
    decreases |a| - from
  {
    if from < |a| { KeyIndexByKeys(a, b, key, from + 1); }
  }

  /** What one turn of the loop leaves alone, and what it reports. */
  predicate Touched(before: Pass, q: Pass, index: nat)
    requires index < |before.resources|
  {
    && SameKeys(before.resources, q.resources) && q.resources == before.resources[index := q.resources[index]]
    && (q.refused == [] ==> before.refused == [] && q.resources[index].status != Refused)
    && (!before.resources[index].status.Unsupported? ==> !q.resources[index].status.Unsupported?)
  }

  lemma SettledTouches(o: Options, seen: Option<Observation>, index: nat, p: Pass, q: Pass)
    requires index < |p.resources| && Settled(o, seen, index, p, q)
    ensures Touched(p, q, index)
  {
    assert Key(Settle(o, seen, p.resources[index])) == Key(p.resources[index]);
  }

  lemma TreatTouches(s: Services, o: Options, inventory: map<string, Observation>, index: nat, p: Pass)
    requires index < |p.resources| && p.failure.None? && Treat(s, o, inventory, index, p).failure.None?
    ensures Touched(p, Treat(s, o, inventory, index, p), index)
  {
    TreatSettles(s, o, inventory, index, p);
    SettledTouches(o, Lookup(inventory, p.resources[index]), index, p, Treat(s, o, inventory, index, p));
  }

  /** The first entry of each visited key is not refused, and shadowed entries stay as they were. */
  predicate Visited(snapshot: seq<Resource>, p: Pass, q: Pass) {
    && SameKeys(p.resources, q.resources)
    && (forall k | 0 <= k < |p.resources| && Shadowed(p.resources, k) :: q.resources[k] == p.resources[k])
    && (Supported(p.resources) ==> Supported(q.resources))
    && (q.refused == [] ==>
          forall r | r in snapshot :: FirstNotRefused(q.resources, Key(r)))
  }

  predicate FirstNotRefused(rs: seq<Resource>, key: string) {
    var index := KeyIndex(rs, key, 0);
    index >= 0 ==> rs[index].status != Refused
  }

  lemma StillReached(before: seq<Resource>, after: seq<Resource>, index: nat, key: string)
    requires index < |before| && SameKeys(before, after) && after == before[index := after[index]]
    requires after[index].status != Refused && (FirstNotRefused(before, key) || KeyIndex(before, key, 0) == index)
    ensures FirstNotRefused(after, key)
  {
    KeyIndexByKeys(after, before, key, 0);
  }

  /** Changing the first entry of a key to one that is not refused adds that key to the visited ones. */
  lemma ReachNext(before: seq<Resource>, after: seq<Resource>, snapshot: seq<Resource>, index: nat)
    requires snapshot != [] && index < |before| && SameKeys(before, after) && after == before[index := after[index]]
    requires index == KeyIndex(before, Key(snapshot[|snapshot| - 1]), 0) && after[index].status != Refused
    requires forall r | r in snapshot[..|snapshot| - 1] :: FirstNotRefused(before, Key(r))
    ensures forall r | r in snapshot :: FirstNotRefused(after, Key(r))
  {
    forall i | 0 <= i < |snapshot| ensures FirstNotRefused(after, Key(snapshot[i])) {
      assert i < |snapshot| - 1 ==> snapshot[..|snapshot| - 1][i] == snapshot[i];
      StillReached(before, after, index, Key(snapshot[i]));
    }
  }

  lemma ShadowedStays(p: Pass, before: Pass, q: Pass, index: nat, key: string)
    requires index < |before.resources| && Touched(before, q, index) && SameKeys(p.resources, before.resources)
    requires index == KeyIndex(before.resources, key, 0)
    requires forall k | 0 <= k < |p.resources| && Shadowed(p.resources, k) :: before.resources[k] == p.resources[k]
    ensures SameKeys(p.resources, q.resources)
    ensures forall k | 0 <= k < |p.resources| && Shadowed(p.resources, k) :: q.resources[k] == p.resources[k]
  {
    assert !Shadowed(p.resources, index);
  }

  lemma SupportStays(before: Pass, q: Pass, index: nat)
    requires index < |before.resources| && Touched(before, q, index)
    ensures Supported(before.resources) ==> Supported(q.resources)
  {
    assert forall k | 0 <= k < |before.resources| && k != index :: q.resources[k] == before.resources[k];
  }

  lemma VisitTouched(snapshot: seq<Resource>, p: Pass, before: Pass, q: Pass)
    requires snapshot != [] && Visited(snapshot[..|snapshot| - 1], p, before)
    requires var index := KeyIndex(before.resources, Key(snapshot[|snapshot| - 1]), 0);
             if index < 0 then q == before else Touched(before, q, index)
    ensures Visited(snapshot, p, q)
  {
    var key := Key(snapshot[|snapshot| - 1]);
    var index := KeyIndex(before.resources, key, 0);
    if index >= 0 {
      ShadowedStays(p, before, q, index, key);
      SupportStays(before, q, index);
      if q.refused == [] { ReachNext(before.resources, q.resources, snapshot, index); }
    } else {
      if q.refused == [] { NotFoundReaches(snapshot, before.resources); }
    }
  }

  lemma NotFoundReaches(snapshot: seq<Resource>, now: seq<Resource>)
    requires snapshot != [] && KeyIndex(now, Key(snapshot[|snapshot| - 1]), 0) < 0
    requires forall r | r in snapshot[..|snapshot| - 1] :: FirstNotRefused(now, Key(r))
    ensures forall r | r in snapshot :: FirstNotRefused(now, Key(r))
  {
    var n := |snapshot| - 1;
    NoneRefusedThere(now, Key(snapshot[n]));
    forall i | 0 <= i < |snapshot| ensures FirstNotRefused(now, Key(snapshot[i])) {
      if i < n { assert snapshot[..n][i] == snapshot[i] && snapshot[i] in snapshot[..n]; }
    }
  }

  lemma NoneRefusedThere(now: seq<Resource>, key: string)
    requires KeyIndex(now, key, 0) < 0
    ensures FirstNotRefused(now, key)
  {
  }

  lemma VisitNext(s: Services, o: Options, inventory: map<string, Observation>, snapshot: seq<Resource>, p: Pass,
                  before: Pass)
    requires snapshot != [] && p.failure.None? && before.failure.None?
    requires Visited(snapshot[..|snapshot| - 1], p, before)
    requires Step(s, o, inventory, snapshot[|snapshot| - 1], before).failure.None?
    ensures Visited(snapshot, p, Step(s, o, inventory, snapshot[|snapshot| - 1], before))
  {
    var index := KeyIndex(before.resources, Key(snapshot[|snapshot| - 1]), 0);
    if index >= 0 { TreatTouches(s, o, inventory, index, before); }
    VisitTouched(snapshot, p, before, Step(s, o, inventory, snapshot[|snapshot| - 1], before));
  }

  lemma DriveNext(s: Services, o: Options, inventory: map<string, Observation>, snapshot: seq<Resource>, p: Pass)
    requires snapshot != [] && p.failure.None? && Drive(s, o, inventory, snapshot, p).failure.None?
    ensures var n := |snapshot| - 1;
            var before := Drive(s, o, inventory, snapshot[..n], p);
            && before.failure.None?
            && Drive(s, o, inventory, snapshot, p) == Step(s, o, inventory, snapshot[n], before)
  {
  }

  lemma NothingVisited(p: Pass)
    ensures Visited([], p, p)
  {
  }

  lemma {:induction false} DriveVisits(s: Services, o: Options, inventory: map<string, Observation>,
                                       snapshot: seq<Resource>, p: Pass)
    requires p.failure.None? && Drive(s, o, inventory, snapshot, p).failure.None?
    ensures Visited(snapshot, p, Drive(s, o, inventory, snapshot, p))
  {
    NothingVisited(p);
    if snapshot != [] {
      var front := snapshot[..|snapshot| - 1];
      DriveNext(s, o, inventory, snapshot, p);
      DriveVisits(s, o, inventory, front, p);
      VisitNext(s, o, inventory, snapshot, p, Drive(s, o, inventory, front, p));
    }
  }

  predicate HiddenRefusal(rs: seq<Resource>) {
    exists k | 0 <= k < |rs| :: rs[k].status == Refused && Shadowed(rs, k)
  }

  predicate AllFinished(rs: seq<Resource>) {
    forall i | 0 <= i < |rs| :: rs[i].status == Gone || rs[i].status == Intended
  }

  lemma FirstIndex(rs: seq<Resource>, k: nat)
    requires k < |rs| && !Shadowed(rs, k)
    ensures KeyIndex(rs, Key(rs[k]), 0) == k
  {
    var index := KeyIndex(rs, Key(rs[k]), 0);
    assert index <= k;
  }

  lemma ReachedNotRefused(merged: seq<Resource>, q: seq<Resource>, k: nat)
    requires SameKeys(merged, q) && k < |merged| && !Shadowed(merged, k) && FirstNotRefused(q, Key(merged[k]))
    ensures q[k].status != Refused
  {
    FirstIndex(merged, k);
    KeyIndexByKeys(merged, q, Key(merged[k]), 0);
  }

  predicate NothingOpen(rs: seq<Resource>) {
    forall i | 0 <= i < |rs| :: !Unfinished(rs[i].status)
  }

  lemma StatusLeft(s: Status)
    requires !Unfinished(s) && !s.Unsupported?
    ensures s != Refused <==> s == Gone || s == Intended
  {
  }

  lemma EntryFinishedIff(merged: seq<Resource>, snapshot: seq<Resource>, p: Pass, q: Pass, k: nat)
    requires p.resources == merged && Visited(snapshot, p, q) && Supported(merged) && q.refused == []
    requires k < |merged| && merged[k] in snapshot && NothingOpen(q.resources)
    ensures q.resources[k].status == Gone || q.resources[k].status == Intended
       <==> !(merged[k].status == Refused && Shadowed(merged, k))
  {
    StatusLeft(q.resources[k].status);
    if Shadowed(merged, k) {
      assert q.resources[k] == merged[k];
    } else {
      ReachedNotRefused(merged, q.resources, k);
    }
  }

  lemma FinishedIff(merged: seq<Resource>, snapshot: seq<Resource>, p: Pass, q: Pass)
    requires p.resources == merged && Visited(snapshot, p, q) && Supported(merged) && q.refused == []
    requires (forall r | r in merged :: r in snapshot) && NothingOpen(q.resources)
    ensures AllFinished(q.resources) <==> !HiddenRefusal(merged)
  {
    forall k | 0 <= k < |merged|
      ensures q.resources[k].status == Gone || q.resources[k].status == Intended
         <==> !(merged[k].status == Refused && Shadowed(merged, k))
    {
      EntryFinishedIff(merged, snapshot, p, q, k);
    }
  }

  /**
   * Verdict soundness: a `complete` report means the final inventory holds no owned live or owned delayed resource,
   * and every entry is gone or was never created exactly when no refused entry of the merged ledger is preceded by
   * an entry with the same key.
   */
  lemma CompleteMeansClean(s: Services, o: Options, h: Header, rs: seq<Resource>,
                           observed: seq<Observation>, final: seq<Observation>)
    requires var result := Reconcile(s, o, h, rs, Some(observed), Some(final));
             result.Reported? && result.report.verdict == Complete
    ensures Quiescent(final)
    ensures AllFinished(Reconcile(s, o, h, rs, Some(observed), Some(final)).report.resources)
       <==> !HiddenRefusal(Merge(rs, observed))
  {
    var p, merged, start := Sweep(s, o, rs, observed), Merge(rs, observed), Start(s, o, rs, observed);
    VerdictIff(o, p, final);
    StartFacts(s, o, rs, observed);
    MergeSupported(rs, observed);
    DriveVisits(s, o, IndexInventory(observed), RankSorted(merged), start);
    forall r | r in merged ensures r in RankSorted(merged) { SortMembers(merged, RankOrder, r); }
    FinishedIff(merged, RankSorted(merged), start, p);
  }

  // ---- without distinct keys -------------------------------------------------------------------

  lemma {:induction false} DriveOnGone(s: Services, o: Options, inventory: map<string, Observation>,
                                       snapshot: seq<Resource>, p: Pass)
    requires p.failure.None? && |p.resources| > 0 && p.resources[0].status == Gone
    requires forall i | 0 <= i < |snapshot| :: Key(snapshot[i]) == Key(p.resources[0])
    ensures var q := Drive(s, o, inventory, snapshot, p);
            q.failure.None? && q.resources == p.resources && q.refused == p.refused && q.pending == p.pending
  {
    if snapshot != [] {
      DriveOnGone(s, o, inventory, snapshot[..|snapshot| - 1], p);
    }
  }

  const GONE_ENTRY := Resource("db", "", "x", "", RANK_DEFAULT, Gone, "")
  const REFUSED_ENTRY := Resource("db", "", "n", "", RANK_DEFAULT, Refused, "")
  const LATE_BINDING := Observation("db", "", "n", "x", true, false, false, false)

  lemma MergeBindsSecond()
    ensures Merge([GONE_ENTRY, REFUSED_ENTRY], [LATE_BINDING]) == [GONE_ENTRY, REFUSED_ENTRY.(identity := "x")]
  {
    var rs := [GONE_ENTRY, REFUSED_ENTRY];
    assert [LATE_BINDING][..0] == [];
    assert Merge(rs, [LATE_BINDING][..0]) == rs;
    assert SameName(rs[1], LATE_BINDING);
    assert !SameName(rs[0], LATE_BINDING);
    assert InventoryMatch(rs, LATE_BINDING) == 1;
  }

  lemma ClashingSweep(s: Services, o: Options)
    requires !o.persist
    ensures var p := Sweep(s, o, [GONE_ENTRY, REFUSED_ENTRY], [LATE_BINDING]);
            && p.failure.None? && p.resources == [GONE_ENTRY, REFUSED_ENTRY.(identity := "x")]
            && p.refused == [] && p.pending == []
  {
    var rs, merged := [GONE_ENTRY, REFUSED_ENTRY], [GONE_ENTRY, REFUSED_ENTRY.(identity := "x")];
    MergeBindsSecond();
    ClashingKeys();
    var snapshot := RankSorted(merged);
    forall i | 0 <= i < |snapshot| ensures Key(snapshot[i]) == Key(merged[0]) {
      SortMembers(merged, RankOrder, snapshot[i]);
    }
    DriveOnGone(s, o, IndexInventory([LATE_BINDING]), snapshot, Start(s, o, rs, [LATE_BINDING]));
  }

  /** When an observed identity equals an unbound entry's name, a refused entry can hide behind it. */
  lemma CompleteDespiteRefused(s: Services)
    ensures ValidResources([GONE_ENTRY, REFUSED_ENTRY]) && REFUSED_ENTRY.status == Refused
    ensures var o := Options(false, false);
            var p := Sweep(s, o, [GONE_ENTRY, REFUSED_ENTRY], [LATE_BINDING]);
            && REFUSED_ENTRY.(identity := "x") in p.resources
            && Judge(o, p, [LATE_BINDING]).verdict == Complete
  {
    var o := Options(false, false);
    ClashingKeys();
    ClashingSweep(s, o);
    VerdictIff(o, Sweep(s, o, [GONE_ENTRY, REFUSED_ENTRY], [LATE_BINDING]), [LATE_BINDING]);
  }

  lemma ClashingKeys()
    ensures ValidResources([GONE_ENTRY, REFUSED_ENTRY])
    ensures Key(GONE_ENTRY) == Key(REFUSED_ENTRY.(identity := "x"))
  {
    assert !IsSpace("x"[0]) && !IsSpace("n"[0]) && !IsSpace("db"[0]);
    assert !Blank("x") && !Blank("n") && !Blank("db");
    assert Fields(GONE_ENTRY) == "dbx" && Fields(REFUSED_ENTRY) == "dbn";
    ShortIsNotSensitive("dbx");
    ShortIsNotSensitive("dbn");
    assert Key(GONE_ENTRY) == "db" + ":" + "x" && Key(REFUSED_ENTRY) == "db" + ":" + "n";
    assert Key(GONE_ENTRY)[3] != Key(REFUSED_ENTRY)[3];
  }

  lemma ShortIsNotSensitive(s: string)
    requires |s| < 5
    ensures !Sensitive(s)
  {
  }
}
