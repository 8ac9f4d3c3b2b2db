/** What a pass makes of each entry and what its report lists, in fields. */
module CleanupReport {
  import opened Optional
  import opened Ordering
  import opened CleanupLedger
  import opened CleanupSettle

  // ---- one entry and its observation -----------------------------------------------------------

  predicate IsOpen(r: Resource) {
    r.status != Gone && r.status != Refused && r.status != Tombstone
  }

  /** Seen as owned, and neither protected nor delayed. */
  predicate Free(seen: Option<Observation>) {
    seen.Some? && seen.value.owned && !seen.value.isProtected && !seen.value.delayed
  }

  predicate ReportsDeleted(dryRun: bool, seen: Option<Observation>, r: Resource) {
    IsOpen(r) && !dryRun && Free(seen) && seen.value.live
  }

  predicate ReportsGone(seen: Option<Observation>, r: Resource) {
    r.status == Gone || (seen == None && (r.status == Deleting || (r.status == Claimed && r.identity != "")))
  }

  predicate ReportsRefused(seen: Option<Observation>, r: Resource) {
    r.status == Refused || (IsOpen(r) && seen.Some? && !seen.value.owned)
  }

  predicate ReportsPending(dryRun: bool, seen: Option<Observation>, r: Resource) {
    || r.status == Tombstone || (seen == None && r.status == Claimed && r.identity == "")
    || (IsOpen(r) && seen.Some? && seen.value.owned && (seen.value.isProtected || seen.value.delayed || (seen.value.live && dryRun)))
  }

  /** The entry after the pass: its status and the text that says why; everything else stays. */
  predicate Ends(dryRun: bool, seen: Option<Observation>, r: Resource, after: Resource) {
    && after == r.(status := after.status, detail := after.detail)
    && if !IsOpen(r) then after == r
       else if seen.Some? && !seen.value.owned then
         after.status == Refused && after.detail == "owning-service inventory " + "did not confirm ownership"
       else if seen.Some? && seen.value.isProtected then
         after.status == Claimed && after.detail == "resource is protected; " + "deletion was not attempted"
       else if seen.Some? && seen.value.delayed then
         after.status == Tombstone && after.detail == "provider-mandated " + "deletion tombstone"
       else if ReportsDeleted(dryRun, seen, r) then
         after.status == Gone && after.detail == "deleted through " + "owning-service inventory"
       else if ReportsGone(seen, r) then
         after.status == Gone && after.detail == "owning-service inventory " + "no longer contains this resource"
       else after == r
  }

  lemma SettleEnds(o: Options, seen: Option<Observation>, r: Resource)
    ensures Ends(o.dryRun, seen, r, Settle(o, seen, r))
  {
  }

  // ---- the lists -------------------------------------------------------------------------------

  /** The keys of the entries `f` picks, in order. */
  function Listed(rs: seq<Resource>, f: Resource -> bool): seq<string> {
    if rs == [] then []
    else Listed(rs[..|rs| - 1], f) + if f(rs[|rs| - 1]) then [Key(rs[|rs| - 1])] else []
  }

  function DeletedNow(o: Options, inventory: map<string, Observation>): Resource -> bool {
    r => ReportsDeleted(o.dryRun, Lookup(inventory, r), r)
  }

  function GoneNow(inventory: map<string, Observation>): Resource -> bool {
    r => ReportsGone(Lookup(inventory, r), r)
  }

  function RefusedNow(inventory: map<string, Observation>): Resource -> bool {
    r => ReportsRefused(Lookup(inventory, r), r)
  }

  function PendingNow(o: Options, inventory: map<string, Observation>): Resource -> bool {
    r => ReportsPending(o.dryRun, Lookup(inventory, r), r)
  }

  /** The lists of `q` are those of `p` and what the snapshot's entries add. */
  predicate ListsGrow(o: Options, inventory: map<string, Observation>, snapshot: seq<Resource>, p: Pass, q: Pass) {
    && q.deleted == p.deleted + Listed(snapshot, DeletedNow(o, inventory))
    && q.gone == p.gone + Listed(snapshot, GoneNow(inventory))
    && q.refused == p.refused + Listed(snapshot, RefusedNow(inventory))
    && q.pending == p.pending + Listed(snapshot, PendingNow(o, inventory))
  }

  predicate Reports(o: Options, seen: Option<Observation>, r: Resource, p: Pass, q: Pass) {
    && q.deleted == p.deleted + (if ReportsDeleted(o.dryRun, seen, r) then [Key(r)] else [])
    && q.gone == p.gone + (if ReportsGone(seen, r) then [Key(r)] else [])
    && q.refused == p.refused + (if ReportsRefused(seen, r) then [Key(r)] else [])
    && q.pending == p.pending + (if ReportsPending(o.dryRun, seen, r) then [Key(r)] else [])
  }

  lemma DeleteLiveReports(s: Services, o: Options, index: nat, p: Pass)
    requires index < |p.resources| && p.failure.None? && DeleteLive(s, o, index, p).failure.None?
    ensures var q, r := DeleteLive(s, o, index, p), p.resources[index];
            q.deleted == p.deleted + [Key(r)] && q.gone == p.gone && q.refused == p.refused && q.pending == p.pending
  {
    DeleteLiveForm(s, o, index, p);
    assert Key(p.resources[index].(status := Deleting)) == Key(p.resources[index]);
  }

  lemma TreatReports(s: Services, o: Options, inventory: map<string, Observation>, index: nat, p: Pass)
    requires index < |p.resources| && p.failure.None? && Treat(s, o, inventory, index, p).failure.None?
    ensures Reports(o, Lookup(inventory, p.resources[index]), p.resources[index], p, Treat(s, o, inventory, index, p))
  {
    var r := p.resources[index];
    var seen := Lookup(inventory, r);
    if WillDelete(o, seen, r) { DeleteLiveReports(s, o, index, p); }
  }

  lemma ListedNext(front: seq<Resource>, last: Resource, f: Resource -> bool)
    ensures Listed(front + [last], f) == Listed(front, f) + if f(last) then [Key(last)] else []
  {
    assert (front + [last])[..|front|] == front;
  }

  lemma ListsGrowNext(o: Options, inventory: map<string, Observation>, front: seq<Resource>, last: Resource, p: Pass,
                      before: Pass, q: Pass)
    requires ListsGrow(o, inventory, front, p, before) && Reports(o, Lookup(inventory, last), last, before, q)
    ensures ListsGrow(o, inventory, front + [last], p, q)
  {
    ListedNext(front, last, DeletedNow(o, inventory));
    ListedNext(front, last, GoneNow(inventory));
    ListedNext(front, last, RefusedNow(inventory));
    ListedNext(front, last, PendingNow(o, inventory));
  }

  lemma StepReports(s: Services, o: Options, inventory: map<string, Observation>, front: seq<Resource>, last: Resource,
                    p: Pass, before: Pass)
    requires SettledLike(o, inventory, front, p, before) && ListsGrow(o, inventory, front, p, before)
    requires last !in front && last in p.resources && DistinctKeys(p.resources) && before.failure.None?
    requires Step(s, o, inventory, last, before).failure.None?
    ensures ListsGrow(o, inventory, front + [last], p, Step(s, o, inventory, last, before))
  {
    SettledKeys(o, inventory, front, p.resources, before.resources);
    var i :| 0 <= i < |p.resources| && p.resources[i] == last;
    assert before.resources[i] == last;
    FindByKey(before.resources, i);
    TreatReports(s, o, inventory, i, before);
    ListsGrowNext(o, inventory, front, last, p, before, Step(s, o, inventory, last, before));
  }

  lemma {:induction false} DriveReports(s: Services, o: Options, inventory: map<string, Observation>,
                                        snapshot: seq<Resource>, p: Pass)
    requires p.failure.None? && DistinctKeys(p.resources) && DistinctKeys(snapshot)
    requires forall r | r in snapshot :: r in p.resources
    requires Drive(s, o, inventory, snapshot, p).failure.None?
    ensures ListsGrow(o, inventory, snapshot, p, Drive(s, o, inventory, snapshot, p))
  {
    if snapshot != [] {
      var front, last := snapshot[..|snapshot| - 1], snapshot[|snapshot| - 1];
      assert snapshot == front + [last];
      LastIsNew(front, last);
      DriveReports(s, o, inventory, front, p);
      DriveSettles(s, o, inventory, front, p);
      StepReports(s, o, inventory, front, last, p, Drive(s, o, inventory, front, p));
    }
  }

  /**
   * An error-free pass over distinct keys, in fields: each merged entry ends as its status and observation dictate, and
   * the lists name, in rank order, exactly the entries deleted, gone, refused and pending.
   */
  lemma PassReports(s: Services, o: Options, rs: seq<Resource>, observed: seq<Observation>)
    requires DistinctKeys(Merge(rs, observed)) && Sweep(s, o, rs, observed).failure.None?
    ensures var p, merged, inventory := Sweep(s, o, rs, observed), Merge(rs, observed), IndexInventory(observed);
            var snapshot := RankSorted(merged);
            && |p.resources| == |merged|
            && (forall i | 0 <= i < |merged| :: Ends(o.dryRun, Lookup(inventory, merged[i]), merged[i], p.resources[i]))
            && p.deleted == Listed(snapshot, DeletedNow(o, inventory)) && p.gone == Listed(snapshot, GoneNow(inventory))
            && p.refused == Listed(snapshot, RefusedNow(inventory)) && p.pending == Listed(snapshot, PendingNow(o, inventory))
  {
    var merged, inventory, start := Merge(rs, observed), IndexInventory(observed), Start(s, o, rs, observed);
    StartFacts(s, o, rs, observed);
    SnapshotKeys(merged);
    SweepSettles(s, o, rs, observed);
    DriveReports(s, o, inventory, RankSorted(merged), start);
    forall i | 0 <= i < |merged| ensures Ends(o.dryRun, Lookup(inventory, merged[i]), merged[i], Sweep(s, o, rs, observed).resources[i]) {
      SettleEnds(o, Lookup(inventory, merged[i]), merged[i]);
    }
  }

  // ---- the report ------------------------------------------------------------------------------

  lemma {:induction false} RemainingIs(rs: seq<Resource>, r: Resource)
    ensures multiset(Remaining(rs))[r] == if r.status == Gone then 0 else multiset(rs)[r]
  {
    if rs != [] {
      var front, last := rs[..|rs| - 1], rs[|rs| - 1];
      RemainingIs(front, r);
      assert rs == front + [last];
    }
  }

  predicate OwnedAnd(final: seq<Observation>, identity: string, live: bool) {
    exists x | x in final :: x.owned && x.identity == identity && if live then x.live else x.delayed
  }

  lemma {:induction false} OwnedLists(final: seq<Observation>, identity: string)
    ensures identity in OwnedLive(final) <==> OwnedAnd(final, identity, true)
    ensures identity in OwnedDelayed(final) <==> OwnedAnd(final, identity, false)
  {
    if final != [] {
      var front, last := final[..|final| - 1], final[|final| - 1];
      OwnedLists(front, identity);
      assert final == front + [last];
    }
  }

  predicate Unsettled(rs: seq<Resource>, key: string) {
    exists r | r in rs :: Key(r) == key && (r.status == Claimed || r.status == Deleting || r.status == Tombstone)
  }

  lemma {:induction false} UnfinishedLists(rs: seq<Resource>, key: string)
    ensures key in UnfinishedKeys(rs) <==> Unsettled(rs, key)
  {
    if rs != [] {
      var front, last := rs[..|rs| - 1], rs[|rs| - 1];
      UnfinishedLists(front, key);
      assert rs == front + [last];
    }
  }

  lemma {:induction false} UniqueMembers(values: seq<string>, key: string)
    ensures key in Unique(values) <==> key in values
  {
    if values != [] {
      UniqueMembers(values[..|values| - 1], key);
      assert values == values[..|values| - 1] + [values[|values| - 1]];
    }
  }

  lemma UniqueKeysMembers(values: seq<string>, key: string)
    ensures key in UniqueKeys(values) <==> key in values
  {
    UniqueMembers(values, key);
    SortMembers(Unique(values), StrLe, key);
  }

  lemma PendingMembers(rs: seq<Resource>, pending: seq<string>, key: string)
    ensures key in PendingKeys(rs, pending) <==> key in pending || Unsettled(rs, key)
  {
    UniqueKeysMembers(pending + UnfinishedKeys(rs), key);
    UnfinishedLists(rs, key);
  }

  /** The lists a report passes on, and the entries it keeps. */
  lemma ReportPassesOn(o: Options, p: Pass, final: seq<Observation>, r: Resource)
    ensures var report := Judge(o, p, final);
      && report.deleted == p.deleted && report.gone == p.gone && report.refused == p.refused && report.resources == p.resources
      && (report.verdict != Pending ==> report.pending == p.pending)
      && multiset(report.remaining)[r] == (if r.status == Gone then 0 else multiset(p.resources)[r])
  {
    RemainingIs(p.resources, r);
  }

  /** A dry run that found anything to wait for names the owned live resources; any other pending report the delayed ones. */
  predicate NamesLive(o: Options, p: Pass, final: seq<Observation>) {
    o.dryRun && (p.pending != [] || (exists x | x in final :: x.owned && x.live)
                 || exists r | r in p.resources :: r.status == Claimed || r.status == Deleting || r.status == Tombstone)
  }

  lemma NamesLiveIff(o: Options, p: Pass, final: seq<Observation>)
    ensures NamesLive(o, p, final)
       <==> o.dryRun && (Sort(OwnedLive(final), StrLe) != [] || PendingKeys(p.resources, p.pending) != [])
  {
    var keys := p.pending + UnfinishedKeys(p.resources);
    SortEmpty(OwnedLive(final));
    UniqueEmpty(keys);
    SortEmpty(Unique(keys));
    NoUnfinishedKeys(p.resources);
    assert forall i | 0 <= i < |p.resources| :: p.resources[i] in p.resources;
    LiveIff(final);
  }

  lemma LiveIff(final: seq<Observation>)
    ensures OwnedLive(final) != [] <==> exists x | x in final :: x.owned && x.live
  {
    if OwnedLive(final) != [] {
      OwnedLists(final, OwnedLive(final)[0]);
      assert OwnedLive(final)[0] in OwnedLive(final);
    }
    if x :| x in final && x.owned && x.live {
      OwnedLists(final, x.identity);
    }
  }

  /** What a pending report waits for: what the pass found pending, unsettled entries, and what the inventory still owns. */
  lemma PendingListMeans(o: Options, p: Pass, final: seq<Observation>, key: string)
    requires Judge(o, p, final).verdict == Pending
    ensures key in Judge(o, p, final).pending
       <==> key in p.pending || Unsettled(p.resources, key) || OwnedAnd(final, key, NamesLive(o, p, final))
  {
    var live, delayed := Sort(OwnedLive(final), StrLe), Sort(OwnedDelayed(final), StrLe);
    var active := PendingKeys(p.resources, p.pending);
    NamesLiveIff(o, p, final);
    PendingMembers(p.resources, p.pending, key);
    OwnedLists(final, key);
    SortMembers(OwnedLive(final), StrLe, key);
    SortMembers(OwnedDelayed(final), StrLe, key);
    UniqueKeysMembers(active + live, key);
    UniqueKeysMembers(active + delayed, key);
    assert key in active + live <==> key in active || key in live;
    assert key in active + delayed <==> key in active || key in delayed;
  }

  /** A report fails exactly when something was refused or, outside a dry run, an owned resource is still live. */
  lemma FailedIff(o: Options, p: Pass, final: seq<Observation>)
    ensures Judge(o, p, final).verdict == Failed
       <==> p.refused != [] || (!o.dryRun && exists x | x in final :: x.owned && x.live)
  {
    SortEmpty(OwnedLive(final));
    LiveIff(final);
  }

  // ---- how a pass ends -------------------------------------------------------------------------

  /**
   * Why a pass is aborted, in the order of the checks: a bad ledger, a failed or bad first inventory, whatever stopped
   * the pass, a failed or bad final inventory; otherwise there is a report.
   */
  lemma OutcomeMeans(s: Services, o: Options, h: Header, rs: seq<Resource>, observed: Option<seq<Observation>>,
                     final: Option<seq<Observation>>)
    ensures Reconcile(s, o, h, rs, observed, final)
         == if !ValidLedger(h, rs) then Aborted(BadLedger)
            else if observed.None? then Aborted(InventoryFailed)
            else if !ValidInventory(observed.value) then Aborted(BadInventory)
            else
              var p := Sweep(s, o, rs, observed.value);
              if p.failure.Some? then Aborted(p.failure.value)
              else if final.None? then Aborted(InventoryFailed)
              else if !ValidInventory(final.value) then Aborted(BadInventory)
              else Reported(Judge(o, p, final.value))
  {
  }

  lemma {:induction false} UniqueIsDistinct(values: seq<string>)
    ensures NoRepeats(Unique(values))
  {
    if values != [] {
      UniqueIsDistinct(values[..|values| - 1]);
    }
  }

  /** A pending report lists each key once, in order. */
  lemma PendingListSorted(o: Options, p: Pass, final: seq<Observation>)
    requires Judge(o, p, final).verdict == Pending
    ensures var keys := Judge(o, p, final).pending; forall i, j | 0 <= i < j < |keys| :: StrLe(keys[i], keys[j]) && keys[i] != keys[j]
  {
    var live, delayed := Sort(OwnedLive(final), StrLe), Sort(OwnedDelayed(final), StrLe);
    var active := PendingKeys(p.resources, p.pending);
    UniqueKeysSorted(active + live);
    UniqueKeysSorted(active + delayed);
  }

  lemma UniqueKeysSorted(values: seq<string>)
    ensures var keys := UniqueKeys(values); forall i, j | 0 <= i < j < |keys| :: StrLe(keys[i], keys[j]) && keys[i] != keys[j]
  {
    UniqueIsDistinct(values);
    StrLeIsRanking();
    SortSorts(Unique(values), StrLe);
    SortKeeps(Unique(values), StrLe);
    NoRepeatsForgetsOrder(Unique(values), UniqueKeys(values));
  }
}
