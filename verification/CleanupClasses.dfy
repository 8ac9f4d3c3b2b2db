/** Snapshots before restore outputs, restore outputs before sources, sources before everything else. */
module CleanupClasses {
  import opened Text
  import opened CleanupLedger
  import opened CleanupMerge
  import opened CleanupOrder
  import opened CleanupDue

  // ---- what a resource is ----------------------------------------------------------------------

  predicate NamesClass(role: string) {
    TrimSpace(role) == "snapshot" || TrimSpace(role) == "restore" || TrimSpace(role) == "source"
  }

  /** The role decides; only where it names no class does the kind. */
  predicate IsSnapshot(r: Resource) {
    || TrimSpace(r.role) == "snapshot"
    || (!NamesClass(r.role) && TrimSpace(r.kind) in {"snapshot", "rdb-snapshot", "backup", "cloudsql-backup"})
  }

  predicate IsRestore(r: Resource) {
    TrimSpace(r.role) == "restore"
  }

  predicate IsSource(r: Resource) {
    || TrimSpace(r.role) == "source"
    || (!NamesClass(r.role) && TrimSpace(r.kind) in {"instance", "rdb-instance", "cloudsql-instance", "database-instance"})
  }

  /** `a` may be torn down before `b`: never a later class first. */
  predicate InTeardownOrder(a: Resource, b: Resource) {
    && (IsSnapshot(b) ==> IsSnapshot(a))
    && (IsRestore(b) ==> IsSnapshot(a) || IsRestore(a))
    && (IsSource(b) ==> IsSnapshot(a) || IsRestore(a) || IsSource(a))
  }

  // ---- entries the ledger gave no rank ---------------------------------------------------------

  /** Written for an owned observation: adopted from it, or bound to it without a rank of its own. */
  predicate Unranked(rs: seq<Resource>, observed: seq<Observation>, d: Resource) {
    exists j | 0 <= j < |observed| && observed[j].owned ::
      d == Written(rs, observed, j).(status := Deleting) && (Target(rs, observed, j) >= 0 ==> rs[Target(rs, observed, j)].rank == 0)
  }

  lemma KindsApart()
    ensures {"snapshot", "rdb-snapshot", "backup", "cloudsql-backup"}
            !! {"instance", "rdb-instance", "cloudsql-instance", "database-instance"}
  {
    assert "snapshot"[0] == 's' && "rdb-snapshot"[4] == 's' && "backup"[0] == 'b' && "cloudsql-backup"[9] == 'b';
    assert "instance"[0] == 'i' && "rdb-instance"[4] == 'i' && "cloudsql-instance"[9] == 'i' && "database-instance"[0] == 'd';
  }

  /** Ranks by class, strictly. */
  lemma RankedByClass(a: Resource, b: Resource)
    requires a.rank == DefaultRank(a.kind, a.role) && b.rank == DefaultRank(b.kind, b.role) && a.rank <= b.rank
    ensures InTeardownOrder(a, b)
  {
    KindsApart();
  }

  lemma UnrankedIsDefault(rs: seq<Resource>, observed: seq<Observation>, d: Resource)
    requires Unranked(rs, observed, d)
    ensures d.rank == DefaultRank(d.kind, d.role)
  {
  }

  /**
   * Teardown order: whatever saves or deletions fail, among the entries a ledger gave no rank a pass over distinct
   * keys calls Delete on every snapshot before any restore output, on those before any source, and on sources before
   * everything else.
   */
  lemma TeardownOrder(s: Services, o: Options, rs: seq<Resource>, observed: seq<Observation>, i: nat, j: nat)
    requires DistinctKeys(Merge(rs, observed))
    requires var calls := Attempts(Sweep(s, o, rs, observed).log);
             i < j < |calls| && Unranked(rs, observed, calls[i]) && Unranked(rs, observed, calls[j])
    ensures var calls := Attempts(Sweep(s, o, rs, observed).log); InTeardownOrder(calls[i], calls[j])
  {
    var calls := Attempts(Sweep(s, o, rs, observed).log);
    DeletionsAscend(s, o, rs, observed);
    UnrankedIsDefault(rs, observed, calls[i]);
    UnrankedIsDefault(rs, observed, calls[j]);
    RankedByClass(calls[i], calls[j]);
  }

  lemma FreshIsUnranked(observed: seq<Observation>, k: nat)
    requires ValidInventory(observed) && k < |Merge([], observed)|
    ensures Unranked([], observed, Merge([], observed)[k].(status := Deleting))
  {
    MergeWrites([], observed, k);
    assert WrittenOrOld([], observed, Merge([], observed), k);
    var m :| 0 <= m < |observed| && observed[m].owned && Merge([], observed)[k] == Written([], observed, m);
    assert Target([], observed, m) == -1;
  }

  lemma CalledIsUnranked(o: Options, observed: seq<Observation>, calls: seq<Resource>, n: nat)
    requires ValidInventory(observed) && n < |calls| && OnlyDue(o, IndexInventory(observed), Merge([], observed), calls)
    ensures Unranked([], observed, calls[n])
  {
    assert calls[n] in calls;
    var k :| 0 <= k < |Merge([], observed)| && Due(o, IndexInventory(observed), Merge([], observed), k)
             && calls[n] == Merge([], observed)[k].(status := Deleting);
    FreshIsUnranked(observed, k);
  }

  /** From an empty ledger every Delete call of a pass obeys the order. */
  lemma FreshTeardownOrder(s: Services, o: Options, observed: seq<Observation>, i: nat, j: nat)
    requires ValidInventory(observed) && DistinctKeys(Merge([], observed))
    requires i < j < |Attempts(Sweep(s, o, [], observed).log)|
    ensures var calls := Attempts(Sweep(s, o, [], observed).log); InTeardownOrder(calls[i], calls[j])
  {
    var calls := Attempts(Sweep(s, o, [], observed).log);
    SweepDue(s, o, [], observed);
    CalledIsUnranked(o, observed, calls, i);
    CalledIsUnranked(o, observed, calls, j);
    TeardownOrder(s, o, [], observed, i, j);
  }
}
