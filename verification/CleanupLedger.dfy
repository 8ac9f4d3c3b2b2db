/** The detail texts the reconciler writes. */
module CleanupTexts {
  const ADOPTED := "adopted from " + "owning-service inventory"
  const UNCONFIRMED := "owning-service inventory " + "did not confirm ownership"
  const PROTECTED := "resource is protected; " + "deletion was not attempted"
  const DELAYED := "provider-mandated " + "deletion tombstone"
  const VANISHED := "owning-service inventory " + "no longer contains this resource"
  const DELETED := "deleted through " + "owning-service inventory"
  const DELETE_FAILED := "provider " + "delete failed"
}

/** The durable cleanup ledger, the owning-service inventory, and one reconcile pass over them. */
module CleanupLedger {
  import opened CleanupTexts
  import opened Optional
  import opened Text
  import opened Ordering

  datatype Status = Intended | Claimed | Deleting | Gone | Tombstone | Refused | Unsupported(text: string)

  datatype Resource = Resource(
    kind: string, role: string, name: string, identity: string, rank: int, status: Status, detail: string)

  datatype Observation = Observation(
    kind: string, role: string, name: string, identity: string,
    owned: bool, live: bool, delayed: bool, isProtected: bool)

  /** `claimedAtParses` stands for `time.Parse(time.RFC3339, claimedAt)` succeeding. */
  datatype Header = Header(
    version: int, runID: string, marker: string, provider: string, region: string, project: string,
    profile: string, claimedAt: string, claimedAtParses: bool)

  const LEDGER_VERSION := 1
  const RANK_SNAPSHOT := 10
  const RANK_RESTORE := 20
  const RANK_SOURCE := 30
  const RANK_DEFAULT := 50

  // ---- secret-bearing names -------------------------------------------------------------------

  /** Simple case folding, including the two code points that fold onto ASCII k and s. */
  function Fold(c: char): char {
    if 'A' <= c <= 'Z' then (c as int - 'A' as int + 'a' as int) as char
    else if c == '\U{212A}' then 'k'
    else if c == '\U{17F}' then 's'
    else c
  }

  predicate WordAt(s: string, i: nat, word: string) {
    i + |word| <= |s| && forall j | 0 <= j < |word| :: Fold(s[i + j]) == word[j]
  }

  predicate KeyWordAt(s: string, i: nat, stem: string) {
    WordAt(s, i, stem)
    && var k := i + |stem|;
       WordAt(s, k, "key") || (k < |s| && (s[k] == '_' || s[k] == '-') && WordAt(s, k + 1, "key"))
  }

  predicate SensitiveAt(s: string, i: nat) {
    || WordAt(s, i, "password") || WordAt(s, i, "secret") || WordAt(s, i, "token")
    || KeyWordAt(s, i, "api") || KeyWordAt(s, i, "access") || KeyWordAt(s, i, "private")
  }

  predicate Sensitive(s: string) {
    exists i | 0 <= i < |s| :: SensitiveAt(s, i)
  }

  // ---- validation -----------------------------------------------------------------------------

  function Fields(r: Resource): string {
    r.kind + r.role + r.name + r.identity + r.detail
  }

  predicate ValidResource(r: Resource) {
    && RequiredLine(r.kind) && OptionalLine(r.role) && OptionalLine(r.name) && OptionalLine(r.identity)
    && OptionalLine(r.detail)
    && r.rank >= 0
    && !r.status.Unsupported?
    && (r.status == Intended ==> !Blank(r.name))
    && (r.status != Intended ==> !Blank(r.identity) || !Blank(r.name))
    && !Sensitive(Fields(r))
  }

  predicate ValidHeader(h: Header) {
    && h.version == LEDGER_VERSION
    && RequiredLine(h.runID) && RequiredLine(h.marker) && RequiredLine(h.provider)
    && OptionalLine(h.region) && OptionalLine(h.project) && OptionalLine(h.profile)
    && RequiredLine(h.claimedAt) && h.claimedAtParses
    && !Sensitive(h.runID + h.marker + h.provider + h.region + h.project + h.profile)
  }

  function Key(r: Resource): string {
    if !Blank(r.identity) then r.kind + ":" + r.identity
    else if !Blank(r.name) then r.kind + ":" + r.name
    else ""
  }

  predicate DistinctKeys(rs: seq<Resource>) {
    forall i, j | 0 <= i < j < |rs| :: Key(rs[i]) != Key(rs[j])
  }

  predicate ValidResources(rs: seq<Resource>) {
    && (forall i | 0 <= i < |rs| :: ValidResource(rs[i]) && Key(rs[i]) != "")
    && DistinctKeys(rs)
  }

  /** `ValidateCleanupLedger` accepts. */
  predicate ValidLedger(h: Header, rs: seq<Resource>) {
    ValidHeader(h) && ValidResources(rs)
  }

  predicate ValidObservation(o: Observation) {
    && RequiredLine(o.identity) && RequiredLine(o.kind) && OptionalLine(o.role) && OptionalLine(o.name)
    && !(o.live && o.delayed)
  }

  /** `validateCleanupInventory` accepts. */
  predicate ValidInventory(observed: seq<Observation>) {
    && (forall i | 0 <= i < |observed| :: ValidObservation(observed[i]))
    && (forall i, j | 0 <= i < j < |observed| :: observed[i].identity != observed[j].identity)
  }

  // ---- merge ----------------------------------------------------------------------------------

  function DefaultRank(kind: string, role: string): int {
    var role', kind' := TrimSpace(role), TrimSpace(kind);
    if role' == "snapshot" then RANK_SNAPSHOT
    else if role' == "restore" then RANK_RESTORE
    else if role' == "source" then RANK_SOURCE
    else if kind' in ["rdb-snapshot", "snapshot", "backup", "cloudsql-backup"] then RANK_SNAPSHOT
    else if kind' in ["rdb-instance", "instance", "cloudsql-instance", "database-instance"] then RANK_SOURCE
    else RANK_DEFAULT
  }

  predicate SameIdentity(r: Resource, o: Observation) {
    r.identity != "" && r.identity == o.identity
  }

  predicate SameName(r: Resource, o: Observation) {
    r.identity == "" && r.kind == o.kind && r.name != "" && r.name == o.name
  }

  predicate Matches(r: Resource, o: Observation) {
    SameIdentity(r, o) || SameName(r, o)
  }

  function IdentityMatch(rs: seq<Resource>, o: Observation, from: nat): (index: int)
    requires from <= |rs|
    ensures index == -1 || (from <= index < |rs| && SameIdentity(rs[index], o))
    ensures forall i | from <= i < (if index < 0 then |rs| else index) :: !SameIdentity(rs[i], o)
    decreases |rs| - from
  {
    if from == |rs| then -1
    else if SameIdentity(rs[from], o) then from
    else IdentityMatch(rs, o, from + 1)
  }

  function NameMatch(rs: seq<Resource>, o: Observation, from: nat): (index: int)
    requires from <= |rs|
    ensures index == -1 || (from <= index < |rs| && SameName(rs[index], o))
    ensures forall i | from <= i < (if index < 0 then |rs| else index) :: !SameName(rs[i], o)
    decreases |rs| - from
  {
    if from == |rs| then -1
    else if SameName(rs[from], o) then from
    else NameMatch(rs, o, from + 1)
  }

  /** The entry an owned observation belongs to: by identity first, then by kind and name. */
  function InventoryMatch(rs: seq<Resource>, o: Observation): (index: int)
    ensures -1 <= index < |rs|
    ensures index >= 0 ==> Matches(rs[index], o)
    ensures index < 0 <==> forall i | 0 <= i < |rs| :: !Matches(rs[i], o)
    ensures (exists i | 0 <= i < |rs| :: SameIdentity(rs[i], o)) ==> index >= 0 && SameIdentity(rs[index], o)
  {
    var byIdentity := IdentityMatch(rs, o, 0);
    if byIdentity >= 0 then byIdentity else NameMatch(rs, o, 0)
  }

  function Bind(r: Resource, o: Observation): Resource {
    var identity := if r.identity == "" then o.identity else r.identity;
    var name := if r.name == "" then o.name else r.name;
    var role := if r.role == "" then o.role else r.role;
    var kind := if r.kind == "" then o.kind else r.kind;
    var rank := if r.rank == 0 then DefaultRank(kind, role) else r.rank;
    var status := if r.status == Intended then Claimed else r.status;
    Resource(kind, role, name, identity, rank, status, r.detail)
  }

  function Adopt(o: Observation): Resource {
    Resource(o.kind, o.role, o.name, o.identity, DefaultRank(o.kind, o.role),
             if o.delayed then Tombstone else Claimed, ADOPTED)
  }

  function MergeOne(rs: seq<Resource>, o: Observation): seq<Resource> {
    var index := InventoryMatch(rs, o);
    if !o.owned then rs
    else if index >= 0 then rs[index := Bind(rs[index], o)]
    else rs + [Adopt(o)]
  }

  function Merge(rs: seq<Resource>, observed: seq<Observation>): seq<Resource> {
    if observed == [] then rs
    else MergeOne(Merge(rs, observed[..|observed| - 1]), observed[|observed| - 1])
  }

  // ---- lookup ---------------------------------------------------------------------------------

  function IdKey(identity: string): string { "id:" + identity }
  function NameKey(kind: string, name: string): string { "name:" + kind + ":" + name }

  function IndexOne(index: map<string, Observation>, o: Observation): map<string, Observation> {
    var index' := index[IdKey(o.identity) := o];
    if o.name != "" then index'[NameKey(o.kind, o.name) := o] else index'
  }

  function IndexInventory(observed: seq<Observation>): map<string, Observation> {
    if observed == [] then map[]
    else IndexOne(IndexInventory(observed[..|observed| - 1]), observed[|observed| - 1])
  }

  function Lookup(index: map<string, Observation>, r: Resource): Option<Observation> {
    var key := if r.identity != "" then IdKey(r.identity) else NameKey(r.kind, r.name);
    if (r.identity != "" || r.name != "") && key in index then Some(index[key]) else None
  }

  function KeyIndex(rs: seq<Resource>, key: string, from: nat): (index: int)
    requires from <= |rs|
    ensures index == -1 || (from <= index < |rs| && Key(rs[index]) == key)
    ensures forall i | from <= i < (if index < 0 then |rs| else index) :: Key(rs[i]) != key
    decreases |rs| - from
  {
    if from == |rs| then -1
    else if Key(rs[from]) == key then from
    else KeyIndex(rs, key, from + 1)
  }

  // ---- one pass -------------------------------------------------------------------------------

  /** A save that reports an error may still have reached the disk. */
  datatype SaveOutcome = SaveOk | SaveLost | SaveUncertain
  datatype DeleteOutcome = DeleteOk | DeleteFailed(message: string)

  datatype Event =
    | Save(resources: seq<Resource>, saved: SaveOutcome)
    | Delete(resource: Resource, deleted: DeleteOutcome)

  /** What the disk and the provider answer, as an arbitrary function of everything done so far. */
  datatype Services = Services(save: seq<Event> -> SaveOutcome, delete: (seq<Event>, Resource) -> DeleteOutcome)

  datatype Options = Options(dryRun: bool, persist: bool)

  datatype Failure = BadLedger | InventoryFailed | BadInventory | SaveFailed | DeleteRejected(message: string)

  datatype Pass = Pass(
    resources: seq<Resource>, deleted: seq<string>, gone: seq<string>, pending: seq<string>,
    refused: seq<string>, log: seq<Event>, failure: Option<Failure>)

  function Persist(s: Services, o: Options, p: Pass): Pass {
    if !o.persist then p
    else
      var outcome := s.save(p.log);
      p.(log := p.log + [Save(p.resources, outcome)],
         failure := if outcome == SaveOk then p.failure else Some(SaveFailed))
  }

  /** Multi-line provider messages are replaced before they enter the ledger. */
  function FailureDetail(message: string): string {
    if SingleLine(message) then message else DELETE_FAILED
  }

  function Put(p: Pass, index: int, r: Resource): Pass
    requires 0 <= index < |p.resources|
  {
    p.(resources := p.resources[index := r])
  }

  function DeleteLive(s: Services, o: Options, index: int, p: Pass): Pass
    requires 0 <= index < |p.resources|
  {
    var deleting := p.resources[index].(status := Deleting);
    var p1 := Persist(s, o, Put(p, index, deleting));
    if p1.failure.Some? then p1
    else
      var outcome := s.delete(p1.log, deleting);
      var p2 := p1.(log := p1.log + [Delete(deleting, outcome)]);
      if outcome.DeleteFailed? then
        var p3 := Persist(s, o, Put(p2, index, deleting.(detail := FailureDetail(outcome.message))));
        p3.(failure := Some(DeleteRejected(outcome.message)))
      else
        var p3 := Put(p2, index, deleting.(status := Gone, detail := DELETED));
        Persist(s, o, p3.(deleted := p3.deleted + [Key(deleting)]))
  }

  /** One iteration of the deletion loop, for the entry at `index`. */
  function Treat(s: Services, o: Options, inventory: map<string, Observation>, index: int, p: Pass): Pass
    requires 0 <= index < |p.resources|
  {
    var r := p.resources[index];
    var seen := Lookup(inventory, r);
    if r.status == Gone then p.(gone := p.gone + [Key(r)])
    else if r.status == Refused then p.(refused := p.refused + [Key(r)])
    else if r.status == Tombstone then p.(pending := p.pending + [Key(r)])
    else if seen.Some? && !seen.value.owned then
      Persist(s, o, Put(p, index, r.(status := Refused, detail := UNCONFIRMED)).(refused := p.refused + [Key(r)]))
    else if seen.Some? && seen.value.isProtected then
      Persist(s, o, Put(p, index, r.(status := Claimed, detail := PROTECTED)).(pending := p.pending + [Key(r)]))
    else if seen.Some? && seen.value.delayed then
      Persist(s, o, Put(p, index, r.(status := Tombstone, detail := DELAYED)).(pending := p.pending + [Key(r)]))
    else if seen.None? && r.status == Intended then p
    else if seen.None? && r.identity == "" && r.status == Claimed then p.(pending := p.pending + [Key(r)])
    else if seen.None? && (r.status == Claimed || r.status == Deleting) then
      Persist(s, o, Put(p, index, r.(status := Gone, detail := VANISHED)).(gone := p.gone + [Key(r)]))
    else if seen.Some? && seen.value.live then
      if o.dryRun then p.(pending := p.pending + [Key(r)]) else DeleteLive(s, o, index, p)
    else p
  }

  function Step(s: Services, o: Options, inventory: map<string, Observation>, r: Resource, p: Pass): Pass {
    var index := KeyIndex(p.resources, Key(r), 0);
    if index < 0 then p else Treat(s, o, inventory, index, p)
  }

  /** The deletion loop over a snapshot of the ledger; a failed effect ends it. */
  function Drive(s: Services, o: Options, inventory: map<string, Observation>, snapshot: seq<Resource>, p: Pass): Pass {
    if snapshot == [] then p
    else
      var before := Drive(s, o, inventory, snapshot[..|snapshot| - 1], p);
      if before.failure.Some? then before
      else Step(s, o, inventory, snapshot[|snapshot| - 1], before)
  }

  predicate RankOrder(a: Resource, b: Resource) {
    a.rank < b.rank || (a.rank == b.rank && StrLe(Key(a), Key(b)))
  }

  function RankSorted(rs: seq<Resource>): seq<Resource> {
    Sort(rs, RankOrder)
  }

  // ---- verdict --------------------------------------------------------------------------------

  datatype Verdict = Complete | Pending | Failed

  datatype Report = Report(
    verdict: Verdict, deleted: seq<string>, gone: seq<string>, pending: seq<string>, refused: seq<string>,
    remaining: seq<Resource>, resources: seq<Resource>)

  function Unique(values: seq<string>): seq<string> {
    if values == [] then []
    else
      var front := Unique(values[..|values| - 1]);
      if values[|values| - 1] in front then front else front + [values[|values| - 1]]
  }

  function UniqueKeys(values: seq<string>): seq<string> {
    Sort(Unique(values), StrLe)
  }

  function UnfinishedKeys(rs: seq<Resource>): seq<string> {
    if rs == [] then []
    else
      var r := rs[|rs| - 1];
      UnfinishedKeys(rs[..|rs| - 1])
      + if r.status == Claimed || r.status == Deleting || r.status == Tombstone then [Key(r)] else []
  }

  function PendingKeys(rs: seq<Resource>, pending: seq<string>): seq<string> {
    UniqueKeys(pending + UnfinishedKeys(rs))
  }

  function Remaining(rs: seq<Resource>): seq<Resource> {
    if rs == [] then []
    else Remaining(rs[..|rs| - 1]) + if rs[|rs| - 1].status == Gone then [] else [rs[|rs| - 1]]
  }

  function OwnedLive(final: seq<Observation>): seq<string> {
    if final == [] then []
    else
      var o := final[|final| - 1];
      OwnedLive(final[..|final| - 1]) + if o.owned && o.live then [o.identity] else []
  }

  function OwnedDelayed(final: seq<Observation>): seq<string> {
    if final == [] then []
    else
      var o := final[|final| - 1];
      OwnedDelayed(final[..|final| - 1]) + if o.owned && o.delayed then [o.identity] else []
  }

  function Judge(o: Options, p: Pass, final: seq<Observation>): Report {
    var live := Sort(OwnedLive(final), StrLe);
    var delayed := Sort(OwnedDelayed(final), StrLe);
    var active := PendingKeys(p.resources, p.pending);
    var base := Report(Complete, p.deleted, p.gone, p.pending, p.refused, Remaining(p.resources), p.resources);
    if p.refused != [] then base.(verdict := Failed)
    else if o.dryRun && (live != [] || active != []) then
      base.(verdict := Pending, pending := UniqueKeys(active + live))
    else if live != [] then base.(verdict := Failed)
    else if delayed != [] || active != [] then
      base.(verdict := Pending, pending := UniqueKeys(active + delayed))
    else base
  }

  // ---- the whole pass -------------------------------------------------------------------------

  datatype Result = Aborted(failure: Failure) | Reported(report: Report)

  function Start(s: Services, o: Options, rs: seq<Resource>, observed: seq<Observation>): Pass {
    Persist(s, o, Pass(Merge(rs, observed), [], [], [], [], [], None))
  }

  /** Everything a pass does after a valid first inventory, up to the second one. */
  function Sweep(s: Services, o: Options, rs: seq<Resource>, observed: seq<Observation>): Pass {
    var start := Start(s, o, rs, observed);
    if start.failure.Some? then start
    else Drive(s, o, IndexInventory(observed), RankSorted(start.resources), start)
  }

  /** `None` is an inventory call that returned an error. */
  function FirstFailure(h: Header, rs: seq<Resource>, observed: Option<seq<Observation>>): Option<Failure> {
    if !ValidLedger(h, rs) then Some(BadLedger)
    else if observed.None? then Some(InventoryFailed)
    else if !ValidInventory(observed.value) then Some(BadInventory)
    else None
  }

  function Log(s: Services, o: Options, h: Header, rs: seq<Resource>, observed: Option<seq<Observation>>): seq<Event> {
    if FirstFailure(h, rs, observed).Some? then [] else Sweep(s, o, rs, observed.value).log
  }

  function Conclude(o: Options, p: Pass, final: Option<seq<Observation>>): Result {
    if p.failure.Some? then Aborted(p.failure.value)
    else if final.None? then Aborted(InventoryFailed)
    else if !ValidInventory(final.value) then Aborted(BadInventory)
    else Reported(Judge(o, p, final.value))
  }

  function Reconcile(s: Services, o: Options, h: Header, rs: seq<Resource>,
                     observed: Option<seq<Observation>>, final: Option<seq<Observation>>): Result
  {
    var failure := FirstFailure(h, rs, observed);
    if failure.Some? then Aborted(failure.value)
    else Conclude(o, Sweep(s, o, rs, observed.value), final)
  }
}
