/** Bounded waits: provider operations, edge cleanup and deletion, each against an arbitrary trace of answers. */
module Polling {
  import opened Optional
  import opened Text

  datatype Status = Pending | Running | Succeeded | Failed | UnknownStatus(text: string)

  /** What the operation context says when it is looked at. */
  datatype Context = Alive | Cancelled | Expired

  /** One attempt: the context before it, the answer (`None` is a failed call), the context during the sleep. */
  datatype Turn<+A> = Turn(before: Context, answer: Option<A>, asleep: Context)

  datatype Policy = Policy(timeout: int, pollInterval: int, maxAttempts: int)

  predicate ValidPolicy(p: Policy) {
    p.timeout > 0 && p.pollInterval > 0 && p.maxAttempts > 0
  }

  // ---- stopping --------------------------------------------------------------------------------

  /** The first attempt that ends the wait: a stopping one, or the last. */
  function StopAt<A>(trace: seq<Turn<A>>, stops: Turn<A> -> bool, max: nat, from: nat): (k: nat)
    requires from < max <= |trace|
    ensures from <= k < max && (k == max - 1 || stops(trace[k]))
    ensures forall i | from <= i < k :: !stops(trace[i])
    decreases max - from
  {
    if from == max - 1 || stops(trace[from]) then from else StopAt(trace, stops, max, from + 1)
  }

  /** Calls made and sleeps begun by a wait that ends at attempt `k` of `max`. */
  function Polls<A>(trace: seq<Turn<A>>, k: nat): nat
    requires k < |trace|
  {
    if trace[k].before == Alive then k + 1 else k
  }

  function Sleeps<A>(trace: seq<Turn<A>>, decides: A -> bool, k: nat, max: nat): nat
    requires k < |trace|
  {
    var t := trace[k];
    if t.before == Alive && !(t.answer.Some? && decides(t.answer.value)) && k + 1 < max then k + 1 else k
  }

  predicate Calm<A>(t: Turn<A>) {
    t.before == Alive && t.asleep == Alive
  }

  predicate Decided<A>(t: Turn<A>, decides: A -> bool) {
    t.answer.Some? && decides(t.answer.value)
  }

  /** Attempt `k` is the first whose answer decides. */
  predicate FirstDecided<A>(trace: seq<Turn<A>>, decides: A -> bool, k: nat) {
    k < |trace| && Decided(trace[k], decides) && forall i | 0 <= i < k :: !Decided(trace[i], decides)
  }

  predicate NoneDecided<A>(trace: seq<Turn<A>>, decides: A -> bool, max: nat)
    requires max <= |trace|
  {
    forall i | 0 <= i < max :: !Decided(trace[i], decides)
  }

  /** Without cancellation or timeout a wait ends at the first decisive answer, or at the last attempt. */
  lemma CalmStop<A>(trace: seq<Turn<A>>, stops: Turn<A> -> bool, decides: A -> bool, max: nat)
    requires 0 < max <= |trace| && forall i | 0 <= i < max :: Calm(trace[i])
    requires forall i | 0 <= i < max :: stops(trace[i]) <==> Decided(trace[i], decides)
    ensures var k := StopAt(trace, stops, max, 0);
      && Polls(trace, k) == k + 1 <= max && Sleeps(trace, decides, k, max) == k
      && (FirstDecided(trace, decides, k) || (k == max - 1 && NoneDecided(trace, decides, max)))
    ensures forall k | 0 <= k < max && FirstDecided(trace, decides, k) :: StopAt(trace, stops, max, 0) == k
  {
    var k := StopAt(trace, stops, max, 0);
    assert Calm(trace[k]);
    forall j | 0 <= j < max && FirstDecided(trace, decides, j) ensures k == j {
      assert stops(trace[j]);
    }
  }

  // ---- provider operations ---------------------------------------------------------------------

  datatype Answer<+B> = Answer(operationID: string, status: Status, detail: string, body: B)

  datatype Outcome<+B> =
    | Done(answer: Answer<B>) | Rejected(answer: Answer<B>) | WrongIdentity | StrangeStatus
    | CallFailed | Exhausted | TimedOut | Aborted | BadArguments

  const RESILIENCE_FAILED := "provider reported resilience operation failure"
  const EDGE_FAILED := "provider reported edge operation failure"

  /** An answer that ends the wait whatever attempt it comes at. */
  predicate Decisive<B>(id: string, a: Answer<B>) {
    a.operationID != id || (a.status != Pending && a.status != Running)
  }

  function Verdict<B>(failed: string, id: string, a: Answer<B>): Outcome<B> {
    if a.operationID != id then WrongIdentity
    else
      match a.status
      case Succeeded => Done(a)
      case Failed => Rejected(if Blank(a.detail) then a.(detail := failed) else a)
      case _ => StrangeStatus
  }

  predicate OperationStops<B>(id: string, t: Turn<Answer<B>>) {
    t.before != Alive || (t.answer.Some? && Decisive(id, t.answer.value)) || t.asleep != Alive
  }

  function ContextError<B>(c: Context): Outcome<B> {
    if c == Expired then TimedOut else Aborted
  }

  function OperationOutcome<B>(failed: string, id: string, t: Turn<Answer<B>>, last: bool): Outcome<B> {
    if t.before != Alive then ContextError(t.before)
    else if t.answer.Some? && Decisive(id, t.answer.value) then Verdict(failed, id, t.answer.value)
    else if last then if t.answer.None? then CallFailed else Exhausted
    else ContextError(t.asleep)
  }

  /** The wait for one operation: the outcome of the attempt it ends at; `failed` is the default failure detail. */
  function OperationResult<B>(failed: string, trace: seq<Turn<Answer<B>>>, id: string, max: nat): Outcome<B>
    requires 0 < max <= |trace|
  {
    var k := StopAt(trace, (t: Turn<Answer<B>>) => OperationStops(id, t), max, 0);
    OperationOutcome(failed, id, trace[k], k == max - 1)
  }

  /** The polling loop of `WaitForResilienceOperation`, shared by the edge wait. */
  method WaitForOperation<B>(failed: string, trace: seq<Turn<Answer<B>>>, id: string, policy: Policy)
    returns (outcome: Outcome<B>, polls: nat, sleeps: nat)
    requires policy.maxAttempts <= |trace|
    ensures Blank(id) || !ValidPolicy(policy) ==> outcome == BadArguments && polls == sleeps == 0
    ensures !Blank(id) && ValidPolicy(policy) ==>
              var max := policy.maxAttempts;
              var k := StopAt(trace, (t: Turn<Answer<B>>) => OperationStops(id, t), max, 0);
              && outcome == OperationResult(failed, trace, id, max)
              && polls == Polls(trace, k)
              && sleeps == Sleeps(trace, (a: Answer<B>) => Decisive(id, a), k, max)
  {
    polls, sleeps := 0, 0;
    if Blank(id) {
      return BadArguments, 0, 0;
    }
    if policy.timeout <= 0 || policy.pollInterval <= 0 || policy.maxAttempts <= 0 {
      return BadArguments, 0, 0;
    }
    ghost var stops := (t: Turn<Answer<B>>) => OperationStops(id, t);
    var attempt := 1;
    while attempt <= policy.maxAttempts
      invariant 1 <= attempt <= policy.maxAttempts
      invariant polls == sleeps == attempt - 1
      invariant StopAt(trace, stops, policy.maxAttempts, 0) == StopAt(trace, stops, policy.maxAttempts, attempt - 1)
      decreases policy.maxAttempts - attempt
    {
      var turn := trace[attempt - 1];
      if turn.before != Alive {
        if turn.before == Expired { return TimedOut, polls, sleeps; }
        return Aborted, polls, sleeps;
      }
      polls := polls + 1;
      if turn.answer.None? {
        if attempt == policy.maxAttempts {
          return CallFailed, polls, sleeps;
        }
      } else {
        var answer := turn.answer.value;
        if answer.operationID != id {
          return WrongIdentity, polls, sleeps;
        }
        match answer.status {
          case Succeeded => return Done(answer), polls, sleeps;
          case Failed =>
            if Blank(answer.detail) { answer := answer.(detail := failed); }
            return Rejected(answer), polls, sleeps;
          case Pending | Running =>
          case UnknownStatus(_) => return StrangeStatus, polls, sleeps;
        }
      }
      if attempt == policy.maxAttempts {
        return Exhausted, polls, sleeps;
      }
      sleeps := sleeps + 1;
      if turn.asleep != Alive {
        if turn.asleep == Expired { return TimedOut, polls, sleeps; }
        return Aborted, polls, sleeps;
      }
      attempt := attempt + 1;
    }
    // The loop's last attempt always returns, so the trailing return of the source is dead.
    assert false;
  }

  /** `WaitForEdgeOperation` also refuses an operation ID of several lines. */
  method WaitForEdgeOperation<B>(trace: seq<Turn<Answer<B>>>, id: string, policy: Policy)
    returns (outcome: Outcome<B>, polls: nat, sleeps: nat)
    requires policy.maxAttempts <= |trace|
    ensures !RequiredLine(id) || !ValidPolicy(policy) ==> outcome == BadArguments && polls == sleeps == 0
    ensures RequiredLine(id) && ValidPolicy(policy) ==>
              var max := policy.maxAttempts;
              var k := StopAt(trace, (t: Turn<Answer<B>>) => OperationStops(id, t), max, 0);
              && outcome == OperationResult(EDGE_FAILED, trace, id, max)
              && polls == Polls(trace, k)
              && sleeps == Sleeps(trace, (a: Answer<B>) => Decisive(id, a), k, max)
  {
    if Blank(id) || !SingleLine(id) {
      return BadArguments, 0, 0;
    }
    outcome, polls, sleeps := WaitForOperation(EDGE_FAILED, trace, id, policy);
  }

  /** Calm operation waits: the first decisive answer decides, after one poll more than sleeps; else exhaustion. */
  lemma CalmOperationWait<B>(failed: string, trace: seq<Turn<Answer<B>>>, id: string, max: nat)
    requires 0 < max <= |trace| && forall i | 0 <= i < max :: Calm(trace[i])
    ensures
      var decides := (a: Answer<B>) => Decisive(id, a);
      var k := StopAt(trace, (t: Turn<Answer<B>>) => OperationStops(id, t), max, 0);
      && Polls(trace, k) == k + 1 <= max && Sleeps(trace, decides, k, max) == k
      && (forall j | 0 <= j < max && FirstDecided(trace, decides, j) ::
            k == j && OperationResult(failed, trace, id, max) == Verdict(failed, id, trace[j].answer.value))
      && (NoneDecided(trace, decides, max) ==>
            && k == max - 1
            && OperationResult(failed, trace, id, max) == if trace[k].answer.None? then CallFailed else Exhausted)
  {
    var stops, decides := (t: Turn<Answer<B>>) => OperationStops(id, t), (a: Answer<B>) => Decisive(id, a);
    forall i | 0 <= i < max ensures stops(trace[i]) <==> Decided(trace[i], decides) { assert Calm(trace[i]); }
    CalmStop(trace, stops, decides, max);
    assert Calm(trace[StopAt(trace, stops, max, 0)]);
  }

  /** Success is never reported without a succeeded answer that carries the requested identity. */
  lemma {:induction false} DoneIsEarned<B>(failed: string, trace: seq<Turn<Answer<B>>>, id: string, max: nat)
    requires 0 < max <= |trace| && OperationResult(failed, trace, id, max).Done?
    ensures var a := OperationResult(failed, trace, id, max).answer;
            && a.status == Succeeded && a.operationID == id
            && exists k :: 0 <= k < max && trace[k].before == Alive && trace[k].answer == Some(a)
  {
    var k := StopAt(trace, (t: Turn<Answer<B>>) => OperationStops(id, t), max, 0);
    assert trace[k].answer == Some(OperationResult(failed, trace, id, max).answer);
  }

  // ---- edge cleanup ----------------------------------------------------------------------------

  datatype EdgeResource = EdgeResource(identity: string, ownershipMarker: string, owned: bool, live: bool)

  predicate ValidEdgeInventory(rs: seq<EdgeResource>, marker: string) {
    && (forall i | 0 <= i < |rs| :: RequiredLine(rs[i].identity) && (rs[i].owned <==> rs[i].ownershipMarker == marker))
    && (forall i, j | 0 <= i < j < |rs| :: rs[i].identity != rs[j].identity)
  }

  predicate OwnedLive(rs: seq<EdgeResource>) {
    exists i | 0 <= i < |rs| :: rs[i].owned && rs[i].live
  }

  datatype CleanupOutcome =
    | Clean(resources: seq<EdgeResource>) | InvalidInventory | InventoryFailed
    | Remaining(resources: seq<EdgeResource>) | CleanupTimedOut | CleanupAborted | CleanupBadArguments

  predicate CleanupDecides(marker: string, rs: seq<EdgeResource>) {
    !ValidEdgeInventory(rs, marker) || !OwnedLive(rs)
  }

  predicate CleanupStops(marker: string, t: Turn<seq<EdgeResource>>) {
    t.before != Alive || (t.answer.Some? && CleanupDecides(marker, t.answer.value)) || t.asleep != Alive
  }

  function CleanupOutcomeAt(marker: string, t: Turn<seq<EdgeResource>>, last: bool): CleanupOutcome {
    if t.before != Alive then if t.before == Expired then CleanupTimedOut else CleanupAborted
    else if t.answer.Some? && !ValidEdgeInventory(t.answer.value, marker) then InvalidInventory
    else if t.answer.Some? && !OwnedLive(t.answer.value) then Clean(t.answer.value)
    else if last then if t.answer.None? then InventoryFailed else Remaining(t.answer.value)
    else if t.asleep == Expired then CleanupTimedOut else CleanupAborted
  }

  function CleanupResult(trace: seq<Turn<seq<EdgeResource>>>, marker: string, max: nat): CleanupOutcome
    requires 0 < max <= |trace|
  {
    var k := StopAt(trace, (t: Turn<seq<EdgeResource>>) => CleanupStops(marker, t), max, 0);
    CleanupOutcomeAt(marker, trace[k], k == max - 1)
  }

  method ValidateEdgeInventory(rs: seq<EdgeResource>, marker: string) returns (ok: bool)
    ensures ok <==> ValidEdgeInventory(rs, marker)
  {
    var seen: set<string> := {};
    for i := 0 to |rs|
      invariant forall x :: x in seen <==> exists k :: 0 <= k < i && rs[k].identity == x
      invariant ValidEdgeInventory(rs[..i], marker)
    {
      var r := rs[i];
      ghost var shorter := rs[..i + 1];
      assert shorter[i] == r;
      if Blank(r.identity) || !SingleLine(r.identity) { return false; }
      if r.identity in seen {
        return false;
      }
      seen := seen + {r.identity};
      if r.owned && r.ownershipMarker != marker { return false; }
      if r.ownershipMarker == marker && !r.owned { return false; }
    }
    assert rs[..|rs|] == rs;
    return true;
  }

  /** Polls the owning-service inventory until no owned resource is live. */
  method WaitForEdgeCleanup(trace: seq<Turn<seq<EdgeResource>>>, marker: string, policy: Policy)
    returns (outcome: CleanupOutcome, polls: nat, sleeps: nat)
    requires policy.maxAttempts <= |trace|
    ensures !RequiredLine(marker) || !ValidPolicy(policy) ==> outcome == CleanupBadArguments && polls == sleeps == 0
    ensures RequiredLine(marker) && ValidPolicy(policy) ==>
              var max := policy.maxAttempts;
              var k := StopAt(trace, (t: Turn<seq<EdgeResource>>) => CleanupStops(marker, t), max, 0);
              && outcome == CleanupResult(trace, marker, max)
              && polls == Polls(trace, k)
              && sleeps == Sleeps(trace, (rs: seq<EdgeResource>) => CleanupDecides(marker, rs), k, max)
  {
    polls, sleeps := 0, 0;
    if Blank(marker) || !SingleLine(marker) || !ValidPolicy(policy) {
      return CleanupBadArguments, 0, 0;
    }
    ghost var stops := (t: Turn<seq<EdgeResource>>) => CleanupStops(marker, t);
    var lastResources: seq<EdgeResource> := [];
    var attempt := 1;
    while attempt <= policy.maxAttempts
      invariant 1 <= attempt <= policy.maxAttempts && polls == sleeps == attempt - 1
      invariant StopAt(trace, stops, policy.maxAttempts, 0) == StopAt(trace, stops, policy.maxAttempts, attempt - 1)
      decreases policy.maxAttempts - attempt
    {
      var turn := trace[attempt - 1];
      if turn.before != Alive {
        return if turn.before == Expired then CleanupTimedOut else CleanupAborted, polls, sleeps;
      }
      polls := polls + 1;
      if turn.answer.Some? {
        var resources := turn.answer.value;
        var valid := ValidateEdgeInventory(resources, marker);
        if !valid {
          return InvalidInventory, polls, sleeps;
        }
        lastResources := resources;
        var ownedLive := false;
        for i := 0 to |resources|
          invariant ownedLive <==> exists k | 0 <= k < i :: resources[k].owned && resources[k].live
        {
          ownedLive := ownedLive || (resources[i].owned && resources[i].live);
        }
        if !ownedLive {
          return Clean(resources), polls, sleeps;
        }
      } else if attempt == policy.maxAttempts {
        return InventoryFailed, polls, sleeps;
      }
      if attempt == policy.maxAttempts {
        return Remaining(lastResources), polls, sleeps;
      }
      sleeps := sleeps + 1;
      if turn.asleep != Alive {
        return if turn.asleep == Expired then CleanupTimedOut else CleanupAborted, polls, sleeps;
      }
      attempt := attempt + 1;
    }
    assert false;
  }

  /** Calm edge cleanups: the first decisive inventory decides, after one poll more than sleeps; else resources remain. */
  lemma CalmCleanupWait(trace: seq<Turn<seq<EdgeResource>>>, marker: string, max: nat)
    requires 0 < max <= |trace| && forall i | 0 <= i < max :: Calm(trace[i])
    ensures
      var decides := (rs: seq<EdgeResource>) => CleanupDecides(marker, rs);
      var k := StopAt(trace, (t: Turn<seq<EdgeResource>>) => CleanupStops(marker, t), max, 0);
      && Polls(trace, k) == k + 1 <= max && Sleeps(trace, decides, k, max) == k
      && (forall j | 0 <= j < max && FirstDecided(trace, decides, j) ::
            && k == j
            && CleanupResult(trace, marker, max)
               == if ValidEdgeInventory(trace[j].answer.value, marker) then Clean(trace[j].answer.value) else InvalidInventory)
      && (NoneDecided(trace, decides, max) ==>
            && k == max - 1
            && CleanupResult(trace, marker, max)
               == if trace[k].answer.None? then InventoryFailed else Remaining(trace[k].answer.value))
  {
    var stops := (t: Turn<seq<EdgeResource>>) => CleanupStops(marker, t);
    var decides := (rs: seq<EdgeResource>) => CleanupDecides(marker, rs);
    forall i | 0 <= i < max ensures stops(trace[i]) <==> Decided(trace[i], decides) { assert Calm(trace[i]); }
    CalmStop(trace, stops, decides, max);
    assert Calm(trace[StopAt(trace, stops, max, 0)]);
  }

  // ---- deletion --------------------------------------------------------------------------------

  datatype Deletion = Deletion(
    status: Status, resourceRefs: seq<string>, delayedRefs: seq<string>, protectedRefs: seq<string>, detail: string)

  datatype DeletionOutcome =
    | Deleted(observation: Deletion) | DeletionFailed(observation: Deletion) | DeletionStrange
    | DeletionUnfinished(last: Option<Deletion>) | DeletionTimedOut(last: Option<Deletion>)
    | DeletionAborted(last: Option<Deletion>) | DeletionBadArguments

  const DELETION_FAILED := "owning service reported deletion failure"

  /** Delayed and protected identities count as remaining. */
  predicate NothingLeft(d: Deletion) {
    d.resourceRefs == [] && d.delayedRefs == [] && d.protectedRefs == []
  }

  predicate DeletionDecides(d: Deletion) {
    d.status == Failed || d.status.UnknownStatus? || (d.status == Succeeded && NothingLeft(d))
  }

  predicate DeletionStops(t: Turn<Deletion>) {
    t.before != Alive || (t.answer.Some? && DeletionDecides(t.answer.value)) || t.asleep != Alive
  }

  /** The most recent successful poll among the first `n` attempts. */
  function LastSeen(trace: seq<Turn<Deletion>>, n: nat): Option<Deletion>
    requires n <= |trace|
  {
    if n == 0 then None
    else if trace[n - 1].answer.Some? then trace[n - 1].answer
    else LastSeen(trace, n - 1)
  }

  function DeletionOutcomeAt(trace: seq<Turn<Deletion>>, k: nat, final: bool): DeletionOutcome
    requires k < |trace|
  {
    var t := trace[k];
    if t.before == Expired then DeletionTimedOut(LastSeen(trace, k))
    else if t.before == Cancelled then DeletionAborted(LastSeen(trace, k))
    else if t.answer.Some? && DeletionDecides(t.answer.value) then
      match t.answer.value.status
      case Succeeded => Deleted(t.answer.value)
      case Failed =>
        DeletionFailed(if t.answer.value.detail == "" then t.answer.value.(detail := DELETION_FAILED) else t.answer.value)
      case _ => DeletionStrange
    else if final then DeletionUnfinished(LastSeen(trace, k + 1))
    else if t.asleep == Expired then DeletionTimedOut(LastSeen(trace, k + 1))
    else DeletionAborted(LastSeen(trace, k + 1))
  }

  function DeletionResult(trace: seq<Turn<Deletion>>, max: nat): DeletionOutcome
    requires 0 < max <= |trace|
  {
    var k := StopAt(trace, DeletionStops, max, 0);
    DeletionOutcomeAt(trace, k, k == max - 1)
  }

  method WaitForDeletion(trace: seq<Turn<Deletion>>, marker: string, policy: Policy)
    returns (outcome: DeletionOutcome, polls: nat, sleeps: nat)
    requires policy.maxAttempts <= |trace|
    ensures !RequiredLine(marker) || !ValidPolicy(policy) ==> outcome == DeletionBadArguments && polls == sleeps == 0
    ensures RequiredLine(marker) && ValidPolicy(policy) ==>
              var max := policy.maxAttempts;
              var k := StopAt(trace, DeletionStops, max, 0);
              && outcome == DeletionResult(trace, max)
              && polls == Polls(trace, k)
              && sleeps == Sleeps(trace, DeletionDecides, k, max)
  {
    polls, sleeps := 0, 0;
    if Blank(marker) || !SingleLine(marker) || !ValidPolicy(policy) {
      return DeletionBadArguments, 0, 0;
    }
    var last: Option<Deletion> := None;
    var attempt := 1;
    while attempt <= policy.maxAttempts
      invariant 1 <= attempt <= policy.maxAttempts && polls == sleeps == attempt - 1
      invariant last == LastSeen(trace, attempt - 1)
      invariant StopAt(trace, DeletionStops, policy.maxAttempts, 0)
             == StopAt(trace, DeletionStops, policy.maxAttempts, attempt - 1)
      decreases policy.maxAttempts - attempt
    {
      var turn := trace[attempt - 1];
      if turn.before != Alive {
        return if turn.before == Expired then DeletionTimedOut(last) else DeletionAborted(last), polls, sleeps;
      }
      polls := polls + 1;
      if turn.answer.None? {
        if attempt == policy.maxAttempts {
          return DeletionUnfinished(last), polls, sleeps;
        }
      } else {
        var observation := turn.answer.value;
        last := Some(observation);
        match observation.status {
          case Succeeded =>
            if |observation.resourceRefs| == 0 && |observation.delayedRefs| == 0 && |observation.protectedRefs| == 0 {
              return Deleted(observation), polls, sleeps;
            }
          case Pending | Running =>
          case Failed =>
            if observation.detail == "" { observation := observation.(detail := DELETION_FAILED); }
            return DeletionFailed(observation), polls, sleeps;
          case UnknownStatus(_) => return DeletionStrange, polls, sleeps;
        }
      }
      if attempt == policy.maxAttempts {
        return DeletionUnfinished(last), polls, sleeps;
      }
      sleeps := sleeps + 1;
      if turn.asleep != Alive {
        return if turn.asleep == Expired then DeletionTimedOut(last) else DeletionAborted(last), polls, sleeps;
      }
      attempt := attempt + 1;
    }
    assert false;
  }

  /** Calm deletions: the first decisive poll decides, after one poll more than sleeps; else the last good poll is kept. */
  lemma CalmDeletionWait(trace: seq<Turn<Deletion>>, max: nat)
    requires 0 < max <= |trace| && forall i | 0 <= i < max :: Calm(trace[i])
    ensures
      var k := StopAt(trace, DeletionStops, max, 0);
      && Polls(trace, k) == k + 1 <= max && Sleeps(trace, DeletionDecides, k, max) == k
      && (forall j | 0 <= j < max && FirstDecided(trace, DeletionDecides, j) ::
            && k == j
            && var d := trace[j].answer.value;
               DeletionResult(trace, max)
               == match d.status
                  case Succeeded => Deleted(d)
                  case Failed => DeletionFailed(if d.detail == "" then d.(detail := DELETION_FAILED) else d)
                  case _ => DeletionStrange)
      && (NoneDecided(trace, DeletionDecides, max) ==>
            k == max - 1 && DeletionResult(trace, max) == DeletionUnfinished(LastSeen(trace, max)))
  {
    forall i | 0 <= i < max ensures DeletionStops(trace[i]) <==> Decided(trace[i], DeletionDecides) { assert Calm(trace[i]); }
    CalmStop(trace, DeletionStops, DeletionDecides, max);
    assert Calm(trace[StopAt(trace, DeletionStops, max, 0)]);
  }

  // ---- edge execution --------------------------------------------------------------------------

  datatype EdgeAction = EdgeDestroy | OtherEdgeAction(name: string)

  /** What an edge answer attests besides its status; `resultValid` stands for the result validator. */
  datatype EdgeReport = EdgeReport(
    action: Option<EdgeAction>, ownershipMarker: string, ownershipVerified: bool, idempotencyVerified: bool,
    hasReferences: bool, resultValid: bool)

  datatype EdgeExecution = EdgeExecution(
    action: EdgeAction, ownershipMarker: string, requestValid: bool, declared: bool, policy: Policy)

  predicate EdgeAccepted(x: EdgeExecution, a: Answer<EdgeReport>) {
    && a.status == Succeeded
    && (a.body.action.Some? ==> a.body.action.value == x.action)
    && a.body.ownershipMarker == x.ownershipMarker && a.body.ownershipVerified && a.body.idempotencyVerified
    && (!Blank(a.operationID) || a.body.hasReferences) && a.body.resultValid
  }

  /** The answer execution judges: the first one, or what polling made of a pending one. */
  function EdgeSettled(x: EdgeExecution, started: Option<Answer<EdgeReport>>, trace: seq<Turn<Answer<EdgeReport>>>)
    : Option<Answer<EdgeReport>>
    requires 0 < x.policy.maxAttempts <= |trace|
  {
    if started.None? then None
    else if started.value.status != Pending && started.value.status != Running then started
    else if !RequiredLine(started.value.operationID) then None
    else
      var outcome := OperationResult(EDGE_FAILED, trace, started.value.operationID, x.policy.maxAttempts);
      if outcome.Done? then Some(outcome.answer) else None
  }

  method ExecuteEdge(x: EdgeExecution, started: Option<Answer<EdgeReport>>, trace: seq<Turn<Answer<EdgeReport>>>,
                     inventories: seq<Turn<seq<EdgeResource>>>)
    returns (accepted: Option<Answer<EdgeReport>>)
    requires ValidPolicy(x.policy) && x.policy.maxAttempts <= |trace| && x.policy.maxAttempts <= |inventories|
    ensures accepted.Some? ==>
              && x.requestValid && x.declared
              && accepted == EdgeSettled(x, started, trace) && EdgeAccepted(x, accepted.value)
    ensures accepted.Some? && x.action == EdgeDestroy ==>
              && RequiredLine(x.ownershipMarker)
              && CleanupResult(inventories, x.ownershipMarker, x.policy.maxAttempts).Clean?
    ensures accepted.None? ==>
              || !x.requestValid || !x.declared
              || EdgeSettled(x, started, trace).None? || !EdgeAccepted(x, EdgeSettled(x, started, trace).value)
              || (x.action == EdgeDestroy
                  && (!RequiredLine(x.ownershipMarker)
                      || !CleanupResult(inventories, x.ownershipMarker, x.policy.maxAttempts).Clean?))
  {
    if !x.requestValid || !x.declared || started.None? {
      return None;
    }
    var observation := started.value;
    if observation.status == Pending || observation.status == Running {
      if Blank(observation.operationID) {
        return None;
      }
      var outcome, _, _ := WaitForEdgeOperation(trace, observation.operationID, x.policy);
      match outcome {
        case Done(answer) => observation := answer;
        case _ => return None;
      }
    }
    if observation.status != Succeeded
       || (observation.body.action.Some? && observation.body.action.value != x.action)
       || observation.body.ownershipMarker != x.ownershipMarker || !observation.body.ownershipVerified
       || !observation.body.idempotencyVerified
       || (Blank(observation.operationID) && !observation.body.hasReferences)
       || !observation.body.resultValid
    {
      return None;
    }
    if x.action == EdgeDestroy {
      var cleanup, _, _ := WaitForEdgeCleanup(inventories, x.ownershipMarker, x.policy);
      if !cleanup.Clean? {
        return None;
      }
    }
    return Some(observation);
  }

  /** A clean outcome is an inventory poll, valid for the marker, in which nothing owned is live. */
  lemma {:induction false} CleanIsObserved(trace: seq<Turn<seq<EdgeResource>>>, marker: string, max: nat)
    requires 0 < max <= |trace| && CleanupResult(trace, marker, max).Clean?
    ensures exists k :: 0 <= k < max && trace[k].before == Alive
                        && trace[k].answer == Some(CleanupResult(trace, marker, max).resources)
    ensures ValidEdgeInventory(CleanupResult(trace, marker, max).resources, marker)
    ensures !OwnedLive(CleanupResult(trace, marker, max).resources)
  {
    var k := StopAt(trace, (t: Turn<seq<EdgeResource>>) => CleanupStops(marker, t), max, 0);
    assert trace[k].answer == Some(CleanupResult(trace, marker, max).resources);
  }
}
