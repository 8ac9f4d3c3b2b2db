/** The outcomes of the bounded waits, attempt by attempt and field by field. */
module PollingOutcomes {
  import opened Optional
  import opened Text
  import opened Polling

  /** Attempt `k` is the first that does not keep the wait going, or the last one. */
  predicate EndsAt<A>(trace: seq<Turn<A>>, going: Turn<A> -> bool, max: nat, k: nat) {
    k < max <= |trace| && (forall i | 0 <= i < k :: going(trace[i])) && (k == max - 1 || !going(trace[k]))
  }

  lemma {:induction false} StopEnds<A>(trace: seq<Turn<A>>, stops: Turn<A> -> bool, going: Turn<A> -> bool, max: nat)
    requires 0 < max <= |trace| && forall i | 0 <= i < max :: going(trace[i]) <==> !stops(trace[i])
    ensures EndsAt(trace, going, max, StopAt(trace, stops, max, 0))
  {
  }

  /** A policy is valid exactly with a positive timeout, interval and number of attempts. */
  lemma PolicyMeans(p: Policy)
    ensures ValidPolicy(p) <==> p.timeout >= 1 && p.pollInterval >= 1 && p.maxAttempts >= 1
  {
  }

  // ---- operations --------------------------------------------------------------------------------

  /** The operation is still under way, or the call failed, and nobody gave up. */
  predicate Underway<B>(id: string, t: Turn<Answer<B>>) {
    && t.before == Alive && t.asleep == Alive
    && (t.answer.None?
        || (t.answer.value.operationID == id && (t.answer.value.status == Pending || t.answer.value.status == Running)))
  }

  /** What the attempt a wait ends at makes of it; the last one never sleeps. */
  ghost predicate OperationEnds<B>(failed: string, id: string, t: Turn<Answer<B>>, last: bool, outcome: Outcome<B>) {
    match t.before
    case Expired => outcome == TimedOut
    case Cancelled => outcome == Aborted
    case Alive =>
      if t.answer.Some? && t.answer.value.operationID != id then outcome == WrongIdentity
      else if t.answer.Some? && t.answer.value.status == Succeeded then outcome == Done(t.answer.value)
      else if t.answer.Some? && t.answer.value.status == Failed then
        outcome == Rejected(if Blank(t.answer.value.detail) then t.answer.value.(detail := failed) else t.answer.value)
      else if t.answer.Some? && t.answer.value.status.UnknownStatus? then outcome == StrangeStatus
      else if last then outcome == (if t.answer.None? then CallFailed else Exhausted)
      else outcome == (if t.asleep == Expired then TimedOut else Aborted)
  }

  /** A wait for an operation ends at the first attempt that is not under way, or the last, with its outcome. */
  lemma OperationWaitMeans<B>(failed: string, trace: seq<Turn<Answer<B>>>, id: string, max: nat) returns (k: nat)
    requires 0 < max <= |trace|
    ensures EndsAt(trace, (t: Turn<Answer<B>>) => Underway(id, t), max, k)
    ensures OperationEnds(failed, id, trace[k], k == max - 1, OperationResult(failed, trace, id, max))
  {
    var stops, going := (t: Turn<Answer<B>>) => OperationStops(id, t), (t: Turn<Answer<B>>) => Underway(id, t);
    k := StopAt(trace, stops, max, 0);
    StopEnds(trace, stops, going, max);
  }

  // ---- edge cleanup ------------------------------------------------------------------------------

  /** Identities are single, non-blank lines, all different, and a resource is owned exactly if it bears the marker. */
  predicate SoundInventory(rs: seq<EdgeResource>, marker: string) {
    && (forall r | r in rs :: RequiredLine(r.identity) && (r.owned <==> r.ownershipMarker == marker))
    && (forall i, j | 0 <= i < j < |rs| :: rs[i].identity != rs[j].identity)
  }

  predicate StillThere(rs: seq<EdgeResource>) {
    exists r | r in rs :: r.owned && r.live
  }

  lemma InventoryMeans(rs: seq<EdgeResource>, marker: string)
    ensures (ValidEdgeInventory(rs, marker) <==> SoundInventory(rs, marker)) && (OwnedLive(rs) <==> StillThere(rs))
  {
    if StillThere(rs) {
      var r :| r in rs && r.owned && r.live;
      var i :| 0 <= i < |rs| && rs[i] == r;
    }
    if OwnedLive(rs) {
      var i :| 0 <= i < |rs| && rs[i].owned && rs[i].live;
      assert rs[i] in rs;
    }
    assert forall i | 0 <= i < |rs| :: rs[i] in rs;
  }

  predicate Cleaning(marker: string, t: Turn<seq<EdgeResource>>) {
    && t.before == Alive && t.asleep == Alive
    && (t.answer.None? || (SoundInventory(t.answer.value, marker) && StillThere(t.answer.value)))
  }

  predicate CleanupEnds(marker: string, t: Turn<seq<EdgeResource>>, last: bool, outcome: CleanupOutcome) {
    match t.before
    case Expired => outcome == CleanupTimedOut
    case Cancelled => outcome == CleanupAborted
    case Alive =>
      if t.answer.Some? && !SoundInventory(t.answer.value, marker) then outcome == InvalidInventory
      else if t.answer.Some? && !StillThere(t.answer.value) then outcome == Clean(t.answer.value)
      else if last then outcome == (if t.answer.None? then InventoryFailed else Remaining(t.answer.value))
      else outcome == (if t.asleep == Expired then CleanupTimedOut else CleanupAborted)
  }

  /** A cleanup wait ends at the first poll that shows a bad inventory or nothing owned and live, or gives up. */
  lemma CleanupWaitMeans(trace: seq<Turn<seq<EdgeResource>>>, marker: string, max: nat) returns (k: nat)
    requires 0 < max <= |trace|
    ensures EndsAt(trace, (t: Turn<seq<EdgeResource>>) => Cleaning(marker, t), max, k)
    ensures CleanupEnds(marker, trace[k], k == max - 1, CleanupResult(trace, marker, max))
  {
    var stops := (t: Turn<seq<EdgeResource>>) => CleanupStops(marker, t);
    var going := (t: Turn<seq<EdgeResource>>) => Cleaning(marker, t);
    forall rs ensures (ValidEdgeInventory(rs, marker) <==> SoundInventory(rs, marker)) && (OwnedLive(rs) <==> StillThere(rs)) {
      InventoryMeans(rs, marker);
    }
    k := StopAt(trace, stops, max, 0);
    StopEnds(trace, stops, going, max);
  }

  // ---- deletion ----------------------------------------------------------------------------------

  predicate SomethingLeft(d: Deletion) {
    d.resourceRefs != [] || d.delayedRefs != [] || d.protectedRefs != []
  }

  predicate Deleting(t: Turn<Deletion>) {
    && t.before == Alive && t.asleep == Alive
    && (t.answer.None?
        || t.answer.value.status == Pending || t.answer.value.status == Running
        || (t.answer.value.status == Succeeded && SomethingLeft(t.answer.value)))
  }

  /** `seen` is the latest answer among the first `n` attempts. */
  predicate Latest(trace: seq<Turn<Deletion>>, n: nat, seen: Option<Deletion>)
    requires n <= |trace|
  {
    if seen.None? then forall i | 0 <= i < n :: trace[i].answer.None?
    else exists i | 0 <= i < n :: trace[i].answer == seen && forall j | i < j < n :: trace[j].answer.None?
  }

  lemma {:induction false} LastSeenIsLatest(trace: seq<Turn<Deletion>>, n: nat)
    requires n <= |trace|
    ensures Latest(trace, n, LastSeen(trace, n))
  {
    if n > 0 && trace[n - 1].answer.None? {
      LastSeenIsLatest(trace, n - 1);
      var seen := LastSeen(trace, n - 1);
      if seen.Some? {
        var i :| 0 <= i < n - 1 && trace[i].answer == seen && forall j | i < j < n - 1 :: trace[j].answer.None?;
        assert trace[i].answer == seen && forall j | i < j < n :: trace[j].answer.None?;
      }
    }
  }

  predicate DeletionEnds(trace: seq<Turn<Deletion>>, k: nat, last: bool, outcome: DeletionOutcome)
    requires k < |trace|
  {
    var t := trace[k];
    match t.before
    case Expired => outcome.DeletionTimedOut? && Latest(trace, k, outcome.last)
    case Cancelled => outcome.DeletionAborted? && Latest(trace, k, outcome.last)
    case Alive =>
      if t.answer.Some? && t.answer.value.status == Succeeded && !SomethingLeft(t.answer.value) then
        outcome == Deleted(t.answer.value)
      else if t.answer.Some? && t.answer.value.status == Failed then
        outcome == DeletionFailed(
                     if t.answer.value.detail == "" then t.answer.value.(detail := "owning service reported deletion failure")
                     else t.answer.value)
      else if t.answer.Some? && t.answer.value.status.UnknownStatus? then outcome == DeletionStrange
      else if last then outcome.DeletionUnfinished? && Latest(trace, k + 1, outcome.last)
      else if t.asleep == Expired then outcome.DeletionTimedOut? && Latest(trace, k + 1, outcome.last)
      else outcome.DeletionAborted? && Latest(trace, k + 1, outcome.last)
  }

  /** A deletion wait ends at the first poll that shows nothing left, a failure or an unknown status, or gives up. */
  lemma DeletionWaitMeans(trace: seq<Turn<Deletion>>, max: nat) returns (k: nat)
    requires 0 < max <= |trace|
    ensures EndsAt(trace, Deleting, max, k) && DeletionEnds(trace, k, k == max - 1, DeletionResult(trace, max))
  {
    k := StopAt(trace, DeletionStops, max, 0);
    StopEnds(trace, DeletionStops, Deleting, max);
    LastSeenIsLatest(trace, k);
    LastSeenIsLatest(trace, k + 1);
  }

  /** Deletion succeeds exactly when a live attempt shows nothing left, delayed or protected, while nothing ended the wait before. */
  lemma DeletedIffEmptySeen(trace: seq<Turn<Deletion>>, max: nat)
    requires 0 < max <= |trace|
    ensures DeletionResult(trace, max).Deleted?
       <==> exists k :: 0 <= k < max && trace[k].before == Alive && trace[k].answer.Some?
                        && trace[k].answer.value.status == Succeeded
                        && trace[k].answer.value.resourceRefs == [] && trace[k].answer.value.delayedRefs == []
                        && trace[k].answer.value.protectedRefs == []
                        && forall i | 0 <= i < k :: Deleting(trace[i])
  {
    var j := DeletionWaitMeans(trace, max);
    if k :| 0 <= k < max && trace[k].before == Alive && trace[k].answer.Some?
            && trace[k].answer.value.status == Succeeded
            && trace[k].answer.value.resourceRefs == [] && trace[k].answer.value.delayedRefs == []
            && trace[k].answer.value.protectedRefs == []
            && forall i | 0 <= i < k :: Deleting(trace[i])
    {
      assert !Deleting(trace[k]);
      assert j == k;
    }
  }

  // ---- costs -------------------------------------------------------------------------------------

  /** The attempts among the first `n` that began alive. */
  function Begun<A>(trace: seq<Turn<A>>, n: nat): nat
    requires n <= |trace|
  {
    if n == 0 then 0 else Begun(trace, n - 1) + if trace[n - 1].before == Alive then 1 else 0
  }

  /** Those of them that were neither decided nor attempt `max - 1`. */
  function Slept<A>(trace: seq<Turn<A>>, decides: A -> bool, max: nat, n: nat): nat
    requires n <= |trace|
  {
    if n == 0 then 0
    else
      Slept(trace, decides, max, n - 1)
      + if trace[n - 1].before == Alive && !Decided(trace[n - 1], decides) && n < max then 1 else 0
  }

  lemma {:induction false} AllBegun<A>(trace: seq<Turn<A>>, decides: A -> bool, max: nat, k: nat)
    requires k < max && k <= |trace| && forall i | 0 <= i < k :: trace[i].before == Alive && !Decided(trace[i], decides)
    ensures Begun(trace, k) == k && Slept(trace, decides, max, k) == k
  {
    if k > 0 {
      AllBegun(trace, decides, max, k - 1);
    }
  }

  /** One call per attempt that began alive; one sleep per such attempt that was neither decided nor the last. */
  lemma WaitCosts<A>(trace: seq<Turn<A>>, decides: A -> bool, max: nat, k: nat)
    requires k < max <= |trace| && forall i | 0 <= i < k :: trace[i].before == Alive && !Decided(trace[i], decides)
    ensures Polls(trace, k) == Begun(trace, k + 1) && Sleeps(trace, decides, k, max) == Slept(trace, decides, max, k + 1)
  {
    AllBegun(trace, decides, max, k);
  }

  // ---- edge execution ----------------------------------------------------------------------------

  /** The answer an execution judges: a finished first one, or the success that polling a pending one ended in. */
  predicate Judges(x: EdgeExecution, started: Option<Answer<EdgeReport>>, trace: seq<Turn<Answer<EdgeReport>>>, a: Answer<EdgeReport>)
    requires 0 < x.policy.maxAttempts <= |trace|
  {
    started.Some?
    && if started.value.status == Pending || started.value.status == Running
       then && RequiredLine(started.value.operationID)
            && OperationResult("provider reported edge operation failure", trace, started.value.operationID, x.policy.maxAttempts)
               == Done(a)
       else a == started.value
  }

  /** It is a success of this action for this owner, verified and pointing at something. */
  predicate Vouched(x: EdgeExecution, a: Answer<EdgeReport>) {
    && a.status == Succeeded && (a.body.action == None || a.body.action == Some(x.action))
    && a.body.ownershipMarker == x.ownershipMarker && a.body.ownershipVerified && a.body.idempotencyVerified
    && (Blank(a.operationID) ==> a.body.hasReferences) && a.body.resultValid
  }

  /** Which answer an edge execution judges, and which it accepts, in fields. */
  lemma EdgeAnswerMeans(x: EdgeExecution, started: Option<Answer<EdgeReport>>, trace: seq<Turn<Answer<EdgeReport>>>, a: Answer<EdgeReport>)
    requires 0 < x.policy.maxAttempts <= |trace|
    ensures EdgeSettled(x, started, trace) == Some(a) <==> Judges(x, started, trace, a)
    ensures EdgeAccepted(x, a) <==> Vouched(x, a)
  {
  }
}
