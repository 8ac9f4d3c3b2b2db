/** What an admitted result contains, and which failure each refusal is. */
module AdmissionOutcomes {
  import opened Text
  import opened AdmissionScope
  import opened AdmissionCache

  /** Nothing secret, no negative capacity, and every quota and reason under a name, on one line. */
  predicate SoundResult(r: Result) {
    && r.secretSafe && r.availableCPUMilli >= 0 && r.availableMemoryMB >= 0
    && (forall k | k in r.availableQuota :: !Blank(k) && r.availableQuota[k] >= 0)
    && (forall k | k in r.reasons :: !Blank(k) && SingleLine(k) && SingleLine(r.reasons[k]))
  }

  lemma ValidIsSound(r: Result)
    ensures ValidResult(r) <==> SoundResult(r)
  {
    forall k | k in r.reasons ensures SingleLine(k + r.reasons[k]) <==> SingleLine(k) && SingleLine(r.reasons[k]) {
    }
  }

  /** What the owner of a flight will deliver: a sound answer as it is; a cancellation as such; anything else as a failed probe. */
  lemma AnswerMeans(c: Config, s: State, p: Caller, a: Answer)
    requires Enabled(c, s, Finish(p, a))
    ensures var o := Step(c, s, Finish(p, a)).phases[p];
      o == Completing(match a
                      case Answered(r) => if SoundResult(r) then Success(r) else Failed(ProbeFailed)
                      case Errored(cancelled) => if cancelled then Failed(Cancelled) else Failed(ProbeFailed))
  {
    if a.Answered? { ValidIsSound(a.result); }
  }

  /** Every success of a run is sound. */
  lemma SuccessIsSound(c: Config, events: seq<Event>, p: Caller, r: Result)
    requires Runs(c, events) && Injective(c.digest) && In(After(c, events), p, Returned(Success(r)))
    ensures SoundResult(r)
  {
    var i := SuccessIsSourced(c, events, p, r);
    ValidIsSound(r);
  }

  /** A call refused at once failed its input check, or was cancelled; a caller that stops waiting was cancelled. */
  lemma RefusalMeans(c: Config, s: State, p: Caller)
    ensures Enabled(c, s, Reject(p)) ==>
      Step(c, s, Reject(p)).phases[p] == Returned(Failed(if c.accepted(c.input(p)) then Cancelled else InvalidInput))
    ensures Enabled(c, s, WaitCancel(p)) ==> Step(c, s, WaitCancel(p)).phases[p] == Returned(Failed(Cancelled))
    ensures Enabled(c, s, AcquireCancel(p)) ==> Step(c, s, AcquireCancel(p)).phases[p] == Completing(Failed(Cancelled))
    ensures Enabled(c, s, Enter(p)) ==> c.accepted(c.input(p))
  {
  }
}
