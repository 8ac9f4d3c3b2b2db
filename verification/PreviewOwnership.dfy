/** The generation-numbered owner record that guards every operation on a preview stack. */
module PreviewOwnership {
  import opened Optional
  import opened Text

  datatype Metadata = Metadata(
    project: string, repository: string, pullRequest: int, environment: string, stackKey: string, owner: string,
    branch: string, commitDigest: string, domain: string, expiresAt: string, generation: nat)

  predicate ControlFree(s: string) {
    forall i | 0 <= i < |s| :: !(s[i] < ' ' || '\U{007F}' <= s[i] <= '\U{009F}')
  }

  predicate RequiredText(s: string) {
    !Blank(s) && ControlFree(s)
  }

  predicate ValidMetadata(m: Metadata) {
    && RequiredText(m.project) && RequiredText(m.repository) && RequiredText(m.environment)
    && RequiredText(m.stackKey) && RequiredText(m.owner)
    && m.pullRequest > 0 && m.generation > 0
    && ControlFree(m.branch) && ControlFree(m.commitDigest) && ControlFree(m.domain) && ControlFree(m.expiresAt)
  }

  predicate SameOwner(a: Metadata, b: Metadata) {
    && a.project == b.project && a.repository == b.repository && a.pullRequest == b.pullRequest
    && a.environment == b.environment && a.stackKey == b.stackKey && a.owner == b.owner
  }

  predicate SameRecord(a: Metadata, b: Metadata) {
    && SameOwner(a, b) && a.branch == b.branch && a.commitDigest == b.commitDigest && a.domain == b.domain
    && a.expiresAt == b.expiresAt && a.generation == b.generation
  }

  /** The ownership tag; `Unreadable` is a value that does not decode to valid metadata. */
  datatype Tag = Absent | Empty | Unreadable(text: string) | Record(metadata: Metadata)

  datatype Stack = Stack(tag: Tag, populated: bool)

  /** A failing tag write may or may not have taken effect. */
  datatype Write = Written | LostBefore | LostAfter

  datatype Faults = Faults(listFails: bool, infoFails: bool, write: Write)

  datatype Problem =
    | Invalid | ReadFailed | TagUnreadable | Missing | InfoFailed | Unowned | OwnerConflict | Stale | Changed | WriteFailed

  datatype Verdict = Allowed | Refused(why: Problem)

  // ---- the guard as a function of the stack ------------------------------------------------------

  function Stored(s: Stack, m: Metadata, f: Faults): (Stack, Verdict) {
    (if f.write.LostBefore? then s else s.(tag := Record(m)), if f.write.Written? then Allowed else Refused(WriteFailed))
  }

  function Guard(s: Stack, preview: Option<Metadata>, destroying: bool, f: Faults): (Stack, Verdict) {
    match preview
    case None => (s, Allowed)
    case Some(m) =>
      if !ValidMetadata(m) then (s, Refused(Invalid))
      else if f.listFails then (s, Refused(ReadFailed))
      else match s.tag
        case Unreadable(_) => (s, Refused(TagUnreadable))
        case Record(current) =>
          if !ValidMetadata(current) then (s, Refused(TagUnreadable))
          else if !SameOwner(m, current) then (s, Refused(OwnerConflict))
          else if m.generation < current.generation then (s, Refused(Stale))
          else if m.generation == current.generation then (s, if SameRecord(m, current) then Allowed else Refused(Changed))
          else if destroying then (s, Allowed)
          else Stored(s, m, f)
        case _ =>
          if destroying then (s, Refused(Missing))
          else if f.infoFails then (s, Refused(InfoFailed))
          else if s.populated then (s, Refused(Unowned))
          else Stored(s, m, f)
  }

  // ---- the backend -------------------------------------------------------------------------------

  class PulumiStack {
    var tag: Tag
    var populated: bool

    function View(): Stack
      reads this
    {
      Stack(tag, populated)
    }

    method SetTag(m: Metadata, w: Write) returns (ok: bool)
      modifies this`tag
      ensures (View(), if ok then Allowed else Refused(WriteFailed)) == Stored(old(View()), m, Faults(false, false, w))
    {
      if !w.LostBefore? {
        tag := Record(m);
      }
      return w.Written?;
    }
  }

  /** `None` inside `Some` is no record; `None` is an unreadable one. */
  function Decoded(t: Tag): Option<Option<Metadata>> {
    match t
    case Unreadable(_) => None
    case Record(m) => if ValidMetadata(m) then Some(Some(m)) else None
    case _ => Some(None)
  }

  method PreparePreview(stack: PulumiStack, preview: Option<Metadata>, destroying: bool, f: Faults) returns (verdict: Verdict)
    modifies stack`tag
    ensures (stack.View(), verdict) == Guard(old(stack.View()), preview, destroying, f)
  {
    if preview.None? {
      return Allowed;
    }
    var m := preview.value;
    if !ValidMetadata(m) {
      return Refused(Invalid);
    }
    if f.listFails {
      return Refused(ReadFailed);
    }
    var decoded := Decoded(stack.tag);
    if decoded.None? {
      return Refused(TagUnreadable);
    }
    if decoded.value.None? {
      if destroying {
        return Refused(Missing);
      }
      if f.infoFails {
        return Refused(InfoFailed);
      }
      if stack.populated {
        return Refused(Unowned);
      }
      var stored := stack.SetTag(m, f.write);
      return if stored then Allowed else Refused(WriteFailed);
    }
    var current := decoded.value.value;
    if !SameOwner(m, current) {
      return Refused(OwnerConflict);
    }
    if destroying {
      if m.generation < current.generation {
        return Refused(Stale);
      }
      if m.generation == current.generation && !SameRecord(m, current) {
        return Refused(Changed);
      }
      return Allowed;
    }
    if m.generation < current.generation {
      return Refused(Stale);
    }
    if m.generation == current.generation && !SameRecord(m, current) {
      return Refused(Changed);
    }
    if m.generation > current.generation {
      var stored := stack.SetTag(m, f.write);
      return if stored then Allowed else Refused(WriteFailed);
    }
    return Allowed;
  }

  // ---- one guard call ----------------------------------------------------------------------------

  predicate Unrecorded(t: Tag) {
    t.Absent? || t.Empty?
  }

  /** How an owner record may change: never its owner, never backwards, never without a new generation. */
  predicate Evolves(s: Stack, s': Stack) {
    match s.tag
    case Record(m) =>
      && s'.tag.Record? && SameOwner(s'.tag.metadata, m) && m.generation <= s'.tag.metadata.generation
      && (m.generation == s'.tag.metadata.generation ==> s'.tag == s.tag)
      && (ValidMetadata(m) ==> ValidMetadata(s'.tag.metadata))
    case Unreadable(_) => s'.tag == s.tag
    case _ => s'.tag == s.tag || (s'.tag.Record? && ValidMetadata(s'.tag.metadata))
  }

  lemma {:induction false} GuardEvolves(s: Stack, preview: Option<Metadata>, destroying: bool, f: Faults)
    ensures Evolves(s, Guard(s, preview, destroying, f).0)
    ensures Guard(s, preview, destroying, f).0.populated == s.populated
    ensures destroying ==> Guard(s, preview, destroying, f).0 == s
    ensures Unrecorded(s.tag) && s.populated ==> Guard(s, preview, destroying, f).0 == s
  {
  }

  /** When an apply is let through, and that the persisted record then equals the request on all eleven fields. */
  lemma {:induction false} ApplyAllowedIff(s: Stack, m: Metadata, f: Faults)
    ensures Guard(s, Some(m), false, f).1.Allowed? <==>
      && ValidMetadata(m) && !f.listFails
      && if Unrecorded(s.tag) then !f.infoFails && !s.populated && f.write.Written?
         else s.tag.Record? && ValidMetadata(s.tag.metadata)
              && (m == s.tag.metadata
                  || (SameOwner(m, s.tag.metadata) && m.generation > s.tag.metadata.generation && f.write.Written?))
    ensures Guard(s, Some(m), false, f).1.Allowed? ==> Guard(s, Some(m), false, f).0.tag == Record(m)
  {
  }

  /** When a destroy is let through: only for the recorded owner, at the recorded record or a newer generation. */
  lemma DestroyAllowedIff(s: Stack, m: Metadata, f: Faults)
    ensures Guard(s, Some(m), true, f).1.Allowed? <==>
      && ValidMetadata(m) && !f.listFails && s.tag.Record? && ValidMetadata(s.tag.metadata)
      && (m == s.tag.metadata || (SameOwner(m, s.tag.metadata) && m.generation > s.tag.metadata.generation))
  {
  }

  lemma RecordedGuardIsQuiet(s: Stack, m: Metadata, destroying: bool, f: Faults)
    requires s.tag.Record? && ValidMetadata(m) && ValidMetadata(s.tag.metadata) && SameOwner(m, s.tag.metadata)
    requires s.tag == Record(m) || (destroying && m.generation > s.tag.metadata.generation)
    ensures !f.listFails ==> Guard(s, Some(m), destroying, f) == (s, Allowed)
  {
  }

  lemma AllowedIsRecorded(s: Stack, m: Metadata, destroying: bool, f: Faults)
    requires Guard(s, Some(m), destroying, f).1.Allowed?
    ensures var s' := Guard(s, Some(m), destroying, f).0;
      && ValidMetadata(m) && s'.tag.Record? && ValidMetadata(s'.tag.metadata) && SameOwner(m, s'.tag.metadata)
      && (s'.tag == Record(m) || (destroying && m.generation > s'.tag.metadata.generation))
  {
  }

  /**
    * The Runner guards twice. After the first guard let the request through, the second succeeds without writing,
    * whatever the faults of a write would be, exactly when it runs in destroy mode, or the first did not, or the
    * stack already carried the request's record.
    */
  lemma {:induction false} SecondGuardIsQuiet(s: Stack, m: Metadata, first: bool, f: Faults, second: bool)
    requires Guard(s, Some(m), first, f).1.Allowed?
    ensures var s' := Guard(s, Some(m), first, f).0;
      (forall f': Faults | !f'.listFails :: Guard(s', Some(m), second, f') == (s', Allowed))
      <==> (second || !first || s.tag == Record(m))
    ensures !first ==> Guard(s, Some(m), first, f).0.tag == Record(m)
  {
    var s' := Guard(s, Some(m), first, f).0;
    AllowedIsRecorded(s, m, first, f);
    if second || s'.tag == Record(m) {
      forall f': Faults | !f'.listFails ensures Guard(s', Some(m), second, f') == (s', Allowed) {
        RecordedGuardIsQuiet(s', m, second, f');
      }
    } else {
      assert Guard(s', Some(m), second, Faults(false, false, LostBefore)) != (s', Allowed);
    }
  }

  // ---- whole runs --------------------------------------------------------------------------------

  datatype Operation = Preview | Update | Destroy

  /** One `Runner` operation: two guards around a possible cancellation, then the provider's effect. */
  datatype Event = Operate(
    operation: Operation, preview: Option<Metadata>, destroyFlag: bool, first: Faults, cancelled: bool, second: Faults,
    populatedAfter: bool)
    | Drift(populated: bool)

  function FirstMode(e: Event): bool
    requires e.Operate?
  {
    e.operation.Destroy? || e.destroyFlag
  }

  function SecondMode(e: Event): bool
    requires e.Operate?
  {
    match e.operation
    case Preview => e.destroyFlag
    case Update => false
    case Destroy => true
  }

  predicate FirstPasses(s: Stack, e: Event)
    requires e.Operate?
  {
    && (e.preview.Some? ==> ValidMetadata(e.preview.value))
    && Guard(s, e.preview, FirstMode(e), e.first).1.Allowed? && !e.cancelled
  }

  /** The stack after the first guard, when the operation got past it. */
  function Admitted(s: Stack, e: Event): Stack
    requires e.Operate?
  {
    Guard(s, e.preview, FirstMode(e), e.first).0
  }

  /** The provider call itself is reached. */
  predicate Performed(s: Stack, e: Event) {
    && e.Operate? && FirstPasses(s, e)
    && Guard(Admitted(s, e), e.preview, SecondMode(e), e.second).1.Allowed?
  }

  /** The stack on which the provider call runs. */
  function OperatedOn(s: Stack, e: Event): Stack
    requires e.Operate?
  {
    if FirstPasses(s, e) then Guard(Admitted(s, e), e.preview, SecondMode(e), e.second).0 else Admitted(s, e)
  }

  function Step(s: Stack, e: Event): Stack {
    match e
    case Drift(populated) => s.(populated := populated)
    case Operate(operation, _, _, _, _, _, populatedAfter) =>
      if Performed(s, e) && !operation.Preview? then OperatedOn(s, e).(populated := populatedAfter) else OperatedOn(s, e)
  }

  function After(s: Stack, events: seq<Event>): Stack {
    if events == [] then s else Step(After(s, events[..|events| - 1]), events[|events| - 1])
  }

  lemma EvolvesTransitive(a: Stack, b: Stack, c: Stack)
    requires Evolves(a, b) && Evolves(b, c)
    ensures Evolves(a, c)
  {
  }

  lemma OperatedEvolves(s: Stack, e: Event)
    requires e.Operate?
    ensures Evolves(s, OperatedOn(s, e))
  {
    GuardEvolves(s, e.preview, FirstMode(e), e.first);
    if FirstPasses(s, e) {
      GuardEvolves(Admitted(s, e), e.preview, SecondMode(e), e.second);
      EvolvesTransitive(s, Admitted(s, e), OperatedOn(s, e));
    }
  }

  lemma StepEvolves(s: Stack, e: Event)
    ensures Evolves(s, Step(s, e))
  {
    if e.Operate? {
      OperatedEvolves(s, e);
    }
  }

  /** Over any run: the six owner fields never change, the generation never falls, and a generation fixes the record. */
  lemma {:induction false} RunEvolves(s: Stack, events: seq<Event>, i: nat)
    requires i <= |events|
    ensures Evolves(After(s, events[..i]), After(s, events))
  {
    if i == |events| {
      assert events[..i] == events;
    } else {
      var front := events[..|events| - 1];
      assert front[..i] == events[..i];
      RunEvolves(s, front, i);
      StepEvolves(After(s, front), events[|events| - 1]);
      EvolvesTransitive(After(s, events[..i]), After(s, front), After(s, events));
    }
  }

  lemma AllowedIsOwned(s: Stack, m: Metadata, destroying: bool, f: Faults)
    requires Guard(s, Some(m), destroying, f).1.Allowed?
    ensures var t := Guard(s, Some(m), destroying, f).0.tag;
      t.Record? && SameOwner(t.metadata, m) && t.metadata.generation <= m.generation && (!destroying ==> t == Record(m))
  {
  }

  /** A guarded operation reaches the provider only on a stack its requester is recorded as owning. */
  lemma PerformedIsOwned(s: Stack, e: Event)
    requires Performed(s, e) && e.preview.Some?
    ensures OperatedOn(s, e).tag.Record? && SameOwner(OperatedOn(s, e).tag.metadata, e.preview.value)
    ensures OperatedOn(s, e).tag.metadata.generation <= e.preview.value.generation
    ensures !SecondMode(e) ==> OperatedOn(s, e).tag == Record(e.preview.value)
    ensures Step(s, e).tag == OperatedOn(s, e).tag
  {
    AllowedIsOwned(Admitted(s, e), e.preview.value, SecondMode(e), e.second);
  }

  const RECORDED := Metadata("p", "r", 1, "e", "k", "o", "", "", "", "", 1)
  const NO_FAULTS := Faults(false, false, Written)

  /** An update with the destroy flag set: the first guard leaves the older record, the second one replaces it. */
  lemma UpdateWithDestroyFlagWritesLate()
    ensures
      var newer := RECORDED.(generation := 2);
      var s, e := Stack(Record(RECORDED), true), Operate(Update, Some(newer), true, NO_FAULTS, false, NO_FAULTS, true);
      Performed(s, e) && Admitted(s, e) == s && OperatedOn(s, e).tag == Record(newer)
  {
    assert !IsSpace("p"[0]) && !IsSpace("r"[0]) && !IsSpace("e"[0]) && !IsSpace("k"[0]) && !IsSpace("o"[0]);
    assert RequiredText("p") && RequiredText("r") && RequiredText("e") && RequiredText("k") && RequiredText("o");
    assert ValidMetadata(RECORDED) && ValidMetadata(RECORDED.(generation := 2));
  }

  /** Two guarded operations of one run that reach the provider belong to one owner, in generation order. */
  lemma OneOwnerPerStack(s: Stack, events: seq<Event>, i: nat, j: nat)
    requires i < j < |events|
    requires Performed(After(s, events[..i]), events[i]) && events[i].preview.Some?
    requires Performed(After(s, events[..j]), events[j]) && events[j].preview.Some?
    ensures SameOwner(events[i].preview.value, events[j].preview.value)
    ensures !SecondMode(events[i]) ==> events[i].preview.value.generation <= events[j].preview.value.generation
  {
    assert events[..i + 1][..i] == events[..i];
    assert events[..j][..i + 1] == events[..i + 1];
    PerformedIsOwned(After(s, events[..i]), events[i]);
    PerformedIsOwned(After(s, events[..j]), events[j]);
    RunEvolves(s, events[..j], i + 1);
    EvolvesTransitive(After(s, events[..i + 1]), After(s, events[..j]), After(s, events[..j]));
    OperatedEvolves(After(s, events[..j]), events[j]);
  }

  /** Once a generation is recorded, every later guard call with an older one is refused, in either mode. */
  lemma StaleStaysRefused(s: Stack, events: seq<Event>, i: nat, m: Metadata, destroying: bool, f: Faults)
    requires i <= |events| && After(s, events[..i]).tag.Record?
    requires m.generation < After(s, events[..i]).tag.metadata.generation
    ensures Guard(After(s, events), Some(m), destroying, f).1.Refused?
  {
    RunEvolves(s, events, i);
  }

  /** A populated stack nobody owns stays unowned: a record first appears only while the stack is empty. */
  lemma {:induction false} AdoptionNeedsEmptyStack(s: Stack, e: Event)
    requires !s.tag.Record? && Step(s, e).tag.Record?
    ensures Unrecorded(s.tag) && !s.populated
  {
    if e.Operate? {
      GuardEvolves(s, e.preview, FirstMode(e), e.first);
      GuardEvolves(Admitted(s, e), e.preview, SecondMode(e), e.second);
    }
  }

  /** `Destroy` never writes the ownership tag, whether it runs or is refused. */
  lemma DestroyKeepsTag(s: Stack, e: Event)
    requires e.Operate? && e.operation.Destroy?
    ensures Step(s, e).tag == s.tag
  {
  }

  /** The record on the stack always decodes and passes validation if it did at the start. */
  lemma {:induction false} RecordStaysValid(s: Stack, events: seq<Event>)
    requires s.tag.Record? ==> ValidMetadata(s.tag.metadata)
    ensures After(s, events).tag.Record? ==> ValidMetadata(After(s, events).tag.metadata)
  {
    assert After(s, events[..0]) == s;
    RunEvolves(s, events, 0);
  }
}
