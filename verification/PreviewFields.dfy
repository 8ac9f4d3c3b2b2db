/** Preview ownership in fields: who owns a stack, what a record contains, and why a request is refused. */
module PreviewFields {
  import opened Optional
  import opened Text
  import opened PreviewOwnership

  /** A text without C0 and C1 control characters. */
  predicate Printable(s: string) {
    forall c | c in s :: !(c as int < 32) && !(127 <= c as int <= 159)
  }

  predicate Filled(s: string) {
    Printable(s) && exists c | c in s :: !IsSpace(c)
  }

  lemma TextsMean(s: string)
    ensures (ControlFree(s) <==> Printable(s)) && (RequiredText(s) <==> Filled(s))
  {
    assert forall i | 0 <= i < |s| :: s[i] in s;
    if Filled(s) {
      var c :| c in s && !IsSpace(c);
      var i :| 0 <= i < |s| && s[i] == c;
    }
    if !Blank(s) {
      var i :| 0 <= i < |s| && !IsSpace(s[i]);
      assert s[i] in s;
    }
  }

  predicate CompleteRecord(m: Metadata) {
    && Filled(m.project) && Filled(m.repository) && Filled(m.environment) && Filled(m.stackKey) && Filled(m.owner)
    && m.pullRequest >= 1 && m.generation >= 1
    && Printable(m.branch) && Printable(m.commitDigest) && Printable(m.domain) && Printable(m.expiresAt)
  }

  lemma MetadataMeans(m: Metadata)
    ensures ValidMetadata(m) <==> CompleteRecord(m)
  {
    TextsMean(m.project);
    TextsMean(m.repository);
    TextsMean(m.environment);
    TextsMean(m.stackKey);
    TextsMean(m.owner);
    TextsMean(m.branch);
    TextsMean(m.commitDigest);
    TextsMean(m.domain);
    TextsMean(m.expiresAt);
  }

  /** The owner of a request, field by field. */
  function OwnerOf(m: Metadata): (string, string, int, string, string, string) {
    (m.project, m.repository, m.pullRequest, m.environment, m.stackKey, m.owner)
  }

  /** The stack's record, when it is readable. */
  predicate Readable(s: Stack, current: Metadata) {
    s.tag == Record(current) && CompleteRecord(current)
  }

  /**
    * Why a guard refuses, exactly: an incomplete request, an unreadable list or record, a destroy or a populated stack
    * without a record, another owner, an older generation, another record under the same generation, or a failed write.
    */
  lemma RefusalMeans(s: Stack, m: Metadata, destroying: bool, f: Faults)
    ensures var v, none := Guard(s, Some(m), destroying, f).1, s.tag == Absent || s.tag == Empty;
      var heard := CompleteRecord(m) && !f.listFails;
      && (v == Refused(Invalid) <==> !CompleteRecord(m)) && (v == Refused(ReadFailed) <==> CompleteRecord(m) && f.listFails)
      && (v == Refused(TagUnreadable) <==> heard && !none && forall c :: !Readable(s, c))
      && (v == Refused(Missing) <==> heard && none && destroying)
      && (v == Refused(InfoFailed) <==> heard && none && !destroying && f.infoFails)
      && (v == Refused(Unowned) <==> heard && none && !destroying && !f.infoFails && s.populated)
      && (v == Refused(OwnerConflict) <==> heard && exists c :: Readable(s, c) && OwnerOf(c) != OwnerOf(m))
      && (v == Refused(Stale) <==> heard && exists c :: Readable(s, c) && OwnerOf(c) == OwnerOf(m) && m.generation < c.generation)
      && (v == Refused(Changed) <==> heard && exists c :: Readable(s, c) && OwnerOf(c) == OwnerOf(m) && m.generation == c.generation && m != c)
  {
    MetadataMeans(m);
    if s.tag.Record? {
      MetadataMeans(s.tag.metadata);
      assert ValidMetadata(s.tag.metadata) ==> Readable(s, s.tag.metadata);
    }
  }

  /** Over any run a recorded owner never changes, field by field. */
  lemma OwnerNeverChanges(s: Stack, events: seq<Event>)
    requires s.tag.Record?
    ensures After(s, events).tag.Record? && OwnerOf(After(s, events).tag.metadata) == OwnerOf(s.tag.metadata)
    ensures s.tag.metadata.generation <= After(s, events).tag.metadata.generation
  {
    assert After(s, events[..0]) == s;
    RunEvolves(s, events, 0);
  }

  /** A preview run in destroy mode writes nothing; any other preview or update that reaches the provider owns the record. */
  lemma OperationsMean(s: Stack, e: Event)
    requires e.Operate?
    ensures e.operation.Preview? && e.destroyFlag ==> Step(s, e).tag == s.tag
    ensures Performed(s, e) && e.preview.Some? && (e.operation.Update? || (e.operation.Preview? && !e.destroyFlag)) ==>
              Step(s, e).tag == Record(e.preview.value)
    ensures e.operation.Destroy? ==> Step(s, e).tag == s.tag
    ensures e.cancelled ==> !Performed(s, e)
    ensures e.preview.None? ==> (Performed(s, e) <==> !e.cancelled) && Step(s, e).tag == s.tag
    ensures Performed(s, e) && !e.operation.Preview? ==> Step(s, e).populated == e.populatedAfter
    ensures !Performed(s, e) || e.operation.Preview? ==> Step(s, e).populated == s.populated
  {
    GuardEvolves(s, e.preview, FirstMode(e), e.first);
    GuardEvolves(Admitted(s, e), e.preview, SecondMode(e), e.second);
    if Performed(s, e) && e.preview.Some? { PerformedIsOwned(s, e); }
  }
}
