/** Exactly which answers of the model the worker accepts, and as which report. */
module AnswerReading {
  import opened Text
  import opened Json
  import opened MarkdownSplitter
  import opened DissectionReport
  import opened DissectionRoundTrip

  /** The value is the printed one, but for what the normaliser makes of its texts. */
  predicate ReadsAs(value: Json, printed: Json, text: Normaliser)
    decreases printed
  {
    match printed
    case Null => value.Null?
    case Bool(b) => value == Bool(b)
    case Int(n) => value == Int(n)
    case Float(x) => value == Float(x)
    case Str(t) => value.Str? && text(value) == Ok(t)
    case Arr(items) =>
      && value.Arr? && |value.items| == |items|
      && forall i :: 0 <= i < |items| ==> ReadsAs(value.items[i], items[i], text)
    case Obj(fields) =>
      && value.Obj? && value.fields.Keys == fields.Keys
      && forall k :: k in fields ==> ReadsAs(value.fields[k], fields[k], text)
  }

  ghost predicate TakesStrings(text: Normaliser) {
    forall v :: text(v).Ok? ==> v.Str?
  }

  lemma TextIff(value: Json, t: string, text: Normaliser)
    requires TakesStrings(text)
    ensures text(value) == Ok(t) <==> ReadsAs(value, Str(t), text)
  {
  }

  lemma OptionalIff(value: Json, t: Option<string>, text: Normaliser)
    requires TakesStrings(text)
    ensures OptionalText(value, text) == Ok(t) <==> ReadsAs(value, PrintOptional(t), text)
  {
  }

  // ----- arrays -----

  /** An array parses to values exactly when it reads as their printings and each is fine at its position. */
  lemma ArrayIff<T>(items: seq<Json>, index: int, parse: ElementParser<T>, values: seq<T>, prints: seq<Json>,
                    fine: (T, int) -> bool, text: Normaliser)
    requires |prints| == |values|
    requires forall i :: 0 <= i < |items| == |values| ==>
      (parse(items[i], index + i) == Ok(values[i]) <==> ReadsAs(items[i], prints[i], text) && fine(values[i], i))
    ensures ParseEach(items, index, parse) == Ok(values) <==>
      ReadsAs(Arr(items), Arr(prints), text) && forall i :: 0 <= i < |values| ==> fine(values[i], i)
  {
    ParseEachIsPointwise(items, index, parse);
    if |items| == |values| {
      if ReadsAs(Arr(items), Arr(prints), text) && forall i :: 0 <= i < |values| ==> fine(values[i], i) {
        assert forall i :: 0 <= i < |items| ==> parse(items[i], index + i) == Ok(values[i]);
        ParseEachYields(items, index, parse, values);
      }
      if ParseEach(items, index, parse) == Ok(values) {
        assert forall i :: 0 <= i < |items| ==> parse(items[i], index + i) == Ok(values[i]);
      }
    }
  }

  lemma TextListIff(value: Json, minimum: nat, maximum: Option<nat>, ts: seq<string>, text: Normaliser)
    requires TakesStrings(text)
    ensures TextList(value, minimum, maximum, text) == Ok(ts) <==>
      ReadsAs(value, PrintTexts(ts), text) && minimum <= |ts| && (maximum.Some? ==> |ts| <= maximum.value)
  {
    if value.Arr? {
      var items, prints, fine := value.items, PrintTexts(ts).items, (t: string, i: int) => true;
      forall i | 0 <= i < |items| == |ts|
        ensures EachText(text)(items[i], 0 + i) == Ok(ts[i]) <==> ReadsAs(items[i], prints[i], text) && fine(ts[i], i)
      {
        TextIff(items[i], ts[i], text);
      }
      ArrayIff(items, 0, EachText(text), ts, prints, fine, text);
      ParseEachIsPointwise(items, 0, EachText(text));
    }
  }

  lemma ReferencesIff(value: Json, ids: set<int>, ns: seq<int>, text: Normaliser)
    ensures ReferencesOf(value, ids) == Ok(ns) <==> ReadsAs(value, PrintIntegers(ns), text) && CleanReferences(ns, ids)
  {
    if ReferencesOf(value, ids) == Ok(ns) {
      ParsedReferencesAreClean(value, ids);
    }
    if ReadsAs(value, PrintIntegers(ns), text) && CleanReferences(ns, ids) {
      forall i | 0 <= i < |ns|
        ensures value.items[i] == Int(ns[i])
      {
        assert ReadsAs(value.items[i], PrintIntegers(ns).items[i], text);
      }
      assert value.items == PrintIntegers(ns).items;
      CleanReferencesReparse(ns, ids);
    }
  }

  // ----- objects -----

  lemma ObjectIff(value: Json, g: map<Key, Json>, text: Normaliser)
    ensures ReadsAs(value, Obj(g), text) <==>
      && value.Obj? && value.fields.Keys == g.Keys
      && forall k :: k in g ==> ReadsAs(value.fields[k], g[k], text)
  {
  }

  lemma NarrativeByParts(value: Json, n: Narrative, text: Normaliser)
    ensures NarrativeOf(value, text) == Ok(n) <==>
      && value.Obj? && value.fields.Keys == NARRATIVE_KEYS
      && var f := value.fields;
      && OptionalText(f[OpeningHook], text) == Ok(n.openingHook) && text(f[StructureType]) == Ok(n.structureType)
      && OptionalText(f[TurningPoint], text) == Ok(n.turningPoint)
      && OptionalText(f[ClosingType], text) == Ok(n.closingType)
  {
  }

  lemma NarrativeIff(value: Json, n: Narrative, text: Normaliser)
    requires TakesStrings(text)
    ensures NarrativeOf(value, text) == Ok(n) <==> ReadsAs(value, PrintNarrative(n), text)
  {
    NarrativeByParts(value, n, text);
    ObjectIff(value, PrintNarrative(n).fields, text);
    if value.Obj? && value.fields.Keys == NARRATIVE_KEYS {
      var f := value.fields;
      OptionalIff(f[OpeningHook], n.openingHook, text);
      OptionalIff(f[TurningPoint], n.turningPoint, text);
      OptionalIff(f[ClosingType], n.closingType, text);
      TextIff(f[StructureType], n.structureType, text);
    }
  }

  /** Every field of the object reads as the segment's. */
  predicate SegmentReads(f: map<Key, Json>, s: Segment, text: Normaliser)
    requires f.Keys == SEGMENT_KEYS
  {
    && f[Id] == Int(s.id) && ReadsAs(f[Title], Str(s.title), text)
    && ReadsAs(f[SourceChunkIds], PrintIntegers(s.sourceChunkIds), text)
    && ReadsAs(f[CoreClaim], Str(s.coreClaim), text)
    && ReadsAs(f[SupportingPoints], PrintTexts(s.supportingPoints), text)
    && ReadsAs(f[RhetoricalDevices], PrintTexts(s.rhetoricalDevices), text)
    && ReadsAs(f[RhythmNote], Str(s.rhythmNote), text) && ReadsAs(f[ReusablePattern], Str(s.reusablePattern), text)
    && ReadsAs(f[RiskFlags], PrintTexts(s.riskFlags), text)
  }

  lemma SegmentFieldsRead(f: map<Key, Json>, g: map<Key, Json>, s: Segment, text: Normaliser)
    requires f.Keys == g.Keys == SEGMENT_KEYS
    requires g[Id] == Int(s.id) && g[Title] == Str(s.title) && g[SourceChunkIds] == PrintIntegers(s.sourceChunkIds)
    requires g[CoreClaim] == Str(s.coreClaim) && g[SupportingPoints] == PrintTexts(s.supportingPoints)
    requires g[RhetoricalDevices] == PrintTexts(s.rhetoricalDevices) && g[RhythmNote] == Str(s.rhythmNote)
    requires g[ReusablePattern] == Str(s.reusablePattern) && g[RiskFlags] == PrintTexts(s.riskFlags)
    ensures (forall k :: k in g ==> ReadsAs(f[k], g[k], text)) <==> SegmentReads(f, s, text)
  {
    var read := set k | k in SEGMENT_KEYS && ReadsAs(f[k], g[k], text);
    AllSegmentKeys(read);
    assert (forall k :: k in g ==> ReadsAs(f[k], g[k], text)) <==> SEGMENT_KEYS <= read;
  }

  lemma SegmentReadsIff(value: Json, s: Segment, text: Normaliser)
    ensures ReadsAs(value, PrintSegment(s), text) <==>
      value.Obj? && value.fields.Keys == SEGMENT_KEYS && SegmentReads(value.fields, s, text)
  {
    var g := PrintSegment(s).fields;
    SegmentFieldsByKey(s);
    ObjectIff(value, g, text);
    if value.Obj? && value.fields.Keys == SEGMENT_KEYS {
      SegmentFieldsRead(value.fields, g, s, text);
    }
  }

  /** What the worker asks of a segment at its position. */
  predicate IsInPlace(s: Segment, index: int, ids: set<int>) {
    s.id == index && CleanReferences(s.sourceChunkIds, ids)
  }

  lemma SegmentIff(value: Json, index: int, ids: set<int>, text: Normaliser, s: Segment)
    requires TakesStrings(text)
    ensures SegmentOf(value, index, ids, text) == Ok(s) <==>
      ReadsAs(value, PrintSegment(s), text) && IsInPlace(s, index, ids)
  {
    SegmentReadsIff(value, s, text);
    if value.Obj? && value.fields.Keys == SEGMENT_KEYS {
      var f := value.fields;
      ReferencesIff(f[SourceChunkIds], ids, s.sourceChunkIds, text);
      TextIff(f[Title], s.title, text);
      TextIff(f[CoreClaim], s.coreClaim, text);
      TextListIff(f[SupportingPoints], 0, None, s.supportingPoints, text);
      TextListIff(f[RhetoricalDevices], 0, None, s.rhetoricalDevices, text);
      TextIff(f[RhythmNote], s.rhythmNote, text);
      TextIff(f[ReusablePattern], s.reusablePattern, text);
      TextListIff(f[RiskFlags], 0, None, s.riskFlags, text);
    }
  }

  function InPlaceAt(ids: set<int>): (Segment, int) -> bool {
    (s: Segment, i: int) => IsInPlace(s, i + 1, ids)
  }

  lemma SegmentElementIff(item: Json, i: nat, ids: set<int>, text: Normaliser, s: Segment)
    requires TakesStrings(text)
    ensures EachSegment(ids, text)(item, 1 + i) == Ok(s) <==>
      ReadsAs(item, PrintSegment(s), text) && InPlaceAt(ids)(s, i)
  {
    calc {
      EachSegment(ids, text)(item, 1 + i) == Ok(s);
    <==>
      SegmentOf(item, 1 + i, ids, text) == Ok(s);
    <==> { SegmentIff(item, 1 + i, ids, text, s); }
      ReadsAs(item, PrintSegment(s), text) && IsInPlace(s, 1 + i, ids);
    <==>
      ReadsAs(item, PrintSegment(s), text) && InPlaceAt(ids)(s, i);
    }
  }

  lemma SegmentItemsIff(items: seq<Json>, ids: set<int>, text: Normaliser, ss: seq<Segment>)
    requires TakesStrings(text)
    ensures ParseEach(items, 1, EachSegment(ids, text)) == Ok(ss) <==>
      ReadsAs(Arr(items), PrintSegments(ss), text) && forall i :: 0 <= i < |ss| ==> InPlaceAt(ids)(ss[i], i)
  {
    var prints := PrintSegments(ss).items;
    forall i | 0 <= i < |items| == |ss|
      ensures EachSegment(ids, text)(items[i], 1 + i) == Ok(ss[i]) <==>
        ReadsAs(items[i], prints[i], text) && InPlaceAt(ids)(ss[i], i)
    {
      SegmentElementIff(items[i], i, ids, text, ss[i]);
    }
    ArrayIff(items, 1, EachSegment(ids, text), ss, prints, InPlaceAt(ids), text);
  }

  lemma InPlaceAtEach(ss: seq<Segment>, ids: set<int>)
    ensures (forall i :: 0 <= i < |ss| ==> InPlaceAt(ids)(ss[i], i)) <==>
      forall i :: 0 <= i < |ss| ==> IsInPlace(ss[i], i + 1, ids)
  {
    assert forall i :: 0 <= i < |ss| ==> (InPlaceAt(ids)(ss[i], i) <==> IsInPlace(ss[i], i + 1, ids));
  }

  lemma SegmentsIff(value: Json, ids: set<int>, text: Normaliser, ss: seq<Segment>)
    requires TakesStrings(text)
    ensures SegmentListOf(value, ids, text) == Ok(ss) <==>
      && ReadsAs(value, PrintSegments(ss), text) && ss != []
      && forall i :: 0 <= i < |ss| ==> IsInPlace(ss[i], i + 1, ids)
  {
    if value.Arr? {
      SegmentItemsIff(value.items, ids, text, ss);
      InPlaceAtEach(ss, ids);
      assert value == Arr(value.items);
    }
  }

  predicate IsFit(fit: string) {
    fit == "high" || fit == "medium" || fit == "low"
  }

  lemma AudienceFitIff(value: Json, text: Normaliser, a: AudienceFit)
    requires TakesStrings(text)
    ensures AudienceFitOf(value, text) == Ok(a) <==> ReadsAs(value, PrintAudienceFit(a), text) && IsFit(a.fit)
  {
    ObjectIff(value, PrintAudienceFit(a).fields, text);
    if value.Obj? && value.fields.Keys == AUDIENCE_KEYS {
      var f := value.fields;
      TextIff(f[Audience], a.audience, text);
      TextIff(f[Fit], a.fit, text);
      TextIff(f[Note], a.note, text);
    }
  }

  lemma AudienceIff(value: Json, text: Normaliser, fits: seq<AudienceFit>)
    requires TakesStrings(text)
    ensures AudienceOf(value, text) == Ok(fits) <==>
      ReadsAs(value, PrintAudience(fits), text) && forall i :: 0 <= i < |fits| ==> IsFit(fits[i].fit)
  {
    if value.Arr? {
      var items, prints, fine := value.items, PrintAudience(fits).items, (a: AudienceFit, i: int) => IsFit(a.fit);
      forall i | 0 <= i < |items| == |fits|
        ensures EachAudienceFit(text)(items[i], 1 + i) == Ok(fits[i]) <==>
          ReadsAs(items[i], prints[i], text) && fine(fits[i], i)
      {
        AudienceFitIff(items[i], text, fits[i]);
      }
      ArrayIff(items, 1, EachAudienceFit(text), fits, prints, fine, text);
    }
  }

  lemma TemplateIff(value: Json, text: Normaliser, t: Template)
    requires TakesStrings(text)
    ensures SkeletonOf(value, text) == Ok(t.skeleton) && text(value.fields[Name]) == Ok(t.name) <==>
      ReadsAs(value, PrintTemplate(t), text) && 3 <= |t.skeleton| <= 7
  {
    ObjectIff(value, PrintTemplate(t).fields, text);
    if value.Obj? && value.fields.Keys == TEMPLATE_KEYS {
      TextListIff(value.fields[Skeleton], 3, Some(7), t.skeleton, text);
      TextIff(value.fields[Name], t.name, text);
    }
  }

  /** Every highlight stands in the transcript, word for word. */
  ghost predicate AreQuotations(highlights: seq<string>, transcript: string) {
    forall t :: t in highlights ==> exists i :: 0 <= i <= |transcript| - |t| && IsQuotedAt(t, transcript, i)
  }

  predicate IsQuotedAt(t: string, transcript: string, i: int) {
    0 <= i <= |transcript| - |t| && forall j :: 0 <= j < |t| ==> transcript[i + j] == t[j]
  }

  lemma QuotedIff(t: string, transcript: string)
    ensures Contains(transcript, t) <==> exists i :: 0 <= i <= |transcript| - |t| && IsQuotedAt(t, transcript, i)
  {
    forall i | 0 <= i <= |transcript| - |t|
      ensures IsQuotedAt(t, transcript, i) <==> OccursAt(transcript, t, i)
    {
      var piece := transcript[i..i + |t|];
      assert forall j :: 0 <= j < |t| ==> piece[j] == transcript[i + j];
      if IsQuotedAt(t, transcript, i) {
        assert piece == t;
      }
    }
    if Contains(transcript, t) {
      var i :| 0 <= i <= |transcript| && OccursAt(transcript, t, i);
      assert IsQuotedAt(t, transcript, i);
    }
    if i :| 0 <= i <= |transcript| - |t| && IsQuotedAt(t, transcript, i) {
      assert OccursAt(transcript, t, i);
    }
  }

  lemma QuotationsIff(highlights: seq<string>, transcript: string)
    ensures AllQuoted(highlights, transcript) <==> AreQuotations(highlights, transcript)
  {
    forall t | t in highlights
      ensures Contains(transcript, t) <==> exists i :: 0 <= i <= |transcript| - |t| && IsQuotedAt(t, transcript, i)
    {
      QuotedIff(t, transcript);
    }
  }

  lemma HighlightsIff(value: Json, transcript: string, text: Normaliser, hs: seq<string>)
    requires TakesStrings(text)
    ensures HighlightsOf(value, transcript, text) == Ok(hs) <==>
      ReadsAs(value, PrintTexts(hs), text) && |hs| <= 8 && AreQuotations(hs, transcript)
  {
    QuotationsIff(hs, transcript);
    TextListIff(value, 0, Some(8), hs, text);
  }

  // ----- the whole answer -----

  /** What the worker asks of a report besides its texts: segments in their places with known references, every
      highlight quoted from the transcript, a template of three to seven steps, fits of a known kind, lists within
      their bounds. */
  ghost predicate MeetsRules(s: Semantic, transcript: string, ids: set<int>) {
    && s.segments != [] && (forall i :: 0 <= i < |s.segments| ==> IsInPlace(s.segments[i], i + 1, ids))
    && |s.highlights| <= 8 && AreQuotations(s.highlights, transcript)
    && 3 <= |s.template.skeleton| <= 7
    && (forall i :: 0 <= i < |s.audienceFit| ==> IsFit(s.audienceFit[i].fit))
    && |s.strengths| <= 6 && |s.weaknesses| <= 6
  }

  /** Every field of the answer reads as the report's. */
  predicate SemanticReads(f: map<Key, Json>, s: Semantic, text: Normaliser)
    requires f.Keys == SEMANTIC_KEYS
  {
    && ReadsAs(f[OverallNarrative], PrintNarrative(s.narrative), text)
    && ReadsAs(f[Segments], PrintSegments(s.segments), text) && ReadsAs(f[Highlights], PrintTexts(s.highlights), text)
    && ReadsAs(f[ReusableTemplate], PrintTemplate(s.template), text)
    && ReadsAs(f[AudienceFitKey], PrintAudience(s.audienceFit), text)
    && ReadsAs(f[Strengths], PrintTexts(s.strengths), text) && ReadsAs(f[Weaknesses], PrintTexts(s.weaknesses), text)
  }

  lemma SemanticReadsIff(value: Json, s: Semantic, text: Normaliser)
    ensures ReadsAs(value, Obj(SemanticFields(s)), text) <==>
      value.Obj? && value.fields.Keys == SEMANTIC_KEYS && SemanticReads(value.fields, s, text)
  {
    var g := SemanticFields(s);
    SemanticFieldsByKey(s);
    ObjectIff(value, g, text);
    if value.Obj? && value.fields.Keys == SEMANTIC_KEYS {
      var read := set k | k in SEMANTIC_KEYS && ReadsAs(value.fields[k], g[k], text);
      AllSemanticKeys(read);
      assert (forall k :: k in g ==> ReadsAs(value.fields[k], g[k], text)) <==> SEMANTIC_KEYS <= read;
    }
  }

  /** Every part of the answer parses to that part of the report. */
  ghost predicate PartsParseTo(f: map<Key, Json>, transcript: string, ids: set<int>, text: Normaliser, s: Semantic)
    requires f.Keys == SEMANTIC_KEYS
  {
    && NarrativeOf(f[OverallNarrative], text) == Ok(s.narrative)
    && SegmentListOf(f[Segments], ids, text) == Ok(s.segments)
    && HighlightsOf(f[Highlights], transcript, text) == Ok(s.highlights)
    && SkeletonOf(f[ReusableTemplate], text) == Ok(s.template.skeleton)
    && text(f[ReusableTemplate].fields[Name]) == Ok(s.template.name)
    && AudienceOf(f[AudienceFitKey], text) == Ok(s.audienceFit)
    && TextList(f[Strengths], 0, Some(6), text) == Ok(s.strengths)
    && TextList(f[Weaknesses], 0, Some(6), text) == Ok(s.weaknesses)
  }

  lemma ParsedByParts(payload: Json, transcript: string, ids: set<int>, text: Normaliser, s: Semantic)
    ensures SemanticOf(payload, transcript, ids, text) == Ok(s) <==>
      payload.Obj? && payload.fields.Keys == SEMANTIC_KEYS && PartsParseTo(payload.fields, transcript, ids, text, s)
  {
  }

  lemma PartsRead(f: map<Key, Json>, transcript: string, ids: set<int>, text: Normaliser, s: Semantic)
    requires f.Keys == SEMANTIC_KEYS && TakesStrings(text) && PartsParseTo(f, transcript, ids, text, s)
    ensures SemanticReads(f, s, text) && MeetsRules(s, transcript, ids)
  {
    NarrativeIff(f[OverallNarrative], s.narrative, text);
    SegmentsIff(f[Segments], ids, text, s.segments);
    HighlightsIff(f[Highlights], transcript, text, s.highlights);
    TemplateIff(f[ReusableTemplate], text, s.template);
    AudienceIff(f[AudienceFitKey], text, s.audienceFit);
    TextListIff(f[Strengths], 0, Some(6), s.strengths, text);
    TextListIff(f[Weaknesses], 0, Some(6), s.weaknesses, text);
  }

  lemma ReadPartsParse(f: map<Key, Json>, transcript: string, ids: set<int>, text: Normaliser, s: Semantic)
    requires f.Keys == SEMANTIC_KEYS && TakesStrings(text)
    requires SemanticReads(f, s, text) && MeetsRules(s, transcript, ids)
    ensures PartsParseTo(f, transcript, ids, text, s)
  {
    NarrativeIff(f[OverallNarrative], s.narrative, text);
    SegmentsIff(f[Segments], ids, text, s.segments);
    HighlightsIff(f[Highlights], transcript, text, s.highlights);
    TemplateIff(f[ReusableTemplate], text, s.template);
    AudienceIff(f[AudienceFitKey], text, s.audienceFit);
    TextListIff(f[Strengths], 0, Some(6), s.strengths, text);
    TextListIff(f[Weaknesses], 0, Some(6), s.weaknesses, text);
  }

  /** The worker accepts an answer as a report exactly when the answer reads as that report's printing, every text by
      its normal form, and the report meets the rules. */
  lemma WorkerReadsExactly(payload: Json, transcript: string, ids: set<int>, s: Semantic)
    ensures SemanticOf(payload, transcript, ids, TextOf) == Ok(s) <==>
      ReadsAs(payload, Obj(SemanticFields(s)), TextOf) && MeetsRules(s, transcript, ids)
  {
    ParsedByParts(payload, transcript, ids, TextOf, s);
    SemanticReadsIff(payload, s, TextOf);
    if payload.Obj? && payload.fields.Keys == SEMANTIC_KEYS {
      var f := payload.fields;
      if PartsParseTo(f, transcript, ids, TextOf, s) {
        PartsRead(f, transcript, ids, TextOf, s);
      } else if SemanticReads(f, s, TextOf) && MeetsRules(s, transcript, ids) {
        ReadPartsParse(f, transcript, ids, TextOf, s);
      }
    }
  }
}
