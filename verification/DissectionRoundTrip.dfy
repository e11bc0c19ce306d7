/** A dissection report survives being stored and read back, and a stored report is canonical. */
module DissectionRoundTrip {
  import opened Text
  import opened Json
  import opened MarkdownSplitter
  import opened DissectionReport

  // ----- arrays -----

  /** Parsing an array is parsing each element at its position. */
  lemma {:induction false} ParseEachIsPointwise<T>(items: seq<Json>, index: int, parse: ElementParser<T>)
    ensures ParseEach(items, index, parse).Ok? <==> forall i :: 0 <= i < |items| ==> parse(items[i], index + i).Ok?
    ensures ParseEach(items, index, parse).Ok? ==>
      var values := ParseEach(items, index, parse).value;
      |values| == |items| && forall i :: 0 <= i < |items| ==> parse(items[i], index + i) == Ok(values[i])
  {
    if items != [] {
      ParseEachIsPointwise(items[1..], index + 1, parse);
      assert forall i :: 0 <= i < |items| - 1 ==>
        parse(items[1..][i], index + 1 + i) == parse(items[i + 1], index + (i + 1));
      if forall i :: 0 <= i < |items| ==> parse(items[i], index + i).Ok? {
        assert parse(items[0], index + 0).Ok?;
        assert forall i :: 0 <= i < |items| - 1 ==> parse(items[1..][i], index + 1 + i).Ok?;
      }
      if ParseEach(items, index, parse).Ok? {
        var values := ParseEach(items, index, parse).value;
        forall i | 0 <= i < |items|
          ensures parse(items[i], index + i) == Ok(values[i])
        {
          if i > 0 {
            assert parse(items[1..][i - 1], index + 1 + (i - 1)) == Ok(values[1..][i - 1]);
          }
        }
      }
    }
  }

  /** An array whose elements parse to the given values parses to them. */
  lemma ParseEachYields<T>(items: seq<Json>, index: int, parse: ElementParser<T>, values: seq<T>)
    requires |items| == |values|
    requires forall i :: 0 <= i < |items| ==> parse(items[i], index + i) == Ok(values[i])
    ensures ParseEach(items, index, parse) == Ok(values)
  {
    ParseEachIsPointwise(items, index, parse);
    assert ParseEach(items, index, parse).value == values;
  }

  // ----- texts -----

  /** Accepted values are strings, and normalising twice is normalising once. */
  ghost predicate Normalises(text: Normaliser) {
    forall v :: text(v).Ok? ==> v.Str? && text(Str(text(v).value)) == text(v)
  }

  /** The report parser's own normaliser is one: what it makes of a text, it makes of the result again. */
  lemma TextOfNormalises()
    ensures Normalises(TextOf)
  {
    forall v | TextOf(v).Ok?
      ensures v.Str? && TextOf(Str(TextOf(v).value)) == TextOf(v)
    {
      TrimResult(v.s, IsPySpace);
      TrimmedIsFixed(Trim(v.s, IsPySpace), IsPySpace);
    }
  }

  /** Neither a script tag nor a script address stands in the text. */
  ghost predicate HasNoScript(t: string) {
    !StandsIn(t, "<script") && !StandsIn(t, "javascript:")
  }

  /** A value is accepted as a text exactly when it is a string, not all white space, at most 4000 long, and neither a
      script tag nor a script address stands in it; trimmed, which is what it is normalised to. */
  lemma TextIsAcceptedIff(value: Json)
    ensures TextOf(value) ==
      if !value.Str? || (forall i :: 0 <= i < |value.s| ==> IsPySpace(value.s[i])) || |value.s| > 4000 then Err(BadText)
      else if !HasNoScript(Trim(value.s, IsPySpace)) then Err(UnsafeText)
      else Ok(Trim(value.s, IsPySpace))
  {
    if value.Str? {
      var t := Trim(value.s, IsPySpace);
      TrimResult(value.s, IsPySpace);
      StandsInIff(t, "<script");
      StandsInIff(t, "javascript:");
    }
  }

  /** A text the parser returns unchanged. */
  predicate Clean(t: string, text: Normaliser) {
    text(Str(t)) == Ok(t)
  }

  predicate CleanAll(ts: seq<string>, text: Normaliser) {
    forall i :: 0 <= i < |ts| ==> Clean(ts[i], text)
  }

  predicate CleanOptional(t: Option<string>, text: Normaliser) {
    t.Some? ==> Clean(t.value, text)
  }

  predicate Fits(n: nat, minimum: nat, maximum: Option<nat>) {
    minimum <= n && (maximum.Some? ==> n <= maximum.value)
  }

  lemma ParsedTextListIsClean(value: Json, minimum: nat, maximum: Option<nat>, text: Normaliser)
    requires Normalises(text) && TextList(value, minimum, maximum, text).Ok?
    ensures var ts := TextList(value, minimum, maximum, text).value;
      CleanAll(ts, text) && Fits(|ts|, minimum, maximum)
    ensures Exact(value)
  {
    ParseEachIsPointwise(value.items, 0, EachText(text));
    forall i | 0 <= i < |value.items|
      ensures EachText(text)(value.items[i], 0 + i) == text(value.items[i])
    {
    }
  }

  lemma CleanTextListReparses(ts: seq<string>, minimum: nat, maximum: Option<nat>, text: Normaliser)
    requires CleanAll(ts, text) && Fits(|ts|, minimum, maximum)
    ensures TextList(PrintTexts(ts), minimum, maximum, text) == Ok(ts)
  {
    forall i | 0 <= i < |ts|
      ensures EachText(text)(PrintTexts(ts).items[i], 0 + i) == Ok(ts[i])
    {
      assert Clean(ts[i], text);
    }
    ParseEachYields(PrintTexts(ts).items, 0, EachText(text), ts);
  }

  // ----- references -----

  predicate Increasing(ns: seq<int>) {
    forall i, j :: 0 <= i < j < |ns| ==> ns[i] < ns[j]
  }

  /** Strictly increasing references to known chunks. */
  predicate CleanReferences(ns: seq<int>, chunkIds: set<int>) {
    ns != [] && Increasing(ns) && forall n :: n in ns ==> n >= 1 && n in chunkIds
  }

  lemma {:induction false} InsertHolds(n: int, sorted: seq<int>)
    ensures forall x :: x in Insert(n, sorted) <==> x == n || x in sorted
  {
    if sorted != [] {
      assert sorted == [sorted[0]] + sorted[1..];
      if n > sorted[0] {
        InsertHolds(n, sorted[1..]);
      }
    }
  }

  lemma {:induction false} InsertIsIncreasing(n: int, sorted: seq<int>)
    requires Increasing(sorted)
    ensures Increasing(Insert(n, sorted))
  {
    if sorted != [] && n > sorted[0] {
      var rest := Insert(n, sorted[1..]);
      InsertIsIncreasing(n, sorted[1..]);
      InsertHolds(n, sorted[1..]);
      forall j | 0 <= j < |rest|
        ensures sorted[0] < rest[j]
      {
        assert rest[j] in rest;
      }
    }
  }

  lemma {:induction false} SortedDistinctIsIncreasing(ns: seq<int>)
    ensures Increasing(SortedDistinct(ns))
    ensures forall x :: x in SortedDistinct(ns) <==> x in ns
  {
    if ns != [] {
      SortedDistinctIsIncreasing(ns[1..]);
      InsertIsIncreasing(ns[0], SortedDistinct(ns[1..]));
      InsertHolds(ns[0], SortedDistinct(ns[1..]));
      assert ns == [ns[0]] + ns[1..];
    }
  }

  /** A list equals its sorted distinct members exactly when it is strictly increasing. */
  lemma {:induction false} SortedDistinctFixesIncreasing(ns: seq<int>)
    ensures SortedDistinct(ns) == ns <==> Increasing(ns)
  {
    SortedDistinctIsIncreasing(ns);
    if Increasing(ns) && ns != [] {
      assert Increasing(ns[1..]);
      SortedDistinctFixesIncreasing(ns[1..]);
      assert ns == [ns[0]] + ns[1..];
    }
  }

  lemma ParsedReferencesAreClean(value: Json, chunkIds: set<int>)
    requires ReferencesOf(value, chunkIds).Ok?
    ensures CleanReferences(ReferencesOf(value, chunkIds).value, chunkIds)
    ensures Exact(value)
  {
    SortedDistinctFixesIncreasing(ReferencesOf(value, chunkIds).value);
  }

  lemma CleanReferencesReparse(ns: seq<int>, chunkIds: set<int>)
    requires CleanReferences(ns, chunkIds)
    ensures ReferencesOf(PrintIntegers(ns), chunkIds) == Ok(ns)
  {
    SortedDistinctFixesIncreasing(ns);
    var items := PrintIntegers(ns).items;
    assert forall i :: 0 <= i < |items| ==> items[i] == Int(ns[i]) && ns[i] in ns;
    assert IntegerList(PrintIntegers(ns)).Ok? && IntegerList(PrintIntegers(ns)).value == ns;
  }

  // ----- the parts of a report -----

  predicate CleanNarrative(n: Narrative, text: Normaliser) {
    && CleanOptional(n.openingHook, text) && Clean(n.structureType, text)
    && CleanOptional(n.turningPoint, text) && CleanOptional(n.closingType, text)
  }

  predicate CleanSegment(s: Segment, index: int, chunkIds: set<int>, text: Normaliser) {
    && s.id == index && CleanReferences(s.sourceChunkIds, chunkIds)
    && Clean(s.title, text) && Clean(s.coreClaim, text) && Clean(s.rhythmNote, text) && Clean(s.reusablePattern, text)
    && CleanAll(s.supportingPoints, text) && CleanAll(s.rhetoricalDevices, text) && CleanAll(s.riskFlags, text)
  }

  predicate CleanAudienceFit(a: AudienceFit, text: Normaliser) {
    Clean(a.audience, text) && Clean(a.fit, text) && a.fit in FITS && Clean(a.note, text)
  }

  predicate CleanSemantic(s: Semantic, transcript: string, chunkIds: set<int>, text: Normaliser) {
    && CleanNarrative(s.narrative, text)
    && s.segments != []
    && (forall i :: 0 <= i < |s.segments| ==> CleanSegment(s.segments[i], i + 1, chunkIds, text))
    && CleanAll(s.highlights, text) && |s.highlights| <= 8 && AllQuoted(s.highlights, transcript)
    && Clean(s.template.name, text) && CleanAll(s.template.skeleton, text) && 3 <= |s.template.skeleton| <= 7
    && (forall i :: 0 <= i < |s.audienceFit| ==> CleanAudienceFit(s.audienceFit[i], text))
    && CleanAll(s.strengths, text) && |s.strengths| <= 6
    && CleanAll(s.weaknesses, text) && |s.weaknesses| <= 6
  }

  lemma ParsedNarrativeIsClean(value: Json, text: Normaliser)
    requires Normalises(text) && NarrativeOf(value, text).Ok?
    ensures CleanNarrative(NarrativeOf(value, text).value, text) && Exact(value)
  {
  }

  lemma CleanNarrativeReparses(n: Narrative, text: Normaliser)
    requires CleanNarrative(n, text)
    ensures NarrativeOf(PrintNarrative(n), text) == Ok(n)
  {
  }

  lemma ParsedSegmentIsClean(value: Json, index: int, chunkIds: set<int>, text: Normaliser)
    requires Normalises(text) && SegmentOf(value, index, chunkIds, text).Ok?
    ensures CleanSegment(SegmentOf(value, index, chunkIds, text).value, index, chunkIds, text)
  {
    var f := value.fields;
    ParsedReferencesAreClean(f[SourceChunkIds], chunkIds);
    ParsedTextListIsClean(f[SupportingPoints], 0, None, text);
    ParsedTextListIsClean(f[RhetoricalDevices], 0, None, text);
    ParsedTextListIsClean(f[RiskFlags], 0, None, text);
  }

  lemma ParsedSegmentIsExact(value: Json, index: int, chunkIds: set<int>, text: Normaliser)
    requires Normalises(text) && SegmentOf(value, index, chunkIds, text).Ok?
    ensures Exact(value)
  {
    var f := value.fields;
    forall k | k in f
      ensures Exact(f[k])
    {
      if k == SourceChunkIds {
        ParsedReferencesAreClean(f[k], chunkIds);
      } else if k in {SupportingPoints, RhetoricalDevices, RiskFlags} {
        ParsedTextListIsClean(f[k], 0, None, text);
      } else {
        assert k in {Id, Title, CoreClaim, RhythmNote, ReusablePattern};
      }
    }
  }

  lemma CleanSegmentReparses(s: Segment, index: int, chunkIds: set<int>, text: Normaliser)
    requires CleanSegment(s, index, chunkIds, text)
    ensures SegmentOf(PrintSegment(s), index, chunkIds, text) == Ok(s)
  {
    assert PrintSegment(s).fields.Keys == SEGMENT_KEYS;
    CleanReferencesReparse(s.sourceChunkIds, chunkIds);
    CleanTextListReparses(s.supportingPoints, 0, None, text);
    CleanTextListReparses(s.rhetoricalDevices, 0, None, text);
    CleanTextListReparses(s.riskFlags, 0, None, text);
  }

  lemma SegmentElementIsClean(value: Json, index: int, chunkIds: set<int>, text: Normaliser)
    requires Normalises(text)
    ensures var r := EachSegment(chunkIds, text)(value, index);
      r.Ok? ==> CleanAt(chunkIds, text)(r.value, index) && Exact(value)
  {
    if SegmentOf(value, index, chunkIds, text).Ok? {
      ParsedSegmentIsClean(value, index, chunkIds, text);
      ParsedSegmentIsExact(value, index, chunkIds, text);
    }
  }

  function CleanAt(chunkIds: set<int>, text: Normaliser): (Segment, int) -> bool {
    (s: Segment, index: int) => CleanSegment(s, index, chunkIds, text)
  }

  /** What holds of every parsed element holds of all of them. */
  lemma ParsedElementsAre<T>(items: seq<Json>, parse: ElementParser<T>, fine: (T, int) -> bool)
    requires ParseEach(items, 1, parse).Ok?
    requires forall i :: 0 <= i < |items| && parse(items[i], 1 + i).Ok? ==>
      fine(parse(items[i], 1 + i).value, 1 + i) && Exact(items[i])
    ensures var values := ParseEach(items, 1, parse).value;
      |values| == |items| && forall i :: 0 <= i < |values| ==> fine(values[i], 1 + i)
    ensures Exact(Arr(items))
  {
    ParseEachIsPointwise(items, 1, parse);
    var values := ParseEach(items, 1, parse).value;
    forall i | 0 <= i < |items|
      ensures fine(values[i], 1 + i) && Exact(items[i])
    {
      assert parse(items[i], 1 + i).Ok?;
    }
  }

  lemma ParsedSegmentsAreClean(value: Json, chunkIds: set<int>, text: Normaliser)
    requires Normalises(text) && SegmentListOf(value, chunkIds, text).Ok?
    ensures var ss := SegmentListOf(value, chunkIds, text).value;
      ss != [] && forall i :: 0 <= i < |ss| ==> CleanSegment(ss[i], i + 1, chunkIds, text)
    ensures Exact(value)
  {
    forall i | 0 <= i < |value.items| {
      SegmentElementIsClean(value.items[i], 1 + i, chunkIds, text);
    }
    ParsedElementsAre(value.items, EachSegment(chunkIds, text), CleanAt(chunkIds, text));
    var ss := SegmentListOf(value, chunkIds, text).value;
    forall i | 0 <= i < |ss|
      ensures CleanSegment(ss[i], i + 1, chunkIds, text)
    {
      assert CleanAt(chunkIds, text)(ss[i], 1 + i);
    }
  }

  lemma SegmentElementReparses(ss: seq<Segment>, i: nat, chunkIds: set<int>, text: Normaliser)
    requires i < |ss| && CleanSegment(ss[i], i + 1, chunkIds, text)
    ensures EachSegment(chunkIds, text)(PrintSegments(ss).items[i], 1 + i) == Ok(ss[i])
  {
    CleanSegmentReparses(ss[i], i + 1, chunkIds, text);
  }

  lemma CleanSegmentsReparse(ss: seq<Segment>, chunkIds: set<int>, text: Normaliser)
    requires ss != [] && forall i :: 0 <= i < |ss| ==> CleanSegment(ss[i], i + 1, chunkIds, text)
    ensures SegmentListOf(PrintSegments(ss), chunkIds, text) == Ok(ss)
  {
    forall i | 0 <= i < |ss| {
      SegmentElementReparses(ss, i, chunkIds, text);
    }
    ParseEachYields(PrintSegments(ss).items, 1, EachSegment(chunkIds, text), ss);
  }

  lemma ParsedAudienceFitIsClean(value: Json, text: Normaliser)
    requires Normalises(text) && AudienceFitOf(value, text).Ok?
    ensures CleanAudienceFit(AudienceFitOf(value, text).value, text) && Exact(value)
  {
    assert forall k :: k in value.fields ==> k in AUDIENCE_KEYS;
  }

  lemma CleanAudienceFitReparses(a: AudienceFit, text: Normaliser)
    requires CleanAudienceFit(a, text)
    ensures AudienceFitOf(PrintAudienceFit(a), text) == Ok(a)
  {
    assert PrintAudienceFit(a).fields.Keys == AUDIENCE_KEYS;
  }

  lemma ParsedAudienceIsClean(value: Json, text: Normaliser)
    requires Normalises(text) && AudienceOf(value, text).Ok?
    ensures var fits := AudienceOf(value, text).value;
      forall i :: 0 <= i < |fits| ==> CleanAudienceFit(fits[i], text)
    ensures Exact(value)
  {
    ParseEachIsPointwise(value.items, 1, EachAudienceFit(text));
    forall i | 0 <= i < |value.items|
      ensures CleanAudienceFit(AudienceOf(value, text).value[i], text) && Exact(value.items[i])
    {
      assert EachAudienceFit(text)(value.items[i], 1 + i).Ok?;
      ParsedAudienceFitIsClean(value.items[i], text);
    }
  }

  lemma CleanAudienceReparses(fits: seq<AudienceFit>, text: Normaliser)
    requires forall i :: 0 <= i < |fits| ==> CleanAudienceFit(fits[i], text)
    ensures AudienceOf(PrintAudience(fits), text) == Ok(fits)
  {
    forall i | 0 <= i < |fits|
      ensures EachAudienceFit(text)(PrintAudience(fits).items[i], 1 + i) == Ok(fits[i])
    {
      CleanAudienceFitReparses(fits[i], text);
    }
    ParseEachYields(PrintAudience(fits).items, 1, EachAudienceFit(text), fits);
  }

  lemma ParsedHighlightsAreClean(value: Json, transcript: string, text: Normaliser)
    requires Normalises(text) && HighlightsOf(value, transcript, text).Ok?
    ensures var hs := HighlightsOf(value, transcript, text).value;
      CleanAll(hs, text) && |hs| <= 8 && AllQuoted(hs, transcript)
    ensures Exact(value)
  {
    ParsedTextListIsClean(value, 0, Some(8), text);
  }

  lemma CleanHighlightsReparse(hs: seq<string>, transcript: string, text: Normaliser)
    requires CleanAll(hs, text) && |hs| <= 8 && AllQuoted(hs, transcript)
    ensures HighlightsOf(PrintTexts(hs), transcript, text) == Ok(hs)
  {
    CleanTextListReparses(hs, 0, Some(8), text);
  }

  lemma ParsedTemplateIsClean(value: Json, text: Normaliser)
    requires Normalises(text) && SkeletonOf(value, text).Ok? && text(value.fields[Name]).Ok?
    ensures var skeleton := SkeletonOf(value, text).value;
      CleanAll(skeleton, text) && 3 <= |skeleton| <= 7 && Clean(text(value.fields[Name]).value, text)
    ensures Exact(value)
  {
    ParsedTextListIsClean(value.fields[Skeleton], 3, Some(7), text);
    assert forall k :: k in value.fields ==> k in TEMPLATE_KEYS;
  }

  lemma CleanTemplateReparses(t: Template, text: Normaliser)
    requires CleanAll(t.skeleton, text) && 3 <= |t.skeleton| <= 7
    ensures SkeletonOf(PrintTemplate(t), text) == Ok(t.skeleton)
    ensures PrintTemplate(t).fields[Name] == Str(t.name)
  {
    assert PrintTemplate(t).fields.Keys == TEMPLATE_KEYS;
    CleanTextListReparses(t.skeleton, 3, Some(7), text);
  }

  /** Every accepted answer yields a clean report. */
  lemma ParsedSemanticIsClean(payload: Json, transcript: string, chunkIds: set<int>, text: Normaliser)
    requires Normalises(text)
    ensures var r := SemanticOf(payload, transcript, chunkIds, text);
      r.Ok? ==> CleanSemantic(r.value, transcript, chunkIds, text)
  {
    if SemanticOf(payload, transcript, chunkIds, text).Ok? {
      var f := payload.fields;
      ParsedNarrativeIsClean(f[OverallNarrative], text);
      ParsedSegmentsAreClean(f[Segments], chunkIds, text);
      ParsedHighlightsAreClean(f[Highlights], transcript, text);
      ParsedTemplateIsClean(f[ReusableTemplate], text);
      ParsedAudienceIsClean(f[AudienceFitKey], text);
      ParsedTextListIsClean(f[Strengths], 0, Some(6), text);
      ParsedTextListIsClean(f[Weaknesses], 0, Some(6), text);
    }
  }

  /** Every part of an answer parses on its own. */
  ghost predicate PartsParse(f: map<Key, Json>, transcript: string, chunkIds: set<int>, text: Normaliser) {
    && f.Keys == SEMANTIC_KEYS
    && NarrativeOf(f[OverallNarrative], text).Ok? && SegmentListOf(f[Segments], chunkIds, text).Ok?
    && HighlightsOf(f[Highlights], transcript, text).Ok?
    && SkeletonOf(f[ReusableTemplate], text).Ok? && text(f[ReusableTemplate].fields[Name]).Ok?
    && AudienceOf(f[AudienceFitKey], text).Ok?
    && TextList(f[Strengths], 0, Some(6), text).Ok? && TextList(f[Weaknesses], 0, Some(6), text).Ok?
  }

  lemma ParsedSemanticHasParts(payload: Json, transcript: string, chunkIds: set<int>, text: Normaliser)
    ensures SemanticOf(payload, transcript, chunkIds, text).Ok? ==>
      payload.Obj? && PartsParse(payload.fields, transcript, chunkIds, text)
  {
  }

  lemma PartsAreExact(f: map<Key, Json>, transcript: string, chunkIds: set<int>, text: Normaliser)
    requires Normalises(text) && PartsParse(f, transcript, chunkIds, text)
    ensures Exact(Obj(f))
  {
    ParsedNarrativeIsClean(f[OverallNarrative], text);
    ParsedSegmentsAreClean(f[Segments], chunkIds, text);
    ParsedHighlightsAreClean(f[Highlights], transcript, text);
    ParsedTemplateIsClean(f[ReusableTemplate], text);
    ParsedAudienceIsClean(f[AudienceFitKey], text);
    ParsedTextListIsClean(f[Strengths], 0, Some(6), text);
    ParsedTextListIsClean(f[Weaknesses], 0, Some(6), text);
    ExactWhenPartsAre(f);
  }

  lemma ExactWhenPartsAre(f: map<Key, Json>)
    requires f.Keys == SEMANTIC_KEYS && Exact(f[OverallNarrative]) && Exact(f[Segments]) && Exact(f[Highlights])
    requires Exact(f[ReusableTemplate]) && Exact(f[AudienceFitKey]) && Exact(f[Strengths]) && Exact(f[Weaknesses])
    ensures Exact(Obj(f))
  {
  }

  /** An accepted answer holds no boolean and no float. */
  lemma ParsedSemanticIsExact(payload: Json, transcript: string, chunkIds: set<int>, text: Normaliser)
    requires Normalises(text)
    ensures SemanticOf(payload, transcript, chunkIds, text).Ok? ==> Exact(payload)
  {
    ParsedSemanticHasParts(payload, transcript, chunkIds, text);
    if SemanticOf(payload, transcript, chunkIds, text).Ok? {
      PartsAreExact(payload.fields, transcript, chunkIds, text);
    }
  }

  lemma SegmentFieldsByKey(s: Segment)
    ensures var f := PrintSegment(s).fields;
      && f.Keys == SEGMENT_KEYS && f[Id] == Int(s.id) && f[Title] == Str(s.title)
      && f[SourceChunkIds] == PrintIntegers(s.sourceChunkIds) && f[CoreClaim] == Str(s.coreClaim)
      && f[SupportingPoints] == PrintTexts(s.supportingPoints)
      && f[RhetoricalDevices] == PrintTexts(s.rhetoricalDevices) && f[RhythmNote] == Str(s.rhythmNote)
      && f[ReusablePattern] == Str(s.reusablePattern) && f[RiskFlags] == PrintTexts(s.riskFlags)
  {
  }

  lemma AllSegmentKeys(keys: set<Key>)
    ensures SEGMENT_KEYS <= keys <==>
      && Id in keys && Title in keys && SourceChunkIds in keys && CoreClaim in keys && SupportingPoints in keys
      && RhetoricalDevices in keys && RhythmNote in keys && ReusablePattern in keys && RiskFlags in keys
  {
  }

  lemma AllSemanticKeys(keys: set<Key>)
    ensures SEMANTIC_KEYS <= keys <==>
      && OverallNarrative in keys && Segments in keys && Highlights in keys && ReusableTemplate in keys
      && AudienceFitKey in keys && Strengths in keys && Weaknesses in keys
  {
  }

  lemma SemanticFieldsByKey(s: Semantic)
    ensures var f := SemanticFields(s);
      && f.Keys == SEMANTIC_KEYS
      && f[OverallNarrative] == PrintNarrative(s.narrative) && f[Segments] == PrintSegments(s.segments)
      && f[Highlights] == PrintTexts(s.highlights) && f[ReusableTemplate] == PrintTemplate(s.template)
      && f[AudienceFitKey] == PrintAudience(s.audienceFit) && f[Strengths] == PrintTexts(s.strengths)
      && f[Weaknesses] == PrintTexts(s.weaknesses)
  {
  }

  /** Every clean report is parsed back from its printing; with the previous lemma, the clean reports are exactly the
      parser's results. */
  lemma CleanSemanticReparses(s: Semantic, transcript: string, chunkIds: set<int>, text: Normaliser)
    requires CleanSemantic(s, transcript, chunkIds, text)
    ensures SemanticOf(Obj(SemanticFields(s)), transcript, chunkIds, text) == Ok(s)
  {
    SemanticFieldsByKey(s);
    CleanNarrativeReparses(s.narrative, text);
    CleanSegmentsReparse(s.segments, chunkIds, text);
    CleanHighlightsReparse(s.highlights, transcript, text);
    CleanTemplateReparses(s.template, text);
    CleanAudienceReparses(s.audienceFit, text);
    CleanTextListReparses(s.strengths, 0, Some(6), text);
    CleanTextListReparses(s.weaknesses, 0, Some(6), text);
  }
}
