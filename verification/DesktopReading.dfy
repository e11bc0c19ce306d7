/** Exactly what the desktop's reader takes for a report, whoever wrote it. */
module DesktopReading {
  import opened Text
  import opened Json
  import opened MarkdownSplitter
  import opened DissectionReport
  import opened DissectionRoundTrip
  import opened StoredDissection
  import opened DesktopDissection

  /** JSON values that are the same to JavaScript: numbers by their value, everything else by its form. */
  predicate JsEqual(a: Json, b: Json) {
    match a
    case Null => b.Null?
    case Bool(x) => b == Bool(x)
    case Int(_) => JsNumber(a) == JsNumber(b)
    case Float(_) => JsNumber(a) == JsNumber(b)
    case Str(s) => b == Str(s)
    case Arr(items) =>
      b.Arr? && |items| == |b.items| && forall i :: 0 <= i < |items| ==> JsEqual(items[i], b.items[i])
    case Obj(fields) =>
      b.Obj? && fields.Keys == b.fields.Keys && forall k :: k in fields ==> JsEqual(fields[k], b.fields[k])
  }

  lemma NumbersAreEqualIff(j: Json, n: int)
    ensures JsEqual(j, Int(n)) <==> IsNumber(j, n)
    ensures JsEqual(j, Int(n)) && 0 <= n <= 9007199254740991 <==> SafeUnsigned(j) == Some(n)
  {
    assert (n as real).Floor == n;
  }

  lemma TextsAreEqualIff(j: Json, t: string)
    ensures JsEqual(j, Str(t)) <==> j == Str(t)
  {
  }

  lemma OptionalTextIff(j: Json, t: Option<string>, visible: TextCheck)
    ensures DecodeOptionalText(j, visible) == Some(t) <==> JsEqual(j, PrintOptional(t)) && VisibleOptional(t, visible)
  {
  }

  lemma TextListIff(value: Json, ts: seq<string>, maximum: nat, visible: TextCheck)
    ensures DecodeTexts(value, maximum, visible) == Some(ts) <==>
      JsEqual(value, PrintTexts(ts)) && |ts| <= maximum && VisibleAll(ts, visible)
  {
    if value.Arr? && |value.items| == |ts| {
      assert forall i :: 0 <= i < |ts| ==> PrintTexts(ts).items[i] == Str(ts[i]);
      if JsEqual(value, PrintTexts(ts)) && |ts| <= maximum && VisibleAll(ts, visible) {
        forall i | 0 <= i < |ts|
          ensures value.items[i] == Str(ts[i])
        {
          assert JsEqual(value.items[i], PrintTexts(ts).items[i]);
        }
        assert DecodeTexts(value, maximum, visible).value == ts;
      }
    }
  }

  lemma NarrativeIff(value: Json, n: Narrative, visible: TextCheck)
    ensures DecodeNarrative(value, visible) == Some(n) <==>
      JsEqual(value, PrintNarrative(n)) && VisibleNarrative(n, visible)
  {
    if HasKeys(value, NARRATIVE_KEYS) {
      OptionalTextIff(value.fields[OpeningHook], n.openingHook, visible);
      OptionalTextIff(value.fields[TurningPoint], n.turningPoint, visible);
      OptionalTextIff(value.fields[ClosingType], n.closingType, visible);
      TextsAreEqualIff(value.fields[StructureType], n.structureType);
    }
  }

  lemma {:induction false} ReferencesIff(items: seq<Json>, previousId: nat, count: nat, ns: seq<int>)
    requires count <= 9007199254740991
    ensures DecodeReferences(items, previousId, count) == Some(ns) <==>
      && |items| == |ns| && (forall i :: 0 <= i < |ns| ==> JsEqual(items[i], Int(ns[i])))
      && Ascends(ns, previousId, count)
    decreases |items|
  {
    if items != [] && ns != [] {
      NumbersAreEqualIff(items[0], ns[0]);
      if 0 <= ns[0] {
        ReferencesIff(items[1..], ns[0], count, ns[1..]);
        assert ns == [ns[0]] + ns[1..];
        assert forall i :: 0 <= i < |items| - 1 ==> items[1..][i] == items[i + 1];
      }
    }
  }

  // ----- elements of arrays -----

  lemma ItemsAreEqualIff(items: seq<Json>, others: seq<Json>)
    ensures JsEqual(Arr(items), Arr(others)) <==>
      |items| == |others| && forall i :: 0 <= i < |items| ==> JsEqual(items[i], others[i])
  {
  }

  lemma ArrayIff<T>(items: seq<Json>, decode: ElementDecoder<T>, values: seq<T>, prints: seq<Json>,
                    fine: (T, int) -> bool)
    requires |prints| == |values|
    requires forall i :: 0 <= i < |items| == |values| ==>
      (decode(items[i], 1 + i) == Some(values[i]) <==> JsEqual(items[i], prints[i]) && fine(values[i], i))
    ensures DecodeEach(items, 1, decode) == Some(values) <==>
      JsEqual(Arr(items), Arr(prints)) && forall i :: 0 <= i < |values| ==> fine(values[i], i)
  {
    DecodeEachIsPointwise(items, 1, decode);
    ItemsAreEqualIff(items, prints);
    if |items| == |values| {
      if JsEqual(Arr(items), Arr(prints)) && forall i :: 0 <= i < |values| ==> fine(values[i], i) {
        assert forall i :: 0 <= i < |items| ==> decode(items[i], 1 + i) == Some(values[i]);
        assert DecodeEach(items, 1, decode).Some?;
        assert DecodeEach(items, 1, decode).value == values;
      }
      if DecodeEach(items, 1, decode) == Some(values) {
        assert forall i :: 0 <= i < |items| ==> decode(items[i], 1 + i) == Some(values[i]);
      }
    }
  }

  /** What the desktop asks of a segment at its place. */
  predicate ReadableSegment(s: Segment, index: int, count: nat, visible: TextCheck) {
    && s.id == index && s.sourceChunkIds != [] && Ascends(s.sourceChunkIds, 0, count)
    && PresentableSegment(s, visible)
  }

  lemma ReferenceListIff(value: Json, count: nat, ns: seq<int>)
    requires count <= 9007199254740991
    ensures value.Arr? && DecodeReferences(value.items, 0, count) == Some(ns) <==>
      JsEqual(value, PrintIntegers(ns)) && Ascends(ns, 0, count)
  {
    if value.Arr? {
      ReferencesIff(value.items, 0, count, ns);
      assert forall i :: 0 <= i < |ns| ==> PrintIntegers(ns).items[i] == Int(ns[i]);
    }
  }

  lemma ObjectsAreEqualIff(value: Json, g: map<Key, Json>)
    ensures JsEqual(value, Obj(g)) <==>
      value.Obj? && value.fields.Keys == g.Keys && forall k :: k in value.fields ==> JsEqual(value.fields[k], g[k])
  {
  }

  /** Every field of the object is JavaScript's equal of the segment's. */
  predicate SegmentMatches(f: map<Key, Json>, s: Segment)
    requires f.Keys == SEGMENT_KEYS
  {
    && JsEqual(f[Id], Int(s.id)) && JsEqual(f[Title], Str(s.title))
    && JsEqual(f[SourceChunkIds], PrintIntegers(s.sourceChunkIds)) && JsEqual(f[CoreClaim], Str(s.coreClaim))
    && JsEqual(f[SupportingPoints], PrintTexts(s.supportingPoints))
    && JsEqual(f[RhetoricalDevices], PrintTexts(s.rhetoricalDevices)) && JsEqual(f[RhythmNote], Str(s.rhythmNote))
    && JsEqual(f[ReusablePattern], Str(s.reusablePattern)) && JsEqual(f[RiskFlags], PrintTexts(s.riskFlags))
  }

  lemma SegmentMatchesIff(value: Json, s: Segment)
    ensures JsEqual(value, PrintSegment(s)) <==> HasKeys(value, SEGMENT_KEYS) && SegmentMatches(value.fields, s)
  {
    var g := PrintSegment(s).fields;
    SegmentFieldsByKey(s);
    ObjectsAreEqualIff(value, g);
    if HasKeys(value, SEGMENT_KEYS) {
      var equal := set k | k in SEGMENT_KEYS && JsEqual(value.fields[k], g[k]);
      AllSegmentKeys(equal);
      assert (forall k :: k in value.fields ==> JsEqual(value.fields[k], g[k])) <==> SEGMENT_KEYS <= equal;
    }
  }

  lemma SegmentIff(value: Json, index: int, count: nat, visible: TextCheck, s: Segment)
    requires count <= 9007199254740991
    ensures DecodeSegment(value, index, count, visible) == Some(s) <==>
      JsEqual(value, PrintSegment(s)) && ReadableSegment(s, index, count, visible)
  {
    SegmentMatchesIff(value, s);
    if HasKeys(value, SEGMENT_KEYS) {
      var f := value.fields;
      TextListIff(f[SupportingPoints], s.supportingPoints, 32, visible);
      TextListIff(f[RhetoricalDevices], s.rhetoricalDevices, 32, visible);
      TextListIff(f[RiskFlags], s.riskFlags, 32, visible);
      NumbersAreEqualIff(f[Id], s.id);
      ReferenceListIff(f[SourceChunkIds], count, s.sourceChunkIds);
      TextsAreEqualIff(f[Title], s.title);
      TextsAreEqualIff(f[CoreClaim], s.coreClaim);
      TextsAreEqualIff(f[RhythmNote], s.rhythmNote);
      TextsAreEqualIff(f[ReusablePattern], s.reusablePattern);
    }
  }

  lemma TemplateIff(value: Json, visible: TextCheck, t: Template)
    ensures DecodeTemplate(value, visible) == Some(t) <==>
      && JsEqual(value, PrintTemplate(t)) && visible(t.name)
      && 3 <= |t.skeleton| <= 7 && VisibleAll(t.skeleton, visible)
  {
    if HasKeys(value, TEMPLATE_KEYS) {
      TextListIff(value.fields[Skeleton], t.skeleton, 7, visible);
      TextsAreEqualIff(value.fields[Name], t.name);
    }
  }

  predicate ReadableAudienceFit(a: AudienceFit, visible: TextCheck) {
    VisibleAudienceFit(a, visible) && (a.fit == "high" || a.fit == "medium" || a.fit == "low")
  }

  lemma AudienceFitIff(value: Json, visible: TextCheck, a: AudienceFit)
    ensures DecodeAudienceFit(value, visible) == Some(a) <==>
      JsEqual(value, PrintAudienceFit(a)) && ReadableAudienceFit(a, visible)
  {
    if HasKeys(value, AUDIENCE_KEYS) {
      TextsAreEqualIff(value.fields[Audience], a.audience);
      TextsAreEqualIff(value.fields[Fit], a.fit);
      TextsAreEqualIff(value.fields[Note], a.note);
    }
  }

  lemma AudienceIff(value: Json, visible: TextCheck, fits: seq<AudienceFit>)
    ensures DecodeAudience(value, visible) == Some(fits) <==>
      JsEqual(value, PrintAudience(fits)) && forall i :: 0 <= i < |fits| ==> ReadableAudienceFit(fits[i], visible)
  {
    if value.Arr? {
      var prints, fine := PrintAudience(fits).items, (a: AudienceFit, i: int) => ReadableAudienceFit(a, visible);
      forall i | 0 <= i < |value.items| == |fits|
        ensures EachAudienceFitDecoded(visible)(value.items[i], 1 + i) == Some(fits[i]) <==>
          JsEqual(value.items[i], prints[i]) && fine(fits[i], i)
      {
        AudienceFitIff(value.items[i], visible, fits[i]);
      }
      ArrayIff(value.items, EachAudienceFitDecoded(visible), fits, prints, fine);
    }
  }

  function ReadableAt(count: nat, visible: TextCheck): (Segment, int) -> bool {
    (s: Segment, i: int) => ReadableSegment(s, i + 1, count, visible)
  }

  lemma SegmentElementDecodes(item: Json, index: int, count: nat, visible: TextCheck)
    ensures EachSegmentDecoded(count, visible)(item, index) == DecodeSegment(item, index, count, visible)
  {
  }

  lemma SegmentElementIff(item: Json, i: nat, count: nat, visible: TextCheck, s: Segment)
    requires count <= 9007199254740991
    ensures EachSegmentDecoded(count, visible)(item, 1 + i) == Some(s) <==>
      JsEqual(item, PrintSegment(s)) && ReadableAt(count, visible)(s, i)
  {
    calc {
      EachSegmentDecoded(count, visible)(item, 1 + i) == Some(s);
    <==> { SegmentElementDecodes(item, 1 + i, count, visible); }
      DecodeSegment(item, 1 + i, count, visible) == Some(s);
    <==> { SegmentIff(item, 1 + i, count, visible, s); }
      JsEqual(item, PrintSegment(s)) && ReadableSegment(s, 1 + i, count, visible);
    <==>
      JsEqual(item, PrintSegment(s)) && ReadableAt(count, visible)(s, i);
    }
  }

  lemma SegmentItemsIff(items: seq<Json>, count: nat, visible: TextCheck, ss: seq<Segment>)
    requires count <= 9007199254740991
    ensures DecodeEach(items, 1, EachSegmentDecoded(count, visible)) == Some(ss) <==>
      && JsEqual(Arr(items), PrintSegments(ss))
      && forall i :: 0 <= i < |ss| ==> ReadableAt(count, visible)(ss[i], i)
  {
    var prints := PrintSegments(ss).items;
    forall i | 0 <= i < |items| == |ss|
      ensures EachSegmentDecoded(count, visible)(items[i], 1 + i) == Some(ss[i]) <==>
        JsEqual(items[i], prints[i]) && ReadableAt(count, visible)(ss[i], i)
    {
      SegmentElementIff(items[i], i, count, visible, ss[i]);
    }
    ArrayIff(items, EachSegmentDecoded(count, visible), ss, prints, ReadableAt(count, visible));
  }

  lemma ReadableAtEach(ss: seq<Segment>, count: nat, visible: TextCheck)
    ensures (forall i :: 0 <= i < |ss| ==> ReadableAt(count, visible)(ss[i], i)) <==>
      forall i :: 0 <= i < |ss| ==> ReadableSegment(ss[i], i + 1, count, visible)
  {
    assert forall i :: 0 <= i < |ss| ==>
      (ReadableAt(count, visible)(ss[i], i) <==> ReadableSegment(ss[i], i + 1, count, visible));
  }

  lemma SegmentsIff(value: Json, count: nat, visible: TextCheck, ss: seq<Segment>)
    requires count <= 9007199254740991
    ensures DecodeSegments(value, count, visible) == Some(ss) <==>
      && JsEqual(value, PrintSegments(ss)) && ss != []
      && forall i :: 0 <= i < |ss| ==> ReadableSegment(ss[i], i + 1, count, visible)
  {
    if value.Arr? {
      ReadableAtEach(ss, count, visible);
      SegmentItemsIff(value.items, count, visible, ss);
    }
  }

  // ----- chunks -----

  /** Chunks numbered from `id`, none empty, each beginning where the one before ends or later, all at safe offsets. */
  predicate ReadableChunks(cs: seq<SourceChunk>, id: nat, previousEnd: nat) {
    cs == []
    || (&& cs[0].id == id && previousEnd <= cs[0].startByte < cs[0].endByte <= 9007199254740991
        && ReadableChunks(cs[1..], id + 1, cs[0].endByte))
  }

  lemma ChunkIff(value: Json, id: nat, previousEnd: nat, c: SourceChunk)
    ensures DecodeChunk(value, id, previousEnd) == Some(c) <==>
      JsEqual(value, PrintChunk(c)) && c.id == id && previousEnd <= c.startByte < c.endByte <= 9007199254740991
  {
    if HasKeys(value, CHUNK_KEYS) {
      NumbersAreEqualIff(value.fields[Id], c.id);
      NumbersAreEqualIff(value.fields[StartByte], c.startByte);
      NumbersAreEqualIff(value.fields[EndByte], c.endByte);
      TextsAreEqualIff(value.fields[Sha256], c.sha256);
    }
  }

  lemma HeadsAreEqualIff(xs: seq<Json>, ys: seq<Json>)
    requires xs != [] && ys != []
    ensures JsEqual(Arr(xs), Arr(ys)) <==> JsEqual(xs[0], ys[0]) && JsEqual(Arr(xs[1..]), Arr(ys[1..]))
  {
    ItemsAreEqualIff(xs, ys);
    ItemsAreEqualIff(xs[1..], ys[1..]);
    if |xs| == |ys| {
      forall i | 0 <= i < |xs| - 1
        ensures xs[1..][i] == xs[i + 1] && ys[1..][i] == ys[i + 1]
      {
      }
      if JsEqual(xs[0], ys[0]) && JsEqual(Arr(xs[1..]), Arr(ys[1..])) {
        forall i | 0 <= i < |xs|
          ensures JsEqual(xs[i], ys[i])
        {
          if i > 0 {
            assert JsEqual(xs[1..][i - 1], ys[1..][i - 1]);
          }
        }
      }
    }
  }

  lemma ChunksByHead(item: Json, items: seq<Json>, id: nat, previousEnd: nat, c: SourceChunk, cs: seq<SourceChunk>)
    ensures DecodeChunks([item] + items, id, previousEnd) == Some([c] + cs) <==>
      DecodeChunk(item, id, previousEnd) == Some(c) && DecodeChunks(items, id + 1, c.endByte) == Some(cs)
  {
    assert ([item] + items)[1..] == items;
    assert ([c] + cs)[0] == c && ([c] + cs)[1..] == cs;
    if DecodeChunks([item] + items, id, previousEnd) == Some([c] + cs) {
      var first := DecodeChunk(item, id, previousEnd).value;
      assert ([c] + cs)[0] == first;
      assert [first] + DecodeChunks(items, id + 1, first.endByte).value == [c] + cs;
      assert ([first] + DecodeChunks(items, id + 1, first.endByte).value)[1..] == cs;
    }
  }

  lemma PrintedByHead(items: seq<Json>, cs: seq<SourceChunk>)
    requires items != [] && cs != []
    ensures JsEqual(Arr(items), PrintChunks(cs)) <==>
      JsEqual(items[0], PrintChunk(cs[0])) && JsEqual(Arr(items[1..]), PrintChunks(cs[1..]))
  {
    var prints := PrintChunks(cs).items;
    HeadsAreEqualIff(items, prints);
    assert prints[1..] == PrintChunks(cs[1..]).items && prints[0] == PrintChunk(cs[0]);
  }

  lemma {:induction false} ChunksIff(items: seq<Json>, id: nat, previousEnd: nat, cs: seq<SourceChunk>)
    ensures DecodeChunks(items, id, previousEnd) == Some(cs) <==>
      JsEqual(Arr(items), PrintChunks(cs)) && ReadableChunks(cs, id, previousEnd)
    decreases |items|
  {
    if items != [] && cs != [] {
      var item, rest, c, others := items[0], items[1..], cs[0], cs[1..];
      calc {
        DecodeChunks(items, id, previousEnd) == Some(cs);
      <==>
        { assert cs == [c] + others && items == [item] + rest;
          ChunksByHead(item, rest, id, previousEnd, c, others); }
        DecodeChunk(item, id, previousEnd) == Some(c) && DecodeChunks(rest, id + 1, c.endByte) == Some(others);
      <==>
        { ChunkIff(item, id, previousEnd, c);
          ChunksIff(rest, id + 1, c.endByte, others); }
        && JsEqual(item, PrintChunk(c)) && c.id == id && previousEnd <= c.startByte < c.endByte <= 9007199254740991
        && JsEqual(Arr(rest), PrintChunks(others)) && ReadableChunks(others, id + 1, c.endByte);
      <==>
        { PrintedByHead(items, cs); }
        JsEqual(Arr(items), PrintChunks(cs)) && ReadableChunks(cs, id, previousEnd);
      }
    }
  }

  lemma {:induction false} ReadableChunksAreFew(cs: seq<SourceChunk>, id: nat, previousEnd: nat)
    requires ReadableChunks(cs, id, previousEnd) && previousEnd <= 9007199254740991
    ensures previousEnd + |cs| <= 9007199254740991
    decreases |cs|
  {
    if cs != [] {
      ReadableChunksAreFew(cs[1..], id + 1, cs[0].endByte);
    }
  }

  // ----- the whole report -----

  predicate ReadableSemantic(s: Semantic, count: nat, visible: TextCheck) {
    && VisibleNarrative(s.narrative, visible)
    && s.segments != [] && (forall i :: 0 <= i < |s.segments| ==> ReadableSegment(s.segments[i], i + 1, count, visible))
    && |s.highlights| <= 8 && VisibleAll(s.highlights, visible)
    && visible(s.template.name) && 3 <= |s.template.skeleton| <= 7 && VisibleAll(s.template.skeleton, visible)
    && (forall i :: 0 <= i < |s.audienceFit| ==> ReadableAudienceFit(s.audienceFit[i], visible))
    && |s.strengths| <= 6 && VisibleAll(s.strengths, visible)
    && |s.weaknesses| <= 6 && VisibleAll(s.weaknesses, visible)
  }

  /** Every semantic field of the object is JavaScript's equal of the report's. */
  predicate SemanticMatches(f: map<Key, Json>, s: Semantic)
    requires SEMANTIC_KEYS <= f.Keys
  {
    && JsEqual(f[OverallNarrative], PrintNarrative(s.narrative)) && JsEqual(f[Segments], PrintSegments(s.segments))
    && JsEqual(f[Highlights], PrintTexts(s.highlights)) && JsEqual(f[ReusableTemplate], PrintTemplate(s.template))
    && JsEqual(f[AudienceFitKey], PrintAudience(s.audienceFit)) && JsEqual(f[Strengths], PrintTexts(s.strengths))
    && JsEqual(f[Weaknesses], PrintTexts(s.weaknesses))
  }

  /** Every semantic field decodes to that part of the report. */
  ghost predicate FieldsDecode(f: map<Key, Json>, count: nat, visible: TextCheck, s: Semantic)
    requires SEMANTIC_KEYS <= f.Keys
  {
    && DecodeTexts(f[Highlights], 8, visible) == Some(s.highlights)
    && DecodeTexts(f[Strengths], 6, visible) == Some(s.strengths)
    && DecodeTexts(f[Weaknesses], 6, visible) == Some(s.weaknesses)
    && DecodeNarrative(f[OverallNarrative], visible) == Some(s.narrative)
    && DecodeTemplate(f[ReusableTemplate], visible) == Some(s.template)
    && DecodeAudience(f[AudienceFitKey], visible) == Some(s.audienceFit)
    && DecodeSegments(f[Segments], count, visible) == Some(s.segments)
  }

  lemma SemanticByFields(f: map<Key, Json>, count: nat, visible: TextCheck, s: Semantic)
    requires SEMANTIC_KEYS <= f.Keys
    ensures DecodeSemantic(f, count, visible) == Some(s) <==> FieldsDecode(f, count, visible, s)
  {
  }

  lemma SemanticIff(f: map<Key, Json>, count: nat, visible: TextCheck, s: Semantic)
    requires SEMANTIC_KEYS <= f.Keys && count <= 9007199254740991
    ensures DecodeSemantic(f, count, visible) == Some(s) <==>
      SemanticMatches(f, s) && ReadableSemantic(s, count, visible)
  {
    SemanticByFields(f, count, visible, s);
    TextListIff(f[Highlights], s.highlights, 8, visible);
    TextListIff(f[Strengths], s.strengths, 6, visible);
    TextListIff(f[Weaknesses], s.weaknesses, 6, visible);
    NarrativeIff(f[OverallNarrative], s.narrative, visible);
    TemplateIff(f[ReusableTemplate], visible, s.template);
    AudienceIff(f[AudienceFitKey], visible, s.audienceFit);
    SegmentsIff(f[Segments], count, visible, s.segments);
  }

  /** What the desktop asks of a report: a known kind, a language tag if any, ordered chunks, and a semantic part that
      refers to them. */
  predicate ReadableReport(r: Report, visible: TextCheck) {
    && !r.kind.OtherKind? && (r.language.Some? ==> IsLanguageTag(r.language.value))
    && r.chunks != [] && ReadableChunks(r.chunks, 1, 0) && ReadableSemantic(r.semantic, |r.chunks|, visible)
  }

  /** Every field of the object but the semantic ones is JavaScript's equal of the report's. */
  predicate HeadMatches(f: map<Key, Json>, r: Report)
    requires f.Keys == RootKeys(r.kind)
  {
    && JsEqual(f[SchemaVersion], Int(if r.kind == Article then 2 else 1))
    && JsEqual(f[SourceLanguage], PrintOptional(r.language)) && JsEqual(f[SourceChunks], PrintChunks(r.chunks))
    && (if r.kind == Article
        then JsEqual(f[SourceKindKey], Str("article")) && JsEqual(f[SourceTextSha256], Str(r.digest))
        else JsEqual(f[SourceTranscriptSha256], Str(r.digest)))
  }

  lemma HeadMatchesIff(f: map<Key, Json>, g: map<Key, Json>, r: Report)
    requires f.Keys == g.Keys == RootKeys(r.kind)
    requires g[SchemaVersion] == Int(SchemaVersionOf(r.kind)) && g[SourceLanguage] == PrintOptional(r.language)
    requires g[SourceChunks] == PrintChunks(r.chunks)
    requires if r.kind == Article then g[SourceKindKey] == Str(ARTICLE) && g[SourceTextSha256] == Str(r.digest)
             else g[SourceTranscriptSha256] == Str(r.digest)
    ensures HeadMatches(f, r) <==>
      forall k :: k in PROVENANCE_KEYS || k in SourceKeys(r.kind) ==> JsEqual(f[k], g[k])
  {
  }

  lemma SemanticMatchesIff(f: map<Key, Json>, g: map<Key, Json>, s: Semantic)
    requires SEMANTIC_KEYS <= f.Keys && SEMANTIC_KEYS <= g.Keys
    requires forall k :: k in SEMANTIC_KEYS ==> k in SemanticFields(s) && g[k] == SemanticFields(s)[k]
    ensures SemanticMatches(f, s) <==> forall k :: k in SEMANTIC_KEYS ==> JsEqual(f[k], g[k])
  {
    var equal := set k | k in SEMANTIC_KEYS && JsEqual(f[k], g[k]);
    SemanticFieldsByKey(s);
    AllSemanticKeys(equal);
    assert (forall k :: k in SEMANTIC_KEYS ==> JsEqual(f[k], g[k])) <==> SEMANTIC_KEYS <= equal;
  }

  lemma PrintedHeadIs(r: Report)
    ensures var g := Print(r).fields;
      && g.Keys == RootKeys(r.kind)
      && g[SchemaVersion] == Int(SchemaVersionOf(r.kind)) && g[SourceLanguage] == PrintOptional(r.language)
      && g[SourceChunks] == PrintChunks(r.chunks)
      && (if r.kind == Article then g[SourceKindKey] == Str(ARTICLE) && g[SourceTextSha256] == Str(r.digest)
          else g[SourceTranscriptSha256] == Str(r.digest))
      && forall k :: k in SEMANTIC_KEYS ==> k in SemanticFields(r.semantic) && g[k] == SemanticFields(r.semantic)[k]
  {
    PrintedByKey(r);
  }

  lemma FieldsMatchIff(f: map<Key, Json>, g: map<Key, Json>, kind: SourceKind)
    requires f.Keys == g.Keys == RootKeys(kind)
    ensures (forall k :: k in f ==> JsEqual(f[k], g[k])) <==>
      && (forall k :: k in PROVENANCE_KEYS || k in SourceKeys(kind) ==> JsEqual(f[k], g[k]))
      && (forall k :: k in SEMANTIC_KEYS ==> JsEqual(f[k], g[k]))
  {
    assert RootKeys(kind) == PROVENANCE_KEYS + SourceKeys(kind) + SEMANTIC_KEYS;
  }

  lemma FieldsOfReportIff(f: map<Key, Json>, g: map<Key, Json>, r: Report)
    requires f.Keys == RootKeys(r.kind) && g == Print(r).fields
    ensures g.Keys == RootKeys(r.kind)
    ensures (forall k :: k in f ==> JsEqual(f[k], g[k])) <==> HeadMatches(f, r) && SemanticMatches(f, r.semantic)
  {
    PrintedHeadIs(r);
    calc {
      forall k :: k in f ==> JsEqual(f[k], g[k]);
    <==> { FieldsMatchIff(f, g, r.kind); }
      && (forall k :: k in PROVENANCE_KEYS || k in SourceKeys(r.kind) ==> JsEqual(f[k], g[k]))
      && (forall k :: k in SEMANTIC_KEYS ==> JsEqual(f[k], g[k]));
    <==> { HeadMatchesIff(f, g, r); SemanticMatchesIff(f, g, r.semantic); }
      HeadMatches(f, r) && SemanticMatches(f, r.semantic);
    }
  }

  lemma ReportMatchesIff(value: Json, r: Report)
    ensures JsEqual(value, Print(r)) <==>
      HasKeys(value, RootKeys(r.kind)) && HeadMatches(value.fields, r) && SemanticMatches(value.fields, r.semantic)
  {
    var g := Print(r).fields;
    assert g.Keys == RootKeys(r.kind) by {
      PrintedByKey(r);
    }
    ObjectsAreEqualIff(value, g);
    if HasKeys(value, RootKeys(r.kind)) {
      FieldsOfReportIff(value.fields, g, r);
    }
  }

  lemma LanguageIff(value: Json, language: Option<string>)
    ensures DecodeLanguage(value) == Some(language) <==>
      JsEqual(value, PrintOptional(language)) && (language.Some? ==> IsLanguageTag(language.value))
  {
  }

  lemma VersionIff(value: Json, kind: SourceKind)
    ensures VersionKind(value) == Some(kind) <==>
      && value.Obj? && SchemaVersion in value.fields && !kind.OtherKind?
      && JsEqual(value.fields[SchemaVersion], Int(if kind == Article then 2 else 1))
  {
    if value.Obj? && SchemaVersion in value.fields {
      NumbersAreEqualIff(value.fields[SchemaVersion], 1);
      NumbersAreEqualIff(value.fields[SchemaVersion], 2);
    }
  }

  lemma SourceIff(f: map<Key, Json>, kind: SourceKind, digest: HexDigest)
    requires SourceKeys(kind) <= f.Keys
    ensures DecodeSource(f, kind) == Some(digest) <==>
      if kind == Article
      then JsEqual(f[SourceKindKey], Str("article")) && JsEqual(f[SourceTextSha256], Str(digest))
      else JsEqual(f[SourceTranscriptSha256], Str(digest))
  {
  }

  /** Every part of the value decodes to that part of the report. */
  ghost predicate PartsDecode(value: Json, visible: TextCheck, r: Report) {
    && VersionKind(value) == Some(r.kind) && HasKeys(value, RootKeys(r.kind))
    && var f := value.fields;
    && DecodeSource(f, r.kind) == Some(r.digest) && DecodeLanguage(f[SourceLanguage]) == Some(r.language)
    && f[SourceChunks].Arr? && f[SourceChunks].items != []
    && DecodeChunks(f[SourceChunks].items, 1, 0) == Some(r.chunks)
    && DecodeSemantic(f, |r.chunks|, visible) == Some(r.semantic)
  }

  lemma DecodedByParts(value: Json, visible: TextCheck, r: Report)
    ensures DecodeReport(value, visible) == Some(r) <==> PartsDecode(value, visible, r)
  {
  }

  lemma HeadIff(value: Json, r: Report)
    requires HasKeys(value, RootKeys(r.kind))
    ensures var f := value.fields;
      && VersionKind(value) == Some(r.kind)
      && DecodeSource(f, r.kind) == Some(r.digest) && DecodeLanguage(f[SourceLanguage]) == Some(r.language)
      && f[SourceChunks].Arr? && f[SourceChunks].items != []
      && DecodeChunks(f[SourceChunks].items, 1, 0) == Some(r.chunks)
      <==>
      && HeadMatches(f, r) && !r.kind.OtherKind? && (r.language.Some? ==> IsLanguageTag(r.language.value))
      && r.chunks != [] && ReadableChunks(r.chunks, 1, 0)
  {
    var f := value.fields;
    VersionIff(value, r.kind);
    SourceIff(f, r.kind, r.digest);
    LanguageIff(f[SourceLanguage], r.language);
    if f[SourceChunks].Arr? {
      ChunksIff(f[SourceChunks].items, 1, 0, r.chunks);
    }
  }

  lemma ReportIff(value: Json, visible: TextCheck, r: Report)
    ensures DecodeReport(value, visible) == Some(r) <==> JsEqual(value, Print(r)) && ReadableReport(r, visible)
  {
    DecodedByParts(value, visible, r);
    ReportMatchesIff(value, r);
    if HasKeys(value, RootKeys(r.kind)) {
      HeadIff(value, r);
      if ReadableChunks(r.chunks, 1, 0) {
        ReadableChunksAreFew(r.chunks, 1, 0);
        SemanticIff(value.fields, |r.chunks|, visible, r.semantic);
      }
    }
  }

  /** The desktop decodes a value exactly when it is, to JavaScript, the printing of a report that is readable there;
      and then it decodes it to that report. No dissection is one thing, and anything else another. */
  lemma DesktopReadsExactly(value: Json, r: Report)
    ensures DecodeDissection(value) == Decoded(r) <==> JsEqual(value, Print(r)) && ReadableReport(r, NotBlank)
    ensures DecodeDissection(value).NoDissection? <==> value.Null?
  {
    ReportIff(value, NotBlank, r);
  }
}
