/** The desktop's own reader of a dissection report, written apart from the worker's, and when the two agree. */
module DesktopDissection {
  import opened Text
  import opened Json
  import opened MarkdownSplitter
  import opened DissectionReport
  import opened DissectionRoundTrip
  import opened StoredDissection

  const MAX_SAFE_INTEGER: nat := 9007199254740991
  const MAX_LIST_LENGTH: nat := 32

  // ----- JavaScript values -----

  /** JavaScript has one kind of number; booleans are not numbers to it. */
  function JsNumber(j: Json): Option<real> {
    match j
    case Int(n) => Some(n as real)
    case Float(x) => Some(x)
    case _ => None
  }

  predicate IsNumber(j: Json, n: int) {
    JsNumber(j) == Some(n as real)
  }

  function SafeUnsigned(j: Json): (r: Option<nat>)
    ensures r.Some? ==> r.value <= MAX_SAFE_INTEGER && IsNumber(j, r.value)
  {
    var x :- JsNumber(j);
    if x == x.Floor as real && 0 <= x.Floor <= MAX_SAFE_INTEGER then Some(x.Floor) else None
  }

  /** Which strings count as text; the decoder takes it as a parameter and is used with NotBlank. */
  type TextCheck = string -> bool

  predicate NotBlank(t: string) {
    Trim(t, IsJsSpace) != ""
  }

  predicate IsText(j: Json, visible: TextCheck) {
    j.Str? && visible(j.s)
  }

  // ----- the decoder -----

  type ElementDecoder<!T> = (Json, int) -> Option<T>

  function DecodeEach<T>(items: seq<Json>, index: int, decode: ElementDecoder<T>): Option<seq<T>> {
    if items == [] then Some([])
    else
      var first :- decode(items[0], index);
      var rest :- DecodeEach(items[1..], index + 1, decode);
      Some([first] + rest)
  }

  function DecodeTexts(value: Json, maximum: nat, visible: TextCheck): Option<seq<string>> {
    if value.Arr? && |value.items| <= maximum && forall i :: 0 <= i < |value.items| ==> IsText(value.items[i], visible)
    then Some(seq(|value.items|, i requires 0 <= i < |value.items| && value.items[i].Str? => value.items[i].s))
    else None
  }

  function DecodeOptionalText(value: Json, visible: TextCheck): Option<Option<string>> {
    if value.Null? then Some(None) else if IsText(value, visible) then Some(Some(value.s)) else None
  }

  function DecodeNarrative(value: Json, visible: TextCheck): Option<Narrative> {
    if !HasKeys(value, NARRATIVE_KEYS) then None
    else
      var opening :- DecodeOptionalText(value.fields[OpeningHook], visible);
      var turning :- DecodeOptionalText(value.fields[TurningPoint], visible);
      var closing :- DecodeOptionalText(value.fields[ClosingType], visible);
      if IsText(value.fields[StructureType], visible)
      then Some(Narrative(opening, value.fields[StructureType].s, turning, closing))
      else None
  }

  /** References checked against the previous one, as the decoder's loop does. */
  function DecodeReferences(items: seq<Json>, previousId: nat, count: nat): Option<seq<int>> {
    if items == [] then Some([])
    else
      var id :- SafeUnsigned(items[0]);
      if id <= previousId || id > count then None
      else
        var rest :- DecodeReferences(items[1..], id, count);
        Some([id] + rest)
  }

  function DecodeSegment(value: Json, index: int, count: nat, visible: TextCheck): Option<Segment> {
    if !HasKeys(value, SEGMENT_KEYS) then None
    else
      var f := value.fields;
      var points :- DecodeTexts(f[SupportingPoints], MAX_LIST_LENGTH, visible);
      var devices :- DecodeTexts(f[RhetoricalDevices], MAX_LIST_LENGTH, visible);
      var risks :- DecodeTexts(f[RiskFlags], MAX_LIST_LENGTH, visible);
      if !IsNumber(f[Id], index) || !IsText(f[Title], visible) || !IsText(f[CoreClaim], visible)
         || !IsText(f[RhythmNote], visible) || !IsText(f[ReusablePattern], visible)
         || !f[SourceChunkIds].Arr? || f[SourceChunkIds].items == []
      then None
      else
        var references :- DecodeReferences(f[SourceChunkIds].items, 0, count);
        Some(Segment(index, f[Title].s, references, f[CoreClaim].s, points, devices, f[RhythmNote].s,
                     f[ReusablePattern].s, risks))
  }

  function EachSegmentDecoded(count: nat, visible: TextCheck): ElementDecoder<Segment> {
    (value: Json, index: int) => DecodeSegment(value, index, count, visible)
  }

  function DecodeSegments(value: Json, count: nat, visible: TextCheck): Option<seq<Segment>> {
    if value.Arr? && value.items != [] then DecodeEach(value.items, 1, EachSegmentDecoded(count, visible)) else None
  }

  function DecodeTemplate(value: Json, visible: TextCheck): Option<Template> {
    if !HasKeys(value, TEMPLATE_KEYS) then None
    else
      var skeleton :- DecodeTexts(value.fields[Skeleton], 7, visible);
      var name := value.fields[Name];
      if IsText(name, visible) && |skeleton| >= 3 then Some(Template(name.s, skeleton)) else None
  }

  function DecodeAudienceFit(value: Json, visible: TextCheck): Option<AudienceFit> {
    if HasKeys(value, AUDIENCE_KEYS) && IsText(value.fields[Audience], visible)
       && value.fields[Fit].Str? && value.fields[Fit].s in FITS && IsText(value.fields[Note], visible)
    then Some(AudienceFit(value.fields[Audience].s, value.fields[Fit].s, value.fields[Note].s))
    else None
  }

  function EachAudienceFitDecoded(visible: TextCheck): ElementDecoder<AudienceFit> {
    (value: Json, index: int) => DecodeAudienceFit(value, visible)
  }

  function DecodeAudience(value: Json, visible: TextCheck): Option<seq<AudienceFit>> {
    if value.Arr? then DecodeEach(value.items, 1, EachAudienceFitDecoded(visible)) else None
  }

  const CHUNK_KEYS: set<Key> := {Id, StartByte, EndByte, Sha256}

  function DecodeChunk(value: Json, id: nat, previousEnd: nat): Option<SourceChunk> {
    if !HasKeys(value, CHUNK_KEYS) || !IsNumber(value.fields[Id], id) then None
    else
      var start :- SafeUnsigned(value.fields[StartByte]);
      var end :- SafeUnsigned(value.fields[EndByte]);
      var sha := value.fields[Sha256];
      if start < previousEnd || end <= start || !sha.Str? || !IsSha256Hex(sha.s) then None
      else Some(SourceChunk(id, start, end, sha.s))
  }

  /** Chunks checked against the end of the previous one, as the decoder's loop does. */
  function DecodeChunks(items: seq<Json>, id: nat, previousEnd: nat): Option<seq<SourceChunk>> {
    if items == [] then Some([])
    else
      var first :- DecodeChunk(items[0], id, previousEnd);
      var rest :- DecodeChunks(items[1..], id + 1, first.endByte);
      Some([first] + rest)
  }

  function DecodeLanguage(value: Json): Option<Option<string>> {
    if value.Null? then Some(None)
    else if value.Str? && IsLanguageTag(value.s) then Some(Some(value.s))
    else None
  }

  function DecodeSemantic(f: map<Key, Json>, count: nat, visible: TextCheck): Option<Semantic>
    requires SEMANTIC_KEYS <= f.Keys
  {
    var highlights :- DecodeTexts(f[Highlights], 8, visible);
    var strengths :- DecodeTexts(f[Strengths], 6, visible);
    var weaknesses :- DecodeTexts(f[Weaknesses], 6, visible);
    var narrative :- DecodeNarrative(f[OverallNarrative], visible);
    var template :- DecodeTemplate(f[ReusableTemplate], visible);
    var audience :- DecodeAudience(f[AudienceFitKey], visible);
    var segments :- DecodeSegments(f[Segments], count, visible);
    Some(Semantic(narrative, segments, highlights, template, audience, strengths, weaknesses))
  }

  function VersionKind(value: Json): Option<SourceKind> {
    if !value.Obj? || SchemaVersion !in value.fields then None
    else if IsNumber(value.fields[SchemaVersion], 2) then Some(Article)
    else if IsNumber(value.fields[SchemaVersion], 1) then Some(Transcript)
    else None
  }

  /** The digest field of a report of the given kind, and for an article its source kind. */
  function DecodeSource(f: map<Key, Json>, kind: SourceKind): Option<HexDigest>
    requires SourceKeys(kind) <= f.Keys
  {
    var digest := if kind == Article then f[SourceTextSha256] else f[SourceTranscriptSha256];
    if kind == Article && f[SourceKindKey] != Str(ARTICLE) then None
    else if digest.Str? && IsSha256Hex(digest.s) then Some(digest.s)
    else None
  }

  datatype Decoded = NoDissection | Decoded(report: Report) | Rejected

  function DecodeReport(value: Json, visible: TextCheck): Option<Report> {
    var kind :- VersionKind(value);
    if !HasKeys(value, RootKeys(kind)) then None
    else
      var f := value.fields;
      var digest :- DecodeSource(f, kind);
      var language :- DecodeLanguage(f[SourceLanguage]);
      if !f[SourceChunks].Arr? || f[SourceChunks].items == [] then None
      else
        var chunks :- DecodeChunks(f[SourceChunks].items, 1, 0);
        var semantic :- DecodeSemantic(f, |chunks|, visible);
        Some(Report(kind, digest, language, chunks, semantic))
  }

  function DecodeDissection(value: Json): Decoded {
    if value.Null? then NoDissection
    else
      var r := DecodeReport(value, NotBlank);
      if r.Some? then Decoded(r.value) else Rejected
  }

  // ----- the decoder's loops -----

  method DecodeSourceChunks(items: seq<Json>) returns (r: Option<seq<SourceChunk>>)
    ensures r == DecodeChunks(items, 1, 0)
  {
    var sourceChunks: seq<SourceChunk> := [];
    var previousEnd: nat := 0;
    ghost var all := DecodeChunks(items, 1, 0);
    for i := 0 to |items|
      invariant |sourceChunks| == i
      invariant all == Prepend(sourceChunks, DecodeChunks(items[i..], i + 1, previousEnd))
    {
      assert items[i..][0] == items[i] && items[i..][1..] == items[i + 1..];
      var chunk := DecodeChunk(items[i], i + 1, previousEnd);
      if chunk.None? {
        return None;
      }
      PrependAdds(sourceChunks, chunk.value, DecodeChunks(items[i + 1..], i + 2, chunk.value.endByte));
      sourceChunks := sourceChunks + [chunk.value];
      previousEnd := chunk.value.endByte;
    }
    r := Some(sourceChunks);
  }

  method DecodeSourceChunkIds(items: seq<Json>, count: nat) returns (r: Option<seq<int>>)
    ensures r == DecodeReferences(items, 0, count)
  {
    var safeIds: seq<int> := [];
    var previousId: nat := 0;
    ghost var all := DecodeReferences(items, 0, count);
    for i := 0 to |items|
      invariant all == Prepend(safeIds, DecodeReferences(items[i..], previousId, count))
    {
      assert items[i..][0] == items[i] && items[i..][1..] == items[i + 1..];
      var id := SafeUnsigned(items[i]);
      if id.None? || id.value <= previousId || id.value > count {
        return None;
      }
      PrependAdds(safeIds, id.value, DecodeReferences(items[i + 1..], id.value, count));
      safeIds := safeIds + [id.value];
      previousId := id.value;
    }
    r := Some(safeIds);
  }

  function Prepend<T>(front: seq<T>, rest: Option<seq<T>>): (r: Option<seq<T>>)
    ensures front == [] ==> r == rest
    ensures rest == Some([]) ==> r == Some(front)
  {
    match rest
    case Some(back) =>
      assert front == [] ==> front + back == back;
      assert back == [] ==> front + back == front;
      Some(front + back)
    case None => None
  }

  lemma PrependAdds<T>(front: seq<T>, value: T, rest: Option<seq<T>>)
    ensures Prepend(front + [value], rest) == Prepend(front, Prepend([value], rest))
  {
    if rest.Some? {
      assert front + [value] + rest.value == front + ([value] + rest.value);
    }
  }

  // ----- what the desktop makes of a printed report -----

  predicate VisibleAll(ts: seq<string>, visible: TextCheck) {
    forall i :: 0 <= i < |ts| ==> visible(ts[i])
  }

  predicate VisibleOptional(t: Option<string>, visible: TextCheck) {
    t.Some? ==> visible(t.value)
  }

  predicate VisibleNarrative(n: Narrative, visible: TextCheck) {
    && VisibleOptional(n.openingHook, visible) && visible(n.structureType)
    && VisibleOptional(n.turningPoint, visible) && VisibleOptional(n.closingType, visible)
  }

  /** The segment's lists fit the desktop, and its texts are not blank there. */
  predicate PresentableSegment(s: Segment, visible: TextCheck) {
    && visible(s.title) && visible(s.coreClaim) && visible(s.rhythmNote) && visible(s.reusablePattern)
    && |s.supportingPoints| <= 32 && VisibleAll(s.supportingPoints, visible)
    && |s.rhetoricalDevices| <= 32 && VisibleAll(s.rhetoricalDevices, visible)
    && |s.riskFlags| <= 32 && VisibleAll(s.riskFlags, visible)
  }

  predicate PresentableSemantic(s: Semantic, visible: TextCheck) {
    && VisibleNarrative(s.narrative, visible)
    && (forall i :: 0 <= i < |s.segments| ==> PresentableIn(visible)(s.segments[i]))
    && VisibleAll(s.highlights, visible)
    && visible(s.template.name) && VisibleAll(s.template.skeleton, visible)
    && (forall i :: 0 <= i < |s.audienceFit| ==> VisibleAudienceFit(s.audienceFit[i], visible))
    && VisibleAll(s.strengths, visible) && VisibleAll(s.weaknesses, visible)
  }

  /** What the desktop asks beyond the worker's rules: a well-formed language tag, byte offsets that are safe integers,
      at most 32 entries in a segment's lists, and texts JavaScript does not trim away. */
  predicate Presentable(r: Report, visible: TextCheck) {
    && (r.language.Some? ==> IsLanguageTag(r.language.value))
    && SafeEnds(r.chunks)
    && PresentableSemantic(r.semantic, visible)
  }

  lemma {:induction false} DecodeEachIsPointwise<T>(items: seq<Json>, index: int, decode: ElementDecoder<T>)
    ensures DecodeEach(items, index, decode).Some?
       <==> forall i :: 0 <= i < |items| ==> decode(items[i], index + i).Some?
    ensures DecodeEach(items, index, decode).Some? ==>
      var values := DecodeEach(items, index, decode).value;
      |values| == |items| && forall i :: 0 <= i < |items| ==> decode(items[i], index + i) == Some(values[i])
  {
    if items != [] {
      DecodeEachIsPointwise(items[1..], index + 1, decode);
      assert forall i :: 0 <= i < |items| - 1 ==>
        decode(items[1..][i], index + 1 + i) == decode(items[i + 1], index + (i + 1));
      if forall i :: 0 <= i < |items| ==> decode(items[i], index + i).Some? {
        assert decode(items[0], index + 0).Some?;
        assert forall i :: 0 <= i < |items| - 1 ==> decode(items[1..][i], index + 1 + i).Some?;
      }
      if DecodeEach(items, index, decode).Some? {
        var values := DecodeEach(items, index, decode).value;
        forall i | 0 <= i < |items|
          ensures decode(items[i], index + i) == Some(values[i])
        {
          if i > 0 {
            assert decode(items[1..][i - 1], index + 1 + (i - 1)) == Some(values[1..][i - 1]);
          }
        }
      }
    }
  }

  /** An array whose elements decode to the given values where `fine`, and not at all elsewhere. */
  lemma DecodeEachYields<T>(items: seq<Json>, decode: ElementDecoder<T>, values: seq<T>, fine: T -> bool)
    requires |items| == |values|
    requires forall i :: 0 <= i < |items| ==>
      decode(items[i], 1 + i) == if fine(values[i]) then Some(values[i]) else None
    ensures DecodeEach(items, 1, decode)
         == if forall i :: 0 <= i < |values| ==> fine(values[i]) then Some(values) else None
  {
    DecodeEachIsPointwise(items, 1, decode);
    if forall i :: 0 <= i < |values| ==> fine(values[i]) {
      assert DecodeEach(items, 1, decode).Some?;
      assert DecodeEach(items, 1, decode).value == values;
    } else {
      var i :| 0 <= i < |values| && !fine(values[i]);
      assert decode(items[i], 1 + i).None?;
    }
  }

  lemma DecodePrintedTexts(ts: seq<string>, maximum: nat, visible: TextCheck)
    ensures DecodeTexts(PrintTexts(ts), maximum, visible)
         == if |ts| <= maximum && VisibleAll(ts, visible) then Some(ts) else None
  {
    var items := PrintTexts(ts).items;
    assert forall i :: 0 <= i < |ts| ==> items[i] == Str(ts[i]) && (IsText(items[i], visible) <==> visible(ts[i]));
    if |ts| <= maximum && VisibleAll(ts, visible) {
      assert DecodeTexts(PrintTexts(ts), maximum, visible).value == ts;
    } else if |ts| <= maximum {
      var i :| 0 <= i < |ts| && !visible(ts[i]);
      assert !IsText(items[i], visible);
    }
  }

  lemma DecodePrintedNarrative(n: Narrative, visible: TextCheck)
    ensures DecodeNarrative(PrintNarrative(n), visible) == if VisibleNarrative(n, visible) then Some(n) else None
  {
  }

  /** Each number exceeds the one before it, the first exceeds `previousId`, and none exceeds the count. */
  predicate Ascends(ns: seq<int>, previousId: int, count: nat) {
    ns == [] || (previousId < ns[0] <= count && Ascends(ns[1..], ns[0], count))
  }

  predicate Between(ns: seq<int>, low: int, high: int) {
    forall i :: 0 <= i < |ns| ==> low < ns[i] <= high
  }

  lemma {:induction false} AscendsIff(ns: seq<int>, previousId: int, count: nat)
    ensures Ascends(ns, previousId, count) <==> Increasing(ns) && Between(ns, previousId, count)
  {
    if ns != [] {
      AscendsIff(ns[1..], ns[0], count);
      IncreasingByHead(ns, previousId, count);
    }
  }

  lemma IncreasingByHead(ns: seq<int>, previousId: int, count: nat)
    requires ns != []
    ensures Increasing(ns) && Between(ns, previousId, count)
       <==> previousId < ns[0] <= count && Increasing(ns[1..]) && Between(ns[1..], ns[0], count)
  {
  }

  lemma CleanIffAscends(ns: seq<int>, count: nat, ids: set<int>)
    requires forall n :: n in ids <==> 1 <= n <= count
    ensures CleanReferences(ns, ids) <==> ns != [] && Ascends(ns, 0, count)
  {
    AscendsIff(ns, 0, count);
    if CleanReferences(ns, ids) {
      assert forall i :: 0 <= i < |ns| ==> ns[i] in ns;
    }
  }

  lemma SafeUnsignedOfInt(n: int)
    ensures SafeUnsigned(Int(n)) == if 0 <= n <= MAX_SAFE_INTEGER then Some(n) else None
  {
    assert (n as real).Floor == n;
  }

  lemma {:induction false} DecodePrintedReferences(ns: seq<int>, previousId: nat, count: nat)
    requires count <= MAX_SAFE_INTEGER
    ensures DecodeReferences(PrintIntegers(ns).items, previousId, count)
         == if Ascends(ns, previousId, count) then Some(ns) else None
  {
    var items := PrintIntegers(ns).items;
    if ns != [] {
      assert items[1..] == PrintIntegers(ns[1..]).items;
      assert items[0] == Int(ns[0]);
      SafeUnsignedOfInt(ns[0]);
      if previousId < ns[0] <= count {
        DecodePrintedReferences(ns[1..], ns[0], count);
        assert ns == [ns[0]] + ns[1..];
      }
    }
  }

  /** The two readers agree on references: over chunks numbered 1 to n, the desktop's running comparison accepts exactly
      the integer lists the worker's sorted-set comparison accepts. */
  lemma ReadersAgreeOnReferences(ns: seq<int>, count: nat, ids: set<int>)
    requires count <= MAX_SAFE_INTEGER && ns != []
    requires forall n :: n in ids <==> 1 <= n <= count
    ensures ReferencesOf(PrintIntegers(ns), ids).Ok?
       <==> DecodeReferences(PrintIntegers(ns).items, 0, count).Some?
    ensures ReferencesOf(PrintIntegers(ns), ids).Ok? ==>
      ReferencesOf(PrintIntegers(ns), ids) == Ok(ns) && DecodeReferences(PrintIntegers(ns).items, 0, count) == Some(ns)
  {
    DecodePrintedReferences(ns, 0, count);
    CleanIffAscends(ns, count, ids);
    if CleanReferences(ns, ids) {
      CleanReferencesReparse(ns, ids);
    }
    if ReferencesOf(PrintIntegers(ns), ids).Ok? {
      ParsedReferencesAreClean(PrintIntegers(ns), ids);
      assert ReferencesOf(PrintIntegers(ns), ids).value == ns;
    }
  }

  lemma DecodePrintedSegment(s: Segment, index: int, count: nat, ids: set<int>, visible: TextCheck)
    requires s.id == index && CleanReferences(s.sourceChunkIds, ids) && count <= MAX_SAFE_INTEGER
    requires forall n :: n in ids <==> 1 <= n <= count
    ensures DecodeSegment(PrintSegment(s), index, count, visible)
         == if PresentableSegment(s, visible) then Some(s) else None
  {
    assert HasKeys(PrintSegment(s), SEGMENT_KEYS);
    DecodePrintedTexts(s.supportingPoints, MAX_LIST_LENGTH, visible);
    DecodePrintedTexts(s.rhetoricalDevices, MAX_LIST_LENGTH, visible);
    DecodePrintedTexts(s.riskFlags, MAX_LIST_LENGTH, visible);
    DecodePrintedReferences(s.sourceChunkIds, 0, count);
    CleanIffAscends(s.sourceChunkIds, count, ids);
    assert PrintIntegers(s.sourceChunkIds).items != [];
  }

  function PresentableIn(visible: TextCheck): Segment -> bool {
    (s: Segment) => PresentableSegment(s, visible)
  }

  lemma DecodePrintedElement(ss: seq<Segment>, i: nat, count: nat, ids: set<int>, visible: TextCheck)
    requires i < |ss| && ss[i].id == i + 1 && CleanReferences(ss[i].sourceChunkIds, ids) && count <= MAX_SAFE_INTEGER
    requires forall n :: n in ids <==> 1 <= n <= count
    ensures EachSegmentDecoded(count, visible)(PrintSegments(ss).items[i], 1 + i)
         == if PresentableIn(visible)(ss[i]) then Some(ss[i]) else None
  {
    DecodePrintedSegment(ss[i], 1 + i, count, ids, visible);
  }

  lemma DecodePrintedSegments(ss: seq<Segment>, count: nat, ids: set<int>, visible: TextCheck)
    requires ss != [] && count <= MAX_SAFE_INTEGER
    requires forall i :: 0 <= i < |ss| ==> ss[i].id == i + 1 && CleanReferences(ss[i].sourceChunkIds, ids)
    requires forall n :: n in ids <==> 1 <= n <= count
    ensures DecodeSegments(PrintSegments(ss), count, visible)
         == if forall i :: 0 <= i < |ss| ==> PresentableIn(visible)(ss[i]) then Some(ss) else None
  {
    forall i | 0 <= i < |ss| {
      DecodePrintedElement(ss, i, count, ids, visible);
    }
    DecodeEachYields(PrintSegments(ss).items, EachSegmentDecoded(count, visible), ss, PresentableIn(visible));
  }

  lemma DecodePrintedTemplate(t: Template, visible: TextCheck)
    requires 3 <= |t.skeleton| <= 7
    ensures DecodeTemplate(PrintTemplate(t), visible)
         == if visible(t.name) && VisibleAll(t.skeleton, visible) then Some(t) else None
  {
    assert HasKeys(PrintTemplate(t), TEMPLATE_KEYS);
    DecodePrintedTexts(t.skeleton, 7, visible);
  }

  predicate VisibleAudienceFit(a: AudienceFit, visible: TextCheck) {
    visible(a.audience) && visible(a.note)
  }

  lemma DecodePrintedAudienceFit(a: AudienceFit, visible: TextCheck)
    requires a.fit in FITS
    ensures DecodeAudienceFit(PrintAudienceFit(a), visible) == if VisibleAudienceFit(a, visible) then Some(a) else None
  {
    assert HasKeys(PrintAudienceFit(a), AUDIENCE_KEYS);
  }

  lemma DecodePrintedAudience(fits: seq<AudienceFit>, visible: TextCheck)
    requires forall i :: 0 <= i < |fits| ==> fits[i].fit in FITS
    ensures DecodeAudience(PrintAudience(fits), visible)
         == if forall i :: 0 <= i < |fits| ==> VisibleAudienceFit(fits[i], visible) then Some(fits) else None
  {
    var items := PrintAudience(fits).items;
    var fine := (a: AudienceFit) => VisibleAudienceFit(a, visible);
    forall i | 0 <= i < |fits|
      ensures EachAudienceFitDecoded(visible)(items[i], 1 + i) == if fine(fits[i]) then Some(fits[i]) else None
    {
      DecodePrintedAudienceFit(fits[i], visible);
    }
    DecodeEachYields(items, EachAudienceFitDecoded(visible), fits, fine);
  }

  /** The worker's rules, as far as the desktop relies on them. */
  ghost predicate WithinLimits(s: Semantic, ids: set<int>) {
    && |s.highlights| <= 8 && |s.strengths| <= 6 && |s.weaknesses| <= 6 && 3 <= |s.template.skeleton| <= 7
    && (forall i :: 0 <= i < |s.audienceFit| ==> s.audienceFit[i].fit in FITS)
    && s.segments != []
    && (forall i :: 0 <= i < |s.segments| ==>
          s.segments[i].id == i + 1 && CleanReferences(s.segments[i].sourceChunkIds, ids))
  }

  lemma CleanIsWithinLimits(s: Semantic, transcript: string, ids: set<int>, text: Normaliser)
    requires CleanSemantic(s, transcript, ids, text)
    ensures WithinLimits(s, ids)
  {
    forall i | 0 <= i < |s.segments|
      ensures s.segments[i].id == i + 1 && CleanReferences(s.segments[i].sourceChunkIds, ids)
    {
      assert CleanSegment(s.segments[i], i + 1, ids, text);
    }
  }

  lemma DecodePrintedSemantic(f: map<Key, Json>, s: Semantic, count: nat, ids: set<int>, visible: TextCheck)
    requires WithinLimits(s, ids) && count <= MAX_SAFE_INTEGER
    requires forall n :: n in ids <==> 1 <= n <= count
    requires SEMANTIC_KEYS <= f.Keys
    requires forall k :: k in SEMANTIC_KEYS ==> k in SemanticFields(s) && f[k] == SemanticFields(s)[k]
    ensures DecodeSemantic(f, count, visible) == if PresentableSemantic(s, visible) then Some(s) else None
  {
    SemanticFieldsByKey(s);
    DecodePrintedTexts(s.highlights, 8, visible);
    DecodePrintedTexts(s.strengths, 6, visible);
    DecodePrintedTexts(s.weaknesses, 6, visible);
    DecodePrintedNarrative(s.narrative, visible);
    DecodePrintedTemplate(s.template, visible);
    DecodePrintedAudience(s.audienceFit, visible);
    DecodePrintedSegments(s.segments, count, ids, visible);
  }

  // ----- chunks -----

  lemma {:induction false} TileIds(sha: Digest, chunks: seq<Chunk>, id: nat, startByte: nat, maxLength: nat, n: int)
    requires Tiles(sha, chunks, id, startByte, maxLength)
    ensures n in ChunkIds(chunks) <==> id <= n < id + |chunks|
  {
    if chunks != [] {
      TileIds(sha, chunks[1..], id + 1, chunks[0].endByte, maxLength, n);
      assert chunks == [chunks[0]] + chunks[1..];
    }
  }

  /** A tiling of n chunks ends at byte n or later. */
  lemma {:induction false} TilesReach(sha: Digest, chunks: seq<Chunk>, id: nat, startByte: nat, maxLength: nat)
    requires Tiles(sha, chunks, id, startByte, maxLength)
    ensures chunks != [] ==> startByte + |chunks| <= chunks[|chunks| - 1].endByte
  {
    if |chunks| > 1 {
      TilesReach(sha, chunks[1..], id + 1, chunks[0].endByte, maxLength);
      assert chunks[1..][|chunks| - 2] == chunks[|chunks| - 1];
    }
  }

  predicate SafeEnds(cs: seq<SourceChunk>) {
    forall i :: 0 <= i < |cs| ==> cs[i].endByte <= MAX_SAFE_INTEGER
  }

  lemma DecodePrintedChunk(c: SourceChunk, previousEnd: nat)
    requires previousEnd <= c.startByte < c.endByte
    ensures DecodeChunk(PrintChunk(c), c.id, previousEnd) == if c.endByte <= MAX_SAFE_INTEGER then Some(c) else None
  {
  }

  /** Chunks numbered from `id`, non-empty and back to back from `startByte`. */
  predicate Consecutive(cs: seq<SourceChunk>, id: nat, startByte: nat) {
    cs == []
    || (cs[0].id == id && cs[0].startByte == startByte < cs[0].endByte && Consecutive(cs[1..], id + 1, cs[0].endByte))
  }

  lemma {:induction false} TilesAreConsecutive(sha: Digest, chunks: seq<Chunk>, id: nat, startByte: nat, maxLength: nat)
    requires Tiles(sha, chunks, id, startByte, maxLength)
    ensures Consecutive(Provenances(chunks), id, startByte)
  {
    if chunks != [] {
      assert Provenances(chunks)[1..] == Provenances(chunks[1..]);
      TilesAreConsecutive(sha, chunks[1..], id + 1, chunks[0].endByte, maxLength);
    }
  }

  lemma SafeEndsByHead(cs: seq<SourceChunk>)
    requires cs != []
    ensures SafeEnds(cs) <==> cs[0].endByte <= MAX_SAFE_INTEGER && SafeEnds(cs[1..])
  {
    assert forall i :: 0 <= i < |cs| - 1 ==> cs[1..][i] == cs[i + 1];
    assert cs == [cs[0]] + cs[1..];
  }

  lemma {:induction false} DecodePrintedChunks(cs: seq<SourceChunk>, id: nat, startByte: nat)
    requires Consecutive(cs, id, startByte)
    ensures DecodeChunks(PrintChunks(cs).items, id, startByte) == if SafeEnds(cs) then Some(cs) else None
  {
    if cs != [] {
      assert PrintChunks(cs).items[1..] == PrintChunks(cs[1..]).items;
      assert PrintChunks(cs).items[0] == PrintChunk(cs[0]);
      DecodePrintedChunk(cs[0], startByte);
      DecodePrintedChunks(cs[1..], id + 1, cs[0].endByte);
      SafeEndsByHead(cs);
      assert [cs[0]] + cs[1..] == cs;
    }
  }

  // ----- the whole report -----

  lemma DecodePrintedHead(r: Report)
    requires !r.kind.OtherKind?
    ensures VersionKind(Print(r)) == Some(r.kind) && HasKeys(Print(r), RootKeys(r.kind))
    ensures DecodeSource(Print(r).fields, r.kind) == Some(r.digest)
    ensures DecodeLanguage(Print(r).fields[SourceLanguage])
         == if r.language.Some? ==> IsLanguageTag(r.language.value) then Some(r.language) else None
  {
    PrintedByKey(r);
  }

  /** The desktop shows every accepted report with equal fields exactly when it is presentable, and refuses it whole
      otherwise; in particular the worker's provenance, numbering and references never make it refuse. */
  lemma DesktopDecodesIff(sha: Digest, transcript: string, r: Report)
    requires Accepted(sha, transcript, r)
    ensures DecodeDissection(Print(r)) == if Presentable(r, NotBlank) then Decoded(r) else Rejected
  {
    DecodesReport(sha, transcript, r, NotBlank);
  }

  /** The chunks of an accepted report decode. */
  lemma AcceptedChunksDecode(sha: Digest, transcript: string, r: Report)
    requires Accepted(sha, transcript, r)
    ensures DecodeChunks(PrintChunks(r.chunks).items, 1, 0) == if SafeEnds(r.chunks) then Some(r.chunks) else None
  {
    var chunks := Split(sha, transcript, MAX_CHUNK_LENGTH);
    SplitTiles(sha, transcript, MAX_CHUNK_LENGTH);
    TilesAreConsecutive(sha, chunks, 1, 0, MAX_CHUNK_LENGTH);
    DecodePrintedChunks(r.chunks, 1, 0);
  }

  lemma TilesNumber(sha: Digest, chunks: seq<Chunk>, ids: set<int>)
    requires Tiles(sha, chunks, 1, 0, MAX_CHUNK_LENGTH) && ids == ChunkIds(chunks)
    ensures forall n :: n in ids <==> 1 <= n <= |chunks|
  {
    forall n
      ensures n in ids <==> 1 <= n <= |chunks|
    {
      TileIds(sha, chunks, 1, 0, MAX_CHUNK_LENGTH, n);
    }
  }

  lemma SafeTilesAreFew(sha: Digest, chunks: seq<Chunk>)
    requires Tiles(sha, chunks, 1, 0, MAX_CHUNK_LENGTH) && SafeEnds(Provenances(chunks))
    ensures |chunks| <= MAX_SAFE_INTEGER
  {
    TilesReach(sha, chunks, 1, 0, MAX_CHUNK_LENGTH);
    if chunks != [] {
      assert Provenances(chunks)[|chunks| - 1].endByte == chunks[|chunks| - 1].endByte;
    }
  }

  /** Its chunks number the references of an accepted report. */
  lemma AcceptedChunks(sha: Digest, transcript: string, r: Report, count: nat, ids: set<int>)
    requires Accepted(sha, transcript, r) && count == |r.chunks|
    requires ids == ChunkIds(Split(sha, transcript, MAX_CHUNK_LENGTH))
    ensures r.chunks != []
    ensures SafeEnds(r.chunks) ==> count <= MAX_SAFE_INTEGER
    ensures forall n :: n in ids <==> 1 <= n <= count
  {
    var chunks := Split(sha, transcript, MAX_CHUNK_LENGTH);
    SplitTiles(sha, transcript, MAX_CHUNK_LENGTH);
    AcceptedHasChunks(sha, transcript, r);
    TilesNumber(sha, chunks, ids);
    if SafeEnds(r.chunks) {
      SafeTilesAreFew(sha, chunks);
    }
  }

  /** A report decodes as its parts do. */
  lemma DecodesWhenPartsDo(r: Report, f: map<Key, Json>, visible: TextCheck)
    requires !r.kind.OtherKind? && r.chunks != [] && f == Print(r).fields && SEMANTIC_KEYS <= f.Keys
    requires DecodeChunks(PrintChunks(r.chunks).items, 1, 0) == if SafeEnds(r.chunks) then Some(r.chunks) else None
    requires SafeEnds(r.chunks) ==>
      DecodeSemantic(f, |r.chunks|, visible)
      == if PresentableSemantic(r.semantic, visible) then Some(r.semantic) else None
    ensures DecodeReport(Print(r), visible) == if Presentable(r, visible) then Some(r) else None
  {
    DecodePrintedHead(r);
    PrintedByKey(r);
  }

  lemma DecodesReport(sha: Digest, transcript: string, r: Report, visible: TextCheck)
    requires Accepted(sha, transcript, r)
    ensures DecodeReport(Print(r), visible) == if Presentable(r, visible) then Some(r) else None
  {
    var ids := ChunkIds(Split(sha, transcript, MAX_CHUNK_LENGTH));
    AcceptedChunks(sha, transcript, r, |r.chunks|, ids);
    AcceptedChunksDecode(sha, transcript, r);
    PrintedByKey(r);
    if SafeEnds(r.chunks) {
      CleanIsWithinLimits(r.semantic, transcript, ids, TextOf);
      DecodePrintedSemantic(Print(r).fields, r.semantic, |r.chunks|, ids, visible);
    }
    DecodesWhenPartsDo(r, Print(r).fields, visible);
  }

  lemma ByteOrderMarkTrims(t: string)
    requires t == "\U{FEFF}"
    ensures Clean(t, TextOf) && !NotBlank(t)
  {
    TrimmedIsFixed(t, IsPySpace);
    assert |SCRIPT_TAG| == 7 && |SCRIPT_URL| == 11;
    assert !Contains(Lower(t), SCRIPT_TAG) && !Contains(Lower(t), SCRIPT_URL);
    TrimResult(t, IsJsSpace);
  }

  /** Trimming differs: a byte-order mark is text to the worker and white space to the desktop, so there is a report the
      worker accepts and the desktop refuses. */
  lemma ByteOrderMarkReportIsRefused(sha: Digest, t: string)
    requires t == "\U{FEFF}"
    ensures Accepted(sha, t, SmallestReport(sha, t, "low"))
    ensures DecodeDissection(Print(SmallestReport(sha, t, "low"))) == Rejected
  {
    ByteOrderMarkTrims(t);
    SmallestReportIsAccepted(sha, t);
    DesktopDecodesIff(sha, t, SmallestReport(sha, t, "low"));
  }
}
