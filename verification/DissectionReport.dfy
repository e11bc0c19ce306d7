/** The worker's dissection report: the strict parser of a model's answer, the printer of a stored report, and the
    parser that reads a stored report back. */
module DissectionReport {
  import opened Text
  import opened Json
  import opened MarkdownSplitter

  const MAX_TEXT_LENGTH: nat := 4000
  const SCRIPT_TAG := "<script"
  const SCRIPT_URL := "javascript:"

  // ----- reports -----

  datatype SourceKind = Transcript | Article | OtherKind(name: string)

  datatype SourceChunk = SourceChunk(id: nat, startByte: nat, endByte: nat, sha256: HexDigest)

  datatype Narrative = Narrative(
    openingHook: Option<string>, structureType: string, turningPoint: Option<string>, closingType: Option<string>)

  datatype Segment = Segment(
    id: int, title: string, sourceChunkIds: seq<int>, coreClaim: string, supportingPoints: seq<string>,
    rhetoricalDevices: seq<string>, rhythmNote: string, reusablePattern: string, riskFlags: seq<string>)

  datatype Template = Template(name: string, skeleton: seq<string>)

  datatype AudienceFit = AudienceFit(audience: string, fit: string, note: string)

  /** What the model answered. */
  datatype Semantic = Semantic(
    narrative: Narrative, segments: seq<Segment>, highlights: seq<string>, template: Template,
    audienceFit: seq<AudienceFit>, strengths: seq<string>, weaknesses: seq<string>)

  /** A semantic report with its provenance. */
  datatype Report = Report(
    kind: SourceKind, digest: HexDigest, language: Option<string>, chunks: seq<SourceChunk>, semantic: Semantic)

  // ----- printing -----

  function PrintOptional(t: Option<string>): Json {
    if t.Some? then Str(t.value) else Null
  }

  function PrintTexts(ts: seq<string>): Json {
    Arr(seq(|ts|, i requires 0 <= i < |ts| => Str(ts[i])))
  }

  function PrintIntegers(ns: seq<int>): Json {
    Arr(seq(|ns|, i requires 0 <= i < |ns| => Int(ns[i])))
  }

  function PrintChunk(c: SourceChunk): Json {
    Obj(map[Id := Int(c.id), StartByte := Int(c.startByte), EndByte := Int(c.endByte), Sha256 := Str(c.sha256)])
  }

  function PrintChunks(cs: seq<SourceChunk>): Json {
    Arr(seq(|cs|, i requires 0 <= i < |cs| => PrintChunk(cs[i])))
  }

  function PrintNarrative(n: Narrative): Json {
    Obj(map[OpeningHook := PrintOptional(n.openingHook), StructureType := Str(n.structureType),
            TurningPoint := PrintOptional(n.turningPoint), ClosingType := PrintOptional(n.closingType)])
  }

  function PrintSegment(s: Segment): Json {
    Obj(map[Id := Int(s.id), Title := Str(s.title), SourceChunkIds := PrintIntegers(s.sourceChunkIds),
            CoreClaim := Str(s.coreClaim), SupportingPoints := PrintTexts(s.supportingPoints),
            RhetoricalDevices := PrintTexts(s.rhetoricalDevices), RhythmNote := Str(s.rhythmNote),
            ReusablePattern := Str(s.reusablePattern), RiskFlags := PrintTexts(s.riskFlags)])
  }

  function PrintSegments(ss: seq<Segment>): Json {
    Arr(seq(|ss|, i requires 0 <= i < |ss| => PrintSegment(ss[i])))
  }

  function PrintTemplate(t: Template): Json {
    Obj(map[Name := Str(t.name), Skeleton := PrintTexts(t.skeleton)])
  }

  function PrintAudienceFit(a: AudienceFit): Json {
    Obj(map[Audience := Str(a.audience), Fit := Str(a.fit), Note := Str(a.note)])
  }

  function PrintAudience(fits: seq<AudienceFit>): Json {
    Arr(seq(|fits|, i requires 0 <= i < |fits| => PrintAudienceFit(fits[i])))
  }

  const SEMANTIC_KEYS: set<Key> := {
    OverallNarrative, Segments, Highlights, ReusableTemplate, AudienceFitKey, Strengths, Weaknesses}

  function SemanticFields(s: Semantic): map<Key, Json> {
    map[OverallNarrative := PrintNarrative(s.narrative), Segments := PrintSegments(s.segments),
        Highlights := PrintTexts(s.highlights), ReusableTemplate := PrintTemplate(s.template),
        AudienceFitKey := PrintAudience(s.audienceFit), Strengths := PrintTexts(s.strengths),
        Weaknesses := PrintTexts(s.weaknesses)]
  }

  const PROVENANCE_KEYS: set<Key> := {SchemaVersion, SourceLanguage, SourceChunks}

  function SourceKeys(kind: SourceKind): set<Key> {
    if kind == Article then {SourceKindKey, SourceTextSha256} else {SourceTranscriptSha256}
  }

  const ARTICLE := "article"

  function SchemaVersionOf(kind: SourceKind): int {
    if kind == Article then 2 else 1
  }

  function ProvenanceFields(r: Report): map<Key, Json> {
    map[SchemaVersion := Int(SchemaVersionOf(r.kind)), SourceLanguage := PrintOptional(r.language),
        SourceChunks := PrintChunks(r.chunks)]
  }

  function SourceFields(r: Report): map<Key, Json> {
    if r.kind == Article then map[SourceKindKey := Str(ARTICLE), SourceTextSha256 := Str(r.digest)]
    else map[SourceTranscriptSha256 := Str(r.digest)]
  }

  function Print(r: Report): Json {
    Obj(ProvenanceFields(r) + SourceFields(r) + SemanticFields(r.semantic))
  }

  // ----- parsing a model's answer -----

  datatype Fault =
    | ClosedObject | NotArray | BadText | UnsafeText | ArrayLength | IntegerArray | NoSegments | SegmentId
    | SourceReferences | HighlightProvenance | AudienceFitValue | BadSchemaVersion | BadSourceLanguage
    | BadProvenance | BadSourceKind

  datatype ValidationCategory =
    | SchemaShape | SourceReferencesCategory | QuotationProvenance | CollectionLimits | EnumValues

  function CategoryOf(f: Fault): ValidationCategory {
    match f
    case SourceReferences => SourceReferencesCategory
    case HighlightProvenance => QuotationProvenance
    case ArrayLength => CollectionLimits
    case AudienceFitValue => EnumValues
    case _ => SchemaShape
  }

  type Parsed<+T> = Result<T, Fault>

  function ClosedFields(value: Json, keys: set<Key>): (r: Parsed<map<Key, Json>>)
    ensures r.Ok? <==> value.Obj? && value.fields.Keys == keys
    ensures r.Ok? ==> r.value == value.fields
  {
    if value.Obj? && value.fields.Keys == keys then Ok(value.fields) else Err(ClosedObject)
  }

  function ItemsOf(value: Json): Parsed<seq<Json>> {
    if value.Arr? then Ok(value.items) else Err(NotArray)
  }

  function TextOf(value: Json): Parsed<string> {
    if !value.Str? || Trim(value.s, IsPySpace) == "" || |value.s| > MAX_TEXT_LENGTH then Err(BadText)
    else
      var normalized := Trim(value.s, IsPySpace);
      if Contains(Lower(normalized), SCRIPT_TAG) || Contains(Lower(normalized), SCRIPT_URL) then Err(UnsafeText)
      else Ok(normalized)
  }

  /** How a text is accepted and normalised; the report parser takes it as a parameter and is used with TextOf. */
  type Normaliser = Json -> Parsed<string>

  /** A parser of an array's elements, given each one's position. */
  type ElementParser<!T> = (Json, int) -> Parsed<T>

  function ParseEach<T>(items: seq<Json>, index: int, parse: ElementParser<T>): Parsed<seq<T>> {
    if items == [] then Ok([])
    else
      var first :- parse(items[0], index);
      var rest :- ParseEach(items[1..], index + 1, parse);
      Ok([first] + rest)
  }

  function EachText(text: Normaliser): ElementParser<string> {
    (value: Json, index: int) => text(value)
  }

  function OptionalText(value: Json, text: Normaliser): Parsed<Option<string>> {
    if value.Null? then Ok(None)
    else
      var t :- text(value);
      Ok(Some(t))
  }

  function TextList(value: Json, minimum: nat, maximum: Option<nat>, text: Normaliser): Parsed<seq<string>> {
    var items :- ItemsOf(value);
    if |items| < minimum || (maximum.Some? && |items| > maximum.value) then Err(ArrayLength)
    else ParseEach(items, 0, EachText(text))
  }

  function IntegerList(value: Json): Parsed<seq<int>> {
    var items :- ItemsOf(value);
    if forall i :: 0 <= i < |items| ==> items[i].Int? && items[i].n >= 1
    then Ok(seq(|items|, i requires 0 <= i < |items| && items[i].Int? => items[i].n))
    else Err(IntegerArray)
  }

  /** The distinct members in increasing order. */
  function SortedDistinct(ns: seq<int>): seq<int> {
    if ns == [] then [] else Insert(ns[0], SortedDistinct(ns[1..]))
  }

  function Insert(n: int, sorted: seq<int>): seq<int> {
    if sorted == [] || n < sorted[0] then [n] + sorted
    else if n == sorted[0] then sorted
    else [sorted[0]] + Insert(n, sorted[1..])
  }

  function ReferencesOf(value: Json, chunkIds: set<int>): Parsed<seq<int>> {
    var references :- IntegerList(value);
    if references == [] || references != SortedDistinct(references) || !(forall n :: n in references ==> n in chunkIds)
    then Err(SourceReferences)
    else Ok(references)
  }

  const NARRATIVE_KEYS: set<Key> := {OpeningHook, StructureType, TurningPoint, ClosingType}
  const SEGMENT_KEYS: set<Key> := {
    Id, Title, SourceChunkIds, CoreClaim, SupportingPoints, RhetoricalDevices, RhythmNote, ReusablePattern, RiskFlags}
  const TEMPLATE_KEYS: set<Key> := {Name, Skeleton}
  const AUDIENCE_KEYS: set<Key> := {Audience, Fit, Note}
  const FITS: set<string> := {"high", "medium", "low"}

  function NarrativeOf(value: Json, text: Normaliser): Parsed<Narrative> {
    var f :- ClosedFields(value, NARRATIVE_KEYS);
    var opening :- OptionalText(f[OpeningHook], text);
    var structure :- text(f[StructureType]);
    var turning :- OptionalText(f[TurningPoint], text);
    var closing :- OptionalText(f[ClosingType], text);
    Ok(Narrative(opening, structure, turning, closing))
  }

  function SegmentOf(value: Json, index: int, chunkIds: set<int>, text: Normaliser): Parsed<Segment> {
    var f :- ClosedFields(value, SEGMENT_KEYS);
    if f[Id] != Int(index) then Err(SegmentId)
    else
      var references :- ReferencesOf(f[SourceChunkIds], chunkIds);
      var title :- text(f[Title]);
      var coreClaim :- text(f[CoreClaim]);
      var points :- TextList(f[SupportingPoints], 0, None, text);
      var devices :- TextList(f[RhetoricalDevices], 0, None, text);
      var rhythm :- text(f[RhythmNote]);
      var pattern :- text(f[ReusablePattern]);
      var risks :- TextList(f[RiskFlags], 0, None, text);
      Ok(Segment(index, title, references, coreClaim, points, devices, rhythm, pattern, risks))
  }

  function EachSegment(chunkIds: set<int>, text: Normaliser): ElementParser<Segment> {
    (value: Json, index: int) => SegmentOf(value, index, chunkIds, text)
  }

  function AudienceFitOf(value: Json, text: Normaliser): Parsed<AudienceFit> {
    var f :- ClosedFields(value, AUDIENCE_KEYS);
    var fit :- text(f[Fit]);
    if fit !in FITS then Err(AudienceFitValue)
    else
      var audience :- text(f[Audience]);
      var note :- text(f[Note]);
      Ok(AudienceFit(audience, fit, note))
  }

  function EachAudienceFit(text: Normaliser): ElementParser<AudienceFit> {
    (value: Json, index: int) => AudienceFitOf(value, text)
  }

  function SkeletonOf(value: Json, text: Normaliser): Parsed<seq<string>> {
    var f :- ClosedFields(value, TEMPLATE_KEYS);
    TextList(f[Skeleton], 3, Some(7), text)
  }

  predicate AllQuoted(highlights: seq<string>, transcript: string) {
    forall i :: 0 <= i < |highlights| ==> Contains(transcript, highlights[i])
  }

  function SegmentListOf(value: Json, chunkIds: set<int>, text: Normaliser): Parsed<seq<Segment>> {
    var items :- ItemsOf(value);
    if items == [] then Err(NoSegments) else ParseEach(items, 1, EachSegment(chunkIds, text))
  }

  function HighlightsOf(value: Json, transcript: string, text: Normaliser): Parsed<seq<string>> {
    var highlights :- TextList(value, 0, Some(8), text);
    if AllQuoted(highlights, transcript) then Ok(highlights) else Err(HighlightProvenance)
  }

  function AudienceOf(value: Json, text: Normaliser): Parsed<seq<AudienceFit>> {
    var items :- ItemsOf(value);
    ParseEach(items, 1, EachAudienceFit(text))
  }

  function SemanticOf(payload: Json, transcript: string, chunkIds: set<int>, text: Normaliser): Parsed<Semantic> {
    var f :- ClosedFields(payload, SEMANTIC_KEYS);
    var narrative :- NarrativeOf(f[OverallNarrative], text);
    var segments :- SegmentListOf(f[Segments], chunkIds, text);
    var highlights :- HighlightsOf(f[Highlights], transcript, text);
    var skeleton :- SkeletonOf(f[ReusableTemplate], text);
    var audience :- AudienceOf(f[AudienceFitKey], text);
    var name :- text(f[ReusableTemplate].fields[Name]);
    var strengths :- TextList(f[Strengths], 0, Some(6), text);
    var weaknesses :- TextList(f[Weaknesses], 0, Some(6), text);
    Ok(Semantic(narrative, segments, highlights, Template(name, skeleton), audience, strengths, weaknesses))
  }

  datatype Rejection = UnknownSourceKind | InvalidAnswer(category: ValidationCategory) | InvalidSaved(fault: Fault)

  function ProvenanceOf(c: Chunk): SourceChunk {
    SourceChunk(c.id, c.startByte, c.endByte, c.sha256)
  }

  function Provenances(chunks: seq<Chunk>): seq<SourceChunk> {
    seq(|chunks|, i requires 0 <= i < |chunks| => ProvenanceOf(chunks[i]))
  }

  function ChunkIds(chunks: seq<Chunk>): set<int> {
    set c | c in chunks :: c.id
  }

  function ParseReport(sha: Digest, payload: Json, transcript: string, chunks: seq<Chunk>, language: Option<string>,
                       kind: SourceKind): Result<Report, Rejection> {
    if kind.OtherKind? then Err(UnknownSourceKind)
    else
      match SemanticOf(payload, transcript, ChunkIds(chunks), TextOf)
      case Err(fault) => Err(InvalidAnswer(CategoryOf(fault)))
      case Ok(semantic) =>
        Ok(Report(kind, sha(transcript), language, Provenances(chunks), semantic))
  }

  // ----- reading a stored report -----

  function StoredLanguage(value: Json): Parsed<Option<string>> {
    match value
    case Null => Ok(None)
    case Str(s) => if Trim(s, IsPySpace) == "" then Err(BadSourceLanguage) else Ok(Some(s))
    case _ => Err(BadSourceLanguage)
  }

  function RootKeys(kind: SourceKind): set<Key> {
    PROVENANCE_KEYS + SourceKeys(kind) + SEMANTIC_KEYS
  }

  function ParsePersisted(sha: Digest, root: Json, transcript: string, kind: SourceKind): Result<Report, Rejection> {
    if !HasKeys(root, RootKeys(kind)) then Err(InvalidSaved(ClosedObject))
    else if root.fields[SchemaVersion] != Int(SchemaVersionOf(kind)) then Err(InvalidSaved(BadSchemaVersion))
    else
      match StoredLanguage(root.fields[SourceLanguage])
      case Err(fault) => Err(InvalidSaved(fault))
      case Ok(language) =>
        var payload := Obj(map k | k in root.fields && k in SEMANTIC_KEYS :: root.fields[k]);
        match ParseReport(sha, payload, transcript, Split(sha, transcript, MAX_CHUNK_LENGTH), language, kind)
        case Err(UnknownSourceKind) => Err(InvalidSaved(BadSourceKind))
        case Err(rejection) => Err(rejection)
        case Ok(report) => if PyEqual(Print(report), root) then Ok(report) else Err(InvalidSaved(BadProvenance))
  }

  // ----- the loops of the parser -----

  /** The parser's loops over an array: positions are counted from `first`, the first failure is the answer. */
  method ParseItems<T>(items: seq<Json>, first: int, parse: ElementParser<T>) returns (r: Parsed<seq<T>>)
    ensures r == ParseEach(items, first, parse)
  {
    var parsed: seq<T> := [];
    ghost var all := ParseEach(items, first, parse);
    for i := 0 to |items|
      invariant all == Prepend(parsed, ParseEach(items[i..], first + i, parse))
    {
      assert items[i..][0] == items[i] && items[i..][1..] == items[i + 1..];
      match parse(items[i], first + i)
      case Err(fault) => return Err(fault);
      case Ok(value) =>
        PrependAdds(parsed, value, ParseEach(items[i + 1..], first + i + 1, parse));
        parsed := parsed + [value];
    }
    r := Ok(parsed);
  }

  function Prepend<T>(front: seq<T>, rest: Parsed<seq<T>>): (r: Parsed<seq<T>>)
    ensures front == [] ==> r == rest
    ensures rest == Ok([]) ==> r == Ok(front)
  {
    match rest
    case Ok(back) =>
      assert front == [] ==> front + back == back;
      assert back == [] ==> front + back == front;
      Ok(front + back)
    case Err(fault) => Err(fault)
  }

  lemma PrependAdds<T>(front: seq<T>, value: T, rest: Parsed<seq<T>>)
    ensures Prepend(front + [value], rest) == Prepend(front, Prepend([value], rest))
  {
    if rest.Ok? {
      assert front + [value] + rest.value == front + ([value] + rest.value);
    }
  }

  method ParseSegments(value: Json, chunkIds: set<int>, text: Normaliser) returns (r: Parsed<seq<Segment>>)
    ensures r == SegmentListOf(value, chunkIds, text)
  {
    var items :- ItemsOf(value);
    if items == [] {
      return Err(NoSegments);
    }
    r := ParseItems(items, 1, EachSegment(chunkIds, text));
  }

  method ParseAudienceFit(value: Json, text: Normaliser) returns (r: Parsed<seq<AudienceFit>>)
    ensures r == AudienceOf(value, text)
  {
    var items :- ItemsOf(value);
    r := ParseItems(items, 1, EachAudienceFit(text));
  }

  method ParseSemanticReport(payload: Json, transcript: string, chunkIds: set<int>, text: Normaliser)
    returns (r: Parsed<Semantic>)
    ensures r == SemanticOf(payload, transcript, chunkIds, text)
  {
    var f :- ClosedFields(payload, SEMANTIC_KEYS);
    var narrative :- NarrativeOf(f[OverallNarrative], text);
    var segments :- ParseSegments(f[Segments], chunkIds, text);
    var highlights :- HighlightsOf(f[Highlights], transcript, text);
    var skeleton :- SkeletonOf(f[ReusableTemplate], text);
    var audience :- ParseAudienceFit(f[AudienceFitKey], text);
    var name :- text(f[ReusableTemplate].fields[Name]);
    var strengths :- TextList(f[Strengths], 0, Some(6), text);
    var weaknesses :- TextList(f[Weaknesses], 0, Some(6), text);
    return Ok(Semantic(narrative, segments, highlights, Template(name, skeleton), audience, strengths, weaknesses));
  }
}
