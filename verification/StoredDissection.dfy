/** Stored dissection reports: what is written is read back as itself, and what is accepted is, up to Python's
    equality, what would have been written. */
module StoredDissection {
  import opened Text
  import opened Json
  import opened MarkdownSplitter
  import opened DissectionReport
  import opened DissectionRoundTrip

  /** The reports a successful parse returns over the splitter's chunks. */
  ghost predicate Accepted(sha: Digest, transcript: string, r: Report) {
    var chunks := Split(sha, transcript, MAX_CHUNK_LENGTH);
    && !r.kind.OtherKind? && r.digest == sha(transcript)
    && r.chunks == Provenances(chunks)
    && CleanSemantic(r.semantic, transcript, ChunkIds(chunks), TextOf)
  }

  ghost predicate IsNarrativeText(t: string, n: Narrative) {
    n.openingHook == Some(t) || n.structureType == t || n.turningPoint == Some(t) || n.closingType == Some(t)
  }

  ghost predicate IsSegmentText(t: string, s: Segment) {
    t == s.title || t == s.coreClaim || t == s.rhythmNote || t == s.reusablePattern
    || t in s.supportingPoints || t in s.rhetoricalDevices || t in s.riskFlags
  }

  ghost predicate IsAudienceText(t: string, a: AudienceFit) {
    t == a.audience || t == a.fit || t == a.note
  }

  /** The text stands somewhere in the report. */
  ghost predicate IsTextOf(t: string, s: Semantic) {
    || IsNarrativeText(t, s.narrative) || t == s.template.name || t in s.template.skeleton
    || t in s.highlights || t in s.strengths || t in s.weaknesses
    || (exists i :: 0 <= i < |s.segments| && IsSegmentText(t, s.segments[i]))
    || (exists i :: 0 <= i < |s.audienceFit| && IsAudienceText(t, s.audienceFit[i]))
  }

  lemma PartTextsAreClean(t: string, s: Semantic, transcript: string, ids: set<int>, text: Normaliser)
    requires CleanSemantic(s, transcript, ids, text) && IsTextOf(t, s)
    ensures Clean(t, text)
  {
    if exists i :: 0 <= i < |s.segments| && IsSegmentText(t, s.segments[i]) {
      var i :| 0 <= i < |s.segments| && IsSegmentText(t, s.segments[i]);
      assert CleanSegment(s.segments[i], i + 1, ids, text);
    } else if exists i :: 0 <= i < |s.audienceFit| && IsAudienceText(t, s.audienceFit[i]) {
      var i :| 0 <= i < |s.audienceFit| && IsAudienceText(t, s.audienceFit[i]);
      assert CleanAudienceFit(s.audienceFit[i], text);
    }
  }

  /** No text anywhere in an accepted report is empty or longer than 4000, and in none of them stands a script tag or a
      script address, in whatever letter case. */
  lemma AcceptedTextsAreSafe(sha: Digest, transcript: string, r: Report, t: string)
    requires Accepted(sha, transcript, r) && IsTextOf(t, r.semantic)
    ensures 0 < |t| <= 4000 && HasNoScript(t)
  {
    var chunks := Split(sha, transcript, MAX_CHUNK_LENGTH);
    PartTextsAreClean(t, r.semantic, transcript, ChunkIds(chunks), TextOf);
    TextIsAcceptedIff(Str(t));
  }

  lemma ParsedReportIsAccepted(sha: Digest, payload: Json, transcript: string, language: Option<string>,
                               kind: SourceKind)
    ensures var r := ParseReport(sha, payload, transcript, Split(sha, transcript, MAX_CHUNK_LENGTH), language, kind);
      r.Ok? ==>
        Accepted(sha, transcript, r.value) && r.value.language == language && r.value.kind == kind && Exact(payload)
  {
    var ids := ChunkIds(Split(sha, transcript, MAX_CHUNK_LENGTH));
    TextOfNormalises();
    ParsedSemanticIsClean(payload, transcript, ids, TextOf);
    ParsedSemanticIsExact(payload, transcript, ids, TextOf);
  }

  // ----- the printed object, key by key -----

  lemma SourceFieldsByKey(r: Report)
    ensures ProvenanceFields(r).Keys == PROVENANCE_KEYS && SourceFields(r).Keys == SourceKeys(r.kind)
    ensures PROVENANCE_KEYS !! SourceKeys(r.kind) !! SEMANTIC_KEYS
    ensures ProvenanceFields(r)[SchemaVersion] == Int(SchemaVersionOf(r.kind))
    ensures ProvenanceFields(r)[SourceLanguage] == PrintOptional(r.language)
    ensures ProvenanceFields(r)[SourceChunks] == PrintChunks(r.chunks)
    ensures forall k :: k in SourceFields(r) ==> SourceFields(r)[k].Str?
  {
  }

  lemma UnionByKey(a: map<Key, Json>, b: map<Key, Json>, c: map<Key, Json>)
    requires a.Keys !! b.Keys !! c.Keys
    ensures (a + b + c).Keys == a.Keys + b.Keys + c.Keys
    ensures forall k :: k in a ==> (a + b + c)[k] == a[k]
    ensures forall k :: k in b ==> (a + b + c)[k] == b[k]
    ensures forall k :: k in c ==> (a + b + c)[k] == c[k]
  {
  }

  lemma PrintedByKey(r: Report)
    ensures var f := Print(r).fields;
      && f.Keys == RootKeys(r.kind)
      && f[SchemaVersion] == Int(SchemaVersionOf(r.kind))
      && f[SourceLanguage] == PrintOptional(r.language)
      && f[SourceChunks] == PrintChunks(r.chunks)
      && (forall k :: k in SourceKeys(r.kind) ==> f[k].Str? && f[k] == SourceFields(r)[k])
      && (forall k :: k in SEMANTIC_KEYS ==> k in SemanticFields(r.semantic) && f[k] == SemanticFields(r.semantic)[k])
  {
    SourceFieldsByKey(r);
    SemanticFieldsByKey(r.semantic);
    UnionByKey(ProvenanceFields(r), SourceFields(r), SemanticFields(r.semantic));
  }

  function SemanticPart(fields: map<Key, Json>): Json {
    Obj(map k | k in fields && k in SEMANTIC_KEYS :: fields[k])
  }

  lemma SemanticPartIs(fields: map<Key, Json>, part: map<Key, Json>)
    requires part.Keys == SEMANTIC_KEYS
    requires forall k :: k in SEMANTIC_KEYS ==> k in fields && fields[k] == part[k]
    ensures SemanticPart(fields) == Obj(part)
  {
  }

  lemma PrintedSemanticPart(r: Report)
    ensures SemanticPart(Print(r).fields) == Obj(SemanticFields(r.semantic))
  {
    PrintedByKey(r);
    SemanticFieldsByKey(r.semantic);
    SemanticPartIs(Print(r).fields, SemanticFields(r.semantic));
  }

  // ----- print, then parse -----

  predicate Storable(language: Option<string>) {
    language.Some? ==> Trim(language.value, IsPySpace) != ""
  }

  lemma StorableLanguageReadsBack(language: Option<string>)
    ensures StoredLanguage(PrintOptional(language))
         == if Storable(language) then Ok(language) else Err(BadSourceLanguage)
  {
  }

  lemma AcceptedAnswerReparses(sha: Digest, transcript: string, r: Report)
    requires Accepted(sha, transcript, r)
    ensures ParseReport(sha, Obj(SemanticFields(r.semantic)), transcript, Split(sha, transcript, MAX_CHUNK_LENGTH),
                        r.language, r.kind) == Ok(r)
  {
    CleanSemanticReparses(r.semantic, transcript, ChunkIds(Split(sha, transcript, MAX_CHUNK_LENGTH)), TextOf);
  }

  /** Print then parse is the identity: an accepted report is read back from its own printing as itself exactly when
      its language is absent or not blank; a blank language is the only way to be refused. */
  lemma StoredReportReadsBack(sha: Digest, transcript: string, r: Report)
    requires Accepted(sha, transcript, r)
    ensures ParsePersisted(sha, Print(r), transcript, r.kind)
         == (if Storable(r.language) then Ok(r) else Err(InvalidSaved(BadSourceLanguage)))
  {
    PrintedByKey(r);
    StorableLanguageReadsBack(r.language);
    PrintedSemanticPart(r);
    AcceptedAnswerReparses(sha, transcript, r);
    PyEqualIsReflexive(Print(r));
  }

  // ----- parse, then print -----

  lemma PrintedTextsAreExact(ts: seq<string>)
    ensures Exact(PrintTexts(ts))
  {
  }

  lemma PrintedSegmentIsExact(s: Segment)
    ensures Exact(PrintSegment(s))
  {
  }

  lemma PrintedSemanticIsExact(s: Semantic)
    ensures forall k :: k in SEMANTIC_KEYS ==> k in SemanticFields(s) && Exact(SemanticFields(s)[k])
  {
    SemanticFieldsByKey(s);
    assert Exact(PrintNarrative(s.narrative));
    forall i | 0 <= i < |s.segments| {
      PrintedSegmentIsExact(s.segments[i]);
    }
    assert Exact(PrintSegments(s.segments));
    PrintedTextsAreExact(s.highlights);
    PrintedTextsAreExact(s.template.skeleton);
    assert Exact(PrintTemplate(s.template));
    forall i | 0 <= i < |s.audienceFit|
      ensures Exact(PrintAudienceFit(s.audienceFit[i]))
    {
    }
    assert Exact(PrintAudience(s.audienceFit));
    PrintedTextsAreExact(s.strengths);
    PrintedTextsAreExact(s.weaknesses);
  }

  lemma PrintedChunksAreExact(cs: seq<SourceChunk>)
    ensures Exact(PrintChunks(cs))
  {
  }

  lemma ExactByKey(fields: map<Key, Json>, kind: SourceKind)
    requires fields.Keys == RootKeys(kind)
    requires Exact(fields[SchemaVersion]) && Exact(fields[SourceLanguage]) && Exact(fields[SourceChunks])
    requires forall k :: k in SourceKeys(kind) ==> Exact(fields[k])
    requires forall k :: k in SEMANTIC_KEYS ==> Exact(fields[k])
    ensures Exact(Obj(fields))
  {
  }

  lemma PrintedReportIsExact(r: Report)
    ensures Exact(Print(r))
  {
    PrintedByKey(r);
    PrintedSemanticIsExact(r.semantic);
    PrintedChunksAreExact(r.chunks);
    ExactByKey(Print(r).fields, r.kind);
  }

  /** What an accepted stored object tells. */
  lemma PersistedIsAccepted(sha: Digest, root: Json, transcript: string, kind: SourceKind)
    requires ParsePersisted(sha, root, transcript, kind).Ok?
    ensures var r := ParsePersisted(sha, root, transcript, kind).value;
      && Accepted(sha, transcript, r) && Storable(r.language) && r.kind == kind
      && PyEqual(Print(r), root) && HasKeys(root, RootKeys(kind)) && Exact(SemanticPart(root.fields))
  {
    var language := StoredLanguage(root.fields[SourceLanguage]).value;
    ParsedReportIsAccepted(sha, SemanticPart(root.fields), transcript, language, kind);
  }

  /** A stored object the reader accepts is the canonical printing of the report read, exactly when it holds no boolean
      and no float; the reader compares with Python's equality, to which `true` and `1.0` are `1`. */
  lemma AcceptedObjectIsCanonicalIff(sha: Digest, root: Json, transcript: string, kind: SourceKind)
    ensures var r := ParsePersisted(sha, root, transcript, kind);
      r.Ok? ==> (root == Print(r.value) <==> Exact(root))
  {
    var r := ParsePersisted(sha, root, transcript, kind);
    if r.Ok? {
      PersistedIsAccepted(sha, root, transcript, kind);
      PrintedReportIsExact(r.value);
      if Exact(root) {
        ExactEqualityIsIdentity(Print(r.value), root);
      }
    }
  }

  lemma ExactBesideChunks(printed: map<Key, Json>, fields: map<Key, Json>, kind: SourceKind)
    requires fields.Keys == RootKeys(kind) == printed.Keys
    requires forall k :: k in fields ==> PyEqual(printed[k], fields[k])
    requires forall k :: k in SourceKeys(kind) ==> printed[k].Str?
    requires fields[SchemaVersion].Int? && (fields[SourceLanguage].Null? || fields[SourceLanguage].Str?)
    requires Exact(SemanticPart(fields))
    ensures Exact(Obj(fields)) <==> Exact(fields[SourceChunks])
  {
    forall k | k in SEMANTIC_KEYS
      ensures Exact(fields[k])
    {
      assert SemanticPart(fields).fields[k] == fields[k];
    }
    forall k | k in SourceKeys(kind)
      ensures Exact(fields[k])
    {
      assert PyEqual(printed[k], fields[k]);
    }
    if Exact(fields[SourceChunks]) {
      ExactByKey(fields, kind);
    }
  }

  lemma PersistedComparesEqual(sha: Digest, root: Json, transcript: string, kind: SourceKind)
    requires ParsePersisted(sha, root, transcript, kind).Ok?
    ensures var r := ParsePersisted(sha, root, transcript, kind).value;
      r.kind == kind && PyEqual(Print(r), root) && Exact(SemanticPart(root.fields))
  {
    PersistedIsAccepted(sha, root, transcript, kind);
  }

  lemma AcceptedVariesInChunksOnly(sha: Digest, root: Json, transcript: string, kind: SourceKind)
    requires ParsePersisted(sha, root, transcript, kind).Ok? && HasKeys(root, RootKeys(kind))
    ensures Exact(root) <==> Exact(root.fields[SourceChunks])
  {
    var r := ParsePersisted(sha, root, transcript, kind).value;
    PersistedComparesEqual(sha, root, transcript, kind);
    PrintedByKey(r);
    ExactBesideChunks(Print(r).fields, root.fields, kind);
  }

  /** Only the chunk numbers can depart from the canonical form: everything else in an accepted object is exact. */
  lemma OnlyChunkNumbersVary(sha: Digest, root: Json, transcript: string, kind: SourceKind)
    ensures ParsePersisted(sha, root, transcript, kind).Ok? && HasKeys(root, RootKeys(kind)) ==>
      (Exact(root) <==> Exact(root.fields[SourceChunks]))
    ensures ParsePersisted(sha, root, transcript, kind).Ok? ==> HasKeys(root, RootKeys(kind))
  {
    if ParsePersisted(sha, root, transcript, kind).Ok? {
      PersistedIsAccepted(sha, root, transcript, kind);
      AcceptedVariesInChunksOnly(sha, root, transcript, kind);
    }
  }

  // ----- the departure is real -----

  /** The object with the number of the first chunk replaced by `true`. */
  function WithBooleanId(r: Report): Json
    requires r.chunks != []
  {
    var first := Obj(PrintChunk(r.chunks[0]).fields[Id := Bool(true)]);
    Obj(Print(r).fields[SourceChunks := Arr(PrintChunks(r.chunks).items[0 := first])])
  }

  lemma AcceptedHasChunks(sha: Digest, transcript: string, r: Report)
    requires Accepted(sha, transcript, r)
    ensures r.chunks != [] && r.chunks[0].id == 1
  {
    var chunks := Split(sha, transcript, MAX_CHUNK_LENGTH);
    SplitTiles(sha, transcript, MAX_CHUNK_LENGTH);
    assert CleanSegment(r.semantic.segments[0], 1, ChunkIds(chunks), TextOf);
    var references := r.semantic.segments[0].sourceChunkIds;
    assert references[0] in references;
    assert references[0] in ChunkIds(chunks);
  }

  lemma BooleanChunkIsEqual(c: SourceChunk)
    requires c.id == 1
    ensures var altered := Obj(PrintChunk(c).fields[Id := Bool(true)]);
      PyEqual(PrintChunk(c), altered) && !Exact(altered)
  {
    var altered := Obj(PrintChunk(c).fields[Id := Bool(true)]);
    assert !Exact(altered.fields[Id]);
  }

  lemma AlteredFirstIsEqual(items: seq<Json>, first: Json)
    requires items != [] && PyEqual(items[0], first) && !Exact(first)
    ensures PyEqual(Arr(items), Arr(items[0 := first])) && !Exact(Arr(items[0 := first]))
  {
    forall i | 0 <= i < |items|
      ensures PyEqual(items[i], items[0 := first][i])
    {
      PyEqualIsReflexive(items[i]);
    }
    assert !Exact(items[0 := first][0]);
  }

  lemma AlteredFieldIsEqual(fields: map<Key, Json>, key: Key, value: Json)
    requires key in fields && PyEqual(fields[key], value) && !Exact(value)
    ensures PyEqual(Obj(fields), Obj(fields[key := value])) && !Exact(Obj(fields[key := value]))
  {
    forall k | k in fields
      ensures PyEqual(fields[k], fields[key := value][k])
    {
      PyEqualIsReflexive(fields[k]);
    }
    assert !Exact(fields[key := value][key]);
  }

  lemma BooleanIdIsEqual(r: Report)
    requires r.chunks != [] && r.chunks[0].id == 1
    ensures PyEqual(Print(r), WithBooleanId(r))
    ensures !Exact(WithBooleanId(r))
  {
    PrintedByKey(r);
    var items := PrintChunks(r.chunks).items;
    var first := Obj(PrintChunk(r.chunks[0]).fields[Id := Bool(true)]);
    BooleanChunkIsEqual(r.chunks[0]);
    AlteredFirstIsEqual(items, first);
    AlteredFieldIsEqual(Print(r).fields, SourceChunks, Arr(items[0 := first]));
  }

  lemma SemanticPartIgnores(fields: map<Key, Json>, key: Key, value: Json)
    requires key !in SEMANTIC_KEYS
    ensures SemanticPart(fields[key := value]) == SemanticPart(fields)
  {
    assert SemanticPart(fields[key := value]).fields == SemanticPart(fields).fields;
  }

  /** What an object must show to be read as a given report. */
  lemma ReadsWhen(sha: Digest, root: Json, transcript: string, kind: SourceKind, language: Option<string>, r: Report)
    requires HasKeys(root, RootKeys(kind)) && root.fields[SchemaVersion] == Int(SchemaVersionOf(kind))
    requires StoredLanguage(root.fields[SourceLanguage]) == Ok(language)
    requires ParseReport(sha, SemanticPart(root.fields), transcript, Split(sha, transcript, MAX_CHUNK_LENGTH), language,
                         kind) == Ok(r)
    requires PyEqual(Print(r), root)
    ensures ParsePersisted(sha, root, transcript, kind) == Ok(r)
  {
  }

  lemma WithOtherChunks(fields: map<Key, Json>, chunks: Json, kind: SourceKind)
    requires fields.Keys == RootKeys(kind)
    ensures var altered := fields[SourceChunks := chunks];
      && altered.Keys == RootKeys(kind) && SemanticPart(altered) == SemanticPart(fields)
      && altered[SchemaVersion] == fields[SchemaVersion] && altered[SourceLanguage] == fields[SourceLanguage]
  {
    SemanticPartIgnores(fields, SourceChunks, chunks);
  }

  /** Reading depends on the chunk list only through the final comparison. */
  lemma ReadsWithOtherChunks(sha: Digest, transcript: string, r: Report, fields: map<Key, Json>, chunks: Json)
    requires Accepted(sha, transcript, r) && Storable(r.language)
    requires fields == Print(r).fields && PyEqual(Print(r), Obj(fields[SourceChunks := chunks]))
    ensures ParsePersisted(sha, Obj(fields[SourceChunks := chunks]), transcript, r.kind) == Ok(r)
  {
    PrintedByKey(r);
    WithOtherChunks(fields, chunks, r.kind);
    StorableLanguageReadsBack(r.language);
    PrintedSemanticPart(r);
    AcceptedAnswerReparses(sha, transcript, r);
    ReadsWhen(sha, Obj(fields[SourceChunks := chunks]), transcript, r.kind, r.language, r);
  }

  /** Every stored report has a non-canonical twin that is accepted as the same report. */
  lemma BooleanTwinIsAccepted(sha: Digest, transcript: string, r: Report)
    requires Accepted(sha, transcript, r) && Storable(r.language)
    ensures r.chunks != [] && WithBooleanId(r) != Print(r)
    ensures ParsePersisted(sha, WithBooleanId(r), transcript, r.kind) == Ok(r)
  {
    AcceptedHasChunks(sha, transcript, r);
    BooleanIdIsEqual(r);
    PrintedReportIsExact(r);
    ReadsWithOtherChunks(sha, transcript, r, Print(r).fields, WithBooleanId(r).fields[SourceChunks]);
  }

  // ----- accepted reports exist -----

  lemma ShortTextIsClean(t: string)
    requires 0 < |t| < 7 && forall i :: 0 <= i < |t| ==> IsLetter(t[i])
    ensures Clean(t, TextOf)
  {
  }

  function SmallestSemantic(t: string, fit: string): Semantic {
    Semantic(Narrative(None, t, None, None), [Segment(1, t, [1], t, [], [], t, t, [])], [], Template(t, [t, t, t]),
             [AudienceFit(t, fit, t)], [], [])
  }

  function SmallestReport(sha: Digest, transcript: string, fit: string): Report {
    Report(Transcript, sha(transcript), None, Provenances(Split(sha, transcript, MAX_CHUNK_LENGTH)),
           SmallestSemantic(transcript, fit))
  }

  lemma SmallestIsClean(t: string, fit: string, ids: set<int>, text: Normaliser)
    requires Clean(t, text) && Clean(fit, text) && fit in FITS && 1 in ids
    ensures CleanSemantic(SmallestSemantic(t, fit), t, ids, text)
  {
  }

  lemma FirstChunkIsOne(sha: Digest, transcript: string)
    requires transcript != ""
    ensures 1 in ChunkIds(Split(sha, transcript, MAX_CHUNK_LENGTH))
  {
  }

  /** Any clean text, standing for every text of the smallest report, makes an accepted one. */
  lemma SmallestReportIsAccepted(sha: Digest, transcript: string)
    requires Clean(transcript, TextOf)
    ensures Accepted(sha, transcript, SmallestReport(sha, transcript, "low"))
  {
    ShortTextIsClean("low");
    FirstChunkIsOne(sha, transcript);
    SmallestIsClean(transcript, "low", ChunkIds(Split(sha, transcript, MAX_CHUNK_LENGTH)), TextOf);
  }
}
