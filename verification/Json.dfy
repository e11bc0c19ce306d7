/** JSON values as the worker's parser yields them, with the two equalities that matter: identity, and Python's `==`,
    which lets booleans and floats stand for integers. */
module Json {
  import opened Text

  /** The object keys of a dissection report, or some other key. */
  datatype Key =
    | SchemaVersion | SourceKindKey | SourceTextSha256 | SourceTranscriptSha256 | SourceLanguage | SourceChunks
    | OverallNarrative | Segments | Highlights | ReusableTemplate | AudienceFitKey | Strengths | Weaknesses
    | Id | StartByte | EndByte | Sha256
    | OpeningHook | StructureType | TurningPoint | ClosingType
    | Title | SourceChunkIds | CoreClaim | SupportingPoints | RhetoricalDevices | RhythmNote | ReusablePattern
    | RiskFlags
    | Name | Skeleton
    | Audience | Fit | Note
    | OtherKey(name: string)

  datatype Json =
    | Null
    | Bool(b: bool)
    | Int(n: int)
    | Float(x: real)
    | Str(s: string)
    | Arr(items: seq<Json>)
    | Obj(fields: map<Key, Json>)

  /** The number a Python comparison sees; `True` and `False` are numbers to it. */
  function PyNumber(j: Json): Option<real> {
    match j
    case Bool(b) => Some(if b then 1.0 else 0.0)
    case Int(n) => Some(n as real)
    case Float(x) => Some(x)
    case _ => None
  }

  /** Python's `==` on parsed JSON. */
  predicate PyEqual(a: Json, b: Json) {
    match a
    case Null => b.Null?
    case Bool(_) => PyNumber(a) == PyNumber(b)
    case Int(_) => PyNumber(a) == PyNumber(b)
    case Float(_) => PyNumber(a) == PyNumber(b)
    case Str(s) => b == Str(s)
    case Arr(items) =>
      b.Arr? && |items| == |b.items| && forall i :: 0 <= i < |items| ==> PyEqual(items[i], b.items[i])
    case Obj(fields) =>
      b.Obj? && fields.Keys == b.fields.Keys && forall k :: k in fields ==> PyEqual(fields[k], b.fields[k])
  }

  /** No boolean and no float anywhere. */
  predicate Exact(j: Json) {
    match j
    case Null => true
    case Bool(_) => false
    case Int(_) => true
    case Float(_) => false
    case Str(_) => true
    case Arr(items) => forall i :: 0 <= i < |items| ==> Exact(items[i])
    case Obj(fields) => forall k :: k in fields ==> Exact(fields[k])
  }

  lemma {:induction false} PyEqualIsReflexive(a: Json)
    ensures PyEqual(a, a)
  {
    match a
    case Arr(items) =>
      forall i | 0 <= i < |items|
        ensures PyEqual(items[i], items[i])
      {
        PyEqualIsReflexive(items[i]);
      }
    case Obj(fields) =>
      forall k | k in fields
        ensures PyEqual(fields[k], fields[k])
      {
        PyEqualIsReflexive(fields[k]);
      }
    case _ =>
  }

  /** Without booleans and floats, Python's equality is identity. */
  lemma {:induction false} ExactEqualityIsIdentity(a: Json, b: Json)
    requires Exact(a) && Exact(b) && PyEqual(a, b)
    ensures a == b
  {
    match a
    case Arr(items) =>
      forall i | 0 <= i < |items|
        ensures items[i] == b.items[i]
      {
        ExactEqualityIsIdentity(items[i], b.items[i]);
      }
    case Obj(fields) =>
      forall k | k in fields
        ensures fields[k] == b.fields[k]
      {
        ExactEqualityIsIdentity(fields[k], b.fields[k]);
      }
    case _ =>
  }

  // ----- shapes the parsers ask for -----

  predicate HasKeys(j: Json, keys: set<Key>) {
    j.Obj? && j.fields.Keys == keys
  }
}
