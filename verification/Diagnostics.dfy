/** Classification of a model download failure into a closed diagnostic event, and the validator that admits one. */
module Diagnostics {
  import opened Text
  import opened ExceptionWalk

  const DIAGNOSTIC_PHASES: seq<string> := [
    "preparing", "primary_model", "vad_model", "bpe_model",
    "archive_download", "archive_validate", "cache_validate", "cache_promote"]

  const ARCHIVE_INVALID_ERROR_CODE := "ASR_MODEL_ARCHIVE_INVALID"
  const OS_ERROR_CODE_MINIMUM := -0x8000_0000
  const OS_ERROR_CODE_MAXIMUM := 0x7FFF_FFFF
  const EACCES := 13
  const EPERM := 1
  const ENOSPC := 28

  const TIMEOUT_EXCEPTION_NAMES: seq<string> := [
    "ConnectTimeout", "ConnectionTimeout", "ReadTimeout", "ReadTimeoutError", "SocketTimeout", "Timeout",
    "TimeoutError"]
  const CONNECTION_EXCEPTION_NAMES: seq<string> := [
    "ConnectError", "ConnectionError", "MaxRetryError", "NetworkError", "NewConnectionError", "ProtocolError",
    "RemoteDisconnected"]
  const PROXY_CONFIGURATION_EXCEPTION_NAMES: seq<string> := ["InvalidProxyURL", "ProxyConfigurationError"]
  const PROXY_CONNECTION_EXCEPTION_NAMES: seq<string> := ["ProxyConnectionError", "ProxyError"]

  datatype Category = Network | Tls | Proxy | Http | Filesystem | Integrity | Dependency | Unexpected

  datatype Code =
    | DnsResolutionFailed | ConnectionTimeout | ConnectionFailed
    | TlsVerificationFailed | TlsHandshakeFailed
    | ProxyConfigurationFailed | ProxyConnectionFailed
    | HttpStatusFailed
    | PermissionDenied | DiskFull | FilesystemIoFailed
    | ChecksumMismatch | ArchiveInvalid | CacheInvalid
    | DependencyUnavailable
    | UnexpectedFailure

  /** The category a code belongs to. */
  function CategoryOf(code: Code): Category {
    match code
    case DnsResolutionFailed | ConnectionTimeout | ConnectionFailed => Network
    case TlsVerificationFailed | TlsHandshakeFailed => Tls
    case ProxyConfigurationFailed | ProxyConnectionFailed => Proxy
    case HttpStatusFailed => Http
    case PermissionDenied | DiskFull | FilesystemIoFailed => Filesystem
    case ChecksumMismatch | ArchiveInvalid | CacheInvalid => Integrity
    case DependencyUnavailable => Dependency
    case UnexpectedFailure => Unexpected
  }

  function SpellCategory(c: Category): string {
    match c
    case Network => "network"
    case Tls => "tls"
    case Proxy => "proxy"
    case Http => "http"
    case Filesystem => "filesystem"
    case Integrity => "integrity"
    case Dependency => "dependency"
    case Unexpected => "unexpected"
  }

  function SpellCode(c: Code): string {
    match c
    case DnsResolutionFailed => "dns_resolution_failed"
    case ConnectionTimeout => "connection_timeout"
    case ConnectionFailed => "connection_failed"
    case TlsVerificationFailed => "tls_verification_failed"
    case TlsHandshakeFailed => "tls_handshake_failed"
    case ProxyConfigurationFailed => "proxy_configuration_failed"
    case ProxyConnectionFailed => "proxy_connection_failed"
    case HttpStatusFailed => "http_status_failed"
    case PermissionDenied => "permission_denied"
    case DiskFull => "disk_full"
    case FilesystemIoFailed => "filesystem_io_failed"
    case ChecksumMismatch => "checksum_mismatch"
    case ArchiveInvalid => "archive_invalid"
    case CacheInvalid => "cache_invalid"
    case DependencyUnavailable => "dependency_unavailable"
    case UnexpectedFailure => "unexpected_failure"
  }

  const CATEGORIES: seq<Category> := [Network, Tls, Proxy, Http, Filesystem, Integrity, Dependency, Unexpected]

  const CODES: seq<Code> := [
    DnsResolutionFailed, ConnectionTimeout, ConnectionFailed, TlsVerificationFailed, TlsHandshakeFailed,
    ProxyConfigurationFailed, ProxyConnectionFailed, HttpStatusFailed, PermissionDenied, DiskFull, FilesystemIoFailed,
    ChecksumMismatch, ArchiveInvalid, CacheInvalid, DependencyUnavailable, UnexpectedFailure]

  /** The text spells a category. */
  predicate IsCategory(text: string) {
    exists c :: c in CATEGORIES && SpellCategory(c) == text
  }

  /** The text spells a code of the category the other text spells. */
  predicate IsCodeOf(text: string, category: string) {
    exists c :: c in CODES && SpellCode(c) == text && SpellCategory(CategoryOf(c)) == category
  }

  datatype DiagnosticEvent = Event(
    phase: string,
    code: Code,
    exceptionType: Option<string>,
    httpStatus: Option<int>,
    osErrorCode: Option<int>)

  // ----- classification -----

  datatype Classification = Classified(code: Code, httpStatus: Option<int>, osErrorCode: Option<int>)

  function Bounded(a: Attribute, minimum: int, maximum: int): (r: Option<int>)
    ensures r.Some? ==> minimum <= r.value <= maximum
  {
    if a.Integer? && minimum <= a.n <= maximum then Some(a.n) else None
  }

  function OsErrorCode(e: Exception): (r: Option<int>)
    ensures r.Some? ==> OS_ERROR_CODE_MINIMUM <= r.value <= OS_ERROR_CODE_MAXIMUM
  {
    Bounded(e.errno, OS_ERROR_CODE_MINIMUM, OS_ERROR_CODE_MAXIMUM)
  }

  function HttpStatus(e: Exception): (r: Option<int>)
    ensures r.Some? ==> 100 <= r.value <= 599
  {
    var code := Bounded(e.code, 100, 599);
    if code.Some? then code else Bounded(e.status, 100, 599)
  }

  function Classify(e: Exception): Option<Classification> {
    var os := OsErrorCode(e);
    if ModelDownloadError in e.bases && e.code == Message(ARCHIVE_INVALID_ERROR_CODE) then
      Some(Classified(ArchiveInvalid, None, None))
    else if HTTPError in e.bases && HttpStatus(e).Some? then
      Some(Classified(HttpStatusFailed, HttpStatus(e), None))
    else if URLError in e.bases && e.reason.Exception? then None
    else if e.name in PROXY_CONFIGURATION_EXCEPTION_NAMES then
      Some(Classified(ProxyConfigurationFailed, None, None))
    else if e.name in PROXY_CONNECTION_EXCEPTION_NAMES then
      Some(Classified(ProxyConnectionFailed, None, None))
    else if SSLCertVerificationError in e.bases then Some(Classified(TlsVerificationFailed, None, None))
    else if SSLError in e.bases || Contains(e.name, "SSL") || Contains(e.name, "TLS") then
      Some(Classified(TlsHandshakeFailed, None, None))
    else if GaiError in e.bases then Some(Classified(DnsResolutionFailed, None, os))
    else if TimeoutError in e.bases || e.name in TIMEOUT_EXCEPTION_NAMES then
      Some(Classified(ConnectionTimeout, None, os))
    else if ConnectionError in e.bases || URLError in e.bases || e.name in CONNECTION_EXCEPTION_NAMES then
      Some(Classified(ConnectionFailed, None, os))
    else if ImportError in e.bases then Some(Classified(DependencyUnavailable, None, None))
    else if OSError in e.bases then
      if PermissionError in e.bases || os in {Some(EACCES), Some(EPERM)} then
        Some(Classified(PermissionDenied, None, os))
      else if os == Some(ENOSPC) then Some(Classified(DiskFull, None, os))
      else Some(Classified(FilesystemIoFailed, None, os))
    else None
  }

  /** A class name fit to be reported: a letter, then at most 79 letters, digits or underscores. */
  predicate IsExceptionType(name: string) {
    && 1 <= |name| <= 80 && IsLetter(name[0])
    && forall i :: 0 <= i < |name| ==> IsAlnum(name[i]) || name[i] == '_'
  }

  function EventFor(e: Exception, phase: string, c: Classification): DiagnosticEvent {
    Event(phase, c.code, if IsExceptionType(e.name) then Some(e.name) else None, c.httpStatus, c.osErrorCode)
  }

  const UNEXPECTED := Classified(UnexpectedFailure, None, None)

  /** The classification of the first classifiable exception among the given ones. */
  function ClassifyFirst(h: Heap, candidates: seq<Id>, root: Id, phase: string): DiagnosticEvent {
    if candidates == [] then EventFor(h(root), phase, UNEXPECTED)
    else
      var c := Classify(h(candidates[0]));
      if c.Some? then EventFor(h(candidates[0]), phase, c.value) else ClassifyFirst(h, candidates[1..], root, phase)
  }

  method ClassifyModelDownloadException(h: Heap, exception: Id, phase: string) returns (event: DiagnosticEvent)
    ensures event == ClassifyFirst(h, Walk(h, exception), exception, phase)
  {
    var chain := WalkExceptionChain(h, exception);
    for i := 0 to |chain|
      invariant ClassifyFirst(h, chain[i..], exception, phase) == ClassifyFirst(h, chain, exception, phase)
    {
      assert chain[i..][1..] == chain[i + 1..];
      var classification := Classify(h(chain[i]));
      if classification.Some? {
        return EventFor(h(chain[i]), phase, classification.value);
      }
    }
    event := EventFor(h(exception), phase, UNEXPECTED);
  }

  // ----- what each exception is classified as -----

  /** The kinds of exceptions that are told apart, in the order in which they are looked for. */
  datatype Kind =
    | InvalidArchive | HttpAnswer | Wrapper | BadProxy | LostProxy | BadCertificate | TlsFailure | NameLookup | TimedOut
    | LostConnection | MissingModule | Forbidden | FullDisk | FailedIo

  function Rank(kind: Kind): nat {
    match kind
    case InvalidArchive => 0
    case HttpAnswer => 1
    case Wrapper => 2
    case BadProxy => 3
    case LostProxy => 4
    case BadCertificate => 5
    case TlsFailure => 6
    case NameLookup => 7
    case TimedOut => 8
    case LostConnection => 9
    case MissingModule => 10
    case Forbidden => 11
    case FullDisk => 12
    case FailedIo => 13
  }

  predicate IsStatus(a: Attribute) {
    a.Integer? && 100 <= a.n <= 599
  }

  ghost predicate IsA(e: Exception, kind: Kind) {
    match kind
    case InvalidArchive => ModelDownloadError in e.bases && e.code == Message("ASR_MODEL_ARCHIVE_INVALID")
    case HttpAnswer => HTTPError in e.bases && (IsStatus(e.code) || IsStatus(e.status))
    case Wrapper => URLError in e.bases && e.reason.Exception?
    case BadProxy => e.name in PROXY_CONFIGURATION_EXCEPTION_NAMES
    case LostProxy => e.name in PROXY_CONNECTION_EXCEPTION_NAMES
    case BadCertificate => SSLCertVerificationError in e.bases
    case TlsFailure => SSLError in e.bases || Contains(e.name, "SSL") || Contains(e.name, "TLS")
    case NameLookup => GaiError in e.bases
    case TimedOut => TimeoutError in e.bases || e.name in TIMEOUT_EXCEPTION_NAMES
    case LostConnection =>
      ConnectionError in e.bases || URLError in e.bases || e.name in CONNECTION_EXCEPTION_NAMES
    case MissingModule => ImportError in e.bases
    case Forbidden =>
      OSError in e.bases && (PermissionError in e.bases || e.errno == Integer(13) || e.errno == Integer(1))
    case FullDisk => OSError in e.bases && e.errno == Integer(28)
    case FailedIo => OSError in e.bases
  }

  /** The code of each kind. A wrapper has none: the exception it wraps is on the walk itself. */
  function CodeOfKind(kind: Kind): Code
    requires !kind.Wrapper?
  {
    match kind
    case InvalidArchive => ArchiveInvalid
    case HttpAnswer => HttpStatusFailed
    case BadProxy => ProxyConfigurationFailed
    case LostProxy => ProxyConnectionFailed
    case BadCertificate => TlsVerificationFailed
    case TlsFailure => TlsHandshakeFailed
    case NameLookup => DnsResolutionFailed
    case TimedOut => ConnectionTimeout
    case LostConnection => ConnectionFailed
    case MissingModule => DependencyUnavailable
    case Forbidden => PermissionDenied
    case FullDisk => DiskFull
    case FailedIo => FilesystemIoFailed
  }

  /** The exception is of the kind, and of none looked for earlier. */
  ghost predicate IsFirst(e: Exception, kind: Kind) {
    IsA(e, kind) && forall other :: IsA(e, other) ==> Rank(kind) <= Rank(other)
  }

  predicate HasCode(c: Option<Classification>, code: Code) {
    c.Some? && c.value.code == code
  }

  lemma NoneEarlier(e: Exception, kind: Kind, other: Kind)
    requires !kind.Wrapper? && HasCode(Classify(e), CodeOfKind(kind)) && IsA(e, other)
    ensures IsA(e, kind) && Rank(kind) <= Rank(other)
  {
  }

  /** What is not classified is of no kind, or wraps another and is of no kind looked for before that. */
  lemma UnclassifiedWraps(e: Exception, kind: Kind)
    requires Classify(e).None? && IsA(e, kind)
    ensures IsA(e, Wrapper) && Rank(Wrapper) <= Rank(kind)
  {
  }

  lemma ClassifiedHasKind(e: Exception) returns (kind: Kind)
    requires Classify(e).Some?
    ensures !kind.Wrapper? && HasCode(Classify(e), CodeOfKind(kind))
  {
    kind :| !kind.Wrapper? && CodeOfKind(kind) == Classify(e).value.code;
  }

  lemma RankTells(a: Kind, b: Kind)
    requires Rank(a) == Rank(b)
    ensures a == b
  {
  }

  /** Each code is given exactly to the exceptions of its kind that are of no earlier one. */
  lemma ClassifiedAsIff(e: Exception, kind: Kind)
    requires !kind.Wrapper?
    ensures HasCode(Classify(e), CodeOfKind(kind)) <==> IsFirst(e, kind)
  {
    if HasCode(Classify(e), CodeOfKind(kind)) {
      forall other: Kind | IsA(e, other) || other == kind
        ensures IsA(e, kind) && Rank(kind) <= Rank(other)
      {
        FirstOfItsCode(e, kind, other);
      }
    } else if IsFirst(e, kind) {
      if Classify(e).Some? {
        var given := ClassifiedHasKind(e);
        NoneEarlier(e, given, kind);
        RankTells(given, kind);
      } else {
        UnclassifiedWraps(e, kind);
        RankTells(Wrapper, kind);
      }
    }
  }

  lemma FirstOfItsCode(e: Exception, kind: Kind, other: Kind)
    requires !kind.Wrapper? && HasCode(Classify(e), CodeOfKind(kind))
    ensures IsA(e, kind) && (IsA(e, other) ==> Rank(kind) <= Rank(other))
  {
    if IsA(e, other) {
      NoneEarlier(e, kind, other);
    }
  }

  /** No code is given exactly to what wraps another exception, an archive or HTTP answer apart, and to what is of no
      kind. */
  lemma UnclassifiedIff(e: Exception)
    ensures Classify(e).None? <==> IsFirst(e, Wrapper) || forall kind :: !IsA(e, kind)
  {
    if Classify(e).Some? {
      var given := ClassifiedHasKind(e);
      ClassifiedAsIff(e, given);
      if IsFirst(e, Wrapper) {
        RankTells(given, Wrapper);
      }
    } else if kind :| IsA(e, kind) {
      forall other | IsA(e, other)
        ensures Rank(Wrapper) <= Rank(other)
      {
        UnclassifiedWraps(e, other);
      }
      UnclassifiedWraps(e, kind);
    }
  }

  /** The status is that of an HTTP answer, its code before its status; the error number, where it fits 32 bits, that of
      a network or file system failure. */
  lemma DetailsAre(e: Exception)
    requires Classify(e).Some?
    ensures var c := Classify(e).value;
      && c.httpStatus == (if c.code.HttpStatusFailed? then Some(if IsStatus(e.code) then e.code.n else e.status.n)
                          else None)
      && c.osErrorCode == (if CategoryOf(c.code) in {Network, Filesystem} && e.errno.Integer?
                              && -0x8000_0000 <= e.errno.n < 0x8000_0000 then Some(e.errno.n) else None)
  {
  }

  /** A full disk is told apart from a missing permission: an OSError of no earlier kind, with the one number or the
      other. */
  lemma FileErrorsAre(e: Exception)
    requires e.bases <= {OSError, PermissionError} && OSError in e.bases
    requires forall kind :: Rank(kind) < Rank(Forbidden) ==> !IsA(e, kind)
    ensures HasCode(Classify(e), PermissionDenied) <==>
      PermissionError in e.bases || e.errno == Integer(13) || e.errno == Integer(1)
    ensures HasCode(Classify(e), DiskFull) <==> PermissionError !in e.bases && e.errno == Integer(28)
  {
    ClassifiedAsIff(e, Forbidden);
    ClassifiedAsIff(e, FullDisk);
    assert IsFirst(e, Forbidden) <==> IsA(e, Forbidden);
    assert IsFirst(e, FullDisk) <==> IsA(e, FullDisk) && !IsA(e, Forbidden) by {
      if IsFirst(e, FullDisk) {
        assert IsA(e, Forbidden) ==> Rank(FullDisk) <= Rank(Forbidden);
      }
    }
  }

  lemma PlainNameIsNoProxy(name: string)
    requires name != "" && name[0] == 'O'
    ensures name !in PROXY_CONFIGURATION_EXCEPTION_NAMES && name !in PROXY_CONNECTION_EXCEPTION_NAMES
  {
    assert forall n :: n in PROXY_CONFIGURATION_EXCEPTION_NAMES ==> n[0] == 'I' || n[0] == 'P';
    assert forall n :: n in PROXY_CONNECTION_EXCEPTION_NAMES ==> n[0] == 'P';
  }

  lemma PlainNameIsNoTimeout(name: string)
    requires name != "" && name[0] == 'O'
    ensures name !in TIMEOUT_EXCEPTION_NAMES
  {
    assert forall n :: n in TIMEOUT_EXCEPTION_NAMES ==> n[0] == 'C' || n[0] == 'R' || n[0] == 'S' || n[0] == 'T';
  }

  lemma PlainNameIsNoConnection(name: string)
    requires name != "" && name[0] == 'O'
    ensures name !in CONNECTION_EXCEPTION_NAMES
  {
    assert forall n :: n in CONNECTION_EXCEPTION_NAMES ==>
      n[0] == 'C' || n[0] == 'M' || n[0] == 'N' || n[0] == 'P' || n[0] == 'R';
  }

  lemma NoPieceWithoutItsMark(name: string, piece: string, mark: char)
    requires mark in piece && mark !in name
    ensures !Contains(name, piece)
  {
    var k :| 0 <= k < |piece| && piece[k] == mark;
    forall i | 0 <= i <= |name|
      ensures !OccursAt(name, piece, i)
    {
      if i <= |name| - |piece| {
        assert name[i..i + |piece|][k] == name[i + k];
      }
    }
  }

  lemma PlainNameHasNoTls()
    ensures !Contains("OSError", "SSL") && !Contains("OSError", "TLS")
  {
    assert "SSL"[2] == 'L' && "TLS"[1] == 'L';
    assert 'L' !in "OSError";
    NoPieceWithoutItsMark("OSError", "SSL", 'L');
    NoPieceWithoutItsMark("OSError", "TLS", 'L');
  }

  lemma PlainNameIsNoKind(e: Exception, kind: Kind)
    requires e.name == "OSError" && e.bases == {OSError} && Rank(kind) < Rank(Forbidden)
    ensures !IsA(e, kind)
  {
    assert e.name[0] == 'O';
    PlainNameIsNoProxy(e.name);
    PlainNameIsNoTimeout(e.name);
    PlainNameIsNoConnection(e.name);
    PlainNameHasNoTls();
  }

  /** A full disk is reported as such, with its number, whatever the error is linked to. */
  lemma FullDiskIsReported(h: Heap, root: Id, phase: string)
    requires h(root).name == "OSError" && h(root).bases == {OSError} && h(root).errno == Integer(28)
    ensures ClassifyFirst(h, Walk(h, root), root, phase) == Event(phase, DiskFull, Some("OSError"), None, Some(28))
  {
    forall kind | Rank(kind) < Rank(Forbidden)
      ensures !IsA(h(root), kind)
    {
      PlainNameIsNoKind(h(root), kind);
    }
    FileErrorsAre(h(root));
    DetailsAre(h(root));
    WalkIsSound(h, root);
  }

  // ----- printing and validation -----

  /** The keys of an event dictionary: the eight known ones, or some other. */
  datatype Field =
    | Version | Operation | Phase | CategoryField | CodeField
    | ExceptionType | HttpStatusField | OsErrorCodeField
    | OtherField(name: string)

  /** A value of an event's field, as the validator receives it. */
  datatype Value = Number(n: int) | Text(text: string) | OtherValue

  const OPERATION := "download_asr_model"
  const REQUIRED_FIELDS: set<Field> := {Version, Operation, Phase, CategoryField, CodeField}
  const OPTIONAL_FIELDS: set<Field> := {ExceptionType, HttpStatusField, OsErrorCodeField}

  function ToDict(e: DiagnosticEvent): map<Field, Value> {
    map[Version := Number(1), Operation := Text(OPERATION), Phase := Text(e.phase),
        CategoryField := Text(SpellCategory(CategoryOf(e.code))), CodeField := Text(SpellCode(e.code))]
    + Extras(e)
  }

  /** The fields that are there only when they are known. */
  function Extras(e: DiagnosticEvent): (d: map<Field, Value>)
    ensures d.Keys <= OPTIONAL_FIELDS
  {
    (if e.exceptionType.Some? then map[ExceptionType := Text(e.exceptionType.value)] else map[])
    + (if e.httpStatus.Some? then map[HttpStatusField := Number(e.httpStatus.value)] else map[])
    + (if e.osErrorCode.Some? then map[OsErrorCodeField := Number(e.osErrorCode.value)] else map[])
  }

  datatype ValidationError =
    | UnknownField | MissingField | InvalidVersion | InvalidOperation | InvalidPhase | InvalidCategory | InvalidCode
    | InvalidExceptionType | InvalidHttpStatus | InvalidOsErrorCode

  datatype Validated = Valid(event: map<Field, Value>) | Invalid(error: ValidationError)

  predicate TextIn(v: Value, accepts: string -> bool) {
    v.Text? && accepts(v.text)
  }

  function Validate(value: map<Field, Value>): Validated {
    if !(value.Keys <= REQUIRED_FIELDS + OPTIONAL_FIELDS) then Invalid(UnknownField)
    else if !(REQUIRED_FIELDS <= value.Keys) then Invalid(MissingField)
    else if value[Version] != Number(1) then Invalid(InvalidVersion)
    else if value[Operation] != Text(OPERATION) then Invalid(InvalidOperation)
    else if !value[Phase].Text? || value[Phase].text !in DIAGNOSTIC_PHASES then Invalid(InvalidPhase)
    else if !TextIn(value[CategoryField], IsCategory) then Invalid(InvalidCategory)
    else
      var category := value[CategoryField].text;
      if !TextIn(value[CodeField], text => IsCodeOf(text, category)) then Invalid(InvalidCode)
      else if ExceptionType in value && !TextIn(value[ExceptionType], IsExceptionType) then
        Invalid(InvalidExceptionType)
      else if HttpStatusField in value && !IsHttpStatus(value[HttpStatusField], category, value[CodeField].text) then
        Invalid(InvalidHttpStatus)
      else if OsErrorCodeField in value && !IsOsErrorCode(value[OsErrorCodeField], category) then
        Invalid(InvalidOsErrorCode)
      else Valid(map k | k in value && k in REQUIRED_FIELDS + OPTIONAL_FIELDS :: value[k])
  }

  predicate IsHttpStatus(v: Value, category: string, code: string) {
    v.Number? && 100 <= v.n <= 599 && category == SpellCategory(Http) && code == SpellCode(HttpStatusFailed)
  }

  predicate IsOsErrorCode(v: Value, category: string) {
    && v.Number? && OS_ERROR_CODE_MINIMUM <= v.n <= OS_ERROR_CODE_MAXIMUM
    && (category == SpellCategory(Network) || category == SpellCategory(Filesystem))
  }

  // ----- properties -----

  /** The closed set of events: a known phase, a printable class name, an HTTP status only on an HTTP failure, an OS
      error code only on network and file system failures. */
  predicate Legal(e: DiagnosticEvent) {
    && e.phase in DIAGNOSTIC_PHASES
    && (e.exceptionType.Some? ==> IsExceptionType(e.exceptionType.value))
    && (e.httpStatus.Some? ==> 100 <= e.httpStatus.value <= 599 && e.code == HttpStatusFailed)
    && (e.osErrorCode.Some? ==>
          OS_ERROR_CODE_MINIMUM <= e.osErrorCode.value <= OS_ERROR_CODE_MAXIMUM
          && CategoryOf(e.code) in {Network, Filesystem})
  }

  /** The dictionary holds exactly what the event prints, field by field. */
  ghost predicate Prints(e: DiagnosticEvent, d: map<Field, Value>) {
    && REQUIRED_FIELDS <= d.Keys <= REQUIRED_FIELDS + OPTIONAL_FIELDS
    && d[Version] == Number(1) && d[Operation] == Text(OPERATION) && d[Phase] == Text(e.phase)
    && d[CategoryField] == Text(SpellCategory(CategoryOf(e.code))) && d[CodeField] == Text(SpellCode(e.code))
    && PrintsExtras(e, d)
  }

  ghost predicate PrintsExtras(e: DiagnosticEvent, d: map<Field, Value>) {
    && (if e.exceptionType.None? then ExceptionType !in d
        else ExceptionType in d && d[ExceptionType] == Text(e.exceptionType.value))
    && (if e.httpStatus.None? then HttpStatusField !in d
        else HttpStatusField in d && d[HttpStatusField] == Number(e.httpStatus.value))
    && (if e.osErrorCode.None? then OsErrorCodeField !in d
        else OsErrorCodeField in d && d[OsErrorCodeField] == Number(e.osErrorCode.value))
  }

  lemma ExtrasPrint(e: DiagnosticEvent, d: map<Field, Value>)
    requires forall k :: k in OPTIONAL_FIELDS ==> (k in d <==> k in Extras(e))
    requires forall k :: k in Extras(e) ==> d[k] == Extras(e)[k]
    ensures PrintsExtras(e, d)
  {
  }

  lemma ToDictPrints(e: DiagnosticEvent)
    ensures Prints(e, ToDict(e))
  {
    ExtrasPrint(e, ToDict(e));
  }

  lemma PrintsIsUnique(e: DiagnosticEvent, d: map<Field, Value>, t: map<Field, Value>)
    requires Prints(e, d) && Prints(e, t)
    ensures d == t
  {
    assert forall k :: k in d ==> k in REQUIRED_FIELDS + OPTIONAL_FIELDS;
    assert d.Keys == t.Keys;
  }

  lemma SpelledIsKnown(code: Code)
    ensures IsCategory(SpellCategory(CategoryOf(code)))
    ensures IsCodeOf(SpellCode(code), SpellCategory(CategoryOf(code)))
  {
    assert code in CODES && CategoryOf(code) in CATEGORIES;
  }

  lemma PrintedIsValid(e: DiagnosticEvent, d: map<Field, Value>)
    requires Legal(e) && Prints(e, d)
    ensures Validate(d) == Valid(d)
  {
    SpelledIsKnown(e.code);
    assert (map k | k in d && k in REQUIRED_FIELDS + OPTIONAL_FIELDS :: d[k]) == d;
  }

  lemma LegalIsValid(e: DiagnosticEvent)
    requires Legal(e)
    ensures Validate(ToDict(e)) == Valid(ToDict(e))
  {
    ToDictPrints(e);
    PrintedIsValid(e, ToDict(e));
  }

  /** The spelling of a code's category decides which details the code may carry. */
  lemma DetailsOfCategory(code: Code)
    ensures SpellCategory(CategoryOf(code)) == SpellCategory(Http) ==> code == HttpStatusFailed
    ensures SpellCategory(CategoryOf(code)) == SpellCategory(Network) ==> CategoryOf(code) == Network
    ensures SpellCategory(CategoryOf(code)) == SpellCategory(Filesystem) ==> CategoryOf(code) == Filesystem
  {
  }

  /** The legal event a valid dictionary prints. */
  lemma ValidIsLegal(value: map<Field, Value>) returns (e: DiagnosticEvent)
    requires Validate(value).Valid?
    ensures Legal(e) && Prints(e, value)
  {
    assert IsCodeOf(value[CodeField].text, value[CategoryField].text);
    var code :| code in CODES && SpellCode(code) == value[CodeField].text
      && SpellCategory(CategoryOf(code)) == value[CategoryField].text;
    DetailsOfCategory(code);
    e := Event(value[Phase].text, code,
               if ExceptionType in value then Some(value[ExceptionType].text) else None,
               if HttpStatusField in value then Some(value[HttpStatusField].n) else None,
               if OsErrorCodeField in value then Some(value[OsErrorCodeField].n) else None);
  }

  /** The validator admits exactly the dictionaries that print a legal event, and returns them unchanged. */
  lemma ValidatorIsClosed(value: map<Field, Value>)
    ensures Validate(value).Valid? <==> exists e :: Legal(e) && ToDict(e) == value
    ensures Validate(value).Valid? ==> Validate(value).event == value
  {
    if Validate(value).Valid? {
      var e := ValidIsLegal(value);
      ToDictPrints(e);
      PrintsIsUnique(e, value, ToDict(e));
      LegalIsValid(e);
    }
    if e :| Legal(e) && ToDict(e) == value {
      LegalIsValid(e);
    }
  }

  lemma ClassificationIsLegal(e: Exception, phase: string)
    requires phase in DIAGNOSTIC_PHASES
    ensures Legal(EventFor(e, phase, UNEXPECTED))
    ensures Classify(e).Some? ==> Legal(EventFor(e, phase, Classify(e).value))
  {
  }

  lemma {:induction false} FirstOfCandidates(h: Heap, candidates: seq<Id>, root: Id, phase: string)
    ensures var event := ClassifyFirst(h, candidates, root, phase);
      || (event == EventFor(h(root), phase, UNEXPECTED)
          && forall j :: 0 <= j < |candidates| ==> Classify(h(candidates[j])).None?)
      || exists i :: IsFirstClassified(h, candidates, phase, event, i)
  {
    if candidates != [] && Classify(h(candidates[0])).None? {
      FirstOfCandidates(h, candidates[1..], root, phase);
      var event := ClassifyFirst(h, candidates, root, phase);
      if i :| IsFirstClassified(h, candidates[1..], phase, event, i) {
        assert IsFirstClassified(h, candidates, phase, event, i + 1);
      }
    } else if candidates != [] {
      assert IsFirstClassified(h, candidates, phase, ClassifyFirst(h, candidates, root, phase), 0);
    }
  }

  /** The event is the classification of candidate i, and nothing before it can be classified. */
  ghost predicate IsFirstClassified(h: Heap, candidates: seq<Id>, phase: string, event: DiagnosticEvent, i: int) {
    && 0 <= i < |candidates| && Classify(h(candidates[i])).Some?
    && event == EventFor(h(candidates[i]), phase, Classify(h(candidates[i])).value)
    && forall j :: 0 <= j < i ==> Classify(h(candidates[j])).None?
  }

  /** On every exception graph and in every phase, the reported event passes the separate validator unchanged. */
  lemma ReportedEventIsValid(h: Heap, root: Id, phase: string)
    requires phase in DIAGNOSTIC_PHASES
    ensures var printed := ToDict(ClassifyFirst(h, Walk(h, root), root, phase));
      Validate(printed) == Valid(printed)
  {
    var event := ClassifyFirst(h, Walk(h, root), root, phase);
    FirstOfCandidates(h, Walk(h, root), root, phase);
    ClassificationIsLegal(h(root), phase);
    if i :| IsFirstClassified(h, Walk(h, root), phase, event, i) {
      ClassificationIsLegal(h(Walk(h, root)[i]), phase);
    }
    LegalIsValid(event);
  }

  /** A classifiable exception within k links that is on the walk, or reachable when the walk stops short of its bound,
      is reported as itself or as a classifiable exception that is no further away. */
  lemma ReportsNearestCause(h: Heap, root: Id, phase: string, node: Id, k: nat)
    requires Within(h, root, k, node) && Classify(h(node)).Some?
    requires node in Walk(h, root) || |Walk(h, root)| < MAX_EXCEPTION_CHAIN_DEPTH
    ensures exists i ::
      && IsFirstClassified(h, Walk(h, root), phase, ClassifyFirst(h, Walk(h, root), root, phase), i)
      && Within(h, root, k, Walk(h, root)[i])
  {
    var w := Walk(h, root);
    var event := ClassifyFirst(h, w, root, phase);
    if node !in w {
      assert Reachable(h, root, node);
      ShortWalkIsComplete(h, root);
    }
    var j :| 0 <= j < |w| && w[j] == node;
    FirstOfCandidates(h, w, root, phase);
    var i :| IsFirstClassified(h, w, phase, event, i);
    if i < j {
      WalkVisitsNearestFirst(h, root, i, j, k);
    }
  }
}
