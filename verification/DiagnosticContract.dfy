/** The contract the worker and the desktop share for diagnostic events, as a table of its own, and that the worker's
    validator is exactly it. */
module DiagnosticContract {
  import opened Text
  import opened Diagnostics

  const PHASES: seq<string> := [
    "preparing", "primary_model", "vad_model", "bpe_model", "archive_download", "archive_validate", "cache_validate",
    "cache_promote"]

  const NETWORK_CODES: seq<string> := ["dns_resolution_failed", "connection_timeout", "connection_failed"]
  const TLS_CODES: seq<string> := ["tls_verification_failed", "tls_handshake_failed"]
  const PROXY_CODES: seq<string> := ["proxy_configuration_failed", "proxy_connection_failed"]
  const FILESYSTEM_CODES: seq<string> := ["permission_denied", "disk_full", "filesystem_io_failed"]
  const INTEGRITY_CODES: seq<string> := ["checksum_mismatch", "archive_invalid", "cache_invalid"]

  /** The codes the contract lists under each category. */
  predicate IsListed(category: string, code: string) {
    || (category == "network" && code in NETWORK_CODES)
    || (category == "tls" && code in TLS_CODES)
    || (category == "proxy" && code in PROXY_CODES)
    || (category == "http" && code == "http_status_failed")
    || (category == "filesystem" && code in FILESYSTEM_CODES)
    || (category == "integrity" && code in INTEGRITY_CODES)
    || (category == "dependency" && code == "dependency_unavailable")
    || (category == "unexpected" && code == "unexpected_failure")
  }

  /** The pattern of an exception's class name. */
  ghost predicate FitsNamePattern(name: string) {
    exists first: char, rest: string ::
      name == [first] + rest && IsLetter(first) && |rest| <= 79 && AllOf(rest, IsNameChar)
  }

  predicate IsNameChar(c: char) {
    IsAlnum(c) || c == '_'
  }

  /** The required fields are there, and no unknown ones. */
  predicate HasFields(keys: set<Field>) {
    && Version in keys && Operation in keys && Phase in keys && CategoryField in keys && CodeField in keys
    && forall k :: k in keys ==> !k.OtherField?
  }

  /** What the contract admits of an event's details under a category and code. */
  ghost predicate AdmitsDetails(value: map<Field, Value>, category: string, code: string) {
    && (ExceptionType in value ==> value[ExceptionType].Text? && FitsNamePattern(value[ExceptionType].text))
    && (HttpStatusField in value ==>
          && value[HttpStatusField].Number? && 100 <= value[HttpStatusField].n <= 599
          && category == "http" && code == "http_status_failed")
    && (OsErrorCodeField in value ==>
          && value[OsErrorCodeField].Number? && -2147483648 <= value[OsErrorCodeField].n <= 2147483647
          && (category == "network" || category == "filesystem"))
  }

  /** What the contract's schema admits: the fields, and each as its own schema says. */
  ghost predicate Admits(value: map<Field, Value>) {
    && HasFields(value.Keys)
    && value[Version] == Number(1) && value[Operation] == Text("download_asr_model")
    && value[Phase].Text? && value[Phase].text in PHASES
    && value[CategoryField].Text? && value[CodeField].Text?
    && IsListed(value[CategoryField].text, value[CodeField].text)
    && AdmitsDetails(value, value[CategoryField].text, value[CodeField].text)
  }

  lemma SpelledIsListed(c: Code)
    ensures IsListed(SpellCategory(CategoryOf(c)), SpellCode(c))
  {
  }

  lemma ListedIsSpelled(category: string, code: string) returns (c: Code)
    requires IsListed(category, code)
    ensures SpellCode(c) == code && SpellCategory(CategoryOf(c)) == category
  {
    if category == "network" {
      c := if code == NETWORK_CODES[0] then DnsResolutionFailed else if code == NETWORK_CODES[1] then ConnectionTimeout
           else ConnectionFailed;
    } else if category == "tls" {
      c := if code == TLS_CODES[0] then TlsVerificationFailed else TlsHandshakeFailed;
    } else if category == "proxy" {
      c := if code == PROXY_CODES[0] then ProxyConfigurationFailed else ProxyConnectionFailed;
    } else if category == "http" {
      c := HttpStatusFailed;
    } else if category == "filesystem" {
      c := if code == FILESYSTEM_CODES[0] then PermissionDenied else if code == FILESYSTEM_CODES[1] then DiskFull
           else FilesystemIoFailed;
    } else if category == "integrity" {
      c := if code == INTEGRITY_CODES[0] then ChecksumMismatch else if code == INTEGRITY_CODES[1] then ArchiveInvalid
           else CacheInvalid;
    } else if category == "dependency" {
      c := DependencyUnavailable;
    } else {
      c := UnexpectedFailure;
    }
  }

  /** The worker's table of codes is the contract's. */
  lemma TablesAgree(category: string, code: string)
    ensures IsCodeOf(code, category) <==> IsListed(category, code)
    ensures IsListed(category, code) ==> IsCategory(category)
  {
    if IsListed(category, code) {
      var c := ListedIsSpelled(category, code);
      assert c in CODES && CategoryOf(c) in CATEGORIES;
    }
    forall c: Code
      ensures IsListed(SpellCategory(CategoryOf(c)), SpellCode(c))
    {
      SpelledIsListed(c);
    }
  }

  lemma NamePatternIff(name: string)
    ensures IsExceptionType(name) <==> FitsNamePattern(name)
  {
    if name != "" {
      var rest := name[1..];
      assert name == [name[0]] + rest;
      assert forall i :: 0 < i < |name| ==> name[i] == rest[i - 1];
      if FitsNamePattern(name) {
        var first: char, others: string :|
          name == [first] + others && IsLetter(first) && |others| <= 79 && AllOf(others, IsNameChar);
        assert others == ([first] + others)[1..] == rest;
      }
    }
  }

  lemma UnknownFieldIff(keys: set<Field>)
    ensures keys <= REQUIRED_FIELDS + OPTIONAL_FIELDS <==> forall k :: k in keys ==> !k.OtherField?
  {
    if forall k :: k in keys ==> !k.OtherField? {
      forall k | k in keys
        ensures k in REQUIRED_FIELDS + OPTIONAL_FIELDS
      {
      }
    }
    if keys <= REQUIRED_FIELDS + OPTIONAL_FIELDS {
      forall k | k in keys
        ensures !k.OtherField?
      {
        assert k in REQUIRED_FIELDS + OPTIONAL_FIELDS;
      }
    }
  }

  lemma FieldsIff(keys: set<Field>)
    ensures HasFields(keys) <==> REQUIRED_FIELDS <= keys && keys <= REQUIRED_FIELDS + OPTIONAL_FIELDS
  {
    UnknownFieldIff(keys);
  }

  /** The validator's checks of the details. */
  predicate DetailsPass(value: map<Field, Value>, category: string, code: string) {
    && (ExceptionType in value ==> TextIn(value[ExceptionType], IsExceptionType))
    && (HttpStatusField in value ==> IsHttpStatus(value[HttpStatusField], category, code))
    && (OsErrorCodeField in value ==> IsOsErrorCode(value[OsErrorCodeField], category))
  }

  lemma DetailsIff(value: map<Field, Value>, category: string, code: string)
    ensures DetailsPass(value, category, code) <==> AdmitsDetails(value, category, code)
  {
    if ExceptionType in value && value[ExceptionType].Text? {
      NamePatternIff(value[ExceptionType].text);
    }
  }

  lemma ValidIff(value: map<Field, Value>)
    ensures Validate(value).Valid? <==>
      && REQUIRED_FIELDS <= value.Keys && value.Keys <= REQUIRED_FIELDS + OPTIONAL_FIELDS
      && value[Version] == Number(1) && value[Operation] == Text(OPERATION)
      && value[Phase].Text? && value[Phase].text in DIAGNOSTIC_PHASES
      && value[CategoryField].Text? && value[CodeField].Text?
      && IsCategory(value[CategoryField].text) && IsCodeOf(value[CodeField].text, value[CategoryField].text)
      && DetailsPass(value, value[CategoryField].text, value[CodeField].text)
  {
  }

  lemma PhasesAgree(phase: string)
    ensures phase in DIAGNOSTIC_PHASES <==> phase in PHASES
  {
  }

  /** The validator admits exactly what the contract does. */
  lemma ValidatorMeetsContract(value: map<Field, Value>)
    ensures Validate(value).Valid? <==> Admits(value)
  {
    ValidIff(value);
    FieldsIff(value.Keys);
    if HasFields(value.Keys) && value[CategoryField].Text? && value[CodeField].Text? && value[Phase].Text? {
      var category, code := value[CategoryField].text, value[CodeField].text;
      PhasesAgree(value[Phase].text);
      TablesAgree(category, code);
      DetailsIff(value, category, code);
    }
  }

  // ----- what a refusal names -----

  predicate NamesCategory(category: string) {
    || category == "network" || category == "tls" || category == "proxy" || category == "http"
    || category == "filesystem" || category == "integrity" || category == "dependency" || category == "unexpected"
  }

  /** The first of the contract's requirements, in the order of its fields, that is not met. */
  ghost function FirstUnmet(value: map<Field, Value>): Option<ValidationError> {
    if exists k :: k in value && k.OtherField? then Some(UnknownField)
    else if !HasFields(value.Keys) then Some(MissingField)
    else if value[Version] != Number(1) then Some(InvalidVersion)
    else if value[Operation] != Text("download_asr_model") then Some(InvalidOperation)
    else if !value[Phase].Text? || value[Phase].text !in PHASES then Some(InvalidPhase)
    else if !value[CategoryField].Text? || !NamesCategory(value[CategoryField].text) then Some(InvalidCategory)
    else if !value[CodeField].Text? || !IsListed(value[CategoryField].text, value[CodeField].text) then
      Some(InvalidCode)
    else FirstBadDetail(value, value[CategoryField].text, value[CodeField].text)
  }

  ghost function FirstBadDetail(value: map<Field, Value>, category: string, code: string): Option<ValidationError> {
    if ExceptionType in value && !(value[ExceptionType].Text? && FitsNamePattern(value[ExceptionType].text)) then
      Some(InvalidExceptionType)
    else if HttpStatusField in value
            && !AdmitsDetails(map[HttpStatusField := value[HttpStatusField]], category, code) then
      Some(InvalidHttpStatus)
    else if OsErrorCodeField in value
            && !AdmitsDetails(map[OsErrorCodeField := value[OsErrorCodeField]], category, code) then
      Some(InvalidOsErrorCode)
    else None
  }

  lemma CategoriesAgree(category: string)
    ensures IsCategory(category) <==> NamesCategory(category)
  {
    if NamesCategory(category) {
      var c := if category == "network" then Network else if category == "tls" then Tls
               else if category == "proxy" then Proxy else if category == "http" then Http
               else if category == "filesystem" then Filesystem else if category == "integrity" then Integrity
               else if category == "dependency" then Dependency else Unexpected;
      assert c in CATEGORIES && SpellCategory(c) == category;
    }
  }

  lemma BadDetailIs(value: map<Field, Value>, category: string, code: string)
    ensures FirstBadDetail(value, category, code) ==
      if ExceptionType in value && !TextIn(value[ExceptionType], IsExceptionType) then Some(InvalidExceptionType)
      else if HttpStatusField in value && !IsHttpStatus(value[HttpStatusField], category, code) then
        Some(InvalidHttpStatus)
      else if OsErrorCodeField in value && !IsOsErrorCode(value[OsErrorCodeField], category) then
        Some(InvalidOsErrorCode)
      else None
  {
    if ExceptionType in value && value[ExceptionType].Text? {
      NamePatternIff(value[ExceptionType].text);
    }
  }

  /** A refusal names the first requirement that is not met; without any, the event is returned unchanged. */
  lemma RefusalNamesFirstUnmet(value: map<Field, Value>)
    ensures Validate(value) == if FirstUnmet(value).None? then Valid(value) else Invalid(FirstUnmet(value).value)
  {
    UnknownFieldIff(value.Keys);
    FieldsIff(value.Keys);
    if HasFields(value.Keys) && value[Phase].Text? && value[CategoryField].Text? {
      var category := value[CategoryField].text;
      PhasesAgree(value[Phase].text);
      CategoriesAgree(category);
      if value[CodeField].Text? {
        TablesAgree(category, value[CodeField].text);
        BadDetailIs(value, category, value[CodeField].text);
      }
    }
    if Validate(value).Valid? {
      ValidatorIsClosed(value);
    }
  }
}
