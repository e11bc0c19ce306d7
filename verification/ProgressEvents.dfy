/** Progress events on the wire: the file name sanitiser, the language tag normaliser, and the worker's and the
    desktop's validators of what they produce. */
module ProgressEvents {
  import opened Text

  // ----- file names -----

  const FALLBACK := "model-file"
  const MAX_NAME_LENGTH: nat := 255
  const SENSITIVE_WORDS: seq<string> := ["auth", "cookie", "credential", "password", "secret", "token"]
  const SCHEME_MARK := "://"

  predicate IsEndMark(c: char) {
    c == '_' || c == '+' || c == '(' || c == ')' || c == '-'
  }

  predicate IsNameChar(c: char) {
    IsAlnum(c) || IsEndMark(c) || c == '.' || c == ' '
  }

  /** A portable file name, as the worker's and the desktop's patterns both define it: up to 255 letters, digits, spaces
      and the marks `._+()-`, at least one of them a letter or digit, not starting with a space, not ending with a space
      or, beyond one character, a dot. */
  predicate IsPortableBasename(s: string) {
    && 1 <= |s| <= MAX_NAME_LENGTH
    && AllOf(s, IsNameChar)
    && (exists i :: 0 <= i < |s| && IsAlnum(s[i]))
    && s[0] != ' '
    && (|s| > 1 ==> s[|s| - 1] != ' ' && s[|s| - 1] != '.')
  }

  predicate BoundaryAt(s: string, i: int) {
    i < 0 || i >= |s| || !IsAlnum(s[i])
  }

  /** A sensitive word stands in the text, in any letter case, with no letter or digit next to it. */
  predicate IsSensitive(s: string) {
    exists w, i :: w in SENSITIVE_WORDS && 0 <= i <= |s|
      && OccursAt(Lower(s), w, i) && BoundaryAt(s, i - 1) && BoundaryAt(s, i + |w|)
  }

  predicate IsControl(c: char) {
    c <= '\U{1F}' || c == '\U{7F}'
  }

  function WithoutControls(s: string): string {
    if s == "" then ""
    else if IsControl(s[0]) then WithoutControls(s[1..])
    else [s[0]] + WithoutControls(s[1..])
  }

  function Slashed(s: string): (r: string)
    ensures |r| == |s|
    ensures forall i :: 0 <= i < |s| ==> r[i] == if s[i] == '\\' then '/' else s[i]
  {
    seq(|s|, i requires 0 <= i < |s| => if s[i] == '\\' then '/' else s[i])
  }

  /** The text after the last slash. */
  function AfterLastSlash(s: string): string {
    if s == "" then "" else if s[|s| - 1] == '/' then "" else AfterLastSlash(s[..|s| - 1]) + [s[|s| - 1]]
  }

  /** The parts of a URL, as the standard library splits it. */
  datatype Url = Url(
    scheme: string, hostname: Option<string>, username: Option<string>, password: Option<string>, query: string,
    fragment: string, path: string)

  /** URL splitting; None is an exception. Nothing is assumed of it. */
  type UrlSplitter = string -> Option<Url>

  predicate IsPlainUrl(u: Url) {
    && (u.scheme == "http" || u.scheme == "https")
    && u.hostname.Some? && u.username.None? && u.password.None? && u.query == "" && u.fragment == ""
  }

  predicate IsReportable(name: string) {
    IsPortableBasename(name) && '=' !in name && !IsSensitive(name)
  }

  function LastSegment(path: string): string {
    var basename := Trim(AfterLastSlash(Slashed(path)), IsPySpace);
    if IsReportable(basename) then basename else FALLBACK
  }

  function SafeCurrentFileBasename(raw: string, split: UrlSplitter): string {
    var cleaned := Trim(WithoutControls(raw), IsPySpace);
    if cleaned == "" || '?' in cleaned || '#' in cleaned then FALLBACK
    else if Contains(cleaned, SCHEME_MARK) then
      var url := split(cleaned);
      if url.Some? && IsPlainUrl(url.value) then LastSegment(url.value.path) else FALLBACK
    else LastSegment(cleaned)
  }

  predicate StartsSensitive(c: char) {
    c == 'a' || c == 'c' || c == 'p' || c == 's' || c == 't'
  }

  lemma NotSensitive(s: string)
    requires forall i :: 0 <= i < |s| ==> !StartsSensitive(LowerChar(s[i]))
    ensures !IsSensitive(s)
  {
    forall w, i | w in SENSITIVE_WORDS && 0 <= i <= |s|
      ensures !OccursAt(Lower(s), w, i)
    {
      assert |w| >= 4 && StartsSensitive(w[0]);
      if i + |w| <= |s| {
        assert Lower(s)[i..i + |w|][0] == LowerChar(s[i]);
      }
    }
  }

  lemma FallbackIsReportable()
    ensures IsReportable(FALLBACK)
  {
    var s := FALLBACK;
    assert |s| == 10 && s[0] == 'm' && s[9] == 'e';
    assert IsAlnum(s[0]);
    NotSensitive(s);
  }

  lemma NoMark(name: string, c: char)
    requires AllOf(name, IsNameChar) && !IsNameChar(c)
    ensures c !in name
  {
  }

  lemma NoScheme(name: string)
    requires ':' !in name
    ensures !Contains(name, SCHEME_MARK)
  {
    forall i | 0 <= i <= |name|
      ensures !OccursAt(name, SCHEME_MARK, i)
    {
      if i + |SCHEME_MARK| <= |name| {
        assert name[i..i + |SCHEME_MARK|][0] == name[i] && SCHEME_MARK[0] == ':';
      }
    }
  }

  lemma PortableIsTrimmed(name: string)
    requires IsPortableBasename(name)
    ensures Trim(name, IsPySpace) == name
  {
  }

  lemma PortableHasNoControls(name: string)
    requires AllOf(name, IsNameChar)
    ensures WithoutControls(name) == name
  {
  }

  lemma PortableHasNoSlashes(name: string)
    requires AllOf(name, IsNameChar)
    ensures Slashed(name) == name && AfterLastSlash(name) == name
  {
  }

  lemma PortableIsPlain(name: string)
    requires IsPortableBasename(name)
    ensures WithoutControls(name) == name && Trim(name, IsPySpace) == name
    ensures '?' !in name && '#' !in name && !Contains(name, SCHEME_MARK)
    ensures Slashed(name) == name && AfterLastSlash(name) == name
  {
    NoMark(name, '?');
    NoMark(name, '#');
    NoMark(name, ':');
    NoScheme(name);
    PortableHasNoControls(name);
    PortableIsTrimmed(name);
    PortableHasNoSlashes(name);
  }

  /** A reportable name is left exactly as it is. */
  lemma ReportableIsFixed(name: string, split: UrlSplitter)
    requires IsReportable(name)
    ensures SafeCurrentFileBasename(name, split) == name
  {
    PortableIsPlain(name);
  }

  /** For every input and every way of splitting URLs, the sanitised name is portable and reportable, and sanitising it
      again changes nothing. */
  lemma SanitisedNameIsSafe(raw: string, split: UrlSplitter)
    ensures var name := SafeCurrentFileBasename(raw, split);
      IsReportable(name) && SafeCurrentFileBasename(name, split) == name
  {
    FallbackIsReportable();
    ReportableIsFixed(SafeCurrentFileBasename(raw, split), split);
  }

  // ----- language tags -----

  function Dashed(s: string): (r: string)
    ensures |r| == |s|
    ensures forall i :: 0 <= i < |s| ==> r[i] == if s[i] == '_' then '-' else s[i]
  {
    seq(|s|, i requires 0 <= i < |s| => if s[i] == '_' then '-' else s[i])
  }

  function TitledChar(s: string, i: nat): char
    requires i < |s|
  {
    if i == 0 then UpperChar(s[i]) else LowerChar(s[i])
  }

  function Titled(s: string): (r: string)
    ensures |r| == |s|
    ensures forall i :: 0 <= i < |s| ==> r[i] == TitledChar(s, i)
  {
    seq(|s|, i requires 0 <= i < |s| => TitledChar(s, i))
  }

  predicate IsAlpha(s: string) {
    s != "" && AllOf(s, IsLetter)
  }

  predicate FitsTagLength(s: string) {
    2 <= |s| <= 35
  }

  predicate IsScript(part: string) {
    |part| == 4 && IsAlpha(part)
  }

  /** A region, in canonical case: two letters, or three digits. */
  function Region(part: string): Option<string> {
    if |part| == 2 && IsAlpha(part) then Some(Upper(part))
    else if |part| == 3 && AllDigits(part) then Some(part)
    else None
  }

  /** The canonical parts of a tag: a language of two or three letters, then at most a script, then at most a region. */
  function CanonicalParts(parts: seq<string>): Option<seq<string>>
    requires parts != []
  {
    var primary := parts[0];
    if !(2 <= |primary| <= 3 && IsAlpha(primary)) then None
    else
      var script := if |parts| > 1 && IsScript(parts[1]) then [Titled(parts[1])] else [];
      var rest := parts[1 + |script|..];
      if rest == [] then Some([Lower(primary)] + script)
      else
        var region :- Region(rest[0]);
        if |rest| > 1 then None else Some([Lower(primary)] + script + [region])
  }

  function NormalizeLanguageTag(raw: string): Option<string> {
    var candidate := Dashed(Trim(raw, IsPySpace));
    if !FitsTagLength(candidate) || !IsLanguageTag(candidate) then None
    else
      var parts :- CanonicalParts(SplitAt(candidate, '-'));
      Some(JoinWith(parts, '-'))
  }

  lemma {:induction false} SplitOfPiece(s: string, separator: char)
    requires separator !in s
    ensures SplitAt(s, separator) == [s]
  {
    if s != "" {
      SplitOfPiece(s[1..], separator);
      assert [s[0]] + s[1..] == s;
    }
  }

  lemma {:induction false} SplitAfterPiece(s: string, separator: char, rest: string)
    requires separator !in s
    ensures SplitAt(s + [separator] + rest, separator) == [s] + SplitAt(rest, separator)
  {
    var whole := s + [separator] + rest;
    if s == "" {
      assert whole[1..] == rest;
    } else {
      SplitAfterPiece(s[1..], separator, rest);
      assert whole[1..] == s[1..] + [separator] + rest;
      assert [s[0]] + s[1..] == s;
      assert ([s[1..]] + SplitAt(rest, separator))[1..] == SplitAt(rest, separator);
    }
  }

  /** Cutting undoes joining. */
  lemma {:induction false} SplitOfJoin(parts: seq<string>, separator: char)
    requires parts != [] && forall i :: 0 <= i < |parts| ==> separator !in parts[i]
    ensures SplitAt(JoinWith(parts, separator), separator) == parts
  {
    if |parts| == 1 {
      SplitOfPiece(parts[0], separator);
    } else {
      SplitOfJoin(parts[1..], separator);
      SplitAfterPiece(parts[0], separator, JoinWith(parts[1..], separator));
    }
  }

  /** Text of ASCII letters in one case, or of digits. */
  predicate IsCanonicalParts(parts: seq<string>) {
    && 1 <= |parts| <= 3
    && 2 <= |parts[0]| <= 3 && IsAlpha(parts[0]) && Lower(parts[0]) == parts[0]
    && (|parts| == 3 ==> IsScript(parts[1]) && Titled(parts[1]) == parts[1] && Region(parts[2]) == Some(parts[2]))
    && (|parts| == 2 ==>
          || (IsScript(parts[1]) && Titled(parts[1]) == parts[1])
          || (!IsScript(parts[1]) && Region(parts[1]) == Some(parts[1])))
  }

  lemma LowerIsIdempotent(s: string)
    requires IsAlpha(s)
    ensures IsAlpha(Lower(s)) && Lower(Lower(s)) == Lower(s)
  {
  }

  lemma UpperIsIdempotent(s: string)
    requires IsAlpha(s)
    ensures IsAlpha(Upper(s)) && Upper(Upper(s)) == Upper(s)
  {
  }

  lemma TitledIsIdempotent(s: string)
    requires IsAlpha(s)
    ensures IsAlpha(Titled(s)) && Titled(Titled(s)) == Titled(s)
  {
  }

  lemma RegionIsIdempotent(part: string)
    requires Region(part).Some?
    ensures Region(Region(part).value) == Region(part) && !IsScript(Region(part).value)
  {
    if |part| == 2 {
      UpperIsIdempotent(part);
    }
  }

  lemma CanonicalPartsAreCanonical(parts: seq<string>)
    requires parts != [] && CanonicalParts(parts).Some?
    ensures IsCanonicalParts(CanonicalParts(parts).value)
  {
    LowerIsIdempotent(parts[0]);
    if |parts| > 1 {
      if IsScript(parts[1]) {
        TitledIsIdempotent(parts[1]);
        if |parts| > 2 {
          RegionIsIdempotent(parts[2]);
        }
      } else {
        RegionIsIdempotent(parts[1]);
      }
    }
  }

  lemma CanonicalPartsAreFixed(parts: seq<string>)
    requires IsCanonicalParts(parts)
    ensures CanonicalParts(parts) == Some(parts)
  {
    if |parts| == 1 {
      assert parts == [parts[0]] == [parts[0]] + [];
    } else if |parts| == 2 {
      assert parts == [parts[0]] + [parts[1]] == [parts[0]] + [] + [parts[1]];
    } else {
      assert parts == [parts[0]] + [parts[1]] + [parts[2]];
    }
  }

  predicate IsTagText(s: string) {
    s != "" && AllOf(s, IsAlnum)
  }

  lemma CanonicalPartsAreText(parts: seq<string>)
    requires IsCanonicalParts(parts)
    ensures forall i :: 0 <= i < |parts| ==> IsTagText(parts[i]) && |parts[i]| <= 4
  {
  }

  lemma {:induction false} JoinedLength(parts: seq<string>, separator: char)
    requires parts != [] && forall i :: 0 <= i < |parts| ==> IsTagText(parts[i]) && |parts[i]| <= 4
    ensures 0 < |parts[0]| <= |JoinWith(parts, separator)| < 5 * |parts|
    ensures IsAlnum(JoinWith(parts, separator)[0])
    ensures IsAlnum(JoinWith(parts, separator)[|JoinWith(parts, separator)| - 1])
    ensures forall c :: c in JoinWith(parts, separator) ==> IsAlnum(c) || c == separator
  {
    assert parts[0][0] in parts[0] && IsAlnum(parts[0][|parts[0]| - 1]);
    if |parts| > 1 {
      JoinedLength(parts[1..], separator);
    }
  }

  /** A canonical tag: its parts are canonical. */
  predicate IsCanonicalTag(tag: string) {
    IsCanonicalParts(SplitAt(tag, '-'))
  }

  lemma CanonicalPartsSplit(parts: seq<string>)
    requires IsCanonicalParts(parts)
    ensures SplitAt(JoinWith(parts, '-'), '-') == parts
  {
    CanonicalPartsAreText(parts);
    forall i | 0 <= i < |parts|
      ensures '-' !in parts[i]
    {
      assert IsTagText(parts[i]);
    }
    SplitOfJoin(parts, '-');
  }

  lemma JoinedIsPlain(parts: seq<string>)
    requires IsCanonicalParts(parts)
    ensures var tag := JoinWith(parts, '-');
      FitsTagLength(tag) && Dashed(tag) == tag && Trim(tag, IsPySpace) == tag
  {
    var tag := JoinWith(parts, '-');
    CanonicalPartsAreText(parts);
    JoinedLength(parts, '-');
    TrimmedIsFixed(tag, IsPySpace);
    forall i | 0 <= i < |tag|
      ensures tag[i] != '_'
    {
      assert tag[i] in tag;
    }
  }

  lemma JoinedIsTag(parts: seq<string>)
    requires IsCanonicalParts(parts)
    ensures var tag := JoinWith(parts, '-');
      FitsTagLength(tag) && IsLanguageTag(tag) && SplitAt(tag, '-') == parts
      && Dashed(tag) == tag && Trim(tag, IsPySpace) == tag
  {
    CanonicalPartsAreText(parts);
    CanonicalPartsSplit(parts);
    JoinedIsPlain(parts);
  }

  /** For every input, a normalised language tag is canonical, is accepted by both argument validators, and is its own
      normal form. */
  lemma NormalisedTagIsSafe(raw: string)
    requires NormalizeLanguageTag(raw).Some?
    ensures var tag := NormalizeLanguageTag(raw).value;
      && IsCanonicalTag(tag) && NormalizeLanguageTag(tag) == Some(tag)
      && IsWorkerArg(Language, Text(tag)) && IsDesktopArg(Language, JsText(tag))
  {
    var parts := CanonicalParts(SplitAt(Dashed(Trim(raw, IsPySpace)), '-')).value;
    CanonicalPartsAreCanonical(SplitAt(Dashed(Trim(raw, IsPySpace)), '-'));
    JoinedIsTag(parts);
    CanonicalPartsAreFixed(parts);
  }

  // ----- message arguments -----

  datatype ArgKey = ModelArg | Language | Attempt | Total | OtherArg(name: string)

  /** A JSON value as the worker holds it: an integer and a float are different things. */
  datatype Value = Text(text: string) | Whole(n: int) | Real(x: real) | OtherValue

  type Args = map<ArgKey, Value>

  /** The same as JavaScript holds it: every number is one kind of number. */
  datatype JsValue = JsText(text: string) | JsNumber(x: real) | JsOther

  type JsArgs = map<ArgKey, JsValue>

  function Js(v: Value): JsValue {
    match v
    case Text(text) => JsText(text)
    case Whole(n) => JsNumber(n as real)
    case Real(x) => JsNumber(x)
    case OtherValue => JsOther
  }

  /** What the desktop receives of the arguments. */
  function Received(args: Args): JsArgs {
    map k | k in args :: Js(args[k])
  }

  /** The value with an integral float made an integer. */
  function Rounded(v: Value): Value {
    if v.Real? && v.x == v.x.Floor as real then Whole(v.x.Floor) else v
  }

  function RoundedArgs(args: Args): Args {
    map k | k in args :: Rounded(args[k])
  }

  const ALLOWED_MODELS: seq<string> := [
    "iic/SenseVoiceSmall", "iic/speech_fsmn_vad_zh-cn-16k-common-pytorch", "iic/SenseVoiceSmall-onnx",
    "iic/speech_fsmn_vad_zh-cn-16k-common-onnx"]

  /** An integer within bounds, and neither a boolean nor a float. */
  predicate IsWholeWithin(v: Value, low: int, high: int) {
    v.Whole? && low <= v.n <= high
  }

  /** `Number.isInteger`, and within bounds. */
  predicate IsIntegerWithin(v: JsValue, low: real, high: real) {
    v.JsNumber? && v.x == v.x.Floor as real && !(v.x < low) && !(v.x > high)
  }

  predicate IsWorkerArg(key: ArgKey, v: Value) {
    match key
    case ModelArg => v.Text? && v.text in ALLOWED_MODELS
    case Language => v.Text? && FitsTagLength(v.text) && IsLanguageTag(v.text)
    case Attempt => IsWholeWithin(v, 1, 100)
    case Total => IsWholeWithin(v, 1, 100)
    case OtherArg(_) => false
  }

  predicate IsDesktopArg(key: ArgKey, v: JsValue) {
    if key == ModelArg then v.JsText? && v.text in ALLOWED_MODELS
    else if key == Language then v.JsText? && !(|v.text| < 2) && !(|v.text| > 35) && IsLanguageTag(v.text)
    else if key == Attempt || key == Total then IsIntegerWithin(v, 1.0, 100.0)
    else false
  }

  predicate AttemptWithinTotal(args: Args) {
    Attempt in args && Total in args && args[Attempt].Whole? && args[Total].Whole? ==> args[Attempt].n <= args[Total].n
  }

  predicate JsAttemptWithinTotal(args: JsArgs) {
    Attempt in args && Total in args && args[Attempt].JsNumber? && args[Total].JsNumber? ==>
      args[Attempt].x <= args[Total].x
  }

  /** The worker reads the allowed keys in order; None is a refusal. */
  function ReadAllowed(args: Args, allowed: seq<ArgKey>): Option<Args> {
    if allowed == [] then Some(map[])
    else
      var last := allowed[|allowed| - 1];
      var before :- ReadAllowed(args, allowed[..|allowed| - 1]);
      if last !in args then Some(before)
      else if IsWorkerArg(last, args[last]) then Some(before[last := args[last]])
      else None
  }

  /** The worker's validation: unknown keys, bad values and an attempt beyond the total are refused; no arguments are
      reported as none. */
  function WorkerArgs(args: Args, allowed: seq<ArgKey>): Option<Args> {
    if exists k :: k in args && k !in allowed then None
    else
      var validated :- ReadAllowed(args, allowed);
      if AttemptWithinTotal(validated) then Some(validated) else None
  }

  method ValidateMessageArgs(args: Args, allowed: seq<ArgKey>) returns (r: Option<Args>)
    ensures r == WorkerArgs(args, allowed)
  {
    if exists k :: k in args && k !in allowed {
      return None;
    }
    var validated: Args := map[];
    for i := 0 to |allowed|
      invariant ReadAllowed(args, allowed[..i]) == Some(validated)
    {
      assert allowed[..i + 1][..i] == allowed[..i];
      if allowed[i] in args {
        if !IsWorkerArg(allowed[i], args[allowed[i]]) {
          RefusalStands(args, allowed, i + 1);
          return None;
        }
        validated := validated[allowed[i] := args[allowed[i]]];
      }
    }
    assert allowed[..|allowed|] == allowed;
    r := if AttemptWithinTotal(validated) then Some(validated) else None;
  }

  lemma {:induction false} RefusalStands(args: Args, allowed: seq<ArgKey>, i: nat)
    requires i <= |allowed| && ReadAllowed(args, allowed[..i]).None?
    ensures ReadAllowed(args, allowed).None?
    decreases |allowed|
  {
    if i == |allowed| {
      assert allowed[..i] == allowed;
    } else {
      assert allowed[..|allowed| - 1][..i] == allowed[..i];
      RefusalStands(args, allowed[..|allowed| - 1], i);
    }
  }

  /** The desktop reads the entries that are there. */
  function DesktopArgs(args: JsArgs, allowed: seq<ArgKey>): Option<JsArgs> {
    if exists k :: k in args && k !in allowed then None
    else if (forall k :: k in args ==> IsDesktopArg(k, args[k])) && JsAttemptWithinTotal(args) then Some(args)
    else None
  }

  lemma {:induction false} ReadAllowedReads(args: Args, allowed: seq<ArgKey>)
    ensures ReadAllowed(args, allowed).Some? <==> forall k :: k in args && k in allowed ==> IsWorkerArg(k, args[k])
    ensures ReadAllowed(args, allowed).Some? ==>
      ReadAllowed(args, allowed).value == map k | k in args && k in allowed :: args[k]
  {
    if allowed != [] {
      var front, last := allowed[..|allowed| - 1], allowed[|allowed| - 1];
      assert allowed == front + [last];
      ReadAllowedReads(args, front);
    }
  }

  /** The worker's walk over the allowed keys accepts exactly what is allowed and valid, and returns it unchanged. */
  lemma WorkerAcceptsIff(args: Args, allowed: seq<ArgKey>)
    ensures WorkerArgs(args, allowed).Some? <==>
      (forall k :: k in args ==> k in allowed && IsWorkerArg(k, args[k])) && AttemptWithinTotal(args)
    ensures WorkerArgs(args, allowed).Some? ==> WorkerArgs(args, allowed).value == args
  {
    ReadAllowedReads(args, allowed);
    if forall k :: k in args ==> k in allowed {
      assert (map k | k in args && k in allowed :: args[k]) == args;
    }
  }

  lemma SameArg(key: ArgKey, v: Value)
    ensures IsDesktopArg(key, Js(v)) <==> IsWorkerArg(key, Rounded(v))
    ensures IsWorkerArg(key, v) ==> Rounded(v) == v
  {
  }

  /** Valid attempts and totals compare alike on both sides. */
  lemma SameOrder(args: Args)
    requires forall k :: k in args ==> IsWorkerArg(k, Rounded(args[k]))
    ensures JsAttemptWithinTotal(Received(args)) <==> AttemptWithinTotal(RoundedArgs(args))
  {
    if Attempt in args && Total in args {
      var a, t := args[Attempt], args[Total];
      assert IsWholeWithin(Rounded(a), 1, 100) && IsWholeWithin(Rounded(t), 1, 100);
      assert Js(a) == JsNumber(Rounded(a).n as real) && Js(t) == JsNumber(Rounded(t).n as real);
    }
  }

  lemma SameArgs(args: Args, allowed: seq<ArgKey>)
    ensures (forall k :: k in Received(args) ==> k in allowed && IsDesktopArg(k, Received(args)[k])) <==>
      (forall k :: k in RoundedArgs(args) ==> k in allowed && IsWorkerArg(k, RoundedArgs(args)[k]))
  {
    forall k | k in args
      ensures IsDesktopArg(k, Js(args[k])) <==> IsWorkerArg(k, Rounded(args[k]))
    {
      SameArg(k, args[k]);
    }
  }

  lemma DesktopAcceptsIff(args: JsArgs, allowed: seq<ArgKey>)
    ensures DesktopArgs(args, allowed).Some? <==>
      (forall k :: k in args ==> k in allowed && IsDesktopArg(k, args[k])) && JsAttemptWithinTotal(args)
    ensures DesktopArgs(args, allowed).Some? ==> DesktopArgs(args, allowed).value == args
  {
  }

  /** The desktop accepts exactly what the worker would accept with every integral float made an integer. */
  lemma DesktopAcceptsRounded(args: Args, allowed: seq<ArgKey>)
    ensures DesktopArgs(Received(args), allowed).Some? <==> WorkerArgs(RoundedArgs(args), allowed).Some?
    ensures DesktopArgs(Received(args), allowed).Some? ==> DesktopArgs(Received(args), allowed).value == Received(args)
  {
    WorkerAcceptsIff(RoundedArgs(args), allowed);
    DesktopAcceptsIff(Received(args), allowed);
    SameArgs(args, allowed);
    if forall k :: k in RoundedArgs(args) ==> k in allowed && IsWorkerArg(k, RoundedArgs(args)[k]) {
      forall k | k in args
        ensures IsWorkerArg(k, Rounded(args[k]))
      {
        assert k in RoundedArgs(args);
      }
      SameOrder(args);
    }
  }

  predicate HasFloat(args: Args) {
    exists k :: k in args && args[k].Real?
  }

  lemma RoundedWithoutFloats(args: Args)
    requires !HasFloat(args)
    ensures RoundedArgs(args) == args
  {
  }

  /** Whatever the worker accepts the desktop accepts, and neither changes it. The desktop accepts more exactly when
      some argument is a float and the arguments would be valid were every integral float an integer. */
  lemma ArgValidatorsDifferIff(args: Args, allowed: seq<ArgKey>)
    ensures WorkerArgs(args, allowed).Some? ==>
      WorkerArgs(args, allowed) == Some(args) && DesktopArgs(Received(args), allowed) == Some(Received(args))
    ensures DesktopArgs(Received(args), allowed).Some? && WorkerArgs(args, allowed).None? <==>
      HasFloat(args) && WorkerArgs(RoundedArgs(args), allowed).Some?
  {
    WorkerAcceptsIff(args, allowed);
    DesktopAcceptsRounded(args, allowed);
    if HasFloat(args) {
      var k :| k in args && args[k].Real?;
      assert !IsWorkerArg(k, args[k]);
    } else {
      RoundedWithoutFloats(args);
    }
  }

  /** So an attempt sent as 1.0 is refused by the worker and read by the desktop. */
  lemma IntegralFloatIsReadByTheDesktopOnly()
    ensures var args := map[Attempt := Real(1.0)];
      && WorkerArgs(args, [Attempt, Total]).None?
      && DesktopArgs(Received(args), [Attempt, Total]) == Some(map[Attempt := JsNumber(1.0)])
  {
    var args := map[Attempt := Real(1.0)];
    var rounded := RoundedArgs(args);
    assert rounded == map[Attempt := Whole(1)];
    WorkerAcceptsIff(args, [Attempt, Total]);
    WorkerAcceptsIff(rounded, [Attempt, Total]);
    DesktopAcceptsRounded(args, [Attempt, Total]);
    assert Attempt in args && !IsWorkerArg(Attempt, args[Attempt]);
    assert Received(args) == map[Attempt := JsNumber(1.0)];
  }

  // ----- the tables of codes -----

  datatype Status = Started | Downloading | Extracting | Completed | Cancelled

  datatype ModelCode =
    | DownloadPreparing | DownloadCompleted | DownloadCancelled | PrimaryDownloading | VadDownloading | BpeDownloading
    | ArchiveExtracting | ArchiveReading | ArchiveDownloading | FileDownloading | FileCompleted
    | RuntimePreparing | RuntimeDownloading | RuntimeExtracting | RuntimeCompleted

  datatype WorkerCode =
    | WebPageLoading | WebPageExtracting | WebPageSaving | VideoDownloadPreparing | VideoStreamValidating
    | LocalMediaValidating | LocalVideoCopying | LocalAudioNormalizing | AudioExtractRunning | AudioExtractReused
    | SubtitleDetectRunning | SubtitleDetectFound | AsrCachePreparing | AsrTranscribeStarting | AsrTranscribeRunning
    | AiGenerationRunning | TitleGenerationRunning | TitleGenerationCompleted | DouyinPageResolving
    | DouyinPageRetrying | DouyinStreamProbing | DouyinVideoSaving | DouyinStreamRetrying | XiaohongshuPageResolving
    | XiaohongshuVideoSaving | XiaohongshuStreamRetrying | BilibiliMetadataResolving | BilibiliStreamProbing
    | BilibiliVideoDownloading | BilibiliAudioDownloading | BilibiliMediaMerging

  /** What a table says of a model code. */
  datatype ModelRule = ModelRule(status: Status, namesFile: bool, allowed: seq<ArgKey>)

  /** The worker's registry of model codes. */
  function ModelSpec(code: ModelCode): ModelRule {
    match code
    case DownloadPreparing => ModelRule(Started, false, [ModelArg])
    case DownloadCompleted => ModelRule(Completed, false, [ModelArg])
    case DownloadCancelled => ModelRule(Cancelled, false, [])
    case PrimaryDownloading | VadDownloading | BpeDownloading => ModelRule(Downloading, false, [ModelArg])
    case ArchiveExtracting | RuntimeExtracting => ModelRule(Extracting, false, [])
    case ArchiveReading | ArchiveDownloading | RuntimeDownloading => ModelRule(Downloading, false, [])
    case FileDownloading | FileCompleted => ModelRule(Downloading, true, [])
    case RuntimePreparing => ModelRule(Started, false, [])
    case RuntimeCompleted => ModelRule(Completed, false, [])
  }

  /** The desktop's rules for them. */
  function DesktopModelRule(code: ModelCode): ModelRule {
    ModelRule(
      if code in {DownloadPreparing, RuntimePreparing} then Started
      else if code in {DownloadCompleted, RuntimeCompleted} then Completed
      else if code in {ArchiveExtracting, RuntimeExtracting} then Extracting
      else if code == DownloadCancelled then Cancelled else Downloading,
      code in {FileDownloading, FileCompleted},
      if code in {DownloadPreparing, DownloadCompleted, PrimaryDownloading, VadDownloading, BpeDownloading}
      then [ModelArg] else [])
  }

  /** The worker's registry of processing codes: the arguments each allows. */
  function WorkerSpec(code: WorkerCode): seq<ArgKey> {
    match code
    case SubtitleDetectFound => [Language]
    case AsrCachePreparing => [ModelArg]
    case AiGenerationRunning => [Attempt, Total]
    case DouyinPageRetrying => [Attempt, Total]
    case DouyinStreamRetrying => [Attempt, Total]
    case XiaohongshuStreamRetrying => [Attempt, Total]
    case _ => []
  }

  /** The desktop's rules for them. */
  function DesktopWorkerRule(code: WorkerCode): seq<ArgKey> {
    if code in {AiGenerationRunning, DouyinPageRetrying, DouyinStreamRetrying, XiaohongshuStreamRetrying}
    then [Attempt, Total]
    else if code == AsrCachePreparing then [ModelArg]
    else if code == SubtitleDetectFound then [Language] else []
  }

  lemma ModelTablesAgree(code: ModelCode)
    ensures DesktopModelRule(code) == ModelSpec(code)
  {
  }

  lemma WorkerTablesAgree(code: WorkerCode)
    ensures DesktopWorkerRule(code) == WorkerSpec(code)
  {
  }

  const WORKER_STAGES: set<string> := {
    "waiting_input", "video_extracting", "video_transcribing", "web_loading", "web_extracting", "web_saving",
    "insights_generating", "title_generating", "completed", "partial_completed", "failed"}

  const DESKTOP_STAGES: seq<string> := [
    "waiting_input", "video_extracting", "video_transcribing", "web_loading", "web_extracting", "web_saving",
    "insights_generating", "title_generating", "completed", "partial_completed", "failed"]

  lemma StagesAgree(stage: string)
    ensures stage in DESKTOP_STAGES <==> stage in WORKER_STAGES
  {
  }

  // ----- processing events -----

  /** An event with a known code; what the desktop receives has JavaScript's values in it. */
  datatype WorkerEvent<V, A> = WorkerEvent(code: WorkerCode, stage: string, progress: V, args: Option<A>)

  function Given(args: Option<Args>): Args {
    if args.Some? then args.value else map[]
  }

  function JsGiven(args: Option<JsArgs>): JsArgs {
    if args.Some? then args.value else map[]
  }

  function ReceivedIfAny(args: Option<Args>): Option<JsArgs> {
    if args.Some? then Some(Received(args.value)) else None
  }

  function RoundedIfAny(args: Option<Args>): Option<Args> {
    if args.Some? then Some(RoundedArgs(args.value)) else None
  }

  /** No arguments are left out. */
  function IfAny(args: Args): Option<Args> {
    if args == map[] then None else Some(args)
  }

  /** What the worker builds and what it re-validates; None is a refusal. */
  function BuildWorkerEvent(e: WorkerEvent<Value, Args>): Option<WorkerEvent<Value, Args>> {
    if e.stage !in WORKER_STAGES || !IsWholeWithin(e.progress, 0, 100) then None
    else
      var args :- WorkerArgs(Given(e.args), WorkerSpec(e.code));
      Some(e.(args := IfAny(args)))
  }

  /** What the desktop makes of a received event with a known code: always arguments, perhaps empty; None is invalid. */
  function DesktopWorkerEvent(e: WorkerEvent<JsValue, JsArgs>): Option<WorkerEvent<JsValue, JsArgs>> {
    if e.stage !in DESKTOP_STAGES || !IsIntegerWithin(e.progress, 0.0, 100.0) then None
    else
      var args :- DesktopArgs(JsGiven(e.args), DesktopWorkerRule(e.code));
      Some(e.(args := Some(args)))
  }

  function ReceivedEvent(e: WorkerEvent<Value, Args>): WorkerEvent<JsValue, JsArgs> {
    WorkerEvent(e.code, e.stage, Js(e.progress), ReceivedIfAny(e.args))
  }

  function RoundedEvent(e: WorkerEvent<Value, Args>): WorkerEvent<Value, Args> {
    e.(progress := Rounded(e.progress), args := RoundedIfAny(e.args))
  }

  lemma SameProgress(v: Value)
    ensures IsIntegerWithin(Js(v), 0.0, 100.0) <==> IsWholeWithin(Rounded(v), 0, 100)
    ensures IsWholeWithin(v, 0, 100) ==> Rounded(v) == v
  {
  }

  lemma GivenIsKept(args: Option<Args>, allowed: seq<ArgKey>)
    ensures JsGiven(ReceivedIfAny(args)) == Received(Given(args))
    ensures Given(RoundedIfAny(args)) == RoundedArgs(Given(args))
    ensures WorkerArgs(Given(args), allowed).Some? ==> WorkerArgs(Given(args), allowed).value == Given(args)
    ensures Given(IfAny(Given(args))) == Given(args)
  {
    WorkerAcceptsIff(Given(args), allowed);
  }

  /** The desktop reads exactly the processing events the worker would build with every integral float made an integer,
      with the fields it received. */
  lemma DesktopReadsWorkerEventIff(e: WorkerEvent<Value, Args>)
    ensures DesktopWorkerEvent(ReceivedEvent(e)).Some? <==> BuildWorkerEvent(RoundedEvent(e)).Some?
    ensures DesktopWorkerEvent(ReceivedEvent(e)).Some? ==>
      DesktopWorkerEvent(ReceivedEvent(e)).value == ReceivedEvent(e).(args := Some(Received(Given(e.args))))
  {
    var allowed := WorkerSpec(e.code);
    WorkerTablesAgree(e.code);
    StagesAgree(e.stage);
    SameProgress(e.progress);
    GivenIsKept(e.args, allowed);
    DesktopAcceptsRounded(Given(e.args), allowed);
  }

  /** Whatever processing event the worker builds, it accepts again unchanged, with no empty arguments in it, and the
      desktop reads as a known event with equal fields. */
  lemma BuiltWorkerEventIsAccepted(e: WorkerEvent<Value, Args>)
    requires BuildWorkerEvent(e).Some?
    ensures var built := BuildWorkerEvent(e).value;
      && BuildWorkerEvent(built) == Some(built)
      && built.args != Some(map[]) && Given(built.args) == Given(e.args)
      && DesktopWorkerEvent(ReceivedEvent(built))
           == Some(ReceivedEvent(built).(args := Some(Received(Given(e.args)))))
  {
    var built := BuildWorkerEvent(e).value;
    GivenIsKept(e.args, WorkerSpec(e.code));
    SameProgress(built.progress);
    ArgValidatorsDifferIff(Given(e.args), WorkerSpec(e.code));
    DesktopReadsWorkerEventIff(built);
    RoundedIsBuilt(built);
  }

  /** Nothing the worker accepts has a float in it. */
  lemma RoundedIsBuilt(e: WorkerEvent<Value, Args>)
    requires BuildWorkerEvent(e).Some?
    ensures BuildWorkerEvent(RoundedEvent(e)).Some?
  {
    SameProgress(e.progress);
    GivenIsKept(e.args, WorkerSpec(e.code));
    ArgValidatorsDifferIff(Given(e.args), WorkerSpec(e.code));
    DesktopAcceptsRounded(Given(e.args), WorkerSpec(e.code));
  }

  // ----- model events -----

  datatype ModelEvent<V, A> = ModelEvent(
    code: ModelCode, status: Status, progress: V, currentFile: Option<string>, args: Option<A>)

  type Sanitiser = string -> string

  /** The sanitiser in use, for one way of splitting URLs. */
  function SanitiserOf(split: UrlSplitter): Sanitiser {
    name => SafeCurrentFileBasename(name, split)
  }

  /** The worker takes a file name that is portable and that the sanitiser leaves alone. */
  predicate FileFits(name: Option<string>, namesFile: bool, sanitise: Sanitiser) {
    if namesFile
    then name.Some? && IsPortableBasename(name.value) && sanitise(name.value) == name.value
    else name.None?
  }

  /** The desktop takes any portable one. */
  predicate DesktopFileFits(name: Option<string>, namesFile: bool) {
    if namesFile then name.Some? && IsPortableBasename(name.value) else name.None?
  }

  function BuildModelEvent(e: ModelEvent<Value, Args>, sanitise: Sanitiser): Option<ModelEvent<Value, Args>> {
    var spec := ModelSpec(e.code);
    if e.status != spec.status || !IsWholeWithin(e.progress, 0, 100) then None
    else if !FileFits(e.currentFile, spec.namesFile, sanitise) then None
    else
      var args :- WorkerArgs(Given(e.args), spec.allowed);
      Some(e.(args := IfAny(args)))
  }

  function DesktopModelEvent(e: ModelEvent<JsValue, JsArgs>): Option<ModelEvent<JsValue, JsArgs>> {
    var rule := DesktopModelRule(e.code);
    if !IsIntegerWithin(e.progress, 0.0, 100.0) then None
    else
      var args :- DesktopArgs(JsGiven(e.args), rule.allowed);
      if e.status != rule.status || !DesktopFileFits(e.currentFile, rule.namesFile) then None
      else Some(e.(args := Some(args)))
  }

  function ReceivedModelEvent(e: ModelEvent<Value, Args>): ModelEvent<JsValue, JsArgs> {
    ModelEvent(e.code, e.status, Js(e.progress), e.currentFile, ReceivedIfAny(e.args))
  }

  function RoundedModelEvent(e: ModelEvent<Value, Args>): ModelEvent<Value, Args> {
    e.(progress := Rounded(e.progress), args := RoundedIfAny(e.args))
  }

  predicate NamesReportable(name: Option<string>) {
    name.None? || IsReportable(name.value)
  }

  /** Whatever the sanitiser: with every integral float made an integer, the worker would build a model event exactly
      when the desktop reads it and the sanitiser leaves any file it names alone; the desktop reads it with the fields
      it received. */
  lemma DesktopReadsEventIff(e: ModelEvent<Value, Args>, sanitise: Sanitiser)
    ensures BuildModelEvent(RoundedModelEvent(e), sanitise).Some? <==>
      && DesktopModelEvent(ReceivedModelEvent(e)).Some?
      && (e.currentFile.Some? ==> sanitise(e.currentFile.value) == e.currentFile.value)
    ensures DesktopModelEvent(ReceivedModelEvent(e)).Some? ==>
      DesktopModelEvent(ReceivedModelEvent(e)).value
        == ReceivedModelEvent(e).(args := Some(Received(Given(e.args))))
  {
    var spec := ModelSpec(e.code);
    ModelTablesAgree(e.code);
    SameProgress(e.progress);
    GivenIsKept(e.args, spec.allowed);
    DesktopAcceptsRounded(Given(e.args), spec.allowed);
  }

  lemma SanitiserFixesIff(name: string, split: UrlSplitter)
    ensures SanitiserOf(split)(name) == name <==> IsReportable(name)
  {
    SanitisedNameIsSafe(name, split);
    if IsReportable(name) {
      ReportableIsFixed(name, split);
    }
  }

  /** With every integral float made an integer, the worker would build a model event exactly when the desktop reads it
      and any file it names is reportable. */
  lemma DesktopReadsModelEventIff(e: ModelEvent<Value, Args>, split: UrlSplitter)
    ensures BuildModelEvent(RoundedModelEvent(e), SanitiserOf(split)).Some? <==>
      && DesktopModelEvent(ReceivedModelEvent(e)).Some?
      && (e.currentFile.Some? ==> IsReportable(e.currentFile.value))
  {
    DesktopReadsEventIff(e, SanitiserOf(split));
    if e.currentFile.Some? {
      SanitiserFixesIff(e.currentFile.value, split);
    }
  }

  /** Whatever model event the worker builds, it accepts again unchanged, with no empty arguments in it, and the desktop
      reads as a known event with equal fields. */
  lemma BuiltEventIsAccepted(e: ModelEvent<Value, Args>, sanitise: Sanitiser)
    requires BuildModelEvent(e, sanitise).Some?
    ensures var built := BuildModelEvent(e, sanitise).value;
      && BuildModelEvent(built, sanitise) == Some(built)
      && built.args != Some(map[]) && Given(built.args) == Given(e.args)
      && DesktopModelEvent(ReceivedModelEvent(built))
           == Some(ReceivedModelEvent(built).(args := Some(Received(Given(e.args)))))
  {
    var built, spec := BuildModelEvent(e, sanitise).value, ModelSpec(e.code);
    GivenIsKept(e.args, spec.allowed);
    RoundedModelIsBuilt(built, sanitise);
    DesktopReadsEventIff(built, sanitise);
  }

  lemma RoundedModelIsBuilt(e: ModelEvent<Value, Args>, sanitise: Sanitiser)
    requires BuildModelEvent(e, sanitise).Some?
    ensures BuildModelEvent(RoundedModelEvent(e), sanitise).Some?
  {
    var spec := ModelSpec(e.code);
    SameProgress(e.progress);
    GivenIsKept(e.args, spec.allowed);
    ArgValidatorsDifferIff(Given(e.args), spec.allowed);
    DesktopAcceptsRounded(Given(e.args), spec.allowed);
  }

  lemma FileEventIsBuilt(name: string, progress: int, sanitise: Sanitiser)
    requires 0 <= progress <= 100 && IsPortableBasename(name) && sanitise(name) == name
    ensures var e := ModelEvent(FileDownloading, Downloading, Whole(progress), Some(name), None);
      BuildModelEvent(e, sanitise) == Some(e)
  {
    WorkerAcceptsIff(map[], []);
  }

  /** The file events of a download are always built, for every file name the model hub may report. */
  lemma FileEventsAreBuilt(raw: string, progress: int, split: UrlSplitter)
    requires 0 <= progress <= 99
    ensures var name := SafeCurrentFileBasename(raw, split);
      var e := ModelEvent(FileDownloading, Downloading, Whole(progress), Some(name), None);
      BuildModelEvent(e, SanitiserOf(split)) == Some(e)
  {
    SanitisedNameIsSafe(raw, split);
    FileEventIsBuilt(SafeCurrentFileBasename(raw, split), progress, SanitiserOf(split));
  }
}
