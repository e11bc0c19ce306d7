/** The response headers a media download relies on: Content-Range, Content-Length and Content-Type. */
module HttpHeaders {
  import opened Text

  /** Header fields in the order the response lists them. */
  type Headers = seq<(string, string)>

  function Header(headers: Headers, name: string): Option<string> {
    if headers == [] then None
    else if Lower(headers[0].0) == Lower(name) then Some(headers[0].1)
    else Header(headers[1..], name)
  }

  // ----- integers -----

  /** The digits of a Python integer literal: digits with single underscores between them. */
  predicate IsDigitGroups(s: string) {
    && s != "" && IsDigit(s[0]) && IsDigit(s[|s| - 1])
    && forall i :: 0 <= i < |s| ==> IsInGroup(s, i)
  }

  predicate IsInGroup(s: string, i: int) {
    0 <= i < |s| && (IsDigit(s[i]) || (s[i] == '_' && 0 < i && IsDigit(s[i - 1])))
  }

  function DropUnderscores(s: string): (r: string) {
    if s == "" then ""
    else if s[0] == '_' then DropUnderscores(s[1..])
    else [s[0]] + DropUnderscores(s[1..])
  }

  /** A size header read as a positive integer; anything else reads as no size. */
  function PositiveInt(value: string): (r: Option<nat>)
    ensures r.Some? ==> r.value > 0
  {
    var t := Trim(value, IsPySpace);
    var digits := if t != "" && t[0] == '+' then t[1..] else t;
    if !IsDigitGroups(digits) then None
    else
      var plain := DropUnderscores(digits);
      if AllDigits(plain) && Numeral(plain) > 0 then Some(Numeral(plain)) else None
  }

  // ----- Content-Range -----

  /** How many digits the text starts with. */
  function DigitPrefix(s: string): (n: nat)
    ensures n <= |s| && AllDigits(s[..n]) && (n < |s| ==> !IsDigit(s[n]))
  {
    if s != "" && IsDigit(s[0]) then 1 + DigitPrefix(s[1..]) else 0
  }

  /** Where the digits that end the text begin. */
  function DigitSuffixStart(s: string): (n: nat)
    ensures n <= |s| && AllDigits(s[n..]) && (n > 0 ==> !IsDigit(s[n - 1]))
  {
    if s == "" || !IsDigit(s[|s| - 1]) then |s|
    else
      var front := s[..|s| - 1];
      var n := DigitSuffixStart(front);
      assert s[n..] == front[n..] + [s[|s| - 1]];
      n
  }

  /** The unit `bytes` in any letter case; the long s folds to an s. */
  predicate IsBytesUnit(s: string) {
    |s| == 5 && Lower(s[..4]) == "byte" && s[4] in {'s', 'S', '\U{17F}'}
  }

  function RangeTotal(value: string): (r: Option<nat>)
    ensures r.Some? ==> r.value > 0
  {
    var t := TrimRight(value, IsPySpace);
    var start := DigitSuffixStart(t);
    if start == |t| || start == 0 || t[start - 1] != '/' then None
    else if Numeral(t[start..]) > 0 then Some(Numeral(t[start..])) else None
  }

  /** What follows the unit and the white space after it. */
  function AfterUnit(value: string): Option<string> {
    if |value| < 5 || !IsBytesUnit(value[..5]) then None
    else
      var rest := TrimLeft(value[5..], IsPySpace);
      if rest == value[5..] then None else Some(rest)
  }

  /** A run of digits and the separator after it: the digits, and what follows the separator. */
  function Field(s: string, separator: char): Option<(string, string)> {
    var n := DigitPrefix(s);
    if n == 0 || n == |s| || s[n] != separator then None else Some((s[..n], s[n + 1..]))
  }

  predicate IsDigits(s: string) {
    s != "" && AllDigits(s)
  }

  /** The first byte of `first-last/total`, where the total may be an asterisk. */
  function FirstByte(range: string): Option<nat> {
    var (first, afterFirst) :- Field(range, '-');
    var (_, total) :- Field(afterFirst, '/');
    if AllDigits(first) && (total == "*" || IsDigits(total)) then Some(Numeral(first)) else None
  }

  function RangeStart(value: string): Option<nat> {
    var range :- AfterUnit(Trim(value, IsPySpace));
    FirstByte(range)
  }

  function ContentRangeTotal(headers: Headers): (r: Option<nat>)
    ensures r.Some? ==> r.value > 0
  {
    var value :- Header(headers, "Content-Range");
    if value == "" then None else RangeTotal(value)
  }

  function ContentRangeStart(headers: Headers): Option<nat> {
    var value :- Header(headers, "Content-Range");
    if value == "" then None else RangeStart(value)
  }

  /** The total the response declares: the Content-Range total, failing that a positive Content-Length. */
  function DeclaredSize(headers: Headers): (r: Option<nat>)
    ensures r.Some? ==> r.value > 0
  {
    var total := ContentRangeTotal(headers);
    if total.Some? then total
    else
      var length :- Header(headers, "Content-Length");
      PositiveInt(length)
  }

  // ----- Content-Type -----

  /** The text before the first occurrence of c. */
  function Before(s: string, c: char): string {
    if s == "" || s[0] == c then "" else [s[0]] + Before(s[1..], c)
  }

  predicate IsAllowedContentType(contentType: string, allowed: seq<string>) {
    var normalized := Lower(Trim(Before(contentType, ';'), IsPySpace));
    exists a :: a in allowed &&
      if a != "" && a[|a| - 1] == '/' then a[..|a| - 1] <= normalized else normalized == a
  }

  /** The types a video may have. */
  const VIDEO_CONTENT_TYPES: seq<string> := ["video/", "application/octet-stream"]

  /** An entry of the list lets a media type through: it is that type, or it is a family and a slash, and the type
      begins with the family. */
  ghost predicate Lets(entry: string, mediaType: string) {
    (mediaType == entry && (entry == "" || entry[|entry| - 1] != '/'))
    || exists family: string :: entry == family + "/" && family <= mediaType
  }

  lemma LetsIff(entry: string, mediaType: string)
    ensures Lets(entry, mediaType) <==>
      if entry != "" && entry[|entry| - 1] == '/' then entry[..|entry| - 1] <= mediaType else mediaType == entry
  {
    if entry != "" && entry[|entry| - 1] == '/' {
      var family := entry[..|entry| - 1];
      assert entry == family + "/";
      if Lets(entry, mediaType) {
        var other: string :| entry == other + "/" && other <= mediaType;
        assert other == (other + "/")[..|other|] == family;
      }
    }
  }

  lemma {:induction false} BeforeIs(head: string, rest: string, c: char)
    requires c !in head && (rest == "" || rest[0] == c)
    ensures Before(head + rest, c) == head
  {
    if head == "" {
      assert head + rest == rest;
    } else {
      assert (head + rest)[1..] == head[1..] + rest;
      BeforeIs(head[1..], rest, c);
    }
  }

  /** A content type is allowed exactly when an entry lets its media type through: what stands before its parameters, in
      lower case and without white space around it. */
  lemma ContentTypeIsAllowedIff(head: string, rest: string, allowed: seq<string>)
    requires ';' !in head && (rest == "" || rest[0] == ';')
    ensures IsAllowedContentType(head + rest, allowed) <==>
      exists entry :: entry in allowed && Lets(entry, Lower(Trim(head, IsPySpace)))
  {
    var mediaType := Lower(Trim(head, IsPySpace));
    BeforeIs(head, rest, ';');
    forall entry | entry in allowed
      ensures Lets(entry, mediaType) <==>
        if entry != "" && entry[|entry| - 1] == '/' then entry[..|entry| - 1] <= mediaType else mediaType == entry
    {
      LetsIff(entry, mediaType);
    }
  }

  /** Every type of an allowed family is allowed, whatever its parameters; and so is what merely begins like one. */
  lemma FamilyIsAllowed(family: string, kind: string, parameters: string, allowed: seq<string>)
    requires family + "/" in allowed && ';' !in family + kind
    requires Lower(family + kind) == family + kind && Trimmed(family + kind, IsPySpace)
    ensures IsAllowedContentType(family + kind + (";" + parameters), allowed)
  {
    TrimmedIsFixed(family + kind, IsPySpace);
    ContentTypeIsAllowedIff(family + kind, ";" + parameters, allowed);
    assert family <= family + kind;
    assert Lets(family + "/", family + kind);
  }

  /** A web page is no video. */
  lemma HtmlIsRefused(rest: string)
    requires rest == "" || rest[0] == ';'
    ensures !IsAllowedContentType("text/html" + rest, VIDEO_CONTENT_TYPES)
  {
    var html := "text/html";
    TrimmedIsFixed(html, IsPySpace);
    ContentTypeIsAllowedIff(html, rest, VIDEO_CONTENT_TYPES);
    assert Lower(html)[0] == 't';
    LetsIff(VIDEO_CONTENT_TYPES[0], Lower(html));
    LetsIff(VIDEO_CONTENT_TYPES[1], Lower(html));
    assert VIDEO_CONTENT_TYPES[0][0] == 'v' && VIDEO_CONTENT_TYPES[1][0] == 'a';
  }

  /** The family's slash is not looked for: a type that merely begins like a family is let through. */
  lemma LooseFamilyIsAllowed(parameters: string)
    ensures IsAllowedContentType("videotape/html" + (";" + parameters), VIDEO_CONTENT_TYPES)
  {
    var kind := "tape/html";
    assert "video" + kind == "videotape/html";
    assert Lower("video" + kind) == "video" + kind;
    assert VIDEO_CONTENT_TYPES[0] == "video" + "/";
    FamilyIsAllowed("video", kind, parameters, VIDEO_CONTENT_TYPES);
  }

  // ----- what a server writes is what the worker reads -----

  function RenderRange(first: nat, last: nat, total: nat): string {
    Decimal(first) + ("-" + (Decimal(last) + ("/" + Decimal(total))))
  }

  function RenderContentRange(first: nat, last: nat, total: nat): string {
    "bytes " + RenderRange(first, last, total)
  }

  lemma {:induction false} DigitPrefixOf(digits: string, rest: string)
    requires AllDigits(digits)
    requires rest != "" ==> !IsDigit(rest[0])
    ensures DigitPrefix(digits + rest) == |digits|
  {
    if digits == "" {
      assert digits + rest == rest;
    } else {
      assert (digits + rest)[1..] == digits[1..] + rest;
      DigitPrefixOf(digits[1..], rest);
    }
  }

  lemma {:induction false} DigitSuffixOf(rest: string, digits: string)
    requires AllDigits(digits)
    requires rest != "" ==> !IsDigit(rest[|rest| - 1])
    ensures DigitSuffixStart(rest + digits) == |rest|
  {
    if digits == "" {
      assert rest + digits == rest;
    } else {
      assert (rest + digits)[..|rest + digits| - 1] == rest + digits[..|digits| - 1];
      DigitSuffixOf(rest, digits[..|digits| - 1]);
    }
  }

  /** A range total is read from any text that ends in a slash and a numeral. */
  lemma TotalOf(head: string, total: nat)
    requires head != "" && head[|head| - 1] == '/'
    ensures RangeTotal(head + Decimal(total)) == (if total > 0 then Some(total) else None)
  {
    NumeralOfDecimal(total);
    TotalOfNumeral(head, Decimal(total), total);
  }

  lemma TotalOfNumeral(head: string, digits: string, total: nat)
    requires head != "" && head[|head| - 1] == '/' && IsDigits(digits) && Numeral(digits) == total
    ensures RangeTotal(head + digits) == (if total > 0 then Some(total) else None)
  {
    var text := head + digits;
    DigitsStayAtTheEnd(text);
    DigitSuffixOf(head, digits);
    assert text[|head|..] == digits;
  }

  lemma DigitsStayAtTheEnd(text: string)
    requires text != "" && IsDigit(text[|text| - 1])
    ensures TrimRight(text, IsPySpace) == text
  {
  }

  lemma FieldOf(digits: string, separator: char, rest: string)
    requires IsDigits(digits) && !IsDigit(separator)
    ensures Field(digits + ([separator] + rest), separator) == Some((digits, rest))
  {
    var s := digits + ([separator] + rest);
    DigitPrefixOf(digits, [separator] + rest);
    assert s[..|digits|] == digits;
    assert s[|digits| + 1..] == rest;
  }

  lemma AfterUnitOf(rest: string)
    requires rest != "" && !IsPySpace(rest[0])
    ensures AfterUnit("bytes " + rest) == Some(rest)
  {
    var value := "bytes " + rest;
    assert value[..5] == "bytes" && value[5..] == " " + rest;
    assert IsBytesUnit("bytes") by {
      assert "bytes"[..4] == "byte";
      assert Lower("byte") == "byte";
    }
    assert (" " + rest)[1..] == rest;
    assert TrimLeft(rest, IsPySpace) == rest;
  }

  /** A rendered Content-Range is read back: its first byte as the start, its size as the total. */
  lemma ContentRangeRoundTrip(first: nat, last: nat, total: nat)
    ensures RangeStart(RenderContentRange(first, last, total)) == Some(first)
    ensures RangeTotal(RenderContentRange(first, last, total)) == (if total > 0 then Some(total) else None)
  {
    NumeralOfDecimal(first);
    NumeralOfDecimal(last);
    NumeralOfDecimal(total);
    StartOfDigits(Decimal(first), Decimal(last), Decimal(total));
    TotalOfDigits(Decimal(first), Decimal(last), total);
  }

  lemma TotalOfDigits(a: string, b: string, total: nat)
    ensures RangeTotal("bytes " + (a + ("-" + (b + ("/" + Decimal(total))))))
         == (if total > 0 then Some(total) else None)
  {
    var c := Decimal(total);
    assert b + ("/" + c) == (b + "/") + c;
    var head := "bytes " + (a + ("-" + (b + "/")));
    assert "bytes " + (a + ("-" + ((b + "/") + c))) == head + c;
    TotalOf(head, total);
  }

  lemma StartOfDigits(a: string, b: string, c: string)
    requires IsDigits(a) && IsDigits(b) && IsDigits(c)
    ensures RangeStart("bytes " + (a + ("-" + (b + ("/" + c))))) == Some(Numeral(a))
  {
    var afterFirst := b + ("/" + c);
    var range := a + ("-" + afterFirst);
    FieldOf(a, '-', afterFirst);
    FieldOf(b, '/', c);
    assert FirstByte(range) == Some(Numeral(a));
    StartOf(range);
  }

  lemma StartOf(range: string)
    requires range != "" && IsDigit(range[0]) && IsDigit(range[|range| - 1])
    ensures RangeStart("bytes " + range) == FirstByte(range)
  {
    TrimmedIsFixed("bytes " + range, IsPySpace);
    AfterUnitOf(range);
  }

  // ----- declared sizes -----

  lemma {:induction false} NoUnderscoresToDrop(s: string)
    requires AllDigits(s)
    ensures DropUnderscores(s) == s
  {
    if s != "" {
      NoUnderscoresToDrop(s[1..]);
    }
  }

  /** A positive decimal, with white space around it or not, reads as its number; zero reads as no size. */
  lemma PositiveIntReads(value: string, n: nat)
    requires Trim(value, IsPySpace) == Decimal(n)
    ensures PositiveInt(value) == if n > 0 then Some(n) else None
  {
    var digits := Decimal(n);
    NumeralOfDecimal(n);
    NoUnderscoresToDrop(digits);
    assert forall i :: 0 <= i < |digits| ==> digits[i] in digits;
    assert digits[0] in digits && digits[|digits| - 1] in digits;
  }

  /** The declared size is the total of a Content-Range that gives one, and only failing that the Content-Length. */
  lemma DeclaredSizeReads(headers: Headers, n: nat)
    ensures ContentRangeTotal(headers).Some? ==> DeclaredSize(headers) == ContentRangeTotal(headers)
    ensures ContentRangeTotal(headers).None? && Header(headers, "Content-Length") == Some(Decimal(n)) ==>
      DeclaredSize(headers) == if n > 0 then Some(n) else None
  {
    if Header(headers, "Content-Length") == Some(Decimal(n)) {
      DecimalIsTrimmed(n);
      PositiveIntReads(Decimal(n), n);
    }
  }

  lemma DecimalIsTrimmed(n: nat)
    ensures Trim(Decimal(n), IsPySpace) == Decimal(n)
  {
    var digits := Decimal(n);
    assert digits[0] in digits && digits[|digits| - 1] in digits;
    TrimmedIsFixed(digits, IsPySpace);
  }
}
