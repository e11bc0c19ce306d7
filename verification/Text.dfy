/** Text operations the worker (Python) and the desktop (JavaScript) share: trimming, searching,
    ASCII case folding and decimal numerals, with the laws the other modules rest on. */
module Text {

  datatype Option<+T> = None | Some(value: T) {
    predicate IsFailure() { None? }
    function PropagateFailure<U>(): Option<U>
      requires None?
    {
      None
    }
    function Extract(): T
      requires Some?
    {
      value
    }
  }

  datatype Result<+T, +E> = Ok(value: T) | Err(error: E) {
    predicate IsFailure() { Err? }
    function PropagateFailure<U>(): Result<U, E>
      requires Err?
    {
      Err(error)
    }
    function Extract(): T
      requires Ok?
    {
      value
    }
  }

  // ----- white space -----

  /** What Python's `str.strip` removes. */
  predicate IsPySpace(c: char) {
    IsSharedSpace(c) || '\U{1C}' <= c <= '\U{1F}' || c == '\U{85}'
  }

  /** What JavaScript's `String.prototype.trim` removes. */
  predicate IsJsSpace(c: char) {
    IsSharedSpace(c) || c == '\U{FEFF}'
  }

  predicate IsSharedSpace(c: char) {
    || '\U{09}' <= c <= '\U{0D}'
    || c in {' ', '\U{A0}', '\U{1680}', '\U{2028}', '\U{2029}', '\U{202F}', '\U{205F}', '\U{3000}'}
    || '\U{2000}' <= c <= '\U{200A}'
  }

  /** By code point: what both languages trim, and what only one of them does. */
  lemma SpacesAre(c: char)
    ensures var code := c as int;
      && (IsPySpace(c) && IsJsSpace(c) <==>
            || 9 <= code <= 13 || code == 32 || code == 160 || code == 5760 || 8192 <= code <= 8202
            || code == 8232 || code == 8233 || code == 8239 || code == 8287 || code == 12288)
      && (IsPySpace(c) && !IsJsSpace(c) <==> 28 <= code <= 31 || code == 133)
      && (IsJsSpace(c) && !IsPySpace(c) <==> code == 65279)
  {
  }

  function TrimLeft(s: string, space: char -> bool): (r: string) {
    if s != "" && space(s[0]) then TrimLeft(s[1..], space) else s
  }

  function TrimRight(s: string, space: char -> bool): (r: string) {
    if s != "" && space(s[|s| - 1]) then TrimRight(s[..|s| - 1], space) else s
  }

  function Trim(s: string, space: char -> bool): string {
    TrimRight(TrimLeft(s, space), space)
  }

  /** Nothing at either end would be trimmed. */
  predicate Trimmed(s: string, space: char -> bool) {
    s == "" || (!space(s[0]) && !space(s[|s| - 1]))
  }

  lemma {:induction false} TrimLeftResult(s: string, space: char -> bool)
    ensures var r := TrimLeft(s, space);
      && |r| <= |s|
      && r == s[|s| - |r|..]
      && (forall i :: 0 <= i < |s| - |r| ==> space(s[i]))
      && (r != "" ==> !space(r[0]))
  {
    if s != "" && space(s[0]) {
      TrimLeftResult(s[1..], space);
      var r := TrimLeft(s[1..], space);
      assert s[1..][|s| - 1 - |r|..] == s[|s| - |r|..];
      assert forall i :: 1 <= i < |s| - |r| ==> s[i] == s[1..][i - 1];
    }
  }

  lemma {:induction false} TrimRightResult(s: string, space: char -> bool)
    ensures var r := TrimRight(s, space);
      && r <= s
      && (forall i :: |r| <= i < |s| ==> space(s[i]))
      && (r != "" ==> !space(r[|r| - 1]))
  {
    if s != "" && space(s[|s| - 1]) {
      TrimRightResult(s[..|s| - 1], space);
    }
  }

  /** Trimming keeps a middle piece of the text, with only white space around it. */
  lemma TrimResult(s: string, space: char -> bool)
    ensures Trimmed(Trim(s, space), space)
    ensures |Trim(s, space)| <= |s|
    ensures Trim(s, space) == "" <==> forall i :: 0 <= i < |s| ==> space(s[i])
    ensures forall c :: c in Trim(s, space) ==> c in s
  {
    var left := TrimLeft(s, space);
    TrimLeftResult(s, space);
    TrimRightResult(left, space);
    assert left != "" ==> left[0] == s[|s| - |left|];
    assert forall i :: |s| - |left| <= i < |s| ==> s[i] == left[i - (|s| - |left|)];
  }

  /** Text with no white space at its ends is left alone, so trimming twice is trimming once. */
  lemma TrimmedIsFixed(s: string, space: char -> bool)
    requires Trimmed(s, space)
    ensures Trim(s, space) == s
  {
  }

  // ----- searching and case -----

  predicate Contains(text: string, piece: string) {
    exists i :: 0 <= i <= |text| && OccursAt(text, piece, i)
  }

  predicate OccursAt(text: string, piece: string, i: int) {
    0 <= i <= |text| - |piece| && text[i..i + |piece|] == piece
  }

  function LowerChar(c: char): char {
    if 'A' <= c <= 'Z' then c - 'A' + 'a' else c
  }

  function UpperChar(c: char): char {
    if 'a' <= c <= 'z' then c - 'a' + 'A' else c
  }

  function Lower(s: string): (r: string)
    ensures |r| == |s|
    ensures forall i :: 0 <= i < |s| ==> r[i] == LowerChar(s[i])
  {
    seq(|s|, i requires 0 <= i < |s| => LowerChar(s[i]))
  }

  function Upper(s: string): (r: string)
    ensures |r| == |s|
    ensures forall i :: 0 <= i < |s| ==> r[i] == UpperChar(s[i])
  {
    seq(|s|, i requires 0 <= i < |s| => UpperChar(s[i]))
  }

  predicate IsLetter(c: char) {
    'A' <= c <= 'Z' || 'a' <= c <= 'z'
  }

  predicate IsDigit(c: char) {
    '0' <= c <= '9'
  }

  predicate IsAlnum(c: char) {
    IsLetter(c) || IsDigit(c)
  }

  // ----- text in either case -----

  /** The piece stands in the text at this position, each letter in either case. */
  predicate StandsAt(text: string, piece: string, i: int) {
    0 <= i <= |text| - |piece|
    && forall j :: 0 <= j < |piece| ==> text[i + j] == piece[j] || text[i + j] == UpperChar(piece[j])
  }

  ghost predicate StandsIn(text: string, piece: string) {
    exists i :: StandsAt(text, piece, i)
  }

  predicate IsLowerCase(piece: string) {
    forall j :: 0 <= j < |piece| ==> LowerChar(piece[j]) == piece[j]
  }

  lemma StandsAtIff(text: string, piece: string, i: int)
    requires IsLowerCase(piece)
    ensures StandsAt(text, piece, i) <==> OccursAt(Lower(text), piece, i)
  {
    if 0 <= i <= |text| - |piece| {
      var part := Lower(text)[i..i + |piece|];
      assert forall j :: 0 <= j < |piece| ==> part[j] == LowerChar(text[i + j]);
      if OccursAt(Lower(text), piece, i) {
        forall j | 0 <= j < |piece|
          ensures text[i + j] == piece[j] || text[i + j] == UpperChar(piece[j])
        {
          assert part[j] == piece[j];
        }
      }
      if StandsAt(text, piece, i) {
        forall j | 0 <= j < |piece|
          ensures part[j] == piece[j]
        {
          assert LowerChar(piece[j]) == piece[j];
        }
        assert part == piece;
      }
    }
  }

  lemma StandsInIff(text: string, piece: string)
    requires IsLowerCase(piece)
    ensures StandsIn(text, piece) <==> Contains(Lower(text), piece)
  {
    if StandsIn(text, piece) {
      var i :| StandsAt(text, piece, i);
      StandsAtIff(text, piece, i);
    }
    if Contains(Lower(text), piece) {
      var i :| 0 <= i <= |Lower(text)| && OccursAt(Lower(text), piece, i);
      StandsAtIff(text, piece, i);
    }
  }

  // ----- decimal numerals -----

  function DigitChar(d: nat): (c: char)
    requires d < 10
    ensures IsDigit(c)
  {
    '0' + d as char
  }

  function DigitValue(c: char): (d: nat)
    requires IsDigit(c)
    ensures d < 10
  {
    (c - '0') as nat
  }

  /** The numeral of n, without leading zeros. */
  function Decimal(n: nat): (s: string)
    ensures |s| > 0
    ensures forall c :: c in s ==> IsDigit(c)
  {
    if n < 10 then [DigitChar(n)] else Decimal(n / 10) + [DigitChar(n % 10)]
  }

  predicate AllDigits(s: string) {
    forall i :: 0 <= i < |s| ==> IsDigit(s[i])
  }

  function Numeral(s: string): nat
    requires AllDigits(s)
  {
    if s == "" then 0 else 10 * Numeral(s[..|s| - 1]) + DigitValue(s[|s| - 1])
  }

  lemma {:induction false} NumeralOfDecimal(n: nat)
    ensures AllDigits(Decimal(n)) && Numeral(Decimal(n)) == n
  {
    if n >= 10 {
      NumeralOfDecimal(n / 10);
      var s := Decimal(n);
      assert s[..|s| - 1] == Decimal(n / 10);
    }
  }

  // ----- fields between separators -----

  /** The text cut at every separator. */
  function SplitAt(s: string, separator: char): (parts: seq<string>)
    ensures parts != []
  {
    if s == "" then [""]
    else
      var rest := SplitAt(s[1..], separator);
      if s[0] == separator then [""] + rest else [[s[0]] + rest[0]] + rest[1..]
  }

  function JoinWith(parts: seq<string>, separator: char): string
    requires parts != []
  {
    if |parts| == 1 then parts[0] else parts[0] + [separator] + JoinWith(parts[1..], separator)
  }

  predicate AllOf(s: string, kind: char -> bool) {
    forall i :: 0 <= i < |s| ==> kind(s[i])
  }

  /** A language tag: two to eight letters, then subtags of one to eight letters or digits. */
  predicate IsLanguageTag(s: string) {
    var parts := SplitAt(s, '-');
    && 2 <= |parts[0]| <= 8 && AllOf(parts[0], IsLetter)
    && forall i :: 1 <= i < |parts| ==> 1 <= |parts[i]| <= 8 && AllOf(parts[i], IsAlnum)
  }
}
