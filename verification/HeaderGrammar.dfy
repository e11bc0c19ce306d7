/** Exactly which header values are read, as the patterns the worker matches them with. */
module HeaderGrammar {
  import opened Text
  import opened HttpHeaders

  // ----- fields -----

  /** The field at i is the first one with the name, in any letter case. */
  predicate IsFirstField(headers: Headers, name: string, i: int) {
    && 0 <= i < |headers| && Lower(headers[i].0) == Lower(name)
    && forall j :: 0 <= j < i ==> Lower(headers[j].0) != Lower(name)
  }

  /** A header has the value of the first field with its name. */
  lemma {:induction false} HeaderIs(headers: Headers, name: string, value: string)
    ensures Header(headers, name) == Some(value) <==>
      exists i :: IsFirstField(headers, name, i) && headers[i].1 == value
  {
    if headers != [] && Lower(headers[0].0) == Lower(name) {
      assert IsFirstField(headers, name, 0);
    } else if headers != [] {
      HeaderIs(headers[1..], name, value);
      if i :| IsFirstField(headers, name, i) && headers[i].1 == value {
        assert IsFirstField(headers[1..], name, i - 1) && headers[1..][i - 1].1 == value;
      }
      if i :| IsFirstField(headers[1..], name, i) && headers[1..][i].1 == value {
        assert forall j :: 0 < j < i + 1 ==> headers[j] == headers[1..][j - 1];
        assert IsFirstField(headers, name, i + 1) && headers[i + 1].1 == value;
      }
    }
  }

  // ----- a size -----

  /** Runs of digits, none of them empty. */
  predicate AreGroups(parts: seq<string>) {
    forall i :: 0 <= i < |parts| ==> IsDigits(parts[i])
  }

  function Concat(parts: seq<string>): string {
    if parts == [] then "" else parts[0] + Concat(parts[1..])
  }

  lemma HeadGroup(head: string, rest: seq<string>)
    ensures AreGroups([head] + rest) <==> IsDigits(head) && AreGroups(rest)
  {
    assert AreGroups([head] + rest) ==> IsDigits(([head] + rest)[0]);
    assert forall i :: 0 <= i < |rest| ==> ([head] + rest)[i + 1] == rest[i];
  }

  lemma LongerGroup(c: char, parts: seq<string>)
    requires parts != [] && IsDigit(c) && parts[0] != ""
    ensures AreGroups([[c] + parts[0]] + parts[1..]) <==> AreGroups(parts)
  {
    HeadGroup([c] + parts[0], parts[1..]);
    HeadGroup(parts[0], parts[1..]);
    assert [parts[0]] + parts[1..] == parts;
    assert forall i :: 0 <= i < |parts[0]| ==> ([c] + parts[0])[i + 1] == parts[0][i];
  }

  lemma TailIsInGroup(s: string, n: nat, i: nat)
    requires n + i < |s|
    ensures IsInGroup(s[n..], i) ==> IsInGroup(s, n + i)
    ensures IsInGroup(s, n + i) && (i > 0 || IsDigit(s[n])) ==> IsInGroup(s[n..], i)
  {
  }

  lemma TailIsInGroups(s: string, n: nat)
    requires n < |s| && IsDigit(s[n]) && forall i :: 0 <= i < n ==> IsInGroup(s, i)
    requires IsDigit(s[0])
    ensures IsDigitGroups(s) <==> IsDigitGroups(s[n..])
  {
    forall i | 0 <= i < |s| - n
      ensures IsInGroup(s[n..], i) <==> IsInGroup(s, n + i)
    {
      TailIsInGroup(s, n, i);
    }
    if IsDigitGroups(s[n..]) {
      forall i | 0 <= i < |s|
        ensures IsInGroup(s, i)
      {
        if i >= n {
          assert IsInGroup(s[n..], i - n);
        }
      }
    }
  }

  lemma GroupsGoOn(s: string)
    requires |s| >= 2 && IsDigit(s[0])
    ensures IsDigit(s[1]) ==> (IsDigitGroups(s) <==> IsDigitGroups(s[1..]))
    ensures s[1] == '_' ==> (IsDigitGroups(s) <==> IsDigitGroups(s[2..]))
    ensures IsDigitGroups(s) ==> IsDigit(s[1]) || s[1] == '_'
  {
    if IsDigit(s[1]) {
      TailIsInGroups(s, 1);
    } else if s[1] == '_' {
      if |s| > 2 && IsDigit(s[2]) {
        TailIsInGroups(s, 2);
      } else if |s| > 2 {
        assert !IsInGroup(s, 2);
      }
    } else {
      assert !IsInGroup(s, 1);
    }
  }

  /** Digits with single underscores between them are what falls into non-empty runs of digits at the underscores. */
  lemma {:induction false} GroupsIff(s: string)
    ensures IsDigitGroups(s) <==> AreGroups(SplitAt(s, '_'))
  {
    if s == "" {
      HeadGroup("", []);
    } else if s[0] == '_' {
      HeadGroup("", SplitAt(s[1..], '_'));
    } else if !IsDigit(s[0]) {
      var rest := SplitAt(s[1..], '_');
      HeadGroup([s[0]] + rest[0], rest[1..]);
      assert ([s[0]] + rest[0])[0] == s[0];
    } else if |s| == 1 {
      assert SplitAt(s[1..], '_') == [""];
      HeadGroup([s[0]] + "", []);
      assert [s[0]] + "" == s;
    } else {
      GroupsGoOn(s);
      var rest := SplitAt(s[1..], '_');
      assert s[1..][1..] == s[2..];
      if s[1] == '_' {
        GroupsIff(s[2..]);
        HeadGroup([s[0]], SplitAt(s[2..], '_'));
        assert rest == [""] + SplitAt(s[2..], '_');
        assert [s[0]] + "" == [s[0]] && rest[1..] == SplitAt(s[2..], '_');
      } else {
        assert rest[0][0] == s[1];
        if IsDigit(s[1]) {
          GroupsIff(s[1..]);
          LongerGroup(s[0], rest);
        } else {
          HeadGroup([s[0]] + rest[0], rest[1..]);
          assert ([s[0]] + rest[0])[1] == s[1];
        }
      }
    }
  }

  lemma {:induction false} DroppedIs(s: string)
    ensures DropUnderscores(s) == Concat(SplitAt(s, '_'))
  {
    if s != "" {
      var rest := SplitAt(s[1..], '_');
      DroppedIs(s[1..]);
      assert ([""] + rest)[1..] == rest;
      assert "" + Concat(rest) == Concat(rest);
      assert ([[s[0]] + rest[0]] + rest[1..])[1..] == rest[1..];
      assert ([s[0]] + rest[0]) + Concat(rest[1..]) == [s[0]] + (rest[0] + Concat(rest[1..]));
    }
  }

  /** A literal of n: perhaps a plus sign, then runs of digits between single underscores that make up the numeral. */
  ghost predicate IsLiteralOf(t: string, n: nat) {
    exists sign: string, body: string :: IsSignedBody(t, sign, body, n)
  }

  predicate IsSignedBody(t: string, sign: string, body: string, n: nat) {
    && (sign == "" || sign == "+") && t == sign + body
    && AreGroups(SplitAt(body, '_'))
    && AllDigits(Concat(SplitAt(body, '_'))) && Numeral(Concat(SplitAt(body, '_'))) == n
  }

  /** What is left of a literal without a plus sign in front. */
  function Unsigned(t: string): string {
    if t != "" && t[0] == '+' then t[1..] else t
  }

  lemma SignIs(t: string, sign: string, body: string, n: nat)
    requires IsSignedBody(t, sign, body, n)
    ensures Unsigned(t) == body
  {
    GroupsIff(body);
    assert body[0] != '+';
  }

  lemma UnsignedIs(t: string) returns (sign: string)
    ensures (sign == "" || sign == "+") && t == sign + Unsigned(t)
  {
    sign := if t != "" && t[0] == '+' then "+" else "";
  }

  lemma PositiveIntOf(value: string)
    ensures var parts := SplitAt(Unsigned(Trim(value, IsPySpace)), '_');
      PositiveInt(value) ==
        if AreGroups(parts) && AllDigits(Concat(parts)) && Numeral(Concat(parts)) > 0 then Some(Numeral(Concat(parts)))
        else None
  {
    var body := Unsigned(Trim(value, IsPySpace));
    GroupsIff(body);
    DroppedIs(body);
  }

  /** A size is read as n exactly when it is, but for white space around it, a literal of n, and n is positive. */
  lemma PositiveIntIff(value: string, n: nat)
    ensures PositiveInt(value) == Some(n) <==> n > 0 && IsLiteralOf(Trim(value, IsPySpace), n)
  {
    var t := Trim(value, IsPySpace);
    var sign := UnsignedIs(t);
    PositiveIntOf(value);
    if PositiveInt(value) == Some(n) {
      assert IsSignedBody(t, sign, Unsigned(t), n);
    }
    forall otherSign, body | IsSignedBody(t, otherSign, body, n)
      ensures Unsigned(t) == body
    {
      SignIs(t, otherSign, body, n);
    }
  }

  // ----- the total of a range -----

  predicate EndsInTotal(value: string, head: string, digits: string, tail: string) {
    value == head + "/" + digits + tail && IsDigits(digits) && AllOf(tail, IsPySpace)
  }

  lemma {:induction false} TrimmedAtTheEndIs(kept: string, tail: string)
    requires kept != "" && !IsPySpace(kept[|kept| - 1]) && AllOf(tail, IsPySpace)
    ensures TrimRight(kept + tail, IsPySpace) == kept
  {
    if tail == "" {
      assert kept + tail == kept;
    } else {
      assert (kept + tail)[..|kept + tail| - 1] == kept + tail[..|tail| - 1];
      TrimmedAtTheEndIs(kept, tail[..|tail| - 1]);
    }
  }

  lemma TotalFrom(value: string) returns (head: string, digits: string, tail: string)
    requires RangeTotal(value).Some?
    ensures EndsInTotal(value, head, digits, tail) && RangeTotal(value) == Some(Numeral(digits))
  {
    var t := TrimRight(value, IsPySpace);
    TrimRightResult(value, IsPySpace);
    var start := DigitSuffixStart(t);
    head, digits, tail := t[..start - 1], t[start..], value[|t|..];
    assert t == head + "/" + digits && value == t + tail;
  }

  lemma TotalAtTheEnd(value: string, head: string, digits: string, tail: string)
    requires EndsInTotal(value, head, digits, tail)
    ensures RangeTotal(value) == if Numeral(digits) > 0 then Some(Numeral(digits)) else None
  {
    var kept := head + "/" + digits;
    assert kept[|kept| - 1] == digits[|digits| - 1];
    TrimmedAtTheEndIs(kept, tail);
    DigitsStayAtTheEnd(kept);
    TotalOfNumeral(head + "/", digits, Numeral(digits));
    assert RangeTotal(value) == RangeTotal(kept);
  }

  /** A total n is read exactly from a text that ends in a slash, a numeral of n and perhaps white space, and n is
      positive. */
  lemma RangeTotalIff(value: string, n: nat)
    ensures RangeTotal(value) == Some(n) <==>
      n > 0 && exists head, digits, tail :: EndsInTotal(value, head, digits, tail) && Numeral(digits) == n
  {
    if RangeTotal(value).Some? {
      var head, digits, tail := TotalFrom(value);
    }
    forall head, digits, tail | EndsInTotal(value, head, digits, tail)
      ensures RangeTotal(value) == if Numeral(digits) > 0 then Some(Numeral(digits)) else None
    {
      TotalAtTheEnd(value, head, digits, tail);
    }
  }

  // ----- the start of a range -----

  /** The parts of a Content-Range: `bytes 500-999/1500`. */
  datatype Range = Range(unit: string, gap: string, first: string, last: string, total: string)

  /** The word `bytes` in any letter case; a long s stands for an s. */
  predicate IsUnit(unit: string) {
    |unit| == 5 && StandsAt(unit, "byte", 0) && (unit[4] == 's' || unit[4] == 'S' || unit[4] == '\U{17F}')
  }

  predicate IsWellFormed(r: Range) {
    && IsUnit(r.unit) && r.gap != "" && AllOf(r.gap, IsPySpace)
    && IsDigits(r.first) && IsDigits(r.last) && (r.total == "*" || IsDigits(r.total))
  }

  function Spelled(r: Range): string {
    r.unit + (r.gap + (r.first + ("-" + (r.last + ("/" + r.total)))))
  }

  lemma UnitIff(unit: string)
    ensures IsBytesUnit(unit) <==> IsUnit(unit)
  {
    var byte := "byte";
    assert |byte| == 4 && IsLowerCase(byte);
    StandsAtIff(unit, byte, 0);
    if |unit| == 5 {
      assert Lower(unit)[0..4] == Lower(unit[..4]);
    }
  }

  lemma FieldIs(s: string, separator: char, digits: string, rest: string)
    requires Field(s, separator) == Some((digits, rest))
    ensures IsDigits(digits) && s == digits + ([separator] + rest)
  {
  }

  lemma {:induction false} GapIs(gap: string, rest: string)
    requires AllOf(gap, IsPySpace) && rest != "" && !IsPySpace(rest[0])
    ensures TrimLeft(gap + rest, IsPySpace) == rest
  {
    if gap == "" {
      assert gap + rest == rest;
    } else {
      assert (gap + rest)[1..] == gap[1..] + rest;
      GapIs(gap[1..], rest);
    }
  }

  lemma UnitOf(unit: string, gap: string, rest: string)
    requires IsUnit(unit) && gap != "" && AllOf(gap, IsPySpace) && rest != "" && !IsPySpace(rest[0])
    ensures AfterUnit(unit + (gap + rest)) == Some(rest)
  {
    var value := unit + (gap + rest);
    UnitIff(unit);
    assert value[..5] == unit && value[5..] == gap + rest;
    GapIs(gap, rest);
    assert |rest| < |gap + rest|;
  }

  lemma FirstByteOf(first: string, last: string, total: string)
    requires IsDigits(first) && IsDigits(last) && (total == "*" || IsDigits(total))
    ensures FirstByte(first + ("-" + (last + ("/" + total)))) == Some(Numeral(first))
  {
    FieldOf(first, '-', last + ("/" + total));
    FieldOf(last, '/', total);
  }

  lemma SpelledIsTrimmed(r: Range)
    requires IsWellFormed(r)
    ensures Trimmed(Spelled(r), IsPySpace)
  {
    var value := Spelled(r);
    UnitIff(r.unit);
    assert LowerChar(r.unit[0]) == Lower(r.unit[..4])[0] == 'b';
    assert value[0] == r.unit[0] && value[|value| - 1] == r.total[|r.total| - 1];
  }

  lemma StartOfSpelled(r: Range)
    requires IsWellFormed(r)
    ensures Trimmed(Spelled(r), IsPySpace) && RangeStart(Spelled(r)) == Some(Numeral(r.first))
  {
    var range := r.first + ("-" + (r.last + ("/" + r.total)));
    SpelledIsTrimmed(r);
    TrimmedIsFixed(Spelled(r), IsPySpace);
    assert range[0] == r.first[0];
    UnitOf(r.unit, r.gap, range);
    FirstByteOf(r.first, r.last, r.total);
  }

  lemma UnitFrom(t: string) returns (gap: string)
    requires AfterUnit(t).Some?
    ensures |t| >= 5 && IsUnit(t[..5]) && gap != "" && AllOf(gap, IsPySpace)
    ensures t == t[..5] + (gap + AfterUnit(t).value)
  {
    var rest := AfterUnit(t).value;
    UnitIff(t[..5]);
    TrimLeftResult(t[5..], IsPySpace);
    gap := t[5..][..|t| - 5 - |rest|];
    assert t[5..] == gap + rest;
    assert t == t[..5] + t[5..];
  }

  lemma BytesFrom(range: string) returns (first: string, last: string, total: string)
    requires FirstByte(range).Some?
    ensures IsDigits(first) && IsDigits(last) && (total == "*" || IsDigits(total))
    ensures range == first + ("-" + (last + ("/" + total))) && FirstByte(range) == Some(Numeral(first))
  {
    var split := Field(range, '-').value;
    var splitAgain := Field(split.1, '/').value;
    FieldIs(range, '-', split.0, split.1);
    FieldIs(split.1, '/', splitAgain.0, splitAgain.1);
    first, last, total := split.0, splitAgain.0, splitAgain.1;
  }

  lemma SpelledFrom(value: string) returns (r: Range)
    requires RangeStart(value).Some?
    ensures IsWellFormed(r) && Spelled(r) == Trim(value, IsPySpace) && RangeStart(value) == Some(Numeral(r.first))
  {
    var t := Trim(value, IsPySpace);
    var gap := UnitFrom(t);
    var first, last, total := BytesFrom(AfterUnit(t).value);
    r := Range(t[..5], gap, first, last, total);
  }

  /** The start of a range is read as n exactly when the text, but for white space around it, is the unit, white
      space, a numeral of n, a dash, a numeral, a slash, and a numeral or an asterisk. */
  lemma RangeStartIff(value: string, n: nat)
    ensures RangeStart(value) == Some(n) <==>
      exists r :: IsWellFormed(r) && Spelled(r) == Trim(value, IsPySpace) && Numeral(r.first) == n
  {
    if RangeStart(value) == Some(n) {
      var r := SpelledFrom(value);
    }
    if r :| IsWellFormed(r) && Spelled(r) == Trim(value, IsPySpace) && Numeral(r.first) == n {
      StartOfSpelled(r);
      TrimmedIsFixed(Spelled(r), IsPySpace);
      assert RangeStart(value) == RangeStart(Spelled(r));
    }
  }
}
