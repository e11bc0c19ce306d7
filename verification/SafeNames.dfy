/** Which file names and language tags a progress event may carry, said without the sanitiser and the normaliser. */
module SafeNames {
  import opened Text
  import opened ProgressEvents

  // ----- file names -----

  /** One of the sensitive words stands in the text, in any letter case, with no letter or digit next to it. */
  ghost predicate HoldsSecret(s: string) {
    exists w, i :: w in ["auth", "cookie", "credential", "password", "secret", "token"] && StandsAlone(s, w, i)
  }

  predicate StandsAlone(s: string, w: string, i: int) {
    && StandsAt(s, w, i)
    && (i > 0 ==> !IsAlnum(s[i - 1]))
    && (i + |w| < |s| ==> !IsAlnum(s[i + |w|]))
  }

  lemma WordsAreLowerCase(w: string)
    requires w in SENSITIVE_WORDS
    ensures IsLowerCase(w)
  {
  }

  lemma SensitiveIff(s: string)
    ensures IsSensitive(s) <==> HoldsSecret(s)
  {
    if IsSensitive(s) {
      var w, i :| w in SENSITIVE_WORDS && 0 <= i <= |s|
        && OccursAt(Lower(s), w, i) && BoundaryAt(s, i - 1) && BoundaryAt(s, i + |w|);
      WordsAreLowerCase(w);
      StandsAtIff(s, w, i);
      assert StandsAlone(s, w, i);
    }
    if HoldsSecret(s) {
      var w, i :| w in ["auth", "cookie", "credential", "password", "secret", "token"] && StandsAlone(s, w, i);
      WordsAreLowerCase(w);
      StandsAtIff(s, w, i);
      assert BoundaryAt(s, i - 1) && BoundaryAt(s, i + |w|);
    }
  }

  /** The characters of a file name. */
  predicate IsFileChar(c: char) {
    'a' <= c <= 'z' || 'A' <= c <= 'Z' || '0' <= c <= '9' || c in "._+() -"
  }

  /** The pattern of a portable name: a first character that is not a space, and unless it is alone up to 253 more and a
      last one that is neither a space nor a dot; with a letter or digit somewhere. */
  ghost predicate FitsPattern(s: string) {
    && (exists i :: 0 <= i < |s| && IsAlnum(s[i]))
    && ((exists first: char :: s == [first] && IsFileChar(first) && first != ' ')
        || exists first: char, middle: string, last: char :: IsFramed(s, first, middle, last))
  }

  predicate IsFramed(s: string, first: char, middle: string, last: char) {
    && s == [first] + middle + [last] && |middle| <= 253
    && IsFileChar(first) && first != ' ' && AllOf(middle, IsFileChar)
    && IsFileChar(last) && last != ' ' && last != '.'
  }

  lemma FileCharIff(c: char)
    ensures IsFileChar(c) <==> IsNameChar(c)
  {
  }

  lemma PortableIff(s: string)
    ensures IsPortableBasename(s) <==> FitsPattern(s)
  {
    forall c: char
      ensures IsFileChar(c) <==> IsNameChar(c)
    {
      FileCharIff(c);
    }
    if |s| >= 2 {
      var middle := s[1..|s| - 1];
      assert s == [s[0]] + middle + [s[|s| - 1]];
      if IsPortableBasename(s) {
        assert IsFramed(s, s[0], middle, s[|s| - 1]);
      }
      if FitsPattern(s) {
        FramedIsPortable(s);
      }
    } else if |s| == 1 {
      assert s == [s[0]];
    }
  }

  lemma FramedIsPortable(s: string)
    requires FitsPattern(s) && |s| >= 2
    ensures IsPortableBasename(s)
  {
    var first, middle, last :| IsFramed(s, first, middle, last);
    forall i | 0 <= i < |s|
      ensures IsNameChar(s[i])
    {
      if 0 < i < |s| - 1 {
        assert s[i] == middle[i - 1];
      }
      FileCharIff(s[i]);
    }
  }

  /** What a reportable name is: it fits the pattern, has no equals sign and holds no secret word. */
  lemma ReportableIff(name: string)
    ensures IsReportable(name) <==> FitsPattern(name) && '=' !in name && !HoldsSecret(name)
  {
    PortableIff(name);
    SensitiveIff(name);
  }

  /** The text behind the last slash of either kind, without white space at its ends. */
  ghost predicate IsLastSegment(path: string, name: string) {
    exists i :: IsCutAt(path, i) && name == Trim(path[i..], IsPySpace)
  }

  predicate IsCutAt(path: string, i: int) {
    && 0 <= i <= |path|
    && (i > 0 ==> path[i - 1] == '/' || path[i - 1] == '\\')
    && forall j :: i <= j < |path| ==> path[j] != '/' && path[j] != '\\'
  }

  lemma {:induction false} AfterLastSlashIs(s: string, i: nat)
    requires i <= |s| && (i > 0 ==> s[i - 1] == '/') && forall j :: i <= j < |s| ==> s[j] != '/'
    ensures AfterLastSlash(s) == s[i..]
  {
    if i < |s| {
      AfterLastSlashIs(s[..|s| - 1], i);
      assert s[i..] == s[..|s| - 1][i..] + [s[|s| - 1]];
    }
  }

  lemma LastSegmentIs(path: string, name: string)
    requires IsLastSegment(path, name)
    ensures LastSegment(path) == if IsReportable(name) then name else "model-file"
  {
    var i :| IsCutAt(path, i) && name == Trim(path[i..], IsPySpace);
    AfterLastSlashIs(Slashed(path), i);
    assert Slashed(path)[i..] == path[i..];
  }

  lemma {:induction false} EveryPathHasACut(path: string) returns (i: int)
    ensures IsCutAt(path, i)
  {
    if path == "" {
      i := 0;
    } else if path[|path| - 1] == '/' || path[|path| - 1] == '\\' {
      i := |path|;
    } else {
      i := EveryPathHasACut(path[..|path| - 1]);
    }
  }

  /** Control characters go, everything else stays in its place. */
  lemma {:induction false} ControlsGo(a: string, c: char, b: string)
    ensures WithoutControls(a + [c] + b) ==
      WithoutControls(a) + (if c as int < 32 || c as int == 127 then "" else [c]) + WithoutControls(b)
  {
    var whole := a + [c] + b;
    if a == "" {
      assert whole[1..] == b;
    } else {
      assert whole[1..] == a[1..] + [c] + b;
      ControlsGo(a[1..], c, b);
    }
  }

  /** Where the name is looked for: in the cleaned text itself, or if that has a scheme in the path of a plain
      address. */
  ghost predicate IsSource(t: string, split: UrlSplitter, path: string) {
    if Contains(t, "://")
    then
      && split(t).Some? && var u := split(t).value;
      && path == u.path && (u.scheme == "http" || u.scheme == "https") && u.hostname.Some?
      && u.username.None? && u.password.None? && u.query == "" && u.fragment == ""
    else path == t
  }

  /** A name other than the fallback is reported exactly when it is reportable and the last segment of what the text
      names; a text with a query or fragment mark names nothing. */
  lemma NameIsReportedIff(raw: string, split: UrlSplitter, name: string)
    requires name != "model-file"
    ensures SafeCurrentFileBasename(raw, split) == name <==>
      && IsReportable(name)
      && var t := Trim(WithoutControls(raw), IsPySpace);
      && '?' !in t && '#' !in t && exists path :: IsSource(t, split, path) && IsLastSegment(path, name)
  {
    var t := Trim(WithoutControls(raw), IsPySpace);
    if SafeCurrentFileBasename(raw, split) == name {
      var path := if Contains(t, SCHEME_MARK) then split(t).value.path else t;
      assert IsSource(t, split, path);
      var i := EveryPathHasACut(path);
      var last := Trim(path[i..], IsPySpace);
      assert IsLastSegment(path, last);
      LastSegmentIs(path, last);
    } else if '?' !in t && '#' !in t && IsReportable(name) {
      forall path | IsSource(t, split, path) && IsLastSegment(path, name)
        ensures false
      {
        LastSegmentIs(path, name);
        if t == "" {
          EmptyNamesNothing(path, name);
        }
      }
    }
  }

  lemma EmptyNamesNothing(path: string, name: string)
    requires path == "" && IsLastSegment(path, name)
    ensures name == ""
  {
  }

  // ----- language tags -----

  predicate InRange(s: string, low: char, high: char) {
    forall i :: 0 <= i < |s| ==> low <= s[i] <= high
  }

  predicate IsPlainLanguage(s: string) {
    2 <= |s| <= 3 && InRange(s, 'a', 'z')
  }

  predicate IsPlainScript(s: string) {
    |s| == 4 && 'A' <= s[0] <= 'Z' && InRange(s[1..], 'a', 'z')
  }

  predicate IsPlainRegion(s: string) {
    (|s| == 2 && InRange(s, 'A', 'Z')) || (|s| == 3 && InRange(s, '0', '9'))
  }

  /** A tag such as "en", "en-US", "zh-Hans" or "zh-Hans-419": a language, then perhaps a script, then perhaps a
      region. */
  predicate IsPlainTag(parts: seq<string>) {
    && 1 <= |parts| <= 3 && IsPlainLanguage(parts[0])
    && (|parts| == 2 ==> IsPlainScript(parts[1]) || IsPlainRegion(parts[1]))
    && (|parts| == 3 ==> IsPlainScript(parts[1]) && IsPlainRegion(parts[2]))
  }

  lemma LowerIff(s: string)
    ensures IsAlpha(s) && Lower(s) == s <==> s != "" && InRange(s, 'a', 'z')
  {
    assert Lower(s) == s <==> forall i :: 0 <= i < |s| ==> LowerChar(s[i]) == s[i];
  }

  lemma TitledIff(s: string)
    ensures IsScript(s) && Titled(s) == s <==> IsPlainScript(s)
  {
    if |s| == 4 {
      assert s == [s[0]] + s[1..];
      assert Titled(s) == s <==> forall i :: 0 <= i < |s| ==> TitledChar(s, i) == s[i];
      assert forall i :: 1 <= i < |s| ==> s[i] == s[1..][i - 1];
    }
  }

  lemma RegionIff(s: string)
    ensures Region(s) == Some(s) <==> IsPlainRegion(s)
  {
    assert Upper(s) == s <==> forall i :: 0 <= i < |s| ==> UpperChar(s[i]) == s[i];
  }

  lemma CanonicalIff(parts: seq<string>)
    ensures IsCanonicalParts(parts) <==> IsPlainTag(parts)
  {
    if 1 <= |parts| <= 3 {
      LowerIff(parts[0]);
      if |parts| > 1 {
        TitledIff(parts[1]);
        RegionIff(parts[|parts| - 1]);
      }
    }
  }

  /** The same texts but for the case of letters. */
  predicate SameFolded(ps: seq<string>, qs: seq<string>) {
    |ps| == |qs| && forall i :: 0 <= i < |ps| ==> Lower(ps[i]) == Lower(qs[i])
  }

  lemma {:induction false} JoinOfSplit(s: string, separator: char)
    ensures JoinWith(SplitAt(s, separator), separator) == s
  {
    if s != "" {
      JoinOfSplit(s[1..], separator);
      assert s == [s[0]] + s[1..];
    }
  }

  lemma TailsFold(s: string, t: string)
    requires s != "" && Lower(s) == Lower(t)
    ensures t != "" && LowerChar(s[0]) == LowerChar(t[0]) && (s[0] == '-' <==> t[0] == '-')
    ensures Lower(s[1..]) == Lower(t[1..])
  {
    assert |s| == |t|;
    assert Lower(s)[0] == Lower(t)[0];
    assert Lower(s[1..]) == Lower(s)[1..] == Lower(t[1..]);
  }

  lemma HeadsFold(c: char, s: string, d: char, t: string)
    requires LowerChar(c) == LowerChar(d) && Lower(s) == Lower(t)
    ensures Lower([c] + s) == Lower([d] + t)
  {
    assert Lower([c] + s) == [LowerChar(c)] + Lower(s) == [LowerChar(d)] + Lower(t) == Lower([d] + t);
  }

  lemma {:induction false} SplitFolds(s: string, t: string)
    requires Lower(s) == Lower(t)
    ensures SameFolded(SplitAt(s, '-'), SplitAt(t, '-'))
  {
    if s == "" {
      assert |t| == 0;
    } else {
      TailsFold(s, t);
      SplitFolds(s[1..], t[1..]);
      HeadsFold(s[0], SplitAt(s[1..], '-')[0], t[0], SplitAt(t[1..], '-')[0]);
    }
  }

  lemma {:induction false} JoinFolds(ps: seq<string>, qs: seq<string>)
    requires ps != [] && SameFolded(ps, qs)
    ensures Lower(JoinWith(ps, '-')) == Lower(JoinWith(qs, '-'))
  {
    if |ps| > 1 {
      JoinFolds(ps[1..], qs[1..]);
    }
  }

  lemma PartFolds(s: string, t: string)
    requires Lower(s) == Lower(t)
    ensures |s| == |t| && (IsAlpha(s) <==> IsAlpha(t)) && (IsScript(s) <==> IsScript(t))
    ensures Titled(s) == Titled(t) && Region(s) == Region(t)
    ensures AllOf(s, IsLetter) <==> AllOf(t, IsLetter)
    ensures AllOf(s, IsAlnum) <==> AllOf(t, IsAlnum)
  {
    assert |s| == |t|;
    forall i | 0 <= i < |s|
      ensures SameLetter(s[i], t[i])
    {
      assert Lower(s)[i] == Lower(t)[i];
    }
    if |s| == 3 && AllDigits(s) {
      assert s == t;
    }
    assert Upper(s) == Upper(t);
  }

  predicate SameLetter(c: char, d: char) {
    && LowerChar(c) == LowerChar(d) && UpperChar(c) == UpperChar(d)
    && (IsLetter(c) <==> IsLetter(d)) && (IsDigit(c) <==> IsDigit(d)) && (IsDigit(c) ==> c == d)
  }

  lemma PartsFold(ps: seq<string>, qs: seq<string>)
    requires ps != [] && SameFolded(ps, qs)
    ensures CanonicalParts(ps) == CanonicalParts(qs)
  {
    PartFolds(ps[0], qs[0]);
    if |ps| > 1 {
      PartFolds(ps[1], qs[1]);
    }
    if |ps| > 2 {
      PartFolds(ps[2], qs[2]);
    }
  }

  lemma CanonicalPartsFold(parts: seq<string>)
    requires parts != [] && CanonicalParts(parts).Some?
    ensures SameFolded(parts, CanonicalParts(parts).value)
  {
  }

  lemma TagsFold(s: string, t: string)
    requires Lower(s) == Lower(t)
    ensures IsLanguageTag(s) <==> IsLanguageTag(t)
  {
    SplitFolds(s, t);
    var ps, qs := SplitAt(s, '-'), SplitAt(t, '-');
    forall i | 0 <= i < |ps|
      ensures |ps[i]| == |qs[i]| && (AllOf(ps[i], IsLetter) <==> AllOf(qs[i], IsLetter))
      ensures AllOf(ps[i], IsAlnum) <==> AllOf(qs[i], IsAlnum)
    {
      PartFolds(ps[i], qs[i]);
    }
  }

  /** A raw tag is normalised to a tag exactly when that is a plain tag and the raw one, trimmed and with dashes for
      underscores, differs from it only in the case of letters. */
  lemma TagIsNormalisedIff(raw: string, tag: string)
    ensures NormalizeLanguageTag(raw) == Some(tag) <==>
      && IsPlainTag(SplitAt(tag, '-'))
      && var t := Trim(raw, IsPySpace);
      && |t| == |tag| && forall i :: 0 <= i < |t| ==> LowerChar(if t[i] == '_' then '-' else t[i]) == LowerChar(tag[i])
  {
    var t := Trim(raw, IsPySpace);
    var candidate := Dashed(t);
    var ps, qs := SplitAt(candidate, '-'), SplitAt(tag, '-');
    CanonicalIff(qs);
    if NormalizeLanguageTag(raw) == Some(tag) {
      var canonical := CanonicalParts(ps).value;
      CanonicalPartsAreCanonical(ps);
      CanonicalPartsSplit(canonical);
      CanonicalPartsFold(ps);
      JoinFolds(ps, canonical);
      JoinOfSplit(candidate, '-');
      assert Lower(candidate) == Lower(tag);
      forall i | 0 <= i < |t|
        ensures LowerChar(candidate[i]) == LowerChar(tag[i])
      {
        assert Lower(candidate)[i] == Lower(tag)[i];
      }
    }
    if IsPlainTag(qs) && |t| == |tag|
       && forall i :: 0 <= i < |t| ==> LowerChar(if t[i] == '_' then '-' else t[i]) == LowerChar(tag[i]) {
      assert Lower(candidate) == Lower(tag);
      JoinOfSplit(tag, '-');
      JoinedIsTag(qs);
      CanonicalPartsAreFixed(qs);
      SplitFolds(candidate, tag);
      PartsFold(ps, qs);
      TagsFold(candidate, tag);
    }
  }

  predicate IsAsciiLetter(c: char) {
    'a' <= c <= 'z' || 'A' <= c <= 'Z'
  }

  predicate IsSubtagChar(c: char) {
    IsAsciiLetter(c) || '0' <= c <= '9'
  }

  /** Parts joined by dashes are a language tag, on both sides, exactly when the first is two to eight letters and every
      other one to eight letters or digits. */
  lemma TagPatternIff(parts: seq<string>)
    requires parts != [] && forall i :: 0 <= i < |parts| ==> '-' !in parts[i]
    ensures IsLanguageTag(JoinWith(parts, '-')) <==>
      && 2 <= |parts[0]| <= 8 && AllOf(parts[0], IsAsciiLetter)
      && forall i :: 1 <= i < |parts| ==> 1 <= |parts[i]| <= 8 && AllOf(parts[i], IsSubtagChar)
  {
    SplitOfJoin(parts, '-');
    forall i | 0 <= i < |parts|
      ensures AllOf(parts[i], IsAsciiLetter) <==> AllOf(parts[i], IsLetter)
      ensures AllOf(parts[i], IsSubtagChar) <==> AllOf(parts[i], IsAlnum)
    {
      assert forall c: char :: (IsAsciiLetter(c) <==> IsLetter(c)) && (IsSubtagChar(c) <==> IsAlnum(c));
    }
  }
}
