/** The identifiers of managed model calls: one seed, cut and tagged per target, then cut and numbered per call. */
module RequestIds {

  import opened Text

  datatype Target = Summary | Insights | Dissection | Title

  const MAX_SEED := 140
  const MAX_ID := 160

  function Name(t: Target): (name: string)
    ensures |name| >= 5
    ensures forall i :: 0 <= i < |name| ==> 'a' <= name[i] <= 'z'
  {
    match t
    case Summary => "summary"
    case Insights => "insights"
    case Dissection => "dissection"
    case Title => "title"
  }

  function Strip(s: string): string {
    Trim(s, IsPySpace)
  }

  /** A Python slice from the start; a negative bound counts from the end. */
  function Take(s: string, n: int): string {
    if n >= |s| then s
    else if n >= 0 then s[..n]
    else if -n >= |s| then ""
    else s[..|s| + n]
  }

  /** From the start so many characters, or all there are; with a negative bound all but so many from the end. */
  lemma TakeCuts(s: string, n: int)
    ensures Take(s, n) <= s
    ensures n >= 0 ==> |Take(s, n)| == if n < |s| then n else |s|
    ensures n < 0 ==> |Take(s, n)| == if -n < |s| then |s| + n else 0
  {
  }

  function Zeros(n: nat): (z: string)
    ensures |z| == n && forall i :: 0 <= i < n ==> z[i] == '0'
  {
    seq(n, i => '0')
  }

  /** A number in decimal, padded with zeros to four digits. */
  function Padded(n: nat): (s: string)
    ensures |s| >= 4 && AllDigits(s)
  {
    var digits := Decimal(n);
    if |digits| < 4 then Zeros(4 - |digits|) + digits else digits
  }

  function Suffix(index: nat): string {
    "-call-" + Padded(index)
  }

  /** The seed a target's provider is given; a blank one stays as it is. */
  function TargetSeed(seed: string, t: Target): string {
    var s := Strip(seed);
    if s == "" then seed else Take(s, MAX_SEED) + "-" + Name(t)
  }

  predicate IsCutOf(head: string, s: string) {
    head <= s && (|head| == 140 || (|s| <= 140 && head == s))
  }

  /** A seed of white space alone is used as it is; any other is stripped, cut to 140 characters and tagged. */
  lemma TargetSeedIs(seed: string, t: Target)
    ensures
      if forall i :: 0 <= i < |seed| ==> IsPySpace(seed[i]) then TargetSeed(seed, t) == seed
      else exists head :: IsCutOf(head, Strip(seed)) && TargetSeed(seed, t) == head + "-" + Name(t)
  {
    TrimResult(seed, IsPySpace);
    var s := Strip(seed);
    if s != "" {
      TakeCuts(s, MAX_SEED);
      assert IsCutOf(Take(s, MAX_SEED), s) && TargetSeed(seed, t) == Take(s, MAX_SEED) + "-" + Name(t);
    }
  }

  function DerivePerCall(seed: string, index: nat): string {
    var suffix := Suffix(index);
    if |seed| + |suffix| <= MAX_ID then seed + suffix else Take(seed, MAX_ID - |suffix|) + suffix
  }

  /** The identifier sent: stripped by the provider, and once more by the checkout. */
  function SentId(seed: string, t: Target, index: nat): string {
    Strip(DerivePerCall(Strip(TargetSeed(seed, t)), index))
  }

  /** One target's provider; it numbers its calls from 1. */
  class ManagedProvider {
    const targetSeed: string
    var callIndex: nat

    constructor (seed: string, t: Target)
      ensures targetSeed == TargetSeed(seed, t) && callIndex == 0
    {
      targetSeed := TargetSeed(seed, t);
      callIndex := 0;
    }

    method NextRequestId() returns (id: string)
      modifies this
      ensures callIndex == old(callIndex) + 1
      ensures id == Strip(DerivePerCall(Strip(targetSeed), callIndex))
      ensures forall seed, t :: targetSeed == TargetSeed(seed, t) ==> id == SentId(seed, t, callIndex)
    {
      callIndex := callIndex + 1;
      id := Strip(DerivePerCall(Strip(targetSeed), callIndex));
    }
  }

  // ----- numbers -----

  lemma {:induction false} LeadingZeros(n: nat, s: string)
    requires AllDigits(s)
    ensures AllDigits(Zeros(n) + s) && Numeral(Zeros(n) + s) == Numeral(s)
    decreases |s|
  {
    var z := Zeros(n);
    if s == "" {
      assert z + s == z;
      ZerosAreZero(n);
    } else {
      assert (z + s)[..|z + s| - 1] == z + s[..|s| - 1];
      LeadingZeros(n, s[..|s| - 1]);
    }
  }

  lemma {:induction false} ZerosAreZero(n: nat)
    ensures AllDigits(Zeros(n)) && Numeral(Zeros(n)) == 0
  {
    if n > 0 {
      assert Zeros(n)[..n - 1] == Zeros(n - 1);
      ZerosAreZero(n - 1);
    }
  }

  lemma PaddedIsInjective(i: nat, j: nat)
    requires Padded(i) == Padded(j)
    ensures i == j
  {
    NumeralOfPadded(i);
    NumeralOfPadded(j);
  }

  lemma NumeralOfPadded(i: nat)
    ensures Numeral(Padded(i)) == i
  {
    NumeralOfDecimal(i);
    if |Decimal(i)| < 4 {
      LeadingZeros(4 - |Decimal(i)|, Decimal(i));
    }
  }

  function PowerOfTen(k: nat): nat {
    if k == 0 then 1 else 10 * PowerOfTen(k - 1)
  }

  lemma {:induction false} DecimalLength(n: nat, k: nat)
    requires k >= 1 && n < PowerOfTen(k)
    ensures |Decimal(n)| <= k
    decreases k
  {
    if n >= 10 {
      DecimalLength(n / 10, k - 1);
    }
  }

  // ----- the identifiers -----

  /** The part of an identifier that all targets share. */
  function Stem(seed: string): string {
    Take(Strip(seed), MAX_SEED)
  }

  lemma StemStarts(seed: string)
    requires Strip(seed) != ""
    ensures 1 <= |Stem(seed)| <= MAX_SEED && !IsPySpace(Stem(seed)[0])
  {
    TrimResult(seed, IsPySpace);
  }

  lemma TargetSeedIsStripped(seed: string, t: Target)
    requires Strip(seed) != ""
    ensures Strip(TargetSeed(seed, t)) == TargetSeed(seed, t) == Stem(seed) + "-" + Name(t)
  {
    StemStarts(seed);
    var s := TargetSeed(seed, t);
    assert s[0] == Stem(seed)[0];
    assert s[|s| - 1] == Name(t)[|Name(t)| - 1];
    TrimmedIsFixed(s, IsPySpace);
  }

  /** What is left of a target's seed in front of the call number. */
  function Kept(seed: string, t: Target, index: nat): string {
    Take(Stem(seed) + "-" + Name(t), MAX_ID - |Suffix(index)|)
  }

  lemma DerivedIs(seed: string, index: nat)
    requires |Suffix(index)| < MAX_ID
    ensures DerivePerCall(seed, index) == Take(seed, MAX_ID - |Suffix(index)|) + Suffix(index)
    ensures |DerivePerCall(seed, index)| <= MAX_ID
  {
  }

  lemma StrippedEnds(s: string)
    requires s != "" && !IsPySpace(s[0]) && IsDigit(s[|s| - 1])
    ensures Strip(s) == s
  {
    TrimmedIsFixed(s, IsPySpace);
  }

  lemma SuffixEnds(kept: string, index: nat)
    ensures var id := kept + Suffix(index); IsDigit(id[|id| - 1])
  {
    var id := kept + Suffix(index);
    assert id[|id| - 1] == Padded(index)[|Padded(index)| - 1];
  }

  /** No strip changes an identifier, and it fits. */
  lemma SentIdIs(seed: string, t: Target, index: nat)
    requires Strip(seed) != "" && |Suffix(index)| < MAX_ID
    ensures SentId(seed, t, index) == Kept(seed, t, index) + Suffix(index)
    ensures |SentId(seed, t, index)| <= MAX_ID
  {
    TargetSeedIsStripped(seed, t);
    StemStarts(seed);
    DerivedIs(TargetSeed(seed, t), index);
    SuffixEnds(Kept(seed, t, index), index);
    assert Kept(seed, t, index)[0] == Stem(seed)[0];
    StrippedEnds(Kept(seed, t, index) + Suffix(index));
  }

  lemma TailsAgree(a: string, x: string, b: string, y: string)
    requires a + x == b + y && |x| == |y|
    ensures a == b && x == y
  {
    assert a == (a + x)[..|a|] && b == (b + y)[..|b|];
    assert x == (a + x)[|a|..] && y == (b + y)[|b|..];
  }

  lemma SuffixesDiffer(a: string, i: nat, b: string, j: nat)
    requires a + Suffix(i) == b + Suffix(j)
    ensures i == j && a == b
  {
    if |Padded(i)| < |Padded(j)| {
      DashInsideNumber(a, i, b, j);
    } else if |Padded(j)| < |Padded(i)| {
      DashInsideNumber(b, j, a, i);
    } else {
      TailsAgree(a, Suffix(i), b, Suffix(j));
      TailsAgree("-call-", Padded(i), "-call-", Padded(j));
      PaddedIsInjective(i, j);
    }
  }

  /** The dash before a shorter number would stand inside a longer one. */
  lemma DashInsideNumber(a: string, i: nat, b: string, j: nat)
    requires |Padded(i)| < |Padded(j)|
    ensures a + Suffix(i) != b + Suffix(j)
  {
    var x, y := a + Suffix(i), b + Suffix(j);
    if |x| == |y| {
      var k := |x| - |Padded(i)| - 1;
      assert x[k] == Suffix(i)[5] == '-';
      assert y[k] == Padded(j)[|Padded(j)| - |Padded(i)| - 1];
      assert IsDigit(y[k]);
    }
  }

  lemma NamesDiffer(t: Target, u: Target)
    requires t != u
    ensures Name(t)[0] != Name(u)[0]
  {
  }

  /** Two targets keep the same text in front of a number exactly when the cut leaves nothing of their names. */
  lemma KeptAgreesIff(seed: string, t: Target, u: Target, index: nat)
    requires t != u && |Suffix(index)| < MAX_ID
    ensures Kept(seed, t, index) == Kept(seed, u, index) <==> MAX_ID - |Suffix(index)| <= |Stem(seed)| + 1
  {
    NamesDiffer(t, u);
    var n, at := MAX_ID - |Suffix(index)|, |Stem(seed)| + 1;
    var x, y := Stem(seed) + "-" + Name(t), Stem(seed) + "-" + Name(u);
    assert x[at] == Name(t)[0] && y[at] == Name(u)[0];
    if n <= at {
      assert x[..n] == (Stem(seed) + "-")[..n] == y[..n];
    } else {
      assert Take(x, n)[at] == x[at] && Take(y, n)[at] == y[at];
    }
  }

  /** Two identifiers from one seed agree exactly when they number the same call of the same target, or the number is
      so long that it pushes the target's name out altogether. */
  lemma IdsAgreeIff(seed: string, t: Target, i: nat, u: Target, j: nat)
    requires Strip(seed) != "" && |Suffix(i)| < MAX_ID && |Suffix(j)| < MAX_ID
    ensures SentId(seed, t, i) == SentId(seed, u, j) <==>
      i == j && (t == u || MAX_ID - |Suffix(i)| <= |Stem(seed)| + 1)
  {
    SentIdIs(seed, t, i);
    SentIdIs(seed, u, j);
    if SentId(seed, t, i) == SentId(seed, u, j) {
      SuffixesDiffer(Kept(seed, t, i), i, Kept(seed, u, j), j);
    }
    if i == j && t != u {
      KeptAgreesIff(seed, t, u, i);
    }
  }

  /** The largest number of calls for which every seed keeps its targets apart. */
  const MAX_DIGITS := 12

  lemma IdsAreDistinct(seed: string, t: Target, i: nat, u: Target, j: nat)
    requires Strip(seed) != "" && i < PowerOfTen(MAX_DIGITS) && j < PowerOfTen(MAX_DIGITS)
    requires (t, i) != (u, j)
    ensures SentId(seed, t, i) != SentId(seed, u, j)
    ensures |SentId(seed, t, i)| <= MAX_ID
  {
    StemStarts(seed);
    SuffixLength(i);
    SuffixLength(j);
    IdsAgreeIff(seed, t, i, u, j);
    SentIdIs(seed, t, i);
  }

  lemma SuffixLength(i: nat)
    requires i < PowerOfTen(MAX_DIGITS)
    ensures |Suffix(i)| <= 6 + MAX_DIGITS
  {
    DecimalLength(i, MAX_DIGITS);
  }

  /** The bound is exact: with a seed of 140 characters, thirteen digits make all targets' identifiers the same. */
  lemma LongNumbersCollide(seed: string, t: Target, u: Target, i: nat)
    requires |Stem(seed)| == MAX_SEED && |Decimal(i)| == MAX_DIGITS + 1
    ensures SentId(seed, t, i) == SentId(seed, u, i)
  {
    IdsAgreeIff(seed, t, i, u, i);
  }

  // ----- a task's calls -----

  function CallsOf(calls: seq<Target>, t: Target): nat {
    if calls == [] then 0 else CallsOf(calls[..|calls| - 1], t) + (if calls[|calls| - 1] == t then 1 else 0)
  }

  /** The identifier of a task's n-th call: each target's provider counts its own calls. */
  function IdOfCall(seed: string, calls: seq<Target>, n: nat): string
    requires n < |calls|
  {
    SentId(seed, calls[n], CallsOf(calls[..n + 1], calls[n]))
  }

  /** A target's first call is its call number one. */
  lemma FirstCallIsOne(seed: string, calls: seq<Target>, t: Target)
    requires t !in calls
    ensures IdOfCall(seed, calls + [t], |calls|) == SentId(seed, t, 1)
  {
    NoCalls(calls, t);
    assert (calls + [t])[..|calls| + 1] == calls + [t] && (calls + [t])[..|calls|] == calls;
  }

  lemma {:induction false} NoCalls(calls: seq<Target>, t: Target)
    requires t !in calls
    ensures CallsOf(calls, t) == 0
  {
    if calls != [] {
      assert calls[|calls| - 1] in calls;
      NoCalls(calls[..|calls| - 1], t);
    }
  }

  lemma {:induction false} LaterCallsCountHigher(calls: seq<Target>, m: nat, n: nat)
    requires m < n < |calls|
    ensures CallsOf(calls[..m + 1], calls[n]) <= CallsOf(calls[..n], calls[n])
    ensures CallsOf(calls[..n + 1], calls[n]) == CallsOf(calls[..n], calls[n]) + 1
    decreases n
  {
    assert calls[..n + 1][..n] == calls[..n];
    CallsGrow(calls, calls[n], m + 1, n);
  }

  lemma {:induction false} CallsGrow(calls: seq<Target>, t: Target, m: nat, n: nat)
    requires m <= n <= |calls|
    ensures CallsOf(calls[..m], t) <= CallsOf(calls[..n], t) <= n
    decreases n
  {
    if n > 0 {
      assert calls[..n][..n - 1] == calls[..n - 1];
      CallsGrow(calls, t, if m < n then m else n - 1, n - 1);
    }
  }

  /** No two calls of a task, of whatever targets in whatever order, are sent under the same identifier. */
  lemma EveryCallHasItsOwnId(seed: string, calls: seq<Target>, m: nat, n: nat)
    requires Strip(seed) != "" && |calls| < PowerOfTen(MAX_DIGITS) && m < n < |calls|
    ensures IdOfCall(seed, calls, m) != IdOfCall(seed, calls, n)
  {
    CallsGrow(calls, calls[m], m + 1, m + 1);
    CallsGrow(calls, calls[n], n + 1, n + 1);
    LaterCallsCountHigher(calls, m, n);
    IdsAreDistinct(seed, calls[m], CallsOf(calls[..m + 1], calls[m]), calls[n], CallsOf(calls[..n + 1], calls[n]));
  }
}
