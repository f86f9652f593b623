/** The major-version extraction used by the handshake gate
    (`getMajorSemver` and the pattern `/\d+\.\d+\.\d+/` of server.js). */
module Semver {
  import opened Base

  /** A JavaScript number as `parseInt` produces it here: NaN or a
      non-negative integer. */
  datatype Major = NaN | Num(n: nat)

  /** `a === b` on two parse results: NaN equals nothing, not even NaN. */
  predicate SameMajor(a: Major, b: Major)
  {
    a.Num? && b.Num? && a.n == b.n
  }

  /** `a > b` on two parse results: every comparison with NaN is false. */
  predicate GreaterMajor(a: Major, b: Major)
  {
    a.Num? && b.Num? && a.n > b.n
  }

  predicate IsDigit(c: char)
  {
    '0' <= c <= '9'
  }

  /** A non-empty run of decimal digits (`\d+`). */
  predicate IsDigits(s: string)
  {
    |s| > 0 && forall i :: 0 <= i < |s| ==> IsDigit(s[i])
  }

  /** `t` reads MAJOR.MINOR.PATCH with its two dots at `i` and `j`. */
  predicate DotsAt(t: string, i: nat, j: nat)
  {
    i < j < |t| && t[i] == '.' && t[j] == '.'
    && IsDigits(t[..i]) && IsDigits(t[i + 1..j]) && IsDigits(t[j + 1..])
  }

  /** `t` is exactly `\d+\.\d+\.\d+`. */
  ghost predicate IsSemverText(t: string)
  {
    exists i: nat, j: nat :: DotsAt(t, i, j)
  }

  /** The unanchored test of `semverRegex`: some substring of `s` is a
      MAJOR.MINOR.PATCH triple. */
  ghost predicate ContainsSemver(s: string)
  {
    exists a, b :: 0 <= a <= b <= |s| && IsSemverText(s[a..b])
  }

  /** The end of the maximal run of digits that starts at `i`. */
  function DigitRunEnd(s: string, i: nat): (e: nat)
    requires i <= |s|
    ensures i <= e <= |s|
    ensures forall k :: i <= k < e ==> IsDigit(s[k])
    ensures e == |s| || !IsDigit(s[e])
    decreases |s| - i
  {
    if i < |s| && IsDigit(s[i]) then DigitRunEnd(s, i + 1) else i
  }

  /** A triple starts at position `a`: each `\d+` must be followed by the
      next `.`, so it is the maximal run of digits there. */
  predicate SemverAt(s: string, a: nat)
    requires a <= |s|
  {
    var e1 := DigitRunEnd(s, a);
    a < e1 < |s| && s[e1] == '.' &&
    var e2 := DigitRunEnd(s, e1 + 1);
    e1 + 1 < e2 < |s| - 1 && s[e2] == '.' && IsDigit(s[e2 + 1])
  }

  /** `semver.match(semverRegex)` is truthy. */
  predicate MatchesSemverRegex(s: string)
    ensures MatchesSemverRegex(s) ==> |s| >= 5 && '.' in s
  {
    exists a :: 0 <= a < |s| && SemverAt(s, a)
  }

  function DigitValue(c: char): nat
    requires IsDigit(c)
  {
    c as int - '0' as int
  }

  /** The value of a string of decimal digits. */
  function DecimalValue(d: string): nat
    requires forall i :: 0 <= i < |d| ==> IsDigit(d[i])
  {
    if |d| == 0 then 0 else 10 * DecimalValue(d[..|d| - 1]) + DigitValue(d[|d| - 1])
  }

  /** The decimal rendering of `n`, without leading zeros. */
  function Decimal(n: nat): (d: string)
    ensures IsDigits(d)
    ensures DecimalValue(d) == n
  {
    var last := [('0' as int + n % 10) as char];
    if n < 10 then last
    else
      var d := Decimal(n / 10) + last;
      assert d[..|d| - 1] == Decimal(n / 10);
      d
  }

  /** `parseInt(p)` for a text that starts with its digits: NaN unless `p`
      starts with a digit, otherwise the value of its leading digits. */
  function ParseLeadingInt(p: string): (m: Major)
    ensures m.Num? <==> |p| > 0 && IsDigit(p[0])
  {
    var e := DigitRunEnd(p, 0);
    if e == 0 then NaN else Num(DecimalValue(p[..e]))
  }

  /** `parseInt` of a digit run followed by text that does not continue it
      is the decimal value of that run (leading zeros included). */
  lemma ParseLeadingDigits(d: string, rest: string)
    requires IsDigits(d)
    requires rest == [] || !IsDigit(rest[0])
    ensures ParseLeadingInt(d + rest) == Num(DecimalValue(d))
  {
    var p := d + rest;
    assert forall k :: 0 <= k < |d| ==> p[k] == d[k];
    DigitRunEndOfRun(p, 0, |d|);
    assert p[..|d|] == d;
  }

  /** `getMajorSemver(version)`; `None` stands for a missing or non-string
      argument. */
  function MajorSemver(version: Option<string>): (m: Major)
    ensures version.None? ==> m == NaN
    ensures m.Num? ==> version.Some? && MatchesSemverRegex(version.value)
  {
    if version.Some? && MatchesSemverRegex(version.value)
    then ParseLeadingInt(FirstField(version.value, '.'))
    else NaN
  }

  lemma DigitRunEndOfRun(s: string, i: nat, m: nat)
    requires i <= m <= |s|
    requires forall k :: i <= k < m ==> IsDigit(s[k])
    requires m == |s| || !IsDigit(s[m])
    ensures DigitRunEnd(s, i) == m
  {
    var e := DigitRunEnd(s, i);
  }

  lemma DigitsOfSlice(s: string, lo: nat, hi: nat)
    requires lo <= hi <= |s|
    ensures IsDigits(s[lo..hi]) <==> lo < hi && forall k :: lo <= k < hi ==> IsDigit(s[k])
  {
    if lo < hi && forall k :: lo <= k < hi ==> IsDigit(s[k]) {
      forall k | 0 <= k < hi - lo ensures IsDigit(s[lo..hi][k]) {
        assert s[lo..hi][k] == s[lo + k];
      }
    }
    if IsDigits(s[lo..hi]) {
      forall k | lo <= k < hi ensures IsDigit(s[k]) {
        assert s[k] == s[lo..hi][k - lo];
      }
    }
  }

  lemma SemverAtGivesText(s: string, a: nat)
    requires a < |s| && SemverAt(s, a)
    ensures ContainsSemver(s)
  {
    var e1 := DigitRunEnd(s, a);
    var e2 := DigitRunEnd(s, e1 + 1);
    var b := e2 + 2;
    var t := s[a..b];
    var i, j := e1 - a, e2 - a;
    SliceOfSlice(s, a, b, 0, i);
    SliceOfSlice(s, a, b, i + 1, j);
    SliceOfSlice(s, a, b, j + 1, b - a);
    assert t[..i] == t[0..i] && t[j + 1..] == t[j + 1..b - a];
    DigitsOfSlice(s, a, e1);
    DigitsOfSlice(s, e1 + 1, e2);
    DigitsOfSlice(s, e2 + 1, b);
    assert t[i] == '.' && t[j] == '.';
    assert DotsAt(t, i, j);
  }

  lemma SliceOfSlice(s: string, a: nat, b: nat, i: nat, j: nat)
    requires a <= b <= |s| && i <= j <= b - a
    ensures s[a..b][i..j] == s[a + i..a + j]
  {
    assert forall k :: 0 <= k < j - i ==> s[a..b][i..j][k] == s[a + i + k];
  }

  /** A run of digits closed by a '.' is the maximal run starting there. */
  lemma RunClosedByDot(s: string, lo: nat, hi: nat)
    requires lo <= hi < |s| && IsDigits(s[lo..hi]) && s[hi] == '.'
    ensures DigitRunEnd(s, lo) == hi
  {
    DigitsOfSlice(s, lo, hi);
    DigitRunEndOfRun(s, lo, hi);
  }

  /** The facts of `DotsAt` on a slice, restated on the whole string. */
  lemma DotsInSource(s: string, a: nat, b: nat, i: nat, j: nat)
    requires a <= b <= |s| && DotsAt(s[a..b], i, j)
    ensures a + j + 1 < b && s[a + i] == '.' && s[a + j] == '.'
    ensures IsDigits(s[a..a + i]) && IsDigits(s[a + i + 1..a + j]) && IsDigit(s[a + j + 1])
  {
    var t := s[a..b];
    SliceOfSlice(s, a, b, 0, i);
    SliceOfSlice(s, a, b, i + 1, j);
    assert t[..i] == t[0..i];
    assert t[i] == s[a + i] && t[j] == s[a + j];
    assert t[j + 1..][0] == s[a + j + 1];
  }

  lemma TextGivesSemverAt(s: string, a: nat, b: nat)
    requires a <= b <= |s| && IsSemverText(s[a..b])
    ensures a < |s| && SemverAt(s, a)
  {
    var i: nat, j: nat :| DotsAt(s[a..b], i, j);
    DotsInSource(s, a, b, i, j);
    RunClosedByDot(s, a, a + i);
    RunClosedByDot(s, a + i + 1, a + j);
  }

  /** The executable pattern test agrees with its definition as "some
      substring is a version triple". */
  lemma MatchesSemverRegexIff(s: string)
    ensures MatchesSemverRegex(s) <==> ContainsSemver(s)
  {
    if MatchesSemverRegex(s) {
      var a :| 0 <= a < |s| && SemverAt(s, a);
      SemverAtGivesText(s, a);
    }
    if ContainsSemver(s) {
      var a, b :| 0 <= a <= b <= |s| && IsSemverText(s[a..b]);
      TextGivesSemverAt(s, a, b);
    }
  }

  /** A version yields a number exactly when it contains a triple and starts
      with a digit, so "v1.2.3" yields NaN although it contains "1.2.3". */
  lemma MajorSemverIsNumber(version: Option<string>)
    ensures MajorSemver(version).Num? <==>
      version.Some? && ContainsSemver(version.value)
      && |version.value| > 0 && IsDigit(version.value[0])
  {
    if version.Some? {
      var s := version.value;
      MatchesSemverRegexIff(s);
      var p := FirstField(s, '.');
      if |s| > 0 && IsDigit(s[0]) {
        assert |p| > 0 && p[0] == s[0];
      }
      if |p| > 0 {
        assert p[0] == s[0];
      }
    }
  }

  /** MAJOR.MINOR.PATCH rendered in decimal, followed by any text. */
  function RenderedVersion(major: nat, minor: nat, patch: nat, suffix: string): string
  {
    Decimal(major) + "." + Decimal(minor) + "." + Decimal(patch) + suffix
  }

  lemma RenderedVersionMatches(major: nat, minor: nat, patch: nat, suffix: string)
    ensures MatchesSemverRegex(RenderedVersion(major, minor, patch, suffix))
  {
    var d1, d2, d3 := Decimal(major), Decimal(minor), Decimal(patch);
    var s := RenderedVersion(major, minor, patch, suffix);
    var b := |d1| + |d2| + |d3| + 2;
    var t := s[0..b];
    assert t == d1 + "." + d2 + "." + d3;
    assert t[..|d1|] == d1;
    assert t[|d1| + 1..|d1| + 1 + |d2|] == d2;
    assert t[|d1| + 1 + |d2| + 1..] == d3;
    assert DotsAt(t, |d1|, |d1| + 1 + |d2|);
    assert ContainsSemver(s);
    MatchesSemverRegexIff(s);
  }

  /** The round trip from a rendered version: any text that starts with
      MAJOR.MINOR.PATCH (whatever follows, such as "-beta.1") yields MAJOR. */
  lemma {:induction false} MajorOfRenderedVersion(major: nat, minor: nat, patch: nat, suffix: string)
    ensures MajorSemver(Some(RenderedVersion(major, minor, patch, suffix))) == Num(major)
  {
    var d1 := Decimal(major);
    var rest := Decimal(minor) + "." + Decimal(patch) + suffix;
    RenderedVersionMatches(major, minor, patch, suffix);
    assert '.' !in d1 by {
      forall k | 0 <= k < |d1| ensures d1[k] != '.' {
        assert IsDigit(d1[k]);
      }
    }
    assert RenderedVersion(major, minor, patch, suffix) == d1 + ['.'] + rest;
    FirstFieldBeforeSeparator(d1, '.', rest);
    DigitRunEndOfRun(d1, 0, |d1|);
    assert d1[..|d1|] == d1;
  }

  lemma MajorOfTwoFourOne()
    ensures MajorSemver(Some("2.4.1")) == Num(2)
  {
    assert Decimal(2) == "2" && Decimal(4) == "4" && Decimal(1) == "1";
    MajorOfRenderedVersion(2, 4, 1, "");
    assert RenderedVersion(2, 4, 1, "") == "2.4.1";
  }

  lemma MajorOfTenZeroZero()
    ensures MajorSemver(Some("10.0.0")) == Num(10)
  {
    assert Decimal(1) == "1" && Decimal(0) == "0";
    assert Decimal(10) == Decimal(1) + "0";
    MajorOfRenderedVersion(10, 0, 0, "");
    assert RenderedVersion(10, 0, 0, "") == "10.0.0";
  }

  /** "2.4.1" has major 2 and "10.0.0" has major 10. */
  lemma MajorSemverExamples()
    ensures MajorSemver(Some("2.4.1")) == Num(2)
    ensures MajorSemver(Some("10.0.0")) == Num(10)
  {
    MajorOfTwoFourOne();
    MajorOfTenZeroZero();
  }

  /** A leading "v" or a missing version makes the major NaN. */
  lemma MajorSemverNaNExamples()
    ensures MajorSemver(Some("v1.2.3")) == NaN
    ensures MajorSemver(None) == NaN
  {
    var p := FirstField("v1.2.3", '.');
    assert p[0] == 'v';
  }
}
