/** The naming resolver: `PSDWebExtractor._sanitize_filename` and the
    `f"{index:03d}_{clean_name}.png"` file name built from it. */
module FileNaming {
  import opened Strings

  /** Characters of the regex class `[<>:"/\\|?*]`, replaced by '_'. */
  predicate IsForbidden(c: char) {
    c == '<' || c == '>' || c == ':' || c == '"' || c == '/' || c == '\\' || c == '|' || c == '?' || c == '*'
  }

  /** The characters Python's `str.strip()` removes (those whose `isspace()`
      is true). */
  predicate IsPyWhitespace(c: char) {
    c == ' ' || ('\t' <= c <= '\r') || ('\U{1c}' <= c <= '\U{1f}') || c == '\U{85}' || c == '\U{a0}'
    || c == '\U{1680}' || ('\U{2000}' <= c <= '\U{200a}') || c == '\U{2028}' || c == '\U{2029}'
    || c == '\U{202f}' || c == '\U{205f}' || c == '\U{3000}'
  }

  /** The character `str.strip('.')` removes. */
  predicate IsDot(c: char) {
    c == '.'
  }

  /** The two character sets the sanitiser strips: `strip()` and `strip('.')`. */
  datatype StripChars = Whitespace | Dots

  predicate Strippable(c: char, chars: StripChars) {
    match chars
    case Whitespace => IsPyWhitespace(c)
    case Dots => IsDot(c)
  }

  /** Longest sanitised name kept. */
  const MaxNameLength: nat := 50

  /** `re.sub(r'[<>:"/\\|?*]', '_', s)`: every forbidden character becomes
      '_', every other character is kept. */
  function ReplaceForbidden(s: string): (r: string)
    ensures |r| == |s|
    ensures forall i :: 0 <= i < |s| ==> !IsForbidden(r[i])
    ensures forall i :: 0 <= i < |s| && !IsForbidden(s[i]) ==> r[i] == s[i]
    ensures forall i :: 0 <= i < |s| && IsForbidden(s[i]) ==> r[i] == '_'
    decreases |s|
  {
    if s == [] then []
    else [if IsForbidden(s[0]) then '_' else s[0]] + ReplaceForbidden(s[1..])
  }

  /** Drops the longest prefix of characters satisfying `drop`. */
  function TrimStart(s: string, drop: StripChars): (r: string)
    ensures |r| <= |s| && r == s[|s| - |r|..]
    ensures forall i :: 0 <= i < |s| - |r| ==> Strippable(s[i], drop)
    ensures r != [] ==> !Strippable(r[0], drop)
    decreases |s|
  {
    if s != [] && Strippable(s[0], drop) then TrimStart(s[1..], drop) else s
  }

  /** Drops the longest suffix of characters satisfying `drop`. */
  function TrimEnd(s: string, drop: StripChars): (r: string)
    ensures |r| <= |s| && r == s[..|r|]
    ensures forall i :: |r| <= i < |s| ==> Strippable(s[i], drop)
    ensures r != [] ==> !Strippable(r[|r| - 1], drop)
    decreases |s|
  {
    if s != [] && Strippable(s[|s| - 1], drop) then TrimEnd(s[..|s| - 1], drop) else s
  }

  /** Python's `s.strip(chars)`: drops the characters satisfying `drop` at
      both ends. */
  function Strip(s: string, drop: StripChars): (r: string)
    ensures |r| <= |s|
    ensures r != [] ==> !Strippable(r[0], drop) && !Strippable(r[|r| - 1], drop)
  {
    TrimEnd(TrimStart(s, drop), drop)
  }

  /** What is left after stripping is one infix of the input, and everything
      outside it was dropped. */
  lemma StripIsInfix(s: string, drop: StripChars) returns (i: nat)
    ensures OccursAt(s, Strip(s, drop), i)
    ensures forall k :: 0 <= k < i ==> Strippable(s[k], drop)
    ensures forall k :: i + |Strip(s, drop)| <= k < |s| ==> Strippable(s[k], drop)
  {
    var t := TrimStart(s, drop);
    var r := TrimEnd(t, drop);
    i := |s| - |t|;
    assert r == s[i..i + |r|];
  }

  /** The first two steps of `_sanitize_filename`: substitute forbidden
      characters, strip whitespace, then strip dots (at both ends). */
  function Cleaned(name: string): (c: string)
    ensures |c| <= |name|
    ensures forall i :: 0 <= i < |c| ==> !IsForbidden(c[i])
  {
    var substituted := ReplaceForbidden(name);
    var trimmed := Strip(substituted, Whitespace);
    NoForbiddenAfterStrip(substituted, Whitespace);
    NoForbiddenAfterStrip(trimmed, Dots);
    Strip(trimmed, Dots)
  }

  /** `_sanitize_filename`: the cleaned name, cut to its first 50 characters
      when it is longer. */
  function Sanitize(name: string): (r: string)
    ensures |r| <= MaxNameLength
    ensures forall i :: 0 <= i < |r| ==> !IsForbidden(r[i])
    ensures r <= Cleaned(name)
    ensures |Cleaned(name)| <= MaxNameLength ==> r == Cleaned(name)
    ensures |Cleaned(name)| > MaxNameLength ==> |r| == MaxNameLength
  {
    var clean := Cleaned(name);
    if |clean| > MaxNameLength then clean[..MaxNameLength] else clean
  }


  /** Stripping never introduces a character: a forbidden-free string stays
      forbidden-free. */
  lemma NoForbiddenAfterStrip(s: string, drop: StripChars)
    requires forall i :: 0 <= i < |s| ==> !IsForbidden(s[i])
    ensures forall i :: 0 <= i < |Strip(s, drop)| ==> !IsForbidden(Strip(s, drop)[i])
  {
    var r := Strip(s, drop);
    var i := StripIsInfix(s, drop);
    forall k | 0 <= k < |r| ensures !IsForbidden(r[k]) {
      assert r[k] == s[i + k];
    }
  }

  /** A name that has no forbidden character, does not start or end with
      whitespace or a dot and has at most 50 characters is kept as it is. */
  lemma {:induction false} SanitizeKeepsCleanNames(name: string)
    requires forall i :: 0 <= i < |name| ==> !IsForbidden(name[i])
    requires name != [] ==> !IsPyWhitespace(name[0]) && !IsDot(name[0])
    requires name != [] ==> !IsPyWhitespace(name[|name| - 1]) && !IsDot(name[|name| - 1])
    requires |name| <= MaxNameLength
    ensures Sanitize(name) == name
  {
    assert ReplaceForbidden(name) == name;
    assert TrimStart(name, Whitespace) == name;
    assert TrimEnd(name, Whitespace) == name;
    assert TrimStart(name, Dots) == name;
    assert TrimEnd(name, Dots) == name;
  }

  /** Stripping dots can expose whitespace that the earlier whitespace strip
      did not see: ". a ." sanitises to " a ", which starts and ends with a
      space. */
  lemma SanitizeCanLeaveOuterSpaces()
    ensures Sanitize(". a .") == " a "
  {
    var s := ". a .";
    assert ReplaceForbidden(s) == s by {
      assert forall i :: 0 <= i < |s| ==> !IsForbidden(s[i]);
    }
    DotsOutsideWhitespace();
    DotsAroundSpaces();
  }

  lemma DotsOutsideWhitespace()
    ensures Strip(". a .", Whitespace) == ". a ."
  {
    var s := ". a .";
    assert TrimStart(s, Whitespace) == s;
    assert TrimEnd(s, Whitespace) == s;
  }

  lemma DotsAroundSpaces()
    ensures Strip(". a .", Dots) == " a "
  {
    var s, t := ". a .", " a .";
    assert TrimStart(s, Dots) == t by {
      assert s[1..] == t;
      assert TrimStart(t, Dots) == t;
    }
    assert TrimEnd(t, Dots) == " a " by {
      assert t[..3] == " a ";
      assert TrimEnd(" a ", Dots) == " a ";
    }
  }

  // Decimal formatting of the export index.

  predicate IsDigit(c: char) {
    '0' <= c <= '9'
  }

  predicate AllDigits(s: string) {
    forall i :: 0 <= i < |s| ==> IsDigit(s[i])
  }

  function DigitChar(d: nat): (c: char)
    requires d < 10
    ensures IsDigit(c)
  {
    ('0' as int + d) as char
  }

  function DigitValue(c: char): nat
    requires IsDigit(c)
  {
    c as int - '0' as int
  }

  /** The number a string of decimal digits denotes (leading zeros allowed). */
  function DecimalValue(s: string): nat
    requires AllDigits(s)
    decreases |s|
  {
    if s == [] then 0 else DecimalValue(s[..|s| - 1]) * 10 + DigitValue(s[|s| - 1])
  }

  /** Python's `str(n)` / `f"{n}"` for a natural number. */
  function Decimal(n: nat): (r: string)
    ensures 1 <= |r| && AllDigits(r)
    ensures DecimalValue(r) == n
    ensures n < 10 ==> |r| == 1
    ensures n < 100 ==> |r| <= 2
    ensures n < 1000 ==> |r| <= 3
    ensures r[0] == '0' ==> n == 0
    decreases n
  {
    if n < 10 then [DigitChar(n)]
    else
      var r := Decimal(n / 10) + [DigitChar(n % 10)];
      assert r[..|r| - 1] == Decimal(n / 10);
      assert r[0] == Decimal(n / 10)[0];
      r
  }

  function Zeros(k: nat): (r: string)
    ensures |r| == k && AllDigits(r)
  {
    seq(k, _ => '0')
  }

  /** `f"{n:03d}"`: the decimal digits of `n`, left-padded with zeros to at
      least three characters. */
  function ZeroPad3(n: nat): (r: string)
    ensures AllDigits(r)
    ensures 3 <= |r| && (n < 1000 ==> |r| == 3)
    ensures |r| > 3 ==> r[0] != '0'
  {
    var d := Decimal(n);
    if |d| >= 3 then d else Zeros(3 - |d|) + d
  }

  /** Leading zeros do not change the value of a digit string. */
  lemma {:induction false} LeadingZerosAddNothing(k: nat, s: string)
    requires AllDigits(s)
    ensures AllDigits(Zeros(k) + s)
    ensures DecimalValue(Zeros(k) + s) == DecimalValue(s)
    decreases |s|
  {
    var z := Zeros(k) + s;
    if s == [] {
      assert z == Zeros(k);
      ZerosAreZero(k);
    } else {
      assert z[..|z| - 1] == Zeros(k) + s[..|s| - 1];
      LeadingZerosAddNothing(k, s[..|s| - 1]);
    }
  }

  lemma {:induction false} ZerosAreZero(k: nat)
    ensures DecimalValue(Zeros(k)) == 0
  {
    if k > 0 {
      assert Zeros(k)[..k - 1] == Zeros(k - 1);
      ZerosAreZero(k - 1);
    }
  }

  /** Reading the padded index back gives the index: the padding loses
      nothing. */
  lemma ZeroPad3RoundTrip(n: nat)
    ensures DecimalValue(ZeroPad3(n)) == n
  {
    var d := Decimal(n);
    if |d| < 3 {
      LeadingZerosAddNothing(3 - |d|, d);
    }
  }

  /** The asset file name of the record with export index `index` and
      sanitised name `clean`. */
  function FileName(index: nat, clean: string): (f: string)
    ensures |f| >= |clean| + 8 && (index < 1000 ==> |f| == |clean| + 8)
    ensures AllDigits(f[..3]) && f[|f| - 4..] == ".png"
  {
    ZeroPad3(index) + "_" + clean + ".png"
  }

  /** The path of an asset relative to the output root: the file name under
      `images/`, which can be read back from the path. */
  function RelativePath(filename: string): (p: string)
    ensures |p| == |filename| + 7 && p[..7] == "images/" && p[7..] == filename
  {
    "images/" + filename
  }

  /** Length of the run of digits that starts `s`. */
  function LeadingDigitCount(s: string): (n: nat)
    ensures n <= |s|
    decreases |s|
  {
    if s != [] && IsDigit(s[0]) then 1 + LeadingDigitCount(s[1..]) else 0
  }

  lemma {:induction false} LeadingDigitsBeforeUnderscore(p: string, rest: string)
    requires AllDigits(p)
    ensures LeadingDigitCount(p + "_" + rest) == |p|
    decreases |p|
  {
    if p != [] {
      assert (p + "_" + rest)[1..] == p[1..] + "_" + rest;
      LeadingDigitsBeforeUnderscore(p[1..], rest);
    }
  }

  /** A file name reads back as its index: it opens with a run of at least
      three digits (exactly three below 1000) whose value is the index,
      followed by `_` and the sanitised name, and it ends in `.png`. */
  lemma FileNameCarriesIndex(index: nat, clean: string)
    ensures var f, n := FileName(index, clean), LeadingDigitCount(FileName(index, clean));
            3 <= n && (index < 1000 ==> n == 3) && (n > 3 ==> f[0] != '0') &&
            n + 5 + |clean| == |f| &&
            DecimalValue(f[..n]) == index && f[n] == '_' &&
            f[n + 1..|f| - 4] == clean && f[|f| - 4..] == ".png"
  {
    var p := ZeroPad3(index);
    var f := FileName(index, clean);
    assert f == p + "_" + (clean + ".png");
    LeadingDigitsBeforeUnderscore(p, clean + ".png");
    assert f[..|p|] == p;
    ZeroPad3RoundTrip(index);
  }

  /** File names are unique per export index whatever the names: two file
      names that are equal come from the same index and the same sanitised
      name. */
  lemma FileNameInjective(i: nat, a: string, j: nat, b: string)
    requires FileName(i, a) == FileName(j, b)
    ensures i == j && a == b
  {
    FileNameCarriesIndex(i, a);
    FileNameCarriesIndex(j, b);
  }
}
