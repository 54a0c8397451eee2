/**
 * The Python string operations the tool relies on: `str.strip()`,
 * `str.split(sep, 1)`, `str.startswith`, `str.lower`, `os.path.join`
 * with two arguments, and `int(str)`.
 */
module Text {
  import opened Wrappers

  /** Python's `str.isspace()` for one character: what `str.strip()` with no argument removes. */
  predicate IsSpace(c: char) {
    || ('\t' <= c <= '\r')
    || ('\U{1c}' <= c <= ' ')
    || c == '\U{85}' || c == '\U{a0}' || c == '\U{1680}'
    || ('\U{2000}' <= c <= '\U{200a}')
    || c == '\U{2028}' || c == '\U{2029}' || c == '\U{202f}' || c == '\U{205f}' || c == '\U{3000}'
  }

  /**
   * The whitespace `int()` skips around a number: the six C-locale ASCII
   * spaces, and the non-ASCII characters of `IsSpace`, which `int()` first
   * turns into ' '. The separators U+001C..U+001F are not among them.
   */
  predicate IsIntSpace(c: char) {
    || ('\t' <= c <= '\r') || c == ' '
    || (c >= '\U{80}' && IsSpace(c))
  }

  predicate AllSpace(s: string) {
    forall k :: 0 <= k < |s| ==> IsSpace(s[k])
  }

  /** Where a left strip stops: the first index from `i` on that is not in `space`, or `|s|`. */
  function SkipSpace(s: string, i: nat, space: char -> bool): (j: nat)
    requires i <= |s|
    ensures i <= j <= |s|
    ensures forall k :: i <= k < j ==> space(s[k])
    ensures j < |s| ==> !space(s[j])
    decreases |s| - i
  {
    if i < |s| && space(s[i]) then SkipSpace(s, i + 1, space) else i
  }

  /** Where a right strip stops, scanning down from `hi` but not below `lo`. */
  function TrimEnd(s: string, lo: nat, hi: nat, space: char -> bool): (j: nat)
    requires lo <= hi <= |s|
    ensures lo <= j <= hi
    ensures forall k :: j <= k < hi ==> space(s[k])
    ensures j > lo ==> !space(s[j - 1])
    decreases hi - lo
  {
    if lo < hi && space(s[hi - 1]) then TrimEnd(s, lo, hi - 1, space) else hi
  }

  /** `r` is the run of `s` starting at `i` with only `space` characters around it and none at its ends. */
  ghost predicate StrippedAt(r: string, s: string, i: int, space: char -> bool) {
    && 0 <= i <= |s| - |r|
    && s[i..i + |r|] == r
    && (forall k :: 0 <= k < i ==> space(s[k]))
    && (forall k :: i + |r| <= k < |s| ==> space(s[k]))
    && (r != [] ==> !space(r[0]) && !space(r[|r| - 1]))
  }

  /** Skip `space` characters at the front, then trim them from the back. */
  function StripWith(s: string, space: char -> bool): (r: string)
    ensures StrippedAt(r, s, SkipSpace(s, 0, space), space)
  {
    var i := SkipSpace(s, 0, space);
    s[i..TrimEnd(s, i, |s|, space)]
  }

  /** `s.strip()` with no argument. */
  function Strip(s: string): (r: string)
    ensures StrippedAt(r, s, SkipSpace(s, 0, IsSpace), IsSpace)
  {
    StripWith(s, IsSpace)
  }

  /** The text `int()` parses once the whitespace it skips is gone. */
  function IntStrip(s: string): (r: string)
    ensures StrippedAt(r, s, SkipSpace(s, 0, IsIntSpace), IsIntSpace)
  {
    StripWith(s, IsIntSpace)
  }

  /** Stripping is determined: any trimmed run of `s` is what `StripWith` returns. */
  lemma StripUnique(r: string, s: string, i: int, space: char -> bool)
    requires StrippedAt(r, s, i, space)
    ensures r == StripWith(s, space)
  {
    StrippedAtUnique(r, i, StripWith(s, space), SkipSpace(s, 0, space), s, space);
  }

  /** Two trimmed runs of the same string are the same. */
  lemma StrippedAtUnique(r: string, i: int, r': string, i': int, s: string, space: char -> bool)
    requires StrippedAt(r, s, i, space) && StrippedAt(r', s, i', space)
    ensures r == r'
  {
    if r != [] {
      assert s[i] == r[0];
      assert r' != [];
    }
    if r' != [] {
      assert s[i'] == r'[0];
      assert r != [];
    }
    if r != [] {
      assert i == i';
      var e, e' := i + |r| - 1, i' + |r'| - 1;
      assert s[e] == r[|r| - 1] && s[e'] == r'[|r'| - 1];
      assert e == e';
    }
  }

  /** `strip()` keeps a part of the text, so it brings in no character that was not there. */
  lemma StripAddsNothing(s: string, c: char)
    requires c !in s
    ensures c !in Strip(s) && |Strip(s)| <= |s|
  {
    var r, i := Strip(s), SkipSpace(s, 0, IsSpace);
    forall k | 0 <= k < |r|
      ensures r[k] != c
    {
      assert r[k] == s[i..i + |r|][k] == s[i + k];
    }
  }

  /** A string that neither starts nor ends with a `space` character is left as it is. */
  lemma StripWithTrimmed(s: string, space: char -> bool)
    requires s != [] && !space(s[0]) && !space(s[|s| - 1])
    ensures StripWith(s, space) == s
  {
    assert SkipSpace(s, 0, space) == 0;
    assert TrimEnd(s, 0, |s|, space) == |s|;
  }

  /** Whitespace around a core that starts and ends with a non-space is what `strip()` removes. */
  lemma StripAround(before: string, core: string, after: string)
    requires AllSpace(before) && AllSpace(after)
    requires core != [] ==> !IsSpace(core[0]) && !IsSpace(core[|core| - 1])
    ensures Strip(before + core + after) == core
  {
    var s := before + core + after;
    assert s[|before|..|before| + |core|] == core;
    assert forall k :: 0 <= k < |before| ==> s[k] == before[k];
    assert forall k :: |before| + |core| <= k < |s| ==> s[k] == after[k - |before| - |core|];
    StripUnique(core, s, |before|, IsSpace);
  }

  /** One space on either side of a trimmed word is stripped. */
  lemma StripOneSpace(core: string)
    requires core != [] && !IsSpace(core[0]) && !IsSpace(core[|core| - 1])
    ensures Strip(core + " ") == core
    ensures Strip(" " + core) == core
  {
    StripAround([], core, " ");
    assert [] + core + " " == core + " ";
    StripAround(" ", core, []);
    assert " " + core + [] == " " + core;
  }

  /**
   * `strip()` removes a leading U+001C, but `int()` does not skip it:
   * "\x1c1".strip() is "1", while int("\x1c1") raises ValueError.
   */
  lemma SeparatorStrippedNotSkipped()
    ensures Strip("\U{1c}1") == "1"
    ensures ParseInt("\U{1c}1").None?
  {
    StripAround("\U{1c}", "1", "");
    assert "\U{1c}" + "1" + "" == "\U{1c}1";
    StripWithTrimmed("\U{1c}1", IsIntSpace);
  }

  /** Index of the first occurrence of `c` in `s`, or None (the test `c in s`). */
  function IndexOf(s: string, c: char): (r: Option<nat>)
    ensures r.None? <==> c !in s
    ensures r.Some? ==> r.value < |s| && s[r.value] == c && c !in s[..r.value]
  {
    if s == [] then None
    else if s[0] == c then Some(0)
    else
      match IndexOf(s[1..], c)
      case None => None
      case Some(k) => Some(k + 1)
  }

  /** `s.split(sep, 1)` when `sep` occurs in `s`: the text before its first occurrence and the rest. */
  function SplitFirst(s: string, sep: char): (parts: (string, string))
    requires sep in s
    ensures parts.0 + [sep] + parts.1 == s
    ensures sep !in parts.0
  {
    var k := IndexOf(s, sep).value;
    assert s == s[..k] + [sep] + s[k + 1..];
    (s[..k], s[k + 1..])
  }

  /** The split is the only way to write `s` as `left + sep + right` with no `sep` in `left`. */
  lemma SplitFirstUnique(s: string, sep: char, left: string, right: string)
    requires s == left + [sep] + right && sep !in left
    ensures sep in s && SplitFirst(s, sep) == (left, right)
  {
    var (l, r) := SplitFirst(s, sep);
    assert forall k :: 0 <= k < |left| ==> s[k] == left[k];
    assert forall k :: 0 <= k < |l| ==> s[k] == l[k];
    assert s[|left|] == sep && s[|l|] == sep;
    assert |l| == |left|;
    assert l == s[..|l|];
    assert r == s[|l| + 1..];
    assert left == s[..|left|];
    assert right == s[|left| + 1..];
  }

  /** `s.startswith(prefix)`. */
  function StartsWith(s: string, prefix: string): (b: bool)
    ensures b <==> |prefix| <= |s| && forall k :: 0 <= k < |prefix| ==> s[k] == prefix[k]
  {
    |prefix| <= |s| && s[..|prefix|] == prefix
  }

  /** `str.lower()` on ASCII letters. */
  function Lower(s: string): (r: string)
    ensures |r| == |s|
    ensures forall k :: 0 <= k < |s| ==> r[k] == if 'A' <= s[k] <= 'Z' then (s[k] as int + 32) as char else s[k]
  {
    if s == [] then []
    else [if 'A' <= s[0] <= 'Z' then (s[0] as int + 32) as char else s[0]] + Lower(s[1..])
  }

  /** POSIX `os.path.join(dir, name)`. */
  function JoinPath(dir: string, name: string): (path: string)
    ensures name != [] && name[0] == '/' ==> path == name
    ensures (name == [] || name[0] != '/') ==> |dir| <= |path| && path[..|dir|] == dir
    ensures |name| <= |path| && path[|path| - |name|..] == name
    ensures |path| <= |dir| + 1 + |name|
  {
    if name != [] && name[0] == '/' then name
    else if dir == [] || dir[|dir| - 1] == '/' then dir + name
    else dir + "/" + name
  }

  predicate IsDigit(c: char) {
    '0' <= c <= '9'
  }

  /** Digits with single underscores between them, the body `int()` accepts in base 10. */
  predicate IsDigitRun(s: string) {
    && s != [] && IsDigit(s[0]) && IsDigit(s[|s| - 1])
    && (forall k :: 0 <= k < |s| ==> IsDigit(s[k]) || s[k] == '_')
    && (forall i, j :: 0 <= i < |s| && j == i + 1 < |s| && s[i] == '_' ==> IsDigit(s[j]))
  }

  /** The value of a digit run, underscores ignored. */
  function DigitsValue(s: string): nat {
    if s == [] then 0
    else if IsDigit(s[|s| - 1]) then 10 * DigitsValue(s[..|s| - 1]) + (s[|s| - 1] as int - '0' as int)
    else DigitsValue(s[..|s| - 1])
  }

  /** The number of digits in `s`, underscores not counted. */
  function DigitCount(s: string): (n: nat)
    ensures n <= |s|
  {
    if s == [] then 0
    else DigitCount(s[..|s| - 1]) + if IsDigit(s[|s| - 1]) then 1 else 0
  }

  /**
   * `sys.int_info.default_max_str_digits`: `int()` of a decimal text with
   * more digits than this raises ValueError (leading zeros count, the sign
   * and underscores do not). The tool never changes the limit.
   */
  const MaxStrDigits: nat := 4300

  /** Python's `int(s)`: None where it raises ValueError. */
  function ParseInt(s: string): (r: Option<int>)
    ensures IntStrip(s) == [] ==> r.None?
    ensures r.Some? ==> IsDigit(IntStrip(s)[|IntStrip(s)| - 1])
    ensures r.Some? && r.value < 0 ==> IntStrip(s)[0] == '-'
  {
    var t := IntStrip(s);
    var signed := t != [] && (t[0] == '+' || t[0] == '-');
    var run := if signed then t[1..] else t;
    var v: int := DigitsValue(run);
    if !IsDigitRun(run) || DigitCount(run) > MaxStrDigits then None
    else if signed && t[0] == '-' then Some(-v)
    else Some(v)
  }

  /** A text made of digits only counts every character. */
  lemma {:induction false} AllDigitsCount(s: string)
    requires forall k :: 0 <= k < |s| ==> IsDigit(s[k])
    ensures DigitCount(s) == |s|
  {
    if s != [] {
      AllDigitsCount(s[..|s| - 1]);
    }
  }

  /** A digit run longer than the limit is rejected, with or without a sign. */
  lemma ParseIntDigitLimit(s: string)
    requires IsDigitRun(s) && DigitCount(s) > MaxStrDigits
    ensures ParseInt(s).None?
    ensures ParseInt("-" + s).None?
  {
    assert ParseInt(s).None? by {
      assert IntStrip(s) == s by { StripWithTrimmed(s, IsIntSpace); }
      assert s[0] != '+' && s[0] != '-';
    }
    assert ParseInt("-" + s).None? by {
      NegatedTrimmed(s);
      SignedTrimmedTooLong("-" + s);
    }
  }

  /** A trimmed '-' followed by a digit run longer than the limit is rejected. */
  lemma SignedTrimmedTooLong(m: string)
    requires IntStrip(m) == m && m != [] && m[0] == '-' && IsDigitRun(m[1..])
    requires DigitCount(m[1..]) > MaxStrDigits
    ensures ParseInt(m).None?
  {
  }

  /** `str(n)` for a natural number. */
  function Decimal(n: nat): (r: string)
    ensures r != [] && forall k :: 0 <= k < |r| ==> IsDigit(r[k])
  {
    var d := ['0' + (n % 10) as char];
    if n < 10 then d else Decimal(n / 10) + d
  }

  lemma {:induction false} DecimalValue(n: nat)
    ensures DigitsValue(Decimal(n)) == n
  {
    if n >= 10 {
      DecimalValue(n / 10);
      assert Decimal(n)[..|Decimal(n)| - 1] == Decimal(n / 10);
    }
  }

  lemma DecimalDigitRun(n: nat)
    ensures IsDigitRun(Decimal(n))
  {
  }

  /** `int` reads back what `str` writes, with or without a minus sign, up to the digit limit. */
  lemma ParseDecimal(n: nat)
    requires |Decimal(n)| <= MaxStrDigits
    ensures ParseInt(Decimal(n)) == Some(n)
    ensures ParseInt("-" + Decimal(n)) == Some(-(n as int))
  {
    ParseDecimalPositive(n);
    ParseDecimalNegative(n);
  }

  lemma ParseDecimalPositive(n: nat)
    requires |Decimal(n)| <= MaxStrDigits
    ensures ParseInt(Decimal(n)) == Some(n)
  {
    DecimalValue(n);
    DecimalDigitRun(n);
    AllDigitsCount(Decimal(n));
    ParseUnsigned(Decimal(n), n);
  }

  lemma ParseDecimalNegative(n: nat)
    requires |Decimal(n)| <= MaxStrDigits
    ensures ParseInt("-" + Decimal(n)) == Some(-(n as int))
  {
    DecimalValue(n);
    DecimalDigitRun(n);
    AllDigitsCount(Decimal(n));
    ParseNegated(Decimal(n), n);
  }

  /** A digit run with no sign, within the digit limit, reads as its value. */
  lemma ParseUnsigned(s: string, v: nat)
    requires IsDigitRun(s) && DigitsValue(s) == v && DigitCount(s) <= MaxStrDigits
    ensures ParseInt(s) == Some(v as int)
  {
    assert IsDigit(s[0]) && IsDigit(s[|s| - 1]);
    assert IntStrip(s) == s by { StripWithTrimmed(s, IsIntSpace); }
  }

  /** A digit run after '-', within the digit limit, reads as its value negated. */
  lemma ParseNegated(s: string, v: nat)
    requires IsDigitRun(s) && DigitsValue(s) == v && DigitCount(s) <= MaxStrDigits
    ensures ParseInt("-" + s) == Some(-(v as int))
  {
    NegatedTrimmed(s);
    ParseSignedTrimmed("-" + s);
  }

  /** '-' before a digit run is already trimmed, and the run follows the sign. */
  lemma NegatedTrimmed(s: string)
    requires IsDigitRun(s)
    ensures IntStrip("-" + s) == "-" + s && ("-" + s)[1..] == s
  {
    var m := "-" + s;
    assert m[1..] == s;
    assert m[|m| - 1] == s[|s| - 1];
    assert IsDigit(s[|s| - 1]);
    StripWithTrimmed(m, IsIntSpace);
  }

  /** A trimmed '-' followed by a digit run reads as the run's value negated. */
  lemma ParseSignedTrimmed(m: string)
    requires IntStrip(m) == m && m != [] && m[0] == '-' && IsDigitRun(m[1..])
    requires DigitCount(m[1..]) <= MaxStrDigits
    ensures ParseInt(m) == Some(-(DigitsValue(m[1..]) as int))
  {
  }
}
