/**
 * Python's built-in `int(s)` on a `str`, base 10, and `str(n)` on an `int`.
 * `int` strips surrounding ASCII whitespace, takes an optional sign, and then
 * wants one or more decimal digits, where a single `_` may separate two
 * digits, and no more digits than the interpreter's limit on integer
 * string conversion; anything else raises `ValueError`.
 */
module PyInt {
  import opened Wrappers

  predicate IsDigit(c: char) { '0' <= c <= '9' }

  /**
   * The ASCII whitespace that `int` skips around its literal: the C-locale
   * `isspace` set, space and `\t` through `\r`. The separators `\x1c` to
   * `\x1f`, for which `str.isspace()` holds, are not skipped.
   */
  predicate IsSpace(c: char) {
    c == ' ' || '\t' <= c <= '\r'
  }

  function TrimStart(s: string): (t: string) {
    if s != [] && IsSpace(s[0]) then TrimStart(s[1..]) else s
  }

  function TrimEnd(s: string): (t: string) {
    if s != [] && IsSpace(s[|s| - 1]) then TrimEnd(s[..|s| - 1]) else s
  }

  /** `TrimStart` drops a run of leading whitespace and nothing else. */
  lemma {:induction false} TrimStartDropsSpaces(s: string)
    ensures |TrimStart(s)| <= |s| && TrimStart(s) == s[|s| - |TrimStart(s)|..]
    ensures forall k :: 0 <= k < |s| - |TrimStart(s)| ==> IsSpace(s[k])
    ensures TrimStart(s) == [] || !IsSpace(TrimStart(s)[0])
  {
    if s != [] && IsSpace(s[0]) {
      var u := s[1..];
      TrimStartDropsSpaces(u);
      var t := TrimStart(u);
      assert TrimStart(s) == t;
      assert u[|u| - |t|..] == s[|s| - |t|..];
      forall k | 1 <= k < |s| - |t|
        ensures IsSpace(s[k])
      {
        assert s[k] == u[k - 1];
      }
    }
  }

  /** `TrimEnd` drops a run of trailing whitespace and nothing else. */
  lemma {:induction false} TrimEndDropsSpaces(s: string)
    ensures |TrimEnd(s)| <= |s| && TrimEnd(s) == s[..|TrimEnd(s)|]
    ensures forall k :: |TrimEnd(s)| <= k < |s| ==> IsSpace(s[k])
    ensures TrimEnd(s) == [] || !IsSpace(TrimEnd(s)[|TrimEnd(s)| - 1])
  {
    if s != [] && IsSpace(s[|s| - 1]) {
      var u := s[..|s| - 1];
      TrimEndDropsSpaces(u);
      var t := TrimEnd(u);
      assert TrimEnd(s) == t;
      assert u[..|t|] == s[..|t|];
      forall k | |t| <= k < |s| - 1
        ensures IsSpace(s[k])
      {
        assert s[k] == u[k];
      }
    }
  }

  /** `s.strip()` as `int` applies it. */
  function Strip(s: string): (t: string) {
    TrimEnd(TrimStart(s))
  }

  predicate DigitsOrUnderscores(s: string) {
    forall k :: 0 <= k < |s| ==> IsDigit(s[k]) || s[k] == '_'
  }

  /** Digits, where each `_` stands between two digits. */
  predicate IsDigitRun(s: string) {
    && |s| > 0
    && IsDigit(s[0])
    && IsDigit(s[|s| - 1])
    && DigitsOrUnderscores(s)
    && forall k :: 0 <= k < |s| - 1 ==> IsDigit(s[k]) || IsDigit(s[k + 1])
  }

  /** The decimal value of the digits of `s`, underscores skipped. */
  function DigitsValue(s: string): (v: nat)
    requires DigitsOrUnderscores(s)
  {
    if s == [] then 0
    else if s[|s| - 1] == '_' then DigitsValue(s[..|s| - 1])
    else DigitsValue(s[..|s| - 1]) * 10 + (s[|s| - 1] as int - '0' as int)
  }

  /**
   * The default of `sys.get_int_max_str_digits()`: the most digits a
   * decimal conversion between `str` and `int` accepts (CPython 3.11 and
   * later, and 3.7.14, 3.8.14, 3.9.14, 3.10.7 and every later release of
   * those branches). `sys.set_int_max_str_digits`, `PYTHONINTMAXSTRDIGITS`
   * and `-X int_max_str_digits` change it; the model keeps the default.
   */
  const MaxStrDigits: nat := 4300

  /** The number of digits in `s`; underscores do not count. */
  function DigitCount(s: string): (n: nat)
    ensures n <= |s|
  {
    if s == [] then 0
    else DigitCount(s[..|s| - 1]) + (if IsDigit(s[|s| - 1]) then 1 else 0)
  }

  /** What `int` accepts after the optional sign. */
  predicate IsAcceptedRun(s: string) {
    IsDigitRun(s) && DigitCount(s) <= MaxStrDigits
  }

  /** `int(s)`: `Some` of its value, or `None` where Python raises `ValueError`. */
  function Parse(s: string): (r: Option<int>)
    ensures r.Some? ==> Strip(s) != [] && (r.value < 0 ==> Strip(s)[0] == '-')
  {
    var t := Strip(s);
    if |t| > 0 && (t[0] == '+' || t[0] == '-') && IsAcceptedRun(t[1..]) then
      Some(if t[0] == '-' then 0 - DigitsValue(t[1..]) else DigitsValue(t[1..]))
    else if IsAcceptedRun(t) then
      Some(DigitsValue(t))
    else
      None
  }

  function DigitChar(d: nat): (c: char)
    requires d < 10
  {
    ('0' as int + d) as char
  }

  function ShowNat(n: nat): (s: string) {
    if n < 10 then [DigitChar(n)] else ShowNat(n / 10) + [DigitChar(n % 10)]
  }

  /** `str(n)`: the canonical decimal spelling of an integer. */
  function Show(n: int): (s: string) {
    if n < 0 then "-" + ShowNat(-n) else ShowNat(n)
  }

  lemma {:induction false} ShowNatIsDigitRun(n: nat)
    ensures |ShowNat(n)| > 0
    ensures forall k :: 0 <= k < |ShowNat(n)| ==> IsDigit(ShowNat(n)[k])
    ensures DigitsValue(ShowNat(n)) == n
  {
    if n >= 10 {
      ShowNatIsDigitRun(n / 10);
      var s := ShowNat(n);
      assert s[..|s| - 1] == ShowNat(n / 10);
    }
  }

  /** Stripping leaves a string alone whose two ends are not whitespace. */
  lemma StripKeeps(s: string)
    requires s != [] && !IsSpace(s[0]) && !IsSpace(s[|s| - 1])
    ensures Strip(s) == s
  {
  }

  /** `Strip(s)` is the stretch of `s` between two runs of whitespace. */
  lemma StripIsInfix(s: string) returns (a: nat)
    ensures a + |Strip(s)| <= |s| && Strip(s) == s[a..a + |Strip(s)|]
    ensures forall k :: 0 <= k < a || a + |Strip(s)| <= k < |s| ==> IsSpace(s[k])
  {
    var u := TrimStart(s);
    TrimStartDropsSpaces(s);
    TrimEndDropsSpaces(u);
    a := |s| - |u|;
    assert u == s[a..];
  }

  /** A string of digits only has one digit per character. */
  lemma {:induction false} DigitCountOfDigits(s: string)
    requires forall k :: 0 <= k < |s| ==> IsDigit(s[k])
    ensures DigitCount(s) == |s|
  {
    if s != [] {
      DigitCountOfDigits(s[..|s| - 1]);
    }
  }

  /**
   * `int(str(n)) == n`: every integer whose spelling is within the digit
   * limit (the integers `str` itself converts) parses back to itself.
   */
  lemma ParseShow(n: int)
    requires |ShowNat(if n < 0 then -n else n)| <= MaxStrDigits
    ensures Parse(Show(n)) == Some(n)
  {
    var m: nat := if n < 0 then -n else n;
    ShowNatIsDigitRun(m);
    var d := ShowNat(m);
    DigitCountOfDigits(d);
    assert IsAcceptedRun(d);
    var s := Show(n);
    StripKeeps(s);
    if n < 0 {
      assert s[1..] == d;
    }
  }

  /**
   * `int(s)` raises unless every character of `s` is a digit, an
   * underscore, a sign or whitespace.
   */
  lemma ParseOnlyLiterals(s: string)
    requires Parse(s).Some?
    ensures s != []
    ensures forall k :: 0 <= k < |s| ==>
      IsDigit(s[k]) || s[k] == '_' || s[k] == '+' || s[k] == '-' || IsSpace(s[k])
  {
    var t := Strip(s);
    var a := StripIsInfix(s);
    assert t != [];
    assert forall j :: 0 <= j < |t| ==> IsDigit(t[j]) || t[j] == '_' || t[j] == '+' || t[j] == '-' by {
      if IsDigitRun(t) {
      } else {
        assert DigitsOrUnderscores(t[1..]);
        forall j | 1 <= j < |t| ensures IsDigit(t[j]) || t[j] == '_' {
          assert t[1..][j - 1] == t[j];
        }
      }
    }
    forall k | a <= k < a + |t|
      ensures IsDigit(s[k]) || s[k] == '_' || s[k] == '+' || s[k] == '-'
    {
      assert s[k] == t[k - a];
    }
  }

  /**
   * Past the digit limit `int` raises even on a plain run of digits, such
   * as a node id of 4301 `1` characters.
   */
  lemma ParseRejectsOverLimit(s: string)
    requires |s| > MaxStrDigits
    requires forall k :: 0 <= k < |s| ==> IsDigit(s[k])
    ensures Parse(s) == None
  {
    StripKeeps(s);
    DigitCountOfDigits(s);
  }

  /**
   * `int` skips vertical tab and form feed around a literal, but not the
   * information separators `\x1c`..`\x1f`: `int('\x0b5\x0c') == 5`, while
   * `int('\x1c5')` and `int('5\x1f')` raise.
   */
  lemma ParseSkipsOnlyAsciiSpace()
    ensures Parse("\U{0B}5\U{0C}") == Some(5)
    ensures Parse("\U{1C}5") == None
    ensures Parse("5\U{1F}") == None
  {
    assert Strip("\U{0B}5\U{0C}") == "5";
    assert Strip("\U{1C}5") == "\U{1C}5";
    assert Strip("5\U{1F}") == "5\U{1F}";
    assert !IsDigitRun("\U{1C}5") by { assert !DigitsOrUnderscores("\U{1C}5"); }
  }
}
