/** String operations of the JavaScript runtime that the emulator relies on:
    prefix tests, `split`/`join`, code-unit ordering, `parseInt`, template
    interpolation of `undefined`, and ASCII case mapping. */
module Text {
  import opened Wrappers

  predicate StartsWith(s: string, prefix: string) {
    |prefix| <= |s| && s[..|prefix|] == prefix
  }

  predicate EndsWith(s: string, suffix: string) {
    |suffix| <= |s| && s[|s| - |suffix|..] == suffix
  }

  lemma StartsWithConcat(a: string, b: string)
    ensures StartsWith(a + b, a)
  {
    assert (a + b)[..|a|] == a;
  }

  lemma EndsWithConcat(a: string, b: string)
    ensures EndsWith(a + b, b)
  {
    assert (a + b)[|a + b| - |b|..] == b;
  }

  /** Template interpolation `${x}` of a string that may be `undefined`. */
  function JsStr(o: Option<string>): string {
    o.GetOr("undefined")
  }

  // ---------------------------------------------------------------------------
  // split and join

  /** `s.split(sep)` for a one-character separator: the maximal separator-free
      pieces, including empty ones at either end. */
  function Split(s: string, sep: char): (parts: seq<string>)
    ensures |parts| >= 1
    ensures forall i :: 0 <= i < |parts| ==> sep !in parts[i]
  {
    if |s| == 0 then [""]
    else
      var rest := Split(s[1..], sep);
      if s[0] == sep then [""] + rest
      else [[s[0]] + rest[0]] + rest[1..]
  }

  /** `parts.join(sep)`; the join of no parts is the empty string. */
  function Join(parts: seq<string>, sep: char): string {
    if |parts| == 0 then ""
    else if |parts| == 1 then parts[0]
    else parts[0] + [sep] + Join(parts[1..], sep)
  }

  function Last(parts: seq<string>): string
    requires |parts| >= 1
  {
    parts[|parts| - 1]
  }

  /** Joining the pieces of a split gives back the original string. */
  lemma {:induction false} JoinSplit(s: string, sep: char)
    ensures Join(Split(s, sep), sep) == s
  {
    if |s| > 0 {
      var rest := Split(s[1..], sep);
      JoinSplit(s[1..], sep);
      if s[0] == sep {
        assert Join(Split(s, sep), sep) == "" + [sep] + Join(rest, sep);
      } else if |rest| == 1 {
        assert Join(Split(s, sep), sep) == [s[0]] + rest[0];
      } else {
        var parts := Split(s, sep);
        assert parts[1..] == rest[1..];
        assert Join(parts, sep) == ([s[0]] + rest[0]) + [sep] + Join(rest[1..], sep);
        assert Join(rest, sep) == rest[0] + [sep] + Join(rest[1..], sep);
        assert s == [s[0]] + s[1..];
      }
    }
  }

  /** A string without the separator is a single piece. */
  lemma {:induction false} SplitNoSeparator(a: string, sep: char)
    requires sep !in a
    ensures Split(a, sep) == [a]
  {
    if |a| > 0 {
      SplitNoSeparator(a[1..], sep);
      assert [a[0]] + a[1..] == a;
    }
  }

  /** Splitting `a + sep + b`, where `a` holds no separator, yields `a` followed
      by the pieces of `b`. */
  lemma {:induction false} SplitCons(a: string, b: string, sep: char)
    requires sep !in a
    ensures Split(a + [sep] + b, sep) == [a] + Split(b, sep)
  {
    if |a| == 0 {
      assert a + [sep] + b == [sep] + b;
      assert ([sep] + b)[1..] == b;
    } else {
      SplitCons(a[1..], b, sep);
      var s := a + [sep] + b;
      assert s[0] == a[0];
      assert s[1..] == a[1..] + [sep] + b;
      assert [a[0]] + a[1..] == a;
    }
  }

  // ---------------------------------------------------------------------------
  // code-unit ordering (the model of `localeCompare` on identifiers)

  /** `a` sorts at or before `b`, comparing code units left to right. */
  predicate Le(a: string, b: string) {
    if |a| == 0 then true
    else if |b| == 0 then false
    else if a[0] != b[0] then a[0] < b[0]
    else Le(a[1..], b[1..])
  }

  lemma LeTotal(a: string, b: string)
    ensures Le(a, b) || Le(b, a)
  {
  }

  lemma LeTransitive(a: string, b: string, c: string)
    requires Le(a, b) && Le(b, c)
    ensures Le(a, c)
  {
  }

  lemma LeAntisymmetric(a: string, b: string)
    requires Le(a, b) && Le(b, a)
    ensures a == b
  {
    if |a| > 0 && |b| > 0 {
      LeAntisymmetric(a[1..], b[1..]);
      assert a == [a[0]] + a[1..] && b == [b[0]] + b[1..];
    }
  }

  // ---------------------------------------------------------------------------
  // parseInt

  /** The characters `parseInt` skips before the number: ECMAScript white space
      and line terminators. */
  predicate IsJsWhitespace(c: char) {
    var n := c as int;
    n == 0x09 || n == 0x0A || n == 0x0B || n == 0x0C || n == 0x0D || n == 0x20
    || n == 0xA0 || n == 0x1680 || (0x2000 <= n <= 0x200A) || n == 0x2028
    || n == 0x2029 || n == 0x202F || n == 0x205F || n == 0x3000 || n == 0xFEFF
  }

  function TrimStart(s: string): (r: string)
    ensures |r| <= |s| && r == s[|s| - |r|..]
    ensures |r| > 0 ==> !IsJsWhitespace(r[0])
  {
    if |s| > 0 && IsJsWhitespace(s[0]) then TrimStart(s[1..]) else s
  }

  /** The value of a digit character in bases up to 36. */
  function DigitValue(c: char): (d: Option<nat>)
    ensures d.Some? ==> d.value < 36
  {
    if '0' <= c <= '9' then Some(c as int - '0' as int)
    else if 'a' <= c <= 'z' then Some(c as int - 'a' as int + 10)
    else if 'A' <= c <= 'Z' then Some(c as int - 'A' as int + 10)
    else None
  }

  predicate IsDigitIn(c: char, radix: nat) {
    DigitValue(c).Some? && DigitValue(c).value < radix
  }

  /** The length of the longest prefix of `s` made of digits of `radix`. */
  function DigitRun(s: string, radix: nat): (k: nat)
    ensures k <= |s|
    ensures forall i :: 0 <= i < k ==> IsDigitIn(s[i], radix)
    ensures k < |s| ==> !IsDigitIn(s[k], radix)
  {
    if |s| > 0 && IsDigitIn(s[0], radix) then 1 + DigitRun(s[1..], radix) else 0
  }

  lemma MulNonNegative(a: nat, b: nat)
    ensures a * b >= 0
  {
  }

  /** The number a string of digits denotes in `radix`. */
  function DigitsValue(s: string, radix: nat): nat
    requires forall i :: 0 <= i < |s| ==> IsDigitIn(s[i], radix)
  {
    if |s| == 0 then 0
    else
      assert IsDigitIn(s[|s| - 1], radix);
      var d := DigitValue(s[|s| - 1]).value;
      var v := DigitsValue(s[..|s| - 1], radix);
      MulNonNegative(v, radix);
      v * radix + d
  }

  /** The digits after an optional `0x`/`0X` prefix, read in base 16 after the
      prefix and base 10 otherwise; `None` when no digit follows. */
  function ParseUnsigned(u: string): Option<int> {
    if |u| >= 2 && u[0] == '0' && (u[1] == 'x' || u[1] == 'X') then LeadingDigits(u[2..], 16)
    else LeadingDigits(u, 10)
  }

  /** The value of the longest run of `radix` digits at the start of `digits`;
      `None` when it does not start with one. */
  function LeadingDigits(digits: string, radix: nat): Option<int> {
    var k := DigitRun(digits, radix);
    if k == 0 then None else Some(DigitsValue(digits[..k], radix))
  }

  /** `parseInt(s)` without a radix argument: leading white space is skipped, an
      optional sign is read, a `0x`/`0X` prefix selects base 16, and the longest
      run of digits that follows is the result; `None` is `NaN`. */
  function ParseInt(s: string): (r: Option<int>) {
    var t := TrimStart(s);
    var signed := |t| > 0 && (t[0] == '-' || t[0] == '+');
    var magnitude := ParseUnsigned(if signed then t[1..] else t);
    if magnitude.None? then None
    else if signed && t[0] == '-' then Some(-magnitude.value)
    else magnitude
  }

  /** `String(n)` for an integer `n`: its decimal digits, with `-` when negative. */
  function DecimalString(n: int): (s: string)
    decreases if n < 0 then -n + 1 else n
  {
    if n < 0 then "-" + DecimalString(-n)
    else if n < 10 then ['0' + n as char]
    else DecimalString(n / 10) + ['0' + (n % 10) as char]
  }

  lemma {:induction false} DecimalDigits(n: nat)
    ensures |DecimalString(n)| >= 1
    ensures forall i :: 0 <= i < |DecimalString(n)| ==> '0' <= DecimalString(n)[i] <= '9'
    ensures n > 0 ==> DecimalString(n)[0] != '0'
    ensures forall i :: 0 <= i < |DecimalString(n)| ==> IsDigitIn(DecimalString(n)[i], 10)
    ensures DigitsValue(DecimalString(n), 10) == n
    decreases n
  {
    var s := DecimalString(n);
    if n >= 10 {
      DecimalDigits(n / 10);
      var p := DecimalString(n / 10);
      assert s == p + ['0' + (n % 10) as char];
      assert s[..|s| - 1] == p;
    }
  }

  /** A non-empty run of decimal digits that does not start with `0x` reads as
      the number it denotes. */
  lemma ParseUnsignedDigits(d: string)
    requires |d| >= 1
    requires forall i :: 0 <= i < |d| ==> IsDigitIn(d[i], 10)
    requires |d| >= 2 ==> d[0] != '0'
    ensures ParseUnsigned(d) == Some(DigitsValue(d, 10))
  {
    assert DigitRun(d, 10) == |d|;
    assert d[..|d|] == d;
  }

  lemma ParseUnpadded(s: string, d: string)
    requires |s| >= 1 && !IsJsWhitespace(s[0])
    requires (s[0] == '-' && s[1..] == d) || (s == d && '0' <= s[0] <= '9')
    ensures ParseInt(s) == if s[0] == '-' then
      (if ParseUnsigned(d).Some? then Some(-ParseUnsigned(d).value) else None)
      else ParseUnsigned(d)
  {
    assert TrimStart(s) == s;
  }

  /** The decimal string of a natural number starts with a digit and reads
      back as the number. */
  lemma DecimalReads(m: nat)
    ensures |DecimalString(m)| >= 1 && '0' <= DecimalString(m)[0] <= '9'
    ensures ParseUnsigned(DecimalString(m)) == Some(m)
  {
    DecimalDigits(m);
    ParseUnsignedDigits(DecimalString(m));
  }

  /** Reading back the decimal string of an integer gives the integer. */
  lemma ParseDecimal(n: int)
    ensures ParseInt(DecimalString(n)) == Some(n)
  {
    if n < 0 {
      ParseNegativeDecimal(n);
    } else {
      DecimalReads(n);
      ParseUnpadded(DecimalString(n), DecimalString(n));
    }
  }

  lemma ParseNegativeDecimal(n: int)
    requires n < 0
    ensures ParseInt(DecimalString(n)) == Some(n)
  {
    assert DecimalString(n) == "-" + DecimalString(-n);
    DecimalReads(-n);
    ParseNegated(DecimalString(-n), -n);
  }

  /** A minus sign before digits that read as `m` reads as `-m`. */
  lemma ParseNegated(d: string, m: nat)
    requires |d| >= 1 && '0' <= d[0] <= '9'
    requires ParseUnsigned(d) == Some(m)
    ensures ParseInt("-" + d) == Some(-(m as int))
  {
    ParseMinus(d);
  }

  /** `parseInt` of a minus sign followed by `d` negates the magnitude `d`
      reads as. */
  lemma ParseMinus(d: string)
    ensures ParseInt("-" + d) == if ParseUnsigned(d).Some? then Some(-ParseUnsigned(d).value) else None
  {
    var s := "-" + d;
    assert s[0] == '-' && s[1..] == d;
    assert TrimStart(s) == s;
  }


  // ---------------------------------------------------------------------------
  // ASCII case mapping

  function LowerChar(c: char): char {
    if 'A' <= c <= 'Z' then (c as int + 32) as char else c
  }

  function UpperChar(c: char): char {
    if 'a' <= c <= 'z' then (c as int - 32) as char else c
  }

  /** `s.toLowerCase()` restricted to ASCII letters. */
  function ToLower(s: string): (r: string)
    ensures |r| == |s|
    ensures forall i :: 0 <= i < |s| ==> r[i] == LowerChar(s[i])
  {
    if |s| == 0 then "" else [LowerChar(s[0])] + ToLower(s[1..])
  }
}
