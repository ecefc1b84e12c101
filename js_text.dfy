/**
 * The JavaScript built-ins the application's logic leans on, over strings (`seq<char>`) and
 * integers: the `\d` and `\s` character classes of regular expressions, `trim`, `includes`,
 * `startsWith`, `replace(/\D/g, '')`, `parseInt`, `parseFloat`, `Number.prototype.toString` and
 * `padStart(2, '0')`. Each is written out once here and used by every component model.
 */
module JsText {
  import opened Wrappers

  /** A JavaScript number as far as the application produces one: an integer, or NaN. */
  datatype Num = Finite(n: int) | NaN

  /** `a < b` and `a <= b` on JavaScript numbers: false as soon as one side is NaN. */
  predicate Lt(a: Num, b: Num) { a.Finite? && b.Finite? && a.n < b.n }
  predicate Le(a: Num, b: Num) { a.Finite? && b.Finite? && a.n <= b.n }

  /** `a + b` and `a - b`: NaN is absorbing. */
  function Plus(a: Num, b: Num): Num { if a.Finite? && b.Finite? then Finite(a.n + b.n) else NaN }
  function Minus(a: Num, b: Num): Num { if a.Finite? && b.Finite? then Finite(a.n - b.n) else NaN }

  // ---------------------------------------------------------------- characters

  /** `\d`: only the ASCII digits. */
  predicate IsDigit(c: char) { '0' <= c <= '9' }

  /** `\s`, which is also the set of characters `trim()` and `parseInt` skip. */
  predicate IsSpace(c: char) {
    c == '\t' || c == '\n' || c == '\U{000B}' || c == '\U{000C}' || c == '\r' || c == ' '
    || c == '\U{00A0}' || c == '\U{1680}' || ('\U{2000}' <= c <= '\U{200A}')
    || c == '\U{2028}' || c == '\U{2029}' || c == '\U{202F}' || c == '\U{205F}'
    || c == '\U{3000}' || c == '\U{FEFF}'
  }

  predicate AllDigits(s: string) { forall i :: 0 <= i < |s| ==> IsDigit(s[i]) }

  function DigitVal(c: char): (d: nat)
    requires IsDigit(c)
    ensures d < 10
  {
    (c as int) - ('0' as int)
  }

  function DigitChar(d: nat): (c: char)
    requires d < 10
    ensures IsDigit(c) && DigitVal(c) == d
  {
    (('0' as int) + d) as char
  }

  // ---------------------------------------------------------------- searching

  /** `s.includes(t)`. */
  predicate Contains(s: string, t: string)
    decreases |s|
  {
    |t| <= |s| && (s[..|t|] == t || (|s| > 0 && Contains(s[1..], t)))
  }

  /** `s.startsWith(t)`. */
  predicate StartsWith(s: string, t: string) { |t| <= |s| && s[..|t|] == t }

  lemma {:induction false} ContainsAt(s: string, t: string, i: nat)
    requires i + |t| <= |s| && s[i..i + |t|] == t
    ensures Contains(s, t)
    decreases i
  {
    if i > 0 {
      assert s[1..][i - 1..i - 1 + |t|] == s[i..i + |t|];
      ContainsAt(s[1..], t, i - 1);
    }
  }

  /** A text is found in anything that ends with it. */
  lemma ContainsSuffix(p: string, t: string)
    ensures Contains(p + t, t)
  {
    assert (p + t)[|p|..|p| + |t|] == t;
    ContainsAt(p + t, t, |p|);
  }

  /** A string cannot contain `t` when it has no occurrence of `t`'s first character. */
  lemma {:induction false} NotContainsWithoutFirstChar(s: string, t: string)
    requires |t| > 0 && t[0] !in s
    ensures !Contains(s, t)
    decreases |s|
  {
    if |t| <= |s| {
      assert s[..|t|][0] == s[0];
      if |s| > 0 {
        assert s[1..] <= s[1..] && forall c :: c in s[1..] ==> c in s;
        NotContainsWithoutFirstChar(s[1..], t);
      }
    }
  }

  // ---------------------------------------------------------------- trimming and filtering

  function TrimStart(s: string): (r: string)
    ensures |r| <= |s| && r == s[|s| - |r|..]
    ensures r == [] || !IsSpace(r[0])
    decreases |s|
  {
    if |s| > 0 && IsSpace(s[0]) then TrimStart(s[1..]) else s
  }

  function TrimEnd(s: string): (r: string)
    ensures |r| <= |s| && r == s[..|r|]
    ensures r == [] || !IsSpace(r[|r| - 1])
    decreases |s|
  {
    if |s| > 0 && IsSpace(s[|s| - 1]) then TrimEnd(s[..|s| - 1]) else s
  }

  /** What `trimStart` drops is white space. */
  lemma {:induction false} TrimStartDropsSpace(s: string)
    ensures forall k :: 0 <= k < |s| - |TrimStart(s)| ==> IsSpace(s[k])
    decreases |s|
  {
    if |s| > 0 && IsSpace(s[0]) {
      TrimStartDropsSpace(s[1..]);
    }
  }

  /** What `trimEnd` drops is white space. */
  lemma {:induction false} TrimEndDropsSpace(s: string)
    ensures forall k :: |TrimEnd(s)| <= k < |s| ==> IsSpace(s[k])
    decreases |s|
  {
    if |s| > 0 && IsSpace(s[|s| - 1]) {
      TrimEndDropsSpace(s[..|s| - 1]);
    }
  }

  /** `trimStart` leaves a text alone when it does not start with white space. */
  lemma TrimStartNoOp(s: string)
    requires s == [] || !IsSpace(s[0])
    ensures TrimStart(s) == s
  {
  }

  /** `s.trim()`. */
  function Trim(s: string): string { TrimEnd(TrimStart(s)) }

  lemma TrimNoOp(s: string)
    requires |s| > 0 && !IsSpace(s[0]) && !IsSpace(s[|s| - 1])
    ensures Trim(s) == s
  {
  }

  /** `s.replace(/\D/g, '')`: the digits of `s`, in order. */
  function DigitsOnly(s: string): (r: string)
    ensures AllDigits(r) && |r| <= |s|
    decreases |s|
  {
    if s == [] then [] else (if IsDigit(s[0]) then [s[0]] else []) + DigitsOnly(s[1..])
  }

  lemma {:induction false} DigitsOnlyAppend(a: string, b: string)
    ensures DigitsOnly(a + b) == DigitsOnly(a) + DigitsOnly(b)
    decreases |a|
  {
    if a != [] {
      assert (a + b)[1..] == a[1..] + b;
      DigitsOnlyAppend(a[1..], b);
    } else {
      assert a + b == b;
    }
  }

  /** A string of digits is left as it is. */
  lemma {:induction false} DigitsOnlyOfDigits(s: string)
    requires AllDigits(s)
    ensures DigitsOnly(s) == s
    decreases |s|
  {
    if s != [] {
      DigitsOnlyOfDigits(s[1..]);
    }
  }

  /** `s.replace(/^0+/, '')`. */
  function StripLeadingZeros(s: string): (r: string)
    ensures |r| <= |s| && r == s[|s| - |r|..]
    ensures r == [] || r[0] != '0'
    decreases |s|
  {
    if |s| > 0 && s[0] == '0' then StripLeadingZeros(s[1..]) else s
  }

  /** `s.replace(/[\s+]/g, '')`. */
  function StripPlusAndSpace(s: string): (r: string)
    ensures forall i :: 0 <= i < |r| ==> r[i] != '+' && !IsSpace(r[i])
    decreases |s|
  {
    if s == [] then []
    else (if s[0] == '+' || IsSpace(s[0]) then [] else [s[0]]) + StripPlusAndSpace(s[1..])
  }

  lemma {:induction false} StripPlusAndSpaceAppend(a: string, b: string)
    ensures StripPlusAndSpace(a + b) == StripPlusAndSpace(a) + StripPlusAndSpace(b)
    decreases |a|
  {
    if a != [] {
      assert (a + b)[1..] == a[1..] + b;
      StripPlusAndSpaceAppend(a[1..], b);
    } else {
      assert a + b == b;
    }
  }

  lemma {:induction false} StripPlusAndSpaceOfDigits(s: string)
    requires AllDigits(s)
    ensures StripPlusAndSpace(s) == s
    decreases |s|
  {
    if s != [] {
      StripPlusAndSpaceOfDigits(s[1..]);
    }
  }

  // ---------------------------------------------------------------- numerals

  /** The value of a run of decimal digits, as `parseInt` reads it. */
  function DigitsValue(s: string): nat
    requires AllDigits(s)
    decreases |s|
  {
    if s == [] then 0 else DigitsValue(s[..|s| - 1]) * 10 + DigitVal(s[|s| - 1])
  }

  /** `n.toString()` for a non-negative integer: no leading zero except for 0 itself. */
  function NatToString(n: nat): (s: string)
    ensures |s| >= 1 && AllDigits(s)
    ensures s[0] == '0' ==> n == 0
  {
    if n < 10 then [DigitChar(n)] else NatToString(n / 10) + [DigitChar(n % 10)]
  }

  /** `n.toString()` for any integer. */
  function IntToString(n: int): string {
    if n < 0 then "-" + NatToString(-n) else NatToString(n)
  }

  /** `text || fallback` on strings: the empty string is falsy, so the fallback takes its place. */
  function OrElse(text: string, fallback: string): (r: string)
    ensures r == text || r == fallback
    ensures r == [] ==> fallback == []
  {
    if text != [] then text else fallback
  }

  /** `s.padStart(2, '0')`. */
  function PadStart2(s: string): (r: string)
    ensures |r| == if |s| < 2 then 2 else |s|
  {
    if |s| == 0 then "00" else if |s| == 1 then "0" + s else s
  }

  /** Reading back what `toString` wrote gives the number again. */
  lemma {:induction false} NatToStringRoundTrip(n: nat)
    ensures DigitsValue(NatToString(n)) == n
  {
    if n >= 10 {
      var s := NatToString(n);
      assert s[..|s| - 1] == NatToString(n / 10);
      NatToStringRoundTrip(n / 10);
    }
  }

  /** A number below 100, written and zero-padded, is exactly its two decimal digits. */
  lemma TwoDigits(n: nat)
    requires n < 100
    ensures PadStart2(IntToString(n)) == [DigitChar(n / 10), DigitChar(n % 10)]
  {
    if n >= 10 {
      assert NatToString(n / 10) == [DigitChar(n / 10)];
    }
  }

  lemma OneDigitValue(a: char)
    requires IsDigit(a)
    ensures DigitsValue([a]) == DigitVal(a)
  {
    assert [a][..0] == [];
  }

  lemma TwoDigitsValue(a: char, b: char)
    requires IsDigit(a) && IsDigit(b)
    ensures DigitsValue([a, b]) == 10 * DigitVal(a) + DigitVal(b)
  {
    assert [a, b][..1] == [a];
    assert [a][..0] == [];
    assert DigitsValue([a]) == DigitVal(a);
  }

  // ---------------------------------------------------------------- parseInt and parseFloat

  /** The longest prefix of `s` made of decimal digits. */
  function LeadingDigits(s: string): (r: string)
    ensures r <= s && AllDigits(r)
    ensures r == s || !IsDigit(s[|r|])
    decreases |s|
  {
    if |s| > 0 && IsDigit(s[0]) then [s[0]] + LeadingDigits(s[1..]) else []
  }

  predicate IsHexDigit(c: char) { IsDigit(c) || 'a' <= c <= 'f' || 'A' <= c <= 'F' }

  function HexVal(c: char): nat
    requires IsHexDigit(c)
  {
    if IsDigit(c) then DigitVal(c)
    else if 'a' <= c <= 'f' then (c as int) - ('a' as int) + 10
    else (c as int) - ('A' as int) + 10
  }

  /** The longest prefix of `s` made of hexadecimal digits. */
  function LeadingHexDigits(s: string): (r: string)
    ensures r <= s && forall i :: 0 <= i < |r| ==> IsHexDigit(r[i])
    decreases |s|
  {
    if |s| > 0 && IsHexDigit(s[0]) then [s[0]] + LeadingHexDigits(s[1..]) else []
  }

  function HexValue(s: string): nat
    requires forall i :: 0 <= i < |s| ==> IsHexDigit(s[i])
    decreases |s|
  {
    if s == [] then 0 else HexValue(s[..|s| - 1]) * 16 + HexVal(s[|s| - 1])
  }

  /** The sign `parseInt` and `parseFloat` read after the leading white space, and what follows it. */
  function SignOf(t: string): int { if |t| > 0 && t[0] == '-' then -1 else 1 }
  function AfterSign(t: string): string {
    if |t| > 0 && (t[0] == '-' || t[0] == '+') then t[1..] else t
  }

  /** `parseInt(s)` with no radix: white space, a sign, then a `0x` hexadecimal or a decimal numeral. */
  function ParseInt(s: string): Num {
    var t := TrimStart(s);
    var u := AfterSign(t);
    if |u| >= 2 && u[0] == '0' && (u[1] == 'x' || u[1] == 'X') then
      var h := LeadingHexDigits(u[2..]);
      if h == [] then NaN else Finite(SignOf(t) * HexValue(h))
    else
      var d := LeadingDigits(u);
      if d == [] then NaN else Finite(SignOf(t) * DigitsValue(d))
  }

  /** A decimal fraction `mantissa / 10^places`. */
  datatype Decimal = Decimal(mantissa: int, places: nat)

  function Pow10(k: nat): (p: nat)
    ensures p >= 1
  {
    if k == 0 then 1 else 10 * Pow10(k - 1)
  }

  /**
   * `parseFloat(s)` on decimal numerals: white space, a sign, digits, optionally `.` and more
   * digits, with at least one digit in all; `None` is NaN.
   */
  function ParseFloat(s: string): Option<Decimal> {
    var t := TrimStart(s);
    var u := AfterSign(t);
    var whole := LeadingDigits(u);
    var rest := u[|whole|..];
    var frac := if |rest| > 0 && rest[0] == '.' then LeadingDigits(rest[1..]) else [];
    if |whole| + |frac| == 0 then None
    else Some(Decimal(SignOf(t) * DigitsValue(whole + frac), |frac|))
  }

  /** The digits in front of a non-digit are the leading digits. */
  lemma {:induction false} LeadingDigitsOfNumeral(d: string, rest: string)
    requires AllDigits(d) && (rest == [] || !IsDigit(rest[0]))
    ensures LeadingDigits(d + rest) == d
    decreases |d|
  {
    if d == [] {
      assert d + rest == rest;
    } else {
      assert (d + rest)[1..] == d[1..] + rest;
      LeadingDigitsOfNumeral(d[1..], rest);
    }
  }

  /** A text that starts with a digit is left alone by `trimStart` and carries no sign. */
  lemma StartsWithDigit(s: string)
    requires |s| > 0 && IsDigit(s[0])
    ensures TrimStart(s) == s && AfterSign(s) == s && SignOf(s) == 1
  {
    assert !IsSpace(s[0]);
    TrimStartNoOp(s);
  }

  /** `parseInt` of a decimal numeral followed by anything that is not a digit (nor an `x` after a lone 0). */
  lemma ParseIntOfNumeral(d: string, rest: string)
    requires |d| > 0 && AllDigits(d) && (rest == [] || !IsDigit(rest[0]))
    requires d == "0" && |rest| > 0 ==> rest[0] != 'x' && rest[0] != 'X'
    ensures ParseInt(d + rest) == Finite(DigitsValue(d))
  {
    var s := d + rest;
    StartsWithDigit(s);
    LeadingDigitsOfNumeral(d, rest);
    assert !(|s| >= 2 && s[0] == '0' && (s[1] == 'x' || s[1] == 'X')) by {
      if |d| >= 2 {
        assert s[1] == d[1];
      } else if |rest| > 0 {
        assert s[1] == rest[0];
      }
    }
  }

  /** `parseFloat` of digits followed by anything that is neither a digit nor a point. */
  lemma ParseFloatOfWhole(d: string, rest: string)
    requires |d| > 0 && AllDigits(d) && (rest == [] || (!IsDigit(rest[0]) && rest[0] != '.'))
    ensures ParseFloat(d + rest) == Some(Decimal(DigitsValue(d), 0))
  {
    var s := d + rest;
    StartsWithDigit(s);
    LeadingDigitsOfNumeral(d, rest);
    assert s[|d|..] == rest;
    assert d + [] == d;
  }

  /** `parseFloat` of `w.f` followed by a non-digit: the digits of `w` and `f` over `10^|f|`. */
  lemma ParseFloatOfFraction(w: string, f: string, rest: string)
    requires |w| > 0 && AllDigits(w) && AllDigits(f) && (rest == [] || !IsDigit(rest[0]))
    ensures ParseFloat(w + (['.'] + (f + rest))) == Some(Decimal(DigitsValue(w + f), |f|))
  {
    var tail := ['.'] + (f + rest);
    var s := w + tail;
    StartsWithDigit(s);
    LeadingDigitsOfNumeral(w, tail);
    assert s[|w|..] == tail;
    assert tail[1..] == f + rest;
    LeadingDigitsOfNumeral(f, rest);
  }
}
