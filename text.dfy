/**
 * The JavaScript string operations the dashboard relies on: `trim`,
 * `toLowerCase`, `includes`, and the two number conversions behind the renewal
 * prompt (`isNaN`, which converts with `Number`, and `parseInt`).
 */
module Text {

  import opened Wrappers

  /**
   * The white space and line terminators that `trim` and `Number` skip: tab,
   * vertical tab, form feed, the byte order mark, every space separator, and
   * the four line terminators.
   */
  predicate IsSpace(c: char) {
    c == '\t' || c == '\U{000B}' || c == '\U{000C}' || c == '\U{FEFF}' || IsSpaceSeparator(c) ||
    c == '\n' || c == '\r' || c == '\U{2028}' || c == '\U{2029}'
  }

  /** The characters of the Unicode category Zs (Space_Separator). */
  predicate IsSpaceSeparator(c: char) {
    c == ' ' || c == '\U{00A0}' || c == '\U{1680}' || '\U{2000}' <= c <= '\U{200A}' ||
    c == '\U{202F}' || c == '\U{205F}' || c == '\U{3000}'
  }

  /** Removes the leading white space, and only that. */
  function TrimStart(s: string): (r: string)
    ensures |r| <= |s| && r == s[|s| - |r|..]
    ensures r == [] || !IsSpace(r[0])
    ensures forall i :: 0 <= i < |s| - |r| ==> IsSpace(s[i])
  {
    if s != [] && IsSpace(s[0]) then TrimStart(s[1..]) else s
  }

  /** Removes the trailing white space, and only that. */
  function TrimEnd(s: string): (r: string)
    ensures |r| <= |s| && r == s[..|r|]
    ensures r == [] || !IsSpace(r[|r| - 1])
    ensures forall i :: |r| <= i < |s| ==> IsSpace(s[i])
  {
    if s != [] && IsSpace(s[|s| - 1]) then TrimEnd(s[..|s| - 1]) else s
  }

  /** `s.trim()`: the longest middle part of s that neither starts nor ends with white space. */
  function Trim(s: string): (r: string)
    ensures |r| <= |s|
    ensures r == [] || (!IsSpace(r[0]) && !IsSpace(r[|r| - 1]))
    ensures var a := |s| - |TrimStart(s)|;
            a + |r| <= |s| && r == s[a..a + |r|] &&
            (forall i :: 0 <= i < a ==> IsSpace(s[i])) &&
            (forall i :: a + |r| <= i < |s| ==> IsSpace(s[i]))
  {
    TrimEnd(TrimStart(s))
  }

  /** A string trims to nothing exactly when every character of it is white space. */
  lemma {:induction false} TrimEmptyIff(s: string)
    ensures Trim(s) == [] <==> forall i :: 0 <= i < |s| ==> IsSpace(s[i])
  {
    var r, a := Trim(s), |s| - |TrimStart(s)|;
    if r != [] {
      assert r[0] == s[a];
    }
  }

  function LowerChar(c: char): (r: char)
    ensures !('A' <= r <= 'Z')
    ensures 'A' <= c <= 'Z' || r == c
  {
    if 'A' <= c <= 'Z' then (c as int - 'A' as int + 'a' as int) as char else c
  }

  /** `s.toLowerCase()` on the ASCII letters. */
  function Lower(s: string): (r: string)
    ensures |r| == |s|
    ensures forall i :: 0 <= i < |r| ==> !('A' <= r[i] <= 'Z')
    ensures forall i :: 0 <= i < |r| ==> r[i] == LowerChar(s[i])
  {
    seq(|s|, i requires 0 <= i < |s| => LowerChar(s[i]))
  }

  /** Lowering twice is lowering once. */
  lemma {:induction false} LowerIdempotent(s: string)
    ensures Lower(Lower(s)) == Lower(s)
  {
    var l := Lower(s);
    assert forall i :: 0 <= i < |l| ==> LowerChar(l[i]) == l[i];
  }

  predicate StartsWith(s: string, t: string) {
    |t| <= |s| && s[..|t|] == t
  }

  /** `s.includes(t)`, scanning s from the left. */
  predicate Contains(s: string, t: string): (b: bool)
    ensures b ==> |t| <= |s|
    ensures t == [] ==> b
    decreases |s|
  {
    StartsWith(s, t) || (s != [] && Contains(s[1..], t))
  }

  /** t occurs in s starting at position i. */
  predicate OccursAt(s: string, t: string, i: int) {
    0 <= i && i + |t| <= |s| && s[i..i + |t|] == t
  }

  /** `includes` holds exactly when t occurs at some position of s. */
  lemma {:induction false} ContainsIff(s: string, t: string)
    ensures Contains(s, t) <==> exists i :: OccursAt(s, t, i)
    decreases |s|
  {
    if StartsWith(s, t) {
      assert OccursAt(s, t, 0);
    } else if s != [] {
      ContainsIff(s[1..], t);
      forall i | OccursAt(s, t, i) ensures i == 0 || OccursAt(s[1..], t, i - 1) {
        if i > 0 {
          assert s[1..][i - 1..i - 1 + |t|] == s[i..i + |t|];
        }
      }
      if Contains(s[1..], t) {
        var i :| OccursAt(s[1..], t, i);
        assert s[1..][i..i + |t|] == s[i + 1..i + 1 + |t|];
        assert OccursAt(s, t, i + 1);
      }
    }
  }

  // ---------------------------------------------------------------------------
  // Number conversions

  predicate IsDigit(c: char) { '0' <= c <= '9' }

  /** The value of a digit in bases up to sixteen, letters in either case; 16 for a non-digit. */
  function DigitValue(c: char): (v: nat)
    ensures v <= 16
    ensures v < 10 <==> IsDigit(c)
  {
    if '0' <= c <= '9' then c as int - '0' as int
    else if 'a' <= c <= 'f' then c as int - 'a' as int + 10
    else if 'A' <= c <= 'F' then c as int - 'A' as int + 10
    else 16
  }

  predicate AllDigitsIn(s: string, base: nat) {
    forall i :: 0 <= i < |s| ==> DigitValue(s[i]) < base
  }

  /** The length of the longest prefix of s made of digits of the base. */
  function DigitRun(s: string, base: nat): (n: nat)
    ensures n <= |s| && AllDigitsIn(s[..n], base)
    ensures n == |s| || DigitValue(s[n]) >= base
  {
    if s != [] && DigitValue(s[0]) < base then
      var n := 1 + DigitRun(s[1..], base);
      assert s[..n] == [s[0]] + s[1..][..n - 1];
      n
    else 0
  }

  /** The number a string of digits denotes in the base. */
  function DigitsValue(s: string, base: nat): (v: nat)
    requires AllDigitsIn(s, base)
  {
    if s == [] then 0 else DigitsValue(s[..|s| - 1], base) * base + DigitValue(s[|s| - 1])
  }

  /** An exponent part: `e` or `E`, an optional sign, one or more decimal digits. */
  predicate IsExponentPart(s: string) {
    |s| >= 2 && (s[0] == 'e' || s[0] == 'E') &&
    var u := if s[1] == '+' || s[1] == '-' then s[2..] else s[1..];
    u != [] && AllDigitsIn(u, 10)
  }

  /** What may follow the digits before the point: nothing, an exponent, or a point, digits and an exponent. */
  predicate IsFractionAndExponent(s: string, needFraction: bool) {
    if s == [] then !needFraction
    else if s[0] == '.' then
      var m := DigitRun(s[1..], 10);
      var rest := s[1..][m..];
      (m > 0 || !needFraction) && (rest == [] || IsExponentPart(rest))
    else !needFraction && IsExponentPart(s)
  }

  /** An unsigned decimal literal as `Number` reads it: `Infinity`, `12`, `12.`, `12.5`, `.5`, with an optional exponent. */
  predicate IsUnsignedDecimal(s: string) {
    s == "Infinity" ||
    var n := DigitRun(s, 10);
    IsFractionAndExponent(s[n..], n == 0)
  }

  /** `0x1F`, `0o17`, `0b101`: a prefixed literal in base sixteen, eight or two. */
  predicate IsPrefixedInteger(s: string) {
    |s| >= 3 && s[0] == '0' &&
    ((s[1] in "xX" && AllDigitsIn(s[2..], 16)) ||
     (s[1] in "oO" && AllDigitsIn(s[2..], 8)) ||
     (s[1] in "bB" && AllDigitsIn(s[2..], 2)))
  }

  /** A character a numeric literal can start with. */
  predicate IsNumberStart(c: char) {
    IsDigit(c) || c == '.' || c == '+' || c == '-' || c == 'I'
  }

  /** `!isNaN(s)`: `Number(s)` is a number, which holds for blank strings (they convert to 0). */
  predicate IsNumeric(s: string): (b: bool)
    ensures Trim(s) == [] ==> b
    ensures Trim(s) != [] && !IsNumberStart(Trim(s)[0]) ==> !b
  {
    var t := Trim(s);
    t == [] || IsPrefixedInteger(t) || IsUnsignedDecimal(t) ||
    ((t[0] == '+' || t[0] == '-') && IsUnsignedDecimal(t[1..]))
  }

  /**
   * `parseInt(s)` with no radix: skips leading white space, reads an optional
   * sign, then the magnitude; None (NaN) when there are no digits.
   */
  function ParseInt(s: string): (r: Option<int>)
    ensures var t := TrimStart(s);
            r.Some? ==> t != [] && (IsDigit(t[0]) || ((t[0] == '+' || t[0] == '-') && |t| >= 2 && IsDigit(t[1])))
  {
    ParseSigned(TrimStart(s))
  }

  /** An optional sign and a magnitude; a minus sign negates the magnitude. */
  function ParseSigned(t: string): (r: Option<int>)
    ensures r.Some? ==> t != [] && (IsDigit(t[0]) || ((t[0] == '+' || t[0] == '-') && |t| >= 2 && IsDigit(t[1])))
  {
    var negative := t != [] && t[0] == '-';
    var m := ParseMagnitude(if t != [] && (t[0] == '+' || t[0] == '-') then t[1..] else t);
    if m.None? then None else Some(if negative then -(m.value as int) else m.value as int)
  }

  /**
   * The longest run of digits at the start of u, hexadecimal after a `0x` or
   * `0X` prefix and decimal otherwise; None when the run is empty.
   */
  function ParseMagnitude(u: string): (r: Option<nat>)
    ensures r.Some? ==> u != [] && IsDigit(u[0])
  {
    var hex := |u| >= 2 && u[0] == '0' && (u[1] == 'x' || u[1] == 'X');
    var base := if hex then 16 else 10;
    var digits := if hex then u[2..] else u;
    var n := DigitRun(digits, base);
    if n == 0 then None else Some(DigitsValue(digits[..n], base))
  }

  /** Leading white space is exactly what `TrimStart` removes. */
  lemma {:induction false} TrimStartPadded(ws: string, t: string)
    requires forall i :: 0 <= i < |ws| ==> IsSpace(ws[i])
    requires t == [] || !IsSpace(t[0])
    ensures TrimStart(ws + t) == t
  {
    var s := ws + t;
    assert forall i :: 0 <= i < |ws| ==> s[i] == ws[i];
    assert s[|ws|..] == t;
  }

  /** The digit run of a string of decimal digits followed by a non-digit (or nothing) is those digits. */
  lemma {:induction false} DigitRunOfDigits(ds: string, rest: string)
    requires forall i :: 0 <= i < |ds| ==> IsDigit(ds[i])
    requires rest == [] || !IsDigit(rest[0])
    ensures DigitRun(ds + rest, 10) == |ds|
    decreases |ds|
  {
    if ds != [] {
      assert (ds + rest)[1..] == ds[1..] + rest;
      DigitRunOfDigits(ds[1..], rest);
    } else {
      assert ds + rest == rest;
    }
  }

  /**
   * `parseInt` skips leading white space, reads an optional sign, and returns
   * the magnitude that follows, negated after a minus.
   */
  lemma {:induction false} ParseIntReadsMagnitude(ws: string, sign: string, u: string, v: nat)
    requires forall i :: 0 <= i < |ws| ==> IsSpace(ws[i])
    requires sign == "" || sign == "+" || sign == "-"
    requires u != [] && IsDigit(u[0])
    requires ParseMagnitude(u) == Some(v)
    ensures ParseInt(ws + (sign + u)) == Some(if sign == "-" then -(v as int) else v as int)
  {
    assert ParseSigned(sign + u) == Some(if sign == "-" then -(v as int) else v as int) by {
      SignThenMagnitude(sign, u, v);
    }
    assert (sign + u)[0] == if sign == "" then u[0] else sign[0];
    ParseIntAfterBlanks(ws, sign + u);
  }

  /** Leading white space does not change what `parseInt` reads. */
  lemma {:induction false} ParseIntAfterBlanks(ws: string, t: string)
    requires forall i :: 0 <= i < |ws| ==> IsSpace(ws[i])
    requires t == [] || !IsSpace(t[0])
    ensures ParseInt(ws + t) == ParseSigned(t)
  {
    TrimStartPadded(ws, t);
  }

  /** After an optional sign, the magnitude is read, and negated after a minus. */
  lemma {:induction false} SignThenMagnitude(sign: string, u: string, v: nat)
    requires sign == "" || sign == "+" || sign == "-"
    requires u != [] && IsDigit(u[0])
    requires ParseMagnitude(u) == Some(v)
    ensures ParseSigned(sign + u) == Some(if sign == "-" then -(v as int) else v as int)
  {
    if sign == "" {
      assert sign + u == u;
    } else {
      assert (sign + u)[1..] == u;
    }
  }

  /** Decimal digits followed by a non-digit, and not a `0x` prefix, read as their decimal value. */
  lemma {:induction false} MagnitudeOfDigits(ds: string, rest: string)
    requires ds != [] && forall i :: 0 <= i < |ds| ==> IsDigit(ds[i])
    requires rest == [] || !IsDigit(rest[0])
    requires !(ds == "0" && rest != [] && (rest[0] == 'x' || rest[0] == 'X'))
    ensures ParseMagnitude(ds + rest) == Some(DigitsValue(ds, 10))
  {
    var u := ds + rest;
    assert !(|u| >= 2 && u[0] == '0' && (u[1] == 'x' || u[1] == 'X')) by {
      if |u| >= 2 && u[0] == '0' {
        if |ds| >= 2 {
          assert u[1] == ds[1];
        } else {
          assert ds == "0" && u[1] == rest[0];
        }
      }
    }
    DigitRunOfDigits(ds, rest);
    assert u[..|ds|] == ds;
  }

  /** A string that neither starts nor ends with white space trims to itself. */
  lemma {:induction false} TrimUnpadded(s: string)
    requires s == [] || (!IsSpace(s[0]) && !IsSpace(s[|s| - 1]))
    ensures Trim(s) == s
  {
    assert "" + s == s;
    TrimStartPadded("", s);
  }

  /** A non-empty string of decimal digits is numeric, and `parseInt` reads its value. */
  lemma {:induction false} DigitStringIsNumber(s: string)
    requires s != [] && forall i :: 0 <= i < |s| ==> IsDigit(s[i])
    ensures IsNumeric(s)
    ensures ParseInt(s) == Some(DigitsValue(s, 10))
  {
    assert IsUnsignedDecimal(s) by {
      assert s + "" == s;
      DigitRunOfDigits(s, "");
      assert s[|s|..] == [];
    }
    assert IsNumeric(s) by {
      TrimUnpadded(s);
    }
    MagnitudeOfDigits(s, "");
    assert s + "" == s && "" + ("" + s) == s;
    ParseIntReadsMagnitude("", "", s, DigitsValue(s, 10));
  }

  /** A non-empty answer of white space only is numeric (it converts to 0), and `parseInt` finds no digits in it. */
  lemma {:induction false} BlankStringIsNaNForParseInt(s: string)
    requires s != [] && forall i :: 0 <= i < |s| ==> IsSpace(s[i])
    ensures IsNumeric(s)
    ensures ParseInt(s) == None
  {
    TrimEmptyIff(s);
    TrimStartPadded(s, "");
    assert s + "" == s;
  }

}
