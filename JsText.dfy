/**
 * The JavaScript string built-ins the inventory code relies on:
 * `String.prototype.trim`, `parseFloat` and `Number.prototype.toString` on
 * non-negative integers (the shape of `Date.now().toString()`).
 */
module JsText {
  import opened JsNumber

  /** ECMAScript WhiteSpace and LineTerminator code points (what `trim` and `parseFloat` skip). */
  predicate IsWhiteSpace(c: char) {
    c == '\t' || c == '\n' || c == '\U{000B}' || c == '\U{000C}' || c == '\r' || c == ' '
    || c == '\U{00A0}' || c == '\U{1680}' || ('\U{2000}' <= c <= '\U{200A}')
    || c == '\U{2028}' || c == '\U{2029}' || c == '\U{202F}' || c == '\U{205F}'
    || c == '\U{3000}' || c == '\U{FEFF}'
  }

  predicate AllWhiteSpace(s: string) {
    forall i :: 0 <= i < |s| ==> IsWhiteSpace(s[i])
  }

  /** `s` with its leading white space removed. */
  function TrimStart(s: string): (r: string)
    ensures |r| <= |s| && r == s[|s| - |r|..]
    ensures AllWhiteSpace(s[..|s| - |r|])
    ensures r == [] || !IsWhiteSpace(r[0])
  {
    if s != [] && IsWhiteSpace(s[0]) then TrimStart(s[1..]) else s
  }

  /** `s` with its trailing white space removed. */
  function TrimEnd(s: string): (r: string)
    ensures |r| <= |s| && r == s[..|r|]
    ensures AllWhiteSpace(s[|r|..])
    ensures r == [] || !IsWhiteSpace(r[|r| - 1])
  {
    if s != [] && IsWhiteSpace(s[|s| - 1]) then TrimEnd(s[..|s| - 1]) else s
  }

  /**
   * JavaScript `s.trim()`: the slice of `s` that starts after the leading
   * white space and is followed only by white space, and that neither
   * starts nor ends with white space.
   */
  function Trim(s: string): (r: string)
    ensures var k := |s| - |TrimStart(s)|; k + |r| <= |s| && r == s[k..k + |r|] && AllWhiteSpace(s[k + |r|..])
    ensures r == [] || (!IsWhiteSpace(r[0]) && !IsWhiteSpace(r[|r| - 1]))
  {
    var t := TrimStart(s);
    var r := TrimEnd(t);
    SliceOfSuffix(s, t, r);
    r
  }

  /**
   * A prefix `r` of the suffix `t` of `s`, followed in `t` by white space
   * only, sits in `s` the same way; if neither `t` starts nor `r` ends with
   * white space, `r` has none at either end.
   */
  lemma SliceOfSuffix(s: string, t: string, r: string)
    requires |t| <= |s| && t == s[|s| - |t|..] && (t == [] || !IsWhiteSpace(t[0]))
    requires |r| <= |t| && r == t[..|r|] && AllWhiteSpace(t[|r|..]) && (r == [] || !IsWhiteSpace(r[|r| - 1]))
    ensures var k := |s| - |t|; k + |r| <= |s| && r == s[k..k + |r|] && AllWhiteSpace(s[k + |r|..])
    ensures r == [] || (!IsWhiteSpace(r[0]) && !IsWhiteSpace(r[|r| - 1]))
  {
    assert s[|s| - |t| + |r|..] == t[|r|..];
    assert r != [] ==> r[0] == t[0];
  }

  /** An all-blank string trims to "", and only an all-blank one (the `!s.trim()` test). */
  lemma {:induction false} TrimEmptyIff(s: string)
    ensures Trim(s) == [] <==> AllWhiteSpace(s)
  {
    var t := TrimStart(s);
    var k := |s| - |t|;
    if t == [] {
      assert s[..k] == s;
    } else {
      assert t[0] == s[k];
      assert |TrimEnd(t)| > 0 by {
        assert t[0..][0] == t[0];
      }
    }
  }

  /** Trimming twice changes nothing more than trimming once. */
  lemma TrimIdempotent(s: string)
    ensures Trim(Trim(s)) == Trim(s)
  {
    var r := Trim(s);
    assert TrimStart(r) == r;
    assert TrimEnd(r) == r;
  }

  /** A string without white space at either end is its own trim. */
  lemma TrimUntouched(s: string)
    requires s == [] || (!IsWhiteSpace(s[0]) && !IsWhiteSpace(s[|s| - 1]))
    ensures Trim(s) == s
  {
  }

  predicate IsDigit(c: char) {
    '0' <= c <= '9'
  }

  predicate AllDigits(s: string) {
    forall i :: 0 <= i < |s| ==> IsDigit(s[i])
  }

  function DigitValue(c: char): (d: nat)
    requires IsDigit(c)
    ensures d < 10
  {
    c as int - '0' as int
  }

  function DigitChar(d: nat): (c: char)
    requires d < 10
    ensures IsDigit(c) && DigitValue(c) == d
  {
    (48 + d) as char
  }

  /** The longest prefix of `s` made of decimal digits. */
  function DigitPrefix(s: string): (r: string)
    ensures |r| <= |s| && r == s[..|r|]
    ensures AllDigits(r)
    ensures |r| == |s| || !IsDigit(s[|r|])
  {
    if s != [] && IsDigit(s[0]) then [s[0]] + DigitPrefix(s[1..]) else []
  }

  /** The value of a digit string read in base ten. */
  function DecimalValue(s: string): nat
    requires AllDigits(s)
  {
    if s == [] then 0 else 10 * DecimalValue(s[..|s| - 1]) + DigitValue(s[|s| - 1])
  }

  /**
   * The unsigned part of `parseFloat`: digits, then optionally '.' and more
   * digits, read from the front of `u`; what follows is ignored. Without a
   * single digit the result is NaN.
   */
  function ScanDecimal(u: string): (r: Number)
    ensures r.Finite? ==> r.value >= 0.0
  {
    var whole := DigitPrefix(u);
    var rest := u[|whole|..];
    var fraction := if rest != [] && rest[0] == '.' then DigitPrefix(rest[1..]) else [];
    if whole == [] && fraction == [] then NaN
    else Finite(DecimalValue(whole) as real + FractionValue(fraction))
  }

  /** The value of the digits after the decimal point: `0.d1d2...dk`. */
  function FractionValue(digits: string): (r: real)
    requires AllDigits(digits)
    ensures 0.0 <= r < 1.0
  {
    if digits == [] then 0.0 else (DigitValue(digits[0]) as real + FractionValue(digits[1..])) / 10.0
  }

  /** JavaScript `parseFloat(s)`: leading white space, an optional sign, then the scan above. */
  function ParseFloat(s: string): (r: Number)
    ensures r.Finite? && r.value < 0.0 ==> TrimStart(s) != [] && TrimStart(s)[0] == '-'
  {
    var t := TrimStart(s);
    if t != [] && t[0] == '-' then Negate(ScanDecimal(t[1..]))
    else if t != [] && t[0] == '+' then ScanDecimal(t[1..])
    else ScanDecimal(t)
  }

  /** Text without a single digit does not parse: `parseFloat` gives NaN. */
  lemma ParseNoDigitIsNaN(s: string)
    requires forall i :: 0 <= i < |s| ==> !IsDigit(s[i])
    ensures ParseFloat(s) == NaN
  {
    var t := TrimStart(s);
    assert forall i :: 0 <= i < |t| ==> !IsDigit(t[i]) by {
      forall i | 0 <= i < |t| ensures !IsDigit(t[i]) {
        assert t[i] == s[|s| - |t| + i];
      }
    }
    if t != [] && (t[0] == '-' || t[0] == '+') {
      ScanWithoutDigits(t[1..]);
    } else {
      ScanWithoutDigits(t);
    }
  }

  lemma ScanWithoutDigits(u: string)
    requires forall i :: 0 <= i < |u| ==> !IsDigit(u[i])
    ensures ScanDecimal(u) == NaN
  {
    assert DigitPrefix(u) == [] by {
      if u != [] { assert !IsDigit(u[0]); }
    }
    if u != [] && u[0] == '.' {
      assert DigitPrefix(u[1..]) == [] by {
        if |u| > 1 { assert u[1..][0] == u[1]; }
      }
    }
  }

  /** JavaScript `n.toString()` for a non-negative integer: its decimal digits, no leading zero. */
  function NatToDecimal(n: nat): (r: string)
    ensures |r| > 0 && AllDigits(r)
    ensures (|r| > 1 ==> r[0] != '0')
  {
    if n < 10 then [DigitChar(n)] else NatToDecimal(n / 10) + [DigitChar(n % 10)]
  }

  lemma {:induction false} DecimalValueOfNatToDecimal(n: nat)
    ensures DecimalValue(NatToDecimal(n)) == n
  {
    if n >= 10 {
      var r := NatToDecimal(n);
      assert r[..|r| - 1] == NatToDecimal(n / 10);
      DecimalValueOfNatToDecimal(n / 10);
    }
  }

  /** A plain run of digits parses to its base-ten value. */
  lemma ParseDigitString(t: string)
    requires t != [] && AllDigits(t)
    ensures ParseFloat(t) == Finite(DecimalValue(t) as real)
  {
    TrimStartDigits(t);
    UnsignedParse(t);
    ScanDigitString(t);
  }

  lemma TrimStartDigits(t: string)
    requires t != [] && IsDigit(t[0])
    ensures TrimStart(t) == t
  {
  }

  /** Text that starts (after white space) with neither sign is scanned as it stands. */
  lemma UnsignedParse(t: string)
    requires TrimStart(t) == t && (t == [] || (t[0] != '-' && t[0] != '+'))
    ensures ParseFloat(t) == ScanDecimal(t)
  {
  }

  lemma ScanDigitString(t: string)
    requires t != [] && AllDigits(t)
    ensures ScanDecimal(t) == Finite(DecimalValue(t) as real)
  {
    DigitPrefixOfDigits(t);
    assert t[|t|..] == [];
  }

  lemma DigitPrefixOfDigits(t: string)
    requires AllDigits(t)
    ensures DigitPrefix(t) == t
  {
  }

  /** `parseFloat(n.toString())` gives back `n`. */
  lemma ParseNatToDecimal(n: nat)
    ensures ParseFloat(NatToDecimal(n)) == Finite(n as real)
  {
    ParseDigitString(NatToDecimal(n));
    DecimalValueOfNatToDecimal(n);
  }

  /** The literals the inventory code parses: the empty field, the restock default "1" and the threshold default "5". */
  lemma ParseLiterals()
    ensures ParseFloat("") == NaN
    ensures ParseFloat("1") == One
    ensures ParseFloat("5") == Finite(5.0)
  {
    ParseNoDigitIsNaN("");
    assert NatToDecimal(1) == "1";
    ParseNatToDecimal(1);
    assert NatToDecimal(5) == "5";
    ParseNatToDecimal(5);
  }
}
