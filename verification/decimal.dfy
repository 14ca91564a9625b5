/**
 * Decimal text: the number literals that `str::parse::<f32>` accepts over
 * the alphabet of digits and '.', the exact value they denote, and the
 * decimal rendering of a natural number used by `format!("{}", n)`.
 */
module Decimal {
  import opened Wrappers

  predicate IsDigit(c: char) { '0' <= c <= '9' }

  predicate AllDigits(s: string) { forall i :: 0 <= i < |s| ==> IsDigit(s[i]) }

  function DigitValue(c: char): (d: nat)
    requires IsDigit(c)
    ensures d < 10
  {
    c as int - '0' as int
  }

  function DigitChar(d: nat): (c: char)
    requires d < 10
    ensures IsDigit(c) && DigitValue(c) == d
  {
    ('0' as int + d) as char
  }

  function Pow10(n: nat): (r: nat)
    ensures r >= 1
  {
    if n == 0 then 1 else 10 * Pow10(n - 1)
  }

  /** The value of a string of decimal digits, most significant first ("" is 0). */
  function DigitsValue(s: string): nat
    requires AllDigits(s)
  {
    if s == [] then 0 else DigitsValue(s[..|s| - 1]) * 10 + DigitValue(s[|s| - 1])
  }

  /** A run of `n` digits denotes less than 10^n. */
  lemma {:induction false} DigitsValueBound(s: string)
    requires AllDigits(s)
    ensures DigitsValue(s) < Pow10(|s|)
  {
    if s != [] {
      DigitsValueBound(s[..|s| - 1]);
    }
  }

  /**
   * The decimal text of `n` as `format!("{}", n)` writes it: digits only,
   * no leading zero, and denoting `n` again.
   */
  function NatToDecimal(n: nat): (s: string)
    ensures |s| >= 1 && AllDigits(s)
    ensures s[0] == '0' ==> s == "0"
    ensures DigitsValue(s) == n
  {
    if n < 10 then [DigitChar(n)]
    else
      var s := NatToDecimal(n / 10) + [DigitChar(n % 10)];
      assert s[..|s| - 1] == NatToDecimal(n / 10);
      s
  }

  /** Position of the first '.', or `|s|` when there is none. */
  function DotIndex(s: string): (k: nat)
    ensures k <= |s|
    ensures k < |s| ==> s[k] == '.'
    ensures forall i :: 0 <= i < k ==> s[i] != '.'
  {
    if s == [] then 0
    else if s[0] == '.' then 0
    else 1 + DotIndex(s[1..])
  }

  /**
   * The grammar of a finite decimal float literal without sign or exponent:
   * Digit+ | Digit+ '.' Digit* | Digit* '.' Digit+.
   */
  ghost predicate IsFloatLiteral(s: string) {
    || (|s| > 0 && AllDigits(s))
    || (exists k :: 0 <= k < |s| && s[k] == '.' && AllDigits(s[..k]) && AllDigits(s[k + 1..]) && |s| >= 2)
  }

  /**
   * `str::parse::<f32>` on text made of digits and dots, with the exact
   * decimal value in place of its nearest `f32`.
   */
  function ParseFloat(s: string): (r: Option<real>)
    ensures r.Some? ==> 0.0 <= r.value
  {
    var k := DotIndex(s);
    if k == |s| then
      if |s| > 0 && AllDigits(s) then Some(DigitsValue(s) as real) else None
    else if |s| >= 2 && AllDigits(s[..k]) && AllDigits(s[k + 1..]) then
      Some(DigitsValue(s[..k]) as real + DigitsValue(s[k + 1..]) as real / Pow10(|s| - k - 1) as real)
    else
      None
  }

  /**
   * The digits before the dot are the integer part of the parsed value: the
   * fraction after the dot adds less than one.
   */
  lemma ParseFloatIntegerPart(s: string)
    requires ParseFloat(s).Some?
    ensures AllDigits(s[..DotIndex(s)])
    ensures var whole := DigitsValue(s[..DotIndex(s)]) as real;
            whole <= ParseFloat(s).value < whole + 1.0
  {
    var k := DotIndex(s);
    if k == |s| {
      assert s[..k] == s;
    } else {
      var frac := s[k + 1..];
      DigitsValueBound(frac);
      FractionBelowOne(DigitsValue(frac), Pow10(|frac|));
    }
  }

  lemma FractionBelowOne(d: nat, p: nat)
    requires d < p
    ensures 0.0 <= d as real / p as real < 1.0
  {
  }

  /** The parse succeeds exactly on the literals of the grammar. */
  lemma ParseFloatAccepts(s: string)
    ensures ParseFloat(s).Some? <==> IsFloatLiteral(s)
  {
    var k := DotIndex(s);
    if k < |s| {
      assert !AllDigits(s) by { assert !IsDigit(s[k]); }
      if IsFloatLiteral(s) {
        var k' :| 0 <= k' < |s| && s[k'] == '.' && AllDigits(s[..k']) && AllDigits(s[k' + 1..]) && |s| >= 2;
        forall i | 0 <= i < k' ensures s[i] != '.' {
          assert s[i] == s[..k'][i];
        }
      }
    }
  }

  /** The number of '.' characters in `s`. */
  function DotCount(s: string): nat {
    if s == [] then 0 else DotCount(s[1..]) + (if s[0] == '.' then 1 else 0)
  }

  predicate IsDigitOrDot(c: char) { IsDigit(c) || c == '.' }

  ghost predicate HasDigit(s: string) {
    exists i :: 0 <= i < |s| && IsDigit(s[i])
  }

  lemma {:induction false} DotCountZero(s: string)
    ensures DotCount(s) == 0 <==> forall i :: 0 <= i < |s| ==> s[i] != '.'
  {
    if s != [] {
      DotCountZero(s[1..]);
      assert forall i :: 1 <= i < |s| ==> s[i] == s[1..][i - 1];
    }
  }

  /**
   * Over the alphabet of digits and '.', a text is a float literal exactly
   * when it has a digit and at most one '.': "." and "1.2.3" are not.
   */
  lemma FloatLiteralByDots(s: string)
    requires forall i :: 0 <= i < |s| ==> IsDigitOrDot(s[i])
    ensures IsFloatLiteral(s) <==> DotCount(s) <= 1 && HasDigit(s)
  {
    ParseFloatAccepts(s);
    if DotIndex(s) == |s| {
      NoDotLiteral(s);
    } else {
      OneDotLiteral(s, DotIndex(s));
    }
  }

  lemma NoDotLiteral(s: string)
    requires forall i :: 0 <= i < |s| ==> IsDigitOrDot(s[i])
    requires DotIndex(s) == |s|
    ensures ParseFloat(s).Some? <==> DotCount(s) <= 1 && HasDigit(s)
  {
    DotCountZero(s);
    assert AllDigits(s);
    if |s| > 0 { assert IsDigit(s[0]); }
  }

  lemma OneDotLiteral(s: string, k: nat)
    requires forall i :: 0 <= i < |s| ==> IsDigitOrDot(s[i])
    requires k == DotIndex(s) < |s|
    ensures ParseFloat(s).Some? <==> DotCount(s) <= 1 && HasDigit(s)
  {
    assert ParseFloat(s).Some? <==> |s| >= 2 && AllDigits(s[..k]) && AllDigits(s[k + 1..]);
    assert AllDigits(s[..k]);
    DotsAroundFirst(s, k);
    assert AllDigits(s[k + 1..]) <==> DotCount(s) == 1 by {
      DotCountZero(s[k + 1..]);
    }
    if HasDigit(s) {
      var i :| 0 <= i < |s| && IsDigit(s[i]);
      assert i != k;
    }
    if |s| >= 2 && AllDigits(s[k + 1..]) {
      if k > 0 {
        assert IsDigit(s[0]);
      } else {
        assert IsDigit(s[k + 1..][0]);
      }
    }
  }

  lemma {:induction false} DotsAroundFirst(s: string, k: nat)
    requires k == DotIndex(s) < |s|
    ensures DotCount(s) == 1 + DotCount(s[k + 1..])
  {
    if s[0] != '.' {
      DotsAroundFirst(s[1..], k - 1);
      assert s[1..][k..] == s[k + 1..];
    }
  }

  /** A lone dot has no digit, so it is rejected. */
  lemma LoneDotRejected()
    ensures ParseFloat(".") == None
  {
    FloatLiteralByDots(".");
    assert !HasDigit(".");
  }

  /** A text with two dots is rejected. */
  lemma TwoDotsRejected()
    ensures ParseFloat("1.2.3") == None
  {
    var s := "1.2.3";
    assert DotIndex(s) == 1 by { assert s[1..] == ".2.3"; }
    assert !AllDigits(s[2..]) by { assert s[2..][1] == '.'; }
  }

  /** "42.5" denotes exactly 42.5. */
  lemma FractionParsed()
    ensures ParseFloat("42.5") == Some(42.5)
  {
    var s := "42.5";
    assert DotIndex(s) == 2 by {
      assert s[1..] == "2.5" && s[1..][1..] == ".5";
    }
    assert s[..2] == "42" && s[3..] == "5";
    assert DigitsValue("42") == 42 by { assert "42"[..1] == "4"; }
  }
}
