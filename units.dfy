/**
 * Decimal amounts and base units, as `ethers.parseUnits` and `ethers.formatUnits`
 * convert between them. USDFC has 18 decimals, so "2.5" is 2.5 * 10^18 base units.
 *
 * `ParseUnits` accepts an optional '-', then digits, an optional '.', and digits,
 * with at least one digit in all; fractional digits beyond `decimals` must be
 * zeros. `FormatUnits` writes the whole part without leading zeros, a '.', and the
 * fractional part without trailing zeros (but at least one digit).
 */
module Units {
  import opened Wrappers

  function Pow10(k: nat): (r: nat)
    ensures r >= 1
  {
    if k == 0 then 1 else 10 * Pow10(k - 1)
  }

  predicate IsDigit(c: char) { '0' <= c <= '9' }

  predicate AllDigits(s: string) { forall i :: 0 <= i < |s| ==> IsDigit(s[i]) }

  function DigitValue(c: char): nat
    requires IsDigit(c)
  {
    c as int - '0' as int
  }

  function DigitChar(d: nat): (c: char)
    requires d < 10
    ensures IsDigit(c) && DigitValue(c) == d
  {
    (d + '0' as int) as char
  }

  /** The number a string of decimal digits denotes (most significant first). */
  function DigitsValue(s: string): nat
    requires AllDigits(s)
  {
    if s == [] then 0 else DigitsValue(s[..|s| - 1]) * 10 + DigitValue(s[|s| - 1])
  }

  /** The shortest decimal numeral of `n` ("0" for zero). */
  function NatToDigits(n: nat): (s: string)
    ensures |s| >= 1 && AllDigits(s)
  {
    if n < 10 then [DigitChar(n)] else NatToDigits(n / 10) + [DigitChar(n % 10)]
  }

  function Zeros(k: nat): (s: string)
    ensures |s| == k && AllDigits(s)
    ensures forall i :: 0 <= i < k ==> s[i] == '0'
  {
    if k == 0 then [] else Zeros(k - 1) + ['0']
  }

  /** Drops trailing '0's but keeps at least one character. */
  function TrimTrailingZeros(s: string): (t: string)
    requires |s| >= 1
    ensures 1 <= |t| <= |s| && t == s[..|t|]
    ensures |t| > 1 ==> t[|t| - 1] != '0'
    ensures forall i :: |t| <= i < |s| ==> s[i] == '0'
  {
    if |s| > 1 && s[|s| - 1] == '0' then TrimTrailingZeros(s[..|s| - 1]) else s
  }

  /** The index of the first '.', or |s| when there is none. */
  function PointIndex(s: string): (i: nat)
    ensures i <= |s|
    ensures i < |s| ==> s[i] == '.'
    ensures forall k :: 0 <= k < i ==> s[k] != '.'
  {
    if s == [] then 0
    else if s[0] == '.' then 0
    else 1 + PointIndex(s[1..])
  }

  /**
   * `ethers.parseUnits(text, decimals)`: the amount in base units, or None where
   * ethers throws. It accepts exactly an optional '-' followed by text that
   * `WellFormedAmount` describes, and only a leading '-' makes the amount negative.
   */
  function ParseUnits(text: string, decimals: nat): (r: Option<int>)
    ensures r.Some? && r.value < 0 ==> |text| > 0 && text[0] == '-'
    ensures r.Some? && |text| > 0 && text[0] == '-' ==> r.value <= 0
  {
    if |text| > 0 && text[0] == '-' then
      var magnitude :- ParseMagnitude(text[1..], decimals);
      var negated := -(magnitude as int);
      Some(negated)
    else
      ParseMagnitude(text, decimals)
  }

  /** The text after an optional leading '-'. */
  function Unsigned(text: string): string
  {
    if |text| > 0 && text[0] == '-' then text[1..] else text
  }

  /**
   * What ethers accepts after the sign: only ASCII digits and '.', at most one
   * '.', at least one digit, and any fractional digit beyond the `decimals`-th
   * is a '0'.
   */
  predicate WellFormedAmount(s: string, decimals: nat)
  {
    (forall i :: 0 <= i < |s| ==> IsDigit(s[i]) || s[i] == '.') &&
    (forall i, j :: 0 <= i < j < |s| && s[i] == '.' ==> s[j] != '.') &&
    (exists i :: 0 <= i < |s| && IsDigit(s[i])) &&
    (forall i, k :: 0 <= i < k < |s| && s[i] == '.' && k > i + decimals ==> s[k] == '0')
  }

  /** The unsigned part of `ParseUnits`: digits, an optional '.', digits. */
  function ParseMagnitude(text: string, decimals: nat): (r: Option<nat>)
  {
    var point := PointIndex(text);
    DigitGroups(text[..point], if point < |text| then text[point + 1..] else [], decimals)
  }

  /** The amount that the digits before and after the '.' denote. */
  function DigitGroups(whole: string, fraction: string, decimals: nat): (r: Option<nat>)
  {
    if !AllDigits(whole) || !AllDigits(fraction) || |whole| + |fraction| == 0 then None
    else if |fraction| > decimals && !OnlyZeros(fraction[decimals..]) then None
    else
      var kept := if |fraction| <= decimals then |fraction| else decimals;
      Some(BaseUnits(DigitsValue(whole), ScaledFraction(fraction[..kept], decimals), decimals))
  }

  predicate OnlyZeros(s: string)
  {
    s == [] || (s[0] == '0' && OnlyZeros(s[1..]))
  }

  /** `whole` tokens and `low` base units, in base units. */
  function BaseUnits(whole: nat, low: nat, decimals: nat): nat
  {
    whole * Pow10(decimals) + low
  }

  /** The base units that the fractional digits `f` stand for. */
  function ScaledFraction(f: string, decimals: nat): nat
    requires AllDigits(f) && |f| <= decimals
  {
    DigitsValue(f) * Pow10(decimals - |f|)
  }

  /**
   * `ethers.formatUnits(value, decimals)` for decimals >= 1. Parsing the text
   * back with the same decimals gives the same number of base units.
   */
  function FormatUnits(value: int, decimals: nat): (s: string)
    requires decimals >= 1
    ensures ParseUnits(s, decimals) == Some(value)
  {
    var magnitude := Abs(value);
    var digits := UnsignedUnits(magnitude, decimals);
    FormattedMagnitude(magnitude, decimals);
    SignedParse(digits, decimals, magnitude);
    if value < 0 then "-" + digits else digits
  }

  /** "whole.fraction" for an amount of base units. */
  function UnsignedUnits(units: nat, decimals: nat): (s: string)
    requires decimals >= 1
    ensures |s| > 0 && IsDigit(s[0])
  {
    var whole := NatToDigits(WholeUnits(units, decimals));
    whole + "." + FractionDigits(FractionUnits(units, decimals), decimals)
  }

  function Abs(x: int): nat { if x < 0 then -x else x }

  /** The whole tokens in `units` base units, and the base units left over. */
  function WholeUnits(units: nat, decimals: nat): nat
  {
    var scale := Pow10(decimals);
    DivisionBounds(units, scale);
    units / scale
  }

  function FractionUnits(units: nat, decimals: nat): (low: nat)
    ensures low < Pow10(decimals)
  {
    var scale := Pow10(decimals);
    DivisionBounds(units, scale);
    units % scale
  }

  /** The whole tokens and the leftover base units make up the amount again. */
  lemma SplitUnits(units: nat, decimals: nat)
    ensures BaseUnits(WholeUnits(units, decimals), FractionUnits(units, decimals), decimals) == units
  {
    DivisionBounds(units, Pow10(decimals));
  }

  lemma Regroup(a: nat, b: nat, c: nat)
    ensures a * b * c == a * (c * b)
  {
  }

  lemma MulAssoc(a: nat, b: nat, c: nat)
    ensures a * b * c == a * (b * c)
  {
  }

  /** Euclidean division of a natural number, stated once so the solver need not rediscover it. */
  lemma DivisionBounds(a: nat, b: nat)
    requires b >= 1
    ensures 0 <= a / b && a % b < b && a / b * b + a % b == a
  {
  }

  /** The `decimals` digits of a fractional part, without trailing zeros (but at least one digit). */
  function FractionDigits(low: nat, decimals: nat): string
    requires decimals >= 1
  {
    TrimTrailingZeros(PadLeft(NatToDigits(low), decimals))
  }

  /** Left-pads a numeral with '0's to `width` characters. */
  function PadLeft(s: string, width: nat): (t: string)
    requires AllDigits(s)
    ensures AllDigits(t) && |t| == if |s| < width then width else |s|
    ensures t == Zeros(|t| - |s|) + s
  {
    if |s| < width then Zeros(width - |s|) + s else Zeros(0) + s
  }

  // ---------------------------------------------------------------------------
  // Lemmas

  lemma {:induction false} DigitsOfNat(n: nat)
    ensures DigitsValue(NatToDigits(n)) == n
    decreases n
  {
    if n >= 10 {
      var s := NatToDigits(n);
      assert s[..|s| - 1] == NatToDigits(n / 10);
      DigitsOfNat(n / 10);
    }
  }

  lemma {:induction false} LeadingZeros(k: nat, s: string)
    requires AllDigits(s)
    ensures DigitsValue(Zeros(k) + s) == DigitsValue(s)
    decreases |s|
  {
    if s == [] {
      assert Zeros(k) + s == Zeros(k);
      AllZerosValue(k);
    } else {
      var t := Zeros(k) + s;
      assert t[..|t| - 1] == Zeros(k) + s[..|s| - 1];
      LeadingZeros(k, s[..|s| - 1]);
    }
  }

  lemma {:induction false} AllZerosValue(k: nat)
    ensures DigitsValue(Zeros(k)) == 0
  {
    if k > 0 {
      assert Zeros(k)[..k - 1] == Zeros(k - 1);
      AllZerosValue(k - 1);
    }
  }

  lemma {:induction false} TrailingZeros(s: string, k: nat)
    requires AllDigits(s)
    ensures DigitsValue(s + Zeros(k)) == DigitsValue(s) * Pow10(k)
    decreases k
  {
    if k > 0 {
      var t := s + Zeros(k);
      assert t[..|t| - 1] == s + Zeros(k - 1);
      TrailingZeros(s, k - 1);
      var v, p := DigitsValue(s), Pow10(k - 1);
      assert t[|t| - 1] == '0';
      calc {
        DigitsValue(t);
        DigitsValue(s + Zeros(k - 1)) * 10;
        v * p * 10;
        { Regroup(v, p, 10); }
        v * (10 * p);
      }
    } else {
      assert s + Zeros(0) == s;
    }
  }

  /** A numeral followed by '.' and more text splits back at that '.'. */
  lemma {:induction false} PointAfterDigits(a: string, b: string)
    requires AllDigits(a)
    ensures PointIndex(a + "." + b) == |a|
    decreases |a|
  {
    if a != [] {
      assert (a + "." + b)[1..] == a[1..] + "." + b;
      PointAfterDigits(a[1..], b);
    }
  }

  /** Trimming only removes '0's: putting them back gives the original digits. */
  lemma {:induction false} TrimmedZeros(s: string)
    requires |s| >= 1
    ensures s == TrimTrailingZeros(s) + Zeros(|s| - |TrimTrailingZeros(s)|)
    decreases |s|
  {
    if |s| > 1 && s[|s| - 1] == '0' {
      var p := s[..|s| - 1];
      TrimmedZeros(p);
      assert s == p + ['0'];
    } else {
      assert s == s + Zeros(0);
    }
  }

  /** The fractional digits that `FormatUnits` writes stand for exactly the leftover base units. */
  lemma FractionValue(low: nat, decimals: nat)
    requires decimals >= 1 && low < Pow10(decimals)
    ensures var f := FractionDigits(low, decimals);
      AllDigits(f) && |f| <= decimals && ScaledFraction(f, decimals) == low
  {
    PaddedValue(low, decimals);
    TrimmedValue(PadLeft(NatToDigits(low), decimals), decimals);
  }

  /** Trimming the trailing zeros of `decimals` fractional digits keeps their scaled value. */
  lemma TrimmedValue(padded: string, decimals: nat)
    requires AllDigits(padded) && |padded| == decimals >= 1
    ensures var f := TrimTrailingZeros(padded);
      AllDigits(f) && |f| <= decimals && ScaledFraction(f, decimals) == DigitsValue(padded)
  {
    var f := TrimTrailingZeros(padded);
    var dropped := decimals - |f|;
    TrimmedZeros(padded);
    assert AllDigits(f) by {
      forall i | 0 <= i < |f| ensures IsDigit(f[i]) {
        assert f[i] == padded[i];
      }
    }
    TrailingZeros(f, dropped);
  }


  /** The fractional part padded to `decimals` digits still denotes `low`. */
  lemma PaddedValue(low: nat, decimals: nat)
    requires decimals >= 1 && low < Pow10(decimals)
    ensures |PadLeft(NatToDigits(low), decimals)| == decimals
    ensures DigitsValue(PadLeft(NatToDigits(low), decimals)) == low
  {
    var digits := NatToDigits(low);
    LowFits(low, decimals);
    LeadingZeros(decimals - |digits|, digits);
    DigitsOfNat(low);
  }


  /** Parsing "whole.fraction" as `FormatUnits` writes it recovers the base units. */
  lemma MagnitudeRoundTrip(whole: nat, low: nat, decimals: nat)
    requires decimals >= 1 && low < Pow10(decimals)
    ensures ParseMagnitude(NatToDigits(whole) + "." + FractionDigits(low, decimals), decimals)
            == Some(BaseUnits(whole, low, decimals))
  {
    var w := NatToDigits(whole);
    var f := FractionDigits(low, decimals);
    FractionValue(low, decimals);
    PointSplit(w, f, decimals);
    DigitsOfNat(whole);
  }

  /** "whole.fraction" with at most `decimals` fractional digits parses digit group by digit group. */
  lemma PointSplit(w: string, f: string, decimals: nat)
    requires |w| >= 1 && AllDigits(w) && AllDigits(f) && |f| <= decimals
    ensures ParseMagnitude(w + "." + f, decimals)
            == Some(BaseUnits(DigitsValue(w), ScaledFraction(f, decimals), decimals))
  {
    var text := w + "." + f;
    PointAfterDigits(w, f);
    assert text[..|w|] == w;
    assert text[|w| + 1..] == f;
    assert ParseMagnitude(text, decimals) == DigitGroups(w, f, decimals);
    assert f[..|f|] == f;
  }

  /** The unsigned text `FormatUnits` writes parses back to the amount. */
  lemma FormattedMagnitude(units: nat, decimals: nat)
    requires decimals >= 1
    ensures ParseMagnitude(UnsignedUnits(units, decimals), decimals) == Some(units)
  {
    MagnitudeRoundTrip(WholeUnits(units, decimals), FractionUnits(units, decimals), decimals);
    SplitUnits(units, decimals);
  }

  /** A leading '-' negates what the digits after it parse to. */
  lemma SignedParse(unsigned: string, decimals: nat, magnitude: nat)
    requires |unsigned| > 0 && unsigned[0] != '-'
    requires ParseMagnitude(unsigned, decimals) == Some(magnitude)
    ensures ParseUnits(unsigned, decimals) == Some(magnitude)
    ensures ParseUnits("-" + unsigned, decimals) == Some(-(magnitude as int))
  {
    assert ("-" + unsigned)[1..] == unsigned;
  }

  /** `ParseUnits` accepts exactly an optional '-' followed by text `WellFormedAmount` describes. */
  lemma ParseUnitsSyntax(text: string, decimals: nat)
    ensures ParseUnits(text, decimals).Some? <==> WellFormedAmount(Unsigned(text), decimals)
  {
    MagnitudeSyntax(Unsigned(text), decimals);
  }

  /** `ParseMagnitude` succeeds exactly on the text `WellFormedAmount` describes. */
  lemma MagnitudeSyntax(s: string, decimals: nat)
    ensures ParseMagnitude(s, decimals).Some? <==> WellFormedAmount(s, decimals)
  {
    var p := PointIndex(s);
    var fraction := if p < |s| then s[p + 1..] else [];
    GroupsShape(s, p, fraction);
    if AllDigits(s[..p]) && AllDigits(fraction) {
      GroupsDigit(s, p, fraction);
      GroupsTail(s, p, fraction, decimals);
    }
  }

  /** Only digits and one '.' at most, exactly when both digit groups are digits. */
  lemma GroupsShape(s: string, p: nat, fraction: string)
    requires p == PointIndex(s) && fraction == if p < |s| then s[p + 1..] else []
    ensures AllDigits(s[..p]) && AllDigits(fraction) <==>
      (forall i :: 0 <= i < |s| ==> IsDigit(s[i]) || s[i] == '.') &&
      (forall i, j :: 0 <= i < j < |s| && s[i] == '.' ==> s[j] != '.')
  {
    var whole := s[..p];
    if AllDigits(whole) && AllDigits(fraction) {
      forall k | 0 <= k < |s| && k != p ensures IsDigit(s[k]) {
        if k < p { assert whole[k] == s[k]; } else { assert fraction[k - p - 1] == s[k]; }
      }
    }
    if (forall i :: 0 <= i < |s| ==> IsDigit(s[i]) || s[i] == '.') &&
       (forall i, j :: 0 <= i < j < |s| && s[i] == '.' ==> s[j] != '.') {
      forall k | 0 <= k < |whole| ensures IsDigit(whole[k]) {
        assert whole[k] == s[k];
      }
      forall k | 0 <= k < |fraction| ensures IsDigit(fraction[k]) {
        assert fraction[k] == s[p + 1 + k];
      }
    }
  }

  /** With both groups digits, some character is a digit exactly when the groups are not both empty. */
  lemma GroupsDigit(s: string, p: nat, fraction: string)
    requires p == PointIndex(s) && fraction == if p < |s| then s[p + 1..] else []
    requires AllDigits(s[..p]) && AllDigits(fraction)
    ensures (exists i :: 0 <= i < |s| && IsDigit(s[i])) <==> p + |fraction| > 0
  {
    if p > 0 {
      assert s[..p][0] == s[0];
    }
    if |fraction| > 0 {
      assert fraction[0] == s[p + 1];
    }
  }

  /** With both groups digits, the excess fractional digits are zeros exactly as `WellFormedAmount` says. */
  lemma GroupsTail(s: string, p: nat, fraction: string, decimals: nat)
    requires p == PointIndex(s) && fraction == if p < |s| then s[p + 1..] else []
    requires AllDigits(s[..p]) && AllDigits(fraction)
    ensures (forall i, k :: 0 <= i < k < |s| && s[i] == '.' && k > i + decimals ==> s[k] == '0') <==>
      !(|fraction| > decimals && !OnlyZeros(fraction[decimals..]))
  {
    var tail := forall i, k :: 0 <= i < k < |s| && s[i] == '.' && k > i + decimals ==> s[k] == '0';
    assert forall i :: 0 <= i < |s| && s[i] == '.' ==> i == p;
    if |fraction| > decimals {
      var extra := fraction[decimals..];
      AllZeros(extra);
      if tail {
        forall m | 0 <= m < |extra| ensures extra[m] == '0' {
          assert extra[m] == s[p + 1 + decimals + m];
        }
      }
      if OnlyZeros(extra) {
        forall i, k | 0 <= i < k < |s| && s[i] == '.' && k > i + decimals ensures s[k] == '0' {
          assert extra[k - p - 1 - decimals] == s[k];
        }
      }
    }
  }

  /** `OnlyZeros` holds exactly when every character is '0'. */
  lemma {:induction false} AllZeros(s: string)
    ensures OnlyZeros(s) <==> forall i :: 0 <= i < |s| ==> s[i] == '0'
    decreases |s|
  {
    if s != [] {
      AllZeros(s[1..]);
      assert forall i :: 1 <= i < |s| ==> s[i] == s[1..][i - 1];
    }
  }

  /**
   * A leading '-' negates whatever the rest parses to, and is refused exactly
   * when the rest is refused (the rest must not start with another '-').
   */
  lemma ParseNegated(text: string, decimals: nat)
    requires text == [] || text[0] != '-'
    ensures ParseUnits("-" + text, decimals).Some? <==> ParseUnits(text, decimals).Some?
    ensures ParseUnits(text, decimals).Some? ==>
      ParseUnits("-" + text, decimals) == Some(-ParseUnits(text, decimals).value)
  {
    assert ("-" + text)[1..] == text;
  }

  /**
   * The general case of `ParseUnits` on unsigned text with a '.': the whole
   * digits `w`, a '.', at most `decimals` fractional digits `f`, and `k`
   * further zeros, with at least one digit in all. Either group may be empty.
   * The amount is the whole digits' value in tokens plus the fractional digits'
   * value scaled to base units; the trailing zeros change nothing. With
   * `ParseNegated`, this gives the value of signed text too.
   */
  lemma ParseUnitsValue(w: string, f: string, k: nat, decimals: nat)
    requires AllDigits(w) && AllDigits(f) && |f| <= decimals && |w| + |f| + k >= 1
    ensures ParseUnits(w + "." + f + Zeros(k), decimals)
      == Some(BaseUnits(DigitsValue(w), ScaledFraction(f, decimals), decimals))
  {
    PaddedMagnitude(w, f, k, decimals);
  }

  /**
   * Every accepted unsigned text with a '.' has the form `ParseUnitsValue`
   * describes: its whole digits, '.', its first `decimals` fractional digits
   * (or all of them when there are fewer), and zeros.
   */
  lemma PointForm(s: string, decimals: nat)
    requires WellFormedAmount(s, decimals) && PointIndex(s) < |s|
    ensures var p := PointIndex(s);
      var fraction := s[p + 1..];
      var n := if |fraction| <= decimals then |fraction| else decimals;
      AllDigits(s[..p]) && AllDigits(fraction[..n]) && p + |fraction| >= 1 &&
      s == s[..p] + "." + fraction[..n] + Zeros(|fraction| - n)
  {
    var p := PointIndex(s);
    var fraction := s[p + 1..];
    assert AllDigits(s[..p]) && AllDigits(fraction) by {
      GroupsShape(s, p, fraction);
    }
    assert p + |fraction| >= 1 by {
      GroupsDigit(s, p, fraction);
    }
    assert !(|fraction| > decimals && !OnlyZeros(fraction[decimals..])) by {
      GroupsTail(s, p, fraction, decimals);
    }
    var n := if |fraction| <= decimals then |fraction| else decimals;
    FractionForm(fraction, decimals, n);
    Reassemble(s, p, fraction[..n], Zeros(|fraction| - n));
  }

  /** Fractional digits with only zeros past `decimals` are their `n` kept digits followed by zeros. */
  lemma FractionForm(fraction: string, decimals: nat, n: nat)
    requires AllDigits(fraction) && !(|fraction| > decimals && !OnlyZeros(fraction[decimals..]))
    requires n == if |fraction| <= decimals then |fraction| else decimals
    ensures AllDigits(fraction[..n]) && fraction == fraction[..n] + Zeros(|fraction| - n)
  {
    if |fraction| > decimals {
      var extra := fraction[decimals..];
      AllZeros(extra);
      assert extra == Zeros(|fraction| - decimals);
      assert fraction == fraction[..decimals] + extra;
    } else {
      assert fraction == fraction[..n] + Zeros(0);
    }
    assert forall i :: 0 <= i < n ==> fraction[..n][i] == fraction[i];
  }

  /** Text with its '.' at `p` is the text before, the '.', and the text after. */
  lemma Reassemble(s: string, p: nat, kept: string, zeros: string)
    requires p < |s| && s[p] == '.' && s[p + 1..] == kept + zeros
    ensures s == s[..p] + "." + kept + zeros
  {
    assert s == s[..p] + "." + s[p + 1..];
  }

  /** The unsigned part of `ParseUnitsValue`. */
  lemma PaddedMagnitude(w: string, f: string, k: nat, decimals: nat)
    requires AllDigits(w) && AllDigits(f) && |f| <= decimals && |w| + |f| + k >= 1
    ensures var unsigned := w + "." + f + Zeros(k);
      |unsigned| > 0 && unsigned[0] != '-' &&
      ParseMagnitude(unsigned, decimals) == Some(BaseUnits(DigitsValue(w), ScaledFraction(f, decimals), decimals))
  {
    var g := f + Zeros(k);
    Reassociate(w, f, k);
    PaddedDigits(f, k);
    if |g| > decimals {
      PaddedTail(f, k, decimals);
    }
    PaddedKept(f, k, decimals);
    PointGroups(w, g, decimals);
    GroupsValue(w, g, decimals);
  }

  /** "w.f" followed by zeros is "w." followed by the padded fraction, and starts with no '-'. */
  lemma Reassociate(w: string, f: string, k: nat)
    requires AllDigits(w)
    ensures w + "." + f + Zeros(k) == w + "." + (f + Zeros(k))
    ensures (w + "." + (f + Zeros(k)))[0] != '-'
  {
    var t := w + "." + (f + Zeros(k));
    if |w| > 0 { assert t[0] == w[0]; } else { assert t[0] == '.'; }
  }

  /** Text "w.g" splits at its '.' into the digit groups `w` and `g`. */
  lemma PointGroups(w: string, g: string, decimals: nat)
    requires AllDigits(w)
    ensures ParseMagnitude(w + "." + g, decimals) == DigitGroups(w, g, decimals)
  {
    var text := w + "." + g;
    PointAfterDigits(w, g);
    assert text[..|w|] == w;
    assert text[|w| + 1..] == g;
  }

  /** Digit groups whose excess fractional digits are zeros denote the whole part plus the kept fraction. */
  lemma GroupsValue(w: string, g: string, decimals: nat)
    requires AllDigits(w) && AllDigits(g) && |w| + |g| >= 1
    requires |g| > decimals ==> OnlyZeros(g[decimals..])
    ensures var kept := if |g| <= decimals then |g| else decimals;
      DigitGroups(w, g, decimals) == Some(BaseUnits(DigitsValue(w), ScaledFraction(g[..kept], decimals), decimals))
  {
  }

  lemma PaddedDigits(f: string, k: nat)
    requires AllDigits(f)
    ensures AllDigits(f + Zeros(k))
  {
    var g := f + Zeros(k);
    forall i | 0 <= i < |g| ensures IsDigit(g[i]) {
      if i < |f| { assert g[i] == f[i]; } else { assert g[i] == Zeros(k)[i - |f|]; }
    }
  }

  /** Past `decimals` digits, a fraction of at most `decimals` digits padded with zeros holds only zeros. */
  lemma PaddedTail(f: string, k: nat, decimals: nat)
    requires |f| <= decimals && |f| + k > decimals
    ensures OnlyZeros((f + Zeros(k))[decimals..])
  {
    var extra := (f + Zeros(k))[decimals..];
    assert extra == Zeros(k)[decimals - |f|..];
    AllZeros(extra);
  }

  /** The fractional digits `DigitGroups` keeps are worth what `f` alone is worth. */
  lemma PaddedKept(f: string, k: nat, decimals: nat)
    requires AllDigits(f) && |f| <= decimals
    ensures var g := f + Zeros(k);
      var kept := if |g| <= decimals then |g| else decimals;
      AllDigits(g[..kept]) && kept <= decimals && ScaledFraction(g[..kept], decimals) == ScaledFraction(f, decimals)
  {
    var g := f + Zeros(k);
    var kept := if |g| <= decimals then |g| else decimals;
    assert g[..kept] == f + Zeros(kept - |f|);
    PaddedDigits(f, kept - |f|);
    ZerosScale(f, kept - |f|, decimals - kept);
  }

  /** Appending `x` zeros and then scaling by 10^y scales the digits by 10^(x+y). */
  lemma ZerosScale(f: string, x: nat, y: nat)
    requires AllDigits(f)
    ensures DigitsValue(f + Zeros(x)) * Pow10(y) == DigitsValue(f) * Pow10(x + y)
  {
    var v, px, py := DigitsValue(f), Pow10(x), Pow10(y);
    TrailingZeros(f, x);
    Pow10Add(x, y);
    MulAssoc(v, px, py);
  }

  lemma {:induction false} Pow10Add(a: nat, b: nat)
    ensures Pow10(a + b) == Pow10(a) * Pow10(b)
    decreases a
  {
    if a > 0 {
      Pow10Add(a - 1, b);
      MulAssoc(10, Pow10(a - 1), Pow10(b));
    }
  }

  /** Unsigned text without a '.' is a whole number of tokens. */
  lemma ParseWholeValue(w: string, decimals: nat)
    requires |w| >= 1 && AllDigits(w)
    ensures ParseUnits(w, decimals) == Some(DigitsValue(w) * Pow10(decimals))
  {
    NoPoint(w);
    assert w[..|w|] == w;
    assert ParseMagnitude(w, decimals) == DigitGroups(w, [], decimals);
    GroupsValue(w, [], decimals);
    assert ScaledFraction([], decimals) == 0;
    assert w[0] != '-';
  }

  lemma {:induction false} NoPoint(w: string)
    requires AllDigits(w)
    ensures PointIndex(w) == |w|
    decreases |w|
  {
    if w != [] {
      NoPoint(w[1..]);
    }
  }

  /** A remainder modulo 10^d has at most d digits. */
  lemma {:induction false} LowFits(low: nat, d: nat)
    requires d >= 1 && low < Pow10(d)
    ensures |NatToDigits(low)| <= d
    decreases d
  {
    if low >= 10 {
      LowFits(low / 10, d - 1);
    }
  }
}
