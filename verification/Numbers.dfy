/** Exponential notation (crates/types/src/numbers.rs). */
module Numbers {
  import opened Decimals

  datatype Sign = NonNegative | Negative

  datatype SignedU256 = SignedU256(sign: Sign, inner: nat)

  datatype NumberExponentialRepr = NumberExponentialRepr(value: SignedU256, mantissa: string, exponent: nat)

  /** At most `precision` leading figures are kept; what follows them is cut off, not rounded. */
  method ToExpNotation(value: SignedU256, precision: nat, trimEndZeros: bool) returns (repr: NumberExponentialRepr)
    ensures repr.value == value
    ensures repr.exponent == |ToDecimal(value.inner)| - 1
    ensures repr.mantissa == WithPoint(Figures(value.inner, precision, trimEndZeros))
  {
    var stringified := ToDecimal(value.inner);
    var exponent := |stringified| - 1;
    var mantissa := Take(stringified, precision);
    if trimEndZeros {
      while mantissa != [] && mantissa[|mantissa| - 1] == '0'
        invariant TrimZeros(mantissa) == TrimZeros(Take(stringified, precision))
      {
        mantissa := mantissa[..|mantissa| - 1];
      }
    }
    if |mantissa| > 1 {
      mantissa := mantissa[..1] + "." + mantissa[1..];
    }
    repr := NumberExponentialRepr(value, mantissa, exponent);
  }

  /** The default: four figures, trailing zeros trimmed. */
  method FromSigned(value: SignedU256) returns (repr: NumberExponentialRepr)
    ensures repr.value == value
    ensures repr.exponent == |ToDecimal(value.inner)| - 1
    ensures repr.mantissa == WithPoint(Figures(value.inner, 4, true))
  {
    repr := ToExpNotation(value, 4, true);
  }

  function Take(s: string, n: nat): string { if n <= |s| then s[..n] else s }

  function TrimZeros(s: string): string {
    if s != [] && s[|s| - 1] == '0' then TrimZeros(s[..|s| - 1]) else s
  }

  /** The significant figures that are printed. */
  function Figures(v: nat, precision: nat, trim: bool): string {
    var shown := Take(ToDecimal(v), precision);
    if trim then TrimZeros(shown) else shown
  }

  function WithPoint(figures: string): string {
    if |figures| > 1 then figures[..1] + "." + figures[1..] else figures
  }

  // ---------- What the notation denotes ----------

  /** The figures of a mantissa, its point removed. */
  function WithoutPoint(mantissa: string): string {
    if |mantissa| > 1 && mantissa[1] == '.' then mantissa[..1] + mantissa[2..] else mantissa
  }

  lemma {:induction false} PointRoundTrip(figures: string)
    requires AllDigits(figures)
    ensures WithoutPoint(WithPoint(figures)) == figures
    ensures '.' in WithPoint(figures) <==> |figures| >= 2
  {
    var m := WithPoint(figures);
    if |figures| > 1 {
      assert m[1] == '.';
      assert m[..1] + m[2..] == figures;
    }
  }

  /** figures x 10^(exponent + 1 - number of figures): d.ddd x 10^exponent without fractions. */
  ghost function Denotes(figures: string, exponent: nat): nat
    requires AllDigits(figures) && |figures| <= exponent + 1
  {
    Value(figures) * Pow10(exponent + 1 - |figures|)
  }

  /** Trimming removes trailing zeros only, which the exponent makes up for. */
  lemma {:induction false} TrimKeepsValue(s: string, exponent: nat)
    requires AllDigits(s) && |s| <= exponent + 1
    ensures var t := TrimZeros(s);
            |t| <= |s| && AllDigits(t) && t == s[..|t|] && Denotes(t, exponent) == Denotes(s, exponent)
    ensures s != [] && s[0] != '0' ==> TrimZeros(s) != []
  {
    if s != [] && s[|s| - 1] == '0' {
      var front := s[..|s| - 1];
      TrimKeepsValue(front, exponent);
      var v, p := Value(front), Pow10(exponent + 1 - |s|);
      assert Pow10(exponent + 1 - |front|) == 10 * p;
      assert v * (10 * p) == (10 * v) * p;
    }
  }

  /** The leading digits of a decimal, scaled back up, are below the number by less than one unit of the last digit. */
  lemma {:induction false} TruncationError(s: string, k: nat)
    requires AllDigits(s) && k <= |s|
    ensures var d := Value(s[..k]) * Pow10(|s| - k);
            d <= Value(s) < d + Pow10(|s| - k)
  {
    assert s == s[..k] + s[k..];
    ValueAppend(s[..k], s[k..]);
    ValueBelowPow(s[k..]);
  }

  /**
    For a positive number with L digits, the printed figures and exponent denote D with
    D <= v < D + 10^(L - min(precision, L)), trimmed or not; enough figures denote v itself.
   */
  lemma {:induction false} NotationErrorBound(v: nat, precision: nat, trim: bool)
    requires v > 0 && precision > 0
    ensures var digits, figures := |ToDecimal(v)|, Figures(v, precision, trim);
            var shown := if precision <= digits then precision else digits;
            && 0 < |figures| <= digits && AllDigits(figures)
            && Denotes(figures, digits - 1) <= v < Denotes(figures, digits - 1) + Pow10(digits - shown)
            && Pow10(digits - 1) <= v < Pow10(digits)
            && (precision >= digits ==> Denotes(figures, digits - 1) == v)
            && Denotes(figures, digits - 1) == Denotes(Figures(v, precision, false), digits - 1)
  {
    var s := ToDecimal(v);
    DecimalRoundTrip(v);
    DigitCount(v);
    var shown := if precision <= |s| then precision else |s|;
    assert s[..|s|] == s;
    assert Take(s, precision) == s[..shown];
    TruncationError(s, shown);
    TrimKeepsValue(s[..shown], |s| - 1);
    assert Pow10(0) == 1;
  }

  /** The mantissa is empty exactly when no figures are asked for or zero is trimmed away. */
  lemma {:induction false} EmptyMantissaIff(v: nat, precision: nat, trim: bool)
    ensures WithPoint(Figures(v, precision, trim)) == "" <==> precision == 0 || (trim && v == 0)
  {
    if v > 0 && precision > 0 {
      NotationErrorBound(v, precision, trim);
    } else if v == 0 && precision > 0 {
      assert ToDecimal(0) == "0" && "0"[..1] == "0";
      assert "0"[..0] == "";
      assert TrimZeros("0") == "";
    }
  }

  /** The written form determines the figures: the mantissa without its point is what `Figures` computed. */
  lemma {:induction false} MantissaShowsFigures(v: nat, precision: nat, trim: bool)
    ensures AllDigits(Figures(v, precision, trim))
    ensures WithoutPoint(WithPoint(Figures(v, precision, trim))) == Figures(v, precision, trim)
    ensures '.' in WithPoint(Figures(v, precision, trim)) <==> |Figures(v, precision, trim)| >= 2
  {
    var s := ToDecimal(v);
    TrimKeepsValue(Take(s, precision), |s| - 1);
    PointRoundTrip(Figures(v, precision, trim));
  }

  /** Trimming cuts off exactly the trailing zeros. */
  lemma {:induction false} TrimCutsZeros(s: string)
    ensures var t := TrimZeros(s);
            && t <= s && (t != [] ==> t[|t| - 1] != '0')
            && forall i :: |t| <= i < |s| ==> s[i] == '0'
  {
    if s != [] && s[|s| - 1] == '0' {
      var front := s[..|s| - 1];
      TrimCutsZeros(front);
      assert forall i :: 0 <= i < |front| ==> front[i] == s[i];
    }
  }

  /**
    Untrimmed, exactly min(precision, L) figures are shown, the first ones of the number; trimmed, these without
    their trailing zeros. The point, if any, stands right after the first figure.
   */
  lemma {:induction false} FiguresShown(v: nat, precision: nat, trim: bool)
    ensures var digits, plain, figures := ToDecimal(v), Figures(v, precision, false), Figures(v, precision, trim);
            && plain <= digits && |plain| == (if precision <= |digits| then precision else |digits|)
            && figures <= plain && (!trim ==> figures == plain)
            && (trim ==> (figures != [] ==> figures[|figures| - 1] != '0')
                         && forall i :: |figures| <= i < |plain| ==> plain[i] == '0')
    ensures var figures := Figures(v, precision, trim);
            var mantissa := WithPoint(figures);
            && (|figures| <= 1 ==> mantissa == figures)
            && (|figures| >= 2 ==> |mantissa| == |figures| + 1 && mantissa[0] == figures[0] && mantissa[1] == '.'
                                   && mantissa[2..] == figures[1..])
  {
    TrimCutsZeros(Take(ToDecimal(v), precision));
  }
}
