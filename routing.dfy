/**
 * Route parameters. The form screens are reached at `/<kind>/new` and
 * `/<kind>/<id>/edit`; the id is read back with `+id`. Only decimal ids are
 * modelled, so `+id` is the decimal value of the parameter's digits.
 */
module Routing {
  import opened Wrappers

  predicate IsDigit(c: char)
  {
    '0' <= c <= '9'
  }

  predicate IsDecimal(s: string)
  {
    |s| > 0 && forall i :: 0 <= i < |s| ==> IsDigit(s[i])
  }

  function DigitChar(d: nat): (c: char)
    requires d < 10
    ensures IsDigit(c)
  {
    ('0' as int + d) as char
  }

  /** A decimal string without a leading zero (other than `"0"` itself): how `${n}` writes a number. */
  predicate IsCanonical(s: string)
  {
    IsDecimal(s) && (|s| == 1 || s[0] != '0')
  }

  /** The number a string of decimal digits denotes (`+s`); a leading non-zero digit makes it positive. */
  function DecimalValue(s: string): (r: nat)
    requires forall i :: 0 <= i < |s| ==> IsDigit(s[i])
    ensures s != [] && s[0] != '0' ==> r > 0
  {
    if s == [] then 0
    else
      assert IsDigit(s[|s| - 1]);
      assert |s| > 1 ==> s[..|s| - 1][0] == s[0];
      DecimalValue(s[..|s| - 1]) * 10 + (s[|s| - 1] as int - '0' as int)
  }

  /** A canonical string is the text of its own value: `${+s} === s`. */
  lemma {:induction false} CanonicalRoundTrip(s: string)
    requires IsCanonical(s)
    ensures DecimalText(DecimalValue(s)) == s
  {
    var p, d := s[..|s| - 1], s[|s| - 1] as int - '0' as int;
    assert IsDigit(s[|s| - 1]);
    if |s| == 1 {
      assert DigitChar(d) == s[0];
    } else {
      assert p[0] == s[0];
      assert IsCanonical(p);
      CanonicalRoundTrip(p);
      var v := DecimalValue(p);
      assert DecimalValue(s) == v * 10 + d;
      LastDigit(v, d);
      assert DigitChar(d) == s[|s| - 1];
      assert s == p + [s[|s| - 1]];
    }
  }

  /** Appending digit `d` to the text of `v` gives the text of `v * 10 + d`. */
  lemma LastDigit(v: nat, d: nat)
    requires d < 10
    ensures (v * 10 + d) / 10 == v && (v * 10 + d) % 10 == d
  {
  }

  /** The decimal text of a non-negative id, as a list writes it into `/books/${id}/edit` (for ids below 10^21, where `${n}` is not yet in exponent form). */
  function DecimalText(n: nat): (s: string)
    ensures IsDecimal(s)
  {
    if n < 10 then [DigitChar(n)] else DecimalText(n / 10) + [DigitChar(n % 10)]
  }

  /** Reading an id back from the route gives the id that was written into it. */
  lemma {:induction false} DecimalRoundTrip(n: nat)
    ensures DecimalValue(DecimalText(n)) == n
  {
    if n >= 10 {
      var s := DecimalText(n / 10);
      var t := s + [DigitChar(n % 10)];
      assert t[..|t| - 1] == s;
      DecimalRoundTrip(n / 10);
    }
  }

  /** `id && id !== 'new'`: the route names an existing entity. */
  predicate IsEditParam(param: Option<string>)
  {
    param.Some? && param.value != "" && param.value != "new"
  }

  /**
   * The mode selection shared by the three form screens: edit mode, with
   * id `+param`, exactly when the parameter is present, non-empty and not
   * `'new'`; create mode (None) otherwise.
   */
  function EditId(param: Option<string>): (r: Option<int>)
    requires IsEditParam(param) ==> IsDecimal(param.value)
    ensures r.Some? <==> param.Some? && param.value != "" && param.value != "new"
    ensures r.Some? ==> r.value >= 0
  {
    if IsEditParam(param) then Some(DecimalValue(param.value)) else None
  }

  /** A form opened at the edit route of id `n` edits exactly `n`; `/new` creates. */
  lemma EditRouteOfId(n: nat)
    ensures EditId(Some(DecimalText(n))) == Some(n)
    ensures EditId(Some("new")) == None && EditId(None) == None
  {
    DecimalRoundTrip(n);
  }
}
