/** formatNumber: the text the calculator shows for a computed number. */
module Format {
  import opened JsNumber
  import opened Text

  /** The digits after the decimal point of `text`, as `text.split('.')[1]`. */
  function FractionDigits(text: string): string
    requires '.' in text
  {
    SplitAtSeparator(text, '.');
    Split(text, '.')[1]
  }

  /** Number.toString text, replaced by toFixed(8) text when it has a decimal
      point followed by more than 8 characters. */
  function FormatNumber<N>(a: Arith<N>, x: N): (r: string)
    ensures r == a.toString(x) || r == a.toFixed8(x)
    ensures '.' !in a.toString(x) ==> r == a.toString(x)
  {
    var text := a.toString(x);
    if '.' in text && |FractionDigits(text)| > 8 then a.toFixed8(x) else text
  }

  /** For text `whole.fraction` with a single decimal point, the number is
      rounded exactly when more than 8 characters follow the point. */
  lemma FormatDecimal<N>(a: Arith<N>, x: N, whole: string, fraction: string)
    requires a.toString(x) == whole + "." + fraction
    requires '.' !in whole && '.' !in fraction
    ensures |fraction| <= 8 ==> FormatNumber(a, x) == a.toString(x)
    ensures |fraction| > 8 ==> FormatNumber(a, x) == a.toFixed8(x)
  {
    var text := a.toString(x);
    assert text[|whole|] == '.';
    assert Join([whole, fraction], '.') == text;
    SplitJoin([whole, fraction], '.');
  }
}
