/**
 * The amount-string cleaning shared by the CSV reader, both import managers
 * and the PDF parser: delete a set of noise characters (currency symbols,
 * thousands separators, whitespace), then read accounting parentheses as a
 * minus sign.
 */
module Amounts {
  import opened Text

  /** `if (s.includes("(") && s.includes(")")) s = "-" + s.replace(/[()]/g, "")`. */
  function NegateParens(s: string): string
  {
    if HasChar(s, '(') && HasChar(s, ')') then "-" + RemoveChars(s, {'(', ')'}) else s
  }

  /** The text handed to parseFloat once `noise` is deleted and parentheses are read. */
  function AmountText(s: string, noise: set<char>): string
  {
    NegateParens(RemoveChars(s, noise))
  }

  /**
   * No noise character survives; text wrapped in (or merely containing both)
   * parentheses becomes one leading minus with every parenthesis gone;
   * otherwise no minus sign is invented and every character kept comes from
   * the input.
   */
  lemma AmountTextSpec(s: string, noise: set<char>)
    requires '(' !in noise && ')' !in noise && '-' !in noise
    ensures forall i :: 0 <= i < |AmountText(s, noise)| ==> AmountText(s, noise)[i] !in noise
    ensures HasChar(s, '(') && HasChar(s, ')') ==>
      var t := AmountText(s, noise);
      |t| >= 1 && t[0] == '-' && !HasChar(t, '(') && !HasChar(t, ')')
    ensures !(HasChar(s, '(') && HasChar(s, ')')) ==>
      forall c :: HasChar(AmountText(s, noise), c) ==> HasChar(s, c)
  {
    var cleaned := RemoveChars(s, noise);
    RemoveCharsSpec(s, noise);
    if HasChar(cleaned, '(') && HasChar(cleaned, ')') {
      var unwrapped := RemoveChars(cleaned, {'(', ')'});
      RemoveCharsSpec(cleaned, {'(', ')'});
      var t := "-" + unwrapped;
      assert forall i :: 1 <= i < |t| ==> t[i] == unwrapped[i - 1];
      HasCharConcat("-", unwrapped, '(');
      HasCharConcat("-", unwrapped, ')');
    }
  }

  /** Noise characters anywhere in the input do not change the result. */
  lemma {:induction false} AmountTextIgnoresNoise(a: string, b: string, s: string, noise: set<char>)
    requires forall i :: 0 <= i < |b| ==> b[i] in noise
    ensures AmountText(a + b + s, noise) == AmountText(a + s, noise)
  {
    RemoveCharsConcat(a + b, s, noise);
    RemoveCharsConcat(a, b, noise);
    RemoveCharsConcat(a, s, noise);
    RemoveCharsAll(b, noise);
    assert RemoveChars(a, noise) + [] == RemoveChars(a, noise);
  }
}
