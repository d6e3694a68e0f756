/**
 * The shape every LaTeX splitter cuts a text into: plain runs and delimited
 * formulas, in source order.
 */
module Latex {
  import opened Strings

  /** A run of text, or a formula with the opening and closing delimiter it was written with. */
  datatype Token = Plain(text: string) | Math(open: string, inner: string, close: string)

  /** The text a token was cut from. */
  function SpellToken(t: Token): string {
    match t
    case Plain(text) => text
    case Math(open, inner, close) => open + inner + close
  }

  /** The text a token sequence was cut from. */
  function Spell(ts: seq<Token>): string {
    if ts == [] then "" else SpellToken(ts[0]) + Spell(ts[1..])
  }

  lemma {:induction false} SpellAppend(a: seq<Token>, b: seq<Token>)
    ensures Spell(a + b) == Spell(a) + Spell(b)
    decreases |a|
  {
    if a == [] {
      assert a + b == b;
    } else {
      ConsConcat(a, b);
      SpellAppend(a[1..], b);
      SeqAssoc(SpellToken(a[0]), Spell(a[1..]), Spell(b));
    }
  }

  /**
   * Plain runs are never empty and never adjacent: between two runs there is
   * always a formula.
   */
  predicate Alternating(ts: seq<Token>) {
    && (forall k :: 0 <= k < |ts| && ts[k].Plain? ==> ts[k].text != [])
    && (forall k :: 0 <= k < |ts| - 1 && ts[k].Plain? ==> ts[k + 1].Math?)
  }

  /** The three opening delimiters, in the order the patterns list them. */
  const Openers: seq<string> := ["\\(", "\\[", "$$"]

  /** The three closing delimiters, in the order the patterns list them. */
  const Closers: seq<string> := ["\\)", "\\]", "$$"]
}
