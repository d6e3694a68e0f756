/**
 * The regex-based LaTeX splitter of block_formatter and formatters: the
 * pattern `(.*?)(\(|\[|$$)(.*?)(\)|\]|$$)|(.+)$` run by `finditer` over the
 * text of an item, written out as an explicit scanner with Python's
 * backtracking order. Without the DOTALL flag `.` does not match a newline
 * and `$` matches at the end of the text or before a final newline; the
 * `dotAll` parameter selects the flag.
 */
module LatexRegex {
  import opened Wrappers
  import opened Strings
  import opened Notion
  import opened Latex

  /**
   * One match: a formula with the (possibly empty) text before it, or the
   * `(.+)$` alternative holding the rest of the line.
   */
  datatype Match = Pair(before: string, open: string, inner: string, close: string) | Rest(text: string)

  /** A match starting at `start` whose text ends before `end`. */
  datatype Found = Found(start: nat, m: Match, end: nat)

  /** Where a run of `.` starting at `p` has to stop: the next newline, or the end of the text. */
  function LineEnd(s: string, p: nat, dotAll: bool): (l: nat)
    requires p <= |s|
    ensures p <= l <= |s|
    ensures forall k :: p <= k < l ==> s[k] != '\n' || dotAll
    ensures l < |s| ==> !dotAll && s[l] == '\n'
    decreases |s| - p
  {
    if dotAll || p == |s| then |s|
    else if s[p] == '\n' then p
    else LineEnd(s, p + 1, dotAll)
  }

  /**
   * The two characters of an opener `\\(`, `\\[` or `$$`. The branches of
   * the alternation are distinct strings of the same length, so at most one
   * of them matches at any position and their order does not matter.
   */
  predicate IsOpener(a: char, b: char) {
    (a == '\\' && (b == '(' || b == '[')) || (a == '$' && b == '$')
  }

  /** The two characters of a closer `\\)`, `\\]` or `$$`. */
  predicate IsCloser(a: char, b: char) {
    (a == '\\' && (b == ')' || b == ']')) || (a == '$' && b == '$')
  }

  /** An opener starts at `k`. */
  predicate OpensAt(s: string, k: int) {
    0 <= k && k + 2 <= |s| && IsOpener(s[k], s[k + 1])
  }

  /** A closer starts at `k`. */
  predicate ClosesAt(s: string, k: int) {
    0 <= k && k + 2 <= |s| && IsCloser(s[k], s[k + 1])
  }

  /** The character pairs are exactly the listed delimiters. */
  lemma DelimitersListed(d: string)
    requires |d| == 2
    ensures IsOpener(d[0], d[1]) <==> d in Openers
    ensures IsCloser(d[0], d[1]) <==> d in Closers
  {
    assert d == [d[0], d[1]];
  }

  /**
   * The lazy `(.*?)` before a closer: the first closer at or after `e` that
   * lies before `l`.
   */
  function CloserFrom(s: string, e: nat, l: nat): (r: Option<nat>)
    requires l <= |s|
    ensures r.Some? ==> e <= r.value && r.value + 2 <= l && ClosesAt(s, r.value)
    ensures r.Some? ==> forall k :: e <= k < r.value ==> !ClosesAt(s, k)
    ensures r.None? ==> forall k :: e <= k && k + 2 <= l ==> !ClosesAt(s, k)
    decreases l - e
  {
    if e + 2 > l then None
    else if ClosesAt(s, e) then Some(e)
    else CloserFrom(s, e + 1, l)
  }

  /** An opener at `b` and the closer it pairs with at `e`. */
  datatype Span = Span(b: nat, e: nat)

  /**
   * The lazy `(.*?)` before an opener: the first opener at or after `b`
   * followed, before `l`, by some closer.
   */
  function PairFrom(s: string, b: nat, l: nat): (r: Option<Span>)
    requires l <= |s|
    ensures r.Some? ==> b <= r.value.b && r.value.b + 2 <= r.value.e && r.value.e + 2 <= l
    ensures r.Some? ==> OpensAt(s, r.value.b) && CloserFrom(s, r.value.b + 2, l) == Some(r.value.e)
    decreases l - b
  {
    if b + 2 > l then None
    else if OpensAt(s, b) && CloserFrom(s, b + 2, l).Some? then Some(Span(b, CloserFrom(s, b + 2, l).value))
    else PairFrom(s, b + 1, l)
  }

  /** An opener at `k` that has a closer after it before `l`: where a formula can start. */
  predicate FormulaOpensAt(s: string, k: nat, l: nat)
    requires l <= |s|
  {
    OpensAt(s, k) && CloserFrom(s, k + 2, l).Some?
  }

  /**
   * The lazy `(.*?)` tries the openers from left to right: no opener between
   * `b` and the reported one has a closer after it before `l`, and there is
   * no formula exactly when no opener from `b` on has one.
   */
  lemma {:induction false} PairFromIsFirst(s: string, b: nat, l: nat)
    requires l <= |s|
    ensures PairFrom(s, b, l).Some? ==>
      forall k :: b <= k < PairFrom(s, b, l).value.b ==> !FormulaOpensAt(s, k, l)
    ensures PairFrom(s, b, l).None? <==> forall k :: b <= k ==> !FormulaOpensAt(s, k, l)
    decreases l - b
  {
    if b + 2 > l {
      forall k | b <= k
        ensures !FormulaOpensAt(s, k, l)
      {
        assert CloserFrom(s, k + 2, l).None?;
      }
    } else if !FormulaOpensAt(s, b, l) {
      PairFromIsFirst(s, b + 1, l);
      assert PairFrom(s, b, l) == PairFrom(s, b + 1, l);
    }
  }

  /** The pattern matched at `p`: the first alternative if it can match, else `(.+)$`. */
  function MatchAt(s: string, p: nat, dotAll: bool): (r: Option<Found>)
    requires p <= |s|
    ensures r.Some? ==> r.value.start == p < r.value.end <= |s|
  {
    var l := LineEnd(s, p, dotAll);
    match PairFrom(s, p, l)
    case Some(sp) =>
      Some(Found(p, Pair(s[p..sp.b], s[sp.b..sp.b + 2], s[sp.b + 2..sp.e], s[sp.e..sp.e + 2]), sp.e + 2))
    case None =>
      if p < l && (l == |s| || l + 1 == |s|) then Some(Found(p, Rest(s[p..l]), l)) else None
  }

  /** The search of `finditer`: the first position at or after `pos` where the pattern matches. */
  function Search(s: string, pos: nat, dotAll: bool): (r: Option<Found>)
    requires pos <= |s|
    ensures r.Some? ==> pos <= r.value.start < r.value.end <= |s|
    decreases |s| - pos
  {
    match MatchAt(s, pos, dotAll)
    case Some(f) => Some(f)
    case None => if pos == |s| then None else Search(s, pos + 1, dotAll)
  }

  /** Every match `finditer` yields from `pos` on; no match is empty, so each search starts where the last match ended. */
  function Matches(s: string, pos: nat, dotAll: bool): seq<Match>
    requires pos <= |s|
    decreases |s| - pos
  {
    match Search(s, pos, dotAll)
    case None => []
    case Some(f) => [f.m] + Matches(s, f.end, dotAll)
  }

  /** The parts one formula match contributes: the text before it and the formula, each only when non-empty. */
  function PairPieces(source: RichText, before: string, inner: string): seq<RichText>
    requires source.Text?
  {
    (if before != [] then [TextToText(source, before)] else [])
    + (if inner != [] then [CreateEquationPart(source, inner)] else [])
  }

  /** The parts a single match contributes: its non-empty groups, in order. */
  function MatchPieces(source: RichText, m: Match): seq<RichText>
    requires source.Text?
  {
    match m
    case Pair(before, _, inner, _) => PairPieces(source, before, inner)
    case Rest(text) => if text != [] then [TextToText(source, text)] else []
  }

  /** The parts of a sequence of matches, match by match. */
  function MatchParts(source: RichText, ms: seq<Match>): seq<RichText>
    requires source.Text?
  {
    if ms == [] then [] else MatchParts(source, ms[..|ms| - 1]) + MatchPieces(source, ms[|ms| - 1])
  }

  /**
   * The conversion of one text item: the parts of every match `finditer`
   * yields (the loop's `break` after the rest of a line cuts nothing off,
   * by `RestIsLast`).
   */
  function RegexParts(source: RichText, dotAll: bool): seq<RichText>
    requires source.Text?
  {
    MatchParts(source, Matches(source.content, 0, dotAll))
  }

  /** The parts of the first `i + 1` matches are those of the first `i`, then those of match `i`. */
  lemma MatchPartsSnoc(source: RichText, ms: seq<Match>, i: nat)
    requires source.Text? && i < |ms|
    ensures MatchParts(source, ms[..i + 1]) == MatchParts(source, ms[..i]) + MatchPieces(source, ms[i])
  {
    assert ms[..i + 1][..i] == ms[..i];
  }

  /** The body of the loop: the parts of one match, group by group. */
  method PiecesOf(source: RichText, m: Match) returns (pieces: seq<RichText>)
    requires source.Text?
    ensures pieces == MatchPieces(source, m)
  {
    pieces := [];
    match m {
      case Pair(before, _, inner, _) =>
        if before != [] {
          pieces := [TextToText(source, before)];
        }
        if inner != [] {
          pieces := pieces + [CreateEquationPart(source, inner)];
        }
        assert pieces == PairPieces(source, before, inner);
      case Rest(text) =>
        if text != [] {
          pieces := [TextToText(source, text)];
        }
    }
  }

  /**
   * `_convert_latex_rich_text` and `LatexFormatter._convert_rich_text`: the
   * loop over the matches of `finditer`, which stops after a non-empty rest
   * of the line.
   */
  method ConvertRichText(source: RichText, dotAll: bool) returns (result: seq<RichText>)
    requires source.Text?
    ensures result == RegexParts(source, dotAll)
  {
    var matches := Matches(source.content, 0, dotAll);
    RestIsLast(source.content, 0, dotAll);
    result := [];
    for i := 0 to |matches|
      invariant result == MatchParts(source, matches[..i])
    {
      MatchPartsSnoc(source, matches, i);
      var pieces := PiecesOf(source, matches[i]);
      result := result + pieces;
      if matches[i].Rest? && matches[i].text != [] {
        assert matches[..i + 1] == matches;
        return;
      }
    }
    assert matches[..|matches|] == matches;
  }

  /** No newline occurs in `t`. */
  predicate NoNewline(t: string) {
    forall k :: 0 <= k < |t| ==> t[k] != '\n'
  }

  /**
   * What every match satisfies: a formula is opened by an opener and closed
   * by the nearest closer of any kind after it, so no closer starts inside
   * its content; the rest of a line is never empty; and without DOTALL no
   * match holds a newline.
   */
  predicate WellFormed(m: Match, dotAll: bool) {
    match m
    case Pair(before, open, inner, close) =>
      && open in Openers && close in Closers
      && (forall k :: 0 <= k < |inner| ==> !ClosesAt(inner + close, k))
      && (dotAll || (NoNewline(before) && NoNewline(inner)))
    case Rest(text) =>
      text != [] && (dotAll || NoNewline(text))
  }

  /** The text a match covers. */
  function SpellMatch(m: Match): string {
    match m
    case Pair(before, open, inner, close) => before + open + inner + close
    case Rest(text) => text
  }

  /** The text a sequence of matches covers, in order. */
  function SpellMatches(ms: seq<Match>): string {
    if ms == [] then [] else SpellMatch(ms[0]) + SpellMatches(ms[1..])
  }

  /** Looking for a closer on a slice of `s` is looking for it in `s` itself, as long as it fits in the slice. */
  lemma ClosesAtSlice(s: string, i: nat, j: nat, k: nat)
    requires i <= j <= |s| && k + 2 <= j - i
    ensures ClosesAt(s[i..j], k) == ClosesAt(s, i + k)
  {
    assert s[i..j][k] == s[i + k] && s[i..j][k + 1] == s[i + k + 1];
  }

  /** Nothing matches at the very end of the text, so the search from there finds nothing. */
  lemma SearchAtEnd(s: string, dotAll: bool)
    ensures Search(s, |s|, dotAll).None?
  {
    assert PairFrom(s, |s|, LineEnd(s, |s|, dotAll)).None?;
  }

  /** After the rest of a line nothing matches any more: it ends at the text's end or its final newline. */
  lemma RestEndsSearch(s: string, p: nat, dotAll: bool)
    requires p <= |s| && MatchAt(s, p, dotAll).Some? && MatchAt(s, p, dotAll).value.m.Rest?
    ensures Search(s, MatchAt(s, p, dotAll).value.end, dotAll).None?
  {
    var l := MatchAt(s, p, dotAll).value.end;
    SearchAtEnd(s, dotAll);
    if l < |s| {
      assert LineEnd(s, l, dotAll) == l;
      assert PairFrom(s, l, l).None?;
    }
  }

  /** A formula match is only ever followed by more matches: the rest of a line is always the last one. */
  lemma {:induction false} RestIsLast(s: string, pos: nat, dotAll: bool)
    requires pos <= |s|
    ensures forall k :: 0 <= k < |Matches(s, pos, dotAll)| - 1 ==> Matches(s, pos, dotAll)[k].Pair?
    decreases |s| - pos
  {
    match Search(s, pos, dotAll)
    case None =>
    case Some(f) =>
      var rest := Matches(s, f.end, dotAll);
      assert Matches(s, pos, dotAll) == [f.m] + rest;
      if f.m.Rest? {
        SearchFinds(s, pos, dotAll);
        RestEndsSearch(s, f.start, dotAll);
        assert rest == [];
      } else {
        RestIsLast(s, f.end, dotAll);
      }
  }

  /** Without newlines from `p` on, a run of `.` reaches the end of the text. */
  lemma {:induction false} LineEndNoNewline(s: string, p: nat)
    requires p <= |s| && forall k :: p <= k < |s| ==> s[k] != '\n'
    ensures LineEnd(s, p, false) == |s|
    decreases |s| - p
  {
    if p < |s| {
      LineEndNoNewline(s, p + 1);
    }
  }

  /** The formula a pair of positions describes. */
  function PairMatch(s: string, p: nat, sp: Span): Match
    requires p <= sp.b && sp.b + 2 <= sp.e && sp.e + 2 <= |s|
  {
    Pair(s[p..sp.b], s[sp.b..sp.b + 2], s[sp.b + 2..sp.e], s[sp.e..sp.e + 2])
  }

  /** A formula closes at the nearest closer: none starts inside its content. */
  lemma PairNearest(s: string, p: nat, l: nat, sp: Span)
    requires l <= |s| && PairFrom(s, p, l) == Some(sp)
    ensures var m := PairMatch(s, p, sp);
      forall k :: 0 <= k < |m.inner| ==> !ClosesAt(m.inner + m.close, k)
  {
    var m := PairMatch(s, p, sp);
    SliceSplit(s, sp.b + 2, sp.e, sp.e + 2);
    forall k | 0 <= k < |m.inner|
      ensures !ClosesAt(m.inner + m.close, k)
    {
      ClosesAtSlice(s, sp.b + 2, sp.e + 2, k);
    }
  }

  /** A formula covers the text from where the match starts to just after its closer. */
  lemma PairSpells(s: string, p: nat, sp: Span)
    requires p <= sp.b && sp.b + 2 <= sp.e && sp.e + 2 <= |s|
    ensures SpellMatch(PairMatch(s, p, sp)) == s[p..sp.e + 2]
  {
    SliceSplit(s, p, sp.b, sp.e + 2);
    SliceSplit(s, sp.b, sp.b + 2, sp.e + 2);
    SliceSplit(s, sp.b + 2, sp.e, sp.e + 2);
    var m := PairMatch(s, p, sp);
    SeqAssoc(m.before, m.open, m.inner + m.close);
    SeqAssoc(m.before + m.open, m.inner, m.close);
  }

  /** A formula's delimiters are listed ones. */
  lemma PairDelimiters(s: string, p: nat, sp: Span)
    requires p <= sp.b && sp.b + 2 <= sp.e && sp.e + 2 <= |s|
    requires OpensAt(s, sp.b) && ClosesAt(s, sp.e)
    ensures PairMatch(s, p, sp).open in Openers && PairMatch(s, p, sp).close in Closers
  {
    DelimitersListed(s[sp.b..sp.b + 2]);
    DelimitersListed(s[sp.e..sp.e + 2]);
  }

  /** Without DOTALL a formula match lies on one line. */
  lemma PairOnOneLine(s: string, p: nat, sp: Span)
    requires p <= |s| && PairFrom(s, p, LineEnd(s, p, false)) == Some(sp)
    ensures NoNewline(PairMatch(s, p, sp).before) && NoNewline(PairMatch(s, p, sp).inner)
  {
  }

  /** Every match is well formed and covers the text between its start and its end. */
  lemma MatchWellFormed(s: string, p: nat, dotAll: bool)
    requires p <= |s| && MatchAt(s, p, dotAll).Some?
    ensures WellFormed(MatchAt(s, p, dotAll).value.m, dotAll)
    ensures SpellMatch(MatchAt(s, p, dotAll).value.m) == s[p..MatchAt(s, p, dotAll).value.end]
  {
    var l := LineEnd(s, p, dotAll);
    match PairFrom(s, p, l)
    case Some(sp) =>
      assert MatchAt(s, p, dotAll).value.m == PairMatch(s, p, sp);
      PairNearest(s, p, l, sp);
      PairSpells(s, p, sp);
      PairDelimiters(s, p, sp);
      if !dotAll {
        PairOnOneLine(s, p, sp);
      }
    case None =>
  }

  /** The search reports the match found where it stopped. */
  lemma {:induction false} SearchFinds(s: string, pos: nat, dotAll: bool)
    requires pos <= |s| && Search(s, pos, dotAll).Some?
    ensures MatchAt(s, Search(s, pos, dotAll).value.start, dotAll) == Search(s, pos, dotAll)
    decreases |s| - pos
  {
    if MatchAt(s, pos, dotAll).None? {
      SearchFinds(s, pos + 1, dotAll);
    }
  }

  /** No position before the match the search reports, or none at all when it reports nothing, anchors a match. */
  lemma {:induction false} SearchIsFirst(s: string, pos: nat, dotAll: bool, p: nat)
    requires pos <= p <= |s|
    requires Search(s, pos, dotAll).None? || p < Search(s, pos, dotAll).value.start
    ensures MatchAt(s, p, dotAll).None?
    decreases p - pos
  {
    if p > pos {
      SearchIsFirst(s, pos + 1, dotAll, p);
    }
  }

  /** Every match `finditer` yields is well formed. */
  lemma {:induction false} MatchesWellFormed(s: string, pos: nat, dotAll: bool)
    requires pos <= |s|
    ensures forall k :: 0 <= k < |Matches(s, pos, dotAll)| ==> WellFormed(Matches(s, pos, dotAll)[k], dotAll)
    decreases |s| - pos
  {
    match Search(s, pos, dotAll)
    case None =>
    case Some(f) =>
      SearchFinds(s, pos, dotAll);
      MatchWellFormed(s, f.start, dotAll);
      MatchesWellFormed(s, f.end, dotAll);
      assert Matches(s, pos, dotAll) == [f.m] + Matches(s, f.end, dotAll);
  }

  /** With DOTALL the pattern matches right where the search starts, as long as text is left. */
  lemma DotAllMatchesAtOnce(s: string, pos: nat)
    requires pos < |s|
    ensures Search(s, pos, true).Some? && Search(s, pos, true).value.start == pos
  {
  }

  /**
   * With DOTALL the matches cover the text from `pos` on exactly, without
   * gaps or overlaps.
   */
  lemma {:induction false} DotAllRoundTrip(s: string, pos: nat)
    requires pos <= |s|
    ensures SpellMatches(Matches(s, pos, true)) == s[pos..]
    decreases |s| - pos
  {
    if pos == |s| {
      SearchAtEnd(s, true);
    } else {
      DotAllMatchesAtOnce(s, pos);
      var f := Search(s, pos, true).value;
      MatchWellFormed(s, pos, true);
      DotAllRoundTrip(s, f.end);
      var rest := Matches(s, f.end, true);
      assert Matches(s, pos, true) == [f.m] + rest;
      assert ([f.m] + rest)[1..] == rest;
      assert s[pos..] == s[pos..f.end] + s[f.end..];
    }
  }

  /** No opener from `b` on: no formula can start there. */
  lemma {:induction false} NoOpenerNoPair(s: string, b: nat, l: nat)
    requires l <= |s| && forall k :: b <= k ==> !OpensAt(s, k)
    ensures PairFrom(s, b, l).None?
    decreases l - b
  {
    if b + 2 <= l {
      NoOpenerNoPair(s, b + 1, l);
    }
  }

  /**
   * A non-empty text without any opener (and, without DOTALL, without any
   * newline) is matched whole by `(.+)$`.
   */
  lemma NoOpenerRest(s: string, dotAll: bool)
    requires s != [] && (dotAll || NoNewline(s)) && forall k :: !OpensAt(s, k)
    ensures Matches(s, 0, dotAll) == [Rest(s)]
  {
    if !dotAll {
      LineEndNoNewline(s, 0);
    }
    NoOpenerNoPair(s, 0, |s|);
    assert s[0..|s|] == s;
    assert MatchAt(s, 0, dotAll) == Some(Found(0, Rest(s), |s|));
    SearchAtEnd(s, dotAll);
  }

  /**
   * A text item whose content is non-empty and holds no opener (and,
   * without DOTALL, no newline) becomes a single text part with the whole
   * content, keeping its link, formatting and href.
   */
  lemma NoOpenerSingleText(source: RichText, dotAll: bool)
    requires source.Text? && source.content != []
    requires dotAll || NoNewline(source.content)
    requires forall k :: !OpensAt(source.content, k)
    ensures RegexParts(source, dotAll) == [TextToText(source, source.content)]
  {
    NoOpenerRest(source.content, dotAll);
    var ms := [Rest(source.content)];
    assert ms[..0] == [];
    assert MatchParts(source, ms) == [] + [TextToText(source, source.content)];
  }

  /** A part cut from `source`: formatting and href copied, never empty. */
  predicate FromSource(source: RichText, r: RichText)
    requires source.Text?
  {
    && r.annotations == source.annotations && r.href == source.href
    && match r
       case Text(content, link, plainText, _, _) => content != [] && plainText == content && link == source.link
       case Equation(expression, plainText, _, _) => plainText != [] && expression == Strip(plainText)
       case Other(_, _, _, _) => false
  }

  /**
   * Every part is cut from its source item and is non-empty: empty text
   * before a formula and empty formulas (`\(\)`) produce nothing.
   */
  lemma {:induction false} PartsFromSource(source: RichText, ms: seq<Match>)
    requires source.Text?
    ensures forall k :: 0 <= k < |MatchParts(source, ms)| ==> FromSource(source, MatchParts(source, ms)[k])
    decreases |ms|
  {
    if ms != [] {
      var front := MatchParts(source, ms[..|ms| - 1]);
      var last := MatchPieces(source, ms[|ms| - 1]);
      PartsFromSource(source, ms[..|ms| - 1]);
      PiecesFromSource(source, ms[|ms| - 1]);
      forall k | 0 <= k < |front + last|
        ensures FromSource(source, (front + last)[k])
      {
        if k < |front| {
          assert (front + last)[k] == front[k];
        } else {
          assert (front + last)[k] == last[k - |front|];
        }
      }
    }
  }

  /** The parts of one match are cut from its source item and are non-empty. */
  lemma PiecesFromSource(source: RichText, m: Match)
    requires source.Text?
    ensures forall k :: 0 <= k < |MatchPieces(source, m)| ==> FromSource(source, MatchPieces(source, m)[k])
  {
  }

  /**
   * Without DOTALL the text of every line but the last is lost when that
   * line holds no formula; here the `a` of `a\nb` disappears.
   */
  lemma LinesDropped(source: RichText)
    requires source.Text? && source.content == "a\nb"
    ensures Matches(source.content, 0, false) == [Rest("b")]
    ensures RegexParts(source, false) == [TextToText(source, "b")]
  {
    var c := source.content;
    assert LineEnd(c, 0, false) == 1;
    assert MatchAt(c, 0, false).None?;
    assert LineEnd(c, 1, false) == 1;
    assert MatchAt(c, 1, false).None?;
    assert LineEnd(c, 2, false) == 3;
    assert c[2..3] == "b";
    assert MatchAt(c, 2, false) == Some(Found(2, Rest("b"), 3));
    assert Search(c, 1, false) == Search(c, 2, false);
    assert Search(c, 0, false) == Search(c, 1, false);
    SearchAtEnd(c, false);
    assert Matches(c, 0, false) == [Rest("b")] + Matches(c, 3, false);
    var ms := [Rest("b")];
    assert ms[..0] == [];
    assert MatchParts(source, ms) == [] + [TextToText(source, "b")];
  }

  /** With DOTALL the same content is kept whole. */
  lemma LinesKeptWithDotAll(source: RichText)
    requires source.Text? && source.content == "a\nb"
    ensures RegexParts(source, true) == [TextToText(source, "a\nb")]
  {
    forall k ensures !OpensAt(source.content, k) {
    }
    NoOpenerSingleText(source, true);
  }

  /** `\(\)` is matched as a formula whose parts are all empty, so it disappears. */
  lemma EmptyFormulaVanishes(source: RichText)
    requires source.Text? && source.content == "\\(\\)"
    ensures Matches(source.content, 0, false) == [Pair("", "\\(", "", "\\)")]
    ensures RegexParts(source, false) == []
  {
    var c := source.content;
    LineEndNoNewline(c, 0);
    assert CloserFrom(c, 2, 4) == Some(2);
    assert PairFrom(c, 0, 4) == Some(Span(0, 2));
    assert c[0..2] == "\\(" && c[2..4] == "\\)" && c[0..0] == [] && c[2..2] == [];
    assert MatchAt(c, 0, false) == Some(Found(0, Pair("", "\\(", "", "\\)"), 4));
    SearchAtEnd(c, false);
    var ms := [Pair("", "\\(", "", "\\)")];
    assert ms[..0] == [];
    assert MatchParts(source, ms) == [] + PairPieces(source, "", "");
  }

  /** An opener pairs with the nearest closer of any kind: `\(x$$` is the formula `x`. */
  lemma MixedDelimiters(source: RichText)
    requires source.Text? && source.content == "\\(x$$"
    ensures Matches(source.content, 0, false) == [Pair("", "\\(", "x", "$$")]
    ensures RegexParts(source, false) == [CreateEquationPart(source, "x")]
  {
    MixedDelimitersFound(source.content);
    var ms := [Pair("", "\\(", "x", "$$")];
    assert ms[..0] == [];
    assert MatchParts(source, ms) == [] + [CreateEquationPart(source, "x")];
  }

  /** `finditer` over `\(x$$` reports the one formula. */
  lemma MixedDelimitersFound(c: string)
    requires c == "\\(x$$"
    ensures Matches(c, 0, false) == [Pair("", "\\(", "x", "$$")]
  {
    MixedDelimitersAnchor(c);
    SearchAtEnd(c, false);
  }

  /** In `\(x$$` the pattern matches at 0 with `$$` closing the formula. */
  lemma MixedDelimitersAnchor(c: string)
    requires c == "\\(x$$"
    ensures MatchAt(c, 0, false) == Some(Found(0, Pair("", "\\(", "x", "$$"), 5))
  {
    LineEndNoNewline(c, 0);
    assert !ClosesAt(c, 2);
    assert CloserFrom(c, 2, 5) == Some(3);
    assert PairFrom(c, 0, 5) == Some(Span(0, 3));
    assert c[0..2] == "\\(" && c[2..3] == "x" && c[3..5] == "$$";
  }

  /** Without newlines from `pos` on, the flag makes no difference to the search. */
  lemma {:induction false} SearchAgrees(s: string, pos: nat)
    requires pos <= |s| && forall k :: pos <= k < |s| ==> s[k] != '\n'
    ensures Search(s, pos, false) == Search(s, pos, true)
    decreases |s| - pos
  {
    LineEndNoNewline(s, pos);
    assert MatchAt(s, pos, false) == MatchAt(s, pos, true);
    if pos < |s| {
      SearchAgrees(s, pos + 1);
    }
  }

  /** Without newlines from `pos` on, the flag makes no difference to the matches. */
  lemma {:induction false} MatchesAgree(s: string, pos: nat)
    requires pos <= |s| && forall k :: pos <= k < |s| ==> s[k] != '\n'
    ensures Matches(s, pos, false) == Matches(s, pos, true)
    decreases |s| - pos
  {
    SearchAgrees(s, pos);
    match Search(s, pos, false)
    case None =>
    case Some(f) =>
      MatchesAgree(s, f.end);
  }

  /** On one line the pattern as written loses nothing: its matches spell the whole text. */
  lemma NewlineFreeRoundTrip(s: string)
    requires NoNewline(s)
    ensures SpellMatches(Matches(s, 0, false)) == s
  {
    MatchesAgree(s, 0);
    DotAllRoundTrip(s, 0);
  }

  /** A text item is split, every other item is kept as it is. */
  function ItemParts(item: RichText, dotAll: bool): seq<RichText> {
    if item.Text? then RegexParts(item, dotAll) else [item]
  }

  /** The new `rich_text` list: each item's parts, in order. */
  function ConvertItems(items: seq<RichText>, dotAll: bool): seq<RichText> {
    if items == [] then [] else ConvertItems(items[..|items| - 1], dotAll) + ItemParts(items[|items| - 1], dotAll)
  }

  /** The items of a list that are neither text nor equations (mentions and the like). */
  function Others(items: seq<RichText>): seq<RichText> {
    if items == [] then [] else Others(items[..|items| - 1]) + (if items[|items| - 1].Other? then [items[|items| - 1]] else [])
  }

  lemma {:induction false} OthersAppend(a: seq<RichText>, b: seq<RichText>)
    ensures Others(a + b) == Others(a) + Others(b)
    decreases |b|
  {
    if b == [] {
      assert a + b == a;
    } else {
      var last := b[|b| - 1];
      SnocConcat(a, b);
      OthersAppend(a, b[..|b| - 1]);
      SeqAssoc(Others(a), Others(b[..|b| - 1]), if last.Other? then [last] else []);
    }
  }

  /** A list with no mention in it has no mentions to keep. */
  lemma {:induction false} NoOthers(r: seq<RichText>)
    requires forall k :: 0 <= k < |r| ==> !r[k].Other?
    ensures Others(r) == []
    decreases |r|
  {
    if r != [] {
      NoOthers(r[..|r| - 1]);
    }
  }

  /** The parts of a text item are no mentions. */
  lemma NoOthersInParts(source: RichText, ms: seq<Match>)
    requires source.Text?
    ensures Others(MatchParts(source, ms)) == []
  {
    PartsFromSource(source, ms);
    NoOthers(MatchParts(source, ms));
  }

  /**
   * Items of any other type pass through the conversion unchanged and in
   * their order; conversion of text items adds none.
   */
  lemma {:induction false} OthersKept(items: seq<RichText>, dotAll: bool)
    ensures Others(ConvertItems(items, dotAll)) == Others(items)
    decreases |items|
  {
    if items != [] {
      var init := items[..|items| - 1];
      var last := items[|items| - 1];
      OthersKept(init, dotAll);
      OthersAppend(ConvertItems(init, dotAll), ItemParts(last, dotAll));
      assert Others([last]) == (if last.Other? then [last] else []) by {
        assert [last][..0] == [];
      }
      if last.Text? {
        NoOthersInParts(last, Matches(last.content, 0, dotAll));
      }
    }
  }

  /** The conversion of the first `i + 1` items is that of the first `i`, then that of item `i`. */
  lemma ConvertItemsSnoc(items: seq<RichText>, i: nat, dotAll: bool)
    requires i < |items|
    ensures ConvertItems(items[..i + 1], dotAll) == ConvertItems(items[..i], dotAll) + ItemParts(items[i], dotAll)
  {
    assert items[..i + 1][..i] == items[..i];
  }

  /** The parts of one item, as the loop body computes them. */
  method ItemPartsOf(item: RichText, dotAll: bool) returns (parts: seq<RichText>)
    ensures parts == ItemParts(item, dotAll)
  {
    if item.Text? {
      parts := ConvertRichText(item, dotAll);
    } else {
      parts := [item];
    }
  }

  /** The loop over a `rich_text` list that extends the new list item by item. */
  method ConvertRichTextList(items: seq<RichText>, dotAll: bool) returns (result: seq<RichText>)
    ensures result == ConvertItems(items, dotAll)
  {
    result := [];
    for i := 0 to |items|
      invariant result == ConvertItems(items[..i], dotAll)
    {
      ConvertItemsSnoc(items, i, dotAll);
      var parts := ItemPartsOf(items[i], dotAll);
      result := result + parts;
    }
    assert items[..|items|] == items;
  }

  /** The payload `convert_latex_block` leaves: a non-empty `rich_text` list replaced by its conversion. */
  function ConvertedPayload(p: Payload, dotAll: bool): Payload {
    if p.richText.Some? && p.richText.value != [] then p.(richText := Some(ConvertItems(p.richText.value, dotAll)))
    else p
  }

  /**
   * `convert_latex_block` of block_formatter: `block.get(type)` is None
   * when the block has no object under its type, and `.get` on it raises
   * AttributeError; a missing or empty `rich_text` leaves the block alone;
   * otherwise the list is replaced in place.
   */
  method ConvertLatexBlock(block: NotionBlock, dotAll: bool) returns (err: Option<Error>)
    modifies block
    ensures block.kind == old(block.kind)
    ensures err.Some? <==> old(block.payload).None?
    ensures err.Some? ==> err.value == AttributeError && block.payload == old(block.payload)
    ensures err.None? ==> block.payload == Some(ConvertedPayload(old(block.payload).value, dotAll))
  {
    if block.payload.None? {
      return Some(AttributeError);
    }
    var p := block.payload.value;
    if p.richText.Some? && p.richText.value != [] {
      var result := ConvertRichTextList(p.richText.value, dotAll);
      block.payload := Some(p.(richText := Some(result)));
    }
    return None;
  }

  /**
   * `LatexFormatter.process_block` of formatters: a block of a type without
   * rich text is returned as it is; `block[type]` raises KeyError when the
   * object is missing, iterating a missing `rich_text` raises TypeError;
   * otherwise the list is replaced in place, even when it is empty.
   */
  method ProcessBlock(block: NotionBlock, dotAll: bool) returns (err: Option<Error>)
    modifies block
    ensures block.kind == old(block.kind)
    ensures !IsRichTextBlock(block.kind) ==> err.None? && block.payload == old(block.payload)
    ensures IsRichTextBlock(block.kind) && old(block.payload).None? ==> err == Some(KeyError) && block.payload == old(block.payload)
    ensures IsRichTextBlock(block.kind) && old(block.payload).Some? && old(block.payload).value.richText.None? ==>
      err == Some(TypeError) && block.payload == old(block.payload)
    ensures IsRichTextBlock(block.kind) && old(block.payload).Some? && old(block.payload).value.richText.Some? ==>
      err.None? && block.payload == Some(old(block.payload).value.(richText := Some(ConvertItems(old(block.payload).value.richText.value, dotAll))))
  {
    if !IsRichTextBlock(block.kind) {
      return None;
    }
    if block.payload.None? {
      return Some(KeyError);
    }
    var p := block.payload.value;
    if p.richText.None? {
      return Some(TypeError);
    }
    var result := ConvertRichTextList(p.richText.value, dotAll);
    block.payload := Some(p.(richText := Some(result)));
    return None;
  }

  /** `convert_latex_block` writes the list `process_block` writes, an empty list included. */
  lemma ConvertersAgree(p: Payload, dotAll: bool)
    requires p.richText.Some?
    ensures ConvertedPayload(p, dotAll) == p.(richText := Some(ConvertItems(p.richText.value, dotAll)))
  {
  }

  /**
   * The two converters run on two blocks that start out equal: on a block of
   * a rich-text type whose object has a `rich_text` list, neither raises and
   * both leave the same payload.
   */
  method ConvertersAgreeOnBlocks(a: NotionBlock, b: NotionBlock, dotAll: bool) returns (ea: Option<Error>, eb: Option<Error>)
    requires a != b && a.kind == b.kind && a.payload == b.payload && IsRichTextBlock(a.kind)
    requires a.payload.Some? && a.payload.value.richText.Some?
    modifies a, b
    ensures ea.None? && eb.None?
    ensures a.kind == b.kind && a.payload == b.payload
  {
    ConvertersAgree(a.payload.value, dotAll);
    ea := ConvertLatexBlock(a, dotAll);
    eb := ProcessBlock(b, dotAll);
  }
}
