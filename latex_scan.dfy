/**
 * The `find`-based LaTeX splitter of Notion/math_converter.py and
 * Notion/notion_formatter.py. From the scan index, the delimiter kinds are
 * tried one after another; the first kind whose opener occurs and is followed
 * by its closer wins, even when another kind occurs earlier in the text.
 * math_converter tries the kinds in list order; notion_formatter iterates a
 * set, so its order is whatever the interpreter picks, and the model takes it
 * as a parameter.
 */
module LatexScan {
  import opened Wrappers
  import opened Strings
  import opened Notion
  import opened Latex

  datatype Delimiter = Delimiter(open: string, close: string)

  /** The kinds in the order math_converter lists them. */
  const ListOrder: seq<Delimiter> := [Delimiter("\\(", "\\)"), Delimiter("\\[", "\\]"), Delimiter("$$", "$$")]

  /** An iteration order of notion_formatter's set: each of the three kinds exactly once. */
  predicate SetOrder(order: seq<Delimiter>) {
    multiset(order) == multiset(ListOrder)
  }

  predicate NonEmptyDelimiters(ds: seq<Delimiter>) {
    forall k :: 0 <= k < |ds| ==> ds[k].open != [] && ds[k].close != []
  }

  lemma SetOrderNonEmpty(order: seq<Delimiter>)
    requires SetOrder(order)
    ensures NonEmptyDelimiters(order)
  {
    forall k | 0 <= k < |order| ensures order[k].open != [] && order[k].close != [] {
      assert order[k] in multiset(order);
    }
  }

  /** A complete pair: the opener at `start`, its closer at `end`. */
  datatype Hit = Hit(delim: Delimiter, start: nat, end: nat)

  function InnerStart(h: Hit): nat {
    h.start + |h.delim.open|
  }

  /** The index after the closer. */
  function After(h: Hit): nat {
    h.end + |h.delim.close|
  }

  /** Some opener of kind `d` at or after `from` has a closer at or after its end. */
  predicate HasPair(content: string, d: Delimiter, from: nat) {
    exists s: nat, e: nat | from <= s && s + |d.open| <= e <= |content| :: OccursAt(content, d.open, s) && OccursAt(content, d.close, e)
  }

  /**
   * `content.find(open, from)`, then `content.find(close, start + len(open))`:
   * the pair of kind `d` the scanner sees from `from`, if both are found.
   */
  function PairOf(content: string, d: Delimiter, from: nat): (h: Option<Hit>)
    ensures h.Some? ==> h.value.delim == d && from <= h.value.start
    ensures h.Some? ==> OccursAt(content, d.open, h.value.start) && OccursAt(content, d.close, h.value.end)
    ensures h.Some? ==> InnerStart(h.value) <= h.value.end && After(h.value) <= |content|
  {
    var s := Find(content, d.open, from);
    if s == -1 then None
    else
      var e := Find(content, d.close, s + |d.open|);
      if e == -1 then None else Some(Hit(d, s, e))
  }

  /** The first kind among `ds[j..]` that has a complete pair from `from`. */
  function FirstHit(content: string, ds: seq<Delimiter>, from: nat, j: nat): (h: Option<Hit>)
    ensures h.Some? ==> j < |ds| && h.value.delim in ds[j..] && from <= h.value.start
    ensures h.Some? ==> OccursAt(content, h.value.delim.open, h.value.start)
    ensures h.Some? ==> OccursAt(content, h.value.delim.close, h.value.end)
    ensures h.Some? ==> InnerStart(h.value) <= h.value.end && After(h.value) <= |content|
    decreases |ds| - j
  {
    if j >= |ds| then None
    else
      var p := PairOf(content, ds[j], from);
      if p.Some? then p else FirstHit(content, ds, from, j + 1)
  }

  /**
   * The two `find` calls: the opener is the first one from `from`, the
   * closer the first one after it, and there is no pair exactly when no
   * opener from `from` has a closer after it.
   */
  lemma PairOfIsFirst(content: string, d: Delimiter, from: nat)
    ensures var h := PairOf(content, d, from);
      h.Some? ==> forall i :: from <= i < h.value.start ==> !OccursAt(content, d.open, i)
    ensures var h := PairOf(content, d, from);
      h.Some? ==> forall i :: InnerStart(h.value) <= i < h.value.end ==> !OccursAt(content, d.close, i)
    ensures PairOf(content, d, from).None? <==> !HasPair(content, d, from)
  {
  }

  /**
   * The pair the kinds `ds[j..]` report is made of the first opener of its
   * kind and the first closer after it, and there is none exactly when no
   * kind has an opener followed by its closer.
   */
  lemma {:induction false} FirstHitIsFirst(content: string, ds: seq<Delimiter>, from: nat, j: nat)
    ensures var h := FirstHit(content, ds, from, j);
      h.Some? ==> forall i :: from <= i < h.value.start ==> !OccursAt(content, h.value.delim.open, i)
    ensures var h := FirstHit(content, ds, from, j);
      h.Some? ==> forall i :: InnerStart(h.value) <= i < h.value.end ==> !OccursAt(content, h.value.delim.close, i)
    ensures FirstHit(content, ds, from, j).None? <==> forall k :: j <= k < |ds| ==> !HasPair(content, ds[k], from)
    decreases |ds| - j
  {
    if j < |ds| {
      PairOfIsFirst(content, ds[j], from);
      FirstHitIsFirst(content, ds, from, j + 1);
    }
  }

  /**
   * The reported pair belongs to the first kind, in the order given, that
   * has one; every kind tried before it has none.
   */
  lemma {:induction false} FirstKindWins(content: string, ds: seq<Delimiter>, from: nat, j: nat) returns (k: nat)
    requires FirstHit(content, ds, from, j).Some?
    ensures j <= k < |ds| && FirstHit(content, ds, from, j) == PairOf(content, ds[k], from)
    ensures forall i :: j <= i < k ==> PairOf(content, ds[i], from).None?
    decreases |ds| - j
  {
    if PairOf(content, ds[j], from).Some? {
      k := j;
    } else {
      k := FirstKindWins(content, ds, from, j + 1);
    }
  }

  /** The run before a pair, when it is not empty. */
  function Before(content: string, from: nat, h: Hit): seq<Token>
    requires from <= h.start <= |content|
  {
    if h.start > from then [Plain(content[from..h.start])] else []
  }

  /** The formula of a pair. */
  function Formula(content: string, h: Hit): Token
    requires InnerStart(h) <= h.end <= |content|
  {
    Math(h.delim.open, content[InnerStart(h)..h.end], h.delim.close)
  }

  /** The scanner's cut of `content[from..]`. */
  function Tokens(content: string, ds: seq<Delimiter>, from: nat): (ts: seq<Token>)
    requires NonEmptyDelimiters(ds)
    ensures ts == [] <==> from >= |content|
    decreases |content| - from
  {
    if from >= |content| then []
    else
      match FirstHit(content, ds, from, 0)
      case None => [Plain(content[from..])]
      case Some(h) =>
        assert h.delim in ds;
        Before(content, from, h) + [Formula(content, h)] + Tokens(content, ds, After(h))
  }

  /** One turn of the scan: the pair found, then the scan from after its closer. */
  lemma TokensHit(content: string, ds: seq<Delimiter>, from: nat, h: Hit)
    requires NonEmptyDelimiters(ds) && from < |content| && FirstHit(content, ds, from, 0) == Some(h)
    ensures from < After(h) <= |content| && h.delim in ds
    ensures Tokens(content, ds, from) == Before(content, from, h) + [Formula(content, h)] + Tokens(content, ds, After(h))
  {
    assert h.delim in ds;
  }

  /** The last turn of the scan: no pair is left, the rest is one run. */
  lemma TokensNoHit(content: string, ds: seq<Delimiter>, from: nat)
    requires NonEmptyDelimiters(ds) && from < |content| && FirstHit(content, ds, from, 0) == None
    ensures Tokens(content, ds, from) == [Plain(content[from..])]
  {
  }

  lemma SpellBefore(content: string, from: nat, h: Hit)
    requires from <= h.start <= |content|
    ensures Spell(Before(content, from, h)) == content[from..h.start]
  {
    if h.start > from {
      assert Spell(Before(content, from, h)) == content[from..h.start] + "";
    }
  }

  lemma SpellFormula(content: string, h: Hit)
    requires OccursAt(content, h.delim.open, h.start) && OccursAt(content, h.delim.close, h.end)
    requires InnerStart(h) <= h.end
    ensures Spell([Formula(content, h)]) == content[h.start..After(h)]
  {
    var i, e := InnerStart(h), After(h);
    assert Spell([Formula(content, h)]) == h.delim.open + content[i..h.end] + h.delim.close + "";
    assert content[h.start..i] == h.delim.open;
    assert content[h.end..e] == h.delim.close;
    SliceSplit(content, h.start, i, e);
    SliceSplit(content, i, h.end, e);
  }

  /** The run before a pair and the pair spell the text up to the closer's end. */
  lemma HitSpell(content: string, from: nat, h: Hit)
    requires from <= h.start && OccursAt(content, h.delim.open, h.start) && OccursAt(content, h.delim.close, h.end)
    requires InnerStart(h) <= h.end
    ensures Spell(Before(content, from, h) + [Formula(content, h)]) == content[from..After(h)]
  {
    SpellAppend(Before(content, from, h), [Formula(content, h)]);
    SpellBefore(content, from, h);
    SpellFormula(content, h);
    SliceSplit(content, from, h.start, After(h));
  }

  /** Nothing is lost: the tokens spell out the scanned text exactly. */
  lemma {:induction false} TokensSpellContent(content: string, ds: seq<Delimiter>, from: nat)
    requires NonEmptyDelimiters(ds) && from <= |content|
    ensures Spell(Tokens(content, ds, from)) == content[from..]
    decreases |content| - from
  {
    if from < |content| {
      var hit := FirstHit(content, ds, from, 0);
      if hit.None? {
        TokensNoHit(content, ds, from);
        assert Spell([Plain(content[from..])]) == content[from..] + "";
      } else {
        var h := hit.value;
        TokensHit(content, ds, from, h);
        TokensSpellContent(content, ds, After(h));
        TokensSpellHit(content, ds, from, h);
      }
    }
  }

  /** The inductive step of `TokensSpellContent`: a pair, then a rest that spells itself. */
  lemma TokensSpellHit(content: string, ds: seq<Delimiter>, from: nat, h: Hit)
    requires NonEmptyDelimiters(ds) && from < |content| && FirstHit(content, ds, from, 0) == Some(h)
    requires Spell(Tokens(content, ds, After(h))) == content[After(h)..]
    ensures Spell(Tokens(content, ds, from)) == content[from..]
  {
    TokensHit(content, ds, from, h);
    var head := Before(content, from, h) + [Formula(content, h)];
    var rest := Tokens(content, ds, After(h));
    SpellAppend(head, rest);
    HitSpell(content, from, h);
    SuffixSplit(content, from, After(h));
  }

  /** Plain runs are non-empty and every two of them have a formula between them. */
  lemma {:induction false} TokensAlternate(content: string, ds: seq<Delimiter>, from: nat)
    requires NonEmptyDelimiters(ds)
    ensures Alternating(Tokens(content, ds, from))
    decreases |content| - from
  {
    if from < |content| {
      var hit := FirstHit(content, ds, from, 0);
      if hit.Some? {
        var h := hit.value;
        TokensHit(content, ds, from, h);
        var head := Before(content, from, h) + [Formula(content, h)];
        var rest := Tokens(content, ds, After(h));
        TokensAlternate(content, ds, After(h));
        AlternatingCons(head, rest);
      } else {
        TokensNoHit(content, ds, from);
      }
    }
  }

  /** A run (or nothing) and a formula in front of an alternating sequence keep it alternating. */
  lemma AlternatingCons(head: seq<Token>, rest: seq<Token>)
    requires 1 <= |head| <= 2 && head[|head| - 1].Math? && Alternating(rest)
    requires |head| == 2 ==> head[0].Plain? && head[0].text != []
    ensures Alternating(head + rest)
  {
    var ts := head + rest;
    forall k | 0 <= k < |ts| && ts[k].Plain? ensures ts[k].text != [] {
      if k >= |head| {
        assert ts[k] == rest[k - |head|];
      }
    }
    forall k | 0 <= k < |ts| - 1 && ts[k].Plain? ensures ts[k + 1].Math? {
      if k >= |head| {
        assert ts[k] == rest[k - |head|];
        assert ts[k + 1] == rest[k + 1 - |head|];
      }
    }
  }

  /** When no kind has an opener followed by its closer from `from` on, the rest of the text is a single run. */
  lemma NoPairSingleRun(content: string, ds: seq<Delimiter>, from: nat)
    requires NonEmptyDelimiters(ds) && from < |content|
    requires forall k :: 0 <= k < |ds| ==> !HasPair(content, ds[k], from)
    ensures Tokens(content, ds, from) == [Plain(content[from..])]
  {
    FirstHitIsFirst(content, ds, from, 0);
    TokensNoHit(content, ds, from);
  }

  /** A text in which no opener occurs comes back as a single run. */
  lemma NoOpenerSingleRun(content: string, ds: seq<Delimiter>)
    requires NonEmptyDelimiters(ds) && content != []
    requires forall k :: 0 <= k < |ds| ==> !Contains(content, ds[k].open)
    ensures Tokens(content, ds, 0) == [Plain(content)]
  {
    NoPairFrom(content, ds, 0, 0);
    TokensNoHit(content, ds, 0);
  }

  lemma {:induction false} NoPairFrom(content: string, ds: seq<Delimiter>, from: nat, j: nat)
    requires forall k :: j <= k < |ds| ==> !Contains(content, ds[k].open)
    ensures FirstHit(content, ds, from, j) == None
    decreases |ds| - j
  {
    if j < |ds| {
      NoPairFrom(content, ds, from, j + 1);
    }
  }

  /**
   * The equation part math_converter builds: the stripped inner text is both
   * the expression and the plain text.
   */
  function StrippedEquationPart(source: RichText, inner: string): (r: RichText)
    ensures r == CreateEquationPart(source, Strip(inner))
  {
    StripIdempotent(inner);
    var equation := Strip(inner);
    Equation(equation, equation, source.annotations, source.href)
  }

  /**
   * The rich-text part of a token: a run becomes a text part without link,
   * a formula an equation part; `stripPlain` selects math_converter's
   * stripped plain text over notion_formatter's raw one.
   */
  function Part(source: RichText, t: Token, stripPlain: bool): RichText {
    match t
    case Plain(text) => CreateTextPart(source, text)
    case Math(_, inner, _) => if stripPlain then StrippedEquationPart(source, inner) else CreateEquationPart(source, inner)
  }

  function Parts(source: RichText, ts: seq<Token>, stripPlain: bool): (r: seq<RichText>)
    ensures |r| == |ts|
  {
    if ts == [] then [] else [Part(source, ts[0], stripPlain)] + Parts(source, ts[1..], stripPlain)
  }

  lemma {:induction false} PartsAppend(source: RichText, a: seq<Token>, b: seq<Token>, stripPlain: bool)
    ensures Parts(source, a + b, stripPlain) == Parts(source, a, stripPlain) + Parts(source, b, stripPlain)
    decreases |a|
  {
    if a == [] {
      assert a + b == b;
    } else {
      ConsConcat(a, b);
      PartsAppend(source, a[1..], b, stripPlain);
      SeqAssoc([Part(source, a[0], stripPlain)], Parts(source, a[1..], stripPlain), Parts(source, b, stripPlain));
    }
  }

  /** Each part is the part of the token in the same place. */
  lemma {:induction false} PartsPointwise(source: RichText, ts: seq<Token>, stripPlain: bool, k: nat)
    requires k < |ts|
    ensures Parts(source, ts, stripPlain)[k] == Part(source, ts[k], stripPlain)
    decreases k
  {
    if k > 0 {
      PartsPointwise(source, ts[1..], stripPlain, k - 1);
    }
  }

  /** `process_text_content`: the parts of the scanner's tokens for a text item. */
  function SplitText(source: RichText, ds: seq<Delimiter>, stripPlain: bool): seq<RichText>
    requires source.Text? && NonEmptyDelimiters(ds)
  {
    Parts(source, Tokens(source.content, ds, 0), stripPlain)
  }

  /** The parts one turn of the scan emits. */
  function HitParts(source: RichText, content: string, from: nat, h: Hit, stripPlain: bool): seq<RichText>
    requires from <= h.start && InnerStart(h) <= h.end <= |content|
  {
    Parts(source, Before(content, from, h), stripPlain) + [Part(source, Formula(content, h), stripPlain)]
  }

  /** The parts of one turn: the run before the pair, if any, then its equation. */
  lemma PartsHit(source: RichText, content: string, ds: seq<Delimiter>, from: nat, h: Hit, stripPlain: bool)
    requires NonEmptyDelimiters(ds) && from < |content| && FirstHit(content, ds, from, 0) == Some(h)
    ensures Parts(source, Tokens(content, ds, from), stripPlain)
      == HitParts(source, content, from, h, stripPlain) + Parts(source, Tokens(content, ds, After(h)), stripPlain)
  {
    TokensHit(content, ds, from, h);
    var b := Before(content, from, h);
    var f := Formula(content, h);
    var rest := Tokens(content, ds, After(h));
    PartsAppend(source, b + [f], rest, stripPlain);
    PartsAppend(source, b, [f], stripPlain);
    PartsOne(source, f, stripPlain);
  }

  lemma PartsOne(source: RichText, t: Token, stripPlain: bool)
    ensures Parts(source, [t], stripPlain) == [Part(source, t, stripPlain)]
  {
    assert [t][1..] == [];
  }

  /** What one turn emits, written out: the text part before the pair when not empty, then the equation part. */
  lemma HitPartsShape(source: RichText, content: string, from: nat, h: Hit, stripPlain: bool)
    requires from <= h.start && InnerStart(h) <= h.end <= |content|
    ensures HitParts(source, content, from, h, stripPlain)
      == (if h.start > from then [CreateTextPart(source, content[from..h.start])] else [])
      + [if stripPlain then StrippedEquationPart(source, content[InnerStart(h)..h.end])
         else CreateEquationPart(source, content[InnerStart(h)..h.end])]
  {
    assert Parts(source, Before(content, from, h), stripPlain)
      == if h.start > from then [CreateTextPart(source, content[from..h.start])] else [];
  }

  /**
   * The `for` loop over the delimiter kinds in `process_text_content`: the
   * first kind with a complete pair from `startIdx` gives the text part
   * before it (when not empty), its equation part and the index after its
   * closer. `PairOf` stands for the two `find` calls of one kind.
   */
  method TryKinds(source: RichText, content: string, ds: seq<Delimiter>, startIdx: nat, stripPlain: bool)
    returns (found: bool, pieces: seq<RichText>, next: nat)
    requires NonEmptyDelimiters(ds) && startIdx < |content|
    ensures found <==> FirstHit(content, ds, startIdx, 0).Some?
    ensures found <==> exists k :: 0 <= k < |ds| && HasPair(content, ds[k], startIdx)
    ensures found ==> startIdx < next <= |content|
    ensures found ==>
      Parts(source, Tokens(content, ds, startIdx), stripPlain) == pieces + Parts(source, Tokens(content, ds, next), stripPlain)
  {
    FirstHitIsFirst(content, ds, startIdx, 0);
    found, pieces, next := false, [], startIdx;
    var j := 0;
    while j < |ds| && !found
      invariant 0 <= j <= |ds|
      invariant !found ==> FirstHit(content, ds, startIdx, j) == FirstHit(content, ds, startIdx, 0)
      invariant found ==> FirstHit(content, ds, startIdx, 0).Some?
      invariant found ==> startIdx < next <= |content|
      invariant found ==>
        Parts(source, Tokens(content, ds, startIdx), stripPlain) == pieces + Parts(source, Tokens(content, ds, next), stripPlain)
    {
      var pair := PairOf(content, ds[j], startIdx);
      if pair.Some? {
        var h := pair.value;
        PartsHit(source, content, ds, startIdx, h, stripPlain);
        HitPartsShape(source, content, startIdx, h, stripPlain);
        var before := if h.start > startIdx then [CreateTextPart(source, content[startIdx..h.start])] else [];
        var equationContent := content[InnerStart(h)..h.end];
        var equation := if stripPlain then StrippedEquationPart(source, equationContent)
          else CreateEquationPart(source, equationContent);
        pieces := before + [equation];
        assert pieces == HitParts(source, content, startIdx, h, stripPlain);
        next := After(h);
        found := true;
      }
      j := j + 1;
    }
  }

  /**
   * `process_text_content` as written: the scan index moves past each
   * closer found, and the rest is emitted once no pair remains.
   */
  method ProcessTextContent(source: RichText, ds: seq<Delimiter>, stripPlain: bool) returns (result: seq<RichText>)
    requires source.Text? && NonEmptyDelimiters(ds)
    ensures result == SplitText(source, ds, stripPlain)
  {
    var content := source.content;
    var startIdx: nat := 0;
    result := [];
    while startIdx < |content|
      invariant result + Parts(source, Tokens(content, ds, startIdx), stripPlain) == SplitText(source, ds, stripPlain)
      decreases |content| - startIdx
    {
      var found, pieces, next := TryKinds(source, content, ds, startIdx, stripPlain);
      if !found {
        TokensNoHit(content, ds, startIdx);
        var remainingText := content[startIdx..];
        PartsOne(source, Plain(remainingText), stripPlain);
        result := result + [CreateTextPart(source, remainingText)];
        break;
      }
      SeqAssoc(result, pieces, Parts(source, Tokens(content, ds, next), stripPlain));
      result := result + pieces;
      startIdx := next;
    }
  }

  /**
   * `process_rich_text`: every text item is replaced by its parts, every
   * other item is kept as it is, in order.
   */
  function ConvertList(items: seq<RichText>, ds: seq<Delimiter>, stripPlain: bool): seq<RichText>
    requires NonEmptyDelimiters(ds)
  {
    if items == [] then [] else ConvertItem(items[0], ds, stripPlain) + ConvertList(items[1..], ds, stripPlain)
  }

  function ConvertItem(item: RichText, ds: seq<Delimiter>, stripPlain: bool): seq<RichText>
    requires NonEmptyDelimiters(ds)
  {
    if item.Text? then SplitText(item, ds, stripPlain) else [item]
  }

  /** Converting a list converts each stretch of it on its own. */
  lemma {:induction false} ConvertListAppend(a: seq<RichText>, b: seq<RichText>, ds: seq<Delimiter>, stripPlain: bool)
    requires NonEmptyDelimiters(ds)
    ensures ConvertList(a + b, ds, stripPlain) == ConvertList(a, ds, stripPlain) + ConvertList(b, ds, stripPlain)
    decreases |a|
  {
    if a == [] {
      assert a + b == b;
    } else {
      ConsConcat(a, b);
      ConvertListAppend(a[1..], b, ds, stripPlain);
      SeqAssoc(ConvertItem(a[0], ds, stripPlain), ConvertList(a[1..], ds, stripPlain), ConvertList(b, ds, stripPlain));
    }
  }

  /**
   * A text item without any opener becomes one text part with the same
   * content, and loses its link; an empty one disappears.
   */
  lemma PlainItem(item: RichText, ds: seq<Delimiter>, stripPlain: bool)
    requires item.Text? && NonEmptyDelimiters(ds)
    requires forall k :: 0 <= k < |ds| ==> !Contains(item.content, ds[k].open)
    ensures item.content == [] ==> ConvertList([item], ds, stripPlain) == []
    ensures item.content != [] ==> ConvertList([item], ds, stripPlain) == [CreateTextPart(item, item.content)]
    ensures item.content != [] && item.link.Some? ==> ConvertList([item], ds, stripPlain) != [item]
  {
    if item.content != [] {
      NoOpenerSingleRun(item.content, ds);
    }
    assert ConvertList([item], ds, stripPlain) == ConvertItem(item, ds, stripPlain) + ConvertList([], ds, stripPlain);
  }

  lemma ConvertListSnoc(items: seq<RichText>, i: nat, ds: seq<Delimiter>, stripPlain: bool)
    requires NonEmptyDelimiters(ds) && i < |items|
    ensures ConvertList(items[..i + 1], ds, stripPlain) == ConvertList(items[..i], ds, stripPlain) + ConvertItem(items[i], ds, stripPlain)
  {
    assert items[..i + 1] == items[..i] + [items[i]];
    ConvertListAppend(items[..i], [items[i]], ds, stripPlain);
    assert ConvertList([items[i]], ds, stripPlain) == ConvertItem(items[i], ds, stripPlain) + ConvertList([], ds, stripPlain);
  }

  /** The `for` loop of `process_rich_text`. */
  method ProcessRichText(items: seq<RichText>, ds: seq<Delimiter>, stripPlain: bool) returns (result: seq<RichText>)
    requires NonEmptyDelimiters(ds)
    ensures result == ConvertList(items, ds, stripPlain)
  {
    result := [];
    for i := 0 to |items|
      invariant result == ConvertList(items[..i], ds, stripPlain)
    {
      var item := items[i];
      var converted: seq<RichText>;
      if item.Text? {
        converted := ProcessTextContent(item, ds, stripPlain);
      } else {
        converted := [item];
      }
      ConvertListSnoc(items, i, ds, stripPlain);
      result := result + converted;
    }
    assert items[..|items|] == items;
  }

  /** The payload after conversion: a non-empty `rich_text` list is replaced by its conversion. */
  function ConvertedPayload(p: Payload, ds: seq<Delimiter>, stripPlain: bool): Payload
    requires NonEmptyDelimiters(ds)
  {
    if p.richText.Some? && p.richText.value != [] then p.(richText := Some(ConvertList(p.richText.value, ds, stripPlain)))
    else p
  }

  /** `block[block["type"]]["rich_text"]` raises KeyError when either key is missing. */
  predicate LacksRichText(p: Option<Payload>) {
    p.None? || p.value.richText.None?
  }

  /**
   * `convert_latex` of math_converter: the blocks are converted in place, in
   * list order, with the kinds in list order and stripped plain text; the
   * first block without a `rich_text` list raises KeyError, leaving the
   * blocks before it converted and the rest untouched.
   */
  method ConvertLatex(blocks: seq<NotionBlock>) returns (err: Option<Error>)
    requires forall i, j :: 0 <= i < j < |blocks| ==> blocks[i] != blocks[j]
    modifies set i | 0 <= i < |blocks| :: blocks[i]
    ensures err.None? <==> forall i :: 0 <= i < |blocks| ==> !LacksRichText(old(blocks[i].payload))
    ensures err.Some? ==> err.value == KeyError
    ensures forall i :: 0 <= i < |blocks| ==> blocks[i].kind == old(blocks[i].kind)
    ensures forall i :: 0 <= i < |blocks| ==>
      if forall j :: 0 <= j <= i ==> !LacksRichText(old(blocks[j].payload))
      then old(blocks[i].payload).Some? && blocks[i].payload == Some(ConvertedPayload(old(blocks[i].payload).value, ListOrder, true))
      else blocks[i].payload == old(blocks[i].payload)
  {
    err := None;
    var n := 0;
    while n < |blocks|
      invariant 0 <= n <= |blocks| && err.None?
      invariant forall j :: 0 <= j < n ==> !LacksRichText(old(blocks[j].payload))
      invariant forall i :: 0 <= i < |blocks| ==> blocks[i].kind == old(blocks[i].kind)
      invariant forall i :: 0 <= i < n ==>
        old(blocks[i].payload).Some? && blocks[i].payload == Some(ConvertedPayload(old(blocks[i].payload).value, ListOrder, true))
      invariant forall i :: n <= i < |blocks| ==> blocks[i].payload == old(blocks[i].payload)
    {
      err := ConvertBlock(blocks[n]);
      if err.Some? {
        assert LacksRichText(old(blocks[n].payload));
        return;
      }
      n := n + 1;
    }
  }

  /** One turn of `convert_latex`'s loop: the block's `rich_text` list is read, and converted when not empty. */
  method ConvertBlock(block: NotionBlock) returns (err: Option<Error>)
    modifies block
    ensures block.kind == old(block.kind)
    ensures err.None? <==> !LacksRichText(old(block.payload))
    ensures err.Some? ==> err.value == KeyError && block.payload == old(block.payload)
    ensures err.None? ==> old(block.payload).Some? && block.payload == Some(ConvertedPayload(old(block.payload).value, ListOrder, true))
  {
    if LacksRichText(block.payload) {
      return Some(KeyError);
    }
    var payload := block.payload.value;
    var richText := payload.richText.value;
    if richText != [] {
      var converted := ProcessRichText(richText, ListOrder, true);
      block.payload := Some(payload.(richText := Some(converted)));
    }
    return None;
  }

  /**
   * `BlockProcessor.convert_latex_block` of notion_formatter, with the kinds
   * in the set's iteration order `order` and raw plain text. A block with no
   * object under its type raises AttributeError; one whose `rich_text` is
   * missing or empty is left alone.
   */
  method ConvertLatexBlock(block: NotionBlock, order: seq<Delimiter>) returns (err: Option<Error>)
    requires SetOrder(order)
    modifies block
    ensures NonEmptyDelimiters(order)
    ensures block.kind == old(block.kind)
    ensures err.Some? <==> old(block.payload).None?
    ensures err.Some? ==> err.value == AttributeError && block.payload == old(block.payload)
    ensures err.None? ==> block.payload == Some(ConvertedPayload(old(block.payload).value, order, false))
  {
    SetOrderNonEmpty(order);
    if block.payload.None? {
      return Some(AttributeError);
    }
    var payload := block.payload.value;
    if payload.richText.Some? && payload.richText.value != [] {
      var converted := ProcessRichText(payload.richText.value, order, false);
      block.payload := Some(payload.(richText := Some(converted)));
    }
    return None;
  }

  /**
   * `BlockProcessor.loop_all_blocks(blocks, convert_latex_block)`: the same
   * blocks, in the same order, each converted; stops at the first
   * AttributeError.
   */
  method LoopAllBlocks(blocks: seq<NotionBlock>, order: seq<Delimiter>) returns (result: seq<NotionBlock>, err: Option<Error>)
    requires SetOrder(order)
    requires forall i, j :: 0 <= i < j < |blocks| ==> blocks[i] != blocks[j]
    modifies set i | 0 <= i < |blocks| :: blocks[i]
    ensures NonEmptyDelimiters(order)
    ensures err.None? <==> forall i :: 0 <= i < |blocks| ==> old(blocks[i].payload).Some?
    ensures err.None? ==> result == blocks
    ensures forall i :: 0 <= i < |blocks| ==> blocks[i].kind == old(blocks[i].kind)
    ensures forall i :: 0 <= i < |blocks| ==>
      if forall j :: 0 <= j <= i ==> old(blocks[j].payload).Some?
      then old(blocks[i].payload).Some? && blocks[i].payload == Some(ConvertedPayload(old(blocks[i].payload).value, order, false))
      else blocks[i].payload == old(blocks[i].payload)
  {
    SetOrderNonEmpty(order);
    result, err := [], None;
    var n := 0;
    while n < |blocks|
      invariant 0 <= n <= |blocks| && result == blocks[..n]
      invariant forall j :: 0 <= j < n ==> old(blocks[j].payload).Some?
      invariant forall i :: 0 <= i < |blocks| ==> blocks[i].kind == old(blocks[i].kind)
      invariant forall i :: 0 <= i < n ==>
        old(blocks[i].payload).Some? && blocks[i].payload == Some(ConvertedPayload(old(blocks[i].payload).value, order, false))
      invariant forall i :: n <= i < |blocks| ==> blocks[i].payload == old(blocks[i].payload)
    {
      var e := ConvertLatexBlock(blocks[n], order);
      if e.Some? {
        return result, e;
      }
      result := result + [blocks[n]];
      n := n + 1;
    }
  }

  /** The pairs of `$$a$$\(b\)` the two kinds see from the start. */
  lemma ExamplePairs(c: string)
    requires c == "$$a$$\\(b\\)"
    ensures PairOf(c, ListOrder[0], 0) == Some(Hit(ListOrder[0], 5, 8))
    ensures PairOf(c, ListOrder[2], 0) == Some(Hit(ListOrder[2], 0, 3))
  {
    ParenPair(c);
    DollarPair(c);
  }

  lemma ParenPair(c: string)
    requires c == "$$a$$\\(b\\)"
    ensures PairOf(c, ListOrder[0], 0) == Some(Hit(ListOrder[0], 5, 8))
  {
    forall k | 0 <= k < 5 ensures !OccursAt(c, "\\(", k) {
      NotOccursAt(c, "\\(", k);
    }
    assert c[5..7] == "\\(";
    FindAt(c, "\\(", 0, 5);
    assert c[8..10] == "\\)";
    NotOccursAt(c, "\\)", 7);
    FindAt(c, "\\)", 7, 8);
  }

  lemma DollarPair(c: string)
    requires c == "$$a$$\\(b\\)"
    ensures PairOf(c, ListOrder[2], 0) == Some(Hit(ListOrder[2], 0, 3))
  {
    assert c[0..2] == "$$";
    FindAt(c, "$$", 0, 0);
    assert c[3..5] == "$$";
    NotOccursAt(c, "$$", 2);
    FindAt(c, "$$", 2, 3);
  }

  /**
   * In list order `\(` is tried first and wins although `$$` comes earlier
   * in the text, so the leading `$$a$$` stays text.
   */
  lemma ListOrderPrefersParentheses(c: string)
    requires c == "$$a$$\\(b\\)"
    ensures Tokens(c, ListOrder, 0)[0] == Plain("$$a$$")
  {
    ExamplePairs(c);
    var h := Hit(ListOrder[0], 5, 8);
    TokensHit(c, ListOrder, 0, h);
    assert Before(c, 0, h) == [Plain(c[0..5])];
  }

  /**
   * A set iteration order that yields `$$` first cuts the same text
   * differently: its first part is the formula `a`.
   */
  lemma SetOrderMayPreferDollars(c: string, order: seq<Delimiter>)
    requires c == "$$a$$\\(b\\)" && order == [ListOrder[2], ListOrder[0], ListOrder[1]]
    ensures SetOrder(order)
    ensures Tokens(c, order, 0)[0] == Math("$$", "a", "$$")
  {
    assert multiset(order) == multiset(ListOrder);
    SetOrderNonEmpty(order);
    var h := Hit(ListOrder[2], 0, 3);
    DollarsFirst(c, order);
    TokensHit(c, order, 0, h);
    FormulaOfDollars(c, h);
    var ts := Tokens(c, order, 0);
    assert ts == Before(c, 0, h) + [Formula(c, h)] + Tokens(c, order, After(h));
    assert Before(c, 0, h) == [];
    assert ts[0] == Formula(c, h);
  }

  lemma FormulaOfDollars(c: string, h: Hit)
    requires c == "$$a$$\\(b\\)" && h == Hit(ListOrder[2], 0, 3)
    ensures Formula(c, h) == Math("$$", "a", "$$")
  {
    assert c[2..3] == [c[2]];
  }

  lemma DollarsFirst(c: string, order: seq<Delimiter>)
    requires c == "$$a$$\\(b\\)" && order == [ListOrder[2], ListOrder[0], ListOrder[1]]
    ensures FirstHit(c, order, 0, 0) == Some(Hit(ListOrder[2], 0, 3))
  {
    ExamplePairs(c);
  }
}
