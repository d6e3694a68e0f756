/**
 * The block rebuilding of Notion/math_block.py: blocks are flattened into
 * rows whose content writes each equation between `$$` marks, and each row
 * is rebuilt into a new block by splitting its content on `$$` again.
 */
module MathBlock {
  import opened Wrappers
  import opened Strings
  import opened Notion

  /** An item of the rebuilt rich text: the new blocks carry no formatting. */
  datatype Part = TextPart(content: string) | EquationPart(expression: string)

  /** One item as `_process_rich_text` writes it. */
  function ItemContent(r: RichText): string {
    match r
    case Text(content, _, _, _, _) => content
    case Equation(expression, _, _, _) => "$$ " + expression + " $$"
    case Other(_, _, _, _) => ""
  }

  /** `_process_rich_text`: the items written one after the other. */
  function RichTextContent(rs: seq<RichText>): string {
    if rs == [] then "" else ItemContent(rs[0]) + RichTextContent(rs[1..])
  }

  lemma {:induction false} RichTextContentAppend(a: seq<RichText>, b: seq<RichText>)
    ensures RichTextContent(a + b) == RichTextContent(a) + RichTextContent(b)
    decreases |a|
  {
    if a == [] {
      assert a + b == b;
    } else {
      ConsConcat(a, b);
      RichTextContentAppend(a[1..], b);
      SeqAssoc(ItemContent(a[0]), RichTextContent(a[1..]), RichTextContent(b));
    }
  }

  lemma RichTextContentSnoc(rs: seq<RichText>, i: nat)
    requires i < |rs|
    ensures RichTextContent(rs[..i + 1]) == RichTextContent(rs[..i]) + ItemContent(rs[i])
  {
    assert rs[..i + 1] == rs[..i] + [rs[i]];
    RichTextContentAppend(rs[..i], [rs[i]]);
    assert [rs[i]][1..] == [];
    assert RichTextContent([rs[i]]) == ItemContent(rs[i]) + "";
  }

  /** The loop of `_process_rich_text`. */
  method ProcessRichText(rs: seq<RichText>) returns (content: string)
    ensures content == RichTextContent(rs)
  {
    content := "";
    for i := 0 to |rs|
      invariant content == RichTextContent(rs[..i])
    {
      RichTextContentSnoc(rs, i);
      if rs[i].Text? {
        content := content + rs[i].content;
      } else if rs[i].Equation? {
        content := content + ("$$ " + rs[i].expression + " $$");
      } else {
        assert ItemContent(rs[i]) == [];
        assert content + [] == content;
      }
    }
    assert rs[..|rs|] == rs;
  }

  /** The part one piece of the split content gives: odd pieces are equations, even ones text when non-empty. */
  function PieceParts(i: nat, piece: string): seq<Part> {
    if i % 2 == 1 then [EquationPart(Strip(piece))] else if piece != [] then [TextPart(piece)] else []
  }

  /** The parts of the pieces, taken two at a time: a text piece, then an equation piece. */
  function Formatted(pieces: seq<string>): seq<Part> {
    if pieces == [] then []
    else if |pieces| == 1 then PieceParts(0, pieces[0])
    else PieceParts(0, pieces[0]) + PieceParts(1, pieces[1]) + Formatted(pieces[2..])
  }

  /** `format_content_for_notion` of a string: its pieces between `$$` marks, formatted. */
  function FormatContent(s: string): seq<Part> {
    Formatted(Split(s, "$$"))
  }

  /** Only the parity of its index matters to a piece. */
  lemma PartsParity(n: nat, x: string)
    requires n >= 2
    ensures PieceParts(n, x) == PieceParts(n - 2, x)
  {
    assert (n - 2) % 2 == n % 2;
  }

  /** A piece appended at index `|p|` adds the parts of that index. */
  lemma {:induction false} FormattedAppendOne(p: seq<string>, x: string)
    ensures Formatted(p + [x]) == Formatted(p) + PieceParts(|p|, x)
    decreases |p|
  {
    if p == [] {
      assert p + [x] == [x];
    } else if |p| == 1 {
      assert p + [x] == [p[0], x];
      assert [p[0], x][2..] == [];
    } else {
      FormattedAppendOne(p[2..], x);
      FormattedAppendStep(p, x);
    }
  }

  /** The step of `FormattedAppendOne` past the first two pieces. */
  lemma FormattedAppendStep(p: seq<string>, x: string)
    requires |p| >= 2
    requires Formatted(p[2..] + [x]) == Formatted(p[2..]) + PieceParts(|p[2..]|, x)
    ensures Formatted(p + [x]) == Formatted(p) + PieceParts(|p|, x)
  {
    var head := PieceParts(0, p[0]) + PieceParts(1, p[1]);
    var q := p + [x];
    DropConcat(p, [x], 2);
    assert q[0] == p[0] && q[1] == p[1];
    FormattedTwo(q);
    FormattedTwo(p);
    PartsParity(|p|, x);
    SeqAssoc(head, Formatted(p[2..]), PieceParts(|p|, x));
  }

  /** Two or more pieces: the first two pieces' parts, then the rest's. */
  lemma FormattedTwo(q: seq<string>)
    requires |q| >= 2
    ensures Formatted(q) == PieceParts(0, q[0]) + PieceParts(1, q[1]) + Formatted(q[2..])
  {
  }

  lemma FormattedSnoc(pieces: seq<string>, i: nat)
    requires i < |pieces|
    ensures Formatted(pieces[..i + 1]) == Formatted(pieces[..i]) + PieceParts(i, pieces[i])
  {
    assert pieces[..i + 1] == pieces[..i] + [pieces[i]];
    FormattedAppendOne(pieces[..i], pieces[i]);
  }

  /** The loop over `enumerate(block.split("$$"))`. */
  method FormatContentForNotion(s: string) returns (parts: seq<Part>)
    ensures parts == FormatContent(s)
  {
    var pieces := Split(s, "$$");
    parts := [];
    for i := 0 to |pieces|
      invariant parts == Formatted(pieces[..i])
    {
      FormattedSnoc(pieces, i);
      if i % 2 == 1 {
        parts := parts + [EquationPart(Strip(pieces[i]))];
      } else if pieces[i] != [] {
        parts := parts + [TextPart(pieces[i])];
      } else {
        assert parts + [] == parts;
      }
    }
    assert pieces[..|pieces|] == pieces;
  }

  /** A part as the split can make it: a stripped equation, or a non-empty text without `$$`. */
  predicate GoodPart(part: Part) {
    match part
    case EquationPart(e) => IsStripped(e)
    case TextPart(t) => t != [] && !Contains(t, "$$")
  }

  predicate GoodParts(parts: seq<Part>) {
    forall k :: 0 <= k < |parts| ==> GoodPart(parts[k])
  }

  lemma GoodPartsConcat(a: seq<Part>, b: seq<Part>)
    requires GoodParts(a) && GoodParts(b)
    ensures GoodParts(a + b)
  {
    forall k | 0 <= k < |a + b|
      ensures GoodPart((a + b)[k])
    {
      if k < |a| {
        assert (a + b)[k] == a[k];
      } else {
        assert (a + b)[k] == b[k - |a|];
      }
    }
  }

  lemma PiecePartsGood(i: nat, piece: string)
    requires !Contains(piece, "$$")
    ensures GoodParts(PieceParts(i, piece))
  {
  }

  /** Every part is well formed when no piece holds `$$`. */
  lemma {:induction false} FormattedParts(pieces: seq<string>)
    requires forall k :: 0 <= k < |pieces| ==> !Contains(pieces[k], "$$")
    ensures GoodParts(Formatted(pieces))
    decreases |pieces|
  {
    if |pieces| == 1 {
      PiecePartsGood(0, pieces[0]);
    } else if |pieces| >= 2 {
      var a, b := PieceParts(0, pieces[0]), PieceParts(1, pieces[1]);
      var rest := pieces[2..];
      assert forall k :: 0 <= k < |rest| ==> rest[k] == pieces[k + 2];
      FormattedParts(rest);
      PiecePartsGood(0, pieces[0]);
      PiecePartsGood(1, pieces[1]);
      GoodPartsConcat(a, b);
      GoodPartsConcat(a + b, Formatted(rest));
      assert Formatted(pieces) == a + b + Formatted(rest);
    }
  }

  /**
   * Every part `format_content_for_notion` makes is well formed: an
   * equation's expression is stripped, a text is non-empty and holds no `$$`.
   */
  lemma FormatContentParts(s: string)
    ensures GoodParts(FormatContent(s))
  {
    FormattedParts(Split(s, "$$"));
  }

  /** The pieces of a string with a `$$`: the one before it, then the rest's. */
  lemma SplitAfterFirst(s: string)
    requires Find(s, "$$", 0) != -1
    ensures var i := Find(s, "$$", 0); Split(s, "$$") == [s[..i]] + Split(s[i + 2..], "$$")
  {
  }

  /** Only the empty string formats to no parts: any `$$` makes an equation, a text without one is kept. */
  lemma FormatContentEmpty(s: string)
    ensures FormatContent(s) == [] <==> s == []
  {
    var pieces := Split(s, "$$");
    if Find(s, "$$", 0) == -1 {
      assert pieces == [s];
    } else {
      SplitAfterFirst(s);
      assert |pieces| >= 2;
    }
  }

  /** `s` holds no two adjacent `$` characters. */
  predicate NoDollarPair(s: string) {
    forall k :: 0 <= k < |s| - 1 ==> !(s[k] == '$' && s[k + 1] == '$')
  }

  lemma OccursDollars(s: string, k: int)
    ensures OccursAt(s, "$$", k) <==> 0 <= k && k + 2 <= |s| && s[k] == '$' && s[k + 1] == '$'
  {
    if 0 <= k && k + 2 <= |s| {
      assert s[k..k + 2] == [s[k], s[k + 1]];
    }
  }

  lemma NoPairNotContains(s: string)
    requires NoDollarPair(s)
    ensures !Contains(s, "$$")
  {
    forall k | 0 <= k <= |s|
      ensures !OccursAt(s, "$$", k)
    {
      OccursDollars(s, k);
    }
  }

  /** A text without `$$` that does not end in `$`, then `$$`: the first `$$` is the one written. */
  lemma SplitAtMark(x: string, w: string)
    requires NoDollarPair(x) && (x == [] || x[|x| - 1] != '$')
    ensures Split(x + "$$" + w, "$$") == [x] + Split(w, "$$")
  {
    var s := x + "$$" + w;
    forall k | 0 <= k < |x|
      ensures !OccursAt(s, "$$", k)
    {
      OccursDollars(s, k);
      assert s[k] == x[k];
      if k + 1 < |x| {
        assert s[k + 1] == x[k + 1];
      }
    }
    OccursDollars(s, |x|);
    FindAt(s, "$$", 0, |x|);
    assert s[..|x|] == x;
    assert s[|x| + 2..] == w;
  }

  /** A text without `$$` is a single piece. */
  lemma SplitNoMark(x: string)
    requires NoDollarPair(x)
    ensures Split(x, "$$") == [x]
  {
    NoPairNotContains(x);
  }

  /** An equation written between its marks, padded with one space on each side. */
  lemma PaddedNoPair(e: string)
    requires NoDollarPair(e)
    ensures NoDollarPair(" " + e + " ")
  {
    var p := " " + e + " ";
    forall k | 0 <= k < |p| - 1
      ensures !(p[k] == '$' && p[k + 1] == '$')
    {
      if 0 < k && k + 1 < |p| - 1 {
        assert p[k] == e[k - 1] && p[k + 1] == e[k];
      }
    }
  }

  /** The parts a rich-text list should come back as. */
  function Shape(rs: seq<RichText>): seq<Part> {
    if rs == [] then []
    else (match rs[0]
          case Text(content, _, _, _, _) => [TextPart(content)]
          case Equation(expression, _, _, _) => [EquationPart(expression)]
          case Other(_, _, _, _) => []) + Shape(rs[1..])
  }

  /**
   * The rich texts that survive the way through a row: only texts and
   * equations; texts non-empty and without `$$`, never two in a row, and
   * not ending in `$` before an equation; expressions stripped and without
   * `$$`.
   */
  predicate RoundTrips(rs: seq<RichText>) {
    && (forall k :: 0 <= k < |rs| ==> !rs[k].Other?)
    && (forall k :: 0 <= k < |rs| && rs[k].Text? ==> rs[k].content != [] && NoDollarPair(rs[k].content))
    && (forall k :: 0 <= k < |rs| && rs[k].Equation? ==> IsStripped(rs[k].expression) && NoDollarPair(rs[k].expression))
    && (forall k :: 0 <= k < |rs| - 1 && rs[k].Text? ==> rs[k + 1].Equation? && rs[k].content[|rs[k].content| - 1] != '$')
  }

  /** The pieces a round-tripping list splits into: texts at even, padded expressions at odd indices. */
  function Pieces(rs: seq<RichText>): seq<string>
    requires RoundTrips(rs)
  {
    if rs == [] then [""]
    else if rs[0].Text? && |rs| == 1 then [rs[0].content]
    else if rs[0].Text? then
      assert RoundTrips(rs[2..]) by {
        assert forall k :: 0 <= k < |rs[2..]| ==> rs[2..][k] == rs[k + 2];
      }
      [rs[0].content, " " + rs[1].expression + " "] + Pieces(rs[2..])
    else
      assert RoundTrips(rs[1..]) by {
        assert forall k :: 0 <= k < |rs[1..]| ==> rs[1..][k] == rs[k + 1];
      }
      ["", " " + rs[0].expression + " "] + Pieces(rs[1..])
  }

  lemma RoundTripsDrop(rs: seq<RichText>, d: nat)
    requires RoundTrips(rs) && d <= |rs|
    ensures RoundTrips(rs[d..])
  {
    assert forall k :: 0 <= k < |rs[d..]| ==> rs[d..][k] == rs[k + d];
  }

  /** The content of a list that opens with a text and an equation. */
  lemma ContentOfTextEquation(rs: seq<RichText>)
    requires |rs| >= 2 && rs[0].Text? && rs[1].Equation?
    ensures RichTextContent(rs) == rs[0].content + "$$" + ((" " + rs[1].expression + " ") + "$$" + RichTextContent(rs[2..]))
  {
    assert rs[1..][1..] == rs[2..];
  }

  /** The content of a list that opens with an equation. */
  lemma ContentOfEquation(rs: seq<RichText>)
    requires |rs| >= 1 && rs[0].Equation?
    ensures RichTextContent(rs) == "" + "$$" + ((" " + rs[0].expression + " ") + "$$" + RichTextContent(rs[1..]))
  {
  }

  /** A text and an equation written between marks split into the text, then the padded expression. */
  lemma SplitEquation(t: string, e: string, w: string)
    requires NoDollarPair(t) && (t == [] || t[|t| - 1] != '$') && NoDollarPair(e)
    ensures Split(t + "$$" + ((" " + e + " ") + "$$" + w), "$$") == [t, " " + e + " "] + Split(w, "$$")
  {
    SplitAtMark(t, (" " + e + " ") + "$$" + w);
    PaddedNoPair(e);
    SplitAtMark(" " + e + " ", w);
  }

  /** Splitting the content of a round-tripping list on `$$` gives back its pieces. */
  lemma {:induction false} SplitContent(rs: seq<RichText>)
    requires RoundTrips(rs)
    ensures Split(RichTextContent(rs), "$$") == Pieces(rs)
    decreases |rs|
  {
    if rs == [] {
      SplitNoMark("");
    } else if rs[0].Text? && |rs| == 1 {
      assert rs[1..] == [];
      assert RichTextContent(rs) == rs[0].content + "";
      assert rs[0].content + "" == rs[0].content;
      SplitNoMark(rs[0].content);
    } else if rs[0].Text? {
      RoundTripsDrop(rs, 2);
      SplitContent(rs[2..]);
      ContentOfTextEquation(rs);
      SplitEquation(rs[0].content, rs[1].expression, RichTextContent(rs[2..]));
    } else {
      RoundTripsDrop(rs, 1);
      SplitContent(rs[1..]);
      ContentOfEquation(rs);
      SplitEquation("", rs[0].expression, RichTextContent(rs[1..]));
    }
  }

  /** A stripped expression comes back from its padding unchanged. */
  lemma UnpadStripped(e: string)
    requires IsStripped(e)
    ensures Strip(" " + e + " ") == e
  {
    StripPadded(" ", e, " ");
    StripIdentity(e);
  }

  /** Formatting the pieces of a round-tripping list gives its parts. */
  lemma {:induction false} FormattedPieces(rs: seq<RichText>)
    requires RoundTrips(rs)
    ensures Formatted(Pieces(rs)) == Shape(rs)
    decreases |rs|
  {
    if rs == [] {
    } else if rs[0].Text? && |rs| == 1 {
      assert Shape(rs) == [TextPart(rs[0].content)] + Shape([]);
    } else if rs[0].Text? {
      RoundTripsDrop(rs, 2);
      FormattedPieces(rs[2..]);
      FormattedPair(rs[0].content, rs[1].expression, Pieces(rs[2..]));
      assert rs[1..][1..] == rs[2..];
      assert Shape(rs) == [TextPart(rs[0].content)] + ([EquationPart(rs[1].expression)] + Shape(rs[2..]));
    } else {
      RoundTripsDrop(rs, 1);
      FormattedPieces(rs[1..]);
      FormattedPair("", rs[0].expression, Pieces(rs[1..]));
    }
  }

  /** A text piece and a padded stripped expression format as the text, if any, and the expression. */
  lemma FormattedPair(t: string, e: string, rest: seq<string>)
    requires IsStripped(e)
    ensures Formatted([t, " " + e + " "] + rest) == PieceParts(0, t) + [EquationPart(e)] + Formatted(rest)
  {
    assert ([t, " " + e + " "] + rest)[2..] == rest;
    UnpadStripped(e);
  }

  /**
   * The round trip of a row: the `$$` content of a rich-text list, split
   * and formatted again, gives back its texts and equations in order.
   */
  lemma RoundTrip(rs: seq<RichText>)
    requires RoundTrips(rs)
    ensures FormatContent(RichTextContent(rs)) == Shape(rs)
  {
    SplitContent(rs);
    FormattedPieces(rs);
  }

  /**
   * A text that ends in `$` just before an equation loses that `$` to the
   * equation: `a$` then `x` is written `a$$$ x $$`, whose first `$$` is the
   * one inside `a$$$`, so it comes back as the text `a` and the equation `$ x`.
   */
  lemma DollarEndBreaksRoundTrip(t: RichText, e: RichText)
    requires t.Text? && t.content == "a$" && e.Equation? && e.expression == "x"
    ensures FormatContent(RichTextContent([t, e])) == [TextPart("a"), EquationPart("$ x")]
    ensures FormatContent(RichTextContent([t, e])) != Shape([t, e])
  {
    DollarEndContent(t, e);
    DollarEndSplit();
    DollarEndFormatted();
    assert Shape([t, e])[0] == TextPart("a$");
  }

  /** How the example is written. */
  lemma DollarEndContent(t: RichText, e: RichText)
    requires t.Text? && t.content == "a$" && e.Equation? && e.expression == "x"
    ensures RichTextContent([t, e]) == "a" + "$$" + ("$ x " + "$$" + "")
  {
    assert [t, e][1..] == [e] && [e][1..] == [];
    assert RichTextContent([e]) == ("$$ " + "x" + " $$") + "";
    assert RichTextContent([t, e]) == "a$" + (("$$ " + "x" + " $$") + "");
    assert "a$" + (("$$ " + "x" + " $$") + "") == "a" + "$$" + ("$ x " + "$$" + "");
  }

  /** The example's split: the text's own `$` opens the first mark. */
  lemma DollarEndSplit()
    ensures Split("a" + "$$" + ("$ x " + "$$" + ""), "$$") == ["a", "$ x ", ""]
  {
    SplitAtMark("$ x ", "");
    SplitNoMark("");
    SplitAtMark("a", "$ x " + "$$" + "");
  }

  /** The example's pieces formatted. */
  lemma DollarEndFormatted()
    ensures Formatted(["a", "$ x ", ""]) == [TextPart("a"), EquationPart("$ x")]
  {
    var ps := ["a", "$ x ", ""];
    assert ps[2..] == [""];
    assert Formatted(ps) == PieceParts(0, "a") + PieceParts(1, "$ x ") + Formatted([""]);
    assert Formatted([""]) == [];
    DollarEndStrip("$ x ");
    assert PieceParts(1, "$ x ") == [EquationPart("$ x")];
  }

  /** The example's equation piece unpadded. */
  lemma DollarEndStrip(p: string)
    requires p == "$ x "
    ensures Strip(p) == "$ x"
  {
    var w := p[..3];
    assert p == w + " ";
    assert !IsSpace(w[0]) && !IsSpace(w[2]) && IsSpace(p[3]);
    StripLeftOfStripped(p);
    StripRightOfStripped(w);
    assert StripRight(p) == StripRight(w);
  }

  /**
   * `_extract_block_content`: a block whose object has a `rich_text` key
   * gives that text's `$$` content; a code block otherwise gives the content
   * of the first item of its legacy `text` list (KeyError without the
   * object, the list or a text item there, IndexError for an empty list);
   * a quote block without `rich_text` raises KeyError; any other block
   * gives nothing.
   */
  function ExtractBlockContent(b: Block): (r: Result<string, Error>)
    ensures b.payload.Some? && b.payload.value.richText.Some? ==> r == Ok(RichTextContent(b.payload.value.richText.value))
  {
    if b.payload.Some? && b.payload.value.richText.Some? then Ok(RichTextContent(b.payload.value.richText.value))
    else if b.kind == "code" then
      if b.payload.None? || b.payload.value.codeText.None? then Err(KeyError)
      else if b.payload.value.codeText.value == [] then Err(IndexError)
      else if !b.payload.value.codeText.value[0].Text? then Err(KeyError)
      else Ok(b.payload.value.codeText.value[0].content)
    else if b.kind == "quote" then Err(KeyError)
    else Ok("")
  }

  /** The quote branch only runs when the quote has no `rich_text` key, so it can only raise. */
  lemma QuoteBranchRaises(b: Block)
    requires b.kind == "quote"
    ensures ExtractBlockContent(b).Ok? <==> b.payload.Some? && b.payload.value.richText.Some?
  {
  }

  /** Only a code block can give content without a `rich_text` list. */
  lemma ContentNeedsRichText(b: Block)
    requires b.kind != "code" && !(b.payload.Some? && b.payload.value.richText.Some?)
    ensures ExtractBlockContent(b) == if b.kind == "quote" then Err(KeyError) else Ok("")
  {
  }

  /** A row of the frame `blocks_to_dataframe` builds. */
  datatype Row = Row(id: string, kind: string, content: string)

  /** The rows of the blocks, in order, or the first block's exception. */
  function Rows(blocks: seq<Block>): Result<seq<Row>, Error> {
    if blocks == [] then Ok([])
    else
      var init := Rows(blocks[..|blocks| - 1]);
      var b := blocks[|blocks| - 1];
      if init.Err? then init
      else match ExtractBlockContent(b)
        case Err(e) => Err(e)
        case Ok(c) => Ok(init.value + [Row(b.id, b.kind, c)])
  }

  /** One row a block, in order, each with the block's identifier, type and content. */
  lemma {:induction false} RowsAligned(blocks: seq<Block>)
    requires Rows(blocks).Ok?
    ensures |Rows(blocks).value| == |blocks|
    ensures forall k :: 0 <= k < |blocks| ==>
      ExtractBlockContent(blocks[k]).Ok? && Rows(blocks).value[k] == Row(blocks[k].id, blocks[k].kind, ExtractBlockContent(blocks[k]).value)
    decreases |blocks|
  {
    if blocks != [] {
      var init := blocks[..|blocks| - 1];
      RowsAligned(init);
      forall k | 0 <= k < |init|
        ensures blocks[k] == init[k]
      {
      }
    }
  }

  /** The rows exist exactly when every block's content can be read. */
  lemma {:induction false} RowsOk(blocks: seq<Block>)
    ensures Rows(blocks).Ok? <==> forall k :: 0 <= k < |blocks| ==> ExtractBlockContent(blocks[k]).Ok?
    decreases |blocks|
  {
    if blocks != [] {
      var init := blocks[..|blocks| - 1];
      RowsOk(init);
      assert forall k :: 0 <= k < |init| ==> init[k] == blocks[k];
    }
  }

  lemma RowsSnoc(blocks: seq<Block>, i: nat)
    requires i < |blocks|
    ensures Rows(blocks[..i + 1]) ==
      if Rows(blocks[..i]).Err? then Rows(blocks[..i])
      else match ExtractBlockContent(blocks[i])
        case Err(e) => Err(e)
        case Ok(c) => Ok(Rows(blocks[..i]).value + [Row(blocks[i].id, blocks[i].kind, c)])
  {
    assert blocks[..i + 1][..i] == blocks[..i];
  }

  /** Once a block raises, the rows raise the same whatever follows. */
  lemma {:induction false} RowsErrorStays(blocks: seq<Block>, i: nat)
    requires i <= |blocks| && Rows(blocks[..i]).Err?
    ensures Rows(blocks) == Rows(blocks[..i])
    decreases |blocks| - i
  {
    if i < |blocks| {
      RowsSnoc(blocks, i);
      RowsErrorStays(blocks, i + 1);
    } else {
      assert blocks[..i] == blocks;
    }
  }

  /** The block content of `_extract_block_content`, with its rich-text loop. */
  method ExtractContent(b: Block) returns (r: Result<string, Error>)
    ensures r == ExtractBlockContent(b)
  {
    if b.payload.Some? && b.payload.value.richText.Some? {
      var content := ProcessRichText(b.payload.value.richText.value);
      return Ok(content);
    }
    return ExtractBlockContent(b);
  }

  /** The loop of `blocks_to_dataframe`. */
  method BlocksToRows(blocks: seq<Block>) returns (r: Result<seq<Row>, Error>)
    ensures r == Rows(blocks)
  {
    var data: seq<Row> := [];
    for i := 0 to |blocks|
      invariant Rows(blocks[..i]) == Ok(data)
    {
      RowsSnoc(blocks, i);
      var content := ExtractContent(blocks[i]);
      if content.Err? {
        RowsErrorStays(blocks, i + 1);
        return Err(content.error);
      }
      data := data + [Row(blocks[i].id, blocks[i].kind, content.value)];
    }
    assert blocks[..|blocks|] == blocks;
    return Ok(data);
  }

  /** A block of the rebuilt page. */
  datatype NewBlock = Divider | Rich(kind: string, richText: seq<Part>) | Code(text: seq<Part>, language: string)

  /** The opening paragraph of every rebuilt page. */
  const Greeting: NewBlock := Rich("paragraph", [TextPart("Hi! \U{1F44B}")])

  /** The block types `block_type_handlers` rebuilds. */
  const HandledKinds: set<string> := {
    "divider", "heading_1", "heading_2", "heading_3", "quote", "paragraph", "code", "bulleted_list_item"}

  /** The handler of a rebuilt type. */
  function Handler(kind: string, parts: seq<Part>): NewBlock
    requires kind in HandledKinds
  {
    if kind == "divider" then Divider else if kind == "code" then Code(parts, "python") else Rich(kind, parts)
  }

  /** Whether a row gives a block: a known type, and content or a divider. */
  predicate Kept(row: Row) {
    row.kind in HandledKinds && (FormatContent(row.content) != [] || row.kind == "divider")
  }

  /** The blocks the rows give, in their order. */
  function RowBlocks(rows: seq<Row>): seq<NewBlock> {
    if rows == [] then []
    else
      var row := rows[|rows| - 1];
      RowBlocks(rows[..|rows| - 1]) + (if Kept(row) then [Handler(row.kind, FormatContent(row.content))] else [])
  }

  /** `combine_text_and_equations`: the greeting, then the rows' blocks. */
  function Combine(rows: seq<Row>): seq<NewBlock> {
    [Greeting] + RowBlocks(rows)
  }

  /**
   * A row gives a block exactly when its type has a handler and it is a
   * divider or its content is non-empty: rows of other types, and rows of
   * known types with empty content, are dropped.
   */
  lemma KeptRows(row: Row)
    ensures Kept(row) <==> row.kind in HandledKinds && (row.content != [] || row.kind == "divider")
  {
    FormatContentEmpty(row.content);
  }

  lemma {:induction false} RowBlocksAppend(a: seq<Row>, b: seq<Row>)
    ensures RowBlocks(a + b) == RowBlocks(a) + RowBlocks(b)
    decreases |b|
  {
    if b == [] {
      assert a + b == a;
    } else {
      var row := b[|b| - 1];
      SnocConcat(a, b);
      RowBlocksAppend(a, b[..|b| - 1]);
      SeqAssoc(RowBlocks(a), RowBlocks(b[..|b| - 1]), if Kept(row) then [Handler(row.kind, FormatContent(row.content))] else []);
    }
  }

  /** The rebuilt page opens with the greeting; a kept row adds its block after those of the rows before it. */
  lemma CombineOrder(rows: seq<Row>, row: Row)
    ensures Combine(rows)[0] == Greeting
    ensures Combine(rows + [row]) == Combine(rows) + (if Kept(row) then [Handler(row.kind, FormatContent(row.content))] else [])
  {
    assert (rows + [row])[..|rows|] == rows;
  }

  /** No row gives more than one block. */
  lemma {:induction false} RowBlocksAtMost(rows: seq<Row>)
    ensures |RowBlocks(rows)| <= |rows|
    ensures (forall k :: 0 <= k < |rows| ==> Kept(rows[k])) ==> |RowBlocks(rows)| == |rows|
    decreases |rows|
  {
    if rows != [] {
      RowBlocksAtMost(rows[..|rows| - 1]);
    }
  }

  lemma RowBlocksSnoc(rows: seq<Row>, i: nat)
    requires i < |rows|
    ensures RowBlocks(rows[..i + 1]) == RowBlocks(rows[..i]) +
      (if Kept(rows[i]) then [Handler(rows[i].kind, FormatContent(rows[i].content))] else [])
  {
    assert rows[..i + 1][..i] == rows[..i];
  }

  /** The loop of `combine_text_and_equations`. */
  method CombineTextAndEquations(rows: seq<Row>) returns (blocks: seq<NewBlock>)
    ensures blocks == Combine(rows)
  {
    blocks := [Greeting];
    for i := 0 to |rows|
      invariant blocks == [Greeting] + RowBlocks(rows[..i])
    {
      RowBlocksSnoc(rows, i);
      var content := FormatContentForNotion(rows[i].content);
      if rows[i].kind in HandledKinds {
        if content != [] || rows[i].kind == "divider" {
          blocks := blocks + [Handler(rows[i].kind, content)];
        }
      }
    }
    assert rows[..|rows|] == rows;
  }
}
