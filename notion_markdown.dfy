/**
 * Notion blocks rendered as Markdown (`blocks_to_markdown` of Notion/utils.py):
 * one line per rich-text block, a prefix by block type, the items of its
 * rich text with their formatting marks, and nested lists numbered through
 * a counter array shared by every level of the recursion.
 */
module NotionMarkdown {
  import opened Wrappers
  import opened Strings
  import opened Notion

  /** The text of an item before its formatting marks are added. */
  function Body(r: RichText): string {
    match r
    case Text(content, _, _, _, _) => content
    case Equation(expression, _, _, _) => "\\(" + expression + "\\)"
    case Other(_, _, _, _) => ""
  }

  /** The marks in front of a formatted text, outermost first. */
  function OpenMarks(a: Annotations): string {
    Mark(a.underline, "__") + (Mark(a.strikethrough, "~~") + (Mark(a.italic, "*") + (Mark(a.bold, "**") + (Mark(a.code, "`") + ""))))
  }

  /** The marks after a formatted text, innermost first. */
  function CloseMarks(a: Annotations): string {
    (((("" + Mark(a.code, "`")) + Mark(a.bold, "**")) + Mark(a.italic, "*")) + Mark(a.strikethrough, "~~")) + Mark(a.underline, "__")
  }

  /** A mark when its flag is set, nothing otherwise. */
  function Mark(flag: bool, m: string): string {
    if flag then m else ""
  }

  /** A text between two copies of a mark when its flag is set. */
  function Around(flag: bool, m: string, t: string): string {
    Mark(flag, m) + t + Mark(flag, m)
  }

  /** The formatting marks as the source adds them: code first, underline last. */
  function Wrap(a: Annotations, t: string): string {
    Around(a.underline, "__", Around(a.strikethrough, "~~", Around(a.italic, "*", Around(a.bold, "**", Around(a.code, "`", t)))))
  }

  /** One flag's step: the marks so far gain the new mark outside them. */
  lemma MarkStep(flag: bool, m: string, open: string, t: string, close: string)
    ensures Around(flag, m, open + t + close) == (Mark(flag, m) + open) + t + (close + Mark(flag, m))
  {
    if !flag {
      assert Mark(flag, m) + open == open;
      assert close + Mark(flag, m) == close;
    }
  }

  /**
   * The marks nest: the code mark is innermost and the underline mark
   * outermost, and each closing mark mirrors its opening mark.
   */
  lemma WrapNests(a: Annotations, t: string)
    ensures Wrap(a, t) == OpenMarks(a) + t + CloseMarks(a)
  {
    MarkStep(a.code, "`", "", t, "");
    assert t == "" + t + "";
    var o1, c1 := Mark(a.code, "`") + "", "" + Mark(a.code, "`");
    MarkStep(a.bold, "**", o1, t, c1);
    var o2, c2 := Mark(a.bold, "**") + o1, c1 + Mark(a.bold, "**");
    MarkStep(a.italic, "*", o2, t, c2);
    var o3, c3 := Mark(a.italic, "*") + o2, c2 + Mark(a.italic, "*");
    MarkStep(a.strikethrough, "~~", o3, t, c3);
    var o4, c4 := Mark(a.strikethrough, "~~") + o3, c3 + Mark(a.strikethrough, "~~");
    MarkStep(a.underline, "__", o4, t, c4);
  }

  /** One item as it appears in the line. */
  function Inline(r: RichText): string {
    Wrap(r.annotations, Body(r))
  }

  /** A block's line: its prefix, then its items one after the other. */
  function Line(prefix: string, rs: seq<RichText>): string {
    if rs == [] then prefix else Line(prefix, rs[..|rs| - 1]) + Inline(rs[|rs| - 1])
  }

  /** A text with every flag set. */
  lemma WrapAll(a: Annotations, t: string)
    requires a.bold && a.italic && a.strikethrough && a.underline && a.code
    ensures Wrap(a, t) == "__~~***`" + t + "`***~~__"
  {
    WrapNests(a, t);
  }

  /** Unformatted text gets no marks. */
  lemma DefaultUnwrapped(t: string)
    ensures DefaultAnnotations.bold == false && DefaultAnnotations.italic == false
    ensures DefaultAnnotations.strikethrough == false && DefaultAnnotations.underline == false
    ensures DefaultAnnotations.code == false && DefaultAnnotations.color == "default"
    ensures Wrap(DefaultAnnotations, t) == t
  {
  }

  /** An equation renders between the inline-math delimiters, inside its marks. */
  lemma EquationInline(r: RichText)
    requires r.Equation?
    ensures Inline(r) == OpenMarks(r.annotations) + "\\(" + r.expression + "\\)" + CloseMarks(r.annotations)
  {
    WrapNests(r.annotations, Body(r));
  }

  /** A mention renders as nothing but its marks. */
  lemma OtherInline(r: RichText)
    requires r.Other?
    ensures Inline(r) == OpenMarks(r.annotations) + CloseMarks(r.annotations)
  {
    WrapNests(r.annotations, Body(r));
  }

  predicate IsHeading(kind: string) {
    |kind| >= 8 && kind[..8] == "heading_"
  }

  /** The rich-text types that start with `heading_` are the three heading levels. */
  lemma HeadingKinds(kind: string)
    requires IsRichTextBlock(kind) && IsHeading(kind)
    ensures kind == "heading_1" || kind == "heading_2" || kind == "heading_3"
  {
    assert kind[0] == kind[..8][0] == 'h';
  }

  /** `int(block_type[-1])` of a heading type. */
  function HeadingLevel(kind: string): (n: nat)
    requires IsRichTextBlock(kind) && IsHeading(kind)
    ensures 1 <= n <= 3 && kind == "heading_" + [DigitChar(n)]
  {
    HeadingKinds(kind);
    if kind == "heading_1" then 1 else if kind == "heading_2" then 2 else 3
  }

  /** The indentation of a list item at a nesting level: two spaces a level. */
  function Indent(level: nat): string {
    Repeat("  ", level)
  }

  lemma {:induction false} IndentLength(level: nat)
    ensures |Indent(level)| == 2 * level
    ensures forall k :: 0 <= k < |Indent(level)| ==> Indent(level)[k] == ' '
  {
    if level > 0 {
      IndentLength(level - 1);
    }
  }

  /** The prefix of a block that takes no number. */
  function Prefix(kind: string, level: nat): string
    requires IsRichTextBlock(kind)
  {
    if IsHeading(kind) then Repeat("#", HeadingLevel(kind)) + " "
    else if kind == "bulleted_list_item" then Indent(level) + "- "
    else ""
  }

  lemma {:induction false} RepeatLength(s: string, n: nat)
    ensures |Repeat(s, n)| == |s| * n
  {
    if n > 0 {
      RepeatLength(s, n - 1);
    }
  }

  lemma {:induction false} RepeatChar(c: char, n: nat)
    ensures forall k :: 0 <= k < |Repeat([c], n)| ==> Repeat([c], n)[k] == c
  {
    if n > 0 {
      RepeatChar(c, n - 1);
    }
  }

  /**
   * A heading of level `n` is `n` hash marks and a space, whatever its
   * nesting; a bulleted item is two spaces a level, a dash and a space.
   */
  lemma PrefixShapes(kind: string, level: nat)
    requires IsRichTextBlock(kind)
    ensures IsHeading(kind) ==> var p := Prefix(kind, level);
      |p| == HeadingLevel(kind) + 1 && p[|p| - 1] == ' ' && forall k :: 0 <= k < |p| - 1 ==> p[k] == '#'
    ensures kind == "bulleted_list_item" ==> Prefix(kind, level) == Indent(level) + "- " && |Indent(level)| == 2 * level
  {
    if IsHeading(kind) {
      RepeatLength("#", HeadingLevel(kind));
      RepeatChar('#', HeadingLevel(kind));
    }
    IndentLength(level);
  }

  /** `filter(None, pieces)`: the non-empty pieces, in order. */
  function NonEmpty(pieces: seq<string>): (r: seq<string>)
    ensures forall k :: 0 <= k < |r| ==> r[k] != []
    ensures forall p :: p in r <==> p in pieces && p != []
  {
    if pieces == [] then [] else (if pieces[0] != [] then [pieces[0]] else []) + NonEmpty(pieces[1..])
  }

  /** A single piece is kept exactly when it is not empty. */
  lemma NonEmptyOne(p: string)
    ensures NonEmpty([p]) == if p == [] then [] else [p]
  {
    assert [p][1..] == [];
  }

  /** Filtering distributes over concatenation: order and repetitions are kept. */
  lemma {:induction false} NonEmptyAppend(a: seq<string>, b: seq<string>)
    ensures NonEmpty(a + b) == NonEmpty(a) + NonEmpty(b)
    decreases |a|
  {
    if a != [] {
      assert (a + b)[0] == a[0] && (a + b)[1..] == a[1..] + b;
      NonEmptyAppend(a[1..], b);
    } else {
      assert a + b == b;
    }
  }

  /** The Markdown the pieces make: the non-empty ones, a newline between two. */
  function JoinLines(pieces: seq<string>): string {
    Join("\n", NonEmpty(pieces))
  }

  lemma {:induction false} JoinEmpty(parts: seq<string>)
    requires forall k :: 0 <= k < |parts| ==> parts[k] != []
    ensures Join("\n", parts) == [] <==> parts == []
  {
  }

  /** The Markdown is empty exactly when every piece is. */
  lemma JoinLinesEmpty(pieces: seq<string>)
    ensures JoinLines(pieces) == [] <==> forall k :: 0 <= k < |pieces| ==> pieces[k] == []
  {
    JoinEmpty(NonEmpty(pieces));
    if JoinLines(pieces) == [] {
      forall k | 0 <= k < |pieces|
        ensures pieces[k] == []
      {
        assert pieces[k] in pieces;
      }
    } else {
      var p := NonEmpty(pieces)[0];
      assert p in pieces;
    }
  }

  /** What a call leaves: the pieces or the exception, and the counter array after it. */
  datatype Rendered<T> = Rendered(out: Result<T, Error>, stack: seq<int>)

  /**
   * The prefix of a rich-text block and the counters after it: a numbered
   * item counts itself at its level and prints that count, which raises
   * IndexError past the end of the array.
   */
  function Head(kind: string, level: nat, stack: seq<int>): Rendered<string>
    requires IsRichTextBlock(kind)
  {
    if kind == "numbered_list_item" then
      if level >= |stack| then Rendered(Err(IndexError), stack)
      else Rendered(Ok(Indent(level) + IntToString(stack[level] + 1) + ". "), stack[level := stack[level] + 1])
    else Rendered(Ok(Prefix(kind, level)), stack)
  }

  /** The counter of a level set back to 0 before its list starts, if the array reaches that level. */
  function Restart(stack: seq<int>, level: nat): (r: seq<int>)
    ensures |r| == |stack|
    ensures forall k :: 0 <= k < |r| ==> r[k] == if k == level then 0 else stack[k]
  {
    if level < |stack| then stack[level := 0] else stack
  }

  /**
   * One block's pieces. A block of a type without rich text gives nothing
   * and leaves the counters alone, children included. A numbered item first
   * counts itself at its level (an IndexError past the array); the object
   * under the type and its `rich_text` key must exist (KeyError). With
   * children the counter one level down restarts at 0, if there is one,
   * and the children's Markdown is a piece of its own.
   */
  function RenderBlock(b: Block, level: nat, stack: seq<int>): Rendered<seq<string>>
    decreases b, 1
  {
    if !IsRichTextBlock(b.kind) then Rendered(Ok([]), stack)
    else
      var head := Head(b.kind, level, stack);
      if head.out.Err? then Rendered(Err(head.out.error), head.stack)
      else if b.payload.None? || b.payload.value.richText.None? then Rendered(Err(KeyError), head.stack)
      else
        var line := Line(head.out.value, b.payload.value.richText.value);
        if b.hasChildren && b.childrenKey then
          var child := RenderList(b.children, level + 1, Restart(head.stack, level + 1));
          if child.out.Err? then Rendered(Err(child.out.error), child.stack)
          else Rendered(Ok([line, child.out.value]), child.stack)
        else Rendered(Ok([line]), head.stack)
  }

  /** The pieces of a list of sibling blocks, which share the counters. */
  function RenderPieces(blocks: seq<Block>, level: nat, stack: seq<int>): Rendered<seq<string>>
    decreases blocks, 0
  {
    if blocks == [] then Rendered(Ok([]), stack)
    else
      var init := RenderPieces(blocks[..|blocks| - 1], level, stack);
      if init.out.Err? then init
      else
        var last := RenderBlock(blocks[|blocks| - 1], level, init.stack);
        if last.out.Err? then Rendered(Err(last.out.error), last.stack)
        else Rendered(Ok(init.out.value + last.out.value), last.stack)
  }

  /** `blocks_to_markdown(blocks, level, number_stack)`: the list's pieces, joined. */
  function RenderList(blocks: seq<Block>, level: nat, stack: seq<int>): Rendered<string>
    decreases blocks, 1
  {
    var r := RenderPieces(blocks, level, stack);
    if r.out.Err? then Rendered(Err(r.out.error), r.stack) else Rendered(Ok(JoinLines(r.out.value)), r.stack)
  }

  /** The ten zeroed counters of a top-level call. */
  function Zeros(n: nat): (z: seq<int>)
    ensures |z| == n && forall k :: 0 <= k < n ==> z[k] == 0
  {
    seq(n, _ => 0)
  }

  /** The numbered items among a list of siblings. */
  function CountNumbered(blocks: seq<Block>): nat {
    if blocks == [] then 0
    else CountNumbered(blocks[..|blocks| - 1]) + (if blocks[|blocks| - 1].kind == "numbered_list_item" then 1 else 0)
  }

  /**
   * A block changes no counter of a level above its own, and the array
   * keeps its length.
   */
  lemma {:induction false} BlockKeepsOuterCounters(b: Block, level: nat, stack: seq<int>)
    ensures |RenderBlock(b, level, stack).stack| == |stack|
    ensures forall k :: 0 <= k < level && k < |stack| ==> RenderBlock(b, level, stack).stack[k] == stack[k]
    decreases b, 1
  {
    if IsRichTextBlock(b.kind) {
      var head := Head(b.kind, level, stack);
      if head.out.Ok? && b.payload.Some? && b.payload.value.richText.Some? && b.hasChildren && b.childrenKey {
        ListKeepsOuterCounters(b.children, level + 1, Restart(head.stack, level + 1));
      }
    }
  }

  /** A list of siblings changes no counter of a level above its own. */
  lemma {:induction false} ListKeepsOuterCounters(blocks: seq<Block>, level: nat, stack: seq<int>)
    ensures |RenderPieces(blocks, level, stack).stack| == |stack|
    ensures forall k :: 0 <= k < level && k < |stack| ==> RenderPieces(blocks, level, stack).stack[k] == stack[k]
    decreases blocks, 0
  {
    if blocks != [] {
      ListKeepsOuterCounters(blocks[..|blocks| - 1], level, stack);
      var init := RenderPieces(blocks[..|blocks| - 1], level, stack);
      if init.out.Ok? {
        BlockKeepsOuterCounters(blocks[|blocks| - 1], level, init.stack);
      }
    }
  }

  /**
   * A block that renders without error adds one to the counter of its own
   * level if it is a numbered item and leaves that counter alone otherwise:
   * its children count one level down.
   */
  lemma BlockCounts(b: Block, level: nat, stack: seq<int>)
    requires level < |stack|
    ensures |RenderBlock(b, level, stack).stack| == |stack|
    ensures var r := RenderBlock(b, level, stack);
      r.out.Ok? ==> r.stack[level] == stack[level] + (if b.kind == "numbered_list_item" then 1 else 0)
  {
    BlockKeepsOuterCounters(b, level, stack);
    if IsRichTextBlock(b.kind) {
      var head := Head(b.kind, level, stack);
      if head.out.Ok? && b.payload.Some? && b.payload.value.richText.Some? && b.hasChildren && b.childrenKey {
        ListKeepsOuterCounters(b.children, level + 1, Restart(head.stack, level + 1));
      }
    }
  }

  /**
   * Siblings share one counter: after a list renders without error, the
   * counter of its level has grown by the number of numbered items in it,
   * whatever other blocks stand between them.
   */
  lemma {:induction false} ListCounts(blocks: seq<Block>, level: nat, stack: seq<int>)
    requires level < |stack|
    ensures |RenderPieces(blocks, level, stack).stack| == |stack|
    ensures var r := RenderPieces(blocks, level, stack);
      r.out.Ok? ==> r.stack[level] == stack[level] + CountNumbered(blocks)
    decreases |blocks|
  {
    ListKeepsOuterCounters(blocks, level, stack);
    if blocks != [] {
      ListCounts(blocks[..|blocks| - 1], level, stack);
      ListKeepsOuterCounters(blocks[..|blocks| - 1], level, stack);
      var init := RenderPieces(blocks[..|blocks| - 1], level, stack);
      if init.out.Ok? {
        BlockCounts(blocks[|blocks| - 1], level, init.stack);
      }
    }
  }

  /**
   * A numbered item prints the number it counted: its level's counter plus
   * one, after the indentation and before a dot and a space.
   */
  lemma NumberedLine(b: Block, level: nat, stack: seq<int>)
    requires b.kind == "numbered_list_item" && level < |stack|
    ensures var r := RenderBlock(b, level, stack);
      r.out.Ok? ==> (|r.out.value| >= 1 &&
        r.out.value[0] == Line(Indent(level) + IntToString(stack[level] + 1) + ". ", b.payload.value.richText.value))
  {
  }

  /**
   * The children of a block that has a counter one level down are numbered
   * afresh: after them that counter holds exactly the number of numbered
   * children, whatever it held before.
   */
  lemma ChildCounterRestarts(b: Block, level: nat, stack: seq<int>)
    requires IsRichTextBlock(b.kind) && b.hasChildren && b.childrenKey && level + 1 < |stack|
    ensures |RenderBlock(b, level, stack).stack| == |stack|
    ensures var r := RenderBlock(b, level, stack);
      r.out.Ok? ==> r.stack[level + 1] == CountNumbered(b.children)
  {
    BlockKeepsOuterCounters(b, level, stack);
    var head := Head(b.kind, level, stack);
    if head.out.Ok? && b.payload.Some? && b.payload.value.richText.Some? {
      ListCounts(b.children, level + 1, Restart(head.stack, level + 1));
    }
  }

  /** A block of a type without rich text adds nothing, not even its children, and counts nothing. */
  lemma NonRichBlockSilent(b: Block, level: nat, stack: seq<int>)
    requires !IsRichTextBlock(b.kind)
    ensures RenderBlock(b, level, stack) == Rendered(Ok([]), stack)
  {
  }

  /**
   * The exceptions: a numbered item past the counter array raises
   * IndexError; a rich-text block without its object or its `rich_text`
   * raises KeyError.
   */
  lemma BlockErrors(b: Block, level: nat, stack: seq<int>)
    requires IsRichTextBlock(b.kind)
    ensures b.kind == "numbered_list_item" && level >= |stack| ==> RenderBlock(b, level, stack).out == Err(IndexError)
    ensures !(b.kind == "numbered_list_item" && level >= |stack|) && (b.payload.None? || b.payload.value.richText.None?)
      ==> RenderBlock(b, level, stack).out == Err(KeyError)
  {
  }

  /** The pieces of `i + 1` siblings, from those of the first `i`. */
  lemma RenderPiecesSnoc(blocks: seq<Block>, i: nat, level: nat, stack: seq<int>)
    requires i < |blocks|
    ensures var init := RenderPieces(blocks[..i], level, stack);
      RenderPieces(blocks[..i + 1], level, stack) ==
        if init.out.Err? then init
        else
          var last := RenderBlock(blocks[i], level, init.stack);
          if last.out.Err? then Rendered(Err(last.out.error), last.stack)
          else Rendered(Ok(init.out.value + last.out.value), last.stack)
  {
    assert blocks[..i + 1][..i] == blocks[..i];
  }

  lemma LineSnoc(prefix: string, rs: seq<RichText>, i: nat)
    requires i < |rs|
    ensures Line(prefix, rs[..i + 1]) == Line(prefix, rs[..i]) + Inline(rs[i])
  {
    assert rs[..i + 1][..i] == rs[..i];
  }

  /** The marks added to an item's text, one flag after the other. */
  method AddMarks(a: Annotations, t: string) returns (text: string)
    ensures text == Wrap(a, t)
  {
    text := t;
    if a.code {
      text := "`" + text + "`";
    }
    assert text == Around(a.code, "`", t);
    ghost var t1 := text;
    if a.bold {
      text := "**" + text + "**";
    }
    assert text == Around(a.bold, "**", t1);
    ghost var t2 := text;
    if a.italic {
      text := "*" + text + "*";
    }
    assert text == Around(a.italic, "*", t2);
    ghost var t3 := text;
    if a.strikethrough {
      text := "~~" + text + "~~";
    }
    assert text == Around(a.strikethrough, "~~", t3);
    ghost var t4 := text;
    if a.underline {
      text := "__" + text + "__";
    }
    assert text == Around(a.underline, "__", t4);
  }

  /** The inner loop: the items of a block appended to its prefix. */
  method AppendItems(prefix: string, rs: seq<RichText>) returns (content: string)
    ensures content == Line(prefix, rs)
  {
    content := prefix;
    for i := 0 to |rs|
      invariant content == Line(prefix, rs[..i])
    {
      LineSnoc(prefix, rs, i);
      var text := AddMarks(rs[i].annotations, Body(rs[i]));
      content := content + text;
    }
    assert rs[..|rs|] == rs;
  }

  /** One block of the loop in `blocks_to_markdown`, on the shared counter array. */
  method MarkdownOfBlock(b: Block, level: nat, stack: array<int>) returns (r: Result<seq<string>, Error>)
    modifies stack
    ensures Rendered(r, stack[..]) == RenderBlock(b, level, old(stack[..]))
    decreases b, 1
  {
    if !IsRichTextBlock(b.kind) {
      return Ok([]);
    }
    var prefix := HeadOf(b.kind, level, stack);
    if prefix.Err? {
      return Err(prefix.error);
    }
    if b.payload.None? || b.payload.value.richText.None? {
      return Err(KeyError);
    }
    var line := AppendItems(prefix.value, b.payload.value.richText.value);
    if b.hasChildren && b.childrenKey {
      if level + 1 < stack.Length {
        stack[level + 1] := 0;
      }
      var child := MarkdownOf(b.children, level + 1, stack);
      if child.Err? {
        return Err(child.error);
      }
      return Ok([line, child.value]);
    }
    return Ok([line]);
  }

  /** The prefix of a rich-text block, counting a numbered item on the shared array. */
  method HeadOf(kind: string, level: nat, stack: array<int>) returns (r: Result<string, Error>)
    requires IsRichTextBlock(kind)
    modifies stack
    ensures Rendered(r, stack[..]) == Head(kind, level, old(stack[..]))
  {
    if kind == "numbered_list_item" {
      if level >= stack.Length {
        return Err(IndexError);
      }
      stack[level] := stack[level] + 1;
      return Ok(Indent(level) + IntToString(stack[level]) + ". ");
    }
    return Ok(Prefix(kind, level));
  }

  /** `blocks_to_markdown(blocks, level, number_stack)` on a caller's counter array. */
  method MarkdownOf(blocks: seq<Block>, level: nat, stack: array<int>) returns (r: Result<string, Error>)
    modifies stack
    ensures Rendered(r, stack[..]) == RenderList(blocks, level, old(stack[..]))
    decreases blocks, 1
  {
    var pieces: seq<string> := [];
    ghost var start := stack[..];
    for i := 0 to |blocks|
      invariant RenderPieces(blocks[..i], level, start) == Rendered(Ok(pieces), stack[..])
    {
      RenderPiecesSnoc(blocks, i, level, start);
      var more := MarkdownOfBlock(blocks[i], level, stack);
      if more.Err? {
        assert RenderPieces(blocks[..i + 1], level, start) == Rendered(Err(more.error), stack[..]);
        PrefixErrorStays(blocks, i + 1, level, start);
        return Err(more.error);
      }
      pieces := pieces + more.value;
    }
    assert blocks[..|blocks|] == blocks;
    return Ok(JoinLines(pieces));
  }

  /** Once a prefix of the siblings raises, the whole list raises the same, with the same counters. */
  lemma {:induction false} PrefixErrorStays(blocks: seq<Block>, i: nat, level: nat, stack: seq<int>)
    requires i <= |blocks| && RenderPieces(blocks[..i], level, stack).out.Err?
    ensures RenderPieces(blocks, level, stack) == RenderPieces(blocks[..i], level, stack)
    decreases |blocks| - i
  {
    if i < |blocks| {
      RenderPiecesSnoc(blocks, i, level, stack);
      PrefixErrorStays(blocks, i + 1, level, stack);
    } else {
      assert blocks[..i] == blocks;
    }
  }

  /** `blocks_to_markdown(blocks)`: ten fresh counters, rendering from level 0. */
  method BlocksToMarkdown(blocks: seq<Block>) returns (r: Result<string, Error>)
    ensures r == RenderList(blocks, 0, Zeros(10)).out
  {
    var stack := new int[10](_ => 0);
    assert stack[..] == Zeros(10);
    r := MarkdownOf(blocks, 0, stack);
  }

  /** A numbered item at the eleventh level of a top-level call runs past the ten counters. */
  lemma TenLevels(b: Block, stack: seq<int>)
    requires b.kind == "numbered_list_item" && |stack| == 10
    ensures RenderBlock(b, 10, stack).out == Err(IndexError)
  {
  }

  /** A plain text item holding `t`. */
  function PlainItem(t: string): RichText {
    Text(t, None, t, DefaultAnnotations, None)
  }

  /** A block without children holding one plain item. */
  function Leaf(kind: string, t: string): Block {
    Block("", kind, Some(Payload(Some([PlainItem(t)]), None)), false, false, [])
  }

  /** A single numbered child one level in is numbered 1 after the restart. */
  lemma NestedChild(child: seq<Block>, st: seq<int>)
    requires child == [Leaf("numbered_list_item", "c")] && |st| == 10
    ensures RenderList(child, 1, Restart(st, 1)) == Rendered(Ok("  1. c"), st[1 := 1])
  {
    assert Restart(st, 1)[1] == 0;
    assert Indent(1) + IntToString(0 + 1) + ". " == "  1. ";
    assert Restart(st, 1)[1 := 1] == st[1 := 1];
    assert Head("numbered_list_item", 1, Restart(st, 1)) == Rendered(Ok("  1. "), st[1 := 1]);
    assert Line("  1. ", [PlainItem("c")]) == "  1. c";
    assert RenderBlock(child[0], 1, Restart(st, 1)) == Rendered(Ok(["  1. c"]), st[1 := 1]);
    assert child[..0] == [];
    assert [] + ["  1. c"] == ["  1. c"];
    assert RenderPieces(child, 1, Restart(st, 1)) == Rendered(Ok(["  1. c"]), st[1 := 1]);
    assert NonEmpty(["  1. c"]) == ["  1. c"];
  }

  /** A numbered item, then a paragraph, from fresh counters. */
  lemma NumberedThenParagraph(blocks: seq<Block>, z: seq<int>)
    requires blocks == [Leaf("numbered_list_item", "a"), Leaf("paragraph", "p")] && z == Zeros(10)
    ensures RenderPieces(blocks, 0, z) == Rendered(Ok(["1. a", "p"]), z[0 := 1])
  {
    assert z[0] == 0;
    assert Indent(0) + IntToString(0 + 1) + ". " == "1. ";
    assert Head("numbered_list_item", 0, z) == Rendered(Ok("1. "), z[0 := 1]);
    assert Line("1. ", [PlainItem("a")]) == "1. a";
    assert RenderBlock(blocks[0], 0, z) == Rendered(Ok(["1. a"]), z[0 := 1]);
    assert Line("", [PlainItem("p")]) == "p";
    assert RenderBlock(blocks[1], 0, z[0 := 1]) == Rendered(Ok(["p"]), z[0 := 1]);
    var first := blocks[..1];
    assert first[..0] == [] && first[0] == blocks[0];
    assert RenderPieces(first[..0], 0, z) == Rendered(Ok([]), z);
    assert [] + ["1. a"] == ["1. a"];
    assert RenderPieces(first, 0, z) == Rendered(Ok(["1. a"]), z[0 := 1]);
    assert blocks[..|blocks| - 1] == first;
    assert ["1. a"] + ["p"] == ["1. a", "p"];
  }

  /** The second numbered item continues the count and carries its child. */
  lemma SecondNumbered(b: Block, st: seq<int>)
    requires b == Block("", "numbered_list_item", Some(Payload(Some([PlainItem("b")]), None)), true, true,
        [Leaf("numbered_list_item", "c")])
    requires |st| == 10 && st[0] == 1
    ensures RenderBlock(b, 0, st) == Rendered(Ok(["2. b", "  1. c"]), st[0 := 2][1 := 1])
  {
    assert Indent(0) + IntToString(1 + 1) + ". " == "2. ";
    assert Head("numbered_list_item", 0, st) == Rendered(Ok("2. "), st[0 := 2]);
    assert Line("2. ", [PlainItem("b")]) == "2. b";
    NestedChild(b.children, st[0 := 2]);
  }

  /** The four lines of the nested example, none empty, joined by newlines. */
  lemma NestedLines(pieces: seq<string>)
    requires pieces == ["1. a", "p", "2. b", "  1. c"]
    ensures JoinLines(pieces) == "1. a\np\n2. b\n  1. c"
  {
    assert pieces[1..][1..][1..][1..] == [];
    assert NonEmpty(pieces[1..][1..][1..]) == ["  1. c"];
    assert NonEmpty(pieces[1..][1..]) == ["2. b", "  1. c"];
    assert NonEmpty(pieces[1..]) == ["p", "2. b", "  1. c"];
    assert NonEmpty(pieces) == pieces;
    assert Join("\n", ["2. b", "  1. c"]) == "2. b\n  1. c";
    assert Join("\n", ["p", "2. b", "  1. c"]) == "p\n2. b\n  1. c";
  }

  /**
   * A paragraph between two numbered items does not restart their count,
   * and the children of the second item are numbered from 1 one level in.
   */
  lemma NestedNumbering(blocks: seq<Block>)
    requires blocks == [Leaf("numbered_list_item", "a"), Leaf("paragraph", "p"),
      Block("", "numbered_list_item", Some(Payload(Some([PlainItem("b")]), None)), true, true,
        [Leaf("numbered_list_item", "c")])]
    ensures RenderList(blocks, 0, Zeros(10)).out == Ok("1. a\np\n2. b\n  1. c")
  {
    var z := Zeros(10);
    NumberedThenParagraph(blocks[..2], z);
    assert blocks[..3] == blocks;
    SecondNumbered(blocks[2], z[0 := 1]);
    var pieces := ["1. a", "p"] + ["2. b", "  1. c"];
    assert RenderPieces(blocks, 0, z).out == Ok(pieces);
    NestedLines(pieces);
  }
}
