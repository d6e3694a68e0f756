/**
 * Notion's block and rich-text objects as the converters and serialisers see
 * them, the shared part constructors, and the set of block types that carry
 * rich text.
 */
module Notion {
  import opened Wrappers
  import opened Strings

  /** The formatting flags of a rich-text item. */
  datatype Annotations = Annotations(
    bold: bool, italic: bool, strikethrough: bool, underline: bool, code: bool, color: string)

  /** The `Annotations` dataclass built with no arguments. */
  const DefaultAnnotations: Annotations := Annotations(false, false, false, false, false, "default")

  /** The `link` object of a text item. */
  datatype Link = Link(url: string)

  /**
   * A rich-text item. Every item carries `plain_text`, `annotations` and
   * `href`; `Text` and `Equation` carry the payload of their type, and
   * `Other` stands for every other type (mentions), whose payload no
   * modelled code reads.
   */
  datatype RichText =
    | Text(content: string, link: Option<Link>, plainText: string, annotations: Annotations, href: Option<string>)
    | Equation(expression: string, plainText: string, annotations: Annotations, href: Option<string>)
    | Other(kind: string, plainText: string, annotations: Annotations, href: Option<string>)

  /** The exceptions a malformed block makes the Python code raise. */
  datatype Error = KeyError | IndexError | AttributeError | TypeError

  /**
   * The object stored under a block's type key. `richText` is None when the
   * object has no `rich_text` key; `codeText` is the legacy `text` list of
   * code blocks.
   */
  datatype Payload = Payload(richText: Option<seq<RichText>>, codeText: Option<seq<RichText>>)

  /**
   * A block as read from the API. `payload` is None when the block has no
   * key named after its type; `childrenKey` says whether it has a
   * `children` key, and `children` is that list (empty without the key).
   */
  datatype Block = Block(
    id: string, kind: string, payload: Option<Payload>, hasChildren: bool, childrenKey: bool, children: seq<Block>)

  /**
   * A block the converters rewrite in place: its type and the object stored
   * under that type's key, whose `rich_text` list they overwrite.
   */
  class NotionBlock {
    var kind: string
    var payload: Option<Payload>

    constructor (kind: string, payload: Option<Payload>)
      ensures this.kind == kind && this.payload == payload
    {
      this.kind := kind;
      this.payload := payload;
    }
  }

  /** The block types that hold rich text. */
  const RichTextKinds: set<string> := {
    "paragraph", "heading_1", "heading_2", "heading_3", "bulleted_list_item",
    "numbered_list_item", "to_do", "toggle", "quote", "callout"}

  predicate IsRichTextBlock(kind: string) {
    kind in RichTextKinds
  }

  /**
   * A text part cut from `source`: the new content is both the text and the
   * plain text, the link is dropped, and formatting is copied.
   */
  function CreateTextPart(source: RichText, newContent: string): (r: RichText)
    ensures r.Text? && r.content == newContent && r.plainText == newContent && r.link == None
    ensures r.annotations == source.annotations && r.href == source.href
  {
    Text(newContent, None, newContent, source.annotations, source.href)
  }

  /**
   * An equation part cut from `source`: the expression is the stripped new
   * content, the plain text is the new content as given, formatting is copied.
   */
  function CreateEquationPart(source: RichText, newContent: string): (r: RichText)
    ensures r.Equation? && r.expression == Strip(newContent) && IsStripped(r.expression)
    ensures r.plainText == newContent
    ensures r.annotations == source.annotations && r.href == source.href
  {
    Equation(Strip(newContent), newContent, source.annotations, source.href)
  }

  /**
   * A text part cut from a text item, keeping that item's link. The source
   * reads `rich_text["text"]["link"]`, so it must be a text item.
   */
  function TextToText(source: RichText, newContent: string): (r: RichText)
    requires source.Text?
    ensures r.Text? && r.content == newContent && r.plainText == newContent
    ensures r.link == source.link && r.annotations == source.annotations && r.href == source.href
  {
    Text(newContent, source.link, newContent, source.annotations, source.href)
  }

  /** The two text constructors agree exactly when the source item has no link. */
  lemma TextPartsAgree(source: RichText, newContent: string)
    requires source.Text?
    ensures CreateTextPart(source, newContent) == TextToText(source, newContent) <==> source.link == None
  {
  }
}
