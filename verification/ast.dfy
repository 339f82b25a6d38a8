/**
 * The parsed Markdown tree the renderers walk. The parser itself is not part
 * of this model: a document arrives as a `Node` whose children are in source
 * order and whose source range, when present, is a pair of 1-based
 * line/column locations (columns count UTF-8 bytes).
 */
module Markup {
  import opened Wrappers

  datatype SourceLocation = SourceLocation(line: int, column: int)

  datatype SourceRange = SourceRange(lower: SourceLocation, upper: SourceLocation)

  datatype ColumnAlignment = AlignLeft | AlignCenter | AlignRight

  datatype Checkbox = Checked | Unchecked

  /** The node kinds the renderers distinguish, with the data each carries. */
  datatype Kind =
    | Document
    | BlockQuote
    | OrderedList(startIndex: nat)
    | UnorderedList
    | ListItem(checkbox: Option<Checkbox>)
    | Heading(level: nat)
    | Paragraph
    | CodeBlock(language: Option<string>, code: string)
    | HtmlBlock(rawHtml: string)
    | ThematicBreak
    | Table(columnAlignments: seq<Option<ColumnAlignment>>)
    | TableHead
    | TableBody
    | TableRow
    | TableCell
    | Emphasis
    | Strong
    | Strikethrough
    | Link(destination: Option<string>, title: Option<string>)
    | Image(source: Option<string>, title: Option<string>)
    | Text(text: string)
    | InlineCode(code: string)
    | InlineHtml(rawHtml: string)
    | LineBreak
    | SoftBreak
    | OtherNode  // any other node: the walkers only descend into it

  datatype Node = Node(kind: Kind, range: Option<SourceRange>, children: seq<Node>)

  /**
   * The parser library's `plainText` of a node. Its definition lives in the
   * parser, so the renderers take it as a parameter of this type.
   */
  type PlainText = Node -> string
}
