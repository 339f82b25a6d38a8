/**
 * The Up renderer (`UpHTMLVisitor`): a pre-order walk of the parsed document
 * that appends cmark-gfm style HTML to an output string. The walker's state
 * is an `UpState`; everything the renderer asks of the outside world arrives
 * in an `Env`.
 */
module UpVisitor {
  import opened Wrappers
  import opened Markup
  import opened Strings
  import opened HtmlEscaping
  import SlugGenerator
  import opened UpAlerts
  import UpLists
  import CodeHighlighting

  /**
   * The renderer's outside world: the parser library's `plainText` and aside
   * recogniser, the syntax highlighter (asked only when there is a language),
   * the bundled alert icons, the document's base URL and the optional
   * image-source resolver.
   */
  datatype Env = Env(
    plain: PlainText,
    highlighter: CodeHighlighting.Engine,
    aside: Node -> Option<Aside>,
    icon: AlertCategory -> string,
    baseUrl: Option<string>,
    resolve: Option<(string, string) -> Option<string>>)

  /**
   * The walker's state. `ids` lists the heading `id` attributes written so
   * far, in order: it is read off the output, not kept by the source.
   */
  datatype UpState = UpState(
    out: string,
    tracker: SlugGenerator.Tracker,
    tight: bool,
    aligns: seq<Option<ColumnAlignment>>,
    column: nat,
    inHead: bool,
    ids: seq<string>)

  /** A fresh visitor. */
  const Start := UpState("", SlugGenerator.Fresh, false, [], 0, false, [])

  /** Appends `html` to the output. */
  function Emit(s: UpState, html: string): (r: UpState)
    ensures StartsWith(r.out, s.out) && r == s.(out := r.out)
  {
    assert (s.out + html)[..|s.out|] == s.out;
    s.(out := s.out + html)
  }

  /** Output that grows twice has grown. */
  lemma Chain(a: UpState, b: UpState, c: UpState)
    requires StartsWith(b.out, a.out) && StartsWith(c.out, b.out)
    ensures StartsWith(c.out, a.out)
  {
    assert c.out[..|a.out|] == c.out[..|b.out|][..|a.out|];
  }

  // ----- Sizes, for termination -----

  function Size(n: Node): nat
    decreases n
  {
    1 + SizeAll(n.children)
  }

  function SizeAll(ns: seq<Node>): nat
    decreases ns
  {
    if ns == [] then 0 else Size(ns[0]) + SizeAll(ns[1..])
  }

  lemma {:induction false} SizeAllSuffix(ns: seq<Node>, k: nat)
    requires k <= |ns|
    ensures SizeAll(ns[k..]) <= SizeAll(ns)
    decreases k
  {
    if k > 0 {
      SizeAllSuffix(ns[1..], k - 1);
      assert ns[1..][k - 1..] == ns[k..];
    }
  }

  /** The inlines of a quote's first child, from `k` on, are smaller than the quote. */
  lemma FirstChildInlines(n: Node, k: nat)
    requires n.children != [] && k <= |n.children[0].children|
    ensures SizeAll(n.children[0].children[k..]) < Size(n)
    ensures SizeAll(n.children[1..]) < Size(n)
  {
    SizeAllSuffix(n.children[0].children, k);
    assert SizeAll(n.children) == Size(n.children[0]) + SizeAll(n.children[1..]);
    assert Size(n.children[0]) == 1 + SizeAll(n.children[0].children);
  }

  /**
   * The aside recogniser hands back content taken from the quote it was
   * given, with the tag removed: never more nodes than the quote has.
   */
  ghost predicate AsidesShrink(env: Env) {
    forall m :: env.aside(m).Some? ==> SizeAll(env.aside(m).value.content) < Size(m)
  }

  // ----- Leaves -----

  /** `codeBlock.language`, with an empty language read as none. */
  function CodeLanguage(language: Option<string>): (r: Option<string>)
    ensures r.Some? <==> language.Some? && language.value != ""
    ensures r.Some? ==> r == language
  {
    if language.Some? && language.value != "" then language else None
  }

  /** The highlighter, asked with the language left after dropping an empty one. */
  function Highlight(env: Env, code: string, lang: Option<string>): (r: Option<string>)
    ensures lang.None? ==> r.None?
  {
    CodeHighlighting.Highlight(env.highlighter, code, lang)
  }

  /** The text inside `<code>`: highlighted HTML, or the escaped code. */
  function CodeBody(env: Env, code: string, lang: Option<string>): (r: string)
    ensures Highlight(env, code, lang).None? ==> Unescape(r) == code
    ensures Highlight(env, code, lang).Some? ==> r == Highlight(env, code, lang).value
  {
    match Highlight(env, code, lang)
    case Some(html) => html
    case None => UnescapeEscape(code); Escape(code)
  }

  function CodeBlockHtml(env: Env, language: Option<string>, code: string): string {
    var lang := CodeLanguage(language);
    (if lang.Some? then "<pre><code class=\"language-" + Escape(lang.value) + "\">" else "<pre><code>")
    + CodeBody(env, code, lang) + "</code></pre>\n"
  }

  /** ` title="…"` for a present, non-empty title; nothing otherwise. */
  function TitleAttr(title: Option<string>): (r: string)
    ensures r == "" <==> title.None? || title.value == ""
  {
    if title.Some? && title.value != "" then " title=\"" + Escape(title.value) + "\"" else ""
  }

  /** The image source: the resolver's answer when there is a base URL, a resolver, and an answer. */
  function ImageSrc(env: Env, source: Option<string>): (r: string)
    ensures env.baseUrl.Some? && env.resolve.Some? && env.resolve.value(source.GetOr(""), env.baseUrl.value).Some?
      ==> r == env.resolve.value(source.GetOr(""), env.baseUrl.value).value
    ensures !(env.baseUrl.Some? && env.resolve.Some? && env.resolve.value(source.GetOr(""), env.baseUrl.value).Some?)
      ==> r == source.GetOr("")
  {
    var src := source.GetOr("");
    if env.baseUrl.Some? && env.resolve.Some? then env.resolve.value(src, env.baseUrl.value).GetOr(src) else src
  }

  function ImageHtml(env: Env, n: Node): string
    requires n.kind.Image?
  {
    "<img src=\"" + Escape(ImageSrc(env, n.kind.source)) + "\""
    + " alt=\"" + Escape(env.plain(n)) + "\""
    + TitleAttr(n.kind.title) + " />"
  }

  /** The kinds whose visitor does not descend into children. */
  predicate IsLeaf(k: Kind) {
    k.CodeBlock? || k.HtmlBlock? || k.ThematicBreak? || k.Image? || k.Text?
    || k.InlineCode? || k.InlineHtml? || k.LineBreak? || k.SoftBreak?
  }

  function LeafHtml(env: Env, n: Node): string
    requires IsLeaf(n.kind)
  {
    match n.kind
    case CodeBlock(language, code) => CodeBlockHtml(env, language, code)
    case HtmlBlock(raw) => raw
    case ThematicBreak => "<hr />\n"
    case Image(_, _) => ImageHtml(env, n)
    case Text(text) => Escape(text)
    case InlineCode(code) => "<code>" + Escape(code) + "</code>"
    case InlineHtml(raw) => raw
    case LineBreak => "<br />\n"
    case SoftBreak => "\n"
  }

  // ----- Containers -----

  function CheckboxHtml(checkbox: Option<Checkbox>): string {
    match checkbox
    case None => ""
    case Some(Checked) => "<input type=\"checkbox\" disabled=\"\" checked=\"\" /> "
    case Some(Unchecked) => "<input type=\"checkbox\" disabled=\"\" /> "
  }

  function AlignName(a: ColumnAlignment): string {
    match a
    case AlignLeft => "left"
    case AlignCenter => "center"
    case AlignRight => "right"
  }

  /** `th` inside the table head, `td` elsewhere. */
  function CellTag(s: UpState): string {
    if s.inHead then "th" else "td"
  }

  /** The cell's alignment: the table's alignment at the current column, if any. */
  function CellAlignment(s: UpState): Option<ColumnAlignment> {
    if s.column < |s.aligns| then s.aligns[s.column] else None
  }

  /** The opening cell tag, with `align` exactly when the column has an alignment. */
  function CellOpen(s: UpState): (r: string)
    ensures CellAlignment(s).None? ==> r == "<" + CellTag(s) + ">"
    ensures CellAlignment(s).Some? ==> r == "<" + CellTag(s) + " align=\"" + AlignName(CellAlignment(s).value) + "\">"
  {
    match CellAlignment(s)
    case None => "<" + CellTag(s) + ">"
    case Some(a) => "<" + CellTag(s) + " align=\"" + AlignName(a) + "\">"
  }

  predicate IsList(k: Kind) {
    k.OrderedList? || k.UnorderedList?
  }

  /** Paragraphs directly inside an item of a tight list are written without `<p>`. */
  predicate BareParagraph(s: UpState, parentIsItem: bool) {
    s.tight && parentIsItem
  }

  /** What a container writes and sets before its children. */
  function Open(n: Node, parentIsItem: bool, s: UpState): (r: UpState)
    requires !IsLeaf(n.kind) && !n.kind.BlockQuote? && !n.kind.Heading?
    ensures StartsWith(r.out, s.out) && r.tracker == s.tracker && r.ids == s.ids
    ensures !IsList(n.kind) ==> r.tight == s.tight
    ensures IsList(n.kind) ==> r.tight == !UpLists.IsLoose(n)
    ensures !IsList(n.kind) && !n.kind.Table? && !n.kind.TableHead? && !n.kind.TableRow? ==> r == s.(out := r.out)
  {
    match n.kind
    case OrderedList(start) =>
      Emit(s.(tight := !UpLists.IsLoose(n)),
        if start != 1 then "<ol start=\"" + NatToString(start) + "\">\n" else "<ol>\n")
    case UnorderedList => Emit(s.(tight := !UpLists.IsLoose(n)), "<ul>\n")
    case ListItem(checkbox) => Emit(s, (if s.tight then "<li>" else "<li>\n") + CheckboxHtml(checkbox))
    case Paragraph => if BareParagraph(s, parentIsItem) then s else Emit(s, "<p>")
    case Table(aligns) => Emit(s.(aligns := aligns), "<table>\n")
    case TableHead => Emit(s.(inHead := true, column := 0), "<thead>\n<tr>\n")
    case TableBody => Emit(s, "<tbody>\n")
    case TableRow => Emit(s.(column := 0), "<tr>\n")
    case TableCell => Emit(s, CellOpen(s))
    case Emphasis => Emit(s, "<em>")
    case Strong => Emit(s, "<strong>")
    case Strikethrough => Emit(s, "<del>")
    case Link(destination, title) => Emit(s, "<a href=\"" + Escape(destination.GetOr("")) + "\"" + TitleAttr(title) + ">")
    case _ => s
  }

  /** What a container writes and restores after its children; `s` is the state before it opened. */
  function Close(n: Node, parentIsItem: bool, s: UpState, inner: UpState): (r: UpState)
    requires !IsLeaf(n.kind) && !n.kind.BlockQuote? && !n.kind.Heading?
    ensures StartsWith(r.out, inner.out) && r.tracker == inner.tracker && r.ids == inner.ids
    ensures r.tight == if IsList(n.kind) then s.tight else inner.tight
    ensures !IsList(n.kind) && !n.kind.Table? && !n.kind.TableHead? && !n.kind.TableCell? ==> r == inner.(out := r.out)
  {
    match n.kind
    case OrderedList(_) => Emit(inner.(tight := s.tight), "</ol>\n")
    case UnorderedList => Emit(inner.(tight := s.tight), "</ul>\n")
    case ListItem(_) => Emit(inner, "</li>\n")
    case Paragraph => Emit(inner, if BareParagraph(s, parentIsItem) then "\n" else "</p>\n")
    case Table(_) => Emit(inner.(aligns := []), "</table>\n")
    case TableHead => Emit(inner.(inHead := false), "</tr>\n</thead>\n")
    case TableBody => Emit(inner, "</tbody>\n")
    case TableRow => Emit(inner, "</tr>\n")
    case TableCell => Emit(inner.(column := inner.column + 1), "</" + CellTag(s) + ">\n")
    case Emphasis => Emit(inner, "</em>")
    case Strong => Emit(inner, "</strong>")
    case Strikethrough => Emit(inner, "</del>")
    case Link(_, _) => Emit(inner, "</a>")
    case _ => inner
  }

  // ----- Alerts -----

  function AlertOpen(c: AlertCategory): string {
    "<blockquote class=\"alert " + CssClass(c) + "\">\n"
  }

  function AlertTitle(env: Env, c: AlertCategory, title: string): string {
    "<p class=\"alert-title\">" + env.icon(c) + Escape(title) + "</p>\n"
  }

  function StatusTitle(env: Env, value: string): string {
    "<p class=\"alert-title\">" + env.icon(StatusAlert) + "Status: <strong>" + Escape(value) + "</strong></p>\n"
  }

  /** Past the first inline, a directly following soft break is skipped too. */
  function SkipBreak(inlines: seq<Node>): (i: nat)
    requires inlines != []
    ensures 1 <= i <= |inlines|
  {
    if |inlines| > 1 && inlines[1].kind.SoftBreak? then 2 else 1
  }

  // ----- The walk -----

  /** `visit(_:)`. The output only grows, and list tightness is as it was before. */
  function Visit(env: Env, n: Node, parentIsItem: bool, s: UpState): (r: UpState)
    requires AsidesShrink(env)
    ensures StartsWith(r.out, s.out)
    ensures r.tight == s.tight
    decreases Size(n), 4
  {
    if n.kind.BlockQuote? then VisitQuote(env, n, s)
    else if n.kind.Heading? then VisitHeading(env, n, s)
    else if IsLeaf(n.kind) then Emit(s, LeafHtml(env, n))
    else if n.kind.TableBody? && n.children == [] then s
    else
      var entered := Open(n, parentIsItem, s);
      var inner := VisitAll(env, n.children, n.kind.ListItem?, entered);
      var r := Close(n, parentIsItem, s, inner);
      Chain(s, entered, inner);
      Chain(s, inner, r);
      r
  }

  /** `descendInto(_:)`: the children in order. */
  function VisitAll(env: Env, ns: seq<Node>, parentIsItem: bool, s: UpState): (r: UpState)
    requires AsidesShrink(env)
    ensures StartsWith(r.out, s.out)
    ensures r.tight == s.tight
    decreases SizeAll(ns), 5
  {
    if ns == [] then s
    else
      var first := Visit(env, ns[0], parentIsItem, s);
      var r := VisitAll(env, ns[1..], parentIsItem, first);
      Chain(s, first, r);
      r
  }

  /** `visitHeading`: the next slug of the heading's plain text becomes its `id`. */
  function VisitHeading(env: Env, n: Node, s: UpState): (r: UpState)
    requires AsidesShrink(env) && n.kind.Heading?
    ensures StartsWith(r.out, s.out)
    ensures r.tight == s.tight
    decreases Size(n), 3
  {
    var level := NatToString(n.kind.level);
    var next := SlugGenerator.SlugFor(s.tracker, env.plain(n));
    var entered := Emit(s.(tracker := next.1, ids := s.ids + [next.0]), "<h" + level + " id=\"" + next.0 + "\">");
    var inner := VisitAll(env, n.children, false, entered);
    var r := Emit(inner, "</h" + level + ">\n");
    Chain(s, entered, inner);
    Chain(s, inner, r);
    r
  }

  /** `visitBlockQuote`: GitHub alert, else DocC aside, else status aside, else a plain quote. */
  function VisitQuote(env: Env, n: Node, s: UpState): (r: UpState)
    requires AsidesShrink(env) && n.kind.BlockQuote?
    ensures StartsWith(r.out, s.out)
    ensures r.tight == s.tight
    decreases Size(n), 3
  {
    var body := QuoteBody(env, n, s);
    var r := Emit(body, "</blockquote>\n");
    Chain(s, body, r);
    r
  }

  /** The quote up to its closing tag. */
  function QuoteBody(env: Env, n: Node, s: UpState): (r: UpState)
    requires AsidesShrink(env) && n.kind.BlockQuote?
    ensures StartsWith(r.out, s.out)
    ensures r.tight == s.tight
    decreases Size(n), 2
  {
    match DetectGfm(env.plain, n)
    case Some(c) =>
      var head := Emit(s, AlertOpen(c) + AlertTitle(env, c, Title(c)));
      var r := GfmContent(env, n, c, head);
      Chain(s, head, r);
      r
    case None =>
      match DetectDocC(env.aside(n))
      case Some((c, title, content)) =>
        var head := Emit(s, AlertOpen(c) + AlertTitle(env, c, title));
        var r := VisitAll(env, content, false, head);
        Chain(s, head, r);
        r
      case None =>
        match DetectStatus(n)
        case Some(value) =>
          var head := Emit(s, AlertOpen(StatusAlert) + StatusTitle(env, value));
          var r := StatusContent(env, n, head);
          Chain(s, head, r);
          r
        case None =>
          var head := Emit(s, "<blockquote>\n");
          var r := VisitAll(env, n.children, false, head);
          Chain(s, head, r);
          r
  }

  /**
   * `emitGFMAlertContent`: the first Text of the first paragraph loses the
   * tag and the spaces after it; what is left opens the paragraph.
   */
  function GfmContent(env: Env, n: Node, c: AlertCategory, s: UpState): (r: UpState)
    requires AsidesShrink(env) && n.kind.BlockQuote?
    ensures StartsWith(r.out, s.out)
    ensures r.tight == s.tight
    decreases Size(n), 1
  {
    if n.children == [] || !n.children[0].kind.Paragraph? then s
    else
      var inlines := n.children[0].children;
      if inlines != [] && inlines[0].kind.Text? then
        var after := AfterTag(inlines[0].kind.text, c);
        var head := if after != [] then Emit(s, "<p>" + Escape(after)) else s;
        var r := QuoteRest(env, n, SkipBreak(inlines), after != [], head);
        Chain(s, head, r);
        r
      else QuoteRest(env, n, 0, false, s)
  }

  /** `emitStatusContent`: as an alert, but the whole first Text is dropped. */
  function StatusContent(env: Env, n: Node, s: UpState): (r: UpState)
    requires AsidesShrink(env) && n.kind.BlockQuote?
    ensures StartsWith(r.out, s.out)
    ensures r.tight == s.tight
    decreases Size(n), 1
  {
    if n.children == [] || !n.children[0].kind.Paragraph? then s
    else
      var inlines := n.children[0].children;
      QuoteRest(env, n, if inlines != [] && inlines[0].kind.Text? then SkipBreak(inlines) else 0, false, s)
  }

  /**
   * The rest of a special quote: the first paragraph's inlines from `index`
   * (opening the paragraph if that has not happened), its close, and then the
   * quote's later blocks.
   */
  function QuoteRest(env: Env, n: Node, index: nat, pOpen: bool, s: UpState): (r: UpState)
    requires AsidesShrink(env) && n.children != [] && index <= |n.children[0].children|
    ensures StartsWith(r.out, s.out)
    ensures r.tight == s.tight
    decreases Size(n), 0
  {
    var inlines := n.children[0].children;
    FirstChildInlines(n, index);
    var s1 := InlinesFrom(env, inlines, index, pOpen, s);
    var r := VisitAll(env, n.children[1..], false, s1);
    Chain(s, s1, r);
    r
  }

  /** The first paragraph's inlines from `index`, wrapped in the paragraph when there are any or it is open. */
  function InlinesFrom(env: Env, inlines: seq<Node>, index: nat, pOpen: bool, s: UpState): (r: UpState)
    requires AsidesShrink(env) && index <= |inlines|
    ensures StartsWith(r.out, s.out)
    ensures r.tight == s.tight
    decreases SizeAll(inlines[index..]), 6
  {
    if index < |inlines| then
      var head := if pOpen then s else Emit(s, "<p>");
      var mid := VisitAll(env, inlines[index..], false, head);
      var r := Emit(mid, "</p>\n");
      Chain(s, head, mid);
      Chain(s, mid, r);
      r
    else if pOpen then Emit(s, "</p>\n")
    else s
  }

  /** `renderToHTML`'s walk: a fresh visitor over the document. */
  function Render(env: Env, doc: Node): string
    requires AsidesShrink(env)
  {
    Visit(env, doc, false, Start).out
  }
}
