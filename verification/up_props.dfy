/**
 * What the Up renderer's output looks like for single constructs: table
 * cells and rows, empty table bodies, paragraphs in tight lists, list item
 * openers, code blocks, and the four kinds of block quote.
 */
module UpProperties {
  import opened Wrappers
  import opened Markup
  import opened Strings
  import opened HtmlEscaping
  import opened UpAlerts
  import opened UpVisitor
  import UpLists
  import UpHeadingIds

  /** Inline content: the kinds that appear inside paragraphs and cells, all the way down. */
  ghost predicate Phrasing(n: Node)
    decreases n
  {
    && (n.kind.Text? || n.kind.Emphasis? || n.kind.Strong? || n.kind.Strikethrough? || n.kind.Link?
        || n.kind.Image? || n.kind.InlineCode? || n.kind.InlineHtml? || n.kind.LineBreak? || n.kind.SoftBreak?)
    && forall i :: 0 <= i < |n.children| ==> Phrasing(n.children[i])
  }

  ghost predicate AllPhrasing(ns: seq<Node>) {
    forall i :: 0 <= i < |ns| ==> Phrasing(ns[i])
  }

  /** Only the output differs between `s` and `r`. */
  predicate OnlyOutput(s: UpState, r: UpState) {
    r == s.(out := r.out)
  }

  // ----- Inline content only writes -----

  /** Visiting inline content changes nothing but the output: table column, alignments, tracker and tightness stay. */
  lemma {:induction false} PhrasingOnlyWrites(env: Env, n: Node, p: bool, s: UpState)
    requires AsidesShrink(env) && Phrasing(n)
    ensures OnlyOutput(s, Visit(env, n, p, s))
    decreases Size(n), 0
  {
    if !IsLeaf(n.kind) {
      UpHeadingIds.VisitContainerStep(env, n, p, s);
      var entered := Open(n, p, s);
      assert OnlyOutput(s, entered);
      PhrasingAllOnlyWrite(env, n.children, n.kind.ListItem?, entered);
    }
  }

  lemma {:induction false} PhrasingAllOnlyWrite(env: Env, ns: seq<Node>, p: bool, s: UpState)
    requires AsidesShrink(env) && AllPhrasing(ns)
    ensures OnlyOutput(s, VisitAll(env, ns, p, s))
    decreases SizeAll(ns), 1
  {
    if ns != [] {
      UpHeadingIds.VisitAllStep(env, ns, p, s);
      PhrasingOnlyWrites(env, ns[0], p, s);
      assert AllPhrasing(ns[1..]) by {
        forall i | 0 <= i < |ns[1..]| ensures Phrasing(ns[1..][i]) {
          assert ns[1..][i] == ns[i + 1];
        }
      }
      PhrasingAllOnlyWrite(env, ns[1..], p, Visit(env, ns[0], p, s));
    }
  }

  // ----- Tables -----

  /** A cell of inline content opens with its tag and alignment, and moves on to the next column. */
  lemma CellAdvances(env: Env, n: Node, p: bool, s: UpState)
    requires AsidesShrink(env) && n.kind.TableCell? && AllPhrasing(n.children)
    ensures var r := Visit(env, n, p, s);
      && StartsWith(r.out, s.out + CellOpen(s))
      && r == s.(out := r.out, column := s.column + 1)
  {
    UpHeadingIds.VisitContainerStep(env, n, p, s);
    var entered := Emit(s, CellOpen(s));
    var inner := VisitAll(env, n.children, false, entered);
    PhrasingAllOnlyWrite(env, n.children, false, entered);
    Chain(s.(out := s.out + CellOpen(s)), inner, Visit(env, n, p, s));
  }

  ghost predicate IsCell(n: Node) {
    n.kind.TableCell? && AllPhrasing(n.children)
  }

  /** Each cell of a run moves the column on by one. */
  lemma {:induction false} CellsAdvance(env: Env, cs: seq<Node>, p: bool, s: UpState)
    requires AsidesShrink(env) && forall i :: 0 <= i < |cs| ==> IsCell(cs[i])
    ensures var r := VisitAll(env, cs, p, s);
      r == s.(out := r.out, column := s.column + |cs|)
    decreases |cs|
  {
    if cs != [] {
      UpHeadingIds.VisitAllStep(env, cs, p, s);
      CellAdvances(env, cs[0], p, s);
      CellsAdvance(env, cs[1..], p, Visit(env, cs[0], p, s));
    }
  }

  /** A row restarts at the first column: after it, the column is its number of cells, whatever it was before. */
  lemma RowColumns(env: Env, row: Node, p: bool, s: UpState)
    requires AsidesShrink(env) && row.kind.TableRow?
    requires forall i :: 0 <= i < |row.children| ==> IsCell(row.children[i])
    ensures var r := Visit(env, row, p, s);
      && StartsWith(r.out, s.out + "<tr>\n")
      && r == s.(out := r.out, column := |row.children|)
  {
    UpHeadingIds.VisitContainerStep(env, row, p, s);
    var entered := Emit(s.(column := 0), "<tr>\n");
    CellsAdvance(env, row.children, false, entered);
    Chain(entered, VisitAll(env, row.children, false, entered), Visit(env, row, p, s));
  }

  /** A table body without rows writes nothing at all. */
  lemma EmptyBodySilent(env: Env, range: Option<SourceRange>, p: bool, s: UpState)
    requires AsidesShrink(env)
    ensures Visit(env, Node(TableBody, range, []), p, s) == s
  {
  }

  // ----- Lists and paragraphs -----

  /** Directly in an item of a tight list, a paragraph is its content and a newline, without `<p>`. */
  lemma TightParagraph(env: Env, n: Node, s: UpState)
    requires AsidesShrink(env) && n.kind.Paragraph? && s.tight
    ensures Visit(env, n, true, s).out == VisitAll(env, n.children, false, s).out + "\n"
  {
    UpHeadingIds.VisitContainerStep(env, n, true, s);
  }

  /** Anywhere else a paragraph opens with `<p>` and ends with `</p>`. */
  lemma WrappedParagraph(env: Env, n: Node, parentIsItem: bool, s: UpState)
    requires AsidesShrink(env) && n.kind.Paragraph? && !(s.tight && parentIsItem)
    ensures var r := Visit(env, n, parentIsItem, s);
      StartsWith(r.out, s.out + "<p>") && r.out == VisitAll(env, n.children, false, Emit(s, "<p>")).out + "</p>\n"
  {
    UpHeadingIds.VisitContainerStep(env, n, parentIsItem, s);
    var entered := Emit(s, "<p>");
    Chain(entered, VisitAll(env, n.children, false, entered), Visit(env, n, parentIsItem, s));
  }

  /**
   * A list's items open according to the list's own looseness, not the
   * enclosing one: `<li>` on the same line in a tight list, `<li>` and a
   * newline in a loose one.
   */
  lemma ItemOpensByLooseness(env: Env, list: Node, p: bool, s: UpState)
    requires AsidesShrink(env) && list.kind.UnorderedList?
    requires list.children != [] && list.children[0].kind == ListItem(None)
    ensures var r := Visit(env, list, p, s);
      StartsWith(r.out, s.out + "<ul>\n" + (if UpLists.IsLoose(list) then "<li>\n" else "<li>"))
  {
    UpHeadingIds.VisitContainerStep(env, list, p, s);
    var entered := Open(list, p, s);
    assert entered == s.(tight := !UpLists.IsLoose(list), out := s.out + "<ul>\n");
    UpHeadingIds.VisitAllStep(env, list.children, false, entered);
    var first := Visit(env, list.children[0], false, entered);
    ItemOpens(env, list.children[0], entered);
    var li := entered.(out := entered.out + ItemOpen(entered));
    var rest := VisitAll(env, list.children[1..], false, first);
    Chain(li, first, rest);
    Chain(li, rest, Visit(env, list, p, s));
  }

  /** How an item without a checkbox opens: on the same line in a tight list. */
  function ItemOpen(s: UpState): string {
    if s.tight then "<li>" else "<li>\n"
  }

  lemma ItemOpens(env: Env, item: Node, s: UpState)
    requires AsidesShrink(env) && item.kind == ListItem(None)
    ensures StartsWith(Visit(env, item, false, s).out, s.out + ItemOpen(s))
  {
    UpHeadingIds.VisitContainerStep(env, item, false, s);
    var entered := Emit(s, ItemOpen(s));
    assert Open(item, false, s) == entered by {
      assert ItemOpen(s) + CheckboxHtml(None) == ItemOpen(s);
    }
    var inner := VisitAll(env, item.children, true, entered);
    Chain(entered, inner, Visit(env, item, false, s));
  }

  // ----- Code blocks -----

  /** An empty language is written exactly like no language. */
  lemma EmptyLanguageIsNone(env: Env, code: string)
    ensures CodeBlockHtml(env, Some(""), code) == CodeBlockHtml(env, None, code)
  {
  }

  /** Without a language the block is unhighlighted: the escaped code in a bare `<pre><code>`. */
  lemma PlainCodeBlock(env: Env, code: string)
    ensures CodeBlockHtml(env, None, code) == "<pre><code>" + Escape(code) + "</code></pre>\n"
  {
  }

  /** With a language the class names it, escaped, and the highlighter's answer wins over escaping. */
  lemma HighlightedCodeBlock(env: Env, lang: string, code: string)
    requires lang != "" && env.highlighter(code, lang).Some?
    ensures CodeBlockHtml(env, Some(lang), code)
      == "<pre><code class=\"language-" + Escape(lang) + "\">" + env.highlighter(code, lang).value + "</code></pre>\n"
  {
  }

  // ----- Block quotes -----

  /** How a block quote is written, first match wins. */
  datatype QuoteClass =
    | GfmAlert(category: AlertCategory)
    | DocCAside(category: AlertCategory, title: string)
    | StatusAside(value: string)
    | PlainQuote

  function Classify(env: Env, quote: Node): (r: QuoteClass)
    ensures r.GfmAlert? <==> DetectGfm(env.plain, quote).Some?
    ensures r.DocCAside? ==> DetectDocC(env.aside(quote)).Some?
    ensures r.StatusAside? ==> DetectStatus(quote).Some?
    ensures r.PlainQuote? <==>
      DetectGfm(env.plain, quote).None? && DetectDocC(env.aside(quote)).None? && DetectStatus(quote).None?
  {
    if DetectGfm(env.plain, quote).Some? then GfmAlert(DetectGfm(env.plain, quote).value)
    else if DetectDocC(env.aside(quote)).Some? then
      DocCAside(DetectDocC(env.aside(quote)).value.0, DetectDocC(env.aside(quote)).value.1)
    else if DetectStatus(quote).Some? then StatusAside(DetectStatus(quote).value)
    else PlainQuote
  }

  /** The opening HTML of each class: the alert box and its title, or a plain `<blockquote>`. */
  function QuoteHead(env: Env, c: QuoteClass): string {
    match c
    case GfmAlert(cat) => AlertOpen(cat) + AlertTitle(env, cat, Title(cat))
    case DocCAside(cat, title) => AlertOpen(cat) + AlertTitle(env, cat, title)
    case StatusAside(value) => AlertOpen(StatusAlert) + StatusTitle(env, value)
    case PlainQuote => "<blockquote>\n"
  }

  /** Every block quote opens as its class says and closes with `</blockquote>`. */
  lemma QuoteOpensByClass(env: Env, quote: Node, p: bool, s: UpState)
    requires AsidesShrink(env) && quote.kind.BlockQuote?
    ensures var r := Visit(env, quote, p, s);
      StartsWith(r.out, s.out + QuoteHead(env, Classify(env, quote)))
      && r.out == QuoteBody(env, quote, s).out + "</blockquote>\n"
  {
    UpHeadingIds.VisitQuoteStep(env, quote, p, s);
    var head := s.out + QuoteHead(env, Classify(env, quote));
    var body := QuoteBody(env, quote, s);
    assert StartsWith(body.out, head) by {
      QuoteBodyHead(env, quote, s);
    }
    Chain(s.(out := head), body, Visit(env, quote, p, s));
  }

  lemma QuoteBodyHead(env: Env, quote: Node, s: UpState)
    requires AsidesShrink(env) && quote.kind.BlockQuote?
    ensures StartsWith(QuoteBody(env, quote, s).out, s.out + QuoteHead(env, Classify(env, quote)))
  {
    var head := Emit(s, QuoteHead(env, Classify(env, quote)));
    match Classify(env, quote)
    case GfmAlert(c) =>
      UpHeadingIds.QuoteGfmStep(env, quote, c, s);
    case DocCAside(c, title) =>
      assert QuoteBody(env, quote, s) == VisitAll(env, DetectDocC(env.aside(quote)).value.2, false, head);
    case StatusAside(value) =>
      UpHeadingIds.QuoteStatusStep(env, quote, value, s);
    case PlainQuote =>
      UpHeadingIds.QuotePlainStep(env, quote, s);
  }

  /**
   * In a GitHub alert, the first Text loses its tag and the spaces after it;
   * what remains opens the first paragraph, right after the title.
   */
  lemma GfmTagStripped(env: Env, quote: Node, c: AlertCategory, p: bool, s: UpState)
    requires AsidesShrink(env) && quote.kind.BlockQuote? && DetectGfm(env.plain, quote) == Some(c)
    requires quote.children[0].children != [] && quote.children[0].children[0].kind.Text?
    requires AfterTag(quote.children[0].children[0].kind.text, c) != ""
    ensures StartsWith(Visit(env, quote, p, s).out,
      s.out + AlertOpen(c) + AlertTitle(env, c, Title(c))
      + "<p>" + Escape(AfterTag(quote.children[0].children[0].kind.text, c)))
  {
    var after := AfterTag(quote.children[0].children[0].kind.text, c);
    var title := Emit(s, AlertOpen(c) + AlertTitle(env, c, Title(c)));
    UpHeadingIds.VisitQuoteStep(env, quote, p, s);
    UpHeadingIds.QuoteGfmStep(env, quote, c, s);
    var body := GfmContent(env, quote, c, title);
    GfmContentHead(env, quote, c, title);
    var head := title.(out := title.out + "<p>" + Escape(after));
    Chain(head, body, Visit(env, quote, p, s));
    Assoc(s.out, AlertOpen(c), AlertTitle(env, c, Title(c)));
  }

  lemma Assoc(a: string, b: string, c: string)
    ensures a + (b + c) == a + b + c
  {
  }

  /** The alert content opens with the paragraph holding what is left of the tag's Text. */
  lemma GfmContentHead(env: Env, quote: Node, c: AlertCategory, t: UpState)
    requires AsidesShrink(env) && quote.kind.BlockQuote?
    requires quote.children != [] && quote.children[0].kind.Paragraph?
    requires quote.children[0].children != [] && quote.children[0].children[0].kind.Text?
    requires AfterTag(quote.children[0].children[0].kind.text, c) != ""
    ensures StartsWith(GfmContent(env, quote, c, t).out,
      t.out + "<p>" + Escape(AfterTag(quote.children[0].children[0].kind.text, c)))
  {
    var inlines := quote.children[0].children;
    var after := AfterTag(inlines[0].kind.text, c);
    var head := Emit(t, "<p>" + Escape(after));
    assert GfmContent(env, quote, c, t) == QuoteRest(env, quote, SkipBreak(inlines), true, head);
    Assoc(t.out, "<p>", Escape(after));
  }
}
