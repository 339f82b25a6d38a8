/**
 * `MudCore`: the library's entry points. Each parses the Markdown once and
 * hands the tree to a visitor; the document variants wrap the result in the
 * HTML template. The parser and the services the visitors need from outside
 * arrive together in `Services`.
 */
module MudCore {
  import opened Wrappers
  import opened Strings
  import opened Markup
  import CodeHighlighting
  import UpAlerts
  import UpVisitor
  import UpHeadingIds
  import HeadingExtractor
  import DownTable
  import HtmlTemplate

  const Version := "0.1.0"

  /** The parser and the platform services behind the entry points. */
  datatype Services = Services(
    parse: string -> Node,
    plain: PlainText,
    highlighter: CodeHighlighting.Engine,
    aside: Node -> Option<UpAlerts.Aside>,
    icon: UpAlerts.AlertCategory -> string,
    resources: HtmlTemplate.Resources)

  /** An image-source resolver: the source and the base URL in, a replacement source out. */
  type Resolver = (string, string) -> Option<string>

  /** The Up visitor configured with a base URL and resolver, as `renderToHTML` sets it up. */
  function UpEnv(sv: Services, baseUrl: Option<string>, resolve: Option<Resolver>): (env: UpVisitor.Env)
    ensures env.plain == sv.plain && env.aside == sv.aside
    ensures env.baseUrl == baseUrl && env.resolve == resolve
  {
    UpVisitor.Env(sv.plain, sv.highlighter, sv.aside, sv.icon, baseUrl, resolve)
  }

  /** The aside recogniser never hands back more than it was given. */
  ghost predicate Sound(sv: Services) {
    UpVisitor.AsidesShrink(UpEnv(sv, None, None))
  }

  lemma SoundEnv(sv: Services, baseUrl: Option<string>, resolve: Option<Resolver>)
    requires Sound(sv)
    ensures UpVisitor.AsidesShrink(UpEnv(sv, baseUrl, resolve))
  {
  }

  /** `renderToHTML`: the body HTML of the Up view. */
  function RenderToHtml(sv: Services, markdown: string, baseUrl: Option<string>, resolve: Option<Resolver>): string
    requires Sound(sv)
  {
    SoundEnv(sv, baseUrl, resolve);
    UpVisitor.Render(UpEnv(sv, baseUrl, resolve), sv.parse(markdown))
  }

  /** `renderUpModeDocument`: the body in a full document; the base tag only when asked for. */
  function RenderUpModeDocument(sv: Services, markdown: string, title: string, baseUrl: Option<string>,
                                theme: string, includeBaseTag: bool, resolve: Option<Resolver>): string
    requires Sound(sv)
  {
    var body := RenderToHtml(sv, markdown, baseUrl, resolve);
    HtmlTemplate.WrapUp(sv.resources, body, title, if includeBaseTag then baseUrl else None, theme)
  }

  /** `extractHeadings`: the outline of the parsed document. */
  function ExtractHeadings(sv: Services, markdown: string): seq<HeadingExtractor.OutlineHeading> {
    HeadingExtractor.Extract(sv.plain, sv.parse(markdown))
  }

  /** `renderDownToHTML`: the Down view's table. */
  function RenderDownToHtml(sv: Services, text: string): string {
    DownTable.HighlightAsTable(sv.highlighter, sv.parse(text), text)
  }

  /** `renderDownModeDocument`: the table in a full document. */
  function RenderDownModeDocument(sv: Services, text: string, title: string, theme: string): string {
    HtmlTemplate.WrapDown(sv.resources, RenderDownToHtml(sv, text), title, theme)
  }

  // ----- What the entry points promise together -----

  /**
   * The Up document holds, inside its article element, exactly the body
   * `renderToHTML` produces for the same input, whether or not the base tag
   * is included.
   */
  lemma UpDocumentHoldsBody(sv: Services, markdown: string, title: string, baseUrl: Option<string>,
                            theme: string, includeBaseTag: bool, resolve: Option<Resolver>)
    requires Sound(sv)
    ensures Contains(RenderUpModeDocument(sv, markdown, title, baseUrl, theme, includeBaseTag, resolve),
                     HtmlTemplate.Article(RenderToHtml(sv, markdown, baseUrl, resolve)))
  {
    var body := RenderToHtml(sv, markdown, baseUrl, resolve);
    HtmlTemplate.WrapUpHoldsArticle(sv.resources, body, title, if includeBaseTag then baseUrl else None, theme);
  }

  /**
   * `includeBaseTag` decides only the base element: with a base URL the
   * document asked for the tag is the one without it plus that element, in
   * the head; without a base URL the flag changes nothing.
   */
  lemma UpDocumentBaseTag(sv: Services, markdown: string, title: string, baseUrl: Option<string>,
                          theme: string, resolve: Option<Resolver>)
    requires Sound(sv)
    ensures baseUrl.Some? ==>
      HtmlTemplate.InsertedAt(
        RenderUpModeDocument(sv, markdown, title, baseUrl, theme, true, resolve),
        RenderUpModeDocument(sv, markdown, title, baseUrl, theme, false, resolve),
        HtmlTemplate.BaseElement(baseUrl.value), |HtmlTemplate.UpHead|)
    ensures baseUrl.None? ==>
      RenderUpModeDocument(sv, markdown, title, baseUrl, theme, true, resolve)
        == RenderUpModeDocument(sv, markdown, title, baseUrl, theme, false, resolve)
  {
    if baseUrl.Some? {
      HtmlTemplate.WrapUpBaseOnly(sv.resources, RenderToHtml(sv, markdown, baseUrl, resolve), title, baseUrl.value, theme);
    }
  }

  /** The Down document holds exactly the table `renderDownToHTML` produces for the same text. */
  lemma DownDocumentHoldsTable(sv: Services, text: string, title: string, theme: string)
    ensures Contains(RenderDownModeDocument(sv, text, title, theme), HtmlTemplate.DownDiv(RenderDownToHtml(sv, text)))
  {
    HtmlTemplate.WrapDownHoldsTable(sv.resources, RenderDownToHtml(sv, text), title, theme);
  }

  /**
   * The sidebar's outline links into the rendered page: for a document of
   * the shape the parser builds, and with an aside recogniser that keeps a
   * quote's headings, the ids the Up body gives its headings are, in order,
   * the ids `extractHeadings` reports, whatever base URL or resolver the body
   * was rendered with.
   */
  lemma OutlineMatchesBody(sv: Services, markdown: string, baseUrl: Option<string>, resolve: Option<Resolver>)
    requires Sound(sv) && UpHeadingIds.AsidesKeepHeadings(UpEnv(sv, None, None))
    requires UpHeadingIds.Conventional(UpEnv(sv, None, None), sv.parse(markdown))
    ensures var env := UpEnv(sv, baseUrl, resolve);
      var ids := UpVisitor.Visit(env, sv.parse(markdown), false, UpVisitor.Start).ids;
      var outline := ExtractHeadings(sv, markdown);
      && UpVisitor.Render(env, sv.parse(markdown)) == RenderToHtml(sv, markdown, baseUrl, resolve)
      && |ids| == |outline|
      && forall i :: 0 <= i < |ids| ==> ids[i] == outline[i].id
  {
    var env := UpEnv(sv, baseUrl, resolve);
    var doc := sv.parse(markdown);
    SoundEnv(sv, baseUrl, resolve);
    ConventionalEnv(UpEnv(sv, None, None), env, doc);
    KeepHeadingsEnv(UpEnv(sv, None, None), env);
    UpHeadingIds.RenderIdsMatchExtract(env, doc);
  }

  /** The recogniser's guarantee, like the parser's shape, depends only on the plain-text and aside services. */
  lemma KeepHeadingsEnv(a: UpVisitor.Env, b: UpVisitor.Env)
    requires a.plain == b.plain && a.aside == b.aside
    requires UpHeadingIds.AsidesKeepHeadings(a)
    ensures UpHeadingIds.AsidesKeepHeadings(b)
  {
    forall m | b.aside(m).Some?
      ensures UpHeadingIds.AllConventional(b, m.children) ==> UpHeadingIds.AllConventional(b, b.aside(m).value.content)
    {
      assert a.aside(m) == b.aside(m);
      if UpHeadingIds.AllConventional(b, m.children) {
        forall i | 0 <= i < |m.children|
          ensures UpHeadingIds.Conventional(a, m.children[i])
        {
          ConventionalEnv(b, a, m.children[i]);
        }
        var content := b.aside(m).value.content;
        forall i | 0 <= i < |content|
          ensures UpHeadingIds.Conventional(b, content[i])
        {
          ConventionalEnv(a, b, content[i]);
        }
      }
    }
  }

  /** Whether a tree has the parser's shape depends only on the plain-text and aside services. */
  lemma {:induction false} ConventionalEnv(a: UpVisitor.Env, b: UpVisitor.Env, n: Node)
    requires a.plain == b.plain && a.aside == b.aside
    requires UpHeadingIds.Conventional(a, n)
    ensures UpHeadingIds.Conventional(b, n)
    decreases n
  {
    forall i | 0 <= i < |n.children|
      ensures UpHeadingIds.Conventional(b, n.children[i])
    {
      ConventionalEnv(a, b, n.children[i]);
    }
  }
}
