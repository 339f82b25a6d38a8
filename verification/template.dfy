/**
 * `HTMLTemplate`: the complete documents around a rendered body. Both modes
 * share the head (charset, viewport, escaped title, theme and mode styles);
 * Up mode adds a content-security policy and, when given a base URL, a
 * `<base>` tag. The bundled CSS is looked up by name through `Resources`.
 */
module HtmlTemplate {
  import opened Wrappers
  import opened Strings
  import HtmlEscaping

  /** `loadResource(name, type:)`: the contents of a bundled file, if it is there. */
  type Resources = (string, string) -> Option<string>

  /** A resource, or nothing when it is missing (`?? ""`). */
  function Resource(res: Resources, name: string, ext: string): string {
    match res(name, ext)
    case Some(text) => text
    case None => ""
  }

  /**
   * `themeCSS(for:)`: the named theme's custom properties, else those of
   * `earthy`, else nothing. The result is always one of the two files, or empty.
   */
  function ThemeCss(res: Resources, theme: string): (r: string)
    ensures res("theme-" + theme, "css").Some? ==> r == res("theme-" + theme, "css").value
    ensures res("theme-" + theme, "css").None? ==> r == Resource(res, "theme-earthy", "css")
  {
    match res("theme-" + theme, "css")
    case Some(text) => text
    case None => Resource(res, "theme-earthy", "css")
  }

  const DocOpen := "<!DOCTYPE html>\n<html>\n<head>\n"
  const Charset := "    <meta charset=\"utf-8\">\n"
  const Viewport := "    <meta name=\"viewport\" content=\"width=device-width, initial-scale=1\">\n"

  /** The policy that forbids scripts and remote content apart from images. */
  const Csp := "    <meta http-equiv=\"Content-Security-Policy\" content=\"default-src 'none'; img-src mud-asset: data: https:; style-src 'unsafe-inline'; script-src 'none'\">\n"

  /** The `<base>` element for a base URL. */
  function BaseElement(url: string): string {
    "<base href=\"" + url + "\">"
  }

  function TitleElement(title: string): string {
    "<title>" + HtmlEscaping.Escape(title) + "</title>"
  }

  /** The theme's style element, then the shared styles and the mode's own. */
  function StyleLines(res: Resources, theme: string, modeCss: string): string {
    "    <style id=\"mud-theme\">" + ThemeCss(res, theme) + "</style>\n"
      + "    <style>" + Resource(res, "mud", "css") + Resource(res, modeCss, "css") + "</style>\n"
  }

  const BodyOpen := "</head>\n<body>\n    "
  const DocClose := "\n</body>\n</html>"

  function Article(body: string): string {
    "<article class=\"up-mode-output\">\n" + body + "\n    </article>"
  }

  function DownDiv(tableHtml: string): string {
    "<div class=\"down-mode-output\">\n        " + tableHtml + "\n    </div>"
  }

  /** An Up-mode document's head up to the base element's indentation. */
  const UpHead := DocOpen + Charset + Viewport + Csp + "    "

  /** The base element, or nothing: its line is there either way. */
  function BaseSlot(baseUrl: Option<string>): string {
    match baseUrl
    case Some(u) => BaseElement(u)
    case None => ""
  }

  /** The rest of an Up-mode document after the base slot, piece by piece. */
  function UpRest(res: Resources, body: string, title: string, theme: string): seq<string> {
    ["\n    ", TitleElement(title), "\n", StyleLines(res, theme, "mud-up"), BodyOpen, Article(body), DocClose]
  }

  /** `wrapUp`: an Up-mode document around the rendered body. */
  function WrapUp(res: Resources, body: string, title: string, baseUrl: Option<string>, theme: string): string {
    UpHead + BaseSlot(baseUrl) + Concat(UpRest(res, body, title, theme))
  }

  /** A Down-mode document's head up to the title's indentation. */
  const DownHead := DocOpen + Charset + Viewport

  function DownRest(res: Resources, tableHtml: string, title: string, theme: string): seq<string> {
    ["    ", TitleElement(title), "\n", StyleLines(res, theme, "mud-down"), BodyOpen, DownDiv(tableHtml), DocClose]
  }

  /** `wrapDown`: a Down-mode document around the rendered table. */
  function WrapDown(res: Resources, tableHtml: string, title: string, theme: string): string {
    DownHead + Concat(DownRest(res, tableHtml, title, theme))
  }

  // ----- What the documents promise -----

  /** `s` is `a` with `m` inserted at index `i`. */
  predicate InsertedAt(s: string, a: string, m: string, i: int) {
    0 <= i <= |a| && s == a[..i] + m + a[i..]
  }

  /**
   * An Up-mode document is a document, holds the policy, the escaped title
   * and the body inside the article element, and has a base element for a
   * base URL.
   */
  lemma WrapUpShape(res: Resources, body: string, title: string, baseUrl: Option<string>, theme: string)
    ensures var d := WrapUp(res, body, title, baseUrl, theme);
      && StartsWith(d, DocOpen)
      && Contains(d, Csp)
      && Contains(d, TitleElement(title))
      && Contains(d, Article(body))
      && (baseUrl.Some? ==> Contains(d, BaseElement(baseUrl.value)))
  {
    var slot := BaseSlot(baseUrl);
    var xs := UpRest(res, body, title, theme);
    var rest := Concat(xs);
    UpHeadPrefix(slot, rest);
    ContainsMiddle(DownHead, Csp, "    ");
    ContainsBefore(UpHead, slot, Csp);
    ContainsBefore(UpHead + slot, rest, Csp);
    ConcatContains(xs, 1);
    ContainsAfter(UpHead + slot, rest, TitleElement(title));
    WrapUpHoldsArticle(res, body, title, baseUrl, theme);
    ContainsMiddle(UpHead, slot, rest);
  }

  /** The Up document opens with the doctype and the root element. */
  lemma WrapUpStart(res: Resources, body: string, title: string, baseUrl: Option<string>, theme: string)
    ensures StartsWith(WrapUp(res, body, title, baseUrl, theme), DocOpen)
  {
    UpHeadPrefix(BaseSlot(baseUrl), Concat(UpRest(res, body, title, theme)));
  }

  /** So does the Down document. */
  lemma WrapDownStart(res: Resources, tableHtml: string, title: string, theme: string)
    ensures StartsWith(WrapDown(res, tableHtml, title, theme), DocOpen)
  {
    var rest := Concat(DownRest(res, tableHtml, title, theme));
    StartsWithAppend(DownHead, rest);
    StartsWithAppend(DocOpen + Charset, Viewport);
    StartsWithAppend(DocOpen, Charset);
    StartsWithTrans(DownHead + rest, DownHead, DocOpen + Charset);
    StartsWithTrans(DownHead + rest, DocOpen + Charset, DocOpen);
  }

  /** Without a base URL the head goes straight from the policy to the title: there is no base element. */
  lemma WrapUpWithoutBase(res: Resources, body: string, title: string, theme: string)
    ensures StartsWith(WrapUp(res, body, title, None, theme), UpHead + "\n    " + TitleElement(title))
  {
    var xs := UpRest(res, body, title, theme);
    assert UpHead + BaseSlot(None) == UpHead;
    ConcatStart(UpHead, xs);
    StartsWithAppend(UpHead + "\n    " + TitleElement(title), Concat(xs[2..]));
  }

  /** The body sits in the Up document's article element. */
  lemma WrapUpHoldsArticle(res: Resources, body: string, title: string, baseUrl: Option<string>, theme: string)
    ensures Contains(WrapUp(res, body, title, baseUrl, theme), Article(body))
  {
    var xs := UpRest(res, body, title, theme);
    ConcatContains(xs, 5);
    ContainsAfter(UpHead + BaseSlot(baseUrl), Concat(xs), Article(body));
  }

  /** The document starts with the fixed head, hence with the doctype. */
  lemma UpHeadPrefix(slot: string, rest: string)
    ensures StartsWith(UpHead + slot + rest, DocOpen)
  {
    StartsWithAppend(UpHead + slot, rest);
    StartsWithAppend(UpHead, slot);
    StartsWithTrans(UpHead + slot + rest, UpHead + slot, UpHead);
    StartsWithAppend(DownHead + Csp, "    ");
    StartsWithAppend(DownHead, Csp);
    StartsWithAppend(DocOpen + Charset, Viewport);
    StartsWithAppend(DocOpen, Charset);
    StartsWithTrans(UpHead + slot + rest, UpHead, DownHead + Csp);
    StartsWithTrans(UpHead + slot + rest, DownHead + Csp, DownHead);
    StartsWithTrans(UpHead + slot + rest, DownHead, DocOpen + Charset);
    StartsWithTrans(UpHead + slot + rest, DocOpen + Charset, DocOpen);
  }

  /**
   * The base URL changes nothing but the base element: the document for a
   * base URL is the document without one, with that element inserted.
   */
  lemma WrapUpBaseOnly(res: Resources, body: string, title: string, url: string, theme: string)
    ensures InsertedAt(WrapUp(res, body, title, Some(url), theme), WrapUp(res, body, title, None, theme), BaseElement(url), |UpHead|)
  {
    var rest := Concat(UpRest(res, body, title, theme));
    var d := WrapUp(res, body, title, None, theme);
    assert d == UpHead + rest;
    assert d[..|UpHead|] == UpHead && d[|UpHead|..] == rest;
  }

  /** A Down-mode document is a document, holds the escaped title, and the table inside the output element. */
  lemma WrapDownShape(res: Resources, tableHtml: string, title: string, theme: string)
    ensures var d := WrapDown(res, tableHtml, title, theme);
      && StartsWith(d, DocOpen)
      && Contains(d, TitleElement(title))
      && Contains(d, DownDiv(tableHtml))
  {
    var xs := DownRest(res, tableHtml, title, theme);
    var rest := Concat(xs);
    StartsWithAppend(DownHead, rest);
    StartsWithAppend(DocOpen + Charset, Viewport);
    StartsWithAppend(DocOpen, Charset);
    StartsWithTrans(DownHead + rest, DownHead, DocOpen + Charset);
    StartsWithTrans(DownHead + rest, DocOpen + Charset, DocOpen);
    ConcatContains(xs, 1);
    ContainsAfter(DownHead, rest, TitleElement(title));
    WrapDownHoldsTable(res, tableHtml, title, theme);
  }

  /** The table sits in the Down document's output element. */
  lemma WrapDownHoldsTable(res: Resources, tableHtml: string, title: string, theme: string)
    ensures Contains(WrapDown(res, tableHtml, title, theme), DownDiv(tableHtml))
  {
    var xs := DownRest(res, tableHtml, title, theme);
    ConcatContains(xs, 5);
    ContainsAfter(DownHead, Concat(xs), DownDiv(tableHtml));
  }

  /**
   * The two modes share the head up to the viewport; then Up mode has the
   * policy, where Down mode goes straight to the title.
   */
  lemma SharedHead(res: Resources, body: string, tableHtml: string, title: string, baseUrl: Option<string>, theme: string)
    ensures StartsWith(WrapUp(res, body, title, baseUrl, theme), DownHead + Csp)
    ensures StartsWith(WrapDown(res, tableHtml, title, theme), DownHead + "    " + TitleElement(title))
  {
    var slot := BaseSlot(baseUrl);
    var rest := Concat(UpRest(res, body, title, theme));
    StartsWithAppend(UpHead + slot, rest);
    StartsWithAppend(UpHead, slot);
    StartsWithAppend(DownHead + Csp, "    ");
    StartsWithTrans(UpHead + slot + rest, UpHead + slot, UpHead);
    StartsWithTrans(UpHead + slot + rest, UpHead, DownHead + Csp);
    var xs := DownRest(res, tableHtml, title, theme);
    ConcatStart(DownHead, xs);
    StartsWithAppend(DownHead + "    " + TitleElement(title), Concat(xs[2..]));
  }

  /** A concatenation behind `h`, unfolded over its first two pieces. */
  lemma ConcatStart(h: string, xs: seq<string>)
    requires |xs| >= 2
    ensures h + Concat(xs) == h + xs[0] + xs[1] + Concat(xs[2..])
  {
    assert xs[1..][1..] == xs[2..];
    assert Concat(xs) == xs[0] + (xs[1] + Concat(xs[2..]));
  }

  /** A bundled theme is used as is; an unknown one falls back to `earthy`, and with neither bundled there is no theme. */
  lemma ThemeFallback(res: Resources, theme: string)
    ensures ThemeCss(res, theme) == Resource(res, "theme-" + theme, "css") || ThemeCss(res, theme) == ThemeCss(res, "earthy")
    ensures res("theme-earthy", "css").None? && res("theme-" + theme, "css").None? ==> ThemeCss(res, theme) == ""
  {
    assert "theme-" + "earthy" == "theme-earthy";
  }
}
