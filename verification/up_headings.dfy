/**
 * The Up renderer and the heading extractor hand out the same heading ids:
 * both feed one fresh slug tracker with the headings' plain texts in document
 * order. This holds for documents shaped the way the parser builds them
 * (headings and leaves hold no headings, a special quote's first paragraph
 * holds none), with a DocC aside recogniser that keeps a quote's headings
 * when it hands back the quote's content.
 */
module UpHeadingIds {
  import opened Wrappers
  import opened Markup
  import SlugGenerator
  import HeadingExtractor
  import opened UpAlerts
  import opened UpVisitor

  /** The shape the id agreement needs; see the module comment. */
  ghost predicate Conventional(env: Env, n: Node)
    decreases n
  {
    && (n.kind.Heading? || IsLeaf(n.kind) ==> HeadingExtractor.HeadingsOfAll(n.children) == [])
    && (n.kind.BlockQuote? && n.children != [] && n.children[0].kind.Paragraph? ==>
          HeadingExtractor.HeadingsOfAll(n.children[0].children) == [])
    && forall i :: 0 <= i < |n.children| ==> Conventional(env, n.children[i])
  }

  ghost predicate AllConventional(env: Env, ns: seq<Node>) {
    forall i :: 0 <= i < |ns| ==> Conventional(env, ns[i])
  }

  /**
   * What the DocC aside recogniser guarantees: the content it hands back for
   * a quote holds the quote's headings, in order, and keeps the parser's shape.
   * (It only takes the aside's tag off the first paragraph, which holds no headings.)
   */
  ghost predicate AsidesKeepHeadings(env: Env) {
    forall m :: env.aside(m).Some? ==>
      && HeadingExtractor.HeadingsOfAll(env.aside(m).value.content) == HeadingExtractor.HeadingsOfAll(m.children)
      && (AllConventional(env, m.children) ==> AllConventional(env, env.aside(m).value.content))
  }

  /** From `s` to `r` the walk handed out the slugs of the headings `hs`, in order, and wrote them as ids. */
  ghost predicate Fed(plain: PlainText, s: UpState, r: UpState, hs: seq<Node>) {
    var run := SlugGenerator.RunBases(s.tracker, HeadingExtractor.BasesOf(plain, hs));
    r.tracker == run.1 && r.ids == s.ids + run.0
  }

  // ----- Glue -----

  lemma FedNone(plain: PlainText, s: UpState, r: UpState)
    requires r.tracker == s.tracker && r.ids == s.ids
    ensures Fed(plain, s, r, [])
  {
    assert HeadingExtractor.BasesOf(plain, []) == [];
    assert s.ids + [] == s.ids;
  }

  lemma FedAppend(plain: PlainText, s: UpState, m: UpState, r: UpState, a: seq<Node>, b: seq<Node>)
    requires Fed(plain, s, m, a) && Fed(plain, m, r, b)
    ensures Fed(plain, s, r, a + b)
  {
    var ba := HeadingExtractor.BasesOf(plain, a);
    var bb := HeadingExtractor.BasesOf(plain, b);
    HeadingExtractor.BasesOfAppend(plain, a, b);
    SlugGenerator.RunAppend(s.tracker, ba, bb);
    var ra := SlugGenerator.RunBases(s.tracker, ba);
    var rb := SlugGenerator.RunBases(ra.1, bb);
    IdsAssoc(s.ids, ra.0, rb.0);
  }

  lemma IdsAssoc(a: seq<string>, b: seq<string>, c: seq<string>)
    ensures a + b + c == a + (b + c)
  {
  }

  /** Output written without touching the tracker or the ids does not disturb `Fed`. */
  lemma FedSame(plain: PlainText, s: UpState, m: UpState, r: UpState, hs: seq<Node>)
    requires Fed(plain, s, m, hs) && r.tracker == m.tracker && r.ids == m.ids
    ensures Fed(plain, s, r, hs)
  {
  }

  lemma FedBefore(plain: PlainText, s: UpState, m: UpState, r: UpState, hs: seq<Node>)
    requires Fed(plain, m, r, hs) && m.tracker == s.tracker && m.ids == s.ids
    ensures Fed(plain, s, r, hs)
  {
  }

  /** The heading's own slug. */
  lemma FedHeading(plain: PlainText, s: UpState, n: Node, r: UpState)
    requires var next := SlugGenerator.SlugFor(s.tracker, plain(n));
      r.tracker == next.1 && r.ids == s.ids + [next.0]
    ensures Fed(plain, s, r, [n])
  {
    HeadingExtractor.BasesOfSingle(plain, n);
    SlugGenerator.RunBasesSingle(s.tracker, SlugGenerator.Slugify(plain(n)));
  }

  lemma {:induction false} HeadingsSuffix(ns: seq<Node>, k: nat)
    requires k <= |ns| && HeadingExtractor.HeadingsOfAll(ns) == []
    ensures HeadingExtractor.HeadingsOfAll(ns[k..]) == []
    decreases k
  {
    if k > 0 {
      HeadingsSuffix(ns[1..], k - 1);
      assert ns[1..][k - 1..] == ns[k..];
    }
  }

  // ----- One step of the walk, by case -----

  lemma VisitQuoteStep(env: Env, n: Node, p: bool, s: UpState)
    requires AsidesShrink(env) && n.kind.BlockQuote?
    ensures Visit(env, n, p, s) == Emit(QuoteBody(env, n, s), "</blockquote>\n")
  {
  }

  lemma VisitHeadingStep(env: Env, n: Node, p: bool, s: UpState)
    requires AsidesShrink(env) && n.kind.Heading?
    ensures var next := SlugGenerator.SlugFor(s.tracker, env.plain(n));
      var entered := Emit(s.(tracker := next.1, ids := s.ids + [next.0]),
        "<h" + Strings.NatToString(n.kind.level) + " id=\"" + next.0 + "\">");
      Visit(env, n, p, s) == Emit(VisitAll(env, n.children, false, entered), "</h" + Strings.NatToString(n.kind.level) + ">\n")
  {
  }

  lemma VisitContainerStep(env: Env, n: Node, p: bool, s: UpState)
    requires AsidesShrink(env) && !n.kind.BlockQuote? && !n.kind.Heading? && !IsLeaf(n.kind)
    requires !(n.kind.TableBody? && n.children == [])
    ensures Visit(env, n, p, s) == Close(n, p, s, VisitAll(env, n.children, n.kind.ListItem?, Open(n, p, s)))
  {
  }

  lemma QuoteGfmStep(env: Env, n: Node, c: AlertCategory, s: UpState)
    requires AsidesShrink(env) && n.kind.BlockQuote? && DetectGfm(env.plain, n) == Some(c)
    ensures QuoteBody(env, n, s) == GfmContent(env, n, c, Emit(s, AlertOpen(c) + AlertTitle(env, c, Title(c))))
  {
  }

  lemma QuoteDocCStep(env: Env, n: Node, c: AlertCategory, title: string, content: seq<Node>, s: UpState)
    requires AsidesShrink(env) && n.kind.BlockQuote? && DetectGfm(env.plain, n).None?
    requires DetectDocC(env.aside(n)) == Some((c, title, content))
    ensures QuoteBody(env, n, s) == VisitAll(env, content, false, Emit(s, AlertOpen(c) + AlertTitle(env, c, title)))
  {
  }

  lemma QuoteStatusStep(env: Env, n: Node, value: string, s: UpState)
    requires AsidesShrink(env) && n.kind.BlockQuote? && DetectGfm(env.plain, n).None?
    requires DetectDocC(env.aside(n)).None? && DetectStatus(n) == Some(value)
    ensures QuoteBody(env, n, s) == StatusContent(env, n, Emit(s, AlertOpen(StatusAlert) + StatusTitle(env, value)))
  {
  }

  lemma QuotePlainStep(env: Env, n: Node, s: UpState)
    requires AsidesShrink(env) && n.kind.BlockQuote? && DetectGfm(env.plain, n).None?
    requires DetectDocC(env.aside(n)).None? && DetectStatus(n).None?
    ensures QuoteBody(env, n, s) == VisitAll(env, n.children, false, Emit(s, "<blockquote>\n"))
  {
  }

  lemma VisitAllStep(env: Env, ns: seq<Node>, p: bool, s: UpState)
    requires AsidesShrink(env) && ns != []
    ensures VisitAll(env, ns, p, s) == VisitAll(env, ns[1..], p, Visit(env, ns[0], p, s))
  {
  }

  // ----- The walk feeds the tracker like the extractor -----

  lemma {:induction false} VisitIds(env: Env, n: Node, p: bool, s: UpState)
    requires AsidesShrink(env) && AsidesKeepHeadings(env) && Conventional(env, n)
    ensures Fed(env.plain, s, Visit(env, n, p, s), HeadingExtractor.HeadingsOf(n))
    decreases Size(n), 6
  {
    var r := Visit(env, n, p, s);
    if n.kind.BlockQuote? {
      VisitQuoteStep(env, n, p, s);
      QuoteIds(env, n, s);
      FedSame(env.plain, s, QuoteBody(env, n, s), r, HeadingExtractor.HeadingsOf(n));
    } else if n.kind.Heading? {
      HeadingIds(env, n, p, s);
    } else if IsLeaf(n.kind) || (n.kind.TableBody? && n.children == []) {
      FedNone(env.plain, s, r);
      assert HeadingExtractor.HeadingsOf(n) == [] by {
        if n.kind.TableBody? && !IsLeaf(n.kind) {
          assert HeadingExtractor.HeadingsOfAll([]) == [];
        }
      }
    } else {
      ContainerIds(env, n, p, s);
    }
  }

  /** A heading hands out its own slug; what it holds hands out none. */
  lemma {:induction false} HeadingIds(env: Env, n: Node, p: bool, s: UpState)
    requires AsidesShrink(env) && AsidesKeepHeadings(env) && Conventional(env, n) && n.kind.Heading?
    ensures Fed(env.plain, s, Visit(env, n, p, s), HeadingExtractor.HeadingsOf(n))
    decreases Size(n), 5
  {
    VisitHeadingStep(env, n, p, s);
    var next := SlugGenerator.SlugFor(s.tracker, env.plain(n));
    var entered := Emit(s.(tracker := next.1, ids := s.ids + [next.0]),
      "<h" + Strings.NatToString(n.kind.level) + " id=\"" + next.0 + "\">");
    var inner := VisitAll(env, n.children, false, entered);
    FedHeading(env.plain, s, n, entered);
    VisitAllIds(env, n.children, false, entered);
    FedAppend(env.plain, s, entered, inner, [n], []);
    assert [n] + [] == [n];
    FedSame(env.plain, s, inner, Visit(env, n, p, s), [n]);
  }

  lemma {:induction false} ContainerIds(env: Env, n: Node, p: bool, s: UpState)
    requires AsidesShrink(env) && AsidesKeepHeadings(env) && Conventional(env, n)
    requires !n.kind.BlockQuote? && !n.kind.Heading? && !IsLeaf(n.kind) && !(n.kind.TableBody? && n.children == [])
    ensures Fed(env.plain, s, Visit(env, n, p, s), HeadingExtractor.HeadingsOf(n))
    decreases Size(n), 5
  {
    VisitContainerStep(env, n, p, s);
    var entered := Open(n, p, s);
    var inner := VisitAll(env, n.children, n.kind.ListItem?, entered);
    VisitAllIds(env, n.children, n.kind.ListItem?, entered);
    FedBefore(env.plain, s, entered, inner, HeadingExtractor.HeadingsOfAll(n.children));
    FedSame(env.plain, s, inner, Visit(env, n, p, s), HeadingExtractor.HeadingsOfAll(n.children));
  }

  lemma {:induction false} VisitAllIds(env: Env, ns: seq<Node>, p: bool, s: UpState)
    requires AsidesShrink(env) && AsidesKeepHeadings(env) && AllConventional(env, ns)
    ensures Fed(env.plain, s, VisitAll(env, ns, p, s), HeadingExtractor.HeadingsOfAll(ns))
    decreases SizeAll(ns), 7
  {
    if ns == [] {
      FedNone(env.plain, s, s);
    } else {
      VisitAllStep(env, ns, p, s);
      var first := Visit(env, ns[0], p, s);
      VisitIds(env, ns[0], p, s);
      assert AllConventional(env, ns[1..]) by {
        forall i | 0 <= i < |ns[1..]| ensures Conventional(env, ns[1..][i]) {
          assert ns[1..][i] == ns[i + 1];
        }
      }
      VisitAllIds(env, ns[1..], p, first);
      FedAppend(env.plain, s, first, VisitAll(env, ns, p, s),
        HeadingExtractor.HeadingsOf(ns[0]), HeadingExtractor.HeadingsOfAll(ns[1..]));
    }
  }

  lemma {:induction false} QuoteIds(env: Env, n: Node, s: UpState)
    requires AsidesShrink(env) && AsidesKeepHeadings(env) && n.kind.BlockQuote? && Conventional(env, n)
    ensures Fed(env.plain, s, QuoteBody(env, n, s), HeadingExtractor.HeadingsOf(n))
    decreases Size(n), 4
  {
    var hs := HeadingExtractor.HeadingsOf(n);
    match DetectGfm(env.plain, n)
    case Some(c) =>
      QuoteGfmStep(env, n, c, s);
      var head := Emit(s, AlertOpen(c) + AlertTitle(env, c, Title(c)));
      GfmIds(env, n, c, head);
      FedBefore(env.plain, s, head, QuoteBody(env, n, s), hs);
    case None =>
      match DetectDocC(env.aside(n))
      case Some((c, title, content)) =>
        DocCIds(env, n, c, title, content, s);
      case None =>
        match DetectStatus(n)
        case Some(value) =>
          QuoteStatusStep(env, n, value, s);
          var head := Emit(s, AlertOpen(StatusAlert) + StatusTitle(env, value));
          StatusIds(env, n, head);
          FedBefore(env.plain, s, head, QuoteBody(env, n, s), hs);
        case None =>
          QuotePlainStep(env, n, s);
          var head := Emit(s, "<blockquote>\n");
          assert AllConventional(env, n.children);
          VisitAllIds(env, n.children, false, head);
          FedBefore(env.plain, s, head, QuoteBody(env, n, s), hs);
  }

  /** A DocC aside renders the recogniser's content, which holds the quote's headings. */
  lemma {:induction false} DocCIds(env: Env, n: Node, c: AlertCategory, title: string, content: seq<Node>, s: UpState)
    requires AsidesShrink(env) && AsidesKeepHeadings(env) && n.kind.BlockQuote? && Conventional(env, n)
    requires DetectGfm(env.plain, n).None? && DetectDocC(env.aside(n)) == Some((c, title, content))
    ensures Fed(env.plain, s, QuoteBody(env, n, s), HeadingExtractor.HeadingsOf(n))
    decreases Size(n), 3
  {
    QuoteDocCStep(env, n, c, title, content, s);
    var head := Emit(s, AlertOpen(c) + AlertTitle(env, c, title));
    assert content == env.aside(n).value.content;
    assert SizeAll(content) < Size(n);
    assert AllConventional(env, n.children);
    assert AllConventional(env, content);
    VisitAllIds(env, content, false, head);
    FedBefore(env.plain, s, head, QuoteBody(env, n, s), HeadingExtractor.HeadingsOf(n));
  }

  lemma {:induction false} GfmIds(env: Env, n: Node, c: AlertCategory, s: UpState)
    requires AsidesShrink(env) && AsidesKeepHeadings(env) && n.kind.BlockQuote? && Conventional(env, n)
    requires n.children != [] && n.children[0].kind.Paragraph?
    ensures Fed(env.plain, s, GfmContent(env, n, c, s), HeadingExtractor.HeadingsOf(n))
    decreases Size(n), 3
  {
    var inlines := n.children[0].children;
    if inlines != [] && inlines[0].kind.Text? {
      var after := AfterTag(inlines[0].kind.text, c);
      var head := if after != [] then Emit(s, "<p>" + HtmlEscaping.Escape(after)) else s;
      assert GfmContent(env, n, c, s) == QuoteRest(env, n, SkipBreak(inlines), after != [], head);
      RestIds(env, n, SkipBreak(inlines), after != [], head);
      FedBefore(env.plain, s, head, GfmContent(env, n, c, s), HeadingExtractor.HeadingsOf(n));
    } else {
      assert GfmContent(env, n, c, s) == QuoteRest(env, n, 0, false, s);
      RestIds(env, n, 0, false, s);
    }
  }

  lemma {:induction false} StatusIds(env: Env, n: Node, s: UpState)
    requires AsidesShrink(env) && AsidesKeepHeadings(env) && n.kind.BlockQuote? && Conventional(env, n) && DetectStatus(n).Some?
    ensures Fed(env.plain, s, StatusContent(env, n, s), HeadingExtractor.HeadingsOf(n))
    decreases Size(n), 3
  {
    var inlines := n.children[0].children;
    RestIds(env, n, SkipBreak(inlines), false, s);
  }

  lemma {:induction false} RestIds(env: Env, n: Node, index: nat, pOpen: bool, s: UpState)
    requires AsidesShrink(env) && AsidesKeepHeadings(env) && n.kind.BlockQuote? && Conventional(env, n)
    requires n.children != [] && n.children[0].kind.Paragraph? && index <= |n.children[0].children|
    ensures Fed(env.plain, s, QuoteRest(env, n, index, pOpen, s), HeadingExtractor.HeadingsOf(n))
    decreases Size(n), 2
  {
    var inlines := n.children[0].children;
    FirstChildInlines(n, index);
    var s1 := InlinesFrom(env, inlines, index, pOpen, s);
    var r := QuoteRest(env, n, index, pOpen, s);
    assert r == VisitAll(env, n.children[1..], false, s1);
    InlinesIds(env, n, index, pOpen, s);
    assert AllConventional(env, n.children[1..]) by {
      forall i | 0 <= i < |n.children[1..]| ensures Conventional(env, n.children[1..][i]) {
        assert n.children[1..][i] == n.children[i + 1];
      }
    }
    VisitAllIds(env, n.children[1..], false, s1);
    var rest := HeadingExtractor.HeadingsOfAll(n.children[1..]);
    FedAppend(env.plain, s, s1, r, [], rest);
    assert HeadingExtractor.HeadingsOf(n) == [] + rest by {
      assert HeadingExtractor.HeadingsOf(n.children[0]) == [] by {
        assert Conventional(env, n);
      }
    }
  }

  lemma {:induction false} InlinesIds(env: Env, n: Node, index: nat, pOpen: bool, s: UpState)
    requires AsidesShrink(env) && AsidesKeepHeadings(env) && n.kind.BlockQuote? && Conventional(env, n)
    requires n.children != [] && n.children[0].kind.Paragraph? && index <= |n.children[0].children|
    ensures Fed(env.plain, s, InlinesFrom(env, n.children[0].children, index, pOpen, s), [])
    decreases Size(n), 1
  {
    var inlines := n.children[0].children;
    FirstChildInlines(n, index);
    var r := InlinesFrom(env, inlines, index, pOpen, s);
    if index < |inlines| {
      var head := if pOpen then s else Emit(s, "<p>");
      var mid := VisitAll(env, inlines[index..], false, head);
      assert r == Emit(mid, "</p>\n");
      assert Conventional(env, n.children[0]);
      assert AllConventional(env, inlines[index..]) by {
        forall i | 0 <= i < |inlines[index..]| ensures Conventional(env, inlines[index..][i]) {
          assert inlines[index..][i] == inlines[index + i];
        }
      }
      HeadingsSuffix(inlines, index);
      VisitAllIds(env, inlines[index..], false, head);
      FedBefore(env.plain, s, head, mid, []);
      FedSame(env.plain, s, mid, r, []);
    } else {
      FedNone(env.plain, s, r);
    }
  }

  // ----- The theorem -----

  /**
   * The ids the renderer writes into the heading tags are, one for one and in
   * order, the ids the outline extractor assigns to the document's headings.
   */
  lemma RenderIdsMatchExtract(env: Env, doc: Node)
    requires AsidesShrink(env) && AsidesKeepHeadings(env) && Conventional(env, doc)
    ensures var ids := Visit(env, doc, false, Start).ids;
      var outline := HeadingExtractor.Extract(env.plain, doc);
      |ids| == |outline| && forall i :: 0 <= i < |ids| ==> ids[i] == outline[i].id
  {
    var hs := HeadingExtractor.HeadingsOf(doc);
    var run := SlugGenerator.RunBases(SlugGenerator.Fresh, HeadingExtractor.BasesOf(env.plain, hs));
    VisitIds(env, doc, false, Start);
    var ids := Visit(env, doc, false, Start).ids;
    assert ids == run.0 by {
      assert Start.ids + run.0 == run.0;
    }
    HeadingExtractor.ExtractSpec(env.plain, doc);
    forall i | 0 <= i < |ids|
      ensures ids[i] == HeadingExtractor.Extract(env.plain, doc)[i].id
    {
      HeadingExtractor.RecordId(env.plain, hs, run.0, i);
    }
  }
}
