/**
 * `HeadingExtractor`: a pre-order walk that turns every heading into an
 * `OutlineHeading` record for the outline sidebar. One slug tracker serves the
 * whole walk, so the ids agree with the `id` attributes of the rendered
 * headings. The walk does not descend into a heading.
 */
module HeadingExtractor {
  import opened Wrappers
  import opened Markup
  import SlugGenerator
  import Strings

  /** A styled piece of a heading's text. */
  datatype OutlineTextSegment = PlainSegment(text: string) | CodeSegment(code: string)

  datatype OutlineHeading = OutlineHeading(
    id: string,
    level: nat,
    text: string,
    segments: seq<OutlineTextSegment>,
    sourceLine: int)

  /** The walker's state: the records so far and the slug tracker. */
  datatype Walk = Walk(headings: seq<OutlineHeading>, tracker: SlugGenerator.Tracker)

  /** The heading's first source line, or 0 when it has no range. */
  function SourceLine(n: Node): int {
    if n.range.Some? then n.range.value.lower.line else 0
  }

  function LevelOf(n: Node): nat {
    if n.kind.Heading? then n.kind.level else 0
  }

  /** `extractSegments(from:)`: code spans, text and soft breaks; anything else is flattened. */
  function Segments(n: Node): seq<OutlineTextSegment>
    decreases n
  {
    SegmentsOf(n.children)
  }

  function SegmentsOf(ns: seq<Node>): seq<OutlineTextSegment>
    decreases ns
  {
    if ns == [] then []
    else
      var first := match ns[0].kind
        case InlineCode(code) => [CodeSegment(code)]
        case Text(s) => [PlainSegment(s)]
        case SoftBreak => [PlainSegment(" ")]
        case _ => Segments(ns[0]);
      first + SegmentsOf(ns[1..])
  }

  /** `visitHeading`: one record, the next slug of the heading's plain text. */
  function VisitHeading(plain: PlainText, n: Node, w: Walk): Walk {
    var (slug, t) := SlugGenerator.SlugFor(w.tracker, plain(n));
    Walk(w.headings + [OutlineHeading(slug, LevelOf(n), plain(n), Segments(n), SourceLine(n))], t)
  }

  function Visit(plain: PlainText, n: Node, w: Walk): Walk
    decreases n
  {
    if n.kind.Heading? then VisitHeading(plain, n, w) else VisitAll(plain, n.children, w)
  }

  function VisitAll(plain: PlainText, ns: seq<Node>, w: Walk): Walk
    decreases ns
  {
    if ns == [] then w else VisitAll(plain, ns[1..], Visit(plain, ns[0], w))
  }

  /** A fresh extractor walks the document. */
  function Extract(plain: PlainText, doc: Node): seq<OutlineHeading> {
    Visit(plain, doc, Walk([], SlugGenerator.Fresh)).headings
  }

  // ----- Reference description -----

  /** The headings of a tree in document order (a heading's own children are not searched). */
  function HeadingsOf(n: Node): seq<Node>
    decreases n
  {
    if n.kind.Heading? then [n] else HeadingsOfAll(n.children)
  }

  function HeadingsOfAll(ns: seq<Node>): seq<Node>
    decreases ns
  {
    if ns == [] then [] else HeadingsOf(ns[0]) + HeadingsOfAll(ns[1..])
  }

  function Plains(plain: PlainText, hs: seq<Node>): (r: seq<string>)
    ensures |r| == |hs|
  {
    Strings.Map(plain, hs)
  }

  /** The record for heading `h` with slug `id`. */
  function Record(plain: PlainText, h: Node, id: string): OutlineHeading {
    OutlineHeading(id, LevelOf(h), plain(h), Segments(h), SourceLine(h))
  }

  function Records(plain: PlainText, hs: seq<Node>, ids: seq<string>): (r: seq<OutlineHeading>)
    requires |ids| == |hs|
    ensures |r| == |hs|
  {
    seq(|hs|, i requires 0 <= i < |hs| => Record(plain, hs[i], ids[i]))
  }

  /** The slug bases of the headings `hs`, in order. */
  function BasesOf(plain: PlainText, hs: seq<Node>): (r: seq<string>)
    ensures |r| == |hs|
  {
    SlugGenerator.Bases(Plains(plain, hs))
  }

  /** What walking the headings `hs` from state `w` produces. */
  function Expected(plain: PlainText, hs: seq<Node>, w: Walk): Walk {
    Feed(plain, hs, BasesOf(plain, hs), w)
  }

  /** Records for `hs`, whose slugs the tracker hands out for the bases `bs`. */
  function Feed(plain: PlainText, hs: seq<Node>, bs: seq<string>, w: Walk): Walk
    requires |bs| == |hs|
  {
    var run := SlugGenerator.RunBases(w.tracker, bs);
    Walk(w.headings + Records(plain, hs, run.0), run.1)
  }

  /**
   * The walk appends one record per heading, in document order, and feeds the
   * headings' plain texts to the tracker in that order.
   */
  lemma {:induction false} VisitSpec(plain: PlainText, n: Node, w: Walk)
    ensures Visit(plain, n, w) == Expected(plain, HeadingsOf(n), w)
    decreases n
  {
    if n.kind.Heading? {
      VisitHeadingSpec(plain, n, w);
    } else {
      VisitAllSpec(plain, n.children, w);
    }
  }

  /** A heading gets one record whose id is the tracker's next slug for its text. */
  lemma VisitHeadingSpec(plain: PlainText, n: Node, w: Walk)
    ensures VisitHeading(plain, n, w) == Expected(plain, [n], w)
  {
    var base := SlugGenerator.Slugify(plain(n));
    BasesOfSingle(plain, n);
    FeedSingle(plain, n, base, w);
  }

  lemma BasesOfSingle(plain: PlainText, n: Node)
    ensures BasesOf(plain, [n]) == [SlugGenerator.Slugify(plain(n))]
  {
    Strings.MapSingle(plain, n);
    Strings.MapSingle(SlugGenerator.Slugify, plain(n));
  }

  lemma FeedSingle(plain: PlainText, n: Node, base: string, w: Walk)
    ensures var (slug, t) := SlugGenerator.Next(w.tracker, base);
      Feed(plain, [n], [base], w) == Walk(w.headings + [Record(plain, n, slug)], t)
  {
    SlugGenerator.RunBasesSingle(w.tracker, base);
    var run := SlugGenerator.RunBases(w.tracker, [base]);
    assert Records(plain, [n], run.0) == [Record(plain, n, run.0[0])];
  }

  lemma {:induction false} VisitAllSpec(plain: PlainText, ns: seq<Node>, w: Walk)
    ensures VisitAll(plain, ns, w) == Expected(plain, HeadingsOfAll(ns), w)
    decreases ns
  {
    if ns == [] {
      ExpectedEmpty(plain, w);
    } else {
      var a := HeadingsOf(ns[0]);
      var b := HeadingsOfAll(ns[1..]);
      VisitSpec(plain, ns[0], w);
      VisitAllSpec(plain, ns[1..], Visit(plain, ns[0], w));
      ExpectedAppend(plain, a, b, w);
    }
  }

  lemma ExpectedEmpty(plain: PlainText, w: Walk)
    ensures Expected(plain, [], w) == w
  {
    assert BasesOf(plain, []) == [];
    assert w.headings + Records(plain, [], []) == w.headings;
  }

  /** Walking `a` then `b` is walking `a + b`. */
  lemma ExpectedAppend(plain: PlainText, a: seq<Node>, b: seq<Node>, w: Walk)
    ensures Expected(plain, b, Expected(plain, a, w)) == Expected(plain, a + b, w)
  {
    BasesOfAppend(plain, a, b);
    FeedAppend(plain, a, b, BasesOf(plain, a), BasesOf(plain, b), w);
  }

  lemma BasesOfAppend(plain: PlainText, a: seq<Node>, b: seq<Node>)
    ensures BasesOf(plain, a + b) == BasesOf(plain, a) + BasesOf(plain, b)
  {
    Strings.MapAppend(plain, a, b);
    SlugGenerator.BasesAppend(Plains(plain, a), Plains(plain, b));
  }

  lemma FeedAppend(plain: PlainText, a: seq<Node>, b: seq<Node>, ba: seq<string>, bb: seq<string>, w: Walk)
    requires |ba| == |a| && |bb| == |b|
    ensures Feed(plain, b, bb, Feed(plain, a, ba, w)) == Feed(plain, a + b, ba + bb, w)
  {
    var t := w.tracker;
    SlugGenerator.RunAppend(t, ba, bb);
    var ra := SlugGenerator.RunBases(t, ba);
    var rb := SlugGenerator.RunBases(ra.1, bb);
    var xa, xb := Records(plain, a, ra.0), Records(plain, b, rb.0);
    RecordsAppend(plain, a, b, ra.0, rb.0);
    assert (w.headings + xa) + xb == w.headings + (xa + xb);
  }

  lemma RecordsAppend(plain: PlainText, a: seq<Node>, b: seq<Node>, x: seq<string>, y: seq<string>)
    requires |x| == |a| && |y| == |b|
    ensures Records(plain, a + b, x + y) == Records(plain, a, x) + Records(plain, b, y)
  {
    var l := Records(plain, a + b, x + y);
    var r := Records(plain, a, x) + Records(plain, b, y);
    forall i | 0 <= i < |l|
      ensures l[i] == r[i]
    {
      if i < |a| {
        assert (a + b)[i] == a[i] && (x + y)[i] == x[i];
      } else {
        assert (a + b)[i] == b[i - |a|] && (x + y)[i] == y[i - |a|];
      }
    }
  }

  // ----- Properties of `Extract` -----

  /**
   * One record per heading, in document order: level and text copied, the
   * source line from the range (0 without one), the id from one tracker fed
   * with the headings' plain texts in order.
   */
  lemma ExtractRecords(plain: PlainText, doc: Node)
    ensures var hs := HeadingsOf(doc);
      var ids := SlugGenerator.Run(SlugGenerator.Fresh, Plains(plain, hs)).0;
      var r := Extract(plain, doc);
      && |r| == |hs|
      && forall i :: 0 <= i < |hs| ==>
           && r[i].id == ids[i]
           && r[i].level == LevelOf(hs[i])
           && r[i].text == plain(hs[i])
           && r[i].segments == Segments(hs[i])
           && r[i].sourceLine == (if hs[i].range.Some? then hs[i].range.value.lower.line else 0)
  {
    ExtractSpec(plain, doc);
  }

  /** The records of `Extract` are those of the reference description. */
  lemma ExtractSpec(plain: PlainText, doc: Node)
    ensures var hs := HeadingsOf(doc);
      Extract(plain, doc) == Records(plain, hs, SlugGenerator.RunBases(SlugGenerator.Fresh, BasesOf(plain, hs)).0)
  {
    var w := Walk([], SlugGenerator.Fresh);
    VisitSpec(plain, doc, w);
    var hs := HeadingsOf(doc);
    var rs := Records(plain, hs, SlugGenerator.RunBases(SlugGenerator.Fresh, BasesOf(plain, hs)).0);
    assert w.headings + rs == rs;
  }

  /** Repeated headings get `-1`, `-2`, …: the i-th id counts the earlier headings with the same base. */
  lemma ExtractIds(plain: PlainText, doc: Node, i: nat)
    requires i < |HeadingsOf(doc)|
    ensures var bases := BasesOf(plain, HeadingsOf(doc));
      i < |Extract(plain, doc)|
      && Extract(plain, doc)[i].id == SlugGenerator.Label(bases[i], SlugGenerator.Occurrences(bases[..i], bases[i]))
  {
    var hs := HeadingsOf(doc);
    ExtractSpec(plain, doc);
    FreshIds(plain, hs, BasesOf(plain, hs), i);
  }

  lemma FreshIds(plain: PlainText, hs: seq<Node>, bases: seq<string>, i: nat)
    requires |bases| == |hs| && i < |hs|
    ensures Records(plain, hs, SlugGenerator.RunBases(SlugGenerator.Fresh, bases).0)[i].id
         == SlugGenerator.Label(bases[i], SlugGenerator.Occurrences(bases[..i], bases[i]))
  {
    RecordId(plain, hs, SlugGenerator.RunBases(SlugGenerator.Fresh, bases).0, i);
    FreshSlug(bases, i);
  }

  /** From a fresh tracker, the i-th slug counts only the earlier requests of its base. */
  lemma FreshSlug(bases: seq<string>, i: nat)
    requires i < |bases|
    ensures SlugGenerator.RunBases(SlugGenerator.Fresh, bases).0[i]
         == SlugGenerator.Label(bases[i], SlugGenerator.Occurrences(bases[..i], bases[i]))
  {
    SlugGenerator.FreshCount(bases[i]);
    SlugGenerator.UnseenSlug(SlugGenerator.Fresh, bases, i);
  }

  lemma RecordId(plain: PlainText, hs: seq<Node>, ids: seq<string>, i: nat)
    requires |ids| == |hs| && i < |hs|
    ensures Records(plain, hs, ids)[i].id == ids[i]
  {
  }

  /** A document without headings yields no records. */
  lemma ExtractNone(plain: PlainText, doc: Node)
    requires HeadingsOf(doc) == []
    ensures Extract(plain, doc) == []
  {
    ExtractRecords(plain, doc);
  }

  /** Every record comes from a heading node. */
  lemma {:induction false} HeadingsAreHeadings(n: Node)
    ensures forall h :: h in HeadingsOf(n) ==> h.kind.Heading?
    decreases n
  {
    if !n.kind.Heading? {
      HeadingsAllAreHeadings(n.children);
    }
  }

  lemma {:induction false} HeadingsAllAreHeadings(ns: seq<Node>)
    ensures forall h :: h in HeadingsOfAll(ns) ==> h.kind.Heading?
    decreases ns
  {
    if ns != [] {
      HeadingsAreHeadings(ns[0]);
      HeadingsAllAreHeadings(ns[1..]);
    }
  }

  // ----- Segments -----

  /** Segments of a run of siblings are the segments of each in turn. */
  lemma {:induction false} SegmentsAppend(a: seq<Node>, b: seq<Node>)
    ensures SegmentsOf(a + b) == SegmentsOf(a) + SegmentsOf(b)
    decreases |a|
  {
    if a == [] {
      assert a + b == b;
    } else {
      assert (a + b)[0] == a[0];
      assert (a + b)[1..] == a[1..] + b;
      SegmentsAppend(a[1..], b);
    }
  }

  /** Emphasis, links and other containers are flattened: their segments take their place. */
  lemma SegmentsFlatten(k: Kind, r: Option<SourceRange>, inner: seq<Node>, rest: seq<Node>)
    requires !k.InlineCode? && !k.Text? && !k.SoftBreak?
    ensures SegmentsOf([Node(k, r, inner)] + rest) == SegmentsOf(inner) + SegmentsOf(rest)
  {
    assert ([Node(k, r, inner)] + rest)[1..] == rest;
  }

  /** "The `foo` method": text, code, text. */
  lemma SegmentsWithCode(r: Option<SourceRange>)
    ensures Segments(Node(Heading(2), r, [Node(Text("The "), None, []), Node(InlineCode("foo"), None, []), Node(Text(" method"), None, [])]))
         == [PlainSegment("The "), CodeSegment("foo"), PlainSegment(" method")]
  {
    var ns := [Node(Text("The "), None, []), Node(InlineCode("foo"), None, []), Node(Text(" method"), None, [])];
    assert ns[1..] == [Node(InlineCode("foo"), None, []), Node(Text(" method"), None, [])];
    assert ns[1..][1..] == [Node(Text(" method"), None, [])];
    assert ns[1..][1..][1..] == [];
  }

  /** A soft break becomes a single space. */
  lemma SegmentsSoftBreak(r: Option<SourceRange>, a: string, b: string)
    ensures SegmentsOf([Node(Text(a), None, []), Node(SoftBreak, r, []), Node(Text(b), None, [])])
         == [PlainSegment(a), PlainSegment(" "), PlainSegment(b)]
  {
    var ns := [Node(Text(a), None, []), Node(SoftBreak, r, []), Node(Text(b), None, [])];
    assert ns[1..][1..][1..] == [];
    assert SegmentsOf(ns[1..][1..]) == [PlainSegment(b)];
    assert SegmentsOf(ns[1..]) == [PlainSegment(" "), PlainSegment(b)];
  }
}
