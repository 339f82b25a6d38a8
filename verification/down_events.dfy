/**
 * Phase one of the Down renderer (`DownHTMLVisitor`): the event collector
 * walks the parsed document and turns source ranges into span events, an
 * open and a close per highlighted construct; then the events are sorted.
 *
 * Down mode works on the UTF-8 bytes of the source. Here a source line is a
 * string whose characters are its bytes, so a byte column is an index plus
 * one and a UTF-8 length is a length. Text the parser hands over (a code
 * block's language) is ordinary text and is measured with `Utf8Length`.
 */
module DownEvents {
  import opened Wrappers
  import opened Markup
  import opened Strings
  import CodeHighlighting
  import HtmlLineSplitter

  /** One end of a span: where it goes, whether it opens or closes, its nesting depth and class. */
  datatype SpanEvent = SpanEvent(line: int, column: int, isClose: bool, depth: int, cssClass: string)

  // ----- The event order -----

  /**
   * `SpanEvent.<`: by line, then column; at the same position closes come
   * before opens, inner closes before outer ones, outer opens before inner ones.
   */
  predicate Before(a: SpanEvent, b: SpanEvent) {
    if a.line != b.line then a.line < b.line
    else if a.column != b.column then a.column < b.column
    else if a.isClose != b.isClose then a.isClose
    else if a.isClose then a.depth > b.depth
    else a.depth < b.depth
  }

  /** The sort key: position, closes first, then depth read outward for closes and inward for opens. */
  function Rank(e: SpanEvent): (int, int, int, int) {
    (e.line, e.column, if e.isClose then 0 else 1, if e.isClose then -e.depth else e.depth)
  }

  /** Lexicographic order on keys. */
  predicate LexLess(x: (int, int, int, int), y: (int, int, int, int)) {
    || x.0 < y.0
    || (x.0 == y.0 && x.1 < y.1)
    || (x.0 == y.0 && x.1 == y.1 && x.2 < y.2)
    || (x.0 == y.0 && x.1 == y.1 && x.2 == y.2 && x.3 < y.3)
  }

  /** The comparison is the lexicographic order of the keys. */
  lemma BeforeIsRankOrder(a: SpanEvent, b: SpanEvent)
    ensures Before(a, b) <==> LexLess(Rank(a), Rank(b))
  {
  }

  lemma BeforeIrreflexive(a: SpanEvent)
    ensures !Before(a, a)
  {
  }

  lemma BeforeAsymmetric(a: SpanEvent, b: SpanEvent)
    ensures Before(a, b) ==> !Before(b, a)
  {
    BeforeIsRankOrder(a, b);
    BeforeIsRankOrder(b, a);
  }

  lemma BeforeTransitive(a: SpanEvent, b: SpanEvent, c: SpanEvent)
    ensures Before(a, b) && Before(b, c) ==> Before(a, c)
  {
    BeforeIsRankOrder(a, b);
    BeforeIsRankOrder(b, c);
    BeforeIsRankOrder(a, c);
  }

  /** Two events are tied exactly when they agree on everything but their class. */
  lemma TiedSpec(a: SpanEvent, b: SpanEvent)
    ensures !Before(a, b) && !Before(b, a) <==>
      a.line == b.line && a.column == b.column && a.isClose == b.isClose && a.depth == b.depth
  {
    BeforeIsRankOrder(a, b);
    BeforeIsRankOrder(b, a);
  }

  /** Ties are transitive, so `Before` is a strict weak order. */
  lemma TiedTransitive(a: SpanEvent, b: SpanEvent, c: SpanEvent)
    requires !Before(a, b) && !Before(b, a) && !Before(b, c) && !Before(c, b)
    ensures !Before(a, c) && !Before(c, a)
  {
    TiedSpec(a, b);
    TiedSpec(b, c);
    TiedSpec(a, c);
  }

  /** If `a` comes before `c`, any `b` comes after `a` or before `c`. */
  lemma BeforeSplits(a: SpanEvent, b: SpanEvent, c: SpanEvent)
    ensures Before(a, c) ==> Before(a, b) || Before(b, c)
  {
    BeforeIsRankOrder(a, c);
    BeforeIsRankOrder(a, b);
    BeforeIsRankOrder(b, c);
  }

  // ----- Sorting -----

  /** No event comes before an earlier one. */
  predicate Sorted(es: seq<SpanEvent>) {
    forall i, j :: 0 <= i < j < |es| ==> !Before(es[j], es[i])
  }

  /** Sorted events are in line order. */
  lemma SortedLines(es: seq<SpanEvent>, i: nat, j: nat)
    requires Sorted(es) && i <= j < |es|
    ensures es[i].line <= es[j].line
  {
    if i < j {
      assert !Before(es[j], es[i]);
    }
  }

  function Insert(e: SpanEvent, es: seq<SpanEvent>): (r: seq<SpanEvent>)
    ensures multiset(r) == multiset(es) + multiset{e}
    ensures |r| == |es| + 1
  {
    if es == [] || !Before(es[0], e) then [e] + es
    else
      assert es == [es[0]] + es[1..];
      [es[0]] + Insert(e, es[1..])
  }

  lemma SortedTail(es: seq<SpanEvent>)
    requires Sorted(es) && es != []
    ensures Sorted(es[1..])
  {
    forall i, j | 0 <= i < j < |es[1..]| ensures !Before(es[1..][j], es[1..][i]) {
      assert es[1..][j] == es[j + 1] && es[1..][i] == es[i + 1];
    }
  }

  /** An event no later event comes before, put in front of sorted events, keeps them sorted. */
  lemma SortedCons(x: SpanEvent, t: seq<SpanEvent>)
    requires Sorted(t)
    requires forall j :: 0 <= j < |t| ==> !Before(t[j], x)
    ensures Sorted([x] + t)
  {
    var r := [x] + t;
    forall i, j | 0 <= i < j < |r| ensures !Before(r[j], r[i]) {
      assert r[j] == t[j - 1];
      if i > 0 {
        assert r[i] == t[i - 1];
      }
    }
  }

  /** Nothing in sorted events comes before an event that their first does not come before. */
  lemma SortedLowerBound(e: SpanEvent, es: seq<SpanEvent>)
    requires Sorted(es) && es != [] && !Before(es[0], e)
    ensures forall j :: 0 <= j < |es| ==> !Before(es[j], e)
  {
    forall j | 0 <= j < |es| ensures !Before(es[j], e) {
      BeforeSplits(es[j], es[0], e);
      if j > 0 {
        assert !Before(es[j], es[0]);
      }
    }
  }

  lemma {:induction false} InsertSorted(e: SpanEvent, es: seq<SpanEvent>)
    requires Sorted(es)
    ensures Sorted(Insert(e, es))
    decreases |es|
  {
    if es == [] {
      SortedCons(e, es);
    } else if !Before(es[0], e) {
      SortedLowerBound(e, es);
      SortedCons(e, es);
    } else {
      var tail := Insert(e, es[1..]);
      SortedTail(es);
      InsertSorted(e, es[1..]);
      forall j | 0 <= j < |tail| ensures !Before(tail[j], es[0]) {
        assert tail[j] in multiset(es[1..]) + multiset{e};
        if tail[j] == e {
          BeforeAsymmetric(es[0], e);
        } else {
          assert tail[j] in es[1..];
          var k :| 0 <= k < |es[1..]| && es[1..][k] == tail[j];
          assert es[k + 1] == tail[j];
        }
      }
      SortedCons(es[0], tail);
    }
  }

  /** `events.sort()`. Swift's sort is not stable, so tied events may come out in any order; this is one such order. */
  function Sort(es: seq<SpanEvent>): (r: seq<SpanEvent>)
    ensures multiset(r) == multiset(es)
    ensures |r| == |es|
  {
    if es == [] then []
    else
      assert es == [es[0]] + es[1..];
      Insert(es[0], Sort(es[1..]))
  }

  lemma {:induction false} SortSorted(es: seq<SpanEvent>)
    ensures Sorted(Sort(es))
    decreases |es|
  {
    if es != [] {
      SortSorted(es[1..]);
      InsertSorted(es[0], Sort(es[1..]));
    }
  }

  // ----- Span balance -----

  /**
   * Reading events in order with a stack of open (class, depth) pairs: an
   * open pushes, a close must match the top. `None` when a close does not.
   */
  function Match(es: seq<SpanEvent>, stack: seq<(string, int)>): Option<seq<(string, int)>>
    decreases |es|
  {
    if es == [] then Some(stack)
    else if !es[0].isClose then Match(es[1..], stack + [(es[0].cssClass, es[0].depth)])
    else if stack != [] && stack[|stack| - 1] == (es[0].cssClass, es[0].depth) then Match(es[1..], stack[..|stack| - 1])
    else None
  }

  /** Every open has a later close of the same class and depth, properly nested. */
  predicate Balanced(es: seq<SpanEvent>) {
    Match(es, []) == Some([])
  }

  lemma {:induction false} MatchFrame(es: seq<SpanEvent>, below: seq<(string, int)>, s0: seq<(string, int)>, s1: seq<(string, int)>)
    requires Match(es, s0) == Some(s1)
    ensures Match(es, below + s0) == Some(below + s1)
    decreases |es|
  {
    if es != [] {
      if !es[0].isClose {
        assert below + s0 + [(es[0].cssClass, es[0].depth)] == below + (s0 + [(es[0].cssClass, es[0].depth)]);
        MatchFrame(es[1..], below, s0 + [(es[0].cssClass, es[0].depth)], s1);
      } else {
        assert (below + s0)[..|below + s0| - 1] == below + s0[..|s0| - 1];
        MatchFrame(es[1..], below, s0[..|s0| - 1], s1);
      }
    }
  }

  lemma {:induction false} MatchAppend(a: seq<SpanEvent>, b: seq<SpanEvent>, s: seq<(string, int)>)
    requires Match(a, s).Some?
    ensures Match(a + b, s) == Match(b, Match(a, s).value)
    decreases |a|
  {
    if a == [] {
      assert a + b == b;
    } else {
      assert (a + b)[0] == a[0] && (a + b)[1..] == a[1..] + b;
      if !a[0].isClose {
        MatchAppend(a[1..], b, s + [(a[0].cssClass, a[0].depth)]);
      } else {
        MatchAppend(a[1..], b, s[..|s| - 1]);
      }
    }
  }

  lemma BalancedAppend(a: seq<SpanEvent>, b: seq<SpanEvent>)
    requires Balanced(a) && Balanced(b)
    ensures Balanced(a + b)
  {
    MatchAppend(a, b, []);
  }

  /** An open, balanced events, and the matching close are balanced. */
  lemma BalancedWrap(o: SpanEvent, b: seq<SpanEvent>, c: SpanEvent)
    requires !o.isClose && c.isClose && o.cssClass == c.cssClass && o.depth == c.depth && Balanced(b)
    ensures Balanced([o] + b + [c])
  {
    var top := [(o.cssClass, o.depth)];
    assert [o][1..] == [] && [] + top == top;
    assert Match([o], []) == Some(top);
    MatchAppend([o], b, []);
    MatchFrame(b, top, [], []);
    assert top + [] == top;
    assert Match([o] + b, []) == Some(top);
    MatchAppend([o] + b, [c], []);
    assert [c][1..] == [] && top[..0] == [];
    assert Match([c], top) == Some([]);
  }

  // ----- Collecting -----

  /** What the collector hands to the table phase: the events, and the highlighted lines of fenced code. */
  datatype CodeBlockInfo = CodeBlockInfo(contentFirstLine: int, contentLastLine: int, highlightedLines: seq<string>)

  datatype Collected = Collected(events: seq<SpanEvent>, codeBlocks: seq<CodeBlockInfo>)

  const Nothing := Collected([], [])

  function Then(a: Collected, b: Collected): Collected {
    Collected(a.events + b.events, a.codeBlocks + b.codeBlocks)
  }

  /** An open at `from` and a close at `to`, both of one class and depth. */
  function Span(cls: string, depth: int, fromLine: int, fromColumn: int, toLine: int, toColumn: int): (r: seq<SpanEvent>)
    ensures Balanced(r)
  {
    var o := SpanEvent(fromLine, fromColumn, false, depth, cls);
    var c := SpanEvent(toLine, toColumn, true, depth, cls);
    var r := [o, c];
    assert r[1..] == [c] && [c][1..] == [];
    assert Match([c], [(cls, depth)]) == Some([]);
    r
  }

  /** The class of a construct wrapped as a whole around its children, if it is one. */
  function ContainerClass(k: Kind): Option<string> {
    match k
    case Heading(_) => Some("md-heading")
    case BlockQuote => Some("md-blockquote")
    case Emphasis => Some("md-emphasis")
    case Strong => Some("md-strong")
    case Link(_, _) => Some("md-link")
    case Image(_, _) => Some("md-image")
    case Strikethrough => Some("md-strikethrough")
    case Table(_) => Some("md-table")
    case ListItem(checkbox) => if checkbox.Some? then Some("md-task") else None
    case _ => None
  }

  /** The class of a leaf construct, if it is one. */
  function LeafClass(k: Kind): Option<string> {
    match k
    case InlineCode(_) => Some("md-code")
    case ThematicBreak => Some("md-hr")
    case HtmlBlock(_) => Some("md-html")
    case InlineHtml(_) => Some("md-html")
    case _ => None
  }

  lemma ClassesDisjoint(k: Kind)
    ensures !(ContainerClass(k).Some? && LeafClass(k).Some?)
    ensures ContainerClass(k).Some? || LeafClass(k).Some? ==> !k.CodeBlock?
  {
  }

  /** `lineLen`: the byte length of a 1-based line, 0 outside the source. */
  function LineLen(lines: seq<string>, line: int): (r: nat)
    ensures 1 <= line <= |lines| ==> r == |lines[line - 1]|
    ensures !(1 <= line <= |lines|) ==> r == 0
  {
    if 1 <= line <= |lines| then |lines[line - 1]| else 0
  }

  /** Length of the run of `c` in `s` starting at index `i`. */
  function RunLength(s: string, i: nat, c: char): (n: nat)
    requires i <= |s|
    ensures i + n <= |s|
    decreases |s| - i
  {
    if i < |s| && s[i] == c then 1 + RunLength(s, i + 1, c) else 0
  }

  lemma {:induction false} RunLengthSpec(s: string, i: nat, c: char)
    requires i <= |s|
    ensures forall k :: i <= k < i + RunLength(s, i, c) ==> s[k] == c
    ensures i + RunLength(s, i, c) == |s| || s[i + RunLength(s, i, c)] != c
    decreases |s| - i
  {
    if i < |s| && s[i] == c {
      RunLengthSpec(s, i + 1, c);
    }
  }

  /** `measureFence`: the run of backticks or tildes starting at a position, 0 outside the source or on any other byte. */
  function FenceLen(lines: seq<string>, at: SourceLocation): nat {
    if !(1 <= at.line <= |lines|) then 0
    else
      var line := lines[at.line - 1];
      if !(1 <= at.column <= |line|) then 0
      else
        var c := line[at.column - 1];
        if c != '`' && c != '~' then 0 else RunLength(line, at.column - 1, c)
  }

  /** `measureFence`, as the source writes it: a loop over the line's bytes. */
  method MeasureFence(lines: seq<string>, at: SourceLocation) returns (len: nat)
    ensures len == FenceLen(lines, at)
    ensures len > 0 <==>
      1 <= at.line <= |lines| && 1 <= at.column <= |lines[at.line - 1]|
      && lines[at.line - 1][at.column - 1] in {'`', '~'}
    ensures len > 0 ==>
      var line := lines[at.line - 1];
      && at.column - 1 + len <= |line|
      && (forall k :: at.column - 1 <= k < at.column - 1 + len ==> line[k] == line[at.column - 1])
      && (at.column - 1 + len == |line| || line[at.column - 1 + len] != line[at.column - 1])
  {
    var lineIdx := at.line - 1;
    if lineIdx < 0 || lineIdx >= |lines| {
      return 0;
    }
    var line := lines[lineIdx];
    var colIdx := at.column - 1;
    if colIdx < 0 || colIdx >= |line| {
      return 0;
    }
    var fenceChar := line[colIdx];
    if fenceChar != '`' && fenceChar != '~' {
      return 0;
    }
    len := 0;
    while colIdx + len < |line| && line[colIdx + len] == fenceChar
      invariant colIdx + len <= |line|
      invariant RunLength(line, colIdx, fenceChar) == len + RunLength(line, colIdx + len, fenceChar)
      decreases |line| - len
    {
      len := len + 1;
    }
    RunLengthSpec(line, colIdx, fenceChar);
  }

  /** The environment of the collector: the source split into byte lines, and the highlighter. */
  datatype Source = Source(lines: seq<string>, highlighter: CodeHighlighting.Engine)

  function Max(a: int, b: int): int {
    if a >= b then a else b
  }

  /** The content lines of a fenced block, between its fences, and their highlighted HTML when the highlighter answers. */
  function FenceContent(src: Source, n: Node, depth: int): (r: Collected)
    requires n.kind.CodeBlock? && n.range.Some?
    ensures Balanced(r.events)
  {
    var first := n.range.value.lower.line + 1;
    var last := n.range.value.upper.line - 1;
    if first <= last then
      var hl := CodeHighlighting.Highlight(src.highlighter, n.kind.code, n.kind.language);
      Collected(Span("md-code-block", depth, first, 1, last, Max(LineLen(src.lines, last), 1) + 1),
        if hl.Some? then [CodeBlockInfo(first, last, HtmlLineSplitter.SplitByLine(hl.value))] else [])
    else Nothing
  }

  /**
   * The info string after an opening fence of `fenceLen` characters, one
   * level deeper, when the language is non-empty. The language comes from the
   * parser as text, so its width is its UTF-8 byte count.
   */
  function FenceInfo(n: Node, fenceLen: int, depth: int): (r: seq<SpanEvent>)
    requires n.kind.CodeBlock? && n.range.Some?
    ensures Balanced(r)
  {
    var lo := n.range.value.lower;
    if n.kind.language.Some? && n.kind.language.value != "" then
      var infoCol := lo.column + fenceLen;
      Span("md-code-info", depth + 1, lo.line, infoCol, lo.line, infoCol + Utf8Length(n.kind.language.value))
    else []
  }

  /**
   * `visitCodeBlock`. A fenced block gets a span for each fence line, one for
   * the content lines between them when there are any, and one for the info
   * string nested in the opening fence; highlighted content is kept per line.
   * An indented block gets one span over its lines. Either way every span
   * opened is closed.
   */
  function CodeBlockEvents(src: Source, n: Node, depth: int): (r: Collected)
    requires n.kind.CodeBlock?
    ensures Balanced(r.events)
  {
    if n.range.None? then Nothing
    else
      var lo := n.range.value.lower;
      var hi := n.range.value.upper;
      var fenceLen := FenceLen(src.lines, lo);
      if fenceLen > 0 then
        var open := Span("md-code-fence", depth, lo.line, lo.column, lo.line, LineLen(src.lines, lo.line) + 1);
        var content := FenceContent(src, n, depth);
        var close := Span("md-code-fence", depth, hi.line, 1, hi.line, LineLen(src.lines, hi.line) + 1);
        var info := FenceInfo(n, fenceLen, depth);
        BalancedAppend(open, content.events);
        BalancedAppend(open + content.events, close);
        BalancedAppend(open + content.events + close, info);
        Collected(open + content.events + close + info, content.codeBlocks)
      else
        var lineCount := CountChar(n.kind.code, '\n');
        var lastLine := lo.line + Max(lineCount, 1) - 1;
        Collected(Span("md-code-block", depth, lo.line, lo.column, lastLine, LineLen(src.lines, lastLine) + 1), [])
  }

  /** The collector's walk over a node at a given depth (number of ancestors). */
  function Collect(src: Source, n: Node, depth: int): Collected
    decreases n
  {
    if n.kind.CodeBlock? then CodeBlockEvents(src, n, depth)
    else if LeafClass(n.kind).Some? then
      if n.range.None? then Nothing
      else
        var r := n.range.value;
        Collected(Span(LeafClass(n.kind).value, depth, r.lower.line, r.lower.column, r.upper.line, r.upper.column + 1), [])
    else
      var inner := CollectAll(src, n.children, depth + 1);
      if ContainerClass(n.kind).Some? && n.range.Some? then
        var r := n.range.value;
        var cls := ContainerClass(n.kind).value;
        Collected([SpanEvent(r.lower.line, r.lower.column, false, depth, cls)] + inner.events
          + [SpanEvent(r.upper.line, r.upper.column + 1, true, depth, cls)], inner.codeBlocks)
      else inner
  }

  function CollectAll(src: Source, ns: seq<Node>, depth: int): Collected
    decreases ns
  {
    if ns == [] then Nothing else Then(Collect(src, ns[0], depth), CollectAll(src, ns[1..], depth))
  }

  // ----- What the collector promises -----

  /** Every span the collector emits is opened and closed once, with the same class and depth, properly nested. */
  lemma {:induction false} CollectBalanced(src: Source, n: Node, depth: int)
    ensures Balanced(Collect(src, n, depth).events)
    decreases n
  {
    if n.kind.CodeBlock? {
    } else if LeafClass(n.kind).None? {
      CollectAllBalanced(src, n.children, depth + 1);
      var inner := CollectAll(src, n.children, depth + 1);
      if ContainerClass(n.kind).Some? && n.range.Some? {
        var r := n.range.value;
        var cls := ContainerClass(n.kind).value;
        BalancedWrap(SpanEvent(r.lower.line, r.lower.column, false, depth, cls), inner.events,
          SpanEvent(r.upper.line, r.upper.column + 1, true, depth, cls));
      }
    }
  }

  lemma {:induction false} CollectAllBalanced(src: Source, ns: seq<Node>, depth: int)
    ensures Balanced(CollectAll(src, ns, depth).events)
    decreases ns
  {
    if ns == [] {
      assert Match([], []) == Some([]);
    } else {
      CollectBalanced(src, ns[0], depth);
      CollectAllBalanced(src, ns[1..], depth);
      BalancedAppend(Collect(src, ns[0], depth).events, CollectAll(src, ns[1..], depth).events);
    }
  }

  /** A ranged container opens at its start and closes one column past its end, around its children's events. */
  lemma ContainerEvents(src: Source, n: Node, depth: int)
    requires ContainerClass(n.kind).Some? && n.range.Some?
    ensures var r := n.range.value;
      var cls := ContainerClass(n.kind).value;
      Collect(src, n, depth).events ==
        [SpanEvent(r.lower.line, r.lower.column, false, depth, cls)]
        + CollectAll(src, n.children, depth + 1).events
        + [SpanEvent(r.upper.line, r.upper.column + 1, true, depth, cls)]
  {
    ClassesDisjoint(n.kind);
  }

  /** A node without a range adds no span of its own: only its children's. */
  lemma UnrangedAddsNothing(src: Source, n: Node, depth: int)
    requires n.range.None? && !n.kind.CodeBlock?
    ensures Collect(src, n, depth) == if LeafClass(n.kind).Some? then Nothing else CollectAll(src, n.children, depth + 1)
  {
  }

  /**
   * The info span covers the language's bytes, not its characters: for an
   * ASCII language the two agree, and `ñ` spans two columns.
   */
  lemma {:induction false} FenceInfoBytes(n: Node, fenceLen: int, depth: int)
    requires n.kind.CodeBlock? && n.range.Some? && n.kind.language.Some? && n.kind.language.value != ""
    ensures var r := FenceInfo(n, fenceLen, depth);
      && |r| == 2 && r[0].line == r[1].line
      && r[1].column - r[0].column == Utf8Length(n.kind.language.value)
      && ((forall i :: 0 <= i < |n.kind.language.value| ==> n.kind.language.value[i] as int < 0x80) ==>
            r[1].column - r[0].column == |n.kind.language.value|)
      && (n.kind.language.value == "\U{00F1}" ==> r[1].column - r[0].column == 2)
  {
    var lang := n.kind.language.value;
    if lang == "\U{00F1}" {
      assert Utf8Length(lang) == Utf8Width(lang[0]) + Utf8Length(lang[1..]);
    }
  }

  /**
   * A fenced code block: the opening fence from its start to the line's end,
   * the content span exactly when a line lies between the fences, the closing
   * fence, and the info span exactly when the language is non-empty, one
   * level deeper, starting right after the fence and as wide as the language's
   * UTF-8 bytes.
   */
  lemma FencedCodeBlock(src: Source, n: Node, depth: int)
    requires n.kind.CodeBlock? && n.range.Some? && FenceLen(src.lines, n.range.value.lower) > 0
    ensures var lo := n.range.value.lower;
      var hi := n.range.value.upper;
      var es := CodeBlockEvents(src, n, depth).events;
      var hasContent := lo.line + 1 <= hi.line - 1;
      var hasInfo := n.kind.language.Some? && n.kind.language.value != "";
      var k := if hasContent then 4 else 2;
      && |es| == k + 2 + (if hasInfo then 2 else 0)
      && es[0] == SpanEvent(lo.line, lo.column, false, depth, "md-code-fence")
      && es[1] == SpanEvent(lo.line, LineLen(src.lines, lo.line) + 1, true, depth, "md-code-fence")
      && (hasContent ==>
            && es[2] == SpanEvent(lo.line + 1, 1, false, depth, "md-code-block")
            && es[3].line == hi.line - 1 && es[3].isClose && es[3].cssClass == "md-code-block")
      && es[k] == SpanEvent(hi.line, 1, false, depth, "md-code-fence")
      && (hasInfo ==>
            var infoCol := lo.column + FenceLen(src.lines, lo);
            && es[k + 2] == SpanEvent(lo.line, infoCol, false, depth + 1, "md-code-info")
            && es[k + 3] == SpanEvent(lo.line, infoCol + Utf8Length(n.kind.language.value), true, depth + 1, "md-code-info"))
  {
  }

  /** Highlighted lines are kept only for a fenced block with content lines, and only when the highlighter answers. */
  lemma FencedHighlightKept(src: Source, n: Node, depth: int)
    requires n.kind.CodeBlock? && n.range.Some? && FenceLen(src.lines, n.range.value.lower) > 0
    ensures var lo := n.range.value.lower;
      var hi := n.range.value.upper;
      var hl := CodeHighlighting.Highlight(src.highlighter, n.kind.code, n.kind.language);
      CodeBlockEvents(src, n, depth).codeBlocks ==
        if lo.line + 1 <= hi.line - 1 && hl.Some?
        then [CodeBlockInfo(lo.line + 1, hi.line - 1, HtmlLineSplitter.SplitByLine(hl.value))]
        else []
  {
  }

  /** An indented block (no fence at its start) is one span from its start to the end of its last code line. */
  lemma IndentedCodeBlock(src: Source, n: Node, depth: int)
    requires n.kind.CodeBlock? && n.range.Some? && FenceLen(src.lines, n.range.value.lower) == 0
    ensures var lo := n.range.value.lower;
      var last := lo.line + Max(CountChar(n.kind.code, '\n'), 1) - 1;
      CodeBlockEvents(src, n, depth) ==
        Collected([SpanEvent(lo.line, lo.column, false, depth, "md-code-block"),
                   SpanEvent(last, LineLen(src.lines, last) + 1, true, depth, "md-code-block")], [])
  {
  }
}
