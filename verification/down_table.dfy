/**
 * Phase two of the Down renderer (`applyEventsAsTable`): the sorted span
 * events are laid over the source, one table row per line. A row shows the
 * line number, reopens the spans still open from the row above, writes the
 * line's text escaped in segments between event columns (or a code block's
 * highlighted HTML for that line), writes the tags of the remaining events
 * of the line, and closes every span still open at its end.
 *
 * The output is modelled as a sequence of pieces, so that what a row shows
 * (source text, tags, raw HTML) can be stated apart from how it is spelled.
 */
module DownTable {
  import opened Wrappers
  import opened Strings
  import opened HtmlEscaping
  import opened DownEvents
  import Markup
  import CodeHighlighting

  // ----- Pieces of output -----

  datatype Piece =
    | Raw(html: string)         // markup or highlighted HTML, written as is
    | Plain(text: string)       // source text, written escaped
    | Tag(event: SpanEvent)     // the tag of one event
    | Reopen(cssClass: string)  // a span carried over from the row above
    | Unwind                    // a span closed at the end of the row

  function OpenSpan(cls: string): string {
    "<span class=\"" + cls + "\">"
  }

  const CloseSpan := "</span>"
  const TableOpen := "<table class=\"down-lines\"><tbody>"
  const TableClose := "</tbody></table>"
  const RowClose := "</td></tr>"

  function RowOpen(lineNum: nat): string {
    "<tr><td class=\"ln\">" + NatToString(lineNum) + "</td><td class=\"lc\">"
  }

  function Render(p: Piece): string {
    match p
    case Raw(h) => h
    case Plain(t) => Escape(t)
    case Tag(e) => if e.isClose then CloseSpan else OpenSpan(e.cssClass)
    case Reopen(c) => OpenSpan(c)
    case Unwind => CloseSpan
  }

  function RenderAll(ps: seq<Piece>): string {
    if ps == [] then "" else Render(ps[0]) + RenderAll(ps[1..])
  }

  lemma {:induction false} RenderAllAppend(a: seq<Piece>, b: seq<Piece>)
    ensures RenderAll(a + b) == RenderAll(a) + RenderAll(b)
    decreases |a|
  {
    if a == [] {
      assert a + b == b;
    } else {
      assert (a + b)[0] == a[0] && (a + b)[1..] == a[1..] + b;
      RenderAllAppend(a[1..], b);
      Assoc(Render(a[0]), RenderAll(a[1..]), RenderAll(b));
    }
  }

  lemma Assoc(a: string, b: string, c: string)
    ensures a + (b + c) == a + b + c
  {
  }

  // What a run of pieces shows, one aspect at a time.

  /** The source text, unescaped. */
  function PlainOf(ps: seq<Piece>): string {
    if ps == [] then "" else (if ps[0].Plain? then ps[0].text else "") + PlainOf(ps[1..])
  }

  /** The events whose tags are written. */
  function TagsOf(ps: seq<Piece>): seq<SpanEvent> {
    if ps == [] then [] else (if ps[0].Tag? then [ps[0].event] else []) + TagsOf(ps[1..])
  }

  /** The raw HTML written as is. */
  function RawsOf(ps: seq<Piece>): seq<string> {
    if ps == [] then [] else (if ps[0].Raw? then [ps[0].html] else []) + RawsOf(ps[1..])
  }

  /** How many `<span>` tags are written. */
  function Opens(ps: seq<Piece>): nat {
    if ps == [] then 0 else (if ps[0].Reopen? || (ps[0].Tag? && !ps[0].event.isClose) then 1 else 0) + Opens(ps[1..])
  }

  /** How many `</span>` tags are written. */
  function Closes(ps: seq<Piece>): nat {
    if ps == [] then 0 else (if ps[0].Unwind? || (ps[0].Tag? && ps[0].event.isClose) then 1 else 0) + Closes(ps[1..])
  }

  lemma {:induction false} PlainAppend(a: seq<Piece>, b: seq<Piece>)
    ensures PlainOf(a + b) == PlainOf(a) + PlainOf(b)
    decreases |a|
  {
    if a == [] {
      assert a + b == b;
    } else {
      assert (a + b)[0] == a[0] && (a + b)[1..] == a[1..] + b;
      PlainAppend(a[1..], b);
      Assoc(if a[0].Plain? then a[0].text else "", PlainOf(a[1..]), PlainOf(b));
    }
  }

  lemma {:induction false} TagsAppend(a: seq<Piece>, b: seq<Piece>)
    ensures TagsOf(a + b) == TagsOf(a) + TagsOf(b)
    decreases |a|
  {
    if a == [] {
      assert a + b == b;
    } else {
      assert (a + b)[0] == a[0] && (a + b)[1..] == a[1..] + b;
      TagsAppend(a[1..], b);
      var h := if a[0].Tag? then [a[0].event] else [];
      assert h + (TagsOf(a[1..]) + TagsOf(b)) == h + TagsOf(a[1..]) + TagsOf(b);
    }
  }

  lemma {:induction false} RawsAppend(a: seq<Piece>, b: seq<Piece>)
    ensures RawsOf(a + b) == RawsOf(a) + RawsOf(b)
    decreases |a|
  {
    if a == [] {
      assert a + b == b;
    } else {
      assert (a + b)[0] == a[0] && (a + b)[1..] == a[1..] + b;
      RawsAppend(a[1..], b);
      var h := if a[0].Raw? then [a[0].html] else [];
      assert h + (RawsOf(a[1..]) + RawsOf(b)) == h + RawsOf(a[1..]) + RawsOf(b);
    }
  }

  lemma {:induction false} CountsAppend(a: seq<Piece>, b: seq<Piece>)
    ensures Opens(a + b) == Opens(a) + Opens(b)
    ensures Closes(a + b) == Closes(a) + Closes(b)
    decreases |a|
  {
    if a == [] {
      assert a + b == b;
    } else {
      assert (a + b)[0] == a[0] && (a + b)[1..] == a[1..] + b;
      CountsAppend(a[1..], b);
    }
  }

  /** All aspects of a concatenation. */
  lemma ShowsAppend(a: seq<Piece>, b: seq<Piece>)
    ensures PlainOf(a + b) == PlainOf(a) + PlainOf(b)
    ensures TagsOf(a + b) == TagsOf(a) + TagsOf(b)
    ensures RawsOf(a + b) == RawsOf(a) + RawsOf(b)
    ensures Opens(a + b) == Opens(a) + Opens(b)
    ensures Closes(a + b) == Closes(a) + Closes(b)
  {
    PlainAppend(a, b);
    TagsAppend(a, b);
    RawsAppend(a, b);
    CountsAppend(a, b);
  }

  /** All aspects of one piece. */
  lemma ShowsSingle(p: Piece)
    ensures PlainOf([p]) == if p.Plain? then p.text else ""
    ensures TagsOf([p]) == if p.Tag? then [p.event] else []
    ensures RawsOf([p]) == if p.Raw? then [p.html] else []
    ensures Opens([p]) == if p.Reopen? || (p.Tag? && !p.event.isClose) then 1 else 0
    ensures Closes([p]) == if p.Unwind? || (p.Tag? && p.event.isClose) then 1 else 0
  {
    assert [p][1..] == [];
  }

  /** The pieces of source text, without any markup. */
  function Texts(ps: seq<Piece>): (r: seq<Piece>)
    ensures forall i :: 0 <= i < |r| ==> r[i].Plain?
  {
    if ps == [] then [] else (if ps[0].Plain? then [ps[0]] else []) + Texts(ps[1..])
  }

  /** Stripped of markup, a run of pieces shows its source text escaped, in order. */
  lemma {:induction false} TextsRenderEscaped(ps: seq<Piece>)
    ensures RenderAll(Texts(ps)) == Escape(PlainOf(ps))
    decreases |ps|
  {
    if ps != [] {
      TextsRenderEscaped(ps[1..]);
      var head := if ps[0].Plain? then [ps[0]] else [];
      RenderAllAppend(head, Texts(ps[1..]));
      EscapeConcat(if ps[0].Plain? then ps[0].text else "", PlainOf(ps[1..]));
      if ps[0].Plain? {
        assert head[1..] == [];
      }
    }
  }

  // ----- The stack of open spans -----

  /** `openSpans.remove(at: openSpans.lastIndex(of: x))`, when `x` is there at all. */
  function RemoveLast(s: seq<string>, x: string): (r: seq<string>)
    ensures x !in s ==> r == s
    ensures x in s ==> |r| == |s| - 1
  {
    if x !in s then s
    else if s[|s| - 1] == x then
      assert s == s[..|s| - 1] + [x];
      s[..|s| - 1]
    else
      assert s == s[..|s| - 1] + [s[|s| - 1]];
      assert x in s[..|s| - 1];
      RemoveLast(s[..|s| - 1], x) + [s[|s| - 1]]
  }

  /** It is exactly the last occurrence that goes. */
  lemma {:induction false} RemoveLastAt(s: seq<string>, x: string, i: nat)
    requires i < |s| && s[i] == x && x !in s[i + 1..]
    ensures RemoveLast(s, x) == s[..i] + s[i + 1..]
    decreases |s|
  {
    assert x in s;
    if s[|s| - 1] != x {
      var t := s[..|s| - 1];
      assert t[i] == x && t[i + 1..] == s[i + 1..|s| - 1];
      RemoveLastAt(t, x, i);
      assert s[i + 1..] == t[i + 1..] + [s[|s| - 1]];
    } else {
      assert i == |s| - 1;
    }
  }

  /** `emitTag`'s effect on the stack: an open pushes its class, a close removes the last entry of its class. */
  function Shift(open: seq<string>, e: SpanEvent): seq<string> {
    if e.isClose then RemoveLast(open, e.cssClass) else open + [e.cssClass]
  }

  /** A close whose class is not open still writes `</span>`: a miss. */
  function Miss(open: seq<string>, e: SpanEvent): nat {
    if e.isClose && e.cssClass !in open then 1 else 0
  }

  /** The stack grows by one per open, shrinks by one per close that finds its class. */
  lemma ShiftSize(open: seq<string>, e: SpanEvent)
    ensures |Shift(open, e)| + (if e.isClose then 1 else 0) == |open| + (if e.isClose then 0 else 1) + Miss(open, e)
  {
  }

  // ----- Walking one line -----

  /** The pieces written so far, the next event, the open spans, and the misses. */
  datatype Step = Step(pieces: seq<Piece>, ei: nat, open: seq<string>, misses: nat)

  /** The text between column `col` and the event column `t`, when the event lies ahead. */
  function Gap(line: string, col: int, t: int): seq<Piece>
    requires 1 <= col && t <= |line|
  {
    if t > col then [Plain(line[col - 1..t - 1])] else []
  }

  /** The text from column `col` to the end of the line, if any is left. */
  function Tail(line: string, col: int): seq<Piece>
    requires 1 <= col <= |line| + 1
  {
    if col - 1 < |line| then [Plain(line[col - 1..])] else []
  }

  /**
   * `emitLineContent`: the events of line `lineNum` whose column lies in the
   * line, each preceded by the text up to its column (if it lies ahead), and
   * the rest of the line after the last of them. `col` is the 1-based column
   * of the next unwritten byte.
   */
  function Content(line: string, lineNum: int, events: seq<SpanEvent>, ei: nat, col: int, open: seq<string>): (r: Step)
    requires ei <= |events| && 1 <= col <= |line| + 1
    ensures ei <= r.ei <= |events|
    decreases |events| - ei
  {
    if ei < |events| && events[ei].line == lineNum && events[ei].column <= |line| then
      var e := events[ei];
      var rest := Content(line, lineNum, events, ei + 1, Max(col, e.column), Shift(open, e));
      Step(Gap(line, col, e.column) + [Tag(e)] + rest.pieces, rest.ei, rest.open, Miss(open, e) + rest.misses)
    else
      Step(Tail(line, col), ei, open, 0)
  }

  /** The tags of the events of line `lineNum` from `ei` on, while their column is within `bound` (if any). */
  function Tags(events: seq<SpanEvent>, ei: nat, lineNum: int, bound: Option<int>, open: seq<string>): (r: Step)
    requires ei <= |events|
    ensures ei <= r.ei <= |events|
    decreases |events| - ei
  {
    if ei < |events| && events[ei].line == lineNum && (bound.None? || events[ei].column <= bound.value) then
      var e := events[ei];
      var rest := Tags(events, ei + 1, lineNum, bound, Shift(open, e));
      Step([Tag(e)] + rest.pieces, rest.ei, rest.open, Miss(open, e) + rest.misses)
    else Step([], ei, open, 0)
  }

  lemma GapShows(line: string, col: int, t: int)
    requires 1 <= col && t <= |line|
    ensures PlainOf(Gap(line, col, t)) == if t > col then line[col - 1..t - 1] else ""
    ensures TagsOf(Gap(line, col, t)) == [] && RawsOf(Gap(line, col, t)) == []
    ensures Opens(Gap(line, col, t)) == 0 && Closes(Gap(line, col, t)) == 0
  {
    if t > col {
      ShowsSingle(Plain(line[col - 1..t - 1]));
    }
  }

  lemma TailShows(line: string, col: int)
    requires 1 <= col <= |line| + 1
    ensures PlainOf(Tail(line, col)) == line[col - 1..]
    ensures TagsOf(Tail(line, col)) == [] && RawsOf(Tail(line, col)) == []
    ensures Opens(Tail(line, col)) == 0 && Closes(Tail(line, col)) == 0
  {
    if col - 1 < |line| {
      ShowsSingle(Plain(line[col - 1..]));
    }
  }

  /** The step wrote exactly the tags of `events[ei..r.ei]`, all on line `lineNum`, and kept the stack count. */
  predicate Consumed(r: Step, events: seq<SpanEvent>, ei: nat, lineNum: int, open: seq<string>)
    requires ei <= r.ei <= |events|
  {
    && TagsOf(r.pieces) == events[ei..r.ei]
    && (forall i :: ei <= i < r.ei ==> events[i].line == lineNum)
    && |r.open| + Closes(r.pieces) == |open| + Opens(r.pieces) + r.misses
  }

  /** A tag after pieces without tags or spans: what the tag adds to the rest. */
  lemma TagFront(e: SpanEvent, gap: seq<Piece>, rest: seq<Piece>)
    requires TagsOf(gap) == [] && Opens(gap) == 0 && Closes(gap) == 0
    ensures TagsOf(gap + [Tag(e)] + rest) == [e] + TagsOf(rest)
    ensures Opens(gap + [Tag(e)] + rest) == (if e.isClose then 0 else 1) + Opens(rest)
    ensures Closes(gap + [Tag(e)] + rest) == (if e.isClose then 1 else 0) + Closes(rest)
  {
    TagsAppend(gap + [Tag(e)], rest);
    CountsAppend(gap + [Tag(e)], rest);
    TagsAppend(gap, [Tag(e)]);
    CountsAppend(gap, [Tag(e)]);
    ShowsSingle(Tag(e));
  }

  /** Writing one event's tag after some text keeps `Consumed`. */
  lemma ConsumedStep(e: SpanEvent, gap: seq<Piece>, rest: Step, events: seq<SpanEvent>, ei: nat, lineNum: int, open: seq<string>)
    requires ei < |events| && events[ei] == e && e.line == lineNum
    requires ei + 1 <= rest.ei <= |events|
    requires Consumed(rest, events, ei + 1, lineNum, Shift(open, e))
    requires TagsOf(gap) == [] && Opens(gap) == 0 && Closes(gap) == 0
    ensures Consumed(Step(gap + [Tag(e)] + rest.pieces, rest.ei, rest.open, Miss(open, e) + rest.misses), events, ei, lineNum, open)
  {
    TagFront(e, gap, rest.pieces);
    assert events[ei..rest.ei] == [e] + events[ei + 1..rest.ei];
    ShiftSize(open, e);
  }

  /** A tag adds no text and no raw HTML. */
  lemma TagShowsNothing(gap: seq<Piece>, e: SpanEvent)
    ensures PlainOf(gap + [Tag(e)]) == PlainOf(gap)
    ensures RawsOf(gap + [Tag(e)]) == RawsOf(gap)
  {
    PlainAppend(gap, [Tag(e)]);
    RawsAppend(gap, [Tag(e)]);
    ShowsSingle(Tag(e));
    assert PlainOf(gap) + "" == PlainOf(gap);
    assert RawsOf(gap) + [] == RawsOf(gap);
  }

  /** The text and raw HTML a content step writes: those of the gap, nothing for the tag, then those of the rest. */
  lemma ContentPieces(gap: seq<Piece>, e: SpanEvent, rest: seq<Piece>)
    ensures PlainOf(gap + [Tag(e)] + rest) == PlainOf(gap) + PlainOf(rest)
    ensures RawsOf(gap + [Tag(e)] + rest) == RawsOf(gap) + RawsOf(rest)
  {
    TagShowsNothing(gap, e);
    PlainAppend(gap + [Tag(e)], rest);
    RawsAppend(gap + [Tag(e)], rest);
  }

  /** The text up to an event's column, then the line from the later of the two columns, is the line from `col` on. */
  lemma GapThenRest(line: string, col: int, t: int)
    requires 1 <= col <= |line| + 1 && t <= |line|
    ensures PlainOf(Gap(line, col, t)) + line[Max(col, t) - 1..] == line[col - 1..]
    ensures RawsOf(Gap(line, col, t)) == []
  {
    GapShows(line, col, t);
    if t > col {
      assert line[col - 1..] == line[col - 1..t - 1] + line[t - 1..];
    }
  }

  /** The pieces show the line from column `col` on, and no raw HTML. */
  predicate ShowsFrom(ps: seq<Piece>, line: string, col: int)
    requires 1 <= col <= |line| + 1
  {
    PlainOf(ps) == line[col - 1..] && RawsOf(ps) == []
  }

  /** One step of the content walk keeps the text: the gap up to the event, then the rest of the line from there. */
  lemma ContentTextStep(line: string, col: int, e: SpanEvent, rest: seq<Piece>)
    requires 1 <= col <= |line| + 1 && e.column <= |line|
    requires ShowsFrom(rest, line, Max(col, e.column))
    ensures ShowsFrom(Gap(line, col, e.column) + [Tag(e)] + rest, line, col)
  {
    ContentPieces(Gap(line, col, e.column), e, rest);
    GapThenRest(line, col, e.column);
  }

  /** The content walk from an event of the line shows what the walk after it shows, and the text in between. */
  lemma ContentTextAt(line: string, lineNum: int, events: seq<SpanEvent>, ei: nat, col: int, open: seq<string>)
    requires ei < |events| && events[ei].line == lineNum && events[ei].column <= |line| && 1 <= col <= |line| + 1
    requires ShowsFrom(Content(line, lineNum, events, ei + 1, Max(col, events[ei].column), Shift(open, events[ei])).pieces,
      line, Max(col, events[ei].column))
    ensures ShowsFrom(Content(line, lineNum, events, ei, col, open).pieces, line, col)
  {
    var e := events[ei];
    ContentTextStep(line, col, e, Content(line, lineNum, events, ei + 1, Max(col, e.column), Shift(open, e)).pieces);
  }

  /** The text written for a line is the line itself, from `col` on, whatever the events. */
  lemma {:induction false} ContentText(line: string, lineNum: int, events: seq<SpanEvent>, ei: nat, col: int, open: seq<string>)
    requires ei <= |events| && 1 <= col <= |line| + 1
    ensures ShowsFrom(Content(line, lineNum, events, ei, col, open).pieces, line, col)
    decreases |events| - ei
  {
    if ei < |events| && events[ei].line == lineNum && events[ei].column <= |line| {
      ContentText(line, lineNum, events, ei + 1, Max(col, events[ei].column), Shift(open, events[ei]));
      ContentTextAt(line, lineNum, events, ei, col, open);
    } else {
      TailShows(line, col);
    }
  }

  /** What the content walk of `line` from `ei` promises of its result `r`. */
  predicate ContentWalk(r: Step, line: string, events: seq<SpanEvent>, ei: nat, lineNum: int, open: seq<string>) {
    && ei <= r.ei <= |events|
    && Consumed(r, events, ei, lineNum, open)
    && (r.ei == |events| || events[r.ei].line != lineNum || events[r.ei].column > |line|)
  }

  /** One step of the content walk: the text up to the event, its tag, then the rest. */
  lemma ContentStep(line: string, col: int, e: SpanEvent, rest: Step, events: seq<SpanEvent>, ei: nat, lineNum: int, open: seq<string>)
    requires ei < |events| && events[ei] == e && e.line == lineNum
    requires 1 <= col && e.column <= |line|
    requires ContentWalk(rest, line, events, ei + 1, lineNum, Shift(open, e))
    ensures ContentWalk(Step(Gap(line, col, e.column) + [Tag(e)] + rest.pieces, rest.ei, rest.open, Miss(open, e) + rest.misses),
      line, events, ei, lineNum, open)
  {
    GapShows(line, col, e.column);
    ConsumedStep(e, Gap(line, col, e.column), rest, events, ei, lineNum, open);
  }

  /** The content walk writes the tags of exactly the events it passes, and stops at the first event past the line. */
  lemma {:induction false} ContentConsumes(line: string, lineNum: int, events: seq<SpanEvent>, ei: nat, col: int, open: seq<string>)
    requires ei <= |events| && 1 <= col <= |line| + 1
    ensures ContentWalk(Content(line, lineNum, events, ei, col, open), line, events, ei, lineNum, open)
    decreases |events| - ei
  {
    if ei < |events| && events[ei].line == lineNum && events[ei].column <= |line| {
      var e := events[ei];
      ContentConsumes(line, lineNum, events, ei + 1, Max(col, e.column), Shift(open, e));
      ContentStep(line, col, e, Content(line, lineNum, events, ei + 1, Max(col, e.column), Shift(open, e)), events, ei, lineNum, open);
    } else {
      TailShows(line, col);
      assert events[ei..ei] == [];
    }
  }

  /** What the tag walk from `ei` promises of its result `r`. */
  predicate TagWalk(r: Step, events: seq<SpanEvent>, ei: nat, lineNum: int, bound: Option<int>, open: seq<string>) {
    && ei <= r.ei <= |events|
    && Consumed(r, events, ei, lineNum, open)
    && PlainOf(r.pieces) == "" && RawsOf(r.pieces) == []
    && (r.ei == |events| || events[r.ei].line != lineNum || (bound.Some? && events[r.ei].column > bound.value))
  }

  /** One step of the tag walk: a tag and no text in front of the rest. */
  lemma TagsStep(e: SpanEvent, rest: Step, events: seq<SpanEvent>, ei: nat, lineNum: int, bound: Option<int>, open: seq<string>)
    requires ei < |events| && events[ei] == e && e.line == lineNum
    requires TagWalk(rest, events, ei + 1, lineNum, bound, Shift(open, e))
    ensures TagWalk(Step([Tag(e)] + rest.pieces, rest.ei, rest.open, Miss(open, e) + rest.misses), events, ei, lineNum, bound, open)
  {
    PlainAppend([Tag(e)], rest.pieces);
    RawsAppend([Tag(e)], rest.pieces);
    ShowsSingle(Tag(e));
    assert [] + [Tag(e)] + rest.pieces == [Tag(e)] + rest.pieces;
    ConsumedStep(e, [], rest, events, ei, lineNum, open);
  }

  /** The tag walk writes the tags of exactly the events it passes, no text, and stops at the first event it may not take. */
  lemma {:induction false} TagsConsume(events: seq<SpanEvent>, ei: nat, lineNum: int, bound: Option<int>, open: seq<string>)
    requires ei <= |events|
    ensures TagWalk(Tags(events, ei, lineNum, bound, open), events, ei, lineNum, bound, open)
    decreases |events| - ei
  {
    if ei < |events| && events[ei].line == lineNum && (bound.None? || events[ei].column <= bound.value) {
      var e := events[ei];
      TagsConsume(events, ei + 1, lineNum, bound, Shift(open, e));
      TagsStep(e, Tags(events, ei + 1, lineNum, bound, Shift(open, e)), events, ei, lineNum, bound, open);
    } else {
      assert events[ei..ei] == [];
    }
  }

  // ----- Highlighted lines -----

  predicate Covers(cb: CodeBlockInfo, n: int) {
    cb.contentFirstLine <= n <= cb.contentLastLine
  }

  /** `highlightedLine`: the first code block covering line `n` decides; its line for `n`, if it has one. */
  function HighlightedLine(n: int, cbs: seq<CodeBlockInfo>): Option<string>
    decreases |cbs|
  {
    if cbs == [] then None
    else if Covers(cbs[0], n) then
      var idx := n - cbs[0].contentFirstLine;
      if idx < |cbs[0].highlightedLines| then Some(cbs[0].highlightedLines[idx]) else None
    else HighlightedLine(n, cbs[1..])
  }

  /** When block `i` is the first to cover `n`, its line for `n` is the answer (none if it has too few lines). */
  lemma {:induction false} HighlightedLineFirst(n: int, cbs: seq<CodeBlockInfo>, i: nat)
    requires i < |cbs| && Covers(cbs[i], n)
    requires forall j :: 0 <= j < i ==> !Covers(cbs[j], n)
    ensures var cb := cbs[i];
      var idx := n - cb.contentFirstLine;
      HighlightedLine(n, cbs) == if idx < |cb.highlightedLines| then Some(cb.highlightedLines[idx]) else None
    decreases i
  {
    if i > 0 {
      assert !Covers(cbs[0], n);
      HighlightedLineFirst(n, cbs[1..], i - 1);
    }
  }

  /** No covering block, no highlighted line. */
  lemma {:induction false} HighlightedLineNone(n: int, cbs: seq<CodeBlockInfo>)
    requires forall j :: 0 <= j < |cbs| ==> !Covers(cbs[j], n)
    ensures HighlightedLine(n, cbs) == None
    decreases |cbs|
  {
    if cbs != [] {
      assert !Covers(cbs[0], n);
      HighlightedLineNone(n, cbs[1..]);
    }
  }

  // ----- Rows -----

  /** One open tag per carried span, outermost first. */
  function Reopens(open: seq<string>): seq<Piece> {
    if open == [] then [] else [Reopen(open[0])] + Reopens(open[1..])
  }

  /** `n` close tags. */
  function Unwinds(n: nat): seq<Piece> {
    if n == 0 then [] else [Unwind] + Unwinds(n - 1)
  }

  lemma {:induction false} ReopensShow(open: seq<string>)
    ensures PlainOf(Reopens(open)) == "" && TagsOf(Reopens(open)) == [] && RawsOf(Reopens(open)) == []
    ensures Opens(Reopens(open)) == |open| && Closes(Reopens(open)) == 0
    decreases |open|
  {
    if open != [] {
      ReopensShow(open[1..]);
      ShowsAppend([Reopen(open[0])], Reopens(open[1..]));
      ShowsSingle(Reopen(open[0]));
    }
  }

  lemma {:induction false} UnwindsShow(n: nat)
    ensures PlainOf(Unwinds(n)) == "" && TagsOf(Unwinds(n)) == [] && RawsOf(Unwinds(n)) == []
    ensures Opens(Unwinds(n)) == 0 && Closes(Unwinds(n)) == n
    decreases n
  {
    if n > 0 {
      UnwindsShow(n - 1);
      ShowsAppend([Unwind], Unwinds(n - 1));
      ShowsSingle(Unwind);
    }
  }

  /** The cells of row `k` (0-based) around its content: number, carried spans reopened, `n` spans closed. */
  function Frame(k: nat, open: seq<string>, middle: seq<Piece>, n: nat): seq<Piece> {
    [Raw(RowOpen(k + 1))] + Reopens(open) + middle + Unwinds(n) + [Raw(RowClose)]
  }

  lemma FrameShows(k: nat, open: seq<string>, middle: seq<Piece>, n: nat)
    ensures var f := Frame(k, open, middle, n);
      && PlainOf(f) == PlainOf(middle)
      && TagsOf(f) == TagsOf(middle)
      && RawsOf(f) == [RowOpen(k + 1)] + RawsOf(middle) + [RowClose]
      && Opens(f) == |open| + Opens(middle)
      && Closes(f) == Closes(middle) + n
  {
    var a := [Raw(RowOpen(k + 1))];
    var b := Reopens(open);
    var d := Unwinds(n);
    var e := [Raw(RowClose)];
    ShowsAppend(a + b + middle + d, e);
    ShowsAppend(a + b + middle, d);
    ShowsAppend(a + b, middle);
    ShowsAppend(a, b);
    ShowsSingle(a[0]);
    ShowsSingle(e[0]);
    ReopensShow(open);
    UnwindsShow(n);
    assert [RowOpen(k + 1)] + [] + RawsOf(middle) + [] == [RowOpen(k + 1)] + RawsOf(middle);
  }

  /** The middle of row `k` (0-based): the highlighted line after the events at its start, or the source line's content. */
  function Body(lines: seq<string>, k: nat, events: seq<SpanEvent>, h: Option<string>, ei: nat, open: seq<string>): (r: Step)
    requires ei <= |events|
    ensures ei <= r.ei <= |events|
  {
    match h
    case Some(html) =>
      var lead := Tags(events, ei, k + 1, Some(1), open);
      lead.(pieces := lead.pieces + [Raw(html)])
    case None =>
      if k < |lines| then Content(lines[k], k + 1, events, ei, 1, open) else Step([], ei, open, 0)
  }

  /** Row `k` (0-based), showing line number `k + 1`: its body, then the tags of the line's remaining events. */
  function Row(lines: seq<string>, k: nat, events: seq<SpanEvent>, h: Option<string>, ei: nat, open: seq<string>): (r: Step)
    requires ei <= |events|
    ensures ei <= r.ei <= |events|
  {
    var body := Body(lines, k, events, h, ei, open);
    var flush := Tags(events, body.ei, k + 1, None, body.open);
    Step(Frame(k, open, body.pieces + flush.pieces, |flush.open|), flush.ei, flush.open, body.misses + flush.misses)
  }

  /** The tags at the start of a highlighted line, then the line's HTML. */
  lemma LeadThenLine(lead: Step, html: string, events: seq<SpanEvent>, ei: nat, lineNum: int, open: seq<string>)
    requires TagWalk(lead, events, ei, lineNum, Some(1), open)
    ensures var r := lead.(pieces := lead.pieces + [Raw(html)]);
      && Consumed(r, events, ei, lineNum, open)
      && PlainOf(r.pieces) == "" && RawsOf(r.pieces) == [html]
  {
    ShowsAppend(lead.pieces, [Raw(html)]);
    ShowsSingle(Raw(html));
  }

  lemma BodyConsumes(lines: seq<string>, k: nat, events: seq<SpanEvent>, h: Option<string>, ei: nat, open: seq<string>)
    requires ei <= |events|
    ensures var r := Body(lines, k, events, h, ei, open);
      && Consumed(r, events, ei, k + 1, open)
      && (h.Some? ==> PlainOf(r.pieces) == "" && RawsOf(r.pieces) == [h.value])
      && (h.None? ==> RawsOf(r.pieces) == [])
      && (h.None? && k < |lines| ==> PlainOf(r.pieces) == lines[k])
  {
    match h
    case Some(html) =>
      TagsConsume(events, ei, k + 1, Some(1), open);
      LeadThenLine(Tags(events, ei, k + 1, Some(1), open), html, events, ei, k + 1, open);
    case None =>
      if k < |lines| {
        ContentConsumes(lines[k], k + 1, events, ei, 1, open);
        ContentText(lines[k], k + 1, events, ei, 1, open);
      }
  }

  /** What a row shows, from what its body and the flush of the line's remaining events show. */
  lemma FrameFromParts(k: nat, open: seq<string>, body: Step, flush: Step, events: seq<SpanEvent>, ei: nat)
    requires ei <= body.ei <= flush.ei <= |events|
    requires Consumed(body, events, ei, k + 1, open)
    requires Consumed(flush, events, body.ei, k + 1, body.open)
    requires PlainOf(flush.pieces) == "" && RawsOf(flush.pieces) == []
    ensures var f := Frame(k, open, body.pieces + flush.pieces, |flush.open|);
      && TagsOf(f) == events[ei..flush.ei]
      && (forall i :: ei <= i < flush.ei ==> events[i].line == k + 1)
      && Closes(f) == Opens(f) + body.misses + flush.misses
      && PlainOf(f) == PlainOf(body.pieces)
      && RawsOf(f) == [RowOpen(k + 1)] + RawsOf(body.pieces) + [RowClose]
  {
    FrameShows(k, open, body.pieces + flush.pieces, |flush.open|);
    ShowsAppend(body.pieces, flush.pieces);
    assert events[ei..flush.ei] == events[ei..body.ei] + events[body.ei..flush.ei];
    assert RawsOf(body.pieces) + [] == RawsOf(body.pieces);
    assert PlainOf(body.pieces) + "" == PlainOf(body.pieces);
  }

  /** A row writes the tags of exactly the events of its line that are left, and stops at the first event of another line. */
  lemma RowConsumes(lines: seq<string>, k: nat, events: seq<SpanEvent>, h: Option<string>, ei: nat, open: seq<string>)
    requires ei <= |events|
    ensures var r := Row(lines, k, events, h, ei, open);
      && TagsOf(r.pieces) == events[ei..r.ei]
      && (forall i :: ei <= i < r.ei ==> events[i].line == k + 1)
      && (r.ei == |events| || events[r.ei].line != k + 1)
  {
    var body := Body(lines, k, events, h, ei, open);
    var flush := Tags(events, body.ei, k + 1, None, body.open);
    BodyConsumes(lines, k, events, h, ei, open);
    TagsConsume(events, body.ei, k + 1, None, body.open);
    FrameFromParts(k, open, body, flush, events, ei);
  }

  /** A row closes every span it opens, reopened ones included, plus one per close event whose class was not open. */
  lemma RowBalanced(lines: seq<string>, k: nat, events: seq<SpanEvent>, h: Option<string>, ei: nat, open: seq<string>)
    requires ei <= |events|
    ensures var r := Row(lines, k, events, h, ei, open);
      Closes(r.pieces) == Opens(r.pieces) + r.misses
  {
    var body := Body(lines, k, events, h, ei, open);
    var flush := Tags(events, body.ei, k + 1, None, body.open);
    BodyConsumes(lines, k, events, h, ei, open);
    TagsConsume(events, body.ei, k + 1, None, body.open);
    FrameFromParts(k, open, body, flush, events, ei);
  }

  /**
   * A row's raw HTML is its row markup around the highlighted line, if the
   * line has one, and then it shows no source text; otherwise it shows the
   * source line, in full.
   */
  lemma RowShows(lines: seq<string>, k: nat, events: seq<SpanEvent>, h: Option<string>, ei: nat, open: seq<string>)
    requires ei <= |events|
    ensures var r := Row(lines, k, events, h, ei, open);
      && (h.Some? ==> PlainOf(r.pieces) == "" && RawsOf(r.pieces) == [RowOpen(k + 1), h.value, RowClose])
      && (h.None? ==> RawsOf(r.pieces) == [RowOpen(k + 1), RowClose])
      && (h.None? && k < |lines| ==> PlainOf(r.pieces) == lines[k])
  {
    var body := Body(lines, k, events, h, ei, open);
    var flush := Tags(events, body.ei, k + 1, None, body.open);
    BodyConsumes(lines, k, events, h, ei, open);
    TagsConsume(events, body.ei, k + 1, None, body.open);
    FrameFromParts(k, open, body, flush, events, ei);
  }

  // ----- The table -----

  /** The rows before and one row more. */
  function Next(prev: Step, row: Step): Step {
    Step(prev.pieces + row.pieces, row.ei, row.open, prev.misses + row.misses)
  }

  /** All rows before row `k`, and where they leave the events and the open spans. */
  function RowsUpTo(lines: seq<string>, hls: seq<Option<string>>, k: nat, events: seq<SpanEvent>): (r: Step)
    requires k <= |hls|
    ensures r.ei <= |events|
    decreases k, 0
  {
    if k == 0 then Step([], 0, [], 0)
    else Next(RowsUpTo(lines, hls, k - 1, events), RowAt(lines, hls, k - 1, events))
  }

  /** Row `k` (0-based), from where the rows before it left the events and the open spans. */
  function RowAt(lines: seq<string>, hls: seq<Option<string>>, k: nat, events: seq<SpanEvent>): (r: Step)
    requires k < |hls|
    ensures r.ei <= |events|
    decreases k, 1
  {
    var prev := RowsUpTo(lines, hls, k, events);
    Row(lines, k, events, hls[k], prev.ei, prev.open)
  }

  /** The number of rows: one per line, not counting the empty piece after a final newline. */
  function LineCount(markdown: string): nat {
    var lines := Split(markdown, '\n');
    if |markdown| > 0 && markdown[|markdown| - 1] == '\n' && |lines| > 0 then |lines| - 1 else Max(|lines|, 1)
  }

  /** One row per newline, plus one for a last line without a newline (and one for the empty document). */
  lemma LineCountSpec(markdown: string)
    ensures LineCount(markdown) == CountChar(markdown, '\n') + (if |markdown| > 0 && markdown[|markdown| - 1] == '\n' then 0 else 1)
    ensures LineCount(markdown) <= |Split(markdown, '\n')|
  {
    SplitCount(markdown, '\n');
  }

  /** The highlighted line of each of the first `n` lines, if it has one. */
  function Highlights(n: nat, cbs: seq<CodeBlockInfo>): (r: seq<Option<string>>)
    ensures |r| == n && forall i :: 0 <= i < n ==> r[i] == HighlightedLine(i + 1, cbs)
  {
    seq(n, i => HighlightedLine(i + 1, cbs))
  }

  function TablePieces(markdown: string, events: seq<SpanEvent>, cbs: seq<CodeBlockInfo>): seq<Piece> {
    var n := LineCount(markdown);
    [Raw(TableOpen)] + RowsUpTo(Split(markdown, '\n'), Highlights(n, cbs), n, events).pieces + [Raw(TableClose)]
  }

  /** `applyEventsAsTable`. */
  function ApplyEventsAsTable(markdown: string, events: seq<SpanEvent>, cbs: seq<CodeBlockInfo>): string {
    RenderAll(TablePieces(markdown, events, cbs))
  }

  /**
   * `highlightAsTable`: collect the events of the parsed document (`doc`,
   * the parser's output for `markdown`), sort them, and lay them over the
   * source lines.
   */
  function HighlightAsTable(engine: CodeHighlighting.Engine, doc: Markup.Node, markdown: string): string {
    var c := Collect(Source(Split(markdown, '\n'), engine), doc, 0);
    ApplyEventsAsTable(markdown, Sort(c.events), c.codeBlocks)
  }

  /** Where the row loop stands after the rows in `r`: the events it reached, the open spans, the HTML so far. */
  predicate LoopState(result: string, ei: nat, open: seq<string>, r: Step) {
    ei == r.ei && open == r.open && result == TableOpen + RenderAll(r.pieces)
  }

  /** One turn of the row loop appends row `k` and moves on to where it leaves the events and the open spans. */
  lemma LoopStep(lines: seq<string>, hls: seq<Option<string>>, k: nat, events: seq<SpanEvent>, result: string, ei: nat, open: seq<string>)
    requires k < |hls|
    requires LoopState(result, ei, open, RowsUpTo(lines, hls, k, events))
    ensures var row := Row(lines, k, events, hls[k], ei, open);
      LoopState(result + RenderAll(row.pieces), row.ei, row.open, RowsUpTo(lines, hls, k + 1, events))
  {
    var prev := RowsUpTo(lines, hls, k, events);
    var row := Row(lines, k, events, hls[k], ei, open);
    RenderAllAppend(prev.pieces, row.pieces);
    Assoc(TableOpen, RenderAll(prev.pieces), RenderAll(row.pieces));
  }

  lemma TableRendered(rows: seq<Piece>)
    ensures RenderAll([Raw(TableOpen)] + rows + [Raw(TableClose)]) == TableOpen + RenderAll(rows) + TableClose
  {
    RenderAllAppend([Raw(TableOpen)] + rows, [Raw(TableClose)]);
    RenderAllAppend([Raw(TableOpen)], rows);
    assert RenderAll([Raw(TableOpen)]) == TableOpen;
    assert RenderAll([Raw(TableClose)]) == TableClose;
  }

  /** The row loop of `applyEventsAsTable`: after the table's opening markup, each row in turn. */
  method RenderRows(lines: seq<string>, hls: seq<Option<string>>, events: seq<SpanEvent>) returns (result: string)
    ensures result == TableOpen + RenderAll(RowsUpTo(lines, hls, |hls|, events).pieces)
  {
    result := TableOpen;
    var ei := 0;
    var open: seq<string> := [];
    var k := 0;
    while k < |hls|
      invariant k <= |hls|
      invariant LoopState(result, ei, open, RowsUpTo(lines, hls, k, events))
    {
      var row := Row(lines, k, events, hls[k], ei, open);
      LoopStep(lines, hls, k, events, result, ei, open);
      result := result + RenderAll(row.pieces);
      ei := row.ei;
      open := row.open;
      k := k + 1;
    }
  }

  /** `applyEventsAsTable` as the source writes it: the rows' loop, then the closing markup. */
  method ApplyEventsAsTableLoop(markdown: string, events: seq<SpanEvent>, cbs: seq<CodeBlockInfo>) returns (result: string)
    ensures result == ApplyEventsAsTable(markdown, events, cbs)
  {
    var lineCount := LineCount(markdown);
    result := RenderRows(Split(markdown, '\n'), Highlights(lineCount, cbs), events);
    TableRendered(RowsUpTo(Split(markdown, '\n'), Highlights(lineCount, cbs), lineCount, events).pieces);
    result := result + TableClose;
  }

  // ----- What the table promises -----

  /** The spans a run of rows closes: every one it opens, plus one per close event whose class was not open. */
  predicate SpansClosed(r: Step) {
    Closes(r.pieces) == Opens(r.pieces) + r.misses
  }

  /** The rows so far wrote the tags of the events before `r.ei`, and every event left lies after line `k`. */
  predicate WroteUpTo(r: Step, events: seq<SpanEvent>, k: int) {
    && r.ei <= |events|
    && TagsOf(r.pieces) == events[..r.ei]
    && (r.ei < |events| ==> events[r.ei].line > k)
  }

  /** A row that wrote exactly the events of line `k` it was left. */
  predicate WroteLine(row: Step, events: seq<SpanEvent>, ei: nat, k: int) {
    && ei <= row.ei <= |events|
    && TagsOf(row.pieces) == events[ei..row.ei]
    && (forall i :: ei <= i < row.ei ==> events[i].line == k)
    && (row.ei == |events| || events[row.ei].line != k)
  }

  /** Adding a row to the rows before it, for `RowsConsume`. */
  lemma AddRowConsumed(prev: Step, row: Step, events: seq<SpanEvent>, k: nat)
    requires Sorted(events)
    requires WroteUpTo(prev, events, k - 1)
    requires WroteLine(row, events, prev.ei, k)
    ensures WroteUpTo(Next(prev, row), events, k)
  {
    TagsAppend(prev.pieces, row.pieces);
    assert events[..row.ei] == events[..prev.ei] + events[prev.ei..row.ei];
    if row.ei < |events| && row.ei > prev.ei {
      SortedLines(events, row.ei - 1, row.ei);
    }
  }

  lemma RowAtWroteLine(lines: seq<string>, hls: seq<Option<string>>, k: nat, events: seq<SpanEvent>)
    requires k < |hls|
    ensures WroteLine(RowAt(lines, hls, k, events), events, RowsUpTo(lines, hls, k, events).ei, k + 1)
  {
    var prev := RowsUpTo(lines, hls, k, events);
    RowConsumes(lines, k, events, hls[k], prev.ei, prev.open);
  }

  lemma RowsConsumeStep(lines: seq<string>, hls: seq<Option<string>>, k: nat, events: seq<SpanEvent>)
    requires 0 < k <= |hls|
    requires Sorted(events)
    requires WroteUpTo(RowsUpTo(lines, hls, k - 1, events), events, k - 1)
    ensures WroteUpTo(RowsUpTo(lines, hls, k, events), events, k)
  {
    RowAtWroteLine(lines, hls, k - 1, events);
    AddRowConsumed(RowsUpTo(lines, hls, k - 1, events), RowAt(lines, hls, k - 1, events), events, k);
  }

  /** With sorted events, the rows so far wrote the tags of a prefix of the events, and every event left is on a later line. */
  lemma {:induction false} RowsConsume(lines: seq<string>, hls: seq<Option<string>>, k: nat, events: seq<SpanEvent>)
    requires k <= |hls|
    requires Sorted(events)
    requires forall i :: 0 <= i < |events| ==> events[i].line >= 1
    ensures WroteUpTo(RowsUpTo(lines, hls, k, events), events, k)
    decreases k
  {
    if k > 0 {
      RowsConsume(lines, hls, k - 1, events);
      RowsConsumeStep(lines, hls, k, events);
    } else {
      assert events[..0] == [];
    }
  }

  lemma TableTags(rows: seq<Piece>)
    ensures TagsOf([Raw(TableOpen)] + rows + [Raw(TableClose)]) == TagsOf(rows)
  {
    TagsAppend([Raw(TableOpen)] + rows, [Raw(TableClose)]);
    TagsAppend([Raw(TableOpen)], rows);
    ShowsSingle(Raw(TableOpen));
    ShowsSingle(Raw(TableClose));
  }

  /**
   * When the events are sorted and each lies on a line of the table, the
   * table writes the tag of every event exactly once, in order.
   */
  lemma TableWritesEveryEvent(markdown: string, events: seq<SpanEvent>, cbs: seq<CodeBlockInfo>)
    requires Sorted(events)
    requires forall i :: 0 <= i < |events| ==> 1 <= events[i].line <= LineCount(markdown)
    ensures TagsOf(TablePieces(markdown, events, cbs)) == events
  {
    var lines := Split(markdown, '\n');
    var hls := Highlights(LineCount(markdown), cbs);
    var r := RowsUpTo(lines, hls, LineCount(markdown), events);
    RowsConsume(lines, hls, LineCount(markdown), events);
    TableTags(r.pieces);
    assert events[..r.ei] == events;
  }

  lemma AddRowBalanced(prev: Step, row: Step)
    requires SpansClosed(prev) && SpansClosed(row)
    ensures SpansClosed(Next(prev, row))
  {
    CountsAppend(prev.pieces, row.pieces);
  }

  lemma RowAtSpansClosed(lines: seq<string>, hls: seq<Option<string>>, k: nat, events: seq<SpanEvent>)
    requires k < |hls|
    ensures SpansClosed(RowAt(lines, hls, k, events))
  {
    var prev := RowsUpTo(lines, hls, k, events);
    RowBalanced(lines, k, events, hls[k], prev.ei, prev.open);
  }

  lemma RowsBalancedStep(lines: seq<string>, hls: seq<Option<string>>, k: nat, events: seq<SpanEvent>)
    requires 0 < k <= |hls|
    requires SpansClosed(RowsUpTo(lines, hls, k - 1, events))
    ensures SpansClosed(RowsUpTo(lines, hls, k, events))
  {
    RowAtSpansClosed(lines, hls, k - 1, events);
    AddRowBalanced(RowsUpTo(lines, hls, k - 1, events), RowAt(lines, hls, k - 1, events));
  }

  /** Every row closes the spans it opens (plus the misses), so all rows together do too. */
  lemma {:induction false} RowsBalanced(lines: seq<string>, hls: seq<Option<string>>, k: nat, events: seq<SpanEvent>)
    requires k <= |hls|
    ensures SpansClosed(RowsUpTo(lines, hls, k, events))
    decreases k
  {
    if k > 0 {
      RowsBalanced(lines, hls, k - 1, events);
      RowsBalancedStep(lines, hls, k, events);
    }
  }

  /** The rows so far showed the text of the first `k` source lines. */
  predicate ShowsLines(r: Step, lines: seq<string>, k: nat)
    requires k <= |lines|
  {
    PlainOf(r.pieces) == Concat(lines[..k])
  }

  lemma AddRowText(prev: Step, row: Step, lines: seq<string>, k: nat)
    requires 0 < k <= |lines|
    requires ShowsLines(prev, lines, k - 1) && PlainOf(row.pieces) == lines[k - 1]
    ensures ShowsLines(Next(prev, row), lines, k)
  {
    PlainAppend(prev.pieces, row.pieces);
    assert lines[..k] == lines[..k - 1] + [lines[k - 1]];
    ConcatAppend(lines[..k - 1], lines[k - 1]);
  }

  lemma RowAtShows(lines: seq<string>, hls: seq<Option<string>>, k: nat, events: seq<SpanEvent>)
    requires k < |lines| && k < |hls| && hls[k].None?
    ensures PlainOf(RowAt(lines, hls, k, events).pieces) == lines[k]
  {
    var prev := RowsUpTo(lines, hls, k, events);
    RowShows(lines, k, events, hls[k], prev.ei, prev.open);
  }

  lemma RowsShowStep(lines: seq<string>, hls: seq<Option<string>>, k: nat, events: seq<SpanEvent>)
    requires 0 < k <= |lines| && k <= |hls| && hls[k - 1].None?
    requires ShowsLines(RowsUpTo(lines, hls, k - 1, events), lines, k - 1)
    ensures ShowsLines(RowsUpTo(lines, hls, k, events), lines, k)
  {
    RowAtShows(lines, hls, k - 1, events);
    AddRowText(RowsUpTo(lines, hls, k - 1, events), RowAt(lines, hls, k - 1, events), lines, k);
  }

  /** With nothing highlighted, the rows show the source lines' text, in order, each exactly once. */
  lemma {:induction false} RowsShowSource(lines: seq<string>, hls: seq<Option<string>>, k: nat, events: seq<SpanEvent>)
    requires k <= |lines| && k <= |hls|
    requires forall i :: 0 <= i < k ==> hls[i].None?
    ensures ShowsLines(RowsUpTo(lines, hls, k, events), lines, k)
    decreases k
  {
    if k > 0 {
      RowsShowSource(lines, hls, k - 1, events);
      RowsShowStep(lines, hls, k, events);
    } else {
      assert lines[..0] == [];
    }
  }

  /** Without highlighted code, the table shows the whole source text, line by line, without the newlines. */
  lemma TableShowsSource(markdown: string, events: seq<SpanEvent>)
    ensures PlainOf(TablePieces(markdown, events, [])) == Concat(Split(markdown, '\n')[..LineCount(markdown)])
  {
    var lines := Split(markdown, '\n');
    var hls := Highlights(LineCount(markdown), []);
    var r := RowsUpTo(lines, hls, LineCount(markdown), events);
    LineCountSpec(markdown);
    RowsShowSource(lines, hls, LineCount(markdown), events);
    PlainAppend([Raw(TableOpen)] + r.pieces, [Raw(TableClose)]);
    PlainAppend([Raw(TableOpen)], r.pieces);
    ShowsSingle(Raw(TableOpen));
    ShowsSingle(Raw(TableClose));
  }

  /**
   * The whole Down view: when every collected span lies on a line of the
   * source, the table writes every span's two tags, in the sorted order.
   */
  lemma HighlightWritesEverySpan(engine: CodeHighlighting.Engine, doc: Markup.Node, markdown: string)
    requires var c := Collect(Source(Split(markdown, '\n'), engine), doc, 0);
      forall i :: 0 <= i < |c.events| ==> 1 <= c.events[i].line <= LineCount(markdown)
    ensures var c := Collect(Source(Split(markdown, '\n'), engine), doc, 0);
      && TagsOf(TablePieces(markdown, Sort(c.events), c.codeBlocks)) == Sort(c.events)
      && multiset(Sort(c.events)) == multiset(c.events)
      && Sorted(Sort(c.events))
  {
    var c := Collect(Source(Split(markdown, '\n'), engine), doc, 0);
    var s := Sort(c.events);
    SortSorted(c.events);
    forall i | 0 <= i < |s| ensures 1 <= s[i].line <= LineCount(markdown) {
      assert s[i] in multiset(c.events);
    }
    TableWritesEveryEvent(markdown, s, c.codeBlocks);
  }
}
