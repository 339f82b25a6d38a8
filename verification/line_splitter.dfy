/**
 * `HTMLLineSplitter.splitByLine`: cuts highlighted HTML at newlines so that
 * every line can stand alone. Spans still open at a newline are closed at the
 * end of the line and their opening tags are repeated, verbatim and in the
 * same order, at the start of the next line.
 *
 * The scan is described in two layers. `TokenAt` says how the splitter reads
 * the text at a position (a newline, a `</span>`, a `<span…>` tag, or one
 * literal character); `Feed` says what it does with each token. The lines are
 * kept as token sequences (`SplitTokens`) and rendered to strings
 * (`SplitByLine`); `SplitByLineLoop` is the character loop of the source.
 */
module HtmlLineSplitter {
  import opened Wrappers
  import opened Strings

  /**
   * What the scanner recognises at one position of the input. An opening tag
   * is kept as the text between `<span` and its first `>`.
   */
  datatype Token = Newline | CloseTag | OpenTag(attrs: string) | Lit(c: char)

  const CloseSpan: string := "</span>"

  /** The text a token stands for; the splitter writes tags exactly as it read them. */
  function Render(t: Token): (r: string)
    ensures |r| > 0
  {
    match t
    case Newline => "\n"
    case CloseTag => CloseSpan
    case OpenTag(attrs) => TagText(attrs)
    case Lit(c) => [c]
  }

  /** An opening tag exactly as it was read. */
  function TagText(attrs: string): string {
    "<span" + attrs + ">"
  }

  function RenderAll(ts: seq<Token>): string {
    if ts == [] then "" else Render(ts[0]) + RenderAll(ts[1..])
  }

  lemma {:induction false} RenderAllAppend(a: seq<Token>, b: seq<Token>)
    ensures RenderAll(a + b) == RenderAll(a) + RenderAll(b)
    decreases |a|
  {
    if a == [] {
      assert a + b == b;
    } else {
      assert (a + b)[0] == a[0];
      assert (a + b)[1..] == a[1..] + b;
      RenderAllAppend(a[1..], b);
    }
  }

  /** Rendering is empty exactly for the empty token sequence. */
  lemma RenderAllEmpty(ts: seq<Token>)
    ensures RenderAll(ts) == "" <==> ts == []
  {
    if ts != [] {
      assert |RenderAll(ts)| >= |Render(ts[0])| > 0;
    }
  }

  /** First index at or after `i` holding `c` (`firstIndex(of:)` on `html[i...]`). */
  function FindFrom(s: string, c: char, i: nat): (r: Option<nat>)
    requires i <= |s|
    ensures r.Some? ==> i <= r.value < |s| && s[r.value] == c
    decreases |s| - i
  {
    if i == |s| then None
    else if s[i] == c then Some(i)
    else FindFrom(s, c, i + 1)
  }

  /** `FindFrom` finds the first occurrence, and finds nothing only when there is none. */
  lemma {:induction false} FindFromFirst(s: string, c: char, i: nat)
    requires i <= |s|
    ensures var r := FindFrom(s, c, i);
      && (r.Some? ==> c !in s[i..r.value])
      && (r.None? ==> c !in s[i..])
    decreases |s| - i
  {
    if i < |s| && s[i] != c {
      FindFromFirst(s, c, i + 1);
      var r := FindFrom(s, c, i + 1);
      assert r.Some? ==> s[i..r.value] == [s[i]] + s[i + 1..r.value];
      assert s[i..] == [s[i]] + s[i + 1..];
    }
  }

  lemma OccursAtStartsWith(s: string, p: string, i: nat)
    requires i <= |s|
    ensures OccursAt(s, p, i) <==> StartsWith(s[i..], p)
  {
    if OccursAt(s, p, i) {
      assert s[i..][..|p|] == s[i..i + |p|];
    }
    if StartsWith(s[i..], p) {
      assert s[i..][..|p|] == s[i..i + |p|];
    }
  }

  /**
   * How the scanner reads `html` at `i`, and how many characters the token
   * covers. A `<span` with no later `>`, and any other `<`, are literal text.
   * The search for `>` may start after `<span`, which holds none.
   */
  function TokenAt(html: string, i: nat): (r: (Token, nat))
    requires i < |html|
    ensures 0 < r.1 && i + r.1 <= |html|
    ensures html[i] == '\n' <==> r.0 == Newline
  {
    if html[i] == '\n' then (Newline, 1)
    else if OccursAt(html, CloseSpan, i) then (CloseTag, 7)
    else if OccursAt(html, "<span", i) then
      match FindFrom(html, '>', i + 5)
      case None => (Lit(html[i]), 1)
      case Some(gt) => (OpenTag(html[i + 5..gt]), gt + 1 - i)
    else (Lit(html[i]), 1)
  }

  /**
   * The cases of `TokenAt`, in the order the source tests them: a newline; a
   * `</span>`; a `<span` that has a `>` somewhere after it, read up to the
   * first one; anything else is one literal character.
   */
  lemma TokenAtCases(html: string, i: nat)
    requires i < |html|
    ensures var (t, n) := TokenAt(html, i);
      && (t.CloseTag? <==> html[i] != '\n' && StartsWith(html[i..], CloseSpan))
      && (t.OpenTag? <==> html[i] != '\n' && !StartsWith(html[i..], CloseSpan)
                          && StartsWith(html[i..], "<span") && '>' in html[i..])
      && (t.OpenTag? ==> '>' !in t.attrs)
      && (t.Lit? ==> n == 1 && t.c == html[i])
  {
    OccursAtStartsWith(html, CloseSpan, i);
    OccursAtStartsWith(html, "<span", i);
    if html[i] != '\n' && !OccursAt(html, CloseSpan, i) && OccursAt(html, "<span", i) {
      var f := FindFrom(html, '>', i + 5);
      FindFromFirst(html, '>', i + 5);
      if f.Some? {
        assert html[i..][f.value - i] == '>';
      } else {
        assert '>' !in html[i + 5..];
        forall k | 0 <= k < |html[i..]|
          ensures html[i..][k] != '>'
        {
          if k >= 5 {
            assert html[i..][k] == html[i + 5..][k - 5];
          } else {
            assert html[i..][k] == "<span"[k];
          }
        }
      }
    }
  }

  /** A token covers exactly the text it stands for. */
  lemma TokenAtRender(html: string, i: nat)
    requires i < |html|
    ensures html[i..i + TokenAt(html, i).1] == Render(TokenAt(html, i).0)
  {
    if html[i] != '\n' && !OccursAt(html, CloseSpan, i) && OccursAt(html, "<span", i) {
      var f := FindFrom(html, '>', i + 5);
      if f.Some? {
        var gt := f.value;
        assert html[i..gt + 1] == html[i..i + 5] + html[i + 5..gt] + [html[gt]];
      }
    }
  }

  /** The token stream of `html[i..]`. */
  function Tokenize(html: string, i: nat): seq<Token>
    requires i <= |html|
    decreases |html| - i
  {
    if i == |html| then []
    else
      var (t, n) := TokenAt(html, i);
      [t] + Tokenize(html, i + n)
  }

  /** Tokenising loses nothing: the tokens render back to the text they were read from. */
  lemma {:induction false} TokenizeRender(html: string, i: nat)
    requires i <= |html|
    ensures RenderAll(Tokenize(html, i)) == html[i..]
    decreases |html| - i
  {
    if i < |html| {
      var t := TokenAt(html, i).0;
      var n := TokenAt(html, i).1;
      TokenizeStep(html, i);
      TokenAtRender(html, i);
      TokenizeRender(html, i + n);
      RenderStep(Tokenize(html, i), t, Tokenize(html, i + n), html[i..i + n], html[i + n..]);
      Glue(html[i..i + n], html[i + n..], html, i, i + n);
    } else {
      assert Tokenize(html, i) == [];
    }
  }

  /** Rendering a token sequence is rendering its head, then the rest. */
  lemma RenderStep(ts: seq<Token>, t: Token, rest: seq<Token>, head: string, tail: string)
    requires ts == [t] + rest && Render(t) == head && RenderAll(rest) == tail
    ensures RenderAll(ts) == head + tail
  {
    assert ts[1..] == rest;
  }

  /** A suffix of a text is its next piece followed by the rest. */
  lemma Glue(x: string, y: string, s: string, i: nat, j: nat)
    requires i <= j <= |s| && x == s[i..j] && y == s[j..]
    ensures x + y == s[i..]
  {
  }

  /** The splitter's state: finished lines, the line being built, the open tags' attributes (innermost last). */
  datatype Acc = Acc(lines: seq<seq<Token>>, current: seq<Token>, open: seq<string>)

  const Init: Acc := Acc([], [], [])

  /** `n` closing tags. */
  function Closes(n: nat): (r: seq<Token>)
    ensures |r| == n && forall k :: 0 <= k < n ==> r[k] == CloseTag
  {
    if n == 0 then [] else [CloseTag] + Closes(n - 1)
  }

  /** The open tags, re-emitted outermost first. */
  function Reopen(open: seq<string>): (r: seq<Token>)
    ensures |r| == |open| && forall k :: 0 <= k < |open| ==> r[k] == OpenTag(open[k])
  {
    if open == [] then [] else Reopen(open[..|open| - 1]) + [OpenTag(open[|open| - 1])]
  }

  /** The tag stack after one token; a close on an empty stack is ignored. */
  function Push(open: seq<string>, t: Token): seq<string> {
    match t
    case OpenTag(attrs) => open + [attrs]
    case CloseTag => if open == [] then [] else open[..|open| - 1]
    case _ => open
  }

  /** What the splitter does with one token. */
  function Feed(acc: Acc, t: Token): (r: Acc)
    ensures r.open == Push(acc.open, t)
    ensures t != Newline ==> r.lines == acc.lines && r.current == acc.current + [t]
    ensures t == Newline ==> r.lines == acc.lines + [acc.current + Closes(|acc.open|)] && r.current == Reopen(acc.open)
  {
    match t
    case Newline => Acc(acc.lines + [acc.current + Closes(|acc.open|)], Reopen(acc.open), acc.open)
    case _ => Acc(acc.lines, acc.current + [t], Push(acc.open, t))
  }

  function FeedAll(acc: Acc, ts: seq<Token>): Acc
    decreases |ts|
  {
    if ts == [] then acc else FeedAll(Feed(acc, ts[0]), ts[1..])
  }

  /** The last line is appended; an empty last line is dropped when there are others. */
  function Finish(acc: Acc): (r: seq<seq<Token>>)
    ensures |acc.lines| > 0 && acc.current == [] ==> r == acc.lines
    ensures !(|acc.lines| > 0 && acc.current == []) ==> r == acc.lines + [acc.current]
  {
    var lines := acc.lines + [acc.current];
    if |lines| > 1 && lines[|lines| - 1] == [] then lines[..|lines| - 1] else lines
  }

  /** The output lines as the tokens the splitter wrote. */
  function SplitTokens(html: string): seq<seq<Token>> {
    Finish(FeedAll(Init, Tokenize(html, 0)))
  }

  function RenderLines(ls: seq<seq<Token>>): (r: seq<string>)
    ensures |r| == |ls| && forall k :: 0 <= k < |ls| ==> r[k] == RenderAll(ls[k])
  {
    seq(|ls|, k requires 0 <= k < |ls| => RenderAll(ls[k]))
  }

  /** `splitByLine`. */
  function SplitByLine(html: string): seq<string> {
    RenderLines(SplitTokens(html))
  }

  // ----- The character loop -----

  /**
   * The splitter's loop over characters: at a newline it closes and reopens
   * the open tags, at a tag it copies the tag and updates the stack, and it
   * copies every other character.
   */
  method SplitByLineLoop(html: string) returns (lines: seq<string>)
    ensures lines == SplitByLine(html)
  {
    lines := [];
    var current := "";
    var openTags: seq<string> := [];
    ghost var acc := Init;
    var i := 0;
    while i < |html|
      invariant 0 <= i <= |html|
      invariant Mirrors(lines, current, openTags, acc)
      invariant FeedAll(acc, Tokenize(html, i)) == FeedAll(Init, Tokenize(html, 0))
      decreases |html| - i
    {
      lines, current, openTags, acc, i := Advance(html, i, lines, current, openTags, acc);
    }
    lines := Finished(lines, current, acc);
  }

  /** Reads one token at `i` and handles it; the rest of the run is unchanged. */
  method Advance(html: string, i: nat, lines: seq<string>, current: string, openTags: seq<string>, ghost acc: Acc)
      returns (lines': seq<string>, current': string, openTags': seq<string>, ghost acc': Acc, i': nat)
    requires i < |html| && Mirrors(lines, current, openTags, acc)
    ensures i < i' <= |html| && Mirrors(lines', current', openTags', acc')
    ensures FeedAll(acc', Tokenize(html, i')) == FeedAll(acc, Tokenize(html, i))
  {
    var t, n := ReadToken(html, i);
    FeedAllStep(acc, html, i);
    lines', current', openTags' := Step(lines, current, openTags, t, html[i..i + n], acc);
    acc' := Feed(acc, t);
    i' := i + n;
  }

  /** The token at `i` and its extent, with the text it covers. */
  method ReadToken(html: string, i: nat) returns (t: Token, n: nat)
    requires i < |html|
    ensures (t, n) == TokenAt(html, i)
    ensures 0 < n && i + n <= |html| && html[i..i + n] == Render(t)
  {
    t, n := TokenAt(html, i).0, TokenAt(html, i).1;
    TokenAtRender(html, i);
  }

  /** The strings the loop keeps are the rendering of the token state. */
  predicate Mirrors(lines: seq<string>, current: string, openTags: seq<string>, acc: Acc) {
    lines == RenderLines(acc.lines) && current == RenderAll(acc.current) && openTags == Tags(acc.open)
  }

  /** Feeding the rest of the input from `i` is one token, then the rest after it. */
  lemma FeedAllStep(acc: Acc, html: string, i: nat)
    requires i < |html|
    ensures FeedAll(acc, Tokenize(html, i))
         == FeedAll(Feed(acc, TokenAt(html, i).0), Tokenize(html, i + TokenAt(html, i).1))
  {
    TokenizeStep(html, i);
    var ts := Tokenize(html, i);
    assert ts[1..] == Tokenize(html, i + TokenAt(html, i).1);
  }

  /** One iteration: the strings follow `Feed`. */
  method Step(lines: seq<string>, current: string, openTags: seq<string>, t: Token, text: string, ghost acc: Acc)
      returns (lines': seq<string>, current': string, openTags': seq<string>)
    requires text == Render(t) && Mirrors(lines, current, openTags, acc)
    ensures Mirrors(lines', current', openTags', Feed(acc, t))
  {
    if t == Newline {
      var line := CloseAll(current, |openTags|, acc.current);
      current' := ReopenAll(openTags, acc.open);
      openTags' := openTags;
      lines' := lines + [line];
      RenderLinesAppend(acc.lines, acc.current + Closes(|acc.open|));
    } else {
      current', openTags' := CopyToken(current, openTags, text, t, acc.current, acc.open);
      lines' := lines;
    }
  }

  lemma RenderLinesAppend(ls: seq<seq<Token>>, l: seq<Token>)
    ensures RenderLines(ls + [l]) == RenderLines(ls) + [RenderAll(l)]
  {
  }

  /** At a newline, one `</span>` per open tag ends the line. */
  method CloseAll(current: string, n: nat, ghost cur: seq<Token>) returns (line: string)
    requires current == RenderAll(cur)
    ensures line == RenderAll(cur + Closes(n))
  {
    line := current;
    var k := 0;
    assert cur + Closes(0) == cur;
    while k < n
      invariant 0 <= k <= n
      invariant line == RenderAll(cur + Closes(k))
    {
      ClosesAppend(cur, k);
      line := line + CloseSpan;
      k := k + 1;
    }
  }

  lemma ClosesAppend(cur: seq<Token>, k: nat)
    ensures RenderAll(cur + Closes(k + 1)) == RenderAll(cur + Closes(k)) + CloseSpan
  {
    ClosesStep(k);
    RenderAllAppend(cur + Closes(k), [CloseTag]);
    assert cur + Closes(k + 1) == cur + Closes(k) + [CloseTag];
  }

  /** The next line starts by reopening every open tag, outermost first. */
  method ReopenAll(openTags: seq<string>, ghost open: seq<string>) returns (next: string)
    requires openTags == Tags(open)
    ensures next == RenderAll(Reopen(open))
  {
    next := "";
    var k := 0;
    while k < |openTags|
      invariant 0 <= k <= |openTags|
      invariant next == RenderAll(Reopen(open[..k]))
    {
      ReopenAppend(open, k);
      next := next + openTags[k];
      k := k + 1;
    }
    assert open[..k] == open;
  }

  lemma ReopenAppend(open: seq<string>, k: nat)
    requires k < |open|
    ensures RenderAll(Reopen(open[..k + 1])) == RenderAll(Reopen(open[..k])) + TagText(open[k])
  {
    assert open[..k + 1][..k] == open[..k];
    RenderAllAppend(Reopen(open[..k]), [OpenTag(open[k])]);
  }

  /** Any other token: its text is copied; a tag also pushes or pops the stack. */
  method CopyToken(current: string, openTags: seq<string>, text: string, t: Token,
                   ghost cur: seq<Token>, ghost open: seq<string>)
      returns (current': string, openTags': seq<string>)
    requires t != Newline && text == Render(t)
    requires current == RenderAll(cur) && openTags == Tags(open)
    ensures current' == RenderAll(cur + [t])
    ensures openTags' == Tags(Push(open, t))
  {
    openTags' := openTags;
    match t {
      case CloseTag =>
        if openTags != [] {
          openTags' := openTags[..|openTags| - 1];
        }
      case OpenTag(_) =>
        openTags' := openTags + [text];
      case Lit(_) =>
    }
    current' := current + text;
    RenderAllAppend(cur, [t]);
  }

  /** After the loop: the last line is added, and dropped again if it is empty and not alone. */
  method Finished(lines: seq<string>, current: string, ghost acc: Acc) returns (r: seq<string>)
    requires lines == RenderLines(acc.lines) && current == RenderAll(acc.current)
    ensures r == RenderLines(Finish(acc))
  {
    ghost var last := acc.lines + [acc.current];
    r := lines + [current];
    assert r == RenderLines(last);
    RenderAllEmpty(acc.current);
    if |r| > 1 && r[|r| - 1] == "" {
      r := r[..|r| - 1];
      assert r == RenderLines(last[..|last| - 1]);
    }
  }

  /** The tags as the source keeps them on its stack. */
  function Tags(open: seq<string>): (r: seq<string>)
    ensures |r| == |open| && forall k :: 0 <= k < |open| ==> r[k] == TagText(open[k])
  {
    seq(|open|, k requires 0 <= k < |open| => TagText(open[k]))
  }

  lemma ClosesStep(k: nat)
    ensures Closes(k + 1) == Closes(k) + [CloseTag]
  {
    var a := Closes(k + 1);
    var b := Closes(k) + [CloseTag];
    assert |a| == |b|;
    assert forall j :: 0 <= j < |a| ==> a[j] == b[j];
  }

  // ----- Line structure -----

  /** The stack after a stretch of tokens. */
  function StackAfter(open: seq<string>, ts: seq<Token>): seq<string>
    decreases |ts|
  {
    if ts == [] then open else StackAfter(Push(open, ts[0]), ts[1..])
  }

  predicate NoNewline(ts: seq<Token>) {
    forall k :: 0 <= k < |ts| ==> ts[k] != Newline
  }

  /** Between newlines the splitter only appends what it read, and tracks the stack. */
  lemma {:induction false} FeedGroup(acc: Acc, g: seq<Token>)
    requires NoNewline(g)
    ensures FeedAll(acc, g) == Acc(acc.lines, acc.current + g, StackAfter(acc.open, g))
    decreases |g|
  {
    if g == [] {
      assert acc.current + g == acc.current;
    } else {
      FeedGroup(Feed(acc, g[0]), g[1..]);
      assert acc.current + [g[0]] + g[1..] == acc.current + g;
    }
  }

  lemma {:induction false} FeedAllAppend(acc: Acc, a: seq<Token>, b: seq<Token>)
    ensures FeedAll(acc, a + b) == FeedAll(FeedAll(acc, a), b)
    decreases |a|
  {
    if a == [] {
      assert a + b == b;
    } else {
      assert (a + b)[0] == a[0];
      assert (a + b)[1..] == a[1..] + b;
      FeedAllAppend(Feed(acc, a[0]), a[1..], b);
    }
  }

  /**
   * The shape of one finished line: the tags open at its start, re-emitted;
   * then exactly the tokens read from the input up to the newline; then one
   * close per tag still open. The next line starts by reopening those tags.
   */
  lemma FeedLine(acc: Acc, g: seq<Token>, rest: seq<Token>)
    requires NoNewline(g)
    ensures var s := StackAfter(acc.open, g);
      FeedAll(acc, g + [Newline] + rest)
      == FeedAll(Acc(acc.lines + [acc.current + g + Closes(|s|)], Reopen(s), s), rest)
  {
    FeedAllAppend(acc, g + [Newline], rest);
    FeedAllAppend(acc, g, [Newline]);
    FeedGroup(acc, g);
  }

  function NewlineCount(ts: seq<Token>): nat {
    if ts == [] then 0 else (if ts[0] == Newline then 1 else 0) + NewlineCount(ts[1..])
  }

  lemma {:induction false} FeedAllLineCount(acc: Acc, ts: seq<Token>)
    ensures |FeedAll(acc, ts).lines| == |acc.lines| + NewlineCount(ts)
    decreases |ts|
  {
    if ts != [] {
      FeedAllLineCount(Feed(acc, ts[0]), ts[1..]);
    }
  }

  /** One line per newline token plus one, less a dropped empty last line. */
  lemma LineCount(html: string)
    ensures var n := NewlineCount(Tokenize(html, 0));
      var acc := FeedAll(Init, Tokenize(html, 0));
      |SplitByLine(html)| == if n > 0 && acc.current == [] then n else n + 1
  {
    FeedAllLineCount(Init, Tokenize(html, 0));
  }

  lemma {:induction false} NoNewlineChar(html: string, i: nat)
    requires i <= |html|
    requires forall j :: i <= j < |html| ==> html[j] != '\n'
    ensures NoNewline(Tokenize(html, i))
    decreases |html| - i
  {
    if i < |html| {
      var r := TokenAt(html, i);
      assert r.0 != Newline;
      NoNewlineChar(html, i + r.1);
      TokenizeStep(html, i);
      NoNewlineCons(r.0, Tokenize(html, i + r.1));
    } else {
      assert Tokenize(html, i) == [];
    }
  }

  lemma TokenizeStep(html: string, i: nat)
    requires i < |html|
    ensures Tokenize(html, i) == [TokenAt(html, i).0] + Tokenize(html, i + TokenAt(html, i).1)
  {
  }

  lemma NoNewlineCons(t: Token, rest: seq<Token>)
    requires t != Newline && NoNewline(rest)
    ensures NoNewline([t] + rest)
  {
    forall k | 0 <= k < |[t] + rest|
      ensures ([t] + rest)[k] != Newline
    {
      if k > 0 {
        assert ([t] + rest)[k] == rest[k - 1];
      }
    }
  }

  /** Text without a newline comes back as the single line it is. */
  lemma SplitNoNewline(html: string)
    requires '\n' !in html
    ensures SplitByLine(html) == [html]
  {
    var ts := Tokenize(html, 0);
    assert html[0..] == html;
    NoNewlineChar(html, 0);
    FeedGroup(Init, ts);
    assert [] + ts == ts;
    TokenizeRender(html, 0);
  }

  // ----- Balance -----

  /** Depth after a stretch of tokens started at depth `d`, or None when a close finds nothing open. */
  function Scan(ts: seq<Token>, d: nat): Option<nat>
    decreases |ts|
  {
    if ts == [] then Some(d)
    else match ts[0]
      case OpenTag(_) => Scan(ts[1..], d + 1)
      case CloseTag => if d == 0 then None else Scan(ts[1..], d - 1)
      case _ => Scan(ts[1..], d)
  }

  /** Every close matches an earlier open of the same line, and nothing is left open. */
  predicate Balanced(ts: seq<Token>) {
    Scan(ts, 0) == Some(0)
  }

  lemma {:induction false} ScanAppend(a: seq<Token>, b: seq<Token>, d: nat)
    requires Scan(a, d).Some?
    ensures Scan(a + b, d) == Scan(b, Scan(a, d).value)
    decreases |a|
  {
    if a == [] {
      assert a + b == b;
    } else {
      assert (a + b)[0] == a[0];
      assert (a + b)[1..] == a[1..] + b;
      match a[0]
      case OpenTag(_) => ScanAppend(a[1..], b, d + 1);
      case CloseTag => ScanAppend(a[1..], b, d - 1);
      case _ => ScanAppend(a[1..], b, d);
    }
  }

  lemma {:induction false} ScanCloses(n: nat)
    ensures Scan(Closes(n), n) == Some(0)
    decreases n
  {
    if n > 0 {
      assert Closes(n)[1..] == Closes(n - 1);
      ScanCloses(n - 1);
    }
  }

  lemma {:induction false} ScanReopen(open: seq<string>)
    ensures Scan(Reopen(open), 0) == Some(|open|)
    decreases |open|
  {
    if open != [] {
      var init := open[..|open| - 1];
      ScanReopen(init);
      ScanAppend(Reopen(init), [OpenTag(open[|open| - 1])], 0);
    }
  }

  /** The input never closes a span that is not open (newlines do not change the stack). */
  predicate NoStrayClose(open: seq<string>, ts: seq<Token>)
    decreases |ts|
  {
    ts == [] || ((ts[0] == CloseTag ==> open != []) && NoStrayClose(Push(open, ts[0]), ts[1..]))
  }

  /** The splitter's invariant: finished lines are balanced, the current line is open exactly as deep as the stack. */
  predicate Sound(acc: Acc) {
    (forall k :: 0 <= k < |acc.lines| ==> Balanced(acc.lines[k]))
    && Scan(acc.current, 0) == Some(|acc.open|)
  }

  lemma FeedSound(acc: Acc, t: Token)
    requires Sound(acc)
    requires t == CloseTag ==> acc.open != []
    ensures Sound(Feed(acc, t))
  {
    var r := Feed(acc, t);
    var n := |acc.open|;
    match t
    case Newline =>
      ScanAppend(acc.current, Closes(n), 0);
      ScanCloses(n);
      ScanReopen(acc.open);
      assert r.lines[|acc.lines|] == acc.current + Closes(n);
    case OpenTag(_) =>
      ScanAppend(acc.current, [t], 0);
    case CloseTag =>
      ScanAppend(acc.current, [t], 0);
    case Lit(_) =>
      ScanAppend(acc.current, [t], 0);
  }

  lemma {:induction false} FeedAllSound(acc: Acc, ts: seq<Token>)
    requires Sound(acc) && NoStrayClose(acc.open, ts)
    ensures Sound(FeedAll(acc, ts)) && FeedAll(acc, ts).open == StackAfter(acc.open, ts)
    decreases |ts|
  {
    if ts != [] {
      FeedSound(acc, ts[0]);
      FeedAllSound(Feed(acc, ts[0]), ts[1..]);
    }
  }

  /**
   * When the input never closes an unopened span and leaves nothing open at
   * the end, every output line is balanced on its own.
   */
  lemma SplitBalanced(html: string)
    requires NoStrayClose([], Tokenize(html, 0))
    requires StackAfter([], Tokenize(html, 0)) == []
    ensures forall k :: 0 <= k < |SplitTokens(html)| ==> Balanced(SplitTokens(html)[k])
  {
    FeedAllSound(Init, Tokenize(html, 0));
  }
}
