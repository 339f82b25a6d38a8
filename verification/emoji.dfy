/**
 * `EmojiShortcodes.replaceShortcodes`: every `:alias:` token (a colon, one or
 * more of `[A-Za-z0-9_+-]`, a colon) is looked up in an alias table; a known
 * alias is replaced by its glyph and an unknown token is copied. Tokens are
 * found left to right and never overlap: the scan resumes after the closing
 * colon of a token. The alias table, loaded from a bundled resource in the
 * source, is a parameter here.
 */
module EmojiShortcodes {
  import opened Wrappers

  type Aliases = map<string, string>

  /** The characters allowed between the colons of a token. */
  predicate IsCodeChar(c: char) {
    ('a' <= c <= 'z') || ('A' <= c <= 'Z') || ('0' <= c <= '9') || c == '_' || c == '+' || c == '-'
  }

  predicate IsCode(w: string) {
    forall k :: 0 <= k < |w| ==> IsCodeChar(w[k])
  }

  /** Length of the run of code characters at the start of `s`. */
  function CodeRun(s: string): (n: nat)
    ensures n <= |s| && IsCode(s[..n])
    ensures n < |s| ==> !IsCodeChar(s[n])
  {
    if s == [] || !IsCodeChar(s[0]) then 0
    else
      var n := CodeRun(s[1..]);
      assert s[..n + 1] == [s[0]] + s[1..][..n];
      n + 1
  }

  /**
   * Length of the token at the start of `s`, if one starts there. Code
   * characters exclude `:`, so the regular expression's match is the whole
   * run of code characters after the first colon.
   */
  function TokenLen(s: string): Option<nat> {
    if s == [] || s[0] != ':' then None
    else
      var n := CodeRun(s[1..]);
      if n > 0 && n + 1 < |s| && s[n + 1] == ':' then Some(n + 2) else None
  }

  /** What a token becomes: the alias's glyph, or the token itself. */
  function Subst(m: Aliases, token: string): string
    requires |token| >= 2
  {
    var alias := token[1..|token| - 1];
    if alias in m then m[alias] else token
  }

  /** The scan: copy text, substitute each token, resume after it. */
  function Replace(m: Aliases, s: string): string
    decreases |s|
  {
    if s == [] then []
    else match TokenLen(s)
      case None => [s[0]] + Replace(m, s[1..])
      case Some(n) => Subst(m, s[..n]) + Replace(m, s[n..])
  }

  /** `replaceShortcodes(in:)`: returns the text at once when it has no colon or no token. */
  function ReplaceShortcodes(m: Aliases, text: string): string {
    if ':' !in text then text
    else if !HasToken(text) then text
    else Replace(m, text)
  }

  /** Some position of `s` starts a token. */
  predicate HasToken(s: string) {
    exists i :: 0 <= i < |s| && TokenLen(s[i..]).Some?
  }

  // ----- Token shape -----

  /** A token is exactly a colon, a non-empty code word, and a colon. */
  lemma TokenLenShape(s: string)
    ensures TokenLen(s).Some? <==>
      exists w :: |w| > 0 && IsCode(w) && |w| + 2 <= |s| && s[..|w| + 2] == ":" + w + ":"
    ensures TokenLen(s).Some? ==> var n := TokenLen(s).value;
      n >= 3 && s[0] == ':' && s[n - 1] == ':' && IsCode(s[1..n - 1])
  {
    if TokenLen(s).Some? {
      var n := TokenLen(s).value;
      var w := s[1..n - 1];
      assert w == s[1..][..n - 2];
      assert s[..|w| + 2] == ":" + w + ":";
    }
    if exists w :: |w| > 0 && IsCode(w) && |w| + 2 <= |s| && s[..|w| + 2] == ":" + w + ":" {
      var w :| |w| > 0 && IsCode(w) && |w| + 2 <= |s| && s[..|w| + 2] == ":" + w + ":";
      var t := ":" + w + ":";
      assert s[1..][..|w|] == t[1..|w| + 1] == w;
      assert s[1..][|w|] == t[|w| + 1] == ':';
      CodeRunWord(s[1..], w);
    }
  }

  /** The run at the start of `w + ":" + …` is all of `w`. */
  lemma {:induction false} CodeRunWord(s: string, w: string)
    requires IsCode(w) && |w| < |s| && s[..|w|] == w && s[|w|] == ':'
    ensures CodeRun(s) == |w|
    decreases |w|
  {
    if w != [] {
      assert s[1..][..|w| - 1] == w[1..];
      CodeRunWord(s[1..], w[1..]);
    }
  }

  // ----- Copying -----

  /** Text without a colon is copied through the scan. */
  lemma {:induction false} ReplaceNoColon(m: Aliases, s: string)
    requires ':' !in s
    ensures Replace(m, s) == s
    decreases |s|
  {
    if s != [] {
      assert TokenLen(s).None?;
      assert ':' !in s[1..];
      ReplaceNoColon(m, s[1..]);
    }
  }

  /** Colon-free text in front of the rest is copied, and the rest is scanned on its own. */
  lemma {:induction false} ReplaceAppend(m: Aliases, a: string, b: string)
    requires ':' !in a
    ensures Replace(m, a + b) == a + Replace(m, b)
    decreases |a|
  {
    if a == [] {
      assert a + b == b;
    } else {
      var ab := a + b;
      assert ab[0] == a[0];
      assert TokenLen(ab).None?;
      assert ab[1..] == a[1..] + b;
      assert ':' !in a[1..];
      ReplaceAppend(m, a[1..], b);
      assert Replace(m, ab) == [a[0]] + (a[1..] + Replace(m, b));
      assert [a[0]] + (a[1..] + Replace(m, b)) == a + Replace(m, b);
    }
  }

  /**
   * A token at the front is substituted and the scan resumes after its
   * closing colon: that colon never opens a second token.
   */
  lemma ReplaceToken(m: Aliases, w: string, rest: string)
    requires |w| > 0 && IsCode(w)
    ensures Replace(m, ":" + w + ":" + rest)
         == (if w in m then m[w] else ":" + w + ":") + Replace(m, rest)
  {
    var s := ":" + w + ":" + rest;
    var t := ":" + w + ":";
    assert s[..|w| + 2] == t;
    TokenLenShape(s);
    var n := TokenLen(s).value;
    assert s[1..][..|w|] == w;
    CodeRunWord(s[1..], w);
    assert n == |w| + 2;
    assert s[..n] == t && s[n..] == rest;
    assert t[1..|t| - 1] == w;
  }

  /** With an empty table every token is unknown, so the text is unchanged. */
  lemma {:induction false} ReplaceUnknown(s: string)
    ensures Replace(map[], s) == s
    decreases |s|
  {
    if s != [] {
      match TokenLen(s)
      case None =>
        ReplaceUnknown(s[1..]);
        assert s == [s[0]] + s[1..];
      case Some(n) =>
        TokenLenShape(s);
        ReplaceUnknown(s[n..]);
        assert s == s[..n] + s[n..];
    }
  }

  /** The early returns change nothing: the result is always the scan's. */
  lemma {:induction false} ReplaceShortcodesScan(m: Aliases, text: string)
    ensures ReplaceShortcodes(m, text) == Replace(m, text)
  {
    if ':' !in text {
      ReplaceNoColon(m, text);
    } else if !HasToken(text) {
      ReplaceNoToken(m, text);
    }
  }

  /** Without any token the scan copies every character. */
  lemma {:induction false} ReplaceNoToken(m: Aliases, s: string)
    requires !HasToken(s)
    ensures Replace(m, s) == s
    decreases |s|
  {
    if s != [] {
      assert s[0..] == s;
      assert TokenLen(s).None?;
      forall i | 0 <= i < |s[1..]|
        ensures TokenLen(s[1..][i..]).None?
      {
        assert s[1..][i..] == s[i + 1..];
      }
      ReplaceNoToken(m, s[1..]);
      assert s == [s[0]] + s[1..];
    }
  }

  // ----- The documented cases -----

  /**
   * Two adjacent tokens are both replaced (`:smile::+1:`); the closing colon
   * of the first is not reused.
   */
  lemma AdjacentTokens(m: Aliases, v: string, w: string)
    requires |v| > 0 && IsCode(v) && |w| > 0 && IsCode(w) && v in m && w in m
    ensures Replace(m, ":" + v + ":" + ":" + w + ":") == m[v] + m[w]
  {
    var second := ":" + w + ":";
    assert ":" + v + ":" + ":" + w + ":" == ":" + v + ":" + second;
    ReplaceToken(m, v, second);
    assert second == ":" + w + ":" + [];
    ReplaceToken(m, w, []);
  }

  /** `::` holds no token and is unchanged. */
  lemma EmptyBetweenColons(m: Aliases)
    ensures ReplaceShortcodes(m, "::") == "::"
  {
    ReplaceShortcodesScan(m, "::");
    assert CodeRun(":") == 0;
    assert TokenLen("::").None?;
    assert "::"[1..] == ":";
    assert TokenLen(":").None?;
    assert ":"[1..] == [];
  }

  /**
   * A time of day keeps its colons when the digits between them are not an
   * alias: in `h:mm:ss` the token `:mm:` is copied and `ss` follows it.
   */
  lemma TimeOfDay(m: Aliases, h: string, mm: string, ss: string)
    requires |mm| > 0 && IsCode(mm) && mm !in m
    requires ':' !in h && ':' !in ss
    ensures ReplaceShortcodes(m, h + ":" + mm + ":" + ss) == h + ":" + mm + ":" + ss
  {
    var text := h + ":" + mm + ":" + ss;
    ReplaceShortcodesScan(m, text);
    assert text == h + (":" + mm + ":" + ss);
    ReplaceAppend(m, h, ":" + mm + ":" + ss);
    ReplaceToken(m, mm, ss);
    ReplaceNoColon(m, ss);
  }

  /** Text around a known token is copied unchanged and in order. */
  lemma MixedText(m: Aliases, a: string, w: string, b: string)
    requires |w| > 0 && IsCode(w) && w in m
    requires ':' !in a && ':' !in b
    ensures ReplaceShortcodes(m, a + ":" + w + ":" + b) == a + m[w] + b
  {
    var tail := ":" + w + ":" + b;
    var text := a + ":" + w + ":" + b;
    ReplaceShortcodesScan(m, text);
    assert text == a + tail;
    KnownTokenThenText(m, w, b);
    ReplaceAppend(m, a, tail);
    assert a + (m[w] + b) == a + m[w] + b;
  }

  /** A known token followed by colon-free text. */
  lemma KnownTokenThenText(m: Aliases, w: string, b: string)
    requires |w| > 0 && IsCode(w) && w in m && ':' !in b
    ensures Replace(m, ":" + w + ":" + b) == m[w] + b
  {
    ReplaceToken(m, w, b);
    ReplaceNoColon(m, b);
  }
}
