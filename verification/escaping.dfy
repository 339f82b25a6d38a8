/**
 * HTML text escaping (`HTMLEscaping.escape`): `&`, `<`, `>` and `"` become
 * entity references, every other character is copied.
 */
module HtmlEscaping {
  import opened Strings

  /** The four characters the escaper rewrites. */
  predicate IsSpecial(c: char) {
    c == '&' || c == '<' || c == '>' || c == '"'
  }

  function EscapeChar(c: char): (r: string)
    ensures !IsSpecial(c) ==> r == [c]
    ensures IsSpecial(c) ==> |r| > 1 && r[0] == '&' && r[|r| - 1] == ';'
  {
    match c
    case '&' => "&amp;"
    case '<' => "&lt;"
    case '>' => "&gt;"
    case '"' => "&quot;"
    case _ => [c]
  }

  /** The escaped text never contains `<`, `>` or `"`, and is at least as long as the input. */
  function Escape(s: string): (r: string)
    ensures |r| >= |s|
    ensures forall i :: 0 <= i < |r| ==> r[i] != '<' && r[i] != '>' && r[i] != '"'
    decreases |s|
  {
    if s == [] then [] else EscapeChar(s[0]) + Escape(s[1..])
  }

  /** Reads entity references back: the left inverse of `Escape`. */
  function Unescape(s: string): string
    decreases |s|
  {
    if s == [] then []
    else if StartsWith(s, "&amp;") then "&" + Unescape(s[5..])
    else if StartsWith(s, "&lt;") then "<" + Unescape(s[4..])
    else if StartsWith(s, "&gt;") then ">" + Unescape(s[4..])
    else if StartsWith(s, "&quot;") then "\"" + Unescape(s[6..])
    else [s[0]] + Unescape(s[1..])
  }

  lemma {:induction false} UnescapeAfterEntity(c: char, rest: string)
    ensures Unescape(EscapeChar(c) + rest) == [c] + Unescape(rest)
  {
    var e := EscapeChar(c);
    assert (e + rest)[..|e|] == e;
    assert (e + rest)[|e|..] == rest;
    if !IsSpecial(c) {
      assert (e + rest)[0] == c;
      assert !StartsWith(e + rest, "&amp;") && !StartsWith(e + rest, "&lt;");
    }
  }

  /** Escaping loses nothing: unescaping its output gives the input back. */
  lemma {:induction false} UnescapeEscape(s: string)
    ensures Unescape(Escape(s)) == s
    decreases |s|
  {
    if s != [] {
      UnescapeAfterEntity(s[0], Escape(s[1..]));
      UnescapeEscape(s[1..]);
    }
  }

  /** Hence distinct texts escape differently. */
  lemma EscapeInjective(a: string, b: string)
    requires Escape(a) == Escape(b)
    ensures a == b
  {
    UnescapeEscape(a);
    UnescapeEscape(b);
  }

  /** Escaping distributes over concatenation. */
  lemma {:induction false} EscapeConcat(a: string, b: string)
    ensures Escape(a + b) == Escape(a) + Escape(b)
    decreases |a|
  {
    if a == [] {
      assert a + b == b;
    } else {
      assert (a + b)[0] == a[0];
      assert (a + b)[1..] == a[1..] + b;
      EscapeConcat(a[1..], b);
    }
  }

  /** A text is returned unchanged exactly when it holds none of the four special characters. */
  lemma {:induction false} EscapeIdentity(s: string)
    ensures Escape(s) == s <==> forall i :: 0 <= i < |s| ==> !IsSpecial(s[i])
    decreases |s|
  {
    if s != [] {
      EscapeIdentity(s[1..]);
      var e := EscapeChar(s[0]);
      if IsSpecial(s[0]) {
        assert |Escape(s)| >= |e| + |s| - 1 > |s|;
      } else if Escape(s) == s {
        assert Escape(s[1..]) == s[1..];
      } else {
        assert Escape(s[1..]) != s[1..];
        assert exists i :: 1 <= i < |s| && IsSpecial(s[i]) by {
          var j :| 0 <= j < |s[1..]| && IsSpecial(s[1..][j]);
          assert IsSpecial(s[j + 1]);
        }
      }
    }
  }

  /** Escaping is not idempotent: an already escaped ampersand is escaped again. */
  lemma EscapeNotIdempotent()
    ensures Escape("&amp;") == "&amp;amp;"
    ensures Escape(Escape("&")) != Escape("&")
  {
    assert Escape("&") == "&amp;" by {
      assert "&"[1..] == [];
    }
    assert Escape("amp;") == "amp;" by {
      EscapeIdentity("amp;");
    }
    assert "&amp;" == "&" + "amp;";
    EscapeConcat("&", "amp;");
  }

  /** The concrete mappings: each special character maps to its entity, the apostrophe is copied. */
  lemma EscapeExamples()
    ensures Escape("<\"&>") == "&lt;&quot;&amp;&gt;"
    ensures Escape("'") == "'"
    ensures Escape("") == ""
  {
    assert "<\"&>"[1..] == "\"&>";
    assert "\"&>"[1..] == "&>";
    assert "&>"[1..] == ">";
    assert ">"[1..] == [];
    assert "'"[1..] == [];
  }
}
