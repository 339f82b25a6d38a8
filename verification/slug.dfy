/**
 * Heading slugs (`SlugGenerator.slugify`) and the per-document deduplicating
 * `Tracker`. The regular-expression classes `\w` and `\s` and Unicode case
 * mapping are instantiated on ASCII; characters outside ASCII count as word
 * characters and have no case.
 */
module SlugGenerator {
  import opened Strings

  /** `\w`: letters, digits and underscore (non-ASCII characters are taken as letters). */
  predicate IsWordChar(c: char) {
    ('a' <= c <= 'z') || ('A' <= c <= 'Z') || ('0' <= c <= '9') || c == '_' || c as int >= 128
  }

  /** `\s`: the ASCII white-space characters, line breaks included. */
  predicate IsSpaceChar(c: char) {
    c == ' ' || c == '\t' || c == '\n' || c == '\r' || c == '\U{000C}'
  }

  /** `CharacterSet.whitespaces`: horizontal white space only (no line breaks). */
  predicate IsBlankChar(c: char) {
    c == ' ' || c == '\t'
  }

  /** The characters `[\w\s-]` that survive stripping. */
  predicate IsKept(c: char) {
    IsWordChar(c) || IsSpaceChar(c) || c == '-'
  }

  /** A character a slug may contain: a lower-case word character or a hyphen. */
  predicate IsSlugChar(c: char) {
    ('a' <= c <= 'z') || ('0' <= c <= '9') || c == '_' || c as int >= 128 || c == '-'
  }

  predicate IsSlug(s: string) {
    forall i :: 0 <= i < |s| ==> IsSlugChar(s[i])
  }

  /** Removes every character outside `[\w\s-]`. */
  function Strip(s: string): (r: string)
    ensures |r| <= |s|
  {
    if s == [] then []
    else if IsKept(s[0]) then [s[0]] + Strip(s[1..])
    else Strip(s[1..])
  }

  function TrimStart(s: string): (r: string)
    ensures |r| <= |s| && r == s[|s| - |r|..]
    ensures r == [] || !IsBlankChar(r[0])
  {
    if s != [] && IsBlankChar(s[0]) then TrimStart(s[1..]) else s
  }

  function TrimEnd(s: string): (r: string)
    ensures |r| <= |s| && r == s[..|r|]
    ensures r == [] || !IsBlankChar(r[|r| - 1])
  {
    if s != [] && IsBlankChar(s[|s| - 1]) then TrimEnd(s[..|s| - 1]) else s
  }

  /** `trimmingCharacters(in: .whitespaces)`. */
  function Trim(s: string): string {
    TrimEnd(TrimStart(s))
  }

  function DropSpaces(s: string): (r: string)
    ensures |r| <= |s| && r == s[|s| - |r|..]
    ensures r == [] || !IsSpaceChar(r[0])
  {
    if s != [] && IsSpaceChar(s[0]) then DropSpaces(s[1..]) else s
  }

  /** Replaces every maximal run of `\s` by one hyphen. */
  function Collapse(s: string): (r: string)
    decreases |s|
  {
    if s == [] then []
    else if IsSpaceChar(s[0]) then "-" + Collapse(DropSpaces(s))
    else [s[0]] + Collapse(s[1..])
  }

  /** GitHub-style slug: lower-case, strip, trim, hyphenate. */
  function Slugify(text: string): string {
    Collapse(Trim(Strip(Lower(text))))
  }

  /** Stripping only keeps characters of `[\w\s-]` that were there. */
  lemma {:induction false} StripChars(s: string, c: char)
    requires c in Strip(s)
    ensures c in s && IsKept(c)
    decreases |s|
  {
    if s != [] {
      if IsKept(s[0]) && c == s[0] {
      } else {
        assert c in Strip(s[1..]);
        StripChars(s[1..], c);
      }
    }
  }

  /** Trimming only removes characters. */
  lemma TrimChars(s: string, c: char)
    requires c in Trim(s)
    ensures c in s
  {
    var t := TrimStart(s);
    assert Trim(s) == t[..|Trim(s)|];
    assert t == s[|s| - |t|..];
  }

  /** Collapsing introduces no white space: its output holds hyphens and non-space characters of its input. */
  lemma {:induction false} CollapseChars(s: string, c: char)
    requires c in Collapse(s)
    ensures c == '-' || (c in s && !IsSpaceChar(c))
    decreases |s|
  {
    if s != [] && c != '-' {
      if IsSpaceChar(s[0]) {
        var d := DropSpaces(s);
        assert c in Collapse(d);
        CollapseChars(d, c);
        assert d == s[|s| - |d|..];
      } else if c != s[0] {
        assert c in Collapse(s[1..]);
        CollapseChars(s[1..], c);
      }
    }
  }

  /** Every slug is made of lower-case word characters and hyphens: no white space, no punctuation. */
  lemma SlugifyIsSlug(text: string)
    ensures IsSlug(Slugify(text))
  {
    var l := Lower(text);
    var st := Strip(l);
    var t := Trim(st);
    var r := Collapse(t);
    forall i | 0 <= i < |r|
      ensures IsSlugChar(r[i])
    {
      var c := r[i];
      CollapseChars(t, c);
      if c != '-' {
        TrimChars(st, c);
        StripChars(l, c);
        var k :| 0 <= k < |l| && l[k] == c;
        assert c == LowerChar(text[k]);
      }
    }
  }

  lemma {:induction false} StripKeeps(s: string)
    requires forall i :: 0 <= i < |s| ==> IsKept(s[i])
    ensures Strip(s) == s
    decreases |s|
  {
    if s != [] {
      StripKeeps(s[1..]);
    }
  }

  lemma {:induction false} CollapseKeeps(s: string)
    requires forall i :: 0 <= i < |s| ==> !IsSpaceChar(s[i])
    ensures Collapse(s) == s
    decreases |s|
  {
    if s != [] {
      CollapseKeeps(s[1..]);
    }
  }

  /** An existing slug is left alone, so `Slugify` is idempotent. */
  lemma SlugifySlug(s: string)
    requires IsSlug(s)
    ensures Slugify(s) == s
  {
    LowerSlug(s);
    StripKeeps(s);
    TrimSlug(s);
    SlugNoSpace(s);
    CollapseKeeps(s);
    assert Slugify(s) == Collapse(Trim(Strip(Lower(s))));
  }

  lemma LowerSlug(s: string)
    requires IsSlug(s)
    ensures Lower(s) == s
  {
    forall i | 0 <= i < |s|
      ensures Lower(s)[i] == s[i]
    {
      assert IsSlugChar(s[i]);
    }
  }

  lemma TrimSlug(s: string)
    requires IsSlug(s)
    ensures Trim(s) == s
  {
    if s != [] {
      assert IsSlugChar(s[0]) && IsSlugChar(s[|s| - 1]);
    }
    assert TrimStart(s) == s;
  }

  lemma SlugifyIdempotent(text: string)
    ensures Slugify(Slugify(text)) == Slugify(text)
  {
    SlugifyIsSlug(text);
    SlugifySlug(Slugify(text));
  }

  predicate AllBlank(s: string) {
    forall i :: 0 <= i < |s| ==> IsBlankChar(s[i])
  }

  lemma {:induction false} DropSpacesRun(sp: string, b: string)
    requires AllBlank(sp)
    requires b == [] || !IsSpaceChar(b[0])
    ensures DropSpaces(sp + b) == b
    decreases |sp|
  {
    if sp == [] {
      assert sp + b == b;
    } else {
      assert (sp + b)[1..] == sp[1..] + b;
      DropSpacesRun(sp[1..], b);
    }
  }

  /** A run of blanks before a non-space becomes one hyphen. */
  lemma CollapseSpaceRun(sp: string, b: string)
    requires |sp| > 0 && AllBlank(sp)
    requires b == [] || !IsSpaceChar(b[0])
    ensures Collapse(sp + b) == "-" + Collapse(b)
  {
    DropSpacesRun(sp, b);
  }

  lemma {:induction false} CollapseAppend(a: string, b: string)
    requires forall i :: 0 <= i < |a| ==> !IsSpaceChar(a[i])
    ensures Collapse(a + b) == a + Collapse(b)
    decreases |a|
  {
    if a == [] {
      assert a + b == b;
    } else {
      var ab := a + b;
      assert ab[0] == a[0] && !IsSpaceChar(ab[0]);
      assert ab[1..] == a[1..] + b;
      assert Collapse(ab) == [a[0]] + Collapse(a[1..] + b);
      CollapseAppend(a[1..], b);
      assert a == [a[0]] + a[1..];
      assert [a[0]] + (a[1..] + Collapse(b)) == a + Collapse(b);
    }
  }

  lemma {:induction false} TrimStartBlank(sp: string, b: string)
    requires AllBlank(sp)
    requires b == [] || !IsBlankChar(b[0])
    ensures TrimStart(sp + b) == b
    decreases |sp|
  {
    if sp == [] {
      assert sp + b == b;
    } else {
      assert (sp + b)[1..] == sp[1..] + b;
      TrimStartBlank(sp[1..], b);
    }
  }

  lemma {:induction false} TrimEndBlank(a: string, sp: string)
    requires AllBlank(sp)
    requires a == [] || !IsBlankChar(a[|a| - 1])
    ensures TrimEnd(a + sp) == a
    decreases |sp|
  {
    if sp == [] {
      assert a + sp == a;
    } else {
      assert (a + sp)[..|a + sp| - 1] == a + sp[..|sp| - 1];
      TrimEndBlank(a, sp[..|sp| - 1]);
    }
  }

  /** A slug character or a blank. */
  predicate SlugOrBlank(s: string) {
    forall i :: 0 <= i < |s| ==> IsSlugChar(s[i]) || IsBlankChar(s[i])
  }

  lemma SlugOrBlankConcat(x: string, y: string)
    requires SlugOrBlank(x) && SlugOrBlank(y)
    ensures SlugOrBlank(x + y)
  {
    forall i | 0 <= i < |x + y|
      ensures IsSlugChar((x + y)[i]) || IsBlankChar((x + y)[i])
    {
      if i < |x| {
        assert (x + y)[i] == x[i];
      } else {
        assert (x + y)[i] == y[i - |x|];
      }
    }
  }

  /** Lower-casing and stripping leave slug characters and blanks alone. */
  lemma SlugOrBlankStable(s: string)
    requires SlugOrBlank(s)
    ensures Strip(Lower(s)) == s
  {
    assert Lower(s) == s;
    StripKeeps(s);
  }

  /** Blanks around a text that neither starts nor ends with a blank are trimmed away. */
  lemma TrimAround(lead: string, mid: string, trail: string)
    requires AllBlank(lead) && AllBlank(trail) && |mid| > 0
    requires !IsBlankChar(mid[0]) && !IsBlankChar(mid[|mid| - 1])
    ensures Trim(lead + mid + trail) == mid
  {
    assert lead + mid + trail == lead + (mid + trail);
    TrimStartBlank(lead, mid + trail);
    TrimEndBlank(mid, trail);
  }

  /** Two slug words around a run of blanks collapse to the words joined by one hyphen. */
  lemma CollapseWords(a: string, sp: string, b: string)
    requires IsSlug(a) && IsSlug(b) && |b| > 0
    requires AllBlank(sp) && |sp| > 0
    ensures Collapse(a + sp + b) == a + "-" + b
  {
    var x := sp + b;
    SlugNoSpace(a);
    CollapseAppend(a, x);
    CollapseHyphen(sp, b);
    Assoc3(a, sp, b);
    Assoc3(a, "-", b);
  }

  /** A run of blanks in front of a slug word becomes one hyphen. */
  lemma CollapseHyphen(sp: string, b: string)
    requires IsSlug(b) && |b| > 0
    requires AllBlank(sp) && |sp| > 0
    ensures Collapse(sp + b) == "-" + b
  {
    SlugNoSpace(b);
    CollapseSpaceRun(sp, b);
    CollapseKeeps(b);
  }

  lemma Assoc3(a: string, b: string, c: string)
    ensures a + b + c == a + (b + c)
  {
  }

  lemma SlugNoSpace(s: string)
    requires IsSlug(s)
    ensures forall i :: 0 <= i < |s| ==> !IsSpaceChar(s[i])
  {
    forall i | 0 <= i < |s|
      ensures !IsSpaceChar(s[i])
    {
      assert IsSlugChar(s[i]);
    }
  }

  /**
   * Surrounding blanks are dropped and an inner run of blanks between two
   * slug words becomes exactly one hyphen.
   */
  lemma SlugifyWords(lead: string, a: string, sp: string, b: string, trail: string)
    requires IsSlug(a) && IsSlug(b) && |a| > 0 && |b| > 0
    requires AllBlank(lead) && AllBlank(sp) && AllBlank(trail) && |sp| > 0
    ensures Slugify(lead + (a + sp + b) + trail) == a + "-" + b
  {
    var mid := a + sp + b;
    SlugOrBlankConcat(a, sp);
    SlugOrBlankConcat(a + sp, b);
    SlugOrBlankConcat(lead, mid);
    SlugOrBlankConcat(lead + mid, trail);
    SlugOrBlankStable(lead + mid + trail);
    assert mid[0] == a[0] && mid[|mid| - 1] == b[|b| - 1];
    TrimAround(lead, mid, trail);
    CollapseWords(a, sp, b);
  }

  /** Surrounding blanks vanish from a one-word heading. */
  lemma SlugifyPadded(lead: string, w: string, trail: string)
    requires IsSlug(w) && |w| > 0 && AllBlank(lead) && AllBlank(trail)
    ensures Slugify(lead + w + trail) == w
  {
    SlugOrBlankConcat(lead, w);
    SlugOrBlankConcat(lead + w, trail);
    SlugOrBlankStable(lead + w + trail);
    TrimAround(lead, w, trail);
    CollapseKeeps(w);
  }

  /** "  Hello  " gives "hello". */
  lemma SlugifyTrims()
    ensures Slugify("  Hello  ") == "hello"
  {
    assert Lower("  Hello  ") == "  hello  ";
    assert Lower("  hello  ") == "  hello  ";
    assert "  hello  " == "  " + "hello" + "  ";
    SlugifyPadded("  ", "hello", "  ");
  }

  // ----- Tracker -----

  /** Per-document counters: how often each base slug has been handed out. */
  datatype Tracker = Tracker(counts: map<string, nat>)

  function Count(t: Tracker, base: string): nat {
    if base in t.counts then t.counts[base] else 0
  }

  const Fresh: Tracker := Tracker(map[])

  /** The slug for the n-th request of a base (0-based): the base itself, then `base-1`, `base-2`, … */
  function Label(base: string, n: nat): string {
    if n == 0 then base else base + "-" + NatToString(n)
  }

  /**
   * The slug handed out for one request of `base`, and the tracker after it.
   * Only the counter of `base` moves, by one.
   */
  function Next(t: Tracker, base: string): (r: (string, Tracker))
    ensures StartsWith(r.0, base)
    ensures r.0 == base <==> Count(t, base) == 0
    ensures Count(r.1, base) == Count(t, base) + 1
  {
    var n := Count(t, base);
    (Label(base, n), Tracker(t.counts[base := n + 1]))
  }

  /** Only the counter of the requested base moves. */
  lemma NextCounts(t: Tracker, base: string, b: string)
    ensures Count(Next(t, base).1, b) == Count(t, b) + (if b == base then 1 else 0)
  {
  }

  /** `Tracker.slug(for:)`: slugify, then take the next label of that base. */
  function SlugFor(t: Tracker, text: string): (string, Tracker) {
    Next(t, Slugify(text))
  }

  /** Bases of a sequence of texts. */
  function Bases(texts: seq<string>): (r: seq<string>)
    ensures |r| == |texts|
  {
    Map(Slugify, texts)
  }

  /** Requests the bases in order; returns the slugs handed out and the final tracker. */
  function RunBases(t: Tracker, bases: seq<string>): (r: (seq<string>, Tracker))
    ensures |r.0| == |bases|
    decreases |bases|
  {
    if bases == [] then ([], t)
    else
      var first := Next(t, bases[0]);
      var rest := RunBases(first.1, bases[1..]);
      ([first.0] + rest.0, rest.1)
  }

  /** Feeds `texts` to the tracker in order. */
  function Run(t: Tracker, texts: seq<string>): (seq<string>, Tracker) {
    RunBases(t, Bases(texts))
  }

  /** Number of occurrences of `b` in `bases`. */
  function Occurrences(bases: seq<string>, b: string): nat {
    if bases == [] then 0
    else (if bases[0] == b then 1 else 0) + Occurrences(bases[1..], b)
  }

  /** After a run every counter has grown by the number of requests of its base. */
  lemma {:induction false} RunCounts(t: Tracker, bases: seq<string>, b: string)
    ensures Count(RunBases(t, bases).1, b) == Count(t, b) + Occurrences(bases, b)
    decreases |bases|
  {
    if bases != [] {
      NextCounts(t, bases[0], b);
      RunCounts(Next(t, bases[0]).1, bases[1..], b);
    }
  }

  /**
   * The i-th slug of a run is the i-th base, suffixed by how many earlier
   * requests (before the run, plus earlier in the run) had that base.
   */
  lemma {:induction false} RunSlug(t: Tracker, bases: seq<string>, i: nat)
    requires i < |bases|
    ensures RunBases(t, bases).0[i] == Label(bases[i], Count(t, bases[i]) + Occurrences(bases[..i], bases[i]))
    decreases |bases|
  {
    var b := bases[i];
    var t1 := Next(t, bases[0]).1;
    var rest := RunBases(t1, bases[1..]).0;
    assert RunBases(t, bases).0 == [Next(t, bases[0]).0] + rest;
    if i == 0 {
      assert bases[..0] == [];
      assert Next(t, b).0 == Label(b, Count(t, b));
    } else {
      RunSlug(t1, bases[1..], i - 1);
      assert bases[1..][i - 1] == b;
      NextCounts(t, bases[0], b);
      assert bases[..i][0] == bases[0];
      assert bases[..i][1..] == bases[1..][..i - 1];
    }
  }

  /** While a base has not been requested, its slugs count only the requests in the run. */
  lemma UnseenSlug(t: Tracker, bases: seq<string>, i: nat)
    requires i < |bases| && Count(t, bases[i]) == 0
    ensures RunBases(t, bases).0[i] == Label(bases[i], Occurrences(bases[..i], bases[i]))
  {
    RunSlug(t, bases, i);
    ZeroLabel(bases[i], Count(t, bases[i]), Occurrences(bases[..i], bases[i]), RunBases(t, bases).0[i]);
  }

  lemma ZeroLabel(b: string, c: nat, k: nat, x: string)
    requires c == 0 && x == Label(b, c + k)
    ensures x == Label(b, k)
  {
  }

  lemma FreshCount(b: string)
    ensures Count(Fresh, b) == 0
  {
    assert Fresh.counts == map[];
  }

  /** Runs compose: requesting `a` then `b` is requesting `a + b`. */
  lemma {:induction false} RunAppend(t: Tracker, a: seq<string>, b: seq<string>)
    ensures RunBases(t, a + b).0 == RunBases(t, a).0 + RunBases(RunBases(t, a).1, b).0
    ensures RunBases(t, a + b).1 == RunBases(RunBases(t, a).1, b).1
    decreases |a|
  {
    if a == [] {
      assert a + b == b;
    } else {
      var first := Next(t, a[0]);
      var ab := a + b;
      assert ab[0] == a[0];
      assert ab[1..] == a[1..] + b;
      RunAppend(first.1, a[1..], b);
      var ra := RunBases(first.1, a[1..]);
      var rb := RunBases(ra.1, b);
      RunCons(t, a);
      RunCons(t, ab);
      ConsAssoc(first.0, ra.0, rb.0);
    }
  }

  /** One step of a run. */
  lemma RunCons(t: Tracker, bases: seq<string>)
    requires bases != []
    ensures var first := Next(t, bases[0]);
      var rest := RunBases(first.1, bases[1..]);
      RunBases(t, bases) == ([first.0] + rest.0, rest.1)
  {
  }

  lemma ConsAssoc(x: string, p: seq<string>, q: seq<string>)
    ensures [x] + (p + q) == ([x] + p) + q
  {
  }

  lemma BasesAppend(a: seq<string>, b: seq<string>)
    ensures Bases(a + b) == Bases(a) + Bases(b)
  {
    MapAppend(Slugify, a, b);
  }

  /** A single request gets the next label of its base. */
  lemma RunBasesSingle(t: Tracker, base: string)
    ensures RunBases(t, [base]) == ([Next(t, base).0], Next(t, base).1)
  {
    var first := Next(t, base);
    RunCons(t, [base]);
    assert [base][0] == base && [base][1..] == [];
    assert RunBases(first.1, []) == ([], first.1);
    assert [first.0] + [] == [first.0];
  }

  /** Three equal headings get "features", "features-1", "features-2". */
  lemma TrackerRepeats()
    ensures RunBases(Fresh, ["features", "features", "features"]).0 == ["features", "features-1", "features-2"]
  {
    var bases := ["features", "features", "features"];
    var r := RunBases(Fresh, bases).0;
    RunSlug(Fresh, bases, 0);
    RunSlug(Fresh, bases, 1);
    RunSlug(Fresh, bases, 2);
    assert bases[..0] == [];
    assert bases[..1] == ["features"];
    assert bases[..2] == ["features", "features"];
    assert Occurrences(bases[..1], "features") == 1;
    assert Occurrences(bases[..2], "features") == 2;
    assert NatToString(1) == "1";
    assert NatToString(2) == "2";
    assert Label("features", 1) == "features-1";
    assert Label("features", 2) == "features-2";
    assert r[0] == "features" && r[1] == "features-1" && r[2] == "features-2";
  }
}
