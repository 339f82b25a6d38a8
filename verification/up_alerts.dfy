/**
 * Blockquote classification for the Up renderer: GitHub alerts (`> [!NOTE]`),
 * DocC asides (`> Note:`) and `> Status:` asides, and the alert categories
 * they map to. The DocC aside recogniser belongs to the parser library, so
 * its answer arrives as an `Aside` value.
 */
module UpAlerts {
  import opened Wrappers
  import opened Markup
  import opened Strings

  /** The visual categories; `StatusAlert` is used only by `Status:` asides. */
  datatype AlertCategory = NoteAlert | TipAlert | ImportantAlert | WarningAlert | CautionAlert | StatusAlert

  function RawValue(c: AlertCategory): string {
    match c
    case NoteAlert => "note"
    case TipAlert => "tip"
    case ImportantAlert => "important"
    case WarningAlert => "warning"
    case CautionAlert => "caution"
    case StatusAlert => "status"
  }

  /** The CSS class of the alert: `alert-` followed by the raw value. */
  function CssClass(c: AlertCategory): string {
    "alert-" + RawValue(c)
  }

  /** The display title: the raw value, capitalised. */
  function Title(c: AlertCategory): (r: string)
    ensures |r| == |RawValue(c)| && r[1..] == RawValue(c)[1..]
    ensures r[0] == UpperChar(RawValue(c)[0])
  {
    match c
    case NoteAlert => "Note"
    case TipAlert => "Tip"
    case ImportantAlert => "Important"
    case WarningAlert => "Warning"
    case CautionAlert => "Caution"
    case StatusAlert => "Status"
  }

  // ----- GitHub alerts -----

  /** The tags GitHub recognises, in the order they are tried. */
  const GfmTags: seq<(string, AlertCategory)> := [
    ("[!NOTE]", NoteAlert), ("[!TIP]", TipAlert), ("[!IMPORTANT]", ImportantAlert),
    ("[!WARNING]", WarningAlert), ("[!CAUTION]", CautionAlert)]

  /** The tag a category's alert starts with: `[!` + upper-cased raw value + `]`. */
  function GfmTag(c: AlertCategory): (r: string)
    ensures |r| == |"[!" + Upper(RawValue(c)) + "]"|
  {
    match c
    case NoteAlert => "[!NOTE]"
    case TipAlert => "[!TIP]"
    case ImportantAlert => "[!IMPORTANT]"
    case WarningAlert => "[!WARNING]"
    case CautionAlert => "[!CAUTION]"
    case StatusAlert => "[!STATUS]"
  }

  /** The first tag of `tags` that `text` starts with. */
  function FirstTag(text: string, tags: seq<(string, AlertCategory)>): (r: Option<AlertCategory>)
    ensures r.Some? ==> exists i :: 0 <= i < |tags| && tags[i].1 == r.value && StartsWith(text, tags[i].0)
    ensures r.None? ==> forall i :: 0 <= i < |tags| ==> !StartsWith(text, tags[i].0)
  {
    if tags == [] then None
    else if StartsWith(text, tags[0].0) then Some(tags[0].1)
    else
      var r := FirstTag(text, tags[1..]);
      assert forall i :: 1 <= i < |tags| ==> tags[i] == tags[1..][i - 1];
      r
  }

  /** `detectGFMAlert`: the first child is a paragraph whose plain text starts with a tag. */
  function DetectGfm(plain: PlainText, quote: Node): Option<AlertCategory> {
    if quote.children == [] || !quote.children[0].kind.Paragraph? then None
    else
      var text := plain(quote.children[0]);
      if !StartsWith(text, "[!") then None else FirstTag(text, GfmTags)
  }

  /**
   * The text left in the first Text node once as many characters as the
   * upper-cased tag has, and the spaces after them, are gone.
   */
  function AfterTag(text: string, c: AlertCategory): string {
    DropLeading(DropFirst(text, |"[!" + Upper(RawValue(c)) + "]"|), ' ')
  }

  // ----- DocC asides -----

  /**
   * The aside kinds the category table names, any other kind the parser
   * library predefines, and a custom kind (any other tag word).
   */
  datatype AsideKind =
    | Note | Remark | Tip | Experiment | Important | Attention
    | Warning | Precondition | Postcondition | Requires | Invariant
    | Bug | Throws
    | OtherPredefined(name: string)
    | Custom(name: string)

  /** What the parser library's aside recogniser reports: the kind, its display name, the content without the tag. */
  datatype Aside = Aside(kind: AsideKind, displayName: string, content: seq<Node>)

  /** The kinds the category table lists for each category. */
  function ListedKinds(c: AlertCategory): seq<AsideKind> {
    match c
    case NoteAlert => [Note, Remark]
    case TipAlert => [Tip, Experiment]
    case ImportantAlert => [Important, Attention]
    case WarningAlert => [Warning, Precondition, Postcondition, Requires, Invariant]
    case CautionAlert => [Bug, Throws]
    case StatusAlert => []
  }

  /** `doccCategoryMap`: the listed kinds, every other predefined kind as a note, custom kinds absent. */
  function DoccCategory(k: AsideKind): (r: Option<AlertCategory>)
    ensures r.None? <==> k.Custom?
    ensures r != Some(StatusAlert)
  {
    match k
    case Note => Some(NoteAlert)
    case Remark => Some(NoteAlert)
    case Tip => Some(TipAlert)
    case Experiment => Some(TipAlert)
    case Important => Some(ImportantAlert)
    case Attention => Some(ImportantAlert)
    case Warning => Some(WarningAlert)
    case Precondition => Some(WarningAlert)
    case Postcondition => Some(WarningAlert)
    case Requires => Some(WarningAlert)
    case Invariant => Some(WarningAlert)
    case Bug => Some(CautionAlert)
    case Throws => Some(CautionAlert)
    case OtherPredefined(_) => Some(NoteAlert)
    case Custom(_) => None
  }

  /** `detectDocCAlert`: an aside whose kind has a category; the title is the kind's display name. */
  function DetectDocC(aside: Option<Aside>): (r: Option<(AlertCategory, string, seq<Node>)>)
    ensures r.Some? <==> aside.Some? && !aside.value.kind.Custom?
    ensures r.Some? ==> r.value.1 == aside.value.displayName && r.value.2 == aside.value.content
  {
    if aside.None? then None
    else match DoccCategory(aside.value.kind)
      case None => None
      case Some(c) => Some((c, aside.value.displayName, aside.value.content))
  }

  // ----- Status asides -----

  const StatusPrefix := "Status:"

  /** `detectStatusAside`: the first inline of the first paragraph is Text starting `Status:` with a value after the spaces. */
  function DetectStatus(quote: Node): Option<string> {
    if quote.children == [] || !quote.children[0].kind.Paragraph? then None
    else
      var inlines := quote.children[0].children;
      if inlines == [] || !inlines[0].kind.Text? then None
      else
        var text := inlines[0].kind.text;
        if !StartsWith(text, StatusPrefix) then None
        else
          var value := DropLeading(DropFirst(text, |StatusPrefix|), ' ');
          if value == [] then None else Some(value)
  }

  /** The first Text of a quote's first paragraph, when there is one. */
  predicate FirstText(quote: Node, text: string) {
    && quote.children != [] && quote.children[0].kind.Paragraph?
    && quote.children[0].children != []
    && quote.children[0].children[0].kind == Text(text)
  }

  predicate AllSpaces(s: string) {
    forall i :: 0 <= i < |s| ==> s[i] == ' '
  }

  // ----- Properties -----

  /** The tags tried in order are the categories' tags, none of them the status tag. */
  lemma GfmTagsAreTags()
    ensures forall i :: 0 <= i < |GfmTags| ==> GfmTags[i].0 == GfmTag(GfmTags[i].1) && GfmTags[i].1 != StatusAlert
  {
  }

  /** The position of a category's tag in the list. */
  function TagIndex(c: AlertCategory): (i: nat)
    requires c != StatusAlert
    ensures i < |GfmTags| && GfmTags[i].1 == c
  {
    match c
    case NoteAlert => 0
    case TipAlert => 1
    case ImportantAlert => 2
    case WarningAlert => 3
    case CautionAlert => 4
  }

  /** The tags differ in their third character, so the text's third character picks the category. */
  lemma ThirdCharPicks(c: AlertCategory, d: AlertCategory)
    requires c != StatusAlert && d != StatusAlert && GfmTag(c)[2] == GfmTag(d)[2]
    ensures c == d
  {
  }

  /** The first matching tag is `c`'s exactly when the text starts with `c`'s tag. */
  lemma TagMatch(text: string, c: AlertCategory)
    ensures FirstTag(text, GfmTags) == Some(c) <==> c != StatusAlert && StartsWith(text, GfmTag(c))
  {
    GfmTagsAreTags();
    var r := FirstTag(text, GfmTags);
    if c != StatusAlert && StartsWith(text, GfmTag(c)) {
      var i := TagIndex(c);
      assert r.Some?;
      var j :| 0 <= j < |GfmTags| && GfmTags[j].1 == r.value && StartsWith(text, GfmTags[j].0);
      assert text[2] == GfmTag(c)[2] == GfmTag(r.value)[2];
      ThirdCharPicks(c, r.value);
    }
  }

  /**
   * A quote is a GitHub alert of category `c` exactly when its first child
   * is a paragraph whose plain text starts with `c`'s tag. No tag is a
   * prefix of another, so at most one category can match.
   */
  lemma DetectGfmSpec(plain: PlainText, quote: Node, c: AlertCategory)
    ensures DetectGfm(plain, quote) == Some(c) <==>
      && c != StatusAlert
      && quote.children != [] && quote.children[0].kind.Paragraph?
      && StartsWith(plain(quote.children[0]), GfmTag(c))
  {
    if quote.children != [] && quote.children[0].kind.Paragraph? {
      var text := plain(quote.children[0]);
      TagMatch(text, c);
      if c != StatusAlert && StartsWith(text, GfmTag(c)) {
        assert text[..2] == GfmTag(c)[..2];
      }
    }
  }

  /** The category table read backwards: which kinds land in which category. */
  lemma DoccCategoryInverse(k: AsideKind, c: AlertCategory)
    ensures DoccCategory(k) == Some(c) <==> k in ListedKinds(c) || (k.OtherPredefined? && c == NoteAlert)
  {
  }

  /** No kind is listed under two categories, and every listed kind keeps its listed category. */
  lemma ListedKindsDisjoint(c: AlertCategory, d: AlertCategory, k: AsideKind)
    requires k in ListedKinds(c) && k in ListedKinds(d)
    ensures c == d && DoccCategory(k) == Some(c)
  {
  }

  /** A custom aside is not an alert; it falls through to the later checks. */
  lemma CustomAsideIgnored(name: string, display: string, content: seq<Node>)
    ensures DetectDocC(Some(Aside(Custom(name), display, content))).None?
  {
  }

  /** Dropping the leading spaces of `sp + v` leaves `v` when `v` starts with something else. */
  lemma {:induction false} DropSpaces(sp: string, v: string)
    requires AllSpaces(sp) && (v == [] || v[0] != ' ')
    ensures DropLeading(sp + v, ' ') == v
    decreases |sp|
  {
    if sp == [] {
      assert sp + v == v;
    } else {
      assert (sp + v)[0] == ' ' && (sp + v)[1..] == sp[1..] + v;
      DropSpaces(sp[1..], v);
    }
  }

  /**
   * A status aside is recognised exactly when its first Text reads
   * `Status:`, some spaces, then a value; the value reported is that value.
   */
  lemma DetectStatusSpec(quote: Node, sp: string, v: string)
    requires FirstText(quote, StatusPrefix + sp + v)
    requires AllSpaces(sp) && (v == [] || v[0] != ' ')
    ensures DetectStatus(quote) == if v == [] then None else Some(v)
  {
    var text := StatusPrefix + sp + v;
    assert text[..|StatusPrefix|] == StatusPrefix;
    assert text[|StatusPrefix|..] == sp + v;
    DropSpaces(sp, v);
  }

  /** Whatever status value is found, the first Text is `Status:`, some spaces, then that value. */
  lemma DetectStatusSound(quote: Node)
    requires DetectStatus(quote).Some?
    ensures var v := DetectStatus(quote).value;
      v != [] && v[0] != ' ' && exists sp :: AllSpaces(sp) && FirstText(quote, StatusPrefix + sp + v)
  {
    var text := quote.children[0].children[0].kind.text;
    var sp := PrefixSpaces(text, StatusPrefix);
    assert FirstText(quote, StatusPrefix + sp + DetectStatus(quote).value);
  }

  /** The spaces between a prefix and the rest that `DropLeading` keeps. */
  function PrefixSpaces(text: string, prefix: string): (sp: string)
    requires StartsWith(text, prefix)
    ensures var v := DropLeading(DropFirst(text, |prefix|), ' ');
      AllSpaces(sp) && text == prefix + sp + v
  {
    var rest := text[|prefix|..];
    var v := DropLeading(rest, ' ');
    var sp := rest[..|rest| - |v|];
    assert AllSpaces(sp) by {
      forall i | 0 <= i < |sp| ensures sp[i] == ' ' {
        assert sp[i] == rest[i];
      }
    }
    assert text == prefix + sp + v by {
      assert rest == sp + v;
      assert text == text[..|prefix|] + rest;
    }
    sp
  }
}
