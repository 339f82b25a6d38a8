/**
 * The find bar's search-origin state machine (`FindState`). Every search the
 * bar asks for carries a fresh id; the UUID generator is modelled as a counter
 * that moves forward, so a fresh id differs from the current one.
 */
module FindBar {
  import opened Wrappers
  import Strings

  datatype SearchDirection = Forward | Backward

  /**
   * `Top`: a new term, searched from the top of the page. `Refine`: the term
   * extends the last one. `Advance`: navigation from the current selection.
   */
  datatype SearchOrigin = Top | Refine | Advance

  datatype MatchInfo = MatchInfo(current: int, total: int)

  datatype SearchQuery = SearchQuery(id: nat, text: string, origin: SearchOrigin, direction: SearchDirection)

  datatype FindState = FindState(
    isVisible: bool,
    searchText: string,
    searchId: nat,
    origin: SearchOrigin,
    direction: SearchDirection,
    matchInfo: Option<MatchInfo>,
    lastSearchedText: string)

  /** A new bar: hidden, empty, searching forward from the top. */
  const Initial := FindState(false, "", 0, Top, Forward, None, "")

  /** A search request with a fresh id. */
  function Issue(s: FindState): (r: FindState)
    ensures r.searchId > s.searchId
    ensures r == s.(searchId := r.searchId)
  {
    s.(searchId := s.searchId + 1)
  }

  function Show(s: FindState): (r: FindState)
    ensures r.isVisible && r == s.(isVisible := true)
  {
    s.(isVisible := true)
  }

  /** `close()`: hides the bar and forgets the text, the last search and the match count. */
  function Close(s: FindState): (r: FindState)
    ensures !r.isVisible && r.searchText == "" && r.lastSearchedText == "" && r.matchInfo.None?
    ensures r.searchId == s.searchId && r.origin == s.origin && r.direction == s.direction
  {
    s.(isVisible := false, searchText := "", lastSearchedText := "", matchInfo := None)
  }

  /** `findNext()` / `findPrevious()`: navigate in `dir`; nothing happens while the text is empty. */
  function Navigate(s: FindState, dir: SearchDirection): (r: FindState)
    ensures s.searchText == "" ==> r == s
    ensures s.searchText != "" ==>
      && r.origin == Advance && r.direction == dir
      && r.lastSearchedText == s.searchText && r.searchId != s.searchId
      && r.isVisible == s.isVisible && r.searchText == s.searchText && r.matchInfo == s.matchInfo
  {
    if s.searchText == "" then s
    else Issue(s.(direction := dir, origin := Advance, lastSearchedText := s.searchText))
  }

  function FindNext(s: FindState): FindState {
    Navigate(s, Forward)
  }

  function FindPrevious(s: FindState): FindState {
    Navigate(s, Backward)
  }

  /** `currentQuery`: what the web view should search for, if anything. */
  function CurrentQuery(s: FindState): (q: Option<SearchQuery>)
    ensures q.Some? <==> s.isVisible && s.searchText != ""
    ensures q.Some? ==> q.value == SearchQuery(s.searchId, s.searchText, s.origin, s.direction)
  {
    if !s.isVisible || s.searchText == "" then None
    else Some(SearchQuery(s.searchId, s.searchText, s.origin, s.direction))
  }

  /**
   * `autoSearch(_:)`, run when the search text changes to `text`: a new term
   * starts from the top and clears the match count; a term that extends the
   * last one refines it.
   */
  function AutoSearch(s: FindState, text: string): (r: FindState) {
    if !s.isVisible || text == "" then s.(matchInfo := None, lastSearchedText := "")
    else if text == s.lastSearchedText then s
    else
      var s1 := s.(direction := Forward);
      var s2 := if s.lastSearchedText == "" || !Strings.StartsWith(text, s.lastSearchedText)
        then s1.(origin := Top, matchInfo := None)
        else s1.(origin := Refine);
      Issue(s2.(lastSearchedText := text))
  }

  /** Typing into the bar: the text changes, then the automatic search runs. */
  function Type(s: FindState, text: string): FindState {
    AutoSearch(s.(searchText := text), text)
  }

  // ----- Properties -----

  /** A hidden bar or an empty text only forgets the last search and the match count. */
  lemma AutoSearchIdle(s: FindState, text: string)
    requires !s.isVisible || text == ""
    ensures var r := AutoSearch(s, text);
      r.matchInfo.None? && r.lastSearchedText == ""
      && r == s.(matchInfo := None, lastSearchedText := "")
      && CurrentQuery(r.(searchText := text)).None?
  {
  }

  /** Repeating the last search text changes nothing. */
  lemma AutoSearchRepeat(s: FindState)
    requires s.isVisible && s.lastSearchedText != ""
    ensures AutoSearch(s, s.lastSearchedText) == s
  {
  }

  /**
   * A visible new text issues a forward search with a fresh id: from the top
   * (match count cleared) unless it extends a non-empty last search, in which
   * case it refines.
   */
  lemma AutoSearchNew(s: FindState, text: string)
    requires s.isVisible && text != "" && text != s.lastSearchedText
    ensures var r := AutoSearch(s, text);
      && r.direction == Forward
      && r.lastSearchedText == text
      && r.searchId != s.searchId
      && (r.origin == Refine <==> s.lastSearchedText != "" && Strings.StartsWith(text, s.lastSearchedText))
      && (r.origin == Top <==> !(s.lastSearchedText != "" && Strings.StartsWith(text, s.lastSearchedText)))
      && (r.origin == Top ==> r.matchInfo.None?)
      && (r.origin == Refine ==> r.matchInfo == s.matchInfo)
      && r.isVisible == s.isVisible && r.searchText == s.searchText
  {
  }

  /** Typing one more character after a search refines it, and the bar then has a query. */
  lemma TypeMore(s: FindState, c: char)
    requires s.isVisible && s.searchText != "" && s.lastSearchedText == s.searchText
    ensures Type(s, s.searchText + [c]).origin == Refine
    ensures CurrentQuery(Type(s, s.searchText + [c])).Some?
  {
    var t := s.searchText + [c];
    assert t[..|s.searchText|] == s.searchText;
  }

  /** After navigating, re-typing the same text is a no-op. */
  lemma NavigateThenRepeat(s: FindState, dir: SearchDirection)
    requires s.isVisible && s.searchText != ""
    ensures AutoSearch(Navigate(s, dir), s.searchText) == Navigate(s, dir)
  {
  }

  /** After closing there is no query, and the next non-empty text after showing starts from the top. */
  lemma CloseThenSearch(s: FindState, text: string)
    requires text != ""
    ensures CurrentQuery(Close(s)).None?
    ensures Type(Show(Close(s)), text).origin == Top
    ensures Type(Show(Close(s)), text).matchInfo.None?
  {
  }
}
