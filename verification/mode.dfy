/**
 * The Up/Down display mode (`Mode`) and the per-document state that holds it
 * (`DocumentState`). Request ids, which the source draws from `UUID()`, are
 * numbers here.
 */
module Modes {
  import opened Wrappers
  import HeadingExtractor
  import FindBar

  /** Up renders the Markdown; Down shows the highlighted source. */
  datatype Mode = Up | Down

  /** `toggled()`: the other mode. */
  function Toggled(m: Mode): (r: Mode)
    ensures r != m
  {
    match m
    case Up => Down
    case Down => Up
  }

  /** Toggling twice gives the mode back. */
  lemma ToggledInvolution(m: Mode)
    ensures Toggled(Toggled(m)) == m
  {
  }

  datatype ScrollTarget = ScrollTarget(id: nat, heading: HeadingExtractor.OutlineHeading)

  datatype DocumentState = DocumentState(
    mode: Mode,
    printId: Option<nat>,
    openInBrowserId: Option<nat>,
    reloadId: Option<nat>,
    outlineHeadings: seq<HeadingExtractor.OutlineHeading>,
    scrollTarget: Option<ScrollTarget>,
    find: FindBar.FindState)

  /** A new document starts in Up mode with nothing requested. */
  const NewDocument := DocumentState(Up, None, None, None, [], None, FindBar.Initial)

  /** `toggleMode()`: only the mode changes, to the other one. */
  function ToggleMode(d: DocumentState): (r: DocumentState)
    ensures r.mode != d.mode && r.mode == Toggled(d.mode)
    ensures r.(mode := d.mode) == d
  {
    d.(mode := Toggled(d.mode))
  }

  /** Toggling the mode twice restores the whole document state. */
  lemma ToggleModeTwice(d: DocumentState)
    ensures ToggleMode(ToggleMode(d)) == d
  {
    ToggledInvolution(d.mode);
  }
}
