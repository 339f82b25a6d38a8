/**
 * The syntax highlighter (`CodeHighlighter.highlight`) runs highlight.js in
 * a JavaScript engine; it is not part of this model. Both renderers receive
 * it as a function from code and language name to highlighted HTML, and
 * this module adds the one rule the Swift wrapper itself decides: without a
 * language nothing is highlighted.
 */
module CodeHighlighting {
  import opened Wrappers

  /** The engine: highlighted HTML for code in a named language, or nothing (unknown language, failure). */
  type Engine = (string, string) -> Option<string>

  /** `highlight(_:language:)`: no language, no highlighting; otherwise the engine's answer. */
  function Highlight(engine: Engine, code: string, language: Option<string>): (r: Option<string>)
    ensures language.None? ==> r.None?
    ensures language.Some? ==> r == engine(code, language.value)
  {
    if language.None? then None else engine(code, language.value)
  }
}
