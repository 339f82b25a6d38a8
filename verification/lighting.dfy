/**
 * The appearance setting (`Lighting`): follow the system, or force bright or
 * dark. Whether the system is dark is read from the running application in
 * the source; here it is a parameter.
 */
module Lightings {

  datatype Lighting = Auto | Bright | Dark

  /** SwiftUI's colour scheme. */
  datatype ColorScheme = Light | DarkScheme

  /** `isDark()`: the effective darkness under a given system setting. */
  function IsDark(l: Lighting, systemIsDark: bool): (r: bool)
    ensures l == Bright ==> !r
    ensures l == Dark ==> r
    ensures l == Auto ==> r == systemIsDark
  {
    match l
    case Auto => systemIsDark
    case Bright => false
    case Dark => true
  }

  /** `toggled()`: from Auto to the opposite of the system; from a forced setting back to Auto. */
  function Toggled(l: Lighting, systemIsDark: bool): (r: Lighting)
    ensures l == Auto <==> r != Auto
  {
    match l
    case Auto => if systemIsDark then Bright else Dark
    case Bright => Auto
    case Dark => Auto
  }

  /**
   * With the system setting fixed, toggling from Auto flips what the user
   * sees, and toggling again returns to Auto; from a forced setting, toggling
   * hands control back to the system.
   */
  lemma ToggleFlips(l: Lighting, systemIsDark: bool)
    ensures l == Auto ==> IsDark(Toggled(l, systemIsDark), systemIsDark) != IsDark(l, systemIsDark)
    ensures l == Auto ==> Toggled(Toggled(l, systemIsDark), systemIsDark) == Auto
    ensures l != Auto ==> IsDark(Toggled(l, systemIsDark), systemIsDark) == systemIsDark
  {
  }

  /** `colorScheme(environment:)`: Auto follows the environment, the others force a scheme. */
  function Scheme(l: Lighting, environment: ColorScheme): (r: ColorScheme)
    ensures l == Auto ==> r == environment
    ensures l != Auto ==> (r == DarkScheme <==> IsDark(l, false))
  {
    match l
    case Auto => environment
    case Bright => Light
    case Dark => DarkScheme
  }
}
