/**
 * `CommandLineInterface`: the `mud` command. It decides from the arguments
 * whether the binary runs as a command at all, parses them into options,
 * validates the theme and the mode, and renders every file (or standard
 * input) to standard output or to temporary files opened in the browser.
 */
module Cli {
  import opened Wrappers
  import opened Strings
  import MudCore
  import HtmlTemplate
  import ImageDataUri
  import UpVisitor
  import Markup

  // ----- Detection -----

  /** The flags that make the binary run as a command rather than open its window. */
  const CliFlags: set<string> := {
    "--html-up", "-u",
    "--html-down", "-d",
    "--browser", "-b",
    "--fragment", "-f",
    "--help", "-h",
    "--version", "-v"
  }

  /** The flags the system passes to an application (`-NS…`, `-Apple…`), each followed by a value. */
  predicate IsSystemFlag(arg: string) {
    StartsWith(arg, "-NS") || StartsWith(arg, "-Apple")
  }

  /** The arguments from position `i` on; none when a skip went past the end. */
  function From(args: seq<string>, i: nat): (r: seq<string>)
    ensures i <= |args| ==> r == args[i..]
    ensures i >= |args| ==> r == []
  {
    if i <= |args| then args[i..] else []
  }

  /** The arguments the scans look at: each system flag and the value after it are passed over. */
  function Ordinary(args: seq<string>): seq<string>
    decreases |args|
  {
    if args == [] then []
    else if IsSystemFlag(args[0]) then Ordinary(From(args, 2))
    else [args[0]] + Ordinary(args[1..])
  }

  predicate HasCliFlag(xs: seq<string>) {
    exists k :: 0 <= k < |xs| && xs[k] in CliFlags
  }

  lemma HasCliFlagCons(x: string, xs: seq<string>)
    ensures HasCliFlag([x] + xs) <==> x in CliFlags || HasCliFlag(xs)
  {
    if x in CliFlags {
      assert ([x] + xs)[0] == x;
    }
    if HasCliFlag(xs) {
      var k :| 0 <= k < |xs| && xs[k] in CliFlags;
      assert ([x] + xs)[k + 1] == xs[k];
    }
    if HasCliFlag([x] + xs) && x !in CliFlags {
      var k :| 0 <= k < |[x] + xs| && ([x] + xs)[k] in CliFlags;
      assert k != 0;
      assert xs[k - 1] == ([x] + xs)[k];
      assert HasCliFlag(xs);
    }
  }

  /** A system flag at `i` passes over itself and the next argument. */
  lemma OrdinarySkip(args: seq<string>, i: nat)
    requires i < |args| && IsSystemFlag(args[i])
    ensures Ordinary(From(args, i)) == Ordinary(From(args, i + 2))
  {
    assert From(args, i)[0] == args[i];
    assert From(From(args, i), 2) == From(args, i + 2);
  }

  /** Any other argument at `i` is looked at. */
  lemma OrdinaryKeep(args: seq<string>, i: nat)
    requires i < |args| && !IsSystemFlag(args[i])
    ensures Ordinary(From(args, i)) == [args[i]] + Ordinary(From(args, i + 1))
  {
    assert From(args, i)[0] == args[i];
    assert From(args, i)[1..] == From(args, i + 1);
  }

  /** `looksLikeCLI`: whether an argument the scan looks at is one of the command's flags. */
  method LooksLikeCli(args: seq<string>) returns (r: bool)
    ensures r <==> HasCliFlag(Ordinary(args))
  {
    var i := 0;
    while i < |args|
      invariant 0 <= i <= |args| + 1
      invariant HasCliFlag(Ordinary(args)) == HasCliFlag(Ordinary(From(args, i)))
      decreases |args| + 1 - i
    {
      var arg := args[i];
      if IsSystemFlag(arg) {
        OrdinarySkip(args, i);
        i := i + 2;
        continue;
      }
      OrdinaryKeep(args, i);
      HasCliFlagCons(arg, Ordinary(From(args, i + 1)));
      if arg in CliFlags {
        return true;
      }
      i := i + 1;
    }
    return false;
  }

  /** An argument spelled like an option. */
  predicate IsDashed(arg: string) {
    StartsWith(arg, "-")
  }

  /** The arguments among `xs` that are not spelled like options, in order. */
  function Positional(xs: seq<string>): seq<string> {
    if xs == [] then []
    else (if IsDashed(xs[0]) then [] else [xs[0]]) + Positional(xs[1..])
  }

  lemma PositionalCons(x: string, xs: seq<string>)
    ensures Positional([x] + xs) == (if IsDashed(x) then [] else [x]) + Positional(xs)
  {
    assert ([x] + xs)[1..] == xs;
  }

  /** A positional argument is one of the given arguments and not spelled like an option. */
  lemma {:induction false} PositionalFiles(xs: seq<string>)
    ensures forall k :: 0 <= k < |Positional(xs)| ==> !IsDashed(Positional(xs)[k]) && Positional(xs)[k] in xs
    decreases |xs|
  {
    if xs != [] {
      PositionalFiles(xs[1..]);
    }
  }

  /** `fileArguments`: the file paths among the arguments, for opening in the window. */
  method FileArguments(args: seq<string>) returns (files: seq<string>)
    ensures files == Positional(Ordinary(args))
  {
    files := [];
    var i := 0;
    while i < |args|
      invariant 0 <= i <= |args| + 1
      invariant Positional(Ordinary(args)) == files + Positional(Ordinary(From(args, i)))
      decreases |args| + 1 - i
    {
      var arg := args[i];
      if IsSystemFlag(arg) {
        OrdinarySkip(args, i);
        i := i + 2;
        continue;
      }
      OrdinaryKeep(args, i);
      PositionalCons(arg, Ordinary(From(args, i + 1)));
      if !IsDashed(arg) {
        files := files + [arg];
      }
      i := i + 1;
    }
  }

  /** Every argument the scan looks at is one of the arguments. */
  lemma {:induction false} OrdinaryFromArgs(args: seq<string>)
    ensures forall k :: 0 <= k < |Ordinary(args)| ==> Ordinary(args)[k] in args
    decreases |args|
  {
    if args != [] {
      if IsSystemFlag(args[0]) {
        OrdinaryFromArgs(From(args, 2));
      } else {
        OrdinaryFromArgs(args[1..]);
      }
    }
  }

  /** Without system flags the scan looks at every argument. */
  lemma {:induction false} OrdinaryWithoutSystemFlags(args: seq<string>)
    requires forall k :: 0 <= k < |args| ==> !IsSystemFlag(args[k])
    ensures Ordinary(args) == args
    decreases |args|
  {
    if args != [] {
      OrdinaryWithoutSystemFlags(args[1..]);
    }
  }

  /** The styling options and `--theme` alone leave the binary a window app. */
  lemma StylingAloneIsNoCommand(args: seq<string>)
    requires forall k :: 0 <= k < |args| ==> args[k] in StylingFlags
    ensures !HasCliFlag(Ordinary(args))
  {
    OrdinaryFromArgs(args);
    var xs := Ordinary(args);
    forall k | 0 <= k < |xs|
      ensures xs[k] !in CliFlags
    {
      var j :| 0 <= j < |args| && args[j] == xs[k];
      StylingNotCli(args[j]);
    }
  }

  const StylingFlags: set<string> := {"--line-numbers", "--word-wrap", "--readable-column", "--theme"}

  lemma StylingNotCli(x: string)
    requires x in StylingFlags
    ensures x !in CliFlags
  {
  }

  /** Without system flags, any of the command's flags among the arguments makes the binary a command. */
  lemma DetectionWithoutSystemFlags(args: seq<string>)
    requires forall k :: 0 <= k < |args| ==> !IsSystemFlag(args[k])
    ensures HasCliFlag(Ordinary(args)) <==> exists k :: 0 <= k < |args| && args[k] in CliFlags
  {
    OrdinaryWithoutSystemFlags(args);
  }

  /** The value after a system flag is passed over even when it looks like a flag or a file. */
  lemma SystemFlagValueSkipped()
    ensures Ordinary(["-NSDocumentRevisionsDebugMode", "-u", "notes.md"]) == ["notes.md"]
  {
    var args := ["-NSDocumentRevisionsDebugMode", "-u", "notes.md"];
    assert args[0][..3] == "-NS";
    assert From(args, 2) == ["notes.md"];
    assert !StartsWith("notes.md", "-NS") && !StartsWith("notes.md", "-Apple");
    assert Ordinary(["notes.md"]) == ["notes.md"] + Ordinary([]);
  }

  // ----- Parsing the arguments -----

  datatype Mode = Up | Down

  /** What the arguments ask for. */
  datatype Options = Options(
    files: seq<string>,
    mode: Option<Mode>,
    theme: string,
    classes: seq<string>,
    browser: bool,
    fragment: bool)

  const Defaults := Options([], None, "earthy", [], false, false)

  /** Why parsing stopped early. */
  datatype Stop = Help | ShowVersion | MissingThemeValue | UnknownOption(arg: string)

  datatype Parse = Stopped(why: Stop) | Parsed(opts: Options)

  const ThemePrefix := "--theme="

  /** The options that stand alone: their effect on the options so far. */
  function Switch(arg: string, o: Options): Option<Options> {
    if arg == "--html-up" || arg == "-u" then Some(o.(mode := Some(Up)))
    else if arg == "--html-down" || arg == "-d" then Some(o.(mode := Some(Down)))
    else if arg == "--browser" || arg == "-b" then Some(o.(browser := true))
    else if arg == "--fragment" || arg == "-f" then Some(o.(fragment := true))
    else if arg == "--line-numbers" then Some(o.(classes := o.classes + ["has-line-numbers"]))
    else if arg == "--word-wrap" then Some(o.(classes := o.classes + ["has-word-wrap"]))
    else if arg == "--readable-column" then Some(o.(classes := o.classes + ["is-readable-column"]))
    else None
  }

  /** An argument that stops parsing with an error: spelled like an option, and none the parser knows. */
  predicate IsUnknownOption(arg: string) {
    && arg !in {"--help", "-h", "--version", "-v", "--theme"}
    && Switch(arg, Defaults).None?
    && !StartsWith(arg, ThemePrefix)
    && !IsSystemFlag(arg)
    && IsDashed(arg)
  }

  /** The parse of the remaining arguments `args`, from the options `o` gathered so far. */
  function ParseFrom(args: seq<string>, o: Options): Parse
    decreases |args|
  {
    if args == [] then Parsed(o)
    else
      var arg := args[0];
      if arg == "--help" || arg == "-h" then Stopped(Help)
      else if arg == "--version" || arg == "-v" then Stopped(ShowVersion)
      else if Switch(arg, o).Some? then ParseFrom(args[1..], Switch(arg, o).value)
      else if arg == "--theme" then
        if |args| < 2 then Stopped(MissingThemeValue) else ParseFrom(args[2..], o.(theme := args[1]))
      else if StartsWith(arg, ThemePrefix) then ParseFrom(args[1..], o.(theme := arg[|ThemePrefix|..]))
      else if IsSystemFlag(arg) then ParseFrom(From(args, 2), o)
      else if IsDashed(arg) then Stopped(UnknownOption(arg))
      else ParseFrom(args[1..], o.(files := o.files + [arg]))
  }

  function ParseArgs(args: seq<string>): Parse {
    ParseFrom(args, Defaults)
  }

  /** The arguments from `i` on, one and two positions later. */
  lemma FromStep(args: seq<string>, i: nat)
    requires i < |args|
    ensures From(args, i) != [] && From(args, i)[0] == args[i]
    ensures From(args, i)[1..] == From(args, i + 1)
    ensures From(From(args, i), 2) == From(args, i + 2)
    ensures i + 1 < |args| ==> From(args, i)[1] == args[i + 1] && From(args, i)[2..] == From(args, i + 2)
  {
  }

  /** The argument loop of `run`: one pass over the arguments, stopping at the first that ends the run. */
  method ParseArguments(args: seq<string>) returns (r: Parse)
    ensures r == ParseArgs(args)
  {
    var o := Defaults;
    var i := 0;
    while i < |args|
      invariant 0 <= i <= |args| + 1
      invariant ParseFrom(From(args, i), o) == ParseArgs(args)
      decreases |args| + 1 - i
    {
      var arg := args[i];
      FromStep(args, i);
      if arg == "--help" || arg == "-h" {
        return Stopped(Help);
      } else if arg == "--version" || arg == "-v" {
        return Stopped(ShowVersion);
      } else if Switch(arg, o).Some? {
        o := Switch(arg, o).value;
      } else if arg == "--theme" {
        i := i + 1;
        if i >= |args| {
          return Stopped(MissingThemeValue);
        }
        o := o.(theme := args[i]);
      } else if StartsWith(arg, ThemePrefix) {
        o := o.(theme := arg[|ThemePrefix|..]);
      } else if IsSystemFlag(arg) {
        i := i + 1;
      } else if IsDashed(arg) {
        return Stopped(UnknownOption(arg));
      } else {
        o := o.(files := o.files + [arg]);
      }
      i := i + 1;
    }
    return Parsed(o);
  }

  /** No option at the end of `a` is left waiting for its value. */
  predicate Closed(a: seq<string>)
    decreases |a|
  {
    if a == [] then true
    else if a[0] == "--theme" || IsSystemFlag(a[0]) then |a| >= 2 && Closed(a[2..])
    else Closed(a[1..])
  }

  /** Parsing more arguments after `p`: a stop stays a stop. */
  function Continue(p: Parse, b: seq<string>): Parse {
    match p
    case Stopped(_) => p
    case Parsed(o) => ParseFrom(b, o)
  }

  /**
   * Parsing is a left-to-right scan: the arguments after a complete prefix
   * are parsed from the options the prefix gathered, and are never looked
   * at once the prefix has stopped.
   */
  lemma {:induction false} ParseAppend(a: seq<string>, b: seq<string>, o: Options)
    requires Closed(a)
    ensures ParseFrom(a + b, o) == Continue(ParseFrom(a, o), b)
    decreases |a|
  {
    if a == [] {
      assert a + b == b;
    } else {
      var arg := a[0];
      assert (a + b)[0] == arg;
      assert (a + b)[1..] == a[1..] + b;
      if arg == "--help" || arg == "-h" || arg == "--version" || arg == "-v" {
      } else if Switch(arg, o).Some? {
        SwitchTakesNoValue(arg, o);
        ParseAppend(a[1..], b, Switch(arg, o).value);
      } else if arg == "--theme" {
        assert (a + b)[1] == a[1];
        assert (a + b)[2..] == a[2..] + b;
        ParseAppend(a[2..], b, o.(theme := a[1]));
      } else if StartsWith(arg, ThemePrefix) {
        ThemeOptionTakesNoValue(arg);
        ParseAppend(a[1..], b, o.(theme := arg[|ThemePrefix|..]));
      } else if IsSystemFlag(arg) {
        assert From(a + b, 2) == a[2..] + b;
        ParseAppend(a[2..], b, o);
      } else if IsDashed(arg) {
      } else {
        ParseAppend(a[1..], b, o.(files := o.files + [arg]));
      }
    }
  }

  lemma SwitchTakesNoValue(arg: string, o: Options)
    requires Switch(arg, o).Some?
    ensures arg != "--theme" && !IsSystemFlag(arg)
  {
    assert |arg| < 3 || arg[1] == '-';
    if |arg| >= 3 {
      assert arg[..3][1] == arg[1] == arg[..6][1];
    }
  }

  lemma ThemeOptionTakesNoValue(arg: string)
    requires StartsWith(arg, ThemePrefix)
    ensures arg != "--theme" && !IsSystemFlag(arg)
  {
    assert arg[1] == ThemePrefix[1] == '-';
    assert arg[..3][1] == arg[1] == arg[..6][1];
  }

  /**
   * Parsing stops at the first help, version or unknown option, and at a
   * trailing `--theme` with no value, whatever follows: the arguments before
   * it only have to parse without stopping.
   */
  lemma StopsAtFirst(a: seq<string>, x: string, rest: seq<string>)
    requires Closed(a) && ParseArgs(a).Parsed?
    ensures x == "--help" || x == "-h" ==> ParseArgs(a + [x] + rest) == Stopped(Help)
    ensures x == "--version" || x == "-v" ==> ParseArgs(a + [x] + rest) == Stopped(ShowVersion)
    ensures IsUnknownOption(x) ==> ParseArgs(a + [x] + rest) == Stopped(UnknownOption(x))
    ensures ParseArgs(a + ["--theme"]) == Stopped(MissingThemeValue)
  {
    assert a + [x] + rest == a + ([x] + rest);
    ParseAppend(a, [x] + rest, Defaults);
    ParseAppend(a, ["--theme"], Defaults);
    var o := ParseArgs(a).opts;
    assert ([x] + rest)[0] == x;
    if IsUnknownOption(x) {
      SwitchIgnoresOptions(x, o);
    }
  }

  /** Whether an argument is a stand-alone option does not depend on the options so far. */
  lemma SwitchIgnoresOptions(arg: string, o: Options)
    ensures Switch(arg, o).Some? == Switch(arg, Defaults).Some?
  {
  }

  /** Both spellings of the theme option set the theme and nothing else. */
  lemma ThemeOptions(a: seq<string>, x: string)
    requires Closed(a) && ParseArgs(a).Parsed?
    ensures ParseArgs(a + [ThemePrefix + x]) == Parsed(ParseArgs(a).opts.(theme := x))
    ensures ParseArgs(a + ["--theme", x]) == Parsed(ParseArgs(a).opts.(theme := x))
  {
    var o := ParseArgs(a).opts;
    ParseAppend(a, [ThemePrefix + x], Defaults);
    ParseAppend(a, ["--theme", x], Defaults);
    JoinedThemeOption(x, o);
    SeparateThemeOption(x, o);
  }

  lemma JoinedThemeOption(x: string, o: Options)
    ensures ParseFrom([ThemePrefix + x], o) == Parsed(o.(theme := x))
  {
    var arg := ThemePrefix + x;
    StartsWithAppend(ThemePrefix, x);
    ThemeOptionTakesNoValue(arg);
    ThemeOptionIsNoSwitch(arg, o);
    assert arg[|ThemePrefix|..] == x;
    var single: seq<string> := [arg];
    assert single[1..] == [];
  }

  lemma SeparateThemeOption(x: string, o: Options)
    ensures ParseFrom(["--theme", x], o) == Parsed(o.(theme := x))
  {
    var pair: seq<string> := ["--theme", x];
    assert pair[1] == x && pair[2..] == [];
  }

  lemma ThemeOptionIsNoSwitch(arg: string, o: Options)
    requires StartsWith(arg, ThemePrefix)
    ensures Switch(arg, o).None? && arg !in {"--help", "-h", "--version", "-v"}
  {
    assert arg[2] == ThemePrefix[2] == 't';
  }

  const ModeFlags: set<string> := {"--html-up", "-u", "--html-down", "-d"}

  /** Arguments without a mode option leave the mode as it was. */
  lemma {:induction false} ModeKept(b: seq<string>, o: Options)
    requires forall k :: 0 <= k < |b| ==> b[k] !in ModeFlags
    ensures ParseFrom(b, o).Parsed? ==> ParseFrom(b, o).opts.mode == o.mode
    decreases |b|
  {
    if b != [] {
      var arg := b[0];
      if Switch(arg, o).Some? {
        ModeKept(b[1..], Switch(arg, o).value);
      } else if arg == "--theme" {
        if |b| >= 2 {
          ModeKept(b[2..], o.(theme := b[1]));
        }
      } else if StartsWith(arg, ThemePrefix) {
        ModeKept(b[1..], o.(theme := arg[|ThemePrefix|..]));
      } else if IsSystemFlag(arg) {
        ModeKept(From(b, 2), o);
      } else {
        ModeKept(b[1..], o.(files := o.files + [arg]));
      }
    }
  }

  /** The last of `-u` and `-d` (or their long forms) decides the mode. */
  lemma LastModeWins(a: seq<string>, m: string, b: seq<string>)
    requires Closed(a) && ParseArgs(a).Parsed? && m in ModeFlags
    requires forall k :: 0 <= k < |b| ==> b[k] !in ModeFlags
    ensures ParseArgs(a + [m] + b).Parsed? ==>
      ParseArgs(a + [m] + b).opts.mode == Some(if m == "--html-up" || m == "-u" then Up else Down)
  {
    assert a + [m] + b == a + ([m] + b);
    ParseAppend(a, [m] + b, Defaults);
    var o := ParseArgs(a).opts;
    assert ([m] + b)[0] == m && ([m] + b)[1..] == b;
    ModeKept(b, Switch(m, o).value);
  }

  // ----- Validation -----

  const ValidThemes: seq<string> := ["austere", "blues", "earthy", "riot"]

  /** Why the command ends before rendering anything. */
  datatype Reason = Ended(stop: Stop) | UnknownTheme(theme: string) | NoMode

  /** What the command does once the arguments are parsed: exit at once, or render with a mode. */
  datatype Decision = Exit(code: int, reason: Reason) | Render(opts: Options, mode: Mode)

  function ExitCode(stop: Stop): int {
    if stop == Help || stop == ShowVersion then 0 else 1
  }

  /**
   * The checks after the argument loop: an unknown theme first, then a
   * missing mode; help and version end the run successfully, every other
   * early end fails.
   */
  function Decide(p: Parse): (d: Decision)
    ensures d.Exit? ==> d.code == (if d.reason == Ended(Help) || d.reason == Ended(ShowVersion) then 0 else 1)
    ensures d.Render? <==> p.Parsed? && p.opts.theme in ValidThemes && p.opts.mode.Some?
    ensures d.Render? ==> d.opts == p.opts && p.opts.mode == Some(d.mode)
    ensures p.Parsed? && p.opts.theme !in ValidThemes ==> d == Exit(1, UnknownTheme(p.opts.theme))
    ensures p.Stopped? ==> d == Exit(ExitCode(p.why), Ended(p.why))
  {
    match p
    case Stopped(why) => Exit(ExitCode(why), Ended(why))
    case Parsed(o) =>
      if o.theme !in ValidThemes then Exit(1, UnknownTheme(o.theme))
      else if o.mode.None? then Exit(1, NoMode)
      else Render(o, o.mode.value)
  }

  /** No arguments: no mode; help ends the run before anything after it is looked at. */
  lemma DecisionExamples()
    ensures Decide(ParseArgs([])) == Exit(1, NoMode)
    ensures Decide(ParseArgs(["-h", "--bogus"])) == Exit(0, Ended(Help))
  {
  }

  /** An unknown theme fails even before the missing mode is noticed. */
  lemma UnknownThemeExample()
    ensures Decide(ParseArgs(["--theme", "neon"])) == Exit(1, UnknownTheme("neon"))
  {
    SeparateThemeOption("neon", Defaults);
    assert "neon" !in ValidThemes;
  }

  /** A mode and a file: render the file in that mode with the default theme. */
  lemma RenderExample()
    ensures Decide(ParseArgs(["-u", "notes.md"])) == Render(Defaults.(files := ["notes.md"], mode := Some(Up)), Up)
  {
    var uArgs: seq<string> := ["-u", "notes.md"];
    assert uArgs[1..] == ["notes.md"];
    var file: seq<string> := ["notes.md"];
    assert file[1..] == [];
    var o1 := Defaults.(mode := Some(Up));
    assert Switch("-u", Defaults) == Some(o1);
    SwitchStep(uArgs, Defaults);
    assert file[0][0] == 'n';
    FileStep(file, o1);
    assert o1.files + [file[0]] == file;
  }

  /** A stand-alone option is applied and parsing goes on with the next argument. */
  lemma SwitchStep(args: seq<string>, o: Options)
    requires args != [] && Switch(args[0], o).Some?
    ensures ParseFrom(args, o) == ParseFrom(args[1..], Switch(args[0], o).value)
  {
    var arg := args[0];
    assert arg != "--help" && arg != "-h" && arg != "--version" && arg != "-v";
  }

  /** An argument not spelled like an option is a file; parsing goes on with the next argument. */
  lemma FileStep(args: seq<string>, o: Options)
    requires args != [] && args[0] != [] && args[0][0] != '-'
    ensures ParseFrom(args, o) == ParseFrom(args[1..], o.(files := o.files + [args[0]]))
  {
    var arg := args[0];
    assert arg != "--help" && arg != "-h" && arg != "--version" && arg != "-v" && arg != "--theme";
    assert Switch(arg, o).None?;
    assert !StartsWith(arg, ThemePrefix) && !IsDashed(arg) by {
      assert arg[..1] != "-";
    }
    assert !IsSystemFlag(arg) by {
      if |arg| >= 3 {
        assert arg[..3][0] == arg[0];
      }
      if |arg| >= 6 {
        assert arg[..6][0] == arg[0];
      }
    }
  }

  // ----- Rendering one input -----

  /** Every occurrence of `pat`, left to right and without overlap, replaced by `rep` (`replacingOccurrences`). */
  function ReplaceAll(s: string, pat: string, rep: string): string
    requires pat != []
    decreases |s|
  {
    if |s| < |pat| then s
    else if s[..|pat|] == pat then rep + ReplaceAll(s[|pat|..], pat, rep)
    else [s[0]] + ReplaceAll(s[1..], pat, rep)
  }

  /** With no occurrence, nothing is replaced. */
  lemma {:induction false} ReplaceAbsent(s: string, pat: string, rep: string)
    requires pat != [] && !Contains(s, pat)
    ensures ReplaceAll(s, pat, rep) == s
    decreases |s|
  {
    if |s| >= |pat| {
      assert !OccursAt(s, pat, 0);
      if Contains(s[1..], pat) {
        var i :| 0 <= i <= |s[1..]| - |pat| && OccursAt(s[1..], pat, i);
        assert s[1..][i..i + |pat|] == s[i + 1..i + 1 + |pat|];
        assert OccursAt(s, pat, i + 1);
      }
      ReplaceAbsent(s[1..], pat, rep);
      assert s == [s[0]] + s[1..];
    }
  }

  /** A prefix in which no occurrence starts is copied as it is. */
  lemma {:induction false} ReplaceSkip(x: string, s: string, pat: string, rep: string)
    requires pat != []
    requires forall j :: 0 <= j < |x| ==> !OccursAt(x + s, pat, j)
    ensures ReplaceAll(x + s, pat, rep) == x + ReplaceAll(s, pat, rep)
    decreases |x|
  {
    if x != [] {
      var t := x + s;
      assert !OccursAt(t, pat, 0);
      assert t[1..] == x[1..] + s;
      forall j | 0 <= j < |x[1..]|
        ensures !OccursAt(x[1..] + s, pat, j)
      {
        assert !OccursAt(t, pat, j + 1);
        if OccursAt(x[1..] + s, pat, j) {
          OccursShift(t, pat, j);
        }
      }
      ReplaceSkip(x[1..], s, pat, rep);
      if |t| < |pat| {
        assert ReplaceAll(s, pat, rep) == s;
      } else {
        assert t[..|pat|] != pat;
        assert ReplaceAll(t, pat, rep) == [t[0]] + ReplaceAll(t[1..], pat, rep);
        assert t[0] == x[0] && x == [x[0]] + x[1..];
        assert [x[0]] + (x[1..] + ReplaceAll(s, pat, rep)) == x + ReplaceAll(s, pat, rep);
      }
    } else {
      assert x + s == s;
    }
  }

  /** An occurrence in the tail is one in the whole string, a position later. */
  lemma OccursShift(t: string, pat: string, j: nat)
    requires t != [] && OccursAt(t[1..], pat, j)
    ensures OccursAt(t, pat, j + 1)
  {
    assert t[1..][j..j + |pat|] == t[j + 1..j + 1 + |pat|];
  }

  /** An occurrence at the front is replaced, and the rest carries on from after it. */
  lemma ReplaceFront(pat: string, rep: string, s: string)
    requires pat != []
    ensures ReplaceAll(pat + s, pat, rep) == rep + ReplaceAll(s, pat, rep)
  {
    assert (pat + s)[..|pat|] == pat;
    assert (pat + s)[|pat|..] == s;
  }

  /** The image resolver used for browser output: local images become data URIs. */
  function DataUriResolver(fs: ImageDataUri.Files): MudCore.Resolver {
    (source: string, base: string) => ImageDataUri.Encode(source, base, fs)
  }

  /**
   * The four library entry points the command calls: the Up body, the Up
   * document (with its base-tag flag and image resolver), the Down table and
   * the Down document.
   */
  datatype Api = Api(
    upBody: (string, Option<string>, Option<MudCore.Resolver>) -> string,
    upDocument: UpDocumentFn,
    downBody: string -> string,
    downDocument: (string, string, string) -> string)

  /** `MudCore.renderToHTML` over the given services. */
  function UpBodyOf(sv: MudCore.Services): (string, Option<string>, Option<MudCore.Resolver>) -> string
    requires MudCore.Sound(sv)
  {
    (md: string, base: Option<string>, resolve: Option<MudCore.Resolver>) => MudCore.RenderToHtml(sv, md, base, resolve)
  }

  /** `MudCore.renderUpModeDocument` over the given services. */
  function UpDocumentOf(sv: MudCore.Services): UpDocumentFn
    requires MudCore.Sound(sv)
  {
    (md: string, title: string, base: Option<string>, theme: string, includeBase: bool, resolve: Option<MudCore.Resolver>) =>
      MudCore.RenderUpModeDocument(sv, md, title, base, theme, includeBase, resolve)
  }

  /** `MudCore.renderDownToHTML` over the given services. */
  function DownBodyOf(sv: MudCore.Services): string -> string {
    (text: string) => MudCore.RenderDownToHtml(sv, text)
  }

  /** `MudCore.renderDownModeDocument` over the given services. */
  function DownDocumentOf(sv: MudCore.Services): (string, string, string) -> string {
    (text: string, title: string, theme: string) => MudCore.RenderDownModeDocument(sv, text, title, theme)
  }

  /**
   * What the command relies on from the library's Up documents: they open
   * with the doctype and the root element, and one asked for without its
   * base tag goes from the head's policy straight to the title.
   */
  ghost predicate UpConforms(upDocument: UpDocumentFn) {
    UpOpens(upDocument) && UpWithoutBase(upDocument)
  }

  type UpDocumentFn = (string, string, Option<string>, string, bool, Option<MudCore.Resolver>) -> string

  ghost predicate UpOpens(upDocument: UpDocumentFn) {
    forall md, title, base, theme, inc, resolve ::
      StartsWith(upDocument(md, title, base, theme, inc, resolve), HtmlTemplate.DocOpen)
  }

  ghost predicate UpWithoutBase(upDocument: UpDocumentFn) {
    forall md, title, base, theme, resolve ::
      StartsWith(upDocument(md, title, base, theme, false, resolve),
                 HtmlTemplate.UpHead + "\n    " + HtmlTemplate.TitleElement(title))
  }

  /** Down documents open with the doctype and the root element. */
  ghost predicate DownConforms(downDocument: (string, string, string) -> string) {
    forall text, title, theme :: StartsWith(downDocument(text, title, theme), HtmlTemplate.DocOpen)
  }

  ghost predicate Conforms(api: Api) {
    UpConforms(api.upDocument) && DownConforms(api.downDocument)
  }

  /** The library's Up documents open with the doctype and the root element. */
  lemma LibraryUpOpens(sv: MudCore.Services)
    requires MudCore.Sound(sv)
    ensures UpOpens(UpDocumentOf(sv))
  {
    var f := UpDocumentOf(sv);
    forall md, title, base, theme, inc, resolve
      ensures StartsWith(f(md, title, base, theme, inc, resolve), HtmlTemplate.DocOpen)
    {
      HtmlTemplate.WrapUpStart(sv.resources, MudCore.RenderToHtml(sv, md, base, resolve), title,
                               if inc then base else None, theme);
    }
  }

  /** The library's Up documents asked for without the base tag have none. */
  lemma LibraryUpWithoutBase(sv: MudCore.Services)
    requires MudCore.Sound(sv)
    ensures UpWithoutBase(UpDocumentOf(sv))
  {
    var f := UpDocumentOf(sv);
    forall md, title, base, theme, resolve
      ensures StartsWith(f(md, title, base, theme, false, resolve),
                         HtmlTemplate.UpHead + "\n    " + HtmlTemplate.TitleElement(title))
    {
      HtmlTemplate.WrapUpWithoutBase(sv.resources, MudCore.RenderToHtml(sv, md, base, resolve), title, theme);
    }
  }

  /** The library's Down documents have the shape the command relies on. */
  lemma LibraryDownConforms(sv: MudCore.Services)
    ensures DownConforms(DownDocumentOf(sv))
  {
    var f := DownDocumentOf(sv);
    forall text, title, theme
      ensures StartsWith(f(text, title, theme), HtmlTemplate.DocOpen)
    {
      HtmlTemplate.WrapDownStart(sv.resources, MudCore.RenderDownToHtml(sv, text), title, theme);
    }
  }

  const MetaCharset := "<meta charset=\"utf-8\">\n"

  /**
   * The body alone: the Up body with no base URL or resolver, or the Down
   * table; for the browser, after a character-set declaration.
   */
  function Fragment(api: Api, markdown: string, mode: Mode, browser: bool): string {
    var body := if mode == Up then api.upBody(markdown, None, None) else api.downBody(markdown);
    if browser then MetaCharset + body else body
  }

  /**
   * The full document. For the browser, Up leaves out the base tag and
   * inlines local images as data URIs; otherwise the base tag points at the
   * file.
   */
  function Document(api: Api, fs: ImageDataUri.Files, markdown: string, title: string,
                    baseUrl: Option<string>, mode: Mode, theme: string, browser: bool): string
  {
    match mode
    case Up =>
      if browser then api.upDocument(markdown, title, baseUrl, theme, false, Some(DataUriResolver(fs)))
      else api.upDocument(markdown, title, baseUrl, theme, true, None)
    case Down => api.downDocument(markdown, title, theme)
  }

  /** The class attribute the styling options put on the root element. */
  function ClassAttribute(classes: seq<string>): string {
    "class=\"" + Join(classes, " ") + "\""
  }

  const HtmlTag := "<html>"

  function OpenTag(classes: seq<string>): string {
    "<html " + ClassAttribute(classes) + ">"
  }

  /** Every `<html>` tag gets the class attribute, when there are classes at all. */
  function AddClasses(html: string, classes: seq<string>): string {
    if classes == [] then html else ReplaceAll(html, HtmlTag, OpenTag(classes))
  }

  /** `render`: one input, as a fragment or as a document with the styling classes. */
  function RenderInput(api: Api, fs: ImageDataUri.Files, markdown: string, title: string,
                       baseUrl: Option<string>, mode: Mode, o: Options): string
  {
    if o.fragment then Fragment(api, markdown, mode, o.browser)
    else AddClasses(Document(api, fs, markdown, title, baseUrl, mode, o.theme, o.browser), o.classes)
  }

  // ----- What rendering promises -----

  /**
   * A fragment depends only on the text, the mode and the browser flag:
   * theme, classes, title, base URL and image files are all ignored.
   */
  lemma FragmentIgnoresStyling(api: Api, fs: ImageDataUri.Files, fs2: ImageDataUri.Files, markdown: string,
                               title: string, title2: string, baseUrl: Option<string>, baseUrl2: Option<string>,
                               mode: Mode, o: Options, o2: Options)
    requires o.fragment && o2.fragment && o.browser == o2.browser
    ensures RenderInput(api, fs, markdown, title, baseUrl, mode, o) == RenderInput(api, fs2, markdown, title2, baseUrl2, mode, o2)
  {
  }

  /** A fragment for the browser is the plain fragment after the character-set declaration. */
  lemma FragmentForBrowser(api: Api, markdown: string, mode: Mode)
    ensures Fragment(api, markdown, mode, true) == MetaCharset + Fragment(api, markdown, mode, false)
    ensures StartsWith(Fragment(api, markdown, mode, true), MetaCharset)
  {
    StartsWithAppend(MetaCharset, Fragment(api, markdown, mode, false));
  }

  /** Every document opens with the doctype and the root element. */
  lemma DocumentStart(api: Api, fs: ImageDataUri.Files, markdown: string, title: string,
                      baseUrl: Option<string>, mode: Mode, theme: string, browser: bool)
    requires Conforms(api)
    ensures StartsWith(Document(api, fs, markdown, title, baseUrl, mode, theme, browser), HtmlTemplate.DocOpen)
  {
  }

  const DocType := "<!DOCTYPE html>\n"

  lemma DocOpenParts()
    ensures HtmlTemplate.DocOpen == DocType + (HtmlTag + "\n<head>\n")
  {
  }

  /** No `<html>` tag starts inside the doctype line. */
  lemma NoTagInDocType(s: string)
    ensures forall j :: 0 <= j < |DocType| ==> !OccursAt(DocType + s, HtmlTag, j)
  {
    var t := DocType + s;
    assert t[1] == '!';
    forall j | 0 <= j < |DocType|
      ensures !OccursAt(t, HtmlTag, j)
    {
      assert t[j] == DocType[j];
      if j + |HtmlTag| <= |t| {
        assert t[j..j + |HtmlTag|][0] == t[j];
        assert t[j..j + |HtmlTag|][1] == t[j + 1];
      }
    }
  }

  /** A document with classes opens its root element with the class attribute. */
  lemma RootClasses(d: string, classes: seq<string>)
    requires StartsWith(d, HtmlTemplate.DocOpen) && classes != []
    ensures StartsWith(AddClasses(d, classes), DocType + OpenTag(classes))
  {
    DocOpenParts();
    StartsWithSplit(d, HtmlTemplate.DocOpen);
    var rest := d[|HtmlTemplate.DocOpen|..];
    var tail := "\n<head>\n" + rest;
    assert d == DocType + (HtmlTag + tail);
    NoTagInDocType(HtmlTag + tail);
    ReplaceSkip(DocType, HtmlTag + tail, HtmlTag, OpenTag(classes));
    ReplaceFront(HtmlTag, OpenTag(classes), tail);
    var replaced := ReplaceAll(tail, HtmlTag, OpenTag(classes));
    assert AddClasses(d, classes) == DocType + (OpenTag(classes) + replaced);
    StartsWithAppend(DocType + OpenTag(classes), replaced);
  }

  /** The styling options reach the document: its root element carries them as classes. */
  lemma StyledDocument(api: Api, fs: ImageDataUri.Files, markdown: string, title: string,
                       baseUrl: Option<string>, mode: Mode, o: Options)
    requires Conforms(api)
    requires !o.fragment && o.classes != []
    ensures StartsWith(RenderInput(api, fs, markdown, title, baseUrl, mode, o), DocType + OpenTag(o.classes))
  {
    DocumentStart(api, fs, markdown, title, baseUrl, mode, o.theme, o.browser);
    RootClasses(Document(api, fs, markdown, title, baseUrl, mode, o.theme, o.browser), o.classes);
  }

  /** Without classes, the document is left as the library made it. */
  lemma UnstyledDocument(api: Api, fs: ImageDataUri.Files, markdown: string, title: string,
                         baseUrl: Option<string>, mode: Mode, o: Options)
    requires !o.fragment && o.classes == []
    ensures RenderInput(api, fs, markdown, title, baseUrl, mode, o) == Document(api, fs, markdown, title, baseUrl, mode, o.theme, o.browser)
  {
  }

  /** A browser Up document carries no base element: its head goes from the policy straight to the title. */
  lemma BrowserDocumentHasNoBase(api: Api, fs: ImageDataUri.Files, markdown: string, title: string,
                                 baseUrl: Option<string>, theme: string)
    requires Conforms(api)
    ensures StartsWith(Document(api, fs, markdown, title, baseUrl, Up, theme, true),
                       HtmlTemplate.UpHead + "\n    " + HtmlTemplate.TitleElement(title))
  {
  }

  /**
   * For the browser, an image that names a readable local image is inlined as
   * a data URI; any other source, external ones included, is kept as written.
   */
  lemma BrowserImageSources(sv: MudCore.Services, fs: ImageDataUri.Files, base: string, source: string)
    ensures var src := UpVisitor.ImageSrc(MudCore.UpEnv(sv, Some(base), Some(DataUriResolver(fs))), Some(source));
      && (ImageDataUri.Encode(source, base, fs).Some? ==> StartsWith(src, "data:image/"))
      && (ImageDataUri.Encode(source, base, fs).None? ==> src == source)
      && (ImageDataUri.IsExternal(source) ==> src == source)
  {
  }

  // ----- Running the command -----

  /** What the command leaves behind: a page on standard output, or pages opened in the browser. */
  datatype Output = Printed(html: string) | Opened(urls: seq<string>)

  /** The platform around the command. */
  datatype Machine = Machine(
    /** Standard input as text, if it decodes as UTF-8. */
    stdin: Option<string>,
    /** A file's text, if it exists and decodes as UTF-8. */
    read: string -> Option<string>,
    /** The file URL of a path. */
    fileUrl: string -> string,
    /** The last component of a path: the document title. */
    lastComponent: string -> string,
    /** The last component without its extension: the temporary file's name. */
    baseName: string -> string,
    /** Writes a page to a temporary file under a name; its URL, if the write succeeds. */
    writeTemp: (string, string) -> Option<string>,
    /** What the data-URI encoder needs from the file system. */
    images: ImageDataUri.Files)

  /** Renders one input from its text, title and base URL. */
  type RenderFn = (string, string, Option<string>) -> string

  /** The renderer the options select. */
  function Renderer(api: Api, fs: ImageDataUri.Files, mode: Mode, o: Options): RenderFn {
    (text: string, title: string, baseUrl: Option<string>) => RenderInput(api, fs, text, title, baseUrl, mode, o)
  }

  /**
   * One file: its page (for standard output) or the URL of its temporary
   * copy (for the browser); nothing when it cannot be read or written.
   */
  function Produce(m: Machine, browser: bool, render: RenderFn, path: string): Option<string> {
    match m.read(path)
    case None => None
    case Some(text) =>
      var html := render(text, m.lastComponent(path), Some(m.fileUrl(path)));
      if browser then m.writeTemp(html, m.baseName(path)) else Some(html)
  }

  /** Every file produced something. */
  predicate AllProduced(m: Machine, browser: bool, render: RenderFn, files: seq<string>) {
    forall j :: 0 <= j < |files| ==> Produce(m, browser, render, files[j]).Some?
  }

  /** `files[k]` is the first file that produced nothing. */
  predicate FirstFailure(m: Machine, browser: bool, render: RenderFn, files: seq<string>, k: int) {
    && 0 <= k < |files|
    && Produce(m, browser, render, files[k]).None?
    && AllProduced(m, browser, render, files[..k])
  }

  /** The page of every file in `files`, printed in order. */
  predicate PrintsOf(outs: seq<Output>, m: Machine, render: RenderFn, files: seq<string>) {
    && |outs| == |files|
    && forall j :: 0 <= j < |files| ==> outs[j].Printed? && Produce(m, false, render, files[j]) == Some(outs[j].html)
  }

  /**
   * What rendering the files leaves behind. The first file that cannot be
   * read or written ends the run with code 2, after the pages printed before
   * it; for the browser nothing is opened then. When every file succeeds the
   * code is 0, and either every page has been printed in order or the
   * browser opens all temporary files together.
   */
  ghost predicate FilesOutcome(m: Machine, browser: bool, render: RenderFn, files: seq<string>, code: int, outs: seq<Output>) {
    && (code == 0 || code == 2)
    && (code == 0 <==> AllProduced(m, browser, render, files))
    && (code == 0 && !browser ==> PrintsOf(outs, m, render, files))
    && (code == 0 && browser ==>
          && |outs| == 1 && outs[0].Opened? && |outs[0].urls| == |files|
          && forall j :: 0 <= j < |files| ==> Produce(m, true, render, files[j]) == Some(outs[0].urls[j]))
    && (code == 2 ==> exists k :: (FirstFailure(m, browser, render, files, k)
          && if browser then outs == [] else PrintsOf(outs, m, render, files[..k])))
  }

  /** The loop over the files: each is read and rendered in turn and printed at once, or written to a temporary file. */
  method RenderFiles(m: Machine, browser: bool, render: RenderFn, files: seq<string>) returns (code: int, outs: seq<Output>)
    ensures FilesOutcome(m, browser, render, files, code, outs)
  {
    var urls: seq<string> := [];
    outs := [];
    var i := 0;
    while i < |files|
      invariant 0 <= i <= |files|
      invariant AllProduced(m, browser, render, files[..i])
      invariant !browser ==> PrintsOf(outs, m, render, files[..i])
      invariant browser ==> outs == [] && |urls| == i
      invariant browser ==> forall j :: 0 <= j < i ==> Produce(m, true, render, files[j]) == Some(urls[j])
    {
      var path := files[i];
      var text := m.read(path);
      if text.None? {
        assert FirstFailure(m, browser, render, files, i);
        return 2, outs;
      }
      var html := render(text.value, m.lastComponent(path), Some(m.fileUrl(path)));
      if browser {
        var url := m.writeTemp(html, m.baseName(path));
        if url.None? {
          assert FirstFailure(m, browser, render, files, i);
          return 2, outs;
        }
        urls := urls + [url.value];
      } else {
        outs := outs + [Printed(html)];
      }
      assert files[..i + 1] == files[..i] + [path];
      i := i + 1;
    }
    assert files[..i] == files;
    if browser {
      outs := [Opened(urls)];
    }
    return 0, outs;
  }

  /**
   * `run`: parse, validate, then render standard input or every file. The
   * exit code is 0 on success, 1 for bad arguments and 2 when an input or a
   * temporary file fails. Help and version text are not modelled as output.
   */
  method Run(api: Api, m: Machine, args: seq<string>) returns (code: int, outs: seq<Output>)
    ensures var d := Decide(ParseArgs(args));
      // `outs` records documents only: the help and version texts that the
      // `--help` and `--version` exits print to standard output are not modelled.
      && (d.Exit? ==> code == d.code && outs == [])
      && (d.Render? ==> code == 0 || code == 2)
    ensures var d := Decide(ParseArgs(args));
      d.Render? && d.opts.files == [] ==>
        var render := Renderer(api, m.images, d.mode, d.opts);
        match m.stdin
        case None => code == 2 && outs == []
        case Some(text) =>
          var html := render(text, "", None);
          if !d.opts.browser then code == 0 && outs == [Printed(html)]
          else match m.writeTemp(html, "stdin")
            case None => code == 2 && outs == []
            case Some(url) => code == 0 && outs == [Opened([url])]
    ensures var d := Decide(ParseArgs(args));
      d.Render? && d.opts.files != [] ==>
        FilesOutcome(m, d.opts.browser, Renderer(api, m.images, d.mode, d.opts), d.opts.files, code, outs)
  {
    var p := ParseArguments(args);
    var d := Decide(p);
    if d.Exit? {
      return d.code, [];
    }
    var render := Renderer(api, m.images, d.mode, d.opts);
    if d.opts.files == [] {
      if m.stdin.None? {
        return 2, [];
      }
      var html := render(m.stdin.value, "", None);
      if !d.opts.browser {
        return 0, [Printed(html)];
      }
      var url := m.writeTemp(html, "stdin");
      if url.None? {
        return 2, [];
      }
      return 0, [Opened([url.value])];
    }
    code, outs := RenderFiles(m, d.opts.browser, render, d.opts.files);
  }
}
