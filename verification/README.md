# Mud's Markdown rendering core, in Dafny

Mud is a macOS Markdown viewer with two views of a document. The **Up** view
is rendered HTML. The **Down** view is the Markdown source, shown as a table
of numbered lines with syntax-coloured spans. This project models the library
that produces both views (`MudCore` and the rendering visitors) and the small
pure helpers of the app around it, and proves what they promise.

Modules, following the program's structure:

- `HtmlEscaping`, `SlugGenerator`, `HtmlLineSplitter`, `EmojiShortcodes`: the leaf utilities. These cover escaping the four HTML special characters, heading slugs with the duplicate-counting `Tracker`, splitting highlighted HTML into lines with their spans closed and reopened, and `:shortcode:` replacement over a given alias table.
- `Markup`: the parsed document tree, with optional source ranges. This is what the parser hands the visitors.
- `HeadingExtractor`: the outline records (level, text, id, source line) of a document.
- `UpAlerts`, `UpLists`, `UpVisitor`, `UpHeadingIds`, `UpProperties`: the Up renderer.
  - Block quotes are classified as a GitHub alert, a DocC aside, a `Status:` aside or a plain quote.
  - Lists are tight or loose by the source-line gap rule.
  - Also covered: tables, code blocks and attributes.
  - The walk itself is modelled, and the properties of each construct are proved.
  - The theorem that the ids the body gives its headings are the ids the extractor reports, for trees of the parser's shape, DocC aside quotes included.
- `CodeHighlighting`: the highlighting engine, as a parameter.
- `DownEvents`, `DownTable`: the Down renderer.
  - Span events are collected from source ranges and sorted by their tie-breaking order.
  - They are replayed row by row, carrying open spans from one line to the next.
- `HtmlTemplate`, `MudCore`, `ImageDataUri`: document wrapping, the library's entry points, and the `data:` URI encoder for local images.
- `OutlineTree`, `Cli`, `FindBar`, `CssHex`, `Clamping`, `Lightings`, `Modes`: the app helpers.
  - The outline tree builder.
  - The command-line front end: detection, argument parsing and validation, rendering, and the exit codes.
  - The find bar's search-origin state machine.
  - The CSS hex colour parser, `clamped(to:)`, and the lighting and mode toggles.
- `Wrappers`, `Strings`: shared vocabulary (`Option`, prefixes, substrings, splitting, decimal rendering).

Services the code gets from outside become function-valued parameters; their contracts mention no particular implementation:
- the Markdown parser and plain-text extraction;
- the DocC aside recogniser;
- the highlight.js engine;
- the bundle's CSS and icon resources;
- file reading and base64.

## Model

| member | source | states |
|---|---|---|
| Clamping.Clamped | App/DocumentContentView.swift:175-178 | the result lies in the closed range; a value inside is returned unchanged, one below gives the lower bound, one above the upper |
| Clamping.ClampedIdempotent | App/DocumentContentView.swift:176-178 | clamping an already clamped value changes nothing |
| Clamping.ClampedMonotone | App/DocumentContentView.swift:176-178 | clamping keeps the order of two values |
| Modes.Toggled | App/Mode.swift:5-10 | the toggled mode is never the mode itself (no fixed point) |
| Modes.ToggledInvolution | App/Mode.swift:5-10 | toggling twice gives the mode back |
| Modes.ToggleMode | App/DocumentState.swift:23-25 | the mode becomes its toggle and every other field of the document state is kept |
| Modes.ToggleModeTwice | App/DocumentState.swift:14-25 | toggling the document's mode twice restores the whole state |
| Lightings.Toggled | App/Lighting.swift:9-16 | the toggle leaves auto exactly when it started at auto |
| Lightings.ToggleFlips | App/Lighting.swift:8-25 | from auto, toggling flips the effective darkness and toggling again returns to auto; from a forced setting, toggling hands darkness back to the system |
| Lightings.Scheme | App/Lighting.swift:37-43 | auto follows the environment; a forced setting gives the dark scheme exactly when it is dark |
| FindBar.Issue | App/FindFeature.swift:77 | a fresh search id differs from (exceeds) the current one and nothing else changes |
| FindBar.Close | App/FindFeature.swift:59-66 | the bar is hidden and the text, the last search and the match count are cleared; id, origin and direction are kept |
| FindBar.Navigate | App/FindFeature.swift:72-86 | with empty text nothing changes; otherwise the origin becomes advance, the direction the one asked for, the last search the current text, and a fresh id is issued, all else kept |
| FindBar.AutoSearchIdle | App/FindFeature.swift:98-103 | a hidden bar or empty text only clears the match count and the last search; there is then no query |
| FindBar.AutoSearchRepeat | App/FindFeature.swift:104 | repeating the last searched text changes nothing |
| FindBar.AutoSearchNew | App/FindFeature.swift:105-113 | a new visible text searches forward with a fresh id; it refines exactly when it extends a non-empty last search and otherwise starts from the top with the match count cleared |
| FindBar.TypeMore | App/FindFeature.swift:106-110 | typing one more character after a search refines it and leaves a query to run |
| FindBar.NavigateThenRepeat | App/FindFeature.swift:72-104 | after find-next or find-previous, the same text does not search again |
| FindBar.CloseThenSearch | App/FindFeature.swift:59-113 | after closing there is no query, and the next text typed after showing the bar searches from the top with no match count |
| OutlineTree.BuildLevel | App/OutlineNode.swift:25-45 | one level takes the maximal run of headings deeper than the parent level; its pre-order listing is exactly that run, the returned index is where the run ends, and every child is deeper than its parent |
| OutlineTree.BuildTreeFlatten | App/OutlineNode.swift:18-23 | with levels of at least 1, flattening the tree in pre-order gives back the input list, and nesting is strict |
| OutlineTree.TreeChildrenAreRuns | App/OutlineNode.swift:25-45 | read in pre-order, every node of the tree is the next heading, and its children list exactly the following headings deeper than it, up to the first at its level or above |
| OutlineTree.RunEndUnique | App/OutlineNode.swift:31-35 | a level's run ends at the first heading at or above the parent's level, and at no other index |
| OutlineTree.BuildTreeEmpty | App/OutlineNode.swift:20-31 | no headings, no nodes |
| OutlineTree.SkippedLevelNests | App/OutlineNode.swift:18-19 | an h3 directly after an h1 becomes the h1's child |
| OutlineTree.SameLevelSiblings | App/OutlineNode.swift:33-35 | two headings of one level are siblings |
| CssHex.ParseHex | App/Settings/ThemePreviewCard.swift:180-183 | on unsigned text the parse succeeds exactly when every character is a hex digit, and then gives their value; a leading `+` or `-` is accepted before hex digits, `-` only when their value is zero; empty text fails |
| CssHex.TrimHash | App/Settings/ThemePreviewCard.swift:161 | the trimmed text neither starts nor ends with `#` |
| CssHex.Double | App/Settings/ThemePreviewCard.swift:169-172 | each character appears twice in a row, in order |
| CssHex.Expand | App/Settings/ThemePreviewCard.swift:167-178 | only the supported lengths expand, always to six or eight digits |
| CssHex.FromPlainHex | App/Settings/ThemePreviewCard.swift:185-198 | eight digits give red, green, blue and alpha bytes from high to low; six give three bytes with full opacity |
| CssHex.RoundTrip6 | App/Settings/ThemePreviewCard.swift:160-198 | `#` and three bytes written as six hex digits read back as those bytes, opaque |
| CssHex.RoundTrip8 | App/Settings/ThemePreviewCard.swift:160-198 | `#` and four bytes written as eight hex digits read back as those four channels |
| CssHex.ShortForm | App/Settings/ThemePreviewCard.swift:168-172 | `#RGB` reads as `#RRGGBB` and `#RGBA` as `#RRGGBBAA` |
| CssHex.ClearCases | App/Settings/ThemePreviewCard.swift:161-177 | no input, nothing but `#`, or an unsupported length gives clear |
| CssHex.NotHexIsClear | App/Settings/ThemePreviewCard.swift:180-183 | for input of any length whose expanded hex text holds a non-hex character anywhere (at the first place, one that is not a sign) gives clear |
| CssHex.NotHexExamples | App/Settings/ThemePreviewCard.swift:180-183 | `#fg0`, `#12g4`, `#12345g` and `#1234+678` all give clear |
| CssHex.SignedInput | App/Settings/ThemePreviewCard.swift:180 | a minus sign in front of five hex digits is accepted by the unsigned parser: black when the digits are zero, clear otherwise |
| HtmlEscaping.EscapeChar | Core/Sources/Core/Rendering/HTMLEscaping.swift:10-16 | an ordinary character is copied; each of the four special ones becomes an entity reference from `&` to `;` |
| HtmlEscaping.Escape | Core/Sources/Core/Rendering/HTMLEscaping.swift:6-19 | the output never holds `<`, `>` or `"` and is at least as long as the input |
| HtmlEscaping.UnescapeEscape | Core/Sources/Core/Rendering/HTMLEscaping.swift:6-19 | reading the entities back gives the input: escaping loses nothing |
| HtmlEscaping.EscapeInjective | Core/Sources/Core/Rendering/HTMLEscaping.swift:6-19 | distinct texts escape differently |
| HtmlEscaping.EscapeConcat | Core/Sources/Core/Rendering/HTMLEscaping.swift:9-18 | escaping distributes over concatenation |
| HtmlEscaping.EscapeIdentity | Core/Sources/Core/Rendering/HTMLEscaping.swift:15 | a text comes back unchanged exactly when it holds none of `&`, `<`, `>`, `"` |
| HtmlEscaping.EscapeNotIdempotent | Core/Tests/Core/HTMLEscapingTests.swift:26-28 | `&amp;` escapes to `&amp;amp;`; escaping twice differs from once |
| HtmlEscaping.EscapeExamples | Core/Tests/Core/HTMLEscapingTests.swift:22-36 | the four entities, the apostrophe copied, the empty text |
| SlugGenerator.StripChars | Core/Sources/Core/Rendering/SlugGenerator.swift:11-15 | stripping keeps only characters of `[\w\s-]` that were in the text |
| SlugGenerator.CollapseChars | Core/Sources/Core/Rendering/SlugGenerator.swift:17-21 | collapsing leaves no white space: only hyphens and non-space characters of its input |
| SlugGenerator.SlugifyIsSlug | Core/Sources/Core/Rendering/SlugGenerator.swift:9-22 | every slug is made of lower-case word characters and hyphens only |
| SlugGenerator.SlugifySlug | Core/Sources/Core/Rendering/SlugGenerator.swift:9-22 | an existing slug is left as it is |
| SlugGenerator.SlugifyIdempotent | Core/Sources/Core/Rendering/SlugGenerator.swift:9-22 | slugifying a slug again changes nothing |
| SlugGenerator.CollapseSpaceRun | Core/Sources/Core/Rendering/SlugGenerator.swift:17-21 | a run of blanks before a non-space becomes exactly one hyphen |
| SlugGenerator.TrimAround | Core/Sources/Core/Rendering/SlugGenerator.swift:16 | leading and trailing blanks are removed and nothing else |
| SlugGenerator.SlugifyWords | Core/Sources/Core/Rendering/SlugGenerator.swift:9-22 | blanks around the text vanish and the blank run between two slug words becomes one hyphen |
| SlugGenerator.SlugifyPadded | Core/Sources/Core/Rendering/SlugGenerator.swift:16 | blanks around a one-word heading vanish |
| SlugGenerator.SlugifyTrims | Core/Tests/Core/SlugGeneratorTests.swift:14-16 | `"  Hello  "` gives `hello` |
| SlugGenerator.Next | Core/Sources/Core/Rendering/SlugGenerator.swift:30-35 | the slug starts with the base and is the bare base exactly on its first request; the base's counter grows by one |
| SlugGenerator.NextCounts | Core/Sources/Core/Rendering/SlugGenerator.swift:31-33 | only the requested base's counter moves |
| SlugGenerator.RunCounts | Core/Sources/Core/Rendering/SlugGenerator.swift:27-36 | after a walk each counter has grown by the number of requests of its base |
| SlugGenerator.RunSlug | Core/Sources/Core/Rendering/SlugGenerator.swift:24-35 | the n-th request of a base (counting earlier ones) gets the base when n is 0 and `base-n` otherwise |
| SlugGenerator.UnseenSlug | Core/Sources/Core/Rendering/SlugGenerator.swift:24-35 | for a base not requested before the walk, the suffix counts only the earlier requests in the walk |
| SlugGenerator.RunAppend | Core/Sources/Core/Rendering/SlugGenerator.swift:27-36 | feeding two lists in turn is feeding their concatenation |
| SlugGenerator.TrackerRepeats | Core/Tests/Core/SlugGeneratorTests.swift:49-54 | three equal headings get `features`, `features-1`, `features-2` |
| HtmlLineSplitter.TokenAtCases | Core/Sources/Core/Rendering/HTMLLineSplitter.swift:17-47 | the scanner's cases in the source's order: newline; `</span>`; `<span` with a later `>`, read up to the first one; any other character, `<` included, copied alone |
| HtmlLineSplitter.TokenizeRender | Core/Sources/Core/Rendering/HTMLLineSplitter.swift:16-48 | the tokens read render back to exactly the text they were read from: every input character is kept, in order |
| HtmlLineSplitter.SplitByLineLoop | Core/Sources/Core/Rendering/HTMLLineSplitter.swift:10-55 | the string-building loop computes exactly the token-level definition of the split |
| HtmlLineSplitter.FeedLine | Core/Sources/Core/Rendering/HTMLLineSplitter.swift:17-22 | a finished line is the tokens read up to the newline followed by one `</span>` per open tag, and the next line reopens those tags verbatim, outermost first |
| HtmlLineSplitter.LineCount | Core/Sources/Core/Rendering/HTMLLineSplitter.swift:50-53 | one line per newline plus one, less a dropped empty last line |
| HtmlLineSplitter.SplitNoNewline | Core/Sources/Core/Rendering/HTMLLineSplitter.swift:16-50 | text without a newline comes back as the single line it is |
| HtmlLineSplitter.FeedSound | Core/Sources/Core/Rendering/HTMLLineSplitter.swift:17-43 | each step keeps finished lines balanced and the current line open exactly as deep as the stack |
| HtmlLineSplitter.SplitBalanced | Core/Sources/Core/Rendering/HTMLLineSplitter.swift:3-22 | when the input never closes an unopened span and ends with nothing open, every output line is balanced |
| EmojiShortcodes.CodeRun | Core/Sources/Core/Rendering/EmojiShortcodes.swift:31-33 | the run of `[A-Za-z0-9_+-]` characters at the start of the text is maximal |
| EmojiShortcodes.TokenLenShape | Core/Sources/Core/Rendering/EmojiShortcodes.swift:30-33 | a token is exactly a colon, one or more code characters, and a colon |
| EmojiShortcodes.ReplaceToken | Core/Sources/Core/Rendering/EmojiShortcodes.swift:49-58 | a token is replaced by its glyph when the alias is known and copied otherwise, and the scan resumes after its closing colon |
| EmojiShortcodes.ReplaceNoColon | Core/Sources/Core/Rendering/EmojiShortcodes.swift:39 | text without a colon is returned unchanged |
| EmojiShortcodes.ReplaceAppend | Core/Sources/Core/Rendering/EmojiShortcodes.swift:51-60 | colon-free text in front is copied and the rest is scanned on its own |
| EmojiShortcodes.ReplaceShortcodesScan | Core/Sources/Core/Rendering/EmojiShortcodes.swift:38-62 | the early returns change nothing: the result is always that of the scan |
| EmojiShortcodes.ReplaceNoToken | Core/Sources/Core/Rendering/EmojiShortcodes.swift:45 | text without a token is copied unchanged |
| EmojiShortcodes.ReplaceUnknown | Core/Sources/Core/Rendering/EmojiShortcodes.swift:53-57 | with no known aliases every text is unchanged |
| EmojiShortcodes.AdjacentTokens | Core/Tests/Core/EmojiShortcodesTests.swift:31-33 | two adjacent known tokens are both replaced; the first one's closing colon is not reused |
| EmojiShortcodes.EmptyBetweenColons | Core/Tests/Core/EmojiShortcodesTests.swift:35-37 | `::` is unchanged |
| EmojiShortcodes.TimeOfDay | Core/Tests/Core/EmojiShortcodesTests.swift:39-41 | `h:mm:ss` keeps its colons when `mm` is not an alias |
| EmojiShortcodes.MixedText | Core/Tests/Core/EmojiShortcodesTests.swift:24-29 | text around a known token is copied unchanged and in order |
| HeadingExtractor.VisitSpec | Core/Sources/Core/Rendering/HeadingExtractor.swift:5-18 | the walk appends one record per heading of the tree, in document order, and feeds the headings' plain texts to one slug tracker in that order; a heading's own children are not searched |
| HeadingExtractor.VisitHeadingSpec | Core/Sources/Core/Rendering/HeadingExtractor.swift:9-18 | a heading adds exactly one record, whose id is the tracker's next slug for the heading's plain text |
| HeadingExtractor.ExpectedAppend | Core/Sources/Core/Rendering/HeadingExtractor.swift:5-18 | walking one run of headings and then another is walking their concatenation: the tracker's state carries over |
| HeadingExtractor.ExtractSpec | Core/Sources/Core/Rendering/HeadingExtractor.swift:5-18 | a fresh extractor's records are those of the reference description: the headings in order, with the slugs a fresh tracker gives their bases |
| HeadingExtractor.ExtractRecords | Core/Sources/Core/Rendering/HeadingExtractor.swift:9-17 | one record per heading: level, plain text and segments copied, source line taken from the range or 0 without one, id from the tracker run |
| HeadingExtractor.ExtractIds | Core/Sources/Core/Rendering/HeadingExtractor.swift:7-10 | the i-th id is the heading's base slug, suffixed with the number of earlier headings sharing that base (no suffix for the first) |
| HeadingExtractor.ExtractNone | Core/Sources/Core/Rendering/HeadingExtractor.swift:5-6 | a document without headings yields no records |
| HeadingExtractor.HeadingsAreHeadings | Core/Sources/Core/Rendering/HeadingExtractor.swift:9 | only heading nodes produce records |
| HeadingExtractor.SegmentsAppend | Core/Sources/Core/Rendering/HeadingExtractor.swift:26-39 | the segments of a run of siblings are the segments of each sibling in turn |
| HeadingExtractor.SegmentsFlatten | Core/Sources/Core/Rendering/HeadingExtractor.swift:34-36 | emphasis, strong, links and other containers are flattened: their children's segments take their place |
| HeadingExtractor.SegmentsWithCode | Core/Sources/Core/Rendering/HeadingExtractor.swift:28-31 | text, a code span and text become a plain, a code and a plain segment, in that order |
| HeadingExtractor.SegmentsSoftBreak | Core/Sources/Core/Rendering/HeadingExtractor.swift:32-33 | a soft break becomes a plain segment holding a single space |
| HtmlTemplate.ThemeFallback | Core/Sources/Core/Rendering/HTMLTemplate.swift:71-77 | the theme CSS is the named theme's or the fallback's, and empty when neither is bundled |
| HtmlTemplate.WrapUpShape | Core/Sources/Core/Rendering/HTMLTemplate.swift:6-28 | an Up document opens with the doctype, carries the content-security policy, the escaped title and the body inside the article element, and a base element when given a base URL |
| HtmlTemplate.WrapUpStart | Core/Sources/Core/Rendering/HTMLTemplate.swift:10-13 | the Up document opens with the doctype, the root and the head element |
| HtmlTemplate.WrapUpWithoutBase | Core/Sources/Core/Rendering/HTMLTemplate.swift:8-18 | without a base URL the head goes from the policy straight to the title: there is no base element |
| HtmlTemplate.WrapUpHoldsArticle | Core/Sources/Core/Rendering/HTMLTemplate.swift:23-25 | the body sits inside the Up document's article element |
| HtmlTemplate.UpHeadPrefix | Core/Sources/Core/Rendering/HTMLTemplate.swift:10-16 | whatever follows the fixed Up head, the document starts with the doctype |
| HtmlTemplate.WrapUpBaseOnly | Core/Sources/Core/Rendering/HTMLTemplate.swift:8-17 | a base URL changes only the base element: the document with one is the document without one with that element inserted after the policy |
| HtmlTemplate.WrapDownShape | Core/Sources/Core/Rendering/HTMLTemplate.swift:32-50 | a Down document opens with the doctype, carries the escaped title and the table inside the output element |
| HtmlTemplate.WrapDownStart | Core/Sources/Core/Rendering/HTMLTemplate.swift:34-37 | the Down document opens with the doctype, the root and the head element |
| HtmlTemplate.WrapDownHoldsTable | Core/Sources/Core/Rendering/HTMLTemplate.swift:45-47 | the table sits inside the Down document's output element |
| HtmlTemplate.SharedHead | Core/Sources/Core/Rendering/HTMLTemplate.swift:10-18 | both documents share the head up to the viewport; Up then has the policy, Down goes straight to the title |
| MudCore.UpDocumentHoldsBody | Core/Sources/Core/MudCore.swift:32-45 | the Up document holds, inside its article element, exactly the body `renderToHTML` gives for the same Markdown, base URL and resolver, with or without the base tag |
| MudCore.UpDocumentBaseTag | Core/Sources/Core/MudCore.swift:42-44 | `includeBaseTag` decides only the base element: with a base URL the two documents differ by that element alone, without one they are equal |
| MudCore.DownDocumentHoldsTable | Core/Sources/Core/MudCore.swift:55-69 | the Down document holds exactly the table `renderDownToHTML` gives for the same text |
| MudCore.OutlineMatchesBody | Core/Sources/Core/MudCore.swift:12-53 | for a tree of the parser's shape, DocC asides included, and an aside recogniser that keeps a quote's headings, the ids the Up body gives its headings are, in order, the ids `extractHeadings` reports, whatever base URL or resolver is used |
| ImageDataUri.MimeFor | Core/Sources/Core/Rendering/ImageDataURI.swift:28-29 | an extension has a MIME type exactly when its lower-case form is a key of the table, and then it is that key's type |
| ImageDataUri.MimeTypesAreImages | Core/Sources/Core/Rendering/ImageDataURI.swift:9-16 | six extensions, all lower-case, each mapped to an `image/` type without parameters; `jpg` and `jpeg` share one |
| ImageDataUri.ExternalIgnoresCase | Core/Sources/Core/Rendering/ImageDataURI.swift:36-42 | whether a source is external does not depend on the case of its letters |
| ImageDataUri.ExternalHasScheme | Core/Sources/Core/Rendering/ImageDataURI.swift:36-42 | every external source contains a `:`, so a plain path is never external |
| ImageDataUri.ExternalExamples | Core/Tests/Core/ImageDataURITests.swift:24-35 | a mixed-case `https` URL is external; a relative and an absolute path are not |
| ImageDataUri.Encode | Core/Sources/Core/Rendering/ImageDataURI.swift:21-33 | an external source gives nothing; any result is a `data:image/` URI |
| ImageDataUri.ParseDataUri | Core/Sources/Core/Rendering/ImageDataURI.swift:32 | what is read back from a `data:` URI rebuilds exactly that URI, with a parameterless type |
| ImageDataUri.DataUriRoundTrip | Core/Sources/Core/Rendering/ImageDataURI.swift:32 | a data URI built from a type without parameters reads back as that type and payload |
| ImageDataUri.EncodeCases | Core/Sources/Core/Rendering/ImageDataURI.swift:21-33 | `encode` answers exactly when the source is local, its extension is known whatever its case, and the file can be read; the answer carries that extension's type and the base64 of the file's bytes |
| Cli.OrdinarySkip | App/CommandLineInterface.swift:29 | a system flag passes over itself and the argument after it |
| Cli.OrdinaryKeep | App/CommandLineInterface.swift:26-32 | any other argument is looked at, and the scan moves on by one |
| Cli.LooksLikeCli | App/CommandLineInterface.swift:25-34 | the binary runs as a command exactly when one of the arguments the scan looks at is one of the command's flags |
| Cli.OrdinaryFromArgs | App/CommandLineInterface.swift:25-48 | every argument the scans look at is one of the given arguments |
| Cli.OrdinaryWithoutSystemFlags | App/CommandLineInterface.swift:25-48 | without system flags the scans look at every argument |
| Cli.DetectionWithoutSystemFlags | App/CommandLineInterface.swift:22-34 | without system flags, the binary is a command exactly when some argument is one of the command's flags |
| Cli.StylingAloneIsNoCommand | App/CommandLineInterface.swift:13-20 | the styling options (`--line-numbers`, `--word-wrap`, `--readable-column`, `--theme`) alone leave the binary a window app |
| Cli.SystemFlagValueSkipped | App/CommandLineInterface.swift:58-60 | the value after a system flag is passed over even when it reads like a mode flag, so only the file remains |
| Cli.FileArguments | App/CommandLineInterface.swift:38-48 | the window's files are the arguments the scan looks at that are not spelled like options, in order |
| Cli.PositionalFiles | App/CommandLineInterface.swift:44 | every such file is one of the given arguments and does not start with `-` |
| Cli.ParseArguments | App/CommandLineInterface.swift:74-117 | the argument loop computes the reference parse: stops at help, version, a trailing `--theme` or an unknown option, and otherwise gathers files, mode, theme, classes and flags |
| Cli.ParseAppend | App/CommandLineInterface.swift:74-117 | parsing is one left-to-right pass: the arguments after a complete prefix are parsed from the options it gathered, and are never looked at once it has stopped |
| Cli.StopsAtFirst | App/CommandLineInterface.swift:77-111 | help, version and an unknown option end parsing whatever follows them, and a trailing `--theme` is a missing value |
| Cli.SwitchTakesNoValue | App/CommandLineInterface.swift:83-96 | the stand-alone options are neither `--theme` nor system flags, so none consumes the next argument |
| Cli.SwitchIgnoresOptions | App/CommandLineInterface.swift:83-96 | whether an argument is a stand-alone option does not depend on the options gathered so far |
| Cli.ThemeOptions | App/CommandLineInterface.swift:97-106 | both spellings of the theme option set the theme and change nothing else |
| Cli.JoinedThemeOption | App/CommandLineInterface.swift:105-106 | `--theme=NAME` sets the theme to what follows the `=` |
| Cli.SeparateThemeOption | App/CommandLineInterface.swift:97-103 | `--theme NAME` sets the theme to the next argument, whatever it is |
| Cli.ThemeOptionIsNoSwitch | App/CommandLineInterface.swift:104-106 | an argument starting `--theme=` is not one of the other options |
| Cli.ModeKept | App/CommandLineInterface.swift:83-86 | arguments without a mode option leave the mode as it was |
| Cli.LastModeWins | App/CommandLineInterface.swift:83-86 | the last of `-u`, `-d` and their long forms decides the mode |
| Cli.Decide | App/CommandLineInterface.swift:119-146 | help and version exit with 0, every other stop with 1; then an unknown theme fails before a missing mode; rendering happens exactly when the parse completed with a known theme and a mode |
| Cli.DecisionExamples | App/CommandLineInterface.swift:143-146 | no arguments fail for want of a mode; `-h` exits with 0 before a bad option after it is looked at |
| Cli.UnknownThemeExample | App/CommandLineInterface.swift:119-126 | an unknown theme fails even without a mode |
| Cli.RenderExample | App/CommandLineInterface.swift:74-146 | `-u notes.md` renders that file in Up mode with the default theme |
| Cli.ReplaceAbsent | App/CommandLineInterface.swift:300-305 | with no occurrence of the tag, the page is unchanged |
| Cli.ReplaceSkip | App/CommandLineInterface.swift:300-305 | text in which no occurrence of the tag starts is copied unchanged |
| Cli.ReplaceFront | App/CommandLineInterface.swift:300-305 | an occurrence at the front is replaced and replacement carries on after it |
| Cli.LibraryUpOpens | Core/Sources/Core/MudCore.swift:32-45 | the library's Up documents open with the doctype and the root element |
| Cli.LibraryUpWithoutBase | Core/Sources/Core/MudCore.swift:42-44 | an Up document asked for without its base tag goes from the policy straight to the title |
| Cli.LibraryDownConforms | Core/Sources/Core/MudCore.swift:61-69 | the library's Down documents open with the doctype and the root element |
| Cli.FragmentIgnoresStyling | App/CommandLineInterface.swift:266-278 | a fragment depends only on the text, the mode and the browser flag: theme, classes, title, base URL and image files are ignored |
| Cli.FragmentForBrowser | App/CommandLineInterface.swift:274-276 | a fragment for the browser is the plain fragment after a character-set declaration |
| Cli.DocumentStart | App/CommandLineInterface.swift:279-299 | every full document opens with the doctype and the root element |
| Cli.RootClasses | App/CommandLineInterface.swift:300-305 | with classes, a page that opens with the doctype has the class attribute on its root element |
| Cli.StyledDocument | App/CommandLineInterface.swift:300-305 | the styling options reach the document: its root element carries them as classes |
| Cli.UnstyledDocument | App/CommandLineInterface.swift:300 | without classes the document is left as the library made it |
| Cli.BrowserDocumentHasNoBase | App/CommandLineInterface.swift:282-289 | an Up document for the browser has no base element |
| Cli.BrowserImageSources | App/CommandLineInterface.swift:286-288 | for the browser, an image naming a readable local image file becomes a `data:image/` URI; any other source, external ones included, is kept |
| Cli.RenderFiles | App/CommandLineInterface.swift:172-204 | code 0 exactly when every file is read (and, for the browser, written); then every page printed in order, or every temporary file opened at once; otherwise code 2 at the first failing file, after the pages before it |
| Cli.Run | App/CommandLineInterface.swift:65-205 | an early decision exits with its code and no output; standard input is read when no file is given, rendered with an empty title and no base, and printed or written as `stdin`; files are handled as in the loop over them |
| UpAlerts.Title | Core/Sources/Core/Rendering/UpHTMLVisitor.swift:275 | the display title is the raw value with its first letter upper-cased and the rest kept |
| UpAlerts.FirstTag | Core/Sources/Core/Rendering/UpHTMLVisitor.swift:336-339 | the category found belongs to a tag the text starts with, and none is found only when the text starts with no tag |
| UpAlerts.GfmTagsAreTags | Core/Sources/Core/Rendering/UpHTMLVisitor.swift:318-322 | the tags tried are `[!` + the upper-cased raw value + `]` of their categories, and the status category is not among them |
| UpAlerts.ThirdCharPicks | Core/Sources/Core/Rendering/UpHTMLVisitor.swift:318-322 | the tags differ in their third character, so at most one can start a text |
| UpAlerts.TagMatch | Core/Sources/Core/Rendering/UpHTMLVisitor.swift:335-339 | the search answers `c` exactly when `c` is not the status category and the text starts with `c`'s tag |
| UpAlerts.DetectGfmSpec | Core/Sources/Core/Rendering/UpHTMLVisitor.swift:325-340 | a quote is a GitHub alert of category `c` exactly when its first child is a paragraph whose plain text starts with `c`'s tag |
| UpAlerts.DoccCategory | Core/Sources/Core/Rendering/UpHTMLVisitor.swift:298-315 | only custom aside kinds have no category, and no aside kind maps to the status category |
| UpAlerts.DoccCategoryInverse | Core/Sources/Core/Rendering/UpHTMLVisitor.swift:298-315 | a kind lands in category `c` exactly when the table lists it under `c`, or it is another predefined kind and `c` is note |
| UpAlerts.ListedKindsDisjoint | Core/Sources/Core/Rendering/UpHTMLVisitor.swift:299-306 | no kind is listed under two categories, and each listed kind keeps its listed category |
| UpAlerts.DetectDocC | Core/Sources/Core/Rendering/UpHTMLVisitor.swift:391-401 | an aside is an alert exactly when its kind is not custom; the title is the kind's display name and the content is the aside's |
| UpAlerts.CustomAsideIgnored | Core/Sources/Core/Rendering/UpHTMLVisitor.swift:397-399 | a custom aside is not an alert |
| UpAlerts.DetectStatusSpec | Core/Sources/Core/Rendering/UpHTMLVisitor.swift:423-443 | a first Text reading `Status:`, spaces, then a value gives that value, and nothing when no value follows the spaces |
| UpAlerts.DetectStatusSound | Core/Sources/Core/Rendering/UpHTMLVisitor.swift:423-443 | any status value found is non-empty, does not start with a space, and follows `Status:` and spaces in the first Text |
| UpLists.GapFromSpec | Core/Sources/Core/Rendering/UpHTMLVisitor.swift:513-524 | the block scan finds a gap exactly when two consecutive ranged blocks are more than one line apart, or the first is that far after the start given |
| UpLists.LooseFromSpec | Core/Sources/Core/Rendering/UpHTMLVisitor.swift:493-527 | the list scan, stated over the ranged children: a gap after the previous item, between consecutive ranged items, or inside a ranged item |
| UpLists.IsLooseSpec | Core/Sources/Core/Rendering/UpHTMLVisitor.swift:490-527 | a list is loose exactly when two consecutive ranged items are more than one line apart, measured from the end of the earlier item's content, or some ranged item has two consecutive ranged blocks more than one line apart |
| UpLists.AdjacentItemsTight | Core/Sources/Core/Rendering/UpHTMLVisitor.swift:498-501 | one-line items on consecutive lines make a tight list |
| UpLists.BlankLineLoose | Core/Sources/Core/Rendering/UpHTMLVisitor.swift:498-501 | one blank line between two items makes the list loose |
| UpVisitor.Highlight | Core/Sources/Core/Rendering/UpHTMLVisitor.swift:127-129 | without a language nothing is highlighted |
| UpVisitor.CodeBody | Core/Sources/Core/Rendering/UpHTMLVisitor.swift:127-133 | the highlighter's answer is used as is; without one the code is escaped, and unescaping gives the code back |
| UpVisitor.TitleAttr | Core/Sources/Core/Rendering/UpHTMLVisitor.swift:221-223 | a title attribute is written exactly when the title is present and non-empty |
| UpVisitor.Open | Core/Sources/Core/Rendering/UpHTMLVisitor.swift:58-197 | opening a container only appends output and keeps tracker and ids; a list sets tightness from its own looseness, other containers keep it |
| UpVisitor.Close | Core/Sources/Core/Rendering/UpHTMLVisitor.swift:58-197 | closing a container only appends output and keeps tracker and ids; a list restores the tightness from before it opened |
| UpVisitor.Visit | Core/Sources/Core/Rendering/UpHTMLVisitor.swift:9-265 | visiting a node only appends to the output, and list tightness is as it was before |
| UpVisitor.VisitHeading | Core/Sources/Core/Rendering/UpHTMLVisitor.swift:99-105 | a heading only appends to the output and leaves list tightness alone |
| UpVisitor.VisitQuote | Core/Sources/Core/Rendering/UpHTMLVisitor.swift:33-56 | a block quote only appends to the output and leaves list tightness alone |
| UpVisitor.SkipBreak | Core/Sources/Core/Rendering/UpHTMLVisitor.swift:361-375 | the content starts past the first inline, and past a soft break right after it |
| UpHeadingIds.VisitIds | Core/Sources/Core/Rendering/UpHTMLVisitor.swift:99-105 | for a tree of the parser's shape (any kind of block quote, DocC asides included, with an aside recogniser that keeps a quote's headings), the walk hands out the slugs of the tree's headings, in document order, and writes each as the heading's id |
| UpHeadingIds.DocCIds | Core/Sources/Core/Rendering/UpHTMLVisitor.swift:39-45 | a DocC aside quote hands out the ids of the quote's headings, in order, when its recogniser keeps them in the content it returns |
| UpHeadingIds.RenderIdsMatchExtract | Core/Sources/Core/Rendering/UpHTMLVisitor.swift:99-105 | for a tree of the parser's shape and an aside recogniser that keeps a quote's headings, the ids a fresh renderer writes into the heading tags are, one for one and in order, the ids the outline extractor assigns |
| UpProperties.PhrasingOnlyWrites | Core/Sources/Core/Rendering/UpHTMLVisitor.swift:201-265 | inline content changes nothing but the output: column, alignments, tracker and tightness stay |
| UpProperties.CellAdvances | Core/Sources/Core/Rendering/UpHTMLVisitor.swift:178-197 | a cell of inline content opens with its tag and alignment and moves on to the next column |
| UpProperties.CellsAdvance | Core/Sources/Core/Rendering/UpHTMLVisitor.swift:178-197 | each cell of a run moves the column on by one |
| UpProperties.RowColumns | Core/Sources/Core/Rendering/UpHTMLVisitor.swift:171-176 | a row restarts at the first column: after it, the column is its number of cells, whatever it was before |
| UpProperties.EmptyBodySilent | Core/Sources/Core/Rendering/UpHTMLVisitor.swift:165 | a table body without rows writes nothing and changes nothing |
| UpProperties.TightParagraph | Core/Sources/Core/Rendering/UpHTMLVisitor.swift:108-110 | directly in an item of a tight list, a paragraph is its content and a newline, without `<p>` |
| UpProperties.WrappedParagraph | Core/Sources/Core/Rendering/UpHTMLVisitor.swift:111-115 | anywhere else a paragraph opens with `<p>` and ends with `</p>` |
| UpProperties.ItemOpensByLooseness | Core/Sources/Core/Rendering/UpHTMLVisitor.swift:71-84 | a list's items open by the list's own looseness, not the enclosing one: `<li>` on the same line when tight, `<li>` and a newline when loose |
| UpProperties.ItemOpens | Core/Sources/Core/Rendering/UpHTMLVisitor.swift:80-85 | an item without a checkbox opens with `<li>`, followed by a newline only in a loose list |
| UpProperties.EmptyLanguageIsNone | Core/Sources/Core/Rendering/UpHTMLVisitor.swift:119 | an empty language is written exactly like no language |
| UpProperties.PlainCodeBlock | Core/Sources/Core/Rendering/UpHTMLVisitor.swift:118-134 | without a language the block is the escaped code in a bare `<pre><code>` |
| UpProperties.HighlightedCodeBlock | Core/Sources/Core/Rendering/UpHTMLVisitor.swift:118-134 | with a language, the class names it escaped, and the highlighter's answer replaces escaping |
| UpProperties.Classify | Core/Sources/Core/Rendering/UpHTMLVisitor.swift:33-56 | a quote is a GitHub alert exactly when one is detected; it is plain exactly when no alert, DocC aside or status aside is detected |
| UpProperties.QuoteOpensByClass | Core/Sources/Core/Rendering/UpHTMLVisitor.swift:33-56 | every block quote opens with its class's head (the alert box and title, or a plain `<blockquote>`) and closes with `</blockquote>` |
| UpProperties.GfmTagStripped | Core/Sources/Core/Rendering/UpHTMLVisitor.swift:360-371 | in a GitHub alert, the first Text loses the tag and the spaces after it, and what remains opens the first paragraph right after the title |
| DownEvents.BeforeIsRankOrder | Core/Sources/Core/Rendering/DownHTMLVisitor.swift:38-49 | the event comparison is the lexicographic order on (line, column, closes-first, depth outward for closes and inward for opens) |
| DownEvents.BeforeIrreflexive | Core/Sources/Core/Rendering/DownHTMLVisitor.swift:38-49 | no event comes before itself |
| DownEvents.BeforeAsymmetric | Core/Sources/Core/Rendering/DownHTMLVisitor.swift:38-49 | two events are never each before the other |
| DownEvents.BeforeTransitive | Core/Sources/Core/Rendering/DownHTMLVisitor.swift:38-49 | the comparison is transitive |
| DownEvents.TiedSpec | Core/Sources/Core/Rendering/DownHTMLVisitor.swift:38-49 | two events are unordered exactly when they agree on line, column, open/close and depth, whatever their classes |
| DownEvents.TiedTransitive | Core/Sources/Core/Rendering/DownHTMLVisitor.swift:38-49 | being unordered is transitive, so the comparison is a strict weak order, as sorting requires |
| DownEvents.BeforeSplits | Core/Sources/Core/Rendering/DownHTMLVisitor.swift:38-49 | if a comes before c, every third event comes after a or before c |
| DownEvents.SortedLines | Core/Sources/Core/Rendering/DownHTMLVisitor.swift:22-23 | in sorted events the line numbers never decrease |
| DownEvents.Insert | Core/Sources/Core/Rendering/DownHTMLVisitor.swift:23 | inserting adds exactly the one event: the multiset grows by it |
| DownEvents.InsertSorted | Core/Sources/Core/Rendering/DownHTMLVisitor.swift:23 | inserting into sorted events keeps them sorted |
| DownEvents.Sort | Core/Sources/Core/Rendering/DownHTMLVisitor.swift:23 | the sorted events are a permutation of the collected ones |
| DownEvents.SortSorted | Core/Sources/Core/Rendering/DownHTMLVisitor.swift:23 | no sorted event comes before an earlier one |
| DownEvents.Span | Core/Sources/Core/Rendering/DownHTMLVisitor.swift:250-269 | an open and a close of one class and depth form a balanced pair |
| DownEvents.ClassesDisjoint | Core/Sources/Core/Rendering/DownHTMLVisitor.swift:67-196 | no construct is both wrapped around its children and emitted as a leaf, and neither kind is a code block |
| DownEvents.MeasureFence | Core/Sources/Core/Rendering/DownHTMLVisitor.swift:290-311 | the fence length is positive exactly when the position is inside the source on a backtick or tilde, and then it is the whole run of that character from there |
| DownEvents.FenceContent | Core/Sources/Core/Rendering/DownHTMLVisitor.swift:127-148 | the content span of a fenced block is balanced |
| DownEvents.FenceInfo | Core/Sources/Core/Rendering/DownHTMLVisitor.swift:157-165 | the info-string span is balanced |
| DownEvents.FenceInfoBytes | Core/Sources/Core/Rendering/DownHTMLVisitor.swift:157-165 | the info span of a non-empty language sits on the fence line and is as wide as the language's UTF-8 bytes: its character count for ASCII, two columns for `ñ` |
| Strings.Utf8Length | Core/Sources/Core/Rendering/DownHTMLVisitor.swift:164 | `utf8.count`: between one and four bytes per character, and exactly one per character precisely when the text is ASCII |
| Strings.Utf8LengthAppend | Core/Sources/Core/Rendering/DownHTMLVisitor.swift:164 | byte counts add up over concatenation |
| DownEvents.CodeBlockEvents | Core/Sources/Core/Rendering/DownHTMLVisitor.swift:111-178 | every span a code block emits is closed again, properly nested |
| DownEvents.FencedCodeBlock | Core/Sources/Core/Rendering/DownHTMLVisitor.swift:116-165 | a fenced block emits the opening fence to its line's end, a content span exactly when a line lies between the fences, the closing fence, and an info span one level deeper exactly when the language is non-empty, placed right after the fence and as wide as the language's UTF-8 bytes |
| DownEvents.FencedHighlightKept | Core/Sources/Core/Rendering/DownHTMLVisitor.swift:137-147 | highlighted lines are recorded only for a fenced block with content lines and only when the highlighter answers, covering exactly those lines |
| DownEvents.IndentedCodeBlock | Core/Sources/Core/Rendering/DownHTMLVisitor.swift:166-177 | a block without a fence is one span from its start to the end of its last code line, with no highlighted lines |
| DownEvents.CollectBalanced | Core/Sources/Core/Rendering/DownHTMLVisitor.swift:60-286 | every span the collector emits for a tree is opened and closed once, with one class and depth, properly nested |
| DownEvents.ContainerEvents | Core/Sources/Core/Rendering/DownHTMLVisitor.swift:201-224 | a ranged container opens at its start and closes one column past its end, around its children's events one level deeper |
| DownEvents.UnrangedAddsNothing | Core/Sources/Core/Rendering/DownHTMLVisitor.swift:201-230 | a node without a source range adds no span of its own, only its children's |
| DownTable.TextsRenderEscaped | Core/Sources/Core/Rendering/DownHTMLVisitor.swift:406-418 | stripped of markup, the written pieces are the source text they show, escaped, in order |
| DownTable.RemoveLast | Core/Sources/Core/Rendering/DownHTMLVisitor.swift:427-431 | closing an absent class leaves the open spans alone; closing a present one removes exactly one entry |
| DownTable.RemoveLastAt | Core/Sources/Core/Rendering/DownHTMLVisitor.swift:427-431 | the entry removed is the last occurrence of the class |
| DownTable.HighlightedLineFirst | Core/Sources/Core/Rendering/DownHTMLVisitor.swift:438-453 | the first code block covering a line decides: its highlighted line for that line, or none when it has too few lines |
| DownTable.HighlightedLineNone | Core/Sources/Core/Rendering/DownHTMLVisitor.swift:438-453 | a line no code block covers has no highlighted line |
| DownTable.ReopensShow | Core/Sources/Core/Rendering/DownHTMLVisitor.swift:339-341 | reopening the carried spans writes one open tag per span and no text |
| DownTable.UnwindsShow | Core/Sources/Core/Rendering/DownHTMLVisitor.swift:373 | unwinding writes one close tag per span still open and no text |
| DownTable.RowConsumes | Core/Sources/Core/Rendering/DownHTMLVisitor.swift:331-376 | a row writes the tags of exactly the remaining events of its line, in order, and stops at the first event of another line |
| DownTable.RowBalanced | Core/Sources/Core/Rendering/DownHTMLVisitor.swift:331-376 | a row closes every span it opens, reopened ones included, plus one per close event whose class was not open |
| DownTable.RowShows | Core/Sources/Core/Rendering/DownHTMLVisitor.swift:331-376 | a row with a highlighted line shows that HTML and no source text; any other row shows its whole source line; the row markup carries the 1-based line number |
| DownTable.LineCountSpec | Core/Sources/Core/Rendering/DownHTMLVisitor.swift:321-325 | one row per newline plus one for a last line without a newline, never more rows than split pieces |
| DownTable.RenderRows | Core/Sources/Core/Rendering/DownHTMLVisitor.swift:316-380 | the row loop writes the table's opening markup and then every row in turn, each starting where the previous left the events and open spans |
| DownTable.ApplyEventsAsTableLoop | Core/Sources/Core/Rendering/DownHTMLVisitor.swift:316-380 | the loop written as the source writes it produces the table of rows between the table markup |
| DownTable.TableWritesEveryEvent | Core/Sources/Core/Rendering/DownHTMLVisitor.swift:316-380 | for sorted events that all lie on lines of the table, the table writes every event's tag exactly once, in order |
| DownTable.TableShowsSource | Core/Sources/Core/Rendering/DownHTMLVisitor.swift:358-363 | without highlighted code the table shows the whole source text, line by line, without the newlines |
| DownTable.HighlightWritesEverySpan | Core/Sources/Core/Rendering/DownHTMLVisitor.swift:14-27 | when every collected span lies on a source line, the Down view writes every span's tags in sorted order, and the sorted events are a sorted permutation of the collected ones |
| DownTable.ContentText | Core/Sources/Core/Rendering/DownHTMLVisitor.swift:384-420 | a line's content shows the rest of the line from the current column, in full and in order, and no raw HTML, whatever events interleave |
| DownTable.ContentConsumes | Core/Sources/Core/Rendering/DownHTMLVisitor.swift:384-420 | the content walk writes the tags of exactly the next events of its line that lie within it, and stops at the first event of another line or past the line's end |
| DownTable.TagsConsume | Core/Sources/Core/Rendering/DownHTMLVisitor.swift:366-370 | the tag walk writes exactly the next events of its line within the column bound, no text, and stops at the first that is not |
| DownTable.RowsBalanced | Core/Sources/Core/Rendering/DownHTMLVisitor.swift:339-373 | all rows together close every span they open, plus one per close event whose class was not open |
| DownTable.RowsShowSource | Core/Sources/Core/Rendering/DownHTMLVisitor.swift:358-363 | with no highlighted lines, the first k rows show the first k source lines' text, in order |

## Left out

- Markdown parsing (swift-markdown) is not modelled: the tree arrives as a `Markup.Node` value, and the parser as a function from text to tree.
- The DocC `Aside` recogniser is a parameter. `MudCore.Sound` asks only that it never returns more content than it was given, which the recursion of the Up walk needs.
- MudCore.OutlineMatchesBody also asks of the aside recogniser (`UpHeadingIds.AsidesKeepHeadings`) that the content it hands back holds the quote's headings, in order. The recogniser is swift-markdown code and is not modelled, so this is an assumption about it, not a proof.
- The highlight.js engine behind `CodeHighlighter` is a parameter. Its JavaScriptCore context and lock are not modelled.
- Bundle resources are parameters: the alert icons, the emoji alias table and the CSS/JS files (`HtmlTemplate.Resources`).
- Parent-link queries (`nodeDepth`, "paragraph inside a list item") become depth and parent flags passed down the walk.
- Unicode case mapping is modelled for ASCII only.
- SlugGenerator.Strip: the regular-expression classes of `slugify` are instantiated as follows. `\w` is ASCII letters, digits and `_`, plus every character from U+0080 up. `\s` is ASCII white space. ICU's `\w` is narrower above ASCII: it leaves out punctuation such as ’ (U+2019) and — (U+2014), so for `Don’t panic` the source gives `dont-panic` and the model gives `don’t-panic`. ICU's `\s` and `.whitespaces` also take U+00A0 and other Unicode spaces as white space, which the model keeps as word characters. Slugs of headings with such characters differ.
- Slug uniqueness is not claimed. The tracker does not guarantee it: "A", "A", "a-1" give "a", "a-1", "a-1".
- Down view bytes: a source line is modelled as a string with one character per UTF-8 byte, so a column is an index plus one.
- Text is read one Unicode code point at a time. Swift's `String` works on `Character`s (extended grapheme clusters), where `\r\n` is one `Character` and a combining mark joins the character before it. The members below differ from the source on such text.
- DownTable.TextsRenderEscaped: the source escapes each segment of a line as a `String` of `Character`s, so a special character followed by a combining mark (`a<\u{338}b`) is copied unchanged there; the model escapes the byte `<` and writes `a&lt;` followed by the mark's bytes.
- DownTable.TableShowsSource: for the same reason the escaped source text the table shows differs from the source's on lines where `&`, `<`, `>` or `"` carries a combining mark.
- HtmlEscaping.Escape: the source compares whole `Character`s, so a special character followed by a combining mark (`<\u{338}`, `"\u{301}`) is one non-special `Character` and is copied unchanged. The model escapes the special code point. The contract that the output never holds `<`, `>` or `"` is a property of the model; the source does not have it on such input.
- HtmlLineSplitter.LineCount: the source's `html[i] == "\n"` does not match the `\r\n` `Character`, so a CRLF line break does not split there. The model splits at every `\n`.
- DownTable.LineCountSpec: `split(separator: "\n")` and `hasSuffix("\n")` do not match `\r\n` in the source, so CRLF text is one row there. The model counts rows at every `\n`.
- DownEvents.IndentedCodeBlock: `filter { $0 == "\n" }` counts no `\r\n` line breaks in the source; the model counts each `\n`, so for CRLF code blocks the span ends on a different line.
- `SpanEvent` fields are `Int32` in the source and unbounded integers here. Real documents stay far below the bound.
- DownEvents.Sort is an insertion sort. Swift's sort is not stable, so tied events may come out in another order. The row-emission theorems hold for every sorted order, not just this one.
- DownTable.TableWritesEveryEvent asks that every event lie on a line of the table. The collector meets this for ranges the parser produces, but that is not proved, because the parser is a parameter.
- DownTable.ApplyEventsAsTableLoop computes the per-line highlighted HTML before the loop rather than inside it. This is the same value, since `highlightedLine` is pure.
- The Up visitor does not call `EmojiShortcodes`, as in the source; the replacement is modelled on its own.
- Floating point is not modelled: zoom arithmetic, and the colour channels' division by 255. Hex colours are modelled as byte channels, and `clamped(to:)` over integers.
- `Lighting`'s system appearance, `NSApp` and the SwiftUI colour scheme environment are parameters.
- Combine publishers and `deferMutation` are not modelled. The find bar's synchronous bodies are modelled, and `UUID()` is a counter that yields a fresh value.
- ImageDataUri.Encode: path resolution against the base URL, `pathExtension`, the file read and base64 are parameters.
- Cli.Run: reading a file and reading standard input are one `read` parameter, so a missing file and an unreadable one are the same failure.
- Cli.Run: temporary file paths, opening the browser, and messages on standard error are not modelled. An opened browser is recorded as the list of documents it was given.
- Cli.Run: the help, usage and version texts are not modelled; only the exit codes of those paths are.
- Cli.Run: the newline `printToStdout` adds after each document is not modelled.
- Cli.Run: the warning printed for fragment output goes to standard error and is not modelled.
- Cli.Run: `launchedViaSymlink`, the standard-input probe `hasStdin`, `stdinToTempFile` and `openInApp` are not modelled. Which files to render is an input.
- Cli.Run calls `renderUpToHTML`, which `MudCore` does not define. It is modelled as `renderToHTML` with no base URL and no resolver.
- Cli.Run sees the library through the `Api` record of entry points. The `Cli.Library*` lemmas prove that `MudCore`'s functions meet what `Cli` assumes of them.
- The UI layer is not modelled: SwiftUI/AppKit views and controllers, WebKit, the DOM scripts, the file watcher, the local-file URL scheme handler and the command-line installer.
- `parseProperties` is not modelled: it scans theme CSS with regular expressions.
