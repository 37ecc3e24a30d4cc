# CampBot: route documents and text processors

CampBot is a maintenance bot for the camptocamp.org wiki. It fetches documents,
runs text processors over the Markdown fields of each language version
("locale") of a document, and saves the documents that changed. This project
models two parts of it and proves properties of both.

**The route documents** (`objects.dfy`, module `Objects`):

- `Route` is a class. Its field `locales` is a sequence of maps from field
  name to text.
- `FixMarkdown` runs a corrector over the five text fields of every locale, in
  place. It reports whether anything changed.
- `GetLocale` finds the first locale of a language.
- `BotObject.ConvertList` and `BotObject.ConvertDict` replace a list or
  dictionary entry by the objects a constructor makes of its elements.

**The text processors** the corrector is built from. Each is a pure function
`Modify(s: string): string`:

| module | what it does |
|---|---|
| `LtagMigrator` | Rewrites relative `L#` row numbers (an empty token, `+`, `+N`, `-+N`, `+A-+N`) as absolute numbers. It carries the previous number from row to row. |
| `LtagCleaner` | Joins continuation lines to their `L#` row. It collapses runs of bar and double-colon separators to one bar and leaves `[[…]]` links intact. |
| `MarkdownCleaner` | Squeezes runs of blank lines and trims blank lines at both ends. It puts exactly one space after a heading's hashes. |
| `InternalLinkCorrector` | Removes `http://www.camptocamp.org/` or a leading `/` from an internal link target. |
| `ColorAndUnderlineRemover` | Deletes `[u]`, `[/u]`, `[color=…]` and `[/color]`. |
| `MultiplicationSign` | Rewrites `2*50`, `2 x 50` and `2X50` as `2×50`. |
| `SpaceBetweenNumberAndUnit` | Puts a space between a number and its unit (`6h` becomes `6 h`). |
| `FixedCorrections` | The multiplication-sign processor followed by the unit-spacing processor, as the corrections are chained. |
| `BBCodeRemover` | Translates the simple BBCode tag pairs (`b`, `i`, `sub`, `sup`, `s`, `email`, `url`) into Markdown or HTML. |

The sources of the processors are not part of this model. Each processor is
rebuilt from the input/output examples in the repository's two test files.
Every example of the modelled processors is stated as a lemma, except those
listed under "## Left out", next to general lemmas about the processor.

Shared modules:

- `Text`: character classes, cutting a text into lines (`Lines`/`Join`, both
  round trips proved) and deletion (`IsSubseq`).
- `Rewriting`: a left-to-right scan of a text by a rule, in the manner of
  `re.sub`. It comes with lemmas that let a long text be handled piece by piece.
- `Wrappers`: `Option`.

Where the tests pin a behaviour other than the obvious reading, the model
follows the tests:

- A relative range `-+N` after row `p` becomes `p+1` to `p+1+N`
  (tests/test_processors.py:89-93). It is not `p+1` to `p+N`.
- `LtagCleaner` does not keep the number of cells of a row. Doubled
  separators `||` and `||||` collapse into one (tests/test_processors.py:42-43),
  and a blank after an unnumbered marker becomes a separator, so `L#{} 1:2`
  gains a cell (tests/test_processors.py:45-46). No lemma counts the cells
  as written. `BodyKeepsCells` keeps the cells as `Segs` cuts them, where a
  whole run of separators is one boundary.
- `MultiplicationSign` on its own also separates a unit `m` written right
  after the second number (campbot/tests/test_processors.py:336-337).

## Model

| member | source | states |
|---|---|---|
| Objects.BotObject.constructor | campbot/objects.py:7-8 | The object holds exactly the given entries. |
| Objects.Route.constructor | campbot/objects.py:7-8 | The route holds exactly the given locales. |
| Objects.Route.FixMarkdown | campbot/objects.py:42-51 | Every locale becomes its corrected form: its five text fields are visited in order, and each non-empty one is replaced by one corrector call on the locale as it then stands. The result is true exactly when some locale changed. |
| Objects.Route.FixLocaleAt | campbot/objects.py:45-49 | The inner loop: only locale `i` changes, and it becomes its corrected form. The flag is true exactly when that locale differs from before. |
| Objects.FixFieldsFrame | campbot/objects.py:45-46 | Visiting fields keeps the key set. A key that is not visited keeps its value. An empty field stays empty, so it never reaches the corrector. |
| Objects.OnlyTextFieldsChange | campbot/objects.py:44-45 | After the pass there are as many locales, each with the same keys. Every key other than the five text fields keeps its value. |
| Objects.StillAfter | campbot/objects.py:45-49 | A field is not touched again once the loop has moved past it. |
| Objects.CorrectedOnce | campbot/objects.py:46-49 | A non-empty field ends as exactly one corrector call on its original text. That call sees the field name and the locale with the earlier fields already rewritten. An empty field stays as it was. |
| Objects.TextFieldCorrectedOnce | campbot/objects.py:44-49 | The same, for each of the five fields of a route locale. |
| Objects.IdentityFixes | campbot/objects.py:47-49 | A corrector that returns its text unchanged leaves a locale as it is. |
| Objects.IdentityChangesNothing | campbot/objects.py:47-51 | With such a corrector the whole list of locales is unchanged. By the contract of `FixMarkdown`, the pass then reports false. |
| Objects.ChangedWhenSomeFieldDiffers | campbot/objects.py:47-51 | After the first `j` fields, a locale differs from the original exactly when, for some visited non-empty field, the corrector returned a text other than the one it was given. |
| Objects.LocaleChangedWhenSomeFieldDiffers | campbot/objects.py:44-51 | A route locale changes exactly when one of its five fields is corrected to a different text. |
| Objects.Route.GetLocale | campbot/objects.py:53-56 | None exactly when no locale has the language. Otherwise the result is a locale of that language, and no earlier locale has it. |
| Objects.MapList | campbot/objects.py:17-18 | Same length, and element `k` is the constructor applied to element `k`. |
| Objects.MapDict | campbot/objects.py:20-21 | Same keys, and the value under each key is the constructor applied to the old value. |
| Objects.BotObject.ConvertList | campbot/objects.py:17-18 | The entry `name` becomes the list of converted elements. Every other entry is unchanged. |
| Objects.BotObject.ConvertDict | campbot/objects.py:20-21 | The entry `name` becomes the dictionary of converted values. Every other entry is unchanged. |
| LtagMigrator.ValueStr | tests/test_processors.py:86-93 | A number written in decimal reads back as the same number. |
| LtagMigrator.SettledStart | tests/test_processors.py:80-87 | The tokens left as written are exactly those that start with `=`, `~`, `bis` or a digit. |
| LtagMigrator.ParseLocal | tests/test_processors.py:92-93 | A token ends at a line break, a bar, a blank or the end of the text. What follows the token does not change it, so the cell text after it is kept. |
| LtagMigrator.UnnumberedRow | tests/test_processors.py:86-87 | A row without a token is numbered one after the previous row, and numbering goes on from that number. |
| LtagMigrator.StepRow | tests/test_processors.py:86-87 | `+N` numbers the row N after the previous row, and `+` alone one after it. Numbering goes on from the new number. |
| LtagMigrator.NumberedRow | tests/test_processors.py:86-87 | A row given by its number keeps it as written. The next rows count on from it, and a `bis` met before it is still remembered. |
| LtagMigrator.SpanRow | tests/test_processors.py:89-93 | `-+N` after row `p` becomes the range `p+1` to `p+1+N`, and numbering goes on from `p+1+N`. |
| LtagMigrator.StepSpanRow | tests/test_processors.py:89-90 | `+K-+N` after row `p` becomes the range `p+K` to `p+K+N`, and numbering goes on from `p+K+N`. |
| LtagMigrator.ResetRow | tests/test_processors.py:80-81 | `=` is kept and starts a new table: the next row is 1, and an earlier `bis` no longer counts. |
| LtagMigrator.FreeRow | tests/test_processors.py:80-81 | `~` is kept and leaves the numbering and the `bis` state as they were. |
| LtagMigrator.RepeatRow | tests/test_processors.py:80-84 | `bis` is kept, leaves the numbering as it was, and is remembered until the next `=`. |
| LtagMigrator.BlockedFrom | tests/test_processors.py:83-84 | Once a `bis` has been met, a relative token before the next `=` makes the migration fail. |
| LtagMigrator.RepeatThenRelative | tests/test_processors.py:83-84 | A text where a `bis` marker is followed by a relative token, with no `L#=` between them, is left unchanged. |
| LtagMigrator.PlainStep | tests/test_processors.py:92-93 | Text without a marker is copied and the row number is carried on. |
| LtagMigrator.SettledUnchanged | tests/test_processors.py:80-84 | A text whose markers all carry settled tokens is left unchanged, whatever the state. |
| LtagMigrator.MigrateSettles | tests/test_processors.py:80-93 | A migrated text has no relative token left. |
| LtagMigrator.ModifyIdempotent | tests/test_processors.py:76-99 | Migrating twice is migrating once. |
| LtagMigrator.MigrateLayout | tests/test_processors.py:80-93 | On a text cut at its markers, the character-by-character migration equals the marker-by-marker one. |
| LtagMigrator.EmptyToken | tests/test_processors.py:86 | No token is read as a step of 1. |
| LtagMigrator.PlusToken | tests/test_processors.py:86 | `+` is read as a step of 1. |
| LtagMigrator.PlusTwoToken | tests/test_processors.py:86 | `+2` is read as a step of 2. |
| LtagMigrator.SixToken | tests/test_processors.py:86 | `6` is read as the absolute number 6. |
| LtagMigrator.ResetToken | tests/test_processors.py:80 | `=` is read as a table reset. |
| LtagMigrator.FreeToken | tests/test_processors.py:80 | `~` is read as a free row. |
| LtagMigrator.RepeatToken | tests/test_processors.py:80 | `bis` is read as a repeated row. |
| LtagMigrator.SpanOneToken | tests/test_processors.py:89 | `-+1` is read as a step of 1 and a span of 1. |
| LtagMigrator.SpanSevenToken | tests/test_processors.py:92 | `-+7` is read as a step of 1 and a span of 7. |
| LtagMigrator.StepSpanToken | tests/test_processors.py:89 | `+1-+1` is read as a step of 1 and a span of 1. |
| LtagMigrator.ResetAndRepeat | tests/test_processors.py:80-81 | Example: rows after a reset are numbered 1 and 2, and `=`, `bis` and `~` are kept. |
| LtagMigrator.RepeatBlocks | tests/test_processors.py:83-84 | Example: an unnumbered row after `bis` leaves the text unchanged. |
| LtagMigrator.RelativeRows | tests/test_processors.py:86-87 | Example: rows numbered 1, 3, 4, 6, 8, 9 and 10 from empty, `+2`, empty, `6`, `+2`, `+` and empty tokens. |
| LtagMigrator.RangeRows | tests/test_processors.py:89-90 | Example: ranges `2-3` and `4-5`. |
| LtagMigrator.RangeInCell | tests/test_processors.py:92-93 | Example: `-+7` becomes `1-8`, the cell text is kept, and the next row is 9. |
| LtagCleaner.BodySep | tests/test_processors.py:42-43 | A run of separators becomes one bar. |
| LtagCleaner.BodyLink | tests/test_processors.py:57-58 | A link at the start is copied whole, and cleaning goes on after it. |
| LtagCleaner.BodyIdempotent | tests/test_processors.py:42-52 | Cleaning a row's cells twice is cleaning them once. |
| LtagCleaner.BodyKeepsCells | tests/test_processors.py:42-52 | Cleaning keeps the cells, their number and their text, where each run of separators counts as one boundary. Only the separators between them change. |
| LtagCleaner.BodyKeepsLinks | tests/test_processors.py:57-58 | Links are copied as they are, in order: none is lost, changed or made. |
| LtagCleaner.BodyCells | tests/test_processors.py:42-52 | Cells written with separator runs are cleaned to the same cells with one bar between two of them. |
| LtagCleaner.BodyLinkThen | tests/test_processors.py:57-58 | A closed link `[[u]]` is copied, bars and colons included. |
| LtagCleaner.TidyIs | tests/test_processors.py:33-52 | Take a row of marker, token, blanks, first separator run, then the rest. The token and blanks are kept, the first run becomes one bar, and the rest is cleaned. |
| LtagCleaner.TidyPostfix | tests/test_processors.py:62-73 | Row cleaning for any numbering postfix: a row written as cells is cleaned to the same cells separated by single bars. |
| LtagCleaner.TidyKeepsToken | tests/test_processors.py:62-73 | A cleaned row keeps its marker and numbering token, and stays a row of the same kind (free or not). |
| LtagCleaner.TidyKind | tests/test_processors.py:15-19 | A cleaned row is still a row. A line that is not a row is left unchanged. |
| LtagCleaner.TidyIdempotent | tests/test_processors.py:33-52 | Cleaning a row twice is cleaning it once. |
| LtagCleaner.TidyOneLine | tests/test_processors.py:10-73 | Cleaning a row adds no line break. |
| LtagCleaner.GlueKeepsRow | tests/test_processors.py:21-25 | Joining a continuation line keeps the row as a prefix, and keeps its kind. |
| LtagCleaner.MergeMerged | tests/test_processors.py:21-31 | After joining, no row is followed by a line that would continue it. |
| LtagCleaner.MergeOfMerged | tests/test_processors.py:15-19 | Lines where no row has a continuation are left unchanged. |
| LtagCleaner.MergeIdempotent | tests/test_processors.py:21-31 | Joining twice is joining once. |
| LtagCleaner.CleanMerged | tests/test_processors.py:21-31 | After both passes, no line continues a row. |
| LtagCleaner.CleanIdempotent | tests/test_processors.py:10-73 | Both passes twice are both passes once, on lines. |
| LtagCleaner.CleanOneLine | tests/test_processors.py:10-73 | The cleaned lines hold no line break. |
| LtagCleaner.ModifyJoin | tests/test_processors.py:10-73 | The cleaner applied to lines put together is those lines cleaned and put together. |
| LtagCleaner.ModifyIdempotent | tests/test_processors.py:10-73 | Cleaning a text twice is cleaning it once. |
| LtagCleaner.ModifyWithoutRows | tests/test_processors.py:10-73 | A text with no `L#` row is left unchanged. |
| LtagCleaner.ListedArePostfixes | tests/test_processors.py:62-64 | Every numbering postfix of the examples satisfies `Postfix`, so each example lemma covers it. |
| LtagCleanerExamples.SeparateRows | tests/test_processors.py:15-16 | Example, for every postfix: two rows, a blank line and a paragraph are left unchanged. |
| LtagCleanerExamples.RowsAroundBlank | tests/test_processors.py:18-19 | Example, for every postfix: rows separated by a blank line are not joined. |
| LtagCleanerExamples.BrokenCell | tests/test_processors.py:21-22 | Example, for every postfix: a continuation line is joined with `<br>`. |
| LtagCleanerExamples.BrokenAtBar | tests/test_processors.py:24-25 | Example, for every postfix: a break next to a bar is joined directly. |
| LtagCleanerExamples.MarkerInCell | tests/test_processors.py:27-28 | Example, for every postfix: `L#` inside a cell starts nothing, and a digit line is joined with `<br>`. |
| LtagCleanerExamples.JoinedBeforeParagraph | tests/test_processors.py:30-31 | Example, for every postfix: joining stops at a blank line. |
| LtagCleanerExamples.ColonsBeforeHeading | tests/test_processors.py:33-34 | Example, for every postfix: colon separators become bars, and a heading is not joined. |
| LtagCleanerExamples.BarAfterBlank | tests/test_processors.py:36-37 | Example, for every postfix: a double colon after a bar becomes a bar. |
| LtagCleanerExamples.LeadingColon | tests/test_processors.py:39-40 | Example, for every postfix: a first colon becomes a bar. |
| LtagCleanerExamples.SeparatorRuns | tests/test_processors.py:42-43 | Example, for every postfix: runs collapse to one bar, and a single `:` inside a cell stays. |
| LtagCleanerExamples.MissingBar | tests/test_processors.py:45-46 | Example, for every postfix: a bar is put in after the blank that follows the token. |
| LtagCleanerExamples.BarThenColons | tests/test_processors.py:48-49 | Example, for every postfix: a double colon after the first bar becomes a bar. |
| LtagCleanerExamples.MixedSeparators | tests/test_processors.py:51-52 | Example, for every postfix: mixed runs collapse, and blank cells and single colons stay. |
| LtagCleanerExamples.FreeTextAny | tests/test_processors.py:54-55 | For any one-line text after `L#~`, the next line is joined with `<br>` and the separators are left alone. |
| LtagCleanerExamples.FreeText | tests/test_processors.py:54-55 | Example: the free-text row of the test. |
| LtagCleanerExamples.LinkKept | tests/test_processors.py:57-58 | Example, for every postfix: the bar inside an internal link is kept. |
| MarkdownCleaner.HeadingText | tests/test_processors.py:309-310 | A heading keeps its hashes and its text, with exactly one space between them. A line without hashes, or with nothing after them, is unchanged. |
| MarkdownCleaner.HeadingSpaced | tests/test_processors.py:309-310 | A cleaned heading is spaced. |
| MarkdownCleaner.SpacedUnchanged | tests/test_processors.py:309-310 | A spaced line is left alone. |
| MarkdownCleaner.HeadingIdempotent | tests/test_processors.py:309-310 | Fixing a heading twice is fixing it once. |
| MarkdownCleaner.HeadingKeepsLine | tests/test_processors.py:309-310 | A heading is blank exactly when the line is, and it stays on one line. |
| MarkdownCleaner.NotHeading | tests/test_processors.py:305-306 | A line that does not open with a hash is unchanged. |
| MarkdownCleaner.TrimLeading | tests/test_processors.py:305-306 | The result is a suffix that starts with a non-blank line, and only blank lines were dropped. |
| MarkdownCleaner.TrimTrailing | tests/test_processors.py:305-306 | The result is a prefix that ends with a non-blank line, and only blank lines were dropped. |
| MarkdownCleaner.SqueezeFacts | tests/test_processors.py:305-306 | After squeezing, no two blank lines follow each other. Every line comes from the input, and the first line is kept. |
| MarkdownCleaner.CleanFrom | tests/test_processors.py:300-316 | Every cleaned line is the heading form of an input line. |
| MarkdownCleaner.CleanCompact | tests/test_processors.py:305-306 | The cleaned lines have no double blank line and no blank line at either end. |
| MarkdownCleaner.CleanTidy | tests/test_processors.py:300-316 | The cleaned lines are compact and every heading is spaced. |
| MarkdownCleaner.CleanMarks | tests/test_processors.py:305-306 | The cleaning keeps every non-blank line, in order and in heading form. It also keeps whether a paragraph break comes before each line. |
| MarkdownCleaner.CompactDetermined | tests/test_processors.py:300-316 | A compact list of lines is determined by its non-blank lines and paragraph breaks. |
| MarkdownCleaner.CleanIdempotent | tests/test_processors.py:300-316 | Cleaning cleaned lines changes nothing. |
| MarkdownCleaner.CleanOneLine | tests/test_processors.py:300-316 | The cleaned lines hold no line break. |
| MarkdownCleaner.LinesOfModify | tests/test_processors.py:300-316 | The lines of the cleaned text are the cleaned lines, or the text is empty when no line is left. |
| MarkdownCleaner.ModifyIdempotent | tests/test_processors.py:300-316 | Cleaning a text twice is cleaning it once. |
| MarkdownCleaner.ModifyTidy | tests/test_processors.py:300-316 | A cleaned text is empty, or its lines are tidy and keep the non-blank lines and paragraph breaks of the original. |
| MarkdownCleaner.BlankRuns | tests/test_processors.py:305-306 | The first example, with any non-heading line in place of `x`. |
| MarkdownCleaner.BlankLines | tests/test_processors.py:305-306 | Example: blank runs shrink to one, and blank lines at both ends go. |
| MarkdownCleaner.HeadingSpaces | tests/test_processors.py:309-310 | Example: `#a`, `##  b` and `# c` get exactly one space after the hashes. |
| InternalLinkCorrector.OnlyDeletes | tests/test_processors.py:428-461 | The output is the input with some characters deleted. |
| InternalLinkCorrector.RuleKeepsOpener | tests/test_processors.py:428-461 | The rule fires only at `[`, and what it emits is always `[[`. |
| InternalLinkCorrector.TextWithoutBrackets | tests/test_processors.py:428-461 | Text without `[` is unchanged. |
| InternalLinkCorrector.SiteDropped | tests/test_processors.py:441-454 | The site address after `[[` is removed. |
| InternalLinkCorrector.SlashDropped | tests/test_processors.py:437-438 | A `/` after `[[` is removed. |
| InternalLinkCorrector.OpenerKept | tests/test_processors.py:433-434 | `[[` followed by something other than `/`, `[` or the site address is kept. |
| InternalLinkCorrector.RootedLink | tests/test_processors.py:437-438 | A `[[/…` link whose rest holds no `[` loses only the `/`. |
| InternalLinkCorrector.SiteLink | tests/test_processors.py:441-454 | A site-address link whose rest holds no `[` loses only the address. The path, trailing `/`, fragment, label and the text after `]]` are kept. |
| InternalLinkCorrector.NotIdempotent | tests/test_processors.py:428-461 | Counterexample: `[[//x` becomes `[[/x`, which a second run turns into `[[x`. |
| InternalLinkCorrector.NumericTarget | tests/test_processors.py:433-434 | Example: a numeric target is unchanged. |
| InternalLinkCorrector.RootedTarget | tests/test_processors.py:437-438 | Example: `[[/routes/…` becomes `[[routes/…`. |
| InternalLinkCorrector.ArticleLink | tests/test_processors.py:441-442 | Example: an article link becomes relative. |
| InternalLinkCorrector.RouteLink | tests/test_processors.py:445-446 | Example: a route link becomes relative, and the text after it is kept. |
| InternalLinkCorrector.ImageLink | tests/test_processors.py:449-450 | Example: an image link keeps its trailing `/`. |
| InternalLinkCorrector.AnchoredLink | tests/test_processors.py:453-454 | Example: a link with a `#` fragment keeps it. |
| ColorAndUnderlineRemover.OnlyDeletes | tests/test_processors.py:285-297 | The output is the input with some characters deleted. |
| ColorAndUnderlineRemover.PlainThen | tests/test_processors.py:290-291 | Text without `[` is copied, whatever follows it. |
| ColorAndUnderlineRemover.RuleDeletesAtBracket | tests/test_processors.py:285-297 | The rule fires only at `[`, and what it emits is always empty. |
| ColorAndUnderlineRemover.FixedTagDropped | tests/test_processors.py:290-291 | `[u]`, `[/u]` and `[/color]` are removed. |
| ColorAndUnderlineRemover.ColorTagDropped | tests/test_processors.py:290-291 | `[color=v]` is removed for any value `v` free of `]`. |
| ColorAndUnderlineRemover.ColoredPart | tests/test_processors.py:290-291 | A coloured word keeps its text, for any colour value free of `]`. |
| ColorAndUnderlineRemover.NotIdempotent | tests/test_processors.py:285-297 | Counterexample: `[[u]u]` becomes `[u]`, which a second run deletes. |
| ColorAndUnderlineRemover.UnderlinesAndColors | tests/test_processors.py:290-291 | Example: underlines and colours are removed and their text is kept. |
| MultiplicationSign.DigitsKept | campbot/tests/test_processors.py:331-341 | The processor keeps every digit of the text, in order. |
| MultiplicationSign.Times | campbot/tests/test_processors.py:336-337 | A number, an optionally spaced `*`/`x`/`X` and a number become the numbers joined by `×`, when no `m` follows. |
| MultiplicationSign.TimesMetres | campbot/tests/test_processors.py:336-337 | The same product directly followed by the unit `m` becomes `d1×d2 m`. |
| MultiplicationSign.QuietThen | campbot/tests/test_processors.py:331-341 | Text in which no product starts is copied, whatever follows it. |
| MultiplicationSign.QuietUnchanged | campbot/tests/test_processors.py:331-341 | Text in which no product starts is unchanged. |
| MultiplicationSign.ThreeRopes | campbot/tests/test_processors.py:336-337 | Example: the three spellings of a product become `2×50 m`. |
| MultiplicationSign.LongRope | tests/test_processors.py:341-342 | Derived from the chain example: this processor alone rewrites the products of the longer sentence and leaves the length `10-15m` alone. |
| MultiplicationSign.NotIdempotent | campbot/tests/test_processors.py:331-341 | Counterexample: `2x3x4` becomes `2×3x4`, which a second run turns into `2×3×4`. |
| SpaceBetweenNumberAndUnit.ModifyAppend | campbot/tests/test_processors.py:344-373 | The processor works on the two sides of a cut independently, where no rule can see across the cut. |
| SpaceBetweenNumberAndUnit.SpaceBeforeUnit | campbot/tests/test_processors.py:352-353 | A number directly followed by `km`, `min`, `mn`, `m` or `h` gets one space before the unit. An hour followed by minutes also gets one after. |
| SpaceBetweenNumberAndUnit.MarkerNumberKept | campbot/tests/test_processors.py:366-367 | The number of an `L#` marker is never separated from what follows it. |
| SpaceBetweenNumberAndUnit.PlainUnchanged | campbot/tests/test_processors.py:368-369 | Text with no marker and no digit followed by a unit letter is unchanged. |
| SpaceBetweenNumberAndUnit.InsertsOnlySpaces | campbot/tests/test_processors.py:344-373 | The processor only inserts spaces: removing every space from input and output gives the same text. |
| SpaceBetweenNumberAndUnit.DigitsKept | campbot/tests/test_processors.py:344-373 | Every digit of the text is kept, in order. |
| SpaceBetweenNumberAndUnit.ModifyFirst | campbot/tests/test_processors.py:344-373 | The output is empty only for empty input, and starts with the character the input starts with. |
| SpaceBetweenNumberAndUnit.UnitAtModify | campbot/tests/test_processors.py:344-373 | The processor keeps the unit, if any, that a text starts with. |
| SpaceBetweenNumberAndUnit.ModifyIdempotent | campbot/tests/test_processors.py:344-373 | Spacing a text twice is spacing it once. |
| SpaceBetweenNumberAndUnit.NumberUnit | campbot/tests/test_processors.py:360-365 | A text that is a number and its unit becomes the number, a space and the unit. |
| SpaceBetweenNumberAndUnit.MarkerKept | campbot/tests/test_processors.py:366-367 | A marker with its number, followed by plain text, is unchanged. |
| SpaceBetweenNumberAndUnit.TableCell | campbot/tests/test_processors.py:354-359 | A length in a row with an unnumbered marker gets its space. The bars and blanks around it are kept. |
| SpaceBetweenNumberAndUnit.HoursAndMinutes | tests/test_processors.py:371-372 | `dhm` becomes `d h m` for any digits `d` and `m`. |
| SpaceBetweenNumberAndUnit.EmptyText | campbot/tests/test_processors.py:348-349 | Example: the empty text is unchanged. |
| SpaceBetweenNumberAndUnit.Rope | campbot/tests/test_processors.py:350-351 | Example: lengths get their space, and `2x50` is left as it is. |
| SpaceBetweenNumberAndUnit.EveryUnit | campbot/tests/test_processors.py:352-353 | Example: each of the five units gets its space. |
| SpaceBetweenNumberAndUnit.TableCells | campbot/tests/test_processors.py:354-359 | Examples: lengths in table rows. |
| SpaceBetweenNumberAndUnit.HourAtLineEdges | campbot/tests/test_processors.py:360-365 | Examples: hours next to line breaks. |
| SpaceBetweenNumberAndUnit.Untouched | campbot/tests/test_processors.py:366-369 | Examples: `L#6h` and ` 6A ` are unchanged. |
| SpaceBetweenNumberAndUnit.LongRope | tests/test_processors.py:341-342 | Example: the second step of the chain on the longer sentence. |
| SpaceBetweenNumberAndUnit.Durations | tests/test_processors.py:371-372 | Example: durations get spaces on both sides of `h`. |
| FixedCorrections.DigitsKept | tests/test_processors.py:384-393 | The chain keeps every digit of the text, in order. |
| FixedCorrections.Ropes | tests/test_processors.py:335-336 | Example: the chain maps `2*50m, 2x50 m, 2X50 m` to `2×50 m, 2×50 m, 2×50 m`. |
| FixedCorrections.EmptyText | tests/test_processors.py:338-339 | Example: the empty text is unchanged. |
| FixedCorrections.LongRope | tests/test_processors.py:341-342 | Example: products and lengths of the longer sentence. |
| FixedCorrections.HoursAndMinutes | tests/test_processors.py:371-372 | Example: durations. |
| BBCodeRemover.Opened | campbot/tests/test_processors.py:143-148 | An opening `[b]`/`[i]` becomes `**`/`*`, placed after the white space that follows the tag. |
| BBCodeRemover.Closing | campbot/tests/test_processors.py:143-148 | A closing `[/b]`/`[/i]` becomes its mark, placed before the white space that precedes the tag. |
| BBCodeRemover.EmptyDropped | campbot/tests/test_processors.py:143-144 | An empty emphasis pair disappears. |
| BBCodeRemover.HtmlTag | campbot/tests/test_processors.py:263-273 | `[sub]`, `[sup]`, `[s]` and their closing tags become the HTML tags of the same name. |
| BBCodeRemover.HtmlPair | campbot/tests/test_processors.py:263-273 | A pair of these tags around plain text becomes the HTML pair around the same text. |
| BBCodeRemover.PlainThen | campbot/tests/test_processors.py:98-278 | Text without tags or movable white space is copied, whatever follows it. |
| BBCodeRemover.TextWithoutBrackets | campbot/tests/test_processors.py:98-278 | Text without `[` is unchanged. |
| BBCodeRemover.EmailLink | campbot/tests/test_processors.py:219-220 | `[email]a[/email]` becomes `[a](mailto:a)`. |
| BBCodeRemover.EmailTo | campbot/tests/test_processors.py:223-224 | `[email=a]t[/email]` becomes `[t](mailto:a)`. |
| BBCodeRemover.NamedLink | campbot/tests/test_processors.py:191-192 | `[url=a]t[/url]` becomes `[t](a)` when `a` is not empty. |
| BBCodeRemover.PlainBareLink | campbot/tests/test_processors.py:183-184 | `[url]u[/url]` becomes `u` and one space when `u` looks like an address. |
| BBCodeRemover.EmptyValueBareLink | campbot/tests/test_processors.py:179-180 | `[url=]u[/url]` becomes `u` and one space when `u` looks like an address. |
| BBCodeRemover.WordsBeforeTag | campbot/tests/test_processors.py:187-216 | Text without `[` is copied when a tag other than an emphasis closing tag follows it. |
| BBCodeRemover.NotAddressKept | campbot/tests/test_processors.py:251-252 | `[url]v[/url]` is left as it is when `v` does not look like an address. |
| BBCodeRemover.BareLinks | campbot/tests/test_processors.py:187-188 | Two bare links with text between them each become their address and a space. The text between them is kept. |
| BBCodeRemover.NamedLinks | campbot/tests/test_processors.py:195-196 | Two labelled links with text between them each become a Markdown link. The text between them is kept. |
| BBCodeRemover.BareThenNamed | campbot/tests/test_processors.py:199-200 | A bare link, text and a labelled link become the address and a space, the text, and a Markdown link. |
| BBCodeRemover.BareThenKept | campbot/tests/test_processors.py:203-204 | A bare link, text and a bare link that does not look like an address: only the first is rewritten. |
| BBCodeRemover.BoldAndItalic | campbot/tests/test_processors.py:143-144 | Example: bold and italic, the space moved out of the bold, and the empty italic removed. |
| BBCodeRemover.NestedBoldItalic | campbot/tests/test_processors.py:147-148 | Example: bold around italic gives three asterisks on each side. |
| BBCodeRemover.HtmlExamples | campbot/tests/test_processors.py:263-272 | Examples: `[sub]`, `[sup]` and `[s]`. |
| BBCodeRemover.MailLink | campbot/tests/test_processors.py:219-220 | Example: a mail link whose text is the address. |
| BBCodeRemover.MailLinkWithText | campbot/tests/test_processors.py:223-224 | Example: a mail link with its own text. |
| BBCodeRemover.GoogleBareLink | campbot/tests/test_processors.py:183-184 | Example: a bare link becomes its address and a space. |
| BBCodeRemover.ZoneBareLink | campbot/tests/test_processors.py:179-180 | Example: a bare link with an empty value becomes its address and a space. |
| BBCodeRemover.LabelledLink | campbot/tests/test_processors.py:191-192 | Example: a labelled link becomes a Markdown link. |
| BBCodeRemover.TwoBareLinks | campbot/tests/test_processors.py:187-188 | Example: two bare links around ` x `. |
| BBCodeRemover.TwoLabelledLinks | campbot/tests/test_processors.py:195-196 | Example: two labelled links around ` et ` (repeated at lines 243-244). |
| BBCodeRemover.BareAndLabelled | campbot/tests/test_processors.py:199-200 | Example: a bare link, ` and `, a labelled link (repeated at lines 247-248). |
| BBCodeRemover.BareAndNotAddress | campbot/tests/test_processors.py:203-204 | Example: a bare link, ` et `, and `[url]pas.touche.fr[/url]` left as it is. |
| BBCodeRemover.TwoQueryBareLinks | campbot/tests/test_processors.py:207-208 | Example: two bare links with query strings around ` x `. |
| BBCodeRemover.QueryLabelledLink | campbot/tests/test_processors.py:211-212 | Example: a labelled link whose address has a query string (repeated at lines 255-260). |
| BBCodeRemover.ShortLabels | campbot/tests/test_processors.py:215-216 | Example: two labelled links with short labels around ` et `. |
| BBCodeRemover.QueryBareLink | campbot/tests/test_processors.py:231-232 | Example: a bare link with a query string. |
| BBCodeRemover.BareAndWww | campbot/tests/test_processors.py:235-236 | Example: a bare link, ` x `, and a bare link starting with `www.`. |
| BBCodeRemover.OtherQueryLabelledLink | campbot/tests/test_processors.py:239-240 | Example: a labelled link with another query string. |
| BBCodeRemover.NotAddressLink | campbot/tests/test_processors.py:251-252 | Example: `[url]pas.touche.fr[/url]` is left as it is. |
| BBCodeRemover.CrlfBold | campbot/tests/test_processors.py:159-160 | Example: bold around a word between CRLF breaks; the marks go inside the breaks. |
| BBCodeRemover.NotIdempotent | campbot/tests/test_processors.py:98-278 | Counterexample: `[[b][/b]b]` becomes `[b]`, which a second run turns into `**`. |

## Left out

- The processor sources are not part of this model. Each processor is a rule
  chosen to agree with its examples; the code may differ on other texts.
- `UpperFix`, `RemoveColonInHeader` and `AutomaticReplacements` are not
  modelled. The two `UpperFix` test files disagree with each other, and it
  needs Unicode case mapping. The exclusion zones of `AutomaticReplacements`
  are pinned only loosely by its examples.
- FixedCorrections.Correct: the chain leaves out `UpperFix` (before) and
  `RemoveColonInHeader` (after). Only the chain examples those two leave as
  they are (tests/test_processors.py:335-342, 371-372) are stated for the
  chain. The unit examples of the chain are stated per processor on the
  older test file.
- BBCodeRemover: the rules for `[center]`, `[acr]`, `[hr]`, `[col]`,
  `<span>`, heading markers, `L#~` rows and `#t` forum links are not
  modelled, and neither are examples that mix them with emphasis.
- BBCodeRemover.NamedLink: the label of a link must hold no `[`. The source
  moves emphasis marks out of a label: `[url=http:google.fr][i]outside![/i][/url]`
  becomes `*[outside!](http:google.fr)*` (campbot/tests/test_processors.py:155-156).
  The model does not do this. It leaves the link tags as written and
  translates only the emphasis inside them.
- BBCodeRemover.LooksLikeAddress: stands in for the address heuristic. It
  accepts texts that start with `http://`, `https://` or `www.`. That covers
  every link example, including `www.google2.com` (accepted) and
  `pas.touche.fr` (refused). The source's own test may differ on other texts.
- LtagMigrator: the `bis` rule was chosen from the two examples at
  tests/test_processors.py:80-84, which are its only evidence. A relative
  token after a `bis` marker of the same table (tables are delimited by
  `L#=`) leaves the whole text unchanged.
- LtagCleaner.StartsBlock: which lines start something of their own (and so
  are not joined to a row) was chosen from the examples. It is a line
  starting with `#`, or whose second character is `#` (`L#`, `R#`, `##`).
- LtagCleaner.LinkLen: a `[[` link with no closing `]]` is protected to the
  end of its row.
- LtagCleanerExamples: each example is proved for every postfix that
  satisfies `Postfix` (no blank, bar, colon or line break, not starting with
  `~`). All postfixes of the test are shown to satisfy it.
- InternalLinkCorrector.NotIdempotent: the processors are designed to be
  idempotent, but this rule is not on texts such as `[[//x`, where a second
  `/` follows the one removed. The tests hold no such text.
- ColorAndUnderlineRemover.NotIdempotent: the processors are designed to be
  idempotent, but this rule is not on texts such as `[[u]u]`, where removing
  one tag joins the pieces of another. The tests hold no such text.
- MultiplicationSign.NotIdempotent: the processors are designed to be
  idempotent, but this rule is not on chained products such as `2x3x4`,
  where the second number cannot start the next product. The tests hold no
  such text.
- BBCodeRemover.NotIdempotent: the processors are designed to be
  idempotent, but this rule is not on texts such as `[[b][/b]b]`, where
  removing an empty pair leaves a new tag. The tests hold no such text.
- CRLF line endings: lines are cut at `\n` only.
- Objects: a `None` or other falsy field is modelled as the empty text.
- Objects: the corrector, and the constructors of `_convert_list` and
  `_convert_dict`, are function parameters. The `campbot` handle passed to
  the constructors is left out.
- Objects.Route.FixMarkdown: each locale is handed to the corrector as a
  value. The corrector is taken to be pure: it neither changes the locale it
  is given nor shares it with another locale, which Python's live
  dictionaries would allow.
- Objects.Route.GetLocale: a method that returns an `Option`; Python's
  implicit `None` is `None`.
- Objects.Route.FixMarkdown: requires the five text fields in every locale,
  where Python would raise `KeyError`. Objects.Route.GetLocale likewise
  requires a `lang` field in every locale.
- Attribute access through the dictionary (`__getattr__`/`__setattr__`) is
  not modelled: fields are plain maps.
- The network is not modelled: `save`, `get_contributions`,
  `get_last_contribution`, `get_wiki_user` and `get_voters`, and the `Post`
  and `Poll` constructors that only call the conversions on fetched data.
- The command line, packaging, documentation configuration and test
  fixtures are not modelled.
