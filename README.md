# YouTube metadata fetcher, modelled in Dafny

This project models the logic of an Obsidian plugin that fills in a note from the
YouTube Data API. The plugin has one command, `Fetch YouTube Video Info`. It reads the
video link from the note's `链接` frontmatter property, extracts the video ID and asks
the API for the video. It then does three independent best-effort steps, each behind
its own toggle:

- when `enableRenameNote` is on (the default), it renames the note after the sanitised
  video title;
- when at least one of the four frontmatter toggles is on, it writes author, upload
  date, description and duration into the frontmatter, each behind its own toggle
  (author and date are on by default);
- when `enableAddDescriptionToNoteContent` is on (off by default), it inserts a
  `## Video Description` section after the frontmatter block of the note's text, or at
  the start of the text when there is no such block.

The modules follow the parts of `main.js`:

- `Text`: the JavaScript string operations the plugin relies on: `trim` with the
  ECMAScript whitespace set, `split` and `join` on one character, decimal digits.
- `VideoId`: `extractVideoId`. The regex is a scanner over positions and the six literal
  prefixes. It is generic over the prefix table, and the concrete table is proved to be
  exclusive.
- `Filename`: `sanitizeFilename`.
- `Duration`: `formatDuration`, an unanchored `PT(\d+H)?(\d+M)?(\d+S)?`.
- `DateFormat`: the date-format chain inside the frontmatter callback.
- `Settings`: `DEFAULT_SETTINGS`, the `loadSettings` merge and the setting tab's
  one-key updates, as a `Plugin` class. It also has the typed view the command reads
  through JavaScript truthiness.
- `Frontmatter`: the `processFrontMatter` callback, as a `FrontMatter` class whose
  `Update` method writes into the map in place. It is proved against a sequence of
  planned writes.
- `Description`: the line scan for the closing `---` and the splice, as a method with
  the source's loop and `break`. It is proved against a function.
- `Command`: the `editorCallback`. It is a `Note` class and a method that changes it in
  place. The method is tied to a specification function `Run` over the host's and the
  network's outcomes, which are parameters.

Every lemma except the worked examples is stated for all inputs. The worked examples
(`Example*`, `Duration.MatchFull`, `Duration.MatchSeconds`, `Duration.MatchMinutes`
and `Filename.ReplaceColon`) pin the behaviour on concrete strings. Constants,
predicates, classes and functions that only compute have no contract of their own;
their rows below name the lemmas that specify them.

## Model

| member | source | states |
|---|---|---|
| Text.IsWhitespace | main.js:399 | the characters `trim` removes; specified through `TrimIsSlice` and `Filename.ReplaceKeepsWhitespace` |
| Text.LeadingSpace | main.js:399 | the whitespace run at the start, followed by a character that is not whitespace |
| Text.TrailingSpace | main.js:399 | the whitespace run at the end, preceded by a character that is not whitespace |
| Text.Trim | main.js:399 | `trim`; specified by `TrimIsSlice`, `TrimOfTrimmed` and `TrimIdempotent` |
| Text.Join | main.js:345-346 | `join` on one character; specified by `JoinSplit`, `SplitJoin` and `JoinAppend` |
| Text.DigitsValue | main.js:406-408 | `parseInt(_, 10)` of a digit string; specified by `DigitsValueSnoc` and `DigitsValueOfNatToString` |
| Text.TrimIdempotent | main.js:399 | trimming a trimmed string changes nothing |
| Text.TrimIsSlice | main.js:399 | the trimmed string is the slice after the leading whitespace, only whitespace follows it, and it neither starts nor ends with whitespace |
| Text.TrimOfTrimmed | main.js:399 | a string with no whitespace at either end is its own trim |
| Text.Split | main.js:329 | `split` gives at least one part and no part holds the separator |
| Text.JoinSplit | main.js:345-346 | joining the parts of a split with the same separator gives the string back |
| Text.SplitJoin | main.js:286 | splitting a join of separator-free parts gives the parts back |
| Text.JoinAppend | main.js:345-346 | the join of two non-empty stretches of lines is their joins around one separator |
| Text.SplitWithoutSeparator | main.js:286 | a string without the separator splits into itself alone |
| Text.SplitAtSeparator | main.js:286 | a separator-free head followed by the separator becomes the first part |
| Text.DigitsValueOfNatToString | main.js:406-409 | printing a natural in decimal and reading the digits back with `parseInt(_, 10)` gives the natural |
| Text.NatToString | main.js:409 | a natural prints as a non-empty digit string without a leading zero |
| Text.DigitsValueSnoc | main.js:406-408 | helper lemma, one unfolding of `DigitsValue`: one more digit multiplies the value by ten and adds the digit |
| VideoId.IsIdChar | main.js:392 | the class `[a-zA-Z0-9_-]`; specified through `ExtractIsId` |
| VideoId.PREFIXES | main.js:392 | the six literal prefixes of the alternation in the order the regex tries them; specified by `PrefixesExclusive` |
| VideoId.MatchWith | main.js:392 | alternative `k` matches at a position: its prefix is there and an ID character follows; the vocabulary of `SearchFinds` and `ExtractAtLeftmostMatch` |
| VideoId.MatchAt | main.js:392-393 | some alternative matches at a position; the vocabulary of `ExtractNoneIff` and `ExtractAtLeftmostMatch` |
| VideoId.FirstCapture | main.js:392-394 | the `match[1]` of the regex over any prefix table; specified by `CaptureIsId`, `CaptureAtLeftmostMatch` and `CaptureRun` |
| VideoId.ExtractVideoId | main.js:391-395 | `extractVideoId`; specified by `ExtractNoneIff`, `ExtractIsId`, `ExtractAtLeftmostMatch` and `ExtractRun` |
| VideoId.CaptureIsId | main.js:391-395 | a capture is a non-empty string of `[A-Za-z0-9_-]` characters |
| VideoId.ExtractIsId | main.js:391-395 | a non-null ID is non-empty and made of `[A-Za-z0-9_-]` characters only |
| VideoId.ExtractNoneIff | main.js:391-395 | the result is null exactly when no position holds a prefix followed by an ID character |
| VideoId.ExtractAtLeftmostMatch | main.js:391-395 | at the leftmost match, the ID is the non-empty maximal run of ID characters right after the prefix |
| VideoId.ExtractRun | main.js:391-395 | the ID is exactly the `n` characters after the leftmost prefix when they are ID characters and the next one is not |
| VideoId.CaptureAtLeftmostMatch | main.js:392-394 | for any exclusive prefix table, the capture at the leftmost match is the maximal, non-empty run after the prefix |
| VideoId.CaptureRun | main.js:392-394 | for any exclusive prefix table, the capture is the given maximal run after the leftmost prefix |
| VideoId.SearchFinds | main.js:393 | the search stops at the leftmost matching position, with the alternative that matches there |
| VideoId.Search | main.js:393 | a found position matches and no earlier position does; none found means no position matches |
| VideoId.FirstAlternative | main.js:392 | the alternative found matches; none found means no alternative matches at that position |
| VideoId.PrefixesExclusive | main.js:392 | no two of the six prefixes occur at the same position, so the order of the alternatives does not matter |
| VideoId.IdRun | main.js:392 | the length the greedy `([a-zA-Z0-9_-]+)` takes, which stays inside the string; specified further by `IdRunIsRun` and `RunIsIdRun` |
| VideoId.IdRunIsRun | main.js:392 | the greedy `+` takes a maximal run of ID characters |
| VideoId.RunIsIdRun | main.js:392 | a maximal run of ID characters is the one the greedy `+` takes |
| VideoId.ExampleWatch | main.js:391-395 | `youtube.com/watch?v=dQw4w9W&t=1` gives `dQw4w9W` |
| Filename.IsForbidden | main.js:399 | the ten characters of the regex class, the backslash included; specified through `ReplaceForbidden` and `SanitizeIsSafe` |
| Filename.ReplaceColon | main.js:399 | `Intro: Setup` becomes `Intro- Setup` under the replacement alone |
| Filename.Sanitize | main.js:397-400 | `sanitizeFilename`; specified by `SanitizeIsSafe`, `SanitizeKeepsOthers` and `SanitizeIdempotent` |
| Filename.ReplaceForbidden | main.js:399 | each of the ten class characters becomes `-`, every other character stays in place |
| Filename.SanitizeIsSafe | main.js:397-400 | the result holds no forbidden character and no whitespace at either end |
| Filename.SanitizeKeepsOthers | main.js:397-400 | the result is the slice of the title between whitespace-only ends, with forbidden characters read as `-` |
| Filename.ReplaceKeepsWhitespace | main.js:399 | the replacement never creates whitespace |
| Filename.ReplaceOfSafe | main.js:399 | a string without forbidden characters is left alone by the replacement |
| Filename.SanitizeIdempotent | main.js:397-400 | sanitising twice equals sanitising once |
| Filename.ExampleColon | main.js:397-400 | `Intro: Setup` becomes `Intro- Setup` |
| Duration.ReadGroups | main.js:404-408 | the three optional groups after `PT`, absent ones as 0; specified by `ReadGroupsOfComponents` |
| Duration.Render | main.js:409 | the template `{h}h {m}m {s}s`; specified by `RenderHasNoP` and `FormatOfNaturals` |
| Duration.MatchGroups | main.js:404-405 | the match of the unanchored regex and its groups; specified by `MatchGroupsIff`, `MatchAtFirstPT` and `MatchOfComponents` |
| Duration.FormatDuration | main.js:402-410 | `formatDuration`; specified by `FormatOfMatch`, `FormatUnchangedIff`, `FormatOfComponents` and `FormatOfNaturals` |
| Duration.FindPT | main.js:404 | the position found is the leftmost `PT`; none found means there is no `PT` |
| Duration.DigitRun | main.js:404 | `\d+` takes the maximal run of ASCII digits |
| Duration.Group | main.js:404-408 | an optional group either takes nothing or takes a run of digits and its designator, with the decimal value of the digits |
| Duration.GroupAbsent | main.js:404 | a group is skipped only when no run of digits at that point is followed by its designator |
| Duration.MatchGroupsIff | main.js:404-405 | the regex matches exactly when `PT` occurs in the input |
| Duration.MatchAtFirstPT | main.js:404-408 | the groups are read right after the first `PT` |
| Duration.FormatOfMatch | main.js:406-409 | helper lemma, one unfolding of `FormatDuration`: once matched, the output is `{h}h {m}m {s}s` of the captured values |
| Duration.FormatUnchangedIff | main.js:405 | the input comes back unchanged exactly when it contains no `PT` |
| Duration.RenderHasNoP | main.js:409 | the output format has no `P`, so it is never the input unchanged |
| Duration.GroupOfPart | main.js:404 | the group parser reads exactly a written group, or nothing when it is absent |
| Duration.NoGroupOfPart | main.js:404 | a group with another designator blocks this one |
| Duration.DigitRunOfPart | main.js:404 | the digit run of a group stops at its designator |
| Duration.ReadGroupsOfComponents | main.js:404-408 | the three groups of `[nH][nM][nS]` read their own values, absent ones as 0 |
| Duration.MatchOfComponents | main.js:404-408 | a well-shaped `PT[nH][nM][nS]` matches at its start with its components |
| Duration.FormatOfComponents | main.js:404-409 | formatting `PT[nH][nM][nS]` prints its values, absent ones as 0 |
| Duration.FormatOfNaturals | main.js:404-409 | printing naturals as a duration and formatting it gives the same naturals back |
| Duration.MatchFull | main.js:404-408 | `PT1H2M3S` captures 1, 2 and 3 |
| Duration.ExampleFull | main.js:402-410 | `PT1H2M3S` gives `1h 2m 3s` |
| Duration.MatchSeconds | main.js:404-408 | `PT45S` captures 0, 0 and 45 |
| Duration.ExampleSeconds | main.js:402-410 | `PT45S` gives `0h 0m 45s` |
| Duration.MatchMinutes | main.js:404-408 | `PT05M` captures 0, 5 and 0 |
| Duration.ExampleMinutes | main.js:402-410 | `PT05M` gives `0h 5m 0s` |
| DateFormat.PartOr | main.js:287 | `dateParts[i]` in a template; specified by `FormatWithoutHyphens` (a missing part prints as `undefined`) and `FormatOfDate` |
| DateFormat.Reorder | main.js:286-287 | the split prefix in a new order; specified by `SplitOfDate` and `FormatOfDate` |
| DateFormat.FormatDate | main.js:280-299 | the date-format chain; specified by `FormatOfDate`, `FormatOtherSelector` and `FormatWithoutHyphens` |
| DateFormat.Prefix10 | main.js:284 | `substring(0, 10)` is the first ten characters, or the whole string when it is shorter |
| DateFormat.SlashHyphens | main.js:292 | every hyphen becomes a slash, every other character stays |
| DateFormat.SplitOfDate | main.js:286 | the prefix of a `YYYY-MM-DD` timestamp splits into year, month and day |
| DateFormat.FormatOfDate | main.js:280-299 | the six selectors give `Y-M-D`, `M-D-Y`, `D-M-Y`, `Y/M/D`, `M/D/Y` and `D/M/Y` |
| DateFormat.FormatOtherSelector | main.js:281 | any other selector, `auto` included, returns the whole timestamp unchanged |
| DateFormat.FormatWithoutHyphens | main.js:286-298 | without hyphens in the prefix, the missing fields print as `undefined`, and the slash selector gives the prefix as it is |
| Settings.DEFAULT_SETTINGS | main.js:3-24 | the twelve default settings; specified through `DefaultConfig` and `Merge` |
| Settings.API_KEY | main.js:5 | the key `youtubeApiKey`; specified through `DefaultConfig` |
| Settings.DATE_FORMAT | main.js:8 | the key `dateFormat`; specified through `DefaultConfig` |
| Settings.AUTHOR_PROPERTY | main.js:11 | the key `authorPropertyName`; specified through `DefaultConfig` |
| Settings.DATE_PROPERTY | main.js:12 | the key `datePropertyName`; specified through `DefaultConfig` |
| Settings.DESCRIPTION_PROPERTY | main.js:13 | the key `descriptionPropertyName`; specified through `DefaultConfig` |
| Settings.DURATION_PROPERTY | main.js:14 | the key `durationPropertyName`; specified through `DefaultConfig` |
| Settings.RENAME_NOTE | main.js:17 | the key `enableRenameNote`; specified through `DefaultConfig` |
| Settings.UPDATE_AUTHOR | main.js:18 | the key `enableUpdateAuthor`; specified through `DefaultConfig` |
| Settings.UPDATE_DATE | main.js:19 | the key `enableUpdateDate`; specified through `DefaultConfig` |
| Settings.UPDATE_DESCRIPTION | main.js:20 | the key `enableUpdateDescription`; specified through `DefaultConfig` |
| Settings.UPDATE_DURATION | main.js:21 | the key `enableUpdateDuration`; specified through `DefaultConfig` |
| Settings.ADD_DESCRIPTION | main.js:22 | the key `enableAddDescriptionToNoteContent`; specified through `DefaultConfig` |
| Settings.Truthy | main.js:231 | JavaScript truthiness of a setting: `""` and `false` are falsy; the API-key condition of `Command.CheckAbortIff` and the value `DefaultConfig` gives |
| Settings.AsText | main.js:271-274 | `String(v)` of a setting used as a property name or a date format; specified through `DefaultConfig` |
| Settings.ConfigOf | main.js:230-322 | the settings the command reads, typed; specified by `DefaultConfig` |
| Settings.Merge | main.js:413 | the merge has every default key; each key takes the persisted value if present and the default otherwise; a null load gives the defaults |
| Settings.MergeOfSaved | main.js:413-418 | loading saved settings that hold every key gives them back |
| Settings.DefaultConfig | main.js:3-24 | with nothing persisted, the note is renamed, author and date are written under `Author` and `Date` in `YYYY-MM-DD`, and there is no API key |
| Settings.Plugin.Valid | main.js:413 | every default key is present, as `Object.assign` over the defaults leaves it; established by `LoadSettings` and kept by `SetSetting` |
| Settings.Plugin.CurrentConfig | main.js:230-322 | what the command reads from `this.settings`, through `ConfigOf`; specified by `DefaultConfig` |
| Settings.Plugin.LoadSettings | main.js:412-414 | `settings` becomes the merge, which holds every key |
| Settings.Plugin.SetSetting | main.js:47-49 | one key takes the new value, the others keep theirs, and every key stays present |
| Frontmatter.Guarded | main.js:276-278 | one `if (toggle) { fm[key] = value; }`: the write when the toggle is on, nothing otherwise; specified by `LastWriteGuarded` and `ApplyWritesGuarded` |
| Frontmatter.ApplyWritesGuarded | main.js:276-311 | helper lemma: one more guarded write updates its key when its toggle is on and changes nothing otherwise |
| Frontmatter.PlannedWrites | main.js:276-311 | the guarded `fm[key] =` assignments in program order; specified by `LastPlannedWrite` against the independent `EnabledValue` |
| Frontmatter.ApplyWrites | main.js:270-312 | the assignments one after the other; specified by `ApplyWritesAt` and `ApplyWritesSnoc` |
| Frontmatter.LastWrite | main.js:270-312 | no value exactly when no write names the key |
| Frontmatter.LastWriteIsLast | main.js:270-312 | the value is that of a write to the key after which the key is not written again |
| Frontmatter.ApplyWritesAt | main.js:270-312 | after the writes a key holds its last written value; a key never written keeps its value or stays absent |
| Frontmatter.ApplyWritesSnoc | main.js:276-311 | one more write at the end updates one key |
| Frontmatter.LastWriteAppend | main.js:276-311 | the last write to a key in two stretches is the second stretch's, if any |
| Frontmatter.LastPlannedWrite | main.js:276-311 | the last planned write to a key is the enabled one latest in the order author, date, description, duration |
| Frontmatter.UpdateResult | main.js:270-312 | only keys of enabled toggles are written, with channel title, formatted date, raw description and formatted duration; when names coincide the later write wins; every other key is unchanged |
| Frontmatter.UpdateDisabled | main.js:268 | with all four toggles off the map is unchanged |
| Frontmatter.FrontMatter.Update | main.js:270-312 | the map becomes the old map after the planned writes, in program order |
| Description.ClosingLine | main.js:329-341 | the index the loop stores in `frontmatterEndLine`, which lies after the first line and inside the text; specified further by `ClosingLineIsClosing` and `ClosingLineIsFirst` |
| Description.Splice | main.js:345-348 | the text with the section after line `j`; specified by `InsertAfterClosingLine` and `InsertAfterLastLine` |
| Description.InsertedContent | main.js:324-352 | the text given to `editor.setValue`; specified by `InsertWithoutFrontmatter`, `InsertAfterClosingLine` and `InsertAfterLastLine`, and computed by `InsertDescription` |
| Description.IsMarker | main.js:334-337 | a line that is `---` once trimmed; specified through `ClosingLineIsClosing` |
| Description.Block | main.js:324 | the section text `## Video Description`, the description and a `---` rule; specified through `InsertWithoutFrontmatter` and `InsertAfterClosingLine` |
| Description.FirstMarkerFrom | main.js:333-341 | the scan for the next line that trims to `---`, whose index lies inside the text; specified further by `FirstMarkerFromIsFirst` and `FirstMarkerFromNone` |
| Description.FirstMarkerFromIsFirst | main.js:333-341 | the marker found is a marker and no marker lies before it |
| Description.FirstMarkerFromNone | main.js:333-341 | no marker found means no line from there on is a marker |
| Description.ClosingLineIsClosing | main.js:333-341 | the closing line is a `---` after a `---` first line with none between; there is none exactly when the first line is not `---` or no later line is |
| Description.ClosingLineIsFirst | main.js:335-339 | the first `---` after a `---` first line is the closing line |
| Description.InsertDescription | main.js:322-352 | the loop with its `break` computes the inserted content |
| Description.InsertWithoutFrontmatter | main.js:327-351 | without a frontmatter block the section is prepended |
| Description.InsertAfterClosingLine | main.js:343-348 | the section goes right after the newline that ends the closing line, and removing it gives the text back |
| Description.InsertAfterLastLine | main.js:345-348 | when the closing line is the last line, the section is appended after a newline |
| Command.LINK_PROPERTY | main.js:215 | the property name `链接`; specified through `CheckAbortIff` |
| Command.Note | main.js:201 | the active file with its frontmatter and its text, changed in place by `FetchVideoInfo` |
| Command.Note.State | main.js:201 | the note's current snapshot; the state `FetchVideoInfo` and `ApplySteps` are stated in |
| Command.StateOf | main.js:201-206 | the snapshot of the active file, none for `null`; the state `FetchVideoInfo` is stated in |
| Command.AnyFrontmatterUpdate | main.js:268 | at least one of the four frontmatter toggles is on; specified through `StepsFields` |
| Command.LinkOf | main.js:215-220 | the `链接` property, none when it is absent or empty; specified through `CheckAbortIff` |
| Command.Check | main.js:201-234 | the five early returns; specified by `CheckAbortIff` |
| Command.NewFilename | main.js:255-256 | `sanitizedTitle + '.md'`; specified through `StepsFields` and `ExampleScenario` |
| Command.RenameStep | main.js:258-266 | the rename behind `enableRenameNote`, kept only when the host succeeds; specified through `StepsFields` |
| Command.FrontmatterStep | main.js:268-320 | the frontmatter write behind the four toggles, kept only when the host succeeds; specified through `StepsFields` and `Frontmatter.UpdateResult` |
| Command.ContentStep | main.js:322-361 | the content edit behind `enableAddDescriptionToNoteContent`, kept only when the editor update succeeds; specified through `StepsFields` and `Description.InsertDescription` |
| Command.Steps | main.js:255-361 | the three guarded steps; specified by `StepsFields`, `StepsIndependent` and `ApplySteps` |
| Command.Run | main.js:201-370 | the whole command; specified by `AbortBeforeRequest`, `NoDataNoChange`, `FirstItemOnly` and `FetchVideoInfo` |
| Command.CheckAbortIff | main.js:201-234 | the command stops before the request exactly when there is no active file, no frontmatter, no link, no video ID or no API key; otherwise it requests the extracted ID with the key |
| Command.AbortBeforeRequest | main.js:201-234 | a failed check makes no request and changes nothing |
| Command.NoDataNoChange | main.js:238-370 | a failed request or an empty item list changes nothing |
| Command.FirstItemOnly | main.js:245-246 | only the first item is read |
| Command.StepsFields | main.js:258-361 | helper lemma, one unfolding of `Steps`: each part of the note depends only on its own step's toggle and outcome |
| Command.StepsIndependent | main.js:258-361 | a failing rename, frontmatter write or content edit neither stops nor changes the other steps |
| Command.ApplySteps | main.js:255-361 | the note becomes the result of the three guarded steps |
| Command.FetchVideoInfo | main.js:200-371 | the status, the request and the note's new state are those `Run` gives for the note's old state |
| Command.ExampleScenario | main.js:215-260 | a `watch?v=` link and the title `Intro: Setup` request `dQw4w9W` and rename the note to `Intro- Setup.md` |

## Left out

- The settings tab UI (main.js:26-189) is widget wiring. Only its effect is kept, as
  `SetSetting`: one key takes a new value.
- The network request, the API URL, `response.ok` and `response.json()` (main.js:236-243)
  are I/O. Their outcome is the parameter `FetchResult`: a failure, or the list of items.
  The request is returned as its two parameters, the video ID and the key.
- `obsidian.Notice` and `console.error` are output only. `Status` covers the notices up
  to and including the request: the five early returns, the failed request and the
  empty item list. The notices inside the three steps (main.js:261, 264, 313, 316, 319,
  355 and 359) are not modelled: `Status` is `Processed` whatever the steps did. The
  informational notices at main.js:222 and main.js:253 are not modelled either.
- `renameFile`, `processFrontMatter` and `editor.getValue`/`setValue` are host calls.
  Each either succeeds as a whole or fails with no change, as `HostOutcomes` says.
  How the host resolves a path and writes YAML is not modelled. The rename sets the
  note's path to the new file name.
- The command runs as one atomic step on the note's state at its start. The source
  reads `this.settings` again after its `await`s (main.js:258, 268-309, 322) and reads
  `editor.getValue()` only at main.js:326, after the request, the rename and the
  frontmatter write. Settings changes and edits made while those are pending reach the
  note in the source; in the model they do not.
- The frontmatter and the text are separate fields of the note. That the host writes
  the frontmatter into the same file the editor shows is not modelled.
- Exceptions thrown inside the steps are covered by the failure outcomes. A missing
  `snippet` or `contentDetails` in an item, where the source throws, is not modelled:
  the item's fields are always strings.
- Frontmatter values other than strings (numbers, lists, a non-string `链接`) are not
  modelled. The frontmatter is a map from strings to strings.
- Persisted setting values are strings or booleans (`SettingValue`). `loadData` returns
  whatever JSON the data file holds, and `Object.assign` copies `null`, numbers or objects
  from a hand-edited file as they are. Their truthiness and their text are not modelled.
  The plugin itself only saves strings and booleans.
- The DOM click listener and the keep-alive interval (main.js:379-384) have no logic.
- `Duration.Group`: digit groups are unbounded naturals. `parseInt` loses precision on
  very long digit strings, because it returns a float. That is not modelled.
- `Text.IsWhitespace` is the ECMAScript WhiteSpace and LineTerminator set. Unicode
  category Zs is taken as of current Unicode versions. Later additions to it are not
  modelled.
- The ten forbidden file-name characters are those of the regex class at main.js:399,
  the backslash included.
- Malformed upload dates are modelled as the code treats them: a missing part prints as
  `undefined`, and a timestamp shorter than ten characters is taken whole.
- `DateFormat.Prefix10`: strings are sequences of code points, while `substring(0, 10)`
  counts UTF-16 code units. A timestamp with a character outside the Basic Multilingual
  Plane among its first ten units is cut differently. `trim`, `split` and `replace` are
  not affected, because every whitespace, separator and forbidden character lies inside
  the Basic Multilingual Plane.
