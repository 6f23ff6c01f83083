# ViralConsensus web front end: the run controller

This project models the controller of the ViralConsensus Online Tool
(`website/src/App.jsx`). The form collects:

- a reference genome;
- a reads file, either aligned (BAM/SAM/CRAM) or raw FASTQ;
- an optional primer file;
- five tunable parameters: primer offset, minimum base quality, minimum depth, minimum frequency and ambiguous-base symbol;
- two output toggles.

Pressing *Submit* does the following:

1. validates the form;
2. clears the outputs of the previous run from the in-browser runtime's file system;
3. mounts the inputs, using the bundled example payloads when the user chose them;
4. assembles the `viral_consensus` command line, with `minimap2` piped in front of it for FASTQ reads;
5. executes the command;
6. declares the run done exactly when a non-empty `consensus.fa` appears.

At start-up the tool reads the parameter defaults and the version from a C header (`#define DEFAULT_… value`, `#define VERSION "…"`).

## Structure

The model follows the file's own mix of pure helpers and a stateful component:

- `Wrappers` holds the optional value that stands for `undefined`.
- `Strings` holds the JavaScript string operations the file relies on: `endsWith`, `split(' ')`, the quote-stripping `replace` and the UTF-16 `length`.
- `Numbers` holds decimal numerals:
  - the text a number input contributes to the command;
  - `Number(...)` on a default token, restricted to plain decimal notation;
  - the shortest positional form JavaScript prints a number in (exponent forms are left out).
- `Inputs` holds the form's values, the classification of the reads file and the per-field validity the setters record.
- `Commands` holds the command line, as the source assembles it, and an independent description of it as a word list (`Argv`).
- `Defaults` covers the multiline regular-expression scan of the header, the per-line update and the version.
- `Workspace` models the runtime's file system as a map from name to size, and what a run does to it.
- `Controller.App` is a class with the component's state as fields. Each handler is a method that changes those fields. `Run` is split into the steps the source performs in order.

The runtime's `exec` is a parameter `exec: (command, files) -> files`, so nothing is assumed about what `viral_consensus` produces. The commands handed to it are recorded in `execLog`, the console in `log` and the downloads in `downloads`.

In these places the code does something other than what a user of the form would expect, and the model follows the code:

- Suffixes are compared case-sensitively (`endsWith`), not case-insensitively.
- The aligned suffixes are tested before the FASTQ suffixes. `Inputs.SuffixesDisjoint` shows the order makes no difference.
- The primer offset is always valid; no test makes it non-negative.
- The primer file is not "removed, then written" when it is absent (see Findings).

## Model

| member | source | states |
|---|---|---|
| Strings.EndsWithLast | website/src/App.jsx:227-230 | a name with a non-empty suffix ends in the suffix's last character |
| Strings.CountCharAppend | website/src/App.jsx:276 | the occurrences of a character in a concatenation add up |
| Strings.Split | website/src/App.jsx:86 | `split(' ')` yields one more piece than there are separators, and no piece holds a separator |
| Strings.SplitJoin | website/src/App.jsx:86 | splitting the join of separator-free pieces gives the pieces back |
| Strings.JoinSplit | website/src/App.jsx:86 | joining the pieces of a split gives the original string back |
| Strings.JoinConcat | website/src/App.jsx:276 | joining two word lists one after the other puts exactly one separator between them |
| Strings.StripQuotes | website/src/App.jsx:90 | quote removal drops a single character exactly when it is a quote, leaves no quote behind and leaves a quote-free text unchanged |
| Strings.StripQuotesKeeps | website/src/App.jsx:90 | quote removal keeps exactly the characters that are not quotes |
| Strings.StripQuotesConcat | website/src/App.jsx:90 | quote removal on a concatenation is the concatenation of the results, so with the one-character case every non-quote character is kept, in order |
| Strings.StripQuotesIdempotent | website/src/App.jsx:90 | removing quotes twice is the same as once |
| Strings.Utf16Length | website/src/App.jsx:153 | JavaScript's `length` lies between the number of characters and twice that number |
| Strings.Utf16LengthOne | website/src/App.jsx:153 | `length === 1` holds exactly for one character of the Basic Multilingual Plane |
| Numbers.ValueSign | website/src/App.jsx:123 | a decimal is below 0 exactly when its mantissa is negative |
| Numbers.ValueAtMostOne | website/src/App.jsx:143 | a decimal is at most 1 exactly when its mantissa is at most 10^scale |
| Numbers.NatTextValue | website/src/App.jsx:298 | the digits of a natural number read back as that number |
| Numbers.PaddedTextValue | website/src/App.jsx:298 | the zero-padded fraction digits read back as the fraction |
| Numbers.DigitsValueAppend | website/src/App.jsx:92 | the value of concatenated digit strings is the first shifted by the second's length, plus the second |
| Numbers.UnsignedTextShape | website/src/App.jsx:298 | the text of a magnitude starts with a digit and holds only digits and a point |
| Numbers.DecimalTextShape | website/src/App.jsx:298 | the text of a number is a non-empty numeral |
| Numbers.DecimalTextFree | website/src/App.jsx:298 | a number never brings a space or a pipe into the command line |
| Numbers.PointIndex | website/src/App.jsx:92 | the returned index is the first point, or the length when there is none |
| Numbers.ParseUnsignedText | website/src/App.jsx:92 | `Number(...)` reads the text of a non-negative decimal back as that decimal |
| Numbers.ParseNegativeText | website/src/App.jsx:92 | `Number(...)` reads a minus sign and a magnitude back as the negative decimal |
| Numbers.ParseNonNegativeText | website/src/App.jsx:92 | `Number(...)` reads an unsigned text back unchanged |
| Numbers.ParseDecimalText | website/src/App.jsx:92 | parsing the text of any decimal gives the decimal back (round trip) |
| Numbers.ParseDecimal | website/src/App.jsx:89-92 | `Number(...)` for plain decimal notation; ParseDecimalText shows it inverts DecimalText, and QuotedToken that a quoted symbol is not a number |
| Numbers.DecimalText | website/src/App.jsx:294-298 | the text a number contributes to the command; DecimalTextShape and DecimalTextFree show it is a numeral without space or pipe, and ParseDecimalText that it reads back as the number |
| Numbers.Normalize | website/src/App.jsx:92 | the printed form of a number has the same value, no more fraction digits and no trailing fraction zero |
| Inputs.Params.With | website/src/App.jsx:94 | setting one field changes that field and no other |
| Inputs.IsFastqName | website/src/App.jsx:226-230 | the four FASTQ suffixes; SuffixesDisjoint shows no name also has an aligned suffix |
| Inputs.UploadedFastq | website/src/App.jsx:226-230 | the early FASTQ test; ClassifyAgreesWithFastqTest and InputIsStdinIffFastq show it decides both the staging branch and the `-i -` argument |
| Inputs.Classify | website/src/App.jsx:261-284 | the staging branches in the source's order; ClassifyAgreesWithFastqTest shows the order makes no difference |
| Inputs.SuffixesDisjoint | website/src/App.jsx:226-230 | no name has both a FASTQ suffix and an aligned suffix |
| Inputs.ClassifyAgreesWithFastqTest | website/src/App.jsx:266-284 | the staging chain takes the FASTQ branch exactly when the early FASTQ test held, and the aligned branch exactly for an uploaded aligned name |
| Inputs.NonNegative | website/src/App.jsx:123-125 | `value < 0` fails exactly for a non-negative mantissa |
| Inputs.InUnitInterval | website/src/App.jsx:143-145 | the range test fails exactly for 0 <= value <= 1 |
| Inputs.FieldValid | website/src/App.jsx:114-158 | the primer offset is always valid; quality and depth are valid iff >= 0; frequency iff in [0, 1]; the symbol iff it is a text of JavaScript length 1 |
| Inputs.InitialParamsValid | website/src/App.jsx:25-43 | every field of the initial form is valid |
| Inputs.ValidityBoundaries | website/src/App.jsx:123-153 | -1 and 1.0001 are rejected, 0 and 1.0 accepted; only one-character symbols pass, and a character outside the Basic Multilingual Plane does not |
| Inputs.IsSingleChar | website/src/App.jsx:153 | the symbol test holds exactly for one character of the Basic Multilingual Plane |
| Inputs.Toggled | website/src/App.jsx:170-171 | one press always changes a file slot, and it holds the sentinel exactly when it did not before |
| Inputs.ToggleTwice | website/src/App.jsx:170-171 | two presses restore a slot that held the sentinel or the input's file |
| Commands.BaseCommand | website/src/App.jsx:232 | the `viral_consensus` part as the source writes it; BaseJoined shows it is its word list joined by spaces |
| Commands.AlignerPrefix | website/src/App.jsx:276 | the `minimap2` prefix and the pipe; AlignerPrefixJoined and AlignerPrefixPipes show its words and its single pipe |
| Commands.PrimerFlags | website/src/App.jsx:294 | the primer flags; PrimerSpaced shows they are `-p <name> -po <offset>` exactly when a primer is chosen |
| Commands.ThresholdFlags | website/src/App.jsx:298 | the threshold flags; ThresholdSpaced shows their words and order |
| Commands.OutputFlags | website/src/App.jsx:301-307 | the output flags; OutputSpaced shows each appears exactly when its toggle is on |
| Commands.CommandFor | website/src/App.jsx:232-307 | the full command as the source concatenates it; CommandIsJoinedArgv, CommandWords and CommandPipes show it is `Argv` joined by spaces, with one pipe exactly for FASTQ reads |
| Commands.SpacedAppend | website/src/App.jsx:294-307 | spacing a concatenation of word lists concatenates the spaced parts |
| Commands.JoinSpaced | website/src/App.jsx:232 | joining words is the first word followed by the rest, each preceded by a space |
| Commands.PrimerSpaced | website/src/App.jsx:294 | the primer flags are `-p <name> -po <offset>` when a primer is chosen and nothing otherwise |
| Commands.ThresholdSpaced | website/src/App.jsx:298 | the threshold flags are `-q`, `-d`, `-f`, `-a`, each with its value, in that order |
| Commands.OutputSpaced | website/src/App.jsx:301-307 | `-op positionCounts.tsv` appears iff position counts are on, then `-oi insertionCounts.tsv` iff insertion counts are on |
| Commands.FlagsSpaced | website/src/App.jsx:294-307 | the flag words, spaced, are exactly the primer, threshold and output flags in that fixed order |
| Commands.BaseJoined | website/src/App.jsx:232 | the base command is `viral_consensus -i <input> -r <ref> -o consensus.fa` as words |
| Commands.AlignerPrefixJoined | website/src/App.jsx:276 | the aligner prefix is `minimap2 -t 1 -a -x sr <ref> <reads>` and the pipe as words, followed by a space |
| Commands.AlignerJoined | website/src/App.jsx:276 | the piped command is the aligner words followed by the base words |
| Commands.JoinThenSpaced | website/src/App.jsx:294-307 | appending words to a joined list appends them spaced |
| Commands.CommandIsJoinedArgv | website/src/App.jsx:232-307 | the assembled command is its word list `Argv` joined by single spaces |
| Commands.ArgvSpaceFree | website/src/App.jsx:232-307 | without spaces in user-supplied text, no word of the command holds a space |
| Commands.CommandWords | website/src/App.jsx:232-307 | without spaces in user-supplied text, splitting the command at spaces yields exactly `Argv`, so flag order and contents are fixed |
| Commands.CommandPipes | website/src/App.jsx:276 | without a pipe in user-supplied text, the command holds exactly one pipe character for FASTQ reads and none otherwise |
| Commands.PipedBasePipes | website/src/App.jsx:276 | the command before its flags holds one pipe for FASTQ reads and none otherwise |
| Commands.AlignerPrefixPipes | website/src/App.jsx:276 | the minimap2 prefix holds exactly one pipe |
| Commands.InputIsStdinIffFastq | website/src/App.jsx:232 | `-i` is `-` exactly for FASTQ reads, and otherwise the reads' name or the default name |
| Commands.PipedBaseIsPrefix | website/src/App.jsx:276-278 | the command run by the extra FASTQ exec is a prefix of the final command |
| Commands.PipedBaseEndsWithOutput | website/src/App.jsx:232 | the command before its flags always ends with `-o consensus.fa` |
| Defaults.LineRest | website/src/App.jsx:86 | `.*$` matches the longest prefix without a line terminator |
| Defaults.LineRestCovers | website/src/App.jsx:86 | every line-break-free prefix lies within what `.*$` matches |
| Defaults.Matches | website/src/App.jsx:86 | every match starts with the pattern and lies within one line |
| Defaults.LineMatch | website/src/App.jsx:86 | a line yields at most one match, beginning with the pattern and running to the line's end |
| Defaults.LineMatchFirst | website/src/App.jsx:86 | a line in which the pattern first occurs at k yields exactly the text from k to the end of the line |
| Defaults.LineMatchNone | website/src/App.jsx:86 | a line yields no match exactly when the pattern does not occur in it |
| Defaults.OccursShift | website/src/App.jsx:86 | an occurrence after the first character is an occurrence in the rest of the line |
| Defaults.MatchesNone | website/src/App.jsx:86 | a text in which the pattern does not occur yields no match |
| Defaults.MatchesSkip | website/src/App.jsx:86 | complete lines in which the pattern does not occur add nothing to the scan |
| Defaults.MatchesByLine | website/src/App.jsx:86 | the scan of a text is the match of its first line followed by the scan of the rest |
| Defaults.LineRestOfLine | website/src/App.jsx:86 | on a line followed by a terminator, `.*$` matches the whole line |
| Defaults.TokenValue | website/src/App.jsx:89-92 | the stored value of a default token; NumericToken and QuotedToken show numbers are stored as numbers and quoted symbols bare |
| Defaults.ApplyLine | website/src/App.jsx:88-95 | one iteration of the loop; LoadLine implements it and ApplyDefaultsStep chains it |
| Defaults.ApplyDefaults | website/src/App.jsx:87-96 | the loop over the matched lines; the ApplyDefaults lemmas and LoadDefaults state what it does |
| Defaults.NumericToken | website/src/App.jsx:89-92 | a numeric token is stored as its number, in the shortest form |
| Defaults.QuotedToken | website/src/App.jsx:89-90 | a quoted symbol such as `'N'` or `"N"` is stored bare |
| Defaults.MatchedLineWords | website/src/App.jsx:86 | a matched line always has a name word |
| Defaults.ApplyDefaultsStep | website/src/App.jsx:87-96 | one more line is one more application of the per-line update |
| Defaults.ApplyDefaultsKeepsAgreement | website/src/App.jsx:94 | each value and its default are set together, so a form that agrees with its defaults still agrees |
| Defaults.ApplyDefaultsUnmapped | website/src/App.jsx:88 | a parameter no line maps to keeps its value and its default |
| Defaults.ApplyDefaultsFailureSticks | website/src/App.jsx:89-90 | once a mapped line without a value throws, no later line has any effect |
| Defaults.ApplyDefaultsStopped | website/src/App.jsx:87-96 | a loop stopped by exhaustion or by a throw has the result for all lines |
| Defaults.VersionOf | website/src/App.jsx:98 | the version is `v` followed by a quote-free text |
| Defaults.VersionOfFirstLine | website/src/App.jsx:98 | the version is `v` and the quote-stripped third word of the text from `#define VERSION` to the end of the first line holding it, or none when that text has fewer than three words |
| Defaults.VersionOfAbsent | website/src/App.jsx:98 | without a VERSION line there is no version |
| Workspace.Removed | website/src/App.jsx:236-238 | unlinking removes that name and keeps every other file; an absent name is skipped |
| Workspace.ClearOutputs | website/src/App.jsx:236-246 | the three outputs are absent afterwards; every other file is kept unchanged |
| Workspace.StageInputs | website/src/App.jsx:236-284 | the workspace after clearing and mounting; StagedInputs states its contents |
| Workspace.StagedInputs | website/src/App.jsx:248-284 | after staging, the reads and the reference sit under the command's names with their payloads; earlier outputs are gone; nothing else changed |
| Workspace.WritePrimerStages | website/src/App.jsx:287-293 | the primer is written under its own name with its size, and nothing else changes |
| Workspace.PrimerLostWhenAbsent | website/src/App.jsx:290-291 | an absent primer is not written as written, but is written by the intended step |
| Workspace.MainInput | website/src/App.jsx:248-293 | the workspace the main command runs in; MainInputReady states which files it holds |
| Workspace.MainInputReady | website/src/App.jsx:232-293 | for non-FASTQ reads, every file the command names is present when it runs; with distinct names no earlier output remains |
| Workspace.NoStaleConsensus | website/src/App.jsx:236-238 | a consensus left from an earlier run cannot make a run succeed |
| Workspace.ExecCommandsShape | website/src/App.jsx:276-311 | the runtime gets two commands for FASTQ reads and one otherwise; the last is always the full command; each is a prefix of it |
| Workspace.PresentOutputs | website/src/App.jsx:323-334 | the outputs offered for download are exactly those present, at most three |
| Controller.RunLogWarning | website/src/App.jsx:280-284 | the log warns about the reads file exactly when its name has neither an aligned nor a FASTQ suffix; it ends with the verdict |
| Controller.AppendOutputs | website/src/App.jsx:301-307 | the two conditional appends add exactly the output flags |
| Controller.App.constructor | website/src/App.jsx:13-51 | the initial state: no files, values 0 and "N", all flags set, not done, not loading, unchanged |
| Controller.App.FlagsMeanValidity | website/src/App.jsx:182-204 | while the flags agree with the values, `validInput` accepts exactly when both files are chosen and every field is valid |
| Controller.App.RuntimeLoaded | website/src/App.jsx:55-60 | the runtime is ready and the console shows only the greeting |
| Controller.App.ExampleFilesFetched | website/src/App.jsx:76-82 | the example payloads are recorded |
| Controller.App.UploadAlignmentFile | website/src/App.jsx:102-104 | the reads slot holds the chosen file; the form counts as changed, so a finished run's outputs are flagged stale |
| Controller.App.UploadRefFile | website/src/App.jsx:106-108 | the reference slot holds the chosen file; the form counts as changed |
| Controller.App.UploadPrimerFile | website/src/App.jsx:110-112 | the primer slot holds the chosen file; the form counts as changed |
| Controller.App.SetPrimerOffset | website/src/App.jsx:114-118 | the offset is stored and always valid; the flags keep agreeing with the values |
| Controller.App.SetMinBaseQuality | website/src/App.jsx:120-128 | the value is stored; its flag holds iff it is >= 0; the flags keep agreeing with the values |
| Controller.App.SetMinDepth | website/src/App.jsx:130-138 | the value is stored; its flag holds iff it is >= 0; the flags keep agreeing with the values |
| Controller.App.SetMinFreq | website/src/App.jsx:140-148 | the value is stored; its flag holds iff 0 <= value <= 1; the flags keep agreeing with the values |
| Controller.App.SetAmbigSymbol | website/src/App.jsx:150-158 | the symbol is stored; its flag holds iff its JavaScript (UTF-16) length is 1; the flags keep agreeing with the values |
| Controller.App.SetGenPosCounts | website/src/App.jsx:160-162 | the toggle is stored; the form counts as changed |
| Controller.App.SetGenInsCounts | website/src/App.jsx:164-166 | the toggle is stored; the form counts as changed |
| Controller.App.ToggleLoadExampleData | website/src/App.jsx:168-180 | each slot flips between the sentinel and its input's file; both file flags are set; the form always counts as changed |
| Controller.App.ValidInput | website/src/App.jsx:182-204 | accepts iff both files are chosen and all five flags hold; records each file's presence; the console shows only the validation message |
| Controller.App.ClearStaleOutputs | website/src/App.jsx:234-246 | the workspace loses exactly the three earlier outputs |
| Controller.App.MountReference | website/src/App.jsx:248-257 | the reference is mounted under the name the command uses, with its payload |
| Controller.App.MountReads | website/src/App.jsx:259-284 | the reads are mounted by their branch; FASTQ reads put the minimap2 pipe in front and run it once; unrecognised names log the warning |
| Controller.App.AppendFlags | website/src/App.jsx:286-307 | the command gains the primer, threshold and output flags in order; the primer is written |
| Controller.App.Stage | website/src/App.jsx:226-307 | after staging, the command is the full command for the form and the workspace is the intended main input |
| Controller.App.Launch | website/src/App.jsx:309-321 | the full command runs on the staged workspace; done iff a non-empty consensus exists; loading ends |
| Controller.App.Conclude | website/src/App.jsx:312-320 | done iff `consensus.fa` is listed with a non-zero size; loading ends; the verdict is logged |
| Controller.App.Proceed | website/src/App.jsx:212-321 | a validated run is deferred iff the runtime is not loaded; otherwise it runs with the form's command and workspace |
| Controller.App.Run | website/src/App.jsx:206-321 | invalid input changes no run flag, file or command; an unloaded runtime defers; otherwise the run's workspace, commands, log and verdict are as specified, and the outputs are not stale |
| Controller.App.LoadDefaultsAndVersion | website/src/App.jsx:84-100 | the values and defaults are the per-line update over the matched lines; the version is set when nothing threw; an agreeing form still agrees |
| Controller.App.LoadDefaults | website/src/App.jsx:87-96 | the loop computes the per-line update over all matched lines, stopping at the first throw |
| Controller.App.LoadLine | website/src/App.jsx:88-95 | one line sets a mapped parameter and its default to the line's value, or throws |
| Controller.App.DownloadFile | website/src/App.jsx:329-345 | a file is downloaded and logged exactly when it is present |
| Controller.DownloadedLines | website/src/App.jsx:345 | one `Downloaded <name>` console line per downloaded file, in order |
| Controller.App.DownloadConsensus | website/src/App.jsx:323-345 | exactly the present outputs are downloaded, in order, and one `Downloaded <name>` line is logged for each |

## Left out

- Rendering, DOM queries, wheel-event suppression and the download link mechanics are user interface only. The file inputs' contents become method parameters.
- The Aioli runtime is a foreign library. Its loading is the `RuntimeLoaded` event. Its file system is a name-to-size map. `exec` is a parameter on which nothing is assumed.
- Fetching the example files and the defaults header is network input. The payload sizes and the header text are parameters.
- The names the example files are staged under and the name-to-parameter mapping come from `constants.js`, which is not part of this model. They are constructor and method parameters.
- The two-second retry for an unloaded runtime is the `Deferred` outcome. The caller calls `Run` again.
- The timing of the asynchronous primer write is not modelled. The model writes the primer synchronously where the source queues it, and `Controller.App.AppendFlags`, `Stage` and `Run` use the intended step `Workspace.WritePrimer`, not the step as written, which skips an absent primer (see Findings).
- `performance.now()` and the elapsed time in the "Done!" message are left out: the message is just "Done!".
- `console.log` and the listing calls in the FASTQ branch are debugging output and are left out.
- Controller.App.SetMinBaseQuality, SetMinDepth, SetMinFreq and SetPrimerOffset take a decimal, not the field's text. The source puts the typed text into the command verbatim; the model puts `DecimalText` there, so ".5" appears as "0.5" and "007" as "7", an exponent such as "1e3" cannot be entered, and the empty field (which JavaScript compares as 0) is left out.
- Defaults.TokenValue, Numbers.ParseDecimal: `Number(...)` is modelled for plain decimal notation with an optional sign. Exponents, hexadecimal, surrounding white space and `Infinity` are treated as non-numbers.
- Numbers.Normalize, Defaults.TokenValue: a number read from the defaults is always printed positionally. JavaScript prints numbers below 1e-6 and from 1e21 up in exponent form (such as 1e-7), which is left out.
- Floating point is not modelled. Numbers are exact decimals, so rounding of very long numerals is left out.
- Controller.App.Run, Proceed, Stage, Launch: a run is one atomic step. The source awaits between its listing, unlink, mount and exec calls, reads the form's state again after them (primer, offset, thresholds and toggles), and does not disable Submit while a run is loading. A form edit during a run can therefore reach the command or set `inputChanged` back to true, and a second Submit can interleave a second run on the same workspace. The model excludes these interleavings, and `Run`'s `!inputChanged` and its statement that the outputs belong to the submitted form rely on that.
- Controller.App.DownloadFile: when the runtime is not loaded the source throws; the model returns without downloading.
- `primerFileValid` is never changed by the source and is kept only as initial state.

## Findings

| source | as written | input that shows it | evidently intended | confidence | as-written member | corrected member |
|---|---|---|---|---|---|---|
| website/src/App.jsx:290-291 | `CLI.ls(name) && await CLI.fs.unlink(name)`: the listing is not awaited, so its promise is always truthy. The unlink always runs, and unlinking an absent file rejects before `writeFile`. | any run with a primer file whose name is not yet in the workspace, such as the first | unlink only when the file is listed, then always write the primer | medium, not executed; depends on the runtime rejecting the unlink of an absent file | Workspace.WritePrimerAsWritten, Workspace.PrimerLostWhenAbsent | Workspace.WritePrimer, Workspace.WritePrimerStages |
