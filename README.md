# The summary pipeline of the JVM dump analyser

This project models and proves properties of the part of `src/llm/langGraphFlow.js` that
turns a JVM dump into a JSON summary. The dump is a `jstack` thread dump, a `jmap -histo`
heap histogram or a folded-stack flame graph. The part modelled is:

- the `prepare` node, which picks the two prompt templates for the dump type or throws
  for an unknown type;
- `safeJson`, which recovers a JSON value from a model's free-text reply;
- `normalizeSummary`, which coerces the numbers of a summary per dump type, and for
  `jmap` sorts `topByBytes` by bytes and keeps ten entries;
- `extractJmapRows`, the scanner for heap-histogram rows. It is written as a hand-coded
  matcher for the regular expression of line 183, with a proof that it finds the match
  the backtracking engine finds;
- the `summarize` node. For `jmap` it has an escalating fallback: a stricter re-prompt,
  then a re-prompt built from the scanned rows, then a summary built locally from those
  rows. At the end it recomputes `totalBytes`;
- `chooseModel` and the provider resolution of the `summarize` and `analyze` nodes;
- `analyzeFile`: `prepare`, `summarize` and `analyze`, run in that fixed order.

The model clients are one parameter, an oracle from (backend, model name, prompt) to a
reply or a thrown error. `JSON.parse` is another parameter, a partial function from
strings to JSON values. The environment variables are a record of strings. A run's
specification (`Flow.Pipeline`) returns the result together with every prompt sent, in
order. This is how the properties speak about which model calls happen.

Modules, one file each:

| file | module | what |
|---|---|---|
| wrappers.dfy | Wrappers | `Option`, `Result` |
| json.dfy | Json | JSON values, property access, truthiness |
| text.dfy | Text | `\s`, `\d`, `\w`, `trim()` |
| jsnumber.dfy | JsNumber | `Number(x) \|\| 0`, with and without comma stripping |
| recovery.dfy | JsonRecovery | `safeJson` |
| provider.dfy | Provider | provider resolution and `chooseModel` |
| ranking.dfy | Ranking | the stable descending sort, the cut to ten, the byte sum |
| normalize.dfy | Normalize | `normalizeSummary` |
| histogram.dfy | Histogram | `extractJmapRows` |
| histogram_examples.dfy | HistogramExamples | the scanner on lines as `jmap -histo` prints them |
| prompts.dfy | Prompts | the `prepare` templates and the two re-prompts |
| flow.dfy | Flow | the `summarize` node and `analyzeFile` |
| flow_properties.dfy | FlowProperties | what the fallback chain and the node order guarantee |

### Behaviour of the code that a reader might not expect

Where the code and the natural reading of its comments differ, the model follows the
code:

- **No rows found.** When the scanner finds no rows, the last-resort summary is not
  built. The summary keeps what the model gave, which may be `null`
  (`FlowProperties.NoRowsKeepsSummary`, `FlowProperties.SilentModelNoRows`).
- **Model errors.** Nothing catches an error thrown by a model call in the fallback
  chain, so the run fails with it (`Flow.Failure.CallFailed`).
- **A `null` entry in `topByBytes`.** The `.map` callback then throws. The `try` in
  `normalizeSummary` swallows the error and leaves the list as it was
  (`Normalize.NormalizedJmapNullEntry`). If `totalBytes` is also missing, the recompute
  at line 76 reads `.bytes` of `null`, and the run fails (`Flow.Failure.NullEntry`).
- **The header test is dead.** The test `/^num\b/i` of line 189 never fires: a line that
  the row pattern accepts starts with white space or a digit
  (`Histogram.HeaderTestIsDead`). Header lines are still dropped, because they do not
  match the pattern at all (`HistogramExamples.FramingExample`).
- **Module-only rows.** On a line with a module but no class after the bytes column,
  such as `1: 10 20  (java.base)`, the lazy class capture runs to the end of the line, so
  the class name is the module with its parentheses (`Histogram.RowOfModuleOnlyLine`,
  `HistogramExamples.ModuleOnlyExample`).
- **Empty class names.** The class name is empty only when no class can be cut from the
  text after the gap, yet that text is a module part by itself. Backtracking then gives
  the capture the last white-space character of the gap, and it trims to the empty
  string. This happens in two ways:
  - The line ends in a gap of two or more white-space characters after the bytes column,
    as in `1: 10 20  ` (`Histogram.RowOfTrailingGapLine`,
    `HistogramExamples.TrailingGapExample`).
  - The module's parentheses hold a line terminator other than LF (CR, U+2028 or
    U+2029), which `.` does not match, as in `1: 10 20  (a` CR `b)`
    (`Histogram.RowOfBrokenModuleLine`, `HistogramExamples.BlankClassExample`).
- **Comma stripping.** Only the `jmap` branch strips thousands separators. For `jstack`
  and `flame`, `"12,345"` becomes 0 (`JsNumber.CommaGroupedExample`).
- **`flame` lists.** `topFunctions` is mapped element by element. It is neither sorted
  nor cut to ten (`Normalize.NormalizedFlame`).

## Model

| member | source | states |
|---|---|---|
| JsonRecovery.SafeJson | src/llm/langGraphFlow.js:98-106 | An empty reply gives `null`. A reply that parses whole gives its parse. The result is otherwise `null` or the parse of the first-`{`-to-last-`}` substring, never anything else. |
| JsonRecovery.BraceSpan | src/llm/langGraphFlow.js:101 | The match exists exactly when some `{` comes before some `}`. It then runs from the first `{` to the last `}`. |
| JsonRecovery.RecoversWrappedObject | src/llm/langGraphFlow.js:99-105 | Take a reply that does not parse, holding an object between brace-free prose. It yields that object's parse, or `null` when the object does not parse either. |
| JsonRecovery.BraceSpanOfWrapped | src/llm/langGraphFlow.js:101 | Prose without braces around a braced body is cut back to exactly the body. |
| Text.Trim | src/llm/langGraphFlow.js:190 | The result is the input without its leading and trailing white space, and it neither starts nor ends with white space. |
| JsNumber.StripCommas | src/llm/langGraphFlow.js:123 | The result holds exactly the characters of the input other than commas, and is no longer than it. |
| JsNumber.ShowNatRoundTrip | src/llm/langGraphFlow.js:123 | Reading back the decimal digits printed for a natural number gives that number. |
| JsNumber.NumberCoercionsKeepNaturals | src/llm/langGraphFlow.js:115-116 | Both coercions (`Number(x) \|\| 0`, with or without comma stripping) leave a natural number unchanged. |
| JsNumber.CommaGroupedRoundTrip | src/llm/langGraphFlow.js:123 | With separators stripped, every comma-grouped number string coerces to its value. |
| JsNumber.GroupedDigits | src/llm/langGraphFlow.js:128-129 | Removing the separators of a comma-grouped number leaves a non-empty digit string of its value. |
| JsNumber.CommaGroupedExample | src/llm/langGraphFlow.js:123 | `"12,345"` coerces to 12345 where commas are stripped (`jmap`), and to 0 where they are not (`jstack`, `flame`). |
| JsNumber.UngroupedExample | src/llm/langGraphFlow.js:115 | Without stripping, `"12,345"` coerces to 0. |
| Provider.Lower | src/llm/langGraphFlow.js:48 | Lower-casing keeps the length and lower-cases each character. |
| Provider.LowerIdempotent | src/llm/langGraphFlow.js:148 | Lower-casing the already lower-cased provider again changes nothing. |
| Provider.ResolveProviderSpec | src/llm/langGraphFlow.js:48-50 | Precedence: the requested provider, then `LLM_PROVIDER`, then Gemini, in any letter case. `"OLLAMA"` selects the Ollama client. |
| Provider.ChooseModelSpec | src/llm/langGraphFlow.js:147-153 | A requested model wins. Otherwise the provider's own variable is used, then its default (`llama3` for Ollama, `gemini-1.5-pro` otherwise). The name is never empty. |
| Provider.BackendAndModelAgree | src/llm/langGraphFlow.js:83-85 | Without a requested model, the client called and the default model agree: Ollama gets an Ollama model, Gemini a Gemini one. |
| Prompts.PrepareSpec | src/llm/langGraphFlow.js:23-44 | `prepare` succeeds exactly for `jstack`, `jmap` and `flame`, and otherwise fails with `"Unknown type: " + type`. Both prompts are the type's fixed template with the raw text appended verbatim. |
| Prompts.RefinePrompt | src/llm/langGraphFlow.js:161-173 | The refinement prompt is the fixed header followed by the text, verbatim. |
| Prompts.RowsPrompt | src/llm/langGraphFlow.js:196-209 | The rows prompt is the fixed header followed by the row list. |
| Prompts.RowListLines | src/llm/langGraphFlow.js:196 | Split back into lines, the row list of scanned rows has one line per row, in order, with no comma left in the numbers. |
| Prompts.RowLineShape | src/llm/langGraphFlow.js:196 | A row's line holds no line feed and does not end in a carriage return, and its numbers hold no comma. |
| Ranking.Insert | src/llm/langGraphFlow.js:131 | Inserting into a sorted list gives a sorted permutation of the list plus the entry. |
| Ranking.SortByBytes | src/llm/langGraphFlow.js:131 | The result is sorted from largest to smallest and is a permutation of the input. |
| Ranking.SortIsStable | src/llm/langGraphFlow.js:131 | Entries with equal bytes keep their relative order. |
| Ranking.SortKeepsSorted | src/llm/langGraphFlow.js:131 | Sorting an already sorted list changes nothing. |
| Ranking.InsertKeepsTies | src/llm/langGraphFlow.js:131 | Insertion puts the entry ahead of every entry of equal bytes, just where it stands in the entry followed by the list, so sorting from the back keeps the input order of ties. |
| Ranking.TotalBytesAppend | src/llm/langGraphFlow.js:70 | The byte sum of two lists glued together is the sum of their sums. |
| Ranking.SortedPrefixDominates | src/llm/langGraphFlow.js:131-132 | In a sorted list, nothing after position k is larger than anything before it. |
| Ranking.RankedTop | src/llm/langGraphFlow.js:131-132 | Sorting then slicing gives min(n, 10) entries, sorted, drawn from the input. |
| Ranking.TopKeepsLargest | src/llm/langGraphFlow.js:131-132 | No entry the cut to ten leaves out is larger than an entry it keeps. |
| Normalize.NormalizeSummary | src/llm/langGraphFlow.js:110-145 | The method that rewrites the summary field by field computes `Normalized`. |
| Normalize.NormalizeJstack | src/llm/langGraphFlow.js:114-121 | The `jstack` branch's assignments compute `JstackFields`. |
| Normalize.NormalizeJmap | src/llm/langGraphFlow.js:122-133 | The `jmap` branch's assignments compute `JmapFields`. |
| Normalize.NormalizeFlame | src/llm/langGraphFlow.js:134-141 | The `flame` branch's assignments compute `FlameFields`. |
| Normalize.ConvertCounts | src/llm/langGraphFlow.js:117-121 | Rewriting `byState` key by key gives every own key its coerced value. |
| Normalize.ConvertKeys | src/llm/langGraphFlow.js:118-120 | The loop over an object's keys ends with exactly the same keys, each holding its coerced value. |
| Normalize.ConvertIndices | src/llm/langGraphFlow.js:118-120 | The loop over an array's indices keeps its length and coerces every element. |
| Normalize.NormalizedKeepsOtherFields | src/llm/langGraphFlow.js:110-144 | A non-object, or an object of an unrecognised type, comes back unchanged. An object keeps its keys and its `type`, and every field its branch does not rewrite. |
| Normalize.JstackFieldsKeep | src/llm/langGraphFlow.js:114-121 | The `jstack` branch keeps the keys and touches only `totalThreads`, `blockedByMonitor` and `byState`. |
| Normalize.JmapFieldsKeep | src/llm/langGraphFlow.js:122-133 | The `jmap` branch keeps the keys and touches only `totalBytes` and `topByBytes`. |
| Normalize.FlameFieldsKeep | src/llm/langGraphFlow.js:134-141 | The `flame` branch keeps the keys and touches only `totalSamples` and `topFunctions`. |
| Normalize.EntryJsonRoundTrip | src/llm/langGraphFlow.js:126-130 | An entry written by normalisation has exactly the three keys and reads back as itself. |
| Normalize.EntriesJsonRoundTrip | src/llm/langGraphFlow.js:125-130 | A list of written entries decodes back to the list and holds no `null`. |
| Normalize.NormalizedJmapRanking | src/llm/langGraphFlow.js:124-133 | For a `jmap` summary, `topByBytes` ends with min(n, 10) entries, each with exactly `className`, `bytes` and `instances`. They are sorted by bytes from largest down and drawn from the coerced inputs, and no entry cut off is larger than one kept. |
| Normalize.RankedTopByBytesSpec | src/llm/langGraphFlow.js:124-133 | The same ranking facts, for the coerce-sort-slice of a list without `null`. |
| Normalize.NormalizedJmapNullEntry | src/llm/langGraphFlow.js:124-133 | A `null` entry makes the coercion throw, and the swallowed error leaves `topByBytes` as it was. |
| Normalize.NormalizedJmapTotal | src/llm/langGraphFlow.js:123 | A present, non-null `totalBytes` becomes its comma-stripped coercion. A missing or `null` one stays as it was. |
| Normalize.NormalizedJstack | src/llm/langGraphFlow.js:114-121 | `totalThreads` and `blockedByMonitor` are coerced only when present and not `null`; absent stays absent. `byState` keeps exactly its keys, each value coerced. |
| Normalize.NormalizedFlame | src/llm/langGraphFlow.js:136-141 | `topFunctions` keeps its length and order, each element mapped to exactly `{name, samples}`. A `null` element leaves the list unchanged. |
| Normalize.CoercedTwice | src/llm/langGraphFlow.js:115-116 | Coercing a field twice is coercing it once. |
| Normalize.CountsConvertedTwice | src/llm/langGraphFlow.js:117-121 | Converting `byState` twice is converting it once. |
| Normalize.RankedTopByBytesTwice | src/llm/langGraphFlow.js:124-133 | Ranking `topByBytes` twice is ranking it once. |
| Normalize.FunctionJsonTwice | src/llm/langGraphFlow.js:137-140 | Mapping a `topFunctions` element twice is mapping it once. |
| Normalize.MappedTopFunctionsTwice | src/llm/langGraphFlow.js:136-141 | Mapping `topFunctions` twice is mapping it once. |
| Normalize.JstackFieldsTwice | src/llm/langGraphFlow.js:114-121 | The `jstack` branch is idempotent. |
| Normalize.JmapFieldsTwice | src/llm/langGraphFlow.js:122-133 | The `jmap` branch is idempotent. |
| Normalize.CoercedNumber | src/llm/langGraphFlow.js:123 | Coercing a field that is already a number, `null` or absent changes nothing. |
| Normalize.FlameFieldsTwice | src/llm/langGraphFlow.js:134-141 | The `flame` branch is idempotent. |
| Normalize.NormalizedIdempotent | src/llm/langGraphFlow.js:110-145 | Normalising a second time changes nothing. |
| Histogram.SplitFrom | src/llm/langGraphFlow.js:180 | Splitting gives at least one piece, none of which holds a line feed. |
| Histogram.SplitLines | src/llm/langGraphFlow.js:180 | `split(/\r?\n/)` gives at least one line, none of which holds a line feed. |
| Histogram.SplitLinesJoin | src/llm/langGraphFlow.js:180 | The lines glued back with line feeds are the text with every CR LF turned into LF. |
| Histogram.SplitFromJoin | src/llm/langGraphFlow.js:180 | The same for the split in progress. |
| Histogram.SplitJoinRoundTrip | src/llm/langGraphFlow.js:180 | Lines without line feeds, none but the last ending in a carriage return, split back to themselves once glued. |
| Histogram.SplitOneLine | src/llm/langGraphFlow.js:180 | A text without a line feed is one line. |
| Histogram.SplitFromNoLf | src/llm/langGraphFlow.js:180 | A rest without a line feed ends the current piece. |
| Histogram.SplitFromAppend | src/llm/langGraphFlow.js:180 | Characters that are not line feeds join the current piece. |
| Histogram.CrLfToLfNoLf | src/llm/langGraphFlow.js:180 | A string without a line feed holds no CR LF pair to collapse. |
| Histogram.CrLfToLfBeforeLf | src/llm/langGraphFlow.js:180 | Collapsing CR LF pairs across a line feed drops only the carriage return just before it. |
| Histogram.Span | src/llm/langGraphFlow.js:183 | A greedy run of a character class ends where the class stops. |
| Histogram.SpanLongest | src/llm/langGraphFlow.js:183 | No run is longer than the greedy one, and a run that cannot be extended is the greedy one. |
| Histogram.ShortestClass | src/llm/langGraphFlow.js:183 | The lazy class capture ends at the first place where a module tail matches, and nowhere earlier. |
| Histogram.PickClass | src/llm/langGraphFlow.js:183 | The class start is the one backtracking tries first: the latest gap split that admits a match. |
| Histogram.ScanColumns | src/llm/langGraphFlow.js:183 | The rank, the instances and the bytes columns are cut as the greedy pattern cuts them. |
| Histogram.MatchRow | src/llm/langGraphFlow.js:183 | Any match found is a way for the line to match the row pattern. |
| Histogram.ColumnsForced | src/llm/langGraphFlow.js:183 | Any match of the pattern cuts the columns exactly where the scanner does. |
| Histogram.MatchRowFirst | src/llm/langGraphFlow.js:183 | The scanner finds a match whenever the line has one, and it is the match backtracking tries first. |
| Histogram.ExtractJmapRows | src/llm/langGraphFlow.js:178-193 | The loop that pushes rows computes `RowsOf` of the split lines. |
| Histogram.RowsOfAppend | src/llm/langGraphFlow.js:181-191 | Rows come out one block of lines after the other, in line order. |
| Histogram.RowsOfOne | src/llm/langGraphFlow.js:181-191 | A single line gives its row, or nothing. |
| Histogram.HeaderTestIsDead | src/llm/langGraphFlow.js:189 | No line the pattern accepts starts with the word `num`. |
| Histogram.CaptureBlankOrWhole | src/llm/langGraphFlow.js:183 | The class capture is non-empty and on one line. It is blank, or starts right after the whole gap. |
| Histogram.TrimmedCapture | src/llm/langGraphFlow.js:189-190 | The trimmed class has no edge white space and no line terminator, and does not start with the word `total`. |
| Histogram.RowShape | src/llm/langGraphFlow.js:183-190 | Every row has two non-empty columns of digits and commas. Its class name is trimmed, on one line, and does not start with `total`. |
| Histogram.RowOfPlainLine | src/llm/langGraphFlow.js:183-190 | A line as `jmap -histo` prints it (rank, colon, instances, bytes, class, optional module) gives the row of its columns, with the module dropped. |
| Histogram.RowOfModuleOnlyLine | src/llm/langGraphFlow.js:183-190 | A row with a module but no class after the bytes column gives the module, parentheses and all, as its class name. |
| Histogram.RowOfBrokenModuleLine | src/llm/langGraphFlow.js:183-190 | A row whose module parentheses hold a carriage return, with no class before them, gives the empty class name. |
| Histogram.RowOfTrailingGapLine | src/llm/langGraphFlow.js:183-190 | A row that ends in a gap of two or more white-space characters after the bytes column gives its columns and the empty class name. |
| Histogram.NoRankNoRow | src/llm/langGraphFlow.js:183-184 | A line starting with neither white space nor a digit gives no row. |
| Histogram.ModuleInParens | src/llm/langGraphFlow.js:183 | A module in parentheses after white space is a module tail. |
| HistogramExamples.FramingExample | src/llm/langGraphFlow.js:183-189 | The header, the separator and the `Total` footer of a histogram give no row. |
| HistogramExamples.RowExample | src/llm/langGraphFlow.js:182-190 | The printed row `1: 1,234 56,789 com.example.Foo (…)`, with any padding and module, gives its comma-grouped columns and the bare class name. |
| HistogramExamples.ModuleOnlyExample | src/llm/langGraphFlow.js:183-190 | The row `1: 10 20 (java.base)`, with any white-space padding, gives the class name `(java.base)`. |
| HistogramExamples.BlankClassExample | src/llm/langGraphFlow.js:183-190 | The same line with a carriage return inside the parentheses gives the empty class name. |
| HistogramExamples.TrailingGapExample | src/llm/langGraphFlow.js:183-190 | The row `1: 10 20  `, with any white-space padding, gives the empty class name. |
| Flow.Summarize | src/llm/langGraphFlow.js:47-79 | The node, reassigning `summary` step by step, computes `SummaryRun`: the same result and the same prompts in the same order. |
| Flow.AnalyzeFile | src/llm/langGraphFlow.js:155-158 | A run computes `Pipeline`: `prepare`, then `summarize`, then `analyze`, stopping at the first error. |
| FlowProperties.BytesSumOfEntries | src/llm/langGraphFlow.js:76 | The recompute's sum over written entries equals the last-resort sum of their bytes. |
| FlowProperties.RecomputeTotalSpec | src/llm/langGraphFlow.js:74-77 | `totalBytes` is replaced only for a usable `jmap` summary whose total is null or NaN. It is then the sum of the entries' bytes, nothing else changes, and the run fails exactly when an entry is `null`. |
| FlowProperties.RecomputeIdempotent | src/llm/langGraphFlow.js:75-76 | The recompute keeps a summary usable or not, and running it again changes nothing. |
| FlowProperties.RecomputeOnlyWithoutTotal | src/llm/langGraphFlow.js:75 | After normalisation, a `jmap` summary lacks a total exactly when it had no non-null `totalBytes`. |
| FlowProperties.RecomputeKeepsUsable | src/llm/langGraphFlow.js:74-77 | The recompute never empties `topByBytes`. |
| FlowProperties.LastResortFields | src/llm/langGraphFlow.js:66-70 | The local summary has exactly `type: "jmap"`, `totalBytes` (the sum of the kept bytes) and `topByBytes` (the kept entries). |
| FlowProperties.LastResortRanking | src/llm/langGraphFlow.js:66-69 | It keeps min(n, 10) of the rows' entries, sorted by bytes from largest down, and none cut off is larger than one kept. |
| FlowProperties.LastResortShape | src/llm/langGraphFlow.js:64-71 | From some rows it is usable, has a total, and the recompute leaves it alone. |
| FlowProperties.LastResortIsNormal | src/llm/langGraphFlow.js:66-70 | It is already in normal form. |
| FlowProperties.SummaryPrompts | src/llm/langGraphFlow.js:51-62 | The node sends the summary prompt, then possibly the refinement prompt, then possibly the rows prompt. It sends them in that order and only for `jmap`. |
| FlowProperties.RefineOnlyWhenEmpty | src/llm/langGraphFlow.js:54-57 | The refinement prompt is sent exactly for `jmap` when the first summary is not usable. |
| FlowProperties.RowsPromptOnlyWhenStillEmpty | src/llm/langGraphFlow.js:59-63 | The rows prompt is sent exactly when the refinement was needed and answered, left the summary unusable, and the scanner found rows. |
| FlowProperties.NeverEmptyWithRows | src/llm/langGraphFlow.js:59-73 | When the scanner finds rows and no call fails, a `jmap` summary always ends usable. |
| FlowProperties.NoRowsKeepsSummary | src/llm/langGraphFlow.js:60-61 | Without rows, an unusable summary is returned as it stands, after two prompts. |
| FlowProperties.LastResortWhenAllEmpty | src/llm/langGraphFlow.js:59-71 | When both re-prompts leave the summary unusable and there are rows, the result is the local summary, after three prompts. |
| FlowProperties.OtherTypesAskOnce | src/llm/langGraphFlow.js:51-54 | `jstack` and `flame` ask once and return the normalised reply. |
| FlowProperties.SilentModelNoRows | src/llm/langGraphFlow.js:52-61 | With a model that answers nothing and a text without rows, a `jmap` run returns `null` after two prompts. |
| FlowProperties.NoRowsInWord | src/llm/langGraphFlow.js:182-190 | The one-line dump `x` gives no rows. |
| FlowProperties.SilentModelWithRows | src/llm/langGraphFlow.js:59-71 | With a model that answers nothing and a text with rows, the run returns the local summary after three prompts. |
| FlowProperties.UnknownTypeStopsAtPrepare | src/llm/langGraphFlow.js:40-41 | An unknown type fails with `"Unknown type: "` + type before any model call. |
| FlowProperties.NodesRunInOrder | src/llm/langGraphFlow.js:90-93 | For a known type, the first prompt is the summary prompt and the last, after a successful `summarize`, is the analysis prompt. A `summarize` error ends the run with no analysis call. |
| FlowProperties.SilentModelPipeline | src/llm/langGraphFlow.js:82-88 | With a silent model and rows, a whole `jmap` run sends four prompts and returns the local summary with an empty analysis. |
| FlowProperties.OneRowEntry | src/llm/langGraphFlow.js:67 | The row `1,234 56,789 com.example.Foo` becomes the entry of 56789 bytes and 1234 instances. |
| FlowProperties.OneRowFallback | src/llm/langGraphFlow.js:66-70 | The local summary of that row has total 56789 and the one entry. |
| FlowProperties.OneRowScan | src/llm/langGraphFlow.js:180-191 | A one-line histogram of that row, with a module, scans to that row. |
| FlowProperties.SilentModelOneRow | src/llm/langGraphFlow.js:47-88 | For that histogram and a silent model, the whole run returns the local summary with total 56789 and the one entry, after four prompts. |

## Left out

- The LangGraph `StateGraph` wiring, its channels and `app.invoke` (lines 8-20, 90-96): the fixed order prepare, summarize, analyze is stated directly by `Flow.Pipeline`.
- `analyzeWithGemini` and `analyzeWithOllama`: network clients; they are one oracle parameter, and `await` is a plain call.
- `process.env`: `LLM_PROVIDER`, `GEMINI_MODEL` and `OLLAMA_MODEL` are a parameter record; an unset variable is the empty string, which is just as falsy.
- An absent `provider`, `model` or `type` is modelled as the empty string, so the unknown-type message for a missing `type` reads `Unknown type: ` rather than `Unknown type: undefined`.
- `JSON.parse` is a parameter returning an optional value; its grammar is not modelled.
- JSON numbers are natural numbers. `Number()` is modelled for natural numbers, booleans, `null`, digit strings (after trimming white space), arrays through their string form, and objects as `[object Object]`; decimals, signs, exponents, hexadecimal, binary and octal literals, `Infinity` and floating-point sums are not modelled.
- Objects with their own `toString` key. `JSON.parse` can produce one, such as `{"toString": 0}`. `String()` and `Number()` throw a TypeError on such an object and on an array holding one. The model reads it as `[object Object]` instead, which coerces to 0, so the throws listed in the lines below are not modelled.
- `String(text)` in `extractJmapRows`: the text is taken to be a string already.
- NormalizeSummary: does not model the TypeError that `String()` or `Number()` throws on a field holding an object with its own `toString` key. In the source the `catch` at line 143 then keeps the assignments made before the throw and skips the rest; the model converts every field.
- NormalizeJstack: does not model that throw on `totalThreads`, `blockedByMonitor` or a `byState` value. The source keeps the fields converted before it, in the order of lines 115-120 and of `Object.keys`, and leaves the rest; the model's objects have no key order.
- NormalizeJmap: does not model that throw on `totalBytes` or on an entry's `className`, `bytes` or `instances`. The source then leaves `topByBytes` unconverted, unsorted and uncut (and `totalBytes` too, when it threw there); the model ranks the list.
- NormalizeFlame: does not model that throw on `totalSamples` or on an element's `name` or `samples`. The source then leaves `topFunctions` unmapped; the model maps it.
- ConvertCounts: does not model that throw on a `byState` value. The source's loop stops at it, with the keys before it in `Object.keys` order converted; the model converts every key.
- ConvertKeys: as ConvertCounts, for the keys of an object.
- ConvertIndices: as ConvertCounts, for the elements of an array.
- Summarize: does not model the uncaught throw of lines 75-76 when `totalBytes`, or an entry's `bytes`, still holds an object with its own `toString` key. The source's node then fails where the model returns the summary.
- AnalyzeFile: inherits the gap of Summarize: such a reply makes the source's run fail where the model's succeeds.
- RecomputeTotalSpec: "fails exactly when an entry is `null`" holds only for summaries without objects that have their own `toString` key. In the source the recompute also throws when `totalBytes` or an entry's `bytes` holds one.
- `toLowerCase()` lower-cases ASCII letters only.
- Update in place and aliasing: `normalizeSummary` and the recompute at line 76 mutate the summary object; the model works on values. The parsed reply is a fresh object no one else holds, so the two agree.
- The constant `parsed: null` field of `analyzeFile`'s result is not modelled.
- Concurrency: the nodes run one after another; nothing else runs between the awaited calls.
