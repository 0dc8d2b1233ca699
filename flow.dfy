/** A run of the pipeline: the `summarize` node with its `jmap` fallback chain and
    `totalBytes` recompute (src/llm/langGraphFlow.js:47-79), and the three nodes run in
    their fixed order prepare, summarize, analyze (src/llm/langGraphFlow.js:82-93 and
    155-158). The model clients are one oracle parameter and `JSON.parse` another. */
module Flow {
  import opened Wrappers
  import opened Json
  import opened JsNumber
  import opened Ranking
  import opened Normalize
  import opened JsonRecovery
  import opened Histogram
  import opened Prompts
  import opened Provider

  /** What a model call gives back: its text, or the error it throws. */
  datatype Reply = Answer(text: string) | Thrown(message: string)

  /** `analyzeWithGemini` / `analyzeWithOllama`: the reply of a backend, for a model name
      and a prompt. */
  type Oracle = (Backend, string, string) -> Reply

  /** How a run fails: the `prepare` switch throws, a model call throws, or the
      `totalBytes` recompute reads `.bytes` of a `null` entry. */
  datatype Failure = UnknownType(message: string) | CallFailed(message: string) | NullEntry

  /** What stays fixed through a run: the parser, the oracle, and the backend and model
      resolved from the request and the environment. */
  datatype Setup = Setup(parse: Parser, llm: Oracle, backend: Backend, model: string)

  /** `summary && Array.isArray(summary.topByBytes) && summary.topByBytes.length > 0`,
      the negation of the emptiness test of lines 54, 59 and 65. */
  predicate Usable(s: Json)
  {
    s.JObj? && "topByBytes" in s.fields && s.fields["topByBytes"].JArr? && |s.fields["topByBytes"].items| > 0
  }

  /** `if (refined) summary = normalizeSummary(refined)` */
  function Adopt(summary: Json, candidate: Json): Json
  {
    if Truthy(candidate) then Normalized(candidate) else summary
  }

  /** A scanned row as line 67 reads it. */
  function RowEntry(r: HistoRow): Entry
  {
    Entry(r.className, ToNumberStripped(Some(JStr(r.bytes))), ToNumberStripped(Some(JStr(r.instances))))
  }

  function RowEntries(rows: seq<HistoRow>): seq<Entry>
  {
    seq(|rows|, i requires 0 <= i < |rows| => RowEntry(rows[i]))
  }

  /** The entries the last-resort summary keeps. */
  function LastResortTop(rows: seq<HistoRow>): seq<Entry>
  {
    Top(SortByBytes(RowEntries(rows)), TopCount)
  }

  /** Lines 66-70: the summary built locally from the scanned rows. */
  function LastResort(rows: seq<HistoRow>): Json
  {
    var top := LastResortTop(rows);
    JObj(map["type" := JStr("jmap"), "totalBytes" := JNum(TotalBytes(top)), "topByBytes" := JArr(EntriesJson(top))])
  }

  /** `summary.totalBytes == null || Number.isNaN(Number(summary.totalBytes))` */
  predicate TotalMissing(s: Json)
  {
    Get(s, "totalBytes") == Some(JNull) || NumberOfProp(Get(s, "totalBytes")).NaN?
  }

  /** `items.reduce((s, it) => s + (Number(it.bytes) || 0), 0)` for entries none of which
      is `null`. */
  function BytesSum(items: seq<Json>): nat
  {
    if items == [] then 0 else BytesSum(items[..|items| - 1]) + ToNumber(Get(items[|items| - 1], "bytes"))
  }

  /** Lines 74-77. */
  function RecomputeTotal(kind: string, s: Json): Result<Json, Failure>
  {
    if kind == "jmap" && Usable(s) && TotalMissing(s) then
      var items := s.fields["topByBytes"].items;
      if JNull in items then Err(NullEntry)
      else Ok(JObj(s.fields["totalBytes" := JNum(BytesSum(items))]))
    else Ok(s)
  }

  /** `refineJmapSummary(text, llmCall, model)`: the parsed reply to the refinement
      prompt, or the error the call throws. */
  function RefineJmapSummary(text: string, setup: Setup): Result<Json, Failure>
  {
    match setup.llm(setup.backend, setup.model, RefinePrompt(text))
    case Thrown(m) => Err(CallFailed(m))
    case Answer(raw) => Ok(SafeJson(setup.parse, raw))
  }

  /** `refineJmapFromRows(rows, llmCall, model)` */
  function RefineJmapFromRows(rows: seq<HistoRow>, setup: Setup): Result<Json, Failure>
  {
    match setup.llm(setup.backend, setup.model, RowsPrompt(rows))
    case Thrown(m) => Err(CallFailed(m))
    case Answer(raw) => Ok(SafeJson(setup.parse, raw))
  }

  /** The result of the `summarize` node and the prompts it sent, in order. */
  datatype Run = Run(result: Result<Json, Failure>, prompts: seq<string>)

  /** Lines 59-78, once the refinement left `summary` as `s2`. */
  function RowsStage(text: string, s2: Json, setup: Setup, sent: seq<string>): Run
  {
    var rows := RowsOf(SplitLines(text));
    if Usable(s2) || rows == [] then Run(RecomputeTotal("jmap", s2), sent)
    else
      match RefineJmapFromRows(rows, setup)
      case Err(f) => Run(Err(f), sent + [RowsPrompt(rows)])
      case Ok(fromRows) =>
        var s3 := Adopt(s2, fromRows);
        var s4 := if Usable(s3) then s3 else LastResort(rows);
        Run(RecomputeTotal("jmap", s4), sent + [RowsPrompt(rows)])
  }

  /** Lines 54-78 for a `jmap` run whose first summary is `s1`. */
  function RefineStage(text: string, s1: Json, setup: Setup, sent: seq<string>): Run
  {
    if Usable(s1) then Run(RecomputeTotal("jmap", s1), sent)
    else
      match RefineJmapSummary(text, setup)
      case Err(f) => Run(Err(f), sent + [RefinePrompt(text)])
      case Ok(refined) => RowsStage(text, Adopt(s1, refined), setup, sent + [RefinePrompt(text)])
  }

  /** The specification of the `summarize` node. */
  function SummaryRun(kind: string, text: string, summaryPrompt: string, setup: Setup): Run
  {
    match setup.llm(setup.backend, setup.model, summaryPrompt)
    case Thrown(m) => Run(Err(CallFailed(m)), [summaryPrompt])
    case Answer(raw) =>
      var s1 := Normalized(SafeJson(setup.parse, raw));
      if kind == "jmap" then RefineStage(text, s1, setup, [summaryPrompt])
      else Run(RecomputeTotal(kind, s1), [summaryPrompt])
  }

  /** The `summarize` node, reassigning `summary` step by step. */
  method Summarize(kind: string, text: string, summaryPrompt: string, setup: Setup) returns (result: Result<Json, Failure>, prompts: seq<string>)
    ensures Run(result, prompts) == SummaryRun(kind, text, summaryPrompt, setup)
  {
    prompts := [summaryPrompt];
    var raw := setup.llm(setup.backend, setup.model, summaryPrompt);
    if raw.Thrown? {
      return Err(CallFailed(raw.message)), prompts;
    }
    var summary := NormalizeSummary(SafeJson(setup.parse, raw.text));
    ghost var s1 := summary;
    if kind == "jmap" && !Usable(summary) {
      prompts := prompts + [RefinePrompt(text)];
      var refined := RefineJmapSummary(text, setup);
      if refined.Err? {
        return Err(refined.error), prompts;
      }
      if Truthy(refined.value) {
        summary := NormalizeSummary(refined.value);
      }
    }
    ghost var s2 := summary;
    if kind == "jmap" && !Usable(summary) {
      var rows := ExtractJmapRows(text);
      if |rows| > 0 {
        prompts := prompts + [RowsPrompt(rows)];
        var fromRows := RefineJmapFromRows(rows, setup);
        if fromRows.Err? {
          return Err(fromRows.error), prompts;
        }
        if Truthy(fromRows.value) {
          summary := NormalizeSummary(fromRows.value);
        }
        if !Usable(summary) {
          summary := LastResort(rows);
        }
      }
    }
    if kind == "jmap" && Usable(summary) && TotalMissing(summary) {
      var items := summary.fields["topByBytes"].items;
      if JNull in items {
        return Err(NullEntry), prompts;
      }
      summary := JObj(summary.fields["totalBytes" := JNum(BytesSum(items))]);
    }
    result := Ok(summary);
    if kind == "jmap" {
      if Usable(s1) {
        assert SummaryRun(kind, text, summaryPrompt, setup) == RefineStage(text, s1, setup, [summaryPrompt]);
      } else {
        assert SummaryRun(kind, text, summaryPrompt, setup) == RowsStage(text, s2, setup, prompts[..2]);
      }
    }
  }

  /** A request to `analyzeFile`; an absent provider or model is the empty string. */
  datatype Request = Request(kind: string, text: string, provider: string, model: string)

  /** What `analyzeFile` returns besides its constant `parsed: null`. */
  datatype Outcome = Outcome(summary: Json, analysis: string)

  /** The backend and model both model-calling nodes resolve for a request. */
  function SetupFor(req: Request, env: Env, parse: Parser, llm: Oracle): Setup
  {
    var p := ResolveProvider(req.provider, env);
    Setup(parse, llm, BackendFor(p), ChooseModel(p, req.model, env))
  }

  /** The specification of a run: `prepare`, then `summarize`, then `analyze`, each
      stopping the run when it throws; the prompts sent, in order. */
  function Pipeline(req: Request, env: Env, parse: Parser, llm: Oracle): (Result<Outcome, Failure>, seq<string>)
  {
    var setup := SetupFor(req, env, parse, llm);
    match Prepare(req.kind, req.text)
    case Err(msg) => (Err(UnknownType(msg)), [])
    case Ok(prep) =>
      var run := SummaryRun(req.kind, req.text, prep.summaryPrompt, setup);
      if run.result.Err? then (Err(run.result.error), run.prompts)
      else
        match llm(setup.backend, setup.model, prep.prompt)
        case Thrown(m) => (Err(CallFailed(m)), run.prompts + [prep.prompt])
        case Answer(a) => (Ok(Outcome(run.result.value, a)), run.prompts + [prep.prompt])
  }

  /** `analyzeFile(type, text, { provider, model })` */
  method AnalyzeFile(req: Request, env: Env, parse: Parser, llm: Oracle) returns (result: Result<Outcome, Failure>, prompts: seq<string>)
    ensures (result, prompts) == Pipeline(req, env, parse, llm)
  {
    var setup := SetupFor(req, env, parse, llm);
    var prepared := Prepare(req.kind, req.text);
    if prepared.Err? {
      return Err(UnknownType(prepared.error)), [];
    }
    var summary;
    summary, prompts := Summarize(req.kind, req.text, prepared.value.summaryPrompt, setup);
    if summary.Err? {
      return Err(summary.error), prompts;
    }
    prompts := prompts + [prepared.value.prompt];
    var analysis := llm(setup.backend, setup.model, prepared.value.prompt);
    if analysis.Thrown? {
      return Err(CallFailed(analysis.message)), prompts;
    }
    return Ok(Outcome(summary.value, analysis.text)), prompts;
  }
}
