/** The prompts of the pipeline: the `prepare` node's per-type templates
    (src/llm/langGraphFlow.js:23-44) and the two stricter `jmap` re-prompts
    (src/llm/langGraphFlow.js:160-176 and 195-212). Every template is a fixed head
    followed by the data, which is embedded verbatim at the end. */
module Prompts {
  import opened Wrappers
  import opened Text
  import opened JsNumber
  import opened Histogram

  /** The two prompts `prepare` hands on: one for the prose analysis, one asking for the
      JSON summary. */
  datatype Prepared = Prepared(prompt: string, summaryPrompt: string)

  const JstackPrompt: string := "You are a senior JVM performance engineer. Analyze this Java thread dump (jstack). Provide hotspots, blocked threads, deadlocks, and remediation steps.\n\n"
  const JstackSummaryPrompt: string := "You are a precise data extractor. From this jstack thread dump, output ONLY a compact JSON object with this exact shape and keys:\n{\n  \"type\": \"jstack\",\n  \"totalThreads\": number,\n  \"byState\": {\"RUNNABLE\": number, \"BLOCKED\": number, \"WAITING\": number, \"TIMED_WAITING\": number},\n  \"blockedByMonitor\": number\n}\nRules: No explanation. No markdown fences. Numbers only.\n\nDump:\n"
  const JmapPrompt: string := "You are a senior JVM memory analyst. Analyze this Java heap histogram (jmap -histo). Identify memory leaks, large objects, and GC tuning suggestions.\n\n"
  const JmapSummaryPrompt: string := "You are a precise data extractor. From this jmap -histo output, output ONLY a JSON object with EXACT keys and types:\n{\n  \"type\": \"jmap\",\n  \"totalBytes\": number,\n  \"topByBytes\": [{\"className\": string, \"bytes\": number, \"instances\": number}]\n}\nRules:\n- Parse only histogram rows (ignore headers like \"num #instances #bytes class name\" and footers like \"Total\").\n- Sort topByBytes by bytes desc and include up to 10 entries.\n- Use full class names as-is.\n- Numbers only (no commas), no extra keys, no markdown.\n\nData:\n"
  const FlamePrompt: string := "You are a senior performance profiler. Analyze this CPU flame graph (folded stacks). Summarize top hot paths, potential bottlenecks, and code areas to optimize.\n\n"
  const FlameSummaryPrompt: string := "You are a precise data extractor. From these folded stacks, output ONLY a JSON object:\n{\n  \"type\": \"flame\",\n  \"totalSamples\": number,\n  \"topFunctions\": [{\"name\": string, \"samples\": number}]\n}\nConstraints: topFunctions up to 10 entries sorted by samples desc. No markdown.\n\nData:\n"

  /** The `prepare` node: the prompts for a known dump type, or the error it throws. */
  function Prepare(kind: string, text: string): Result<Prepared, string>
  {
    if kind == "jstack" then Ok(Prepared(JstackPrompt + text, JstackSummaryPrompt + text))
    else if kind == "jmap" then Ok(Prepared(JmapPrompt + text, JmapSummaryPrompt + text))
    else if kind == "flame" then Ok(Prepared(FlamePrompt + text, FlameSummaryPrompt + text))
    else Err("Unknown type: " + kind)
  }

  /** The switch accepts exactly the three dump types and rejects anything else with
      `Unknown type: <type>`; the heads do not depend on the data, which follows them
      unchanged. */
  lemma PrepareSpec(kind: string, text: string)
    ensures Prepare(kind, text).Ok? <==> kind in {"jstack", "jmap", "flame"}
    ensures Prepare(kind, text).Err? ==> Prepare(kind, text).error == "Unknown type: " + kind
    ensures Prepare(kind, text).Ok? ==>
      && Prepare(kind, text).value.prompt == Prepare(kind, "").value.prompt + text
      && Prepare(kind, text).value.summaryPrompt == Prepare(kind, "").value.summaryPrompt + text
  {
    if kind in {"jstack", "jmap", "flame"} {
      var e := Prepare(kind, "").value;
      assert e.prompt + "" == e.prompt;
      assert e.summaryPrompt + "" == e.summaryPrompt;
    }
  }

  const RefineHead: string := "Output ONLY JSON with EXACT keys and types, no markdown:\n{\n  \"type\": \"jmap\",\n  \"totalBytes\": number,\n  \"topByBytes\": [{\"className\": string, \"bytes\": number, \"instances\": number}]\n}\nInstructions:\n- Consider lines matching the histogram row shape, typically: \"<rank>: <instances> <bytes> <class name>\".\n- Remove commas from numbers. Ignore header/footer lines. Use full class names.\n- Sort topByBytes by bytes desc; include up to 10.\n\nData:\n"

  /** `refineJmapSummary`'s prompt. */
  function RefinePrompt(text: string): (p: string)
    ensures |p| == |RefineHead| + |text| && p[|RefineHead|..] == text
  {
    RefineHead + text
  }

  const RowsHead: string := "Output ONLY JSON with EXACT keys and types, no markdown:\n{\n  \"type\": \"jmap\",\n  \"totalBytes\": number,\n  \"topByBytes\": [{\"className\": string, \"bytes\": number, \"instances\": number}]\n}\nInstructions:\n- Use the provided histogram rows only (format: \"<instances> <bytes> <class>\").\n- Sort by bytes desc; include up to 10 entries.\n- Numbers only (no commas). Use class as-is.\n\nRows:\n"

  /** One line of `refineJmapFromRows`' list: both columns without their commas, then
      the class name. */
  function RowLine(r: HistoRow): string
  {
    StripCommas(r.instances) + " " + StripCommas(r.bytes) + " " + r.className
  }

  /** `rows.map(...).join('\n')` */
  function RowList(rows: seq<HistoRow>): string
  {
    if rows == [] then "" else JoinLines(seq(|rows|, i requires 0 <= i < |rows| => RowLine(rows[i])))
  }

  /** `refineJmapFromRows`' prompt. */
  function RowsPrompt(rows: seq<HistoRow>): (p: string)
    ensures |p| == |RowsHead| + |RowList(rows)| && p[|RowsHead|..] == RowList(rows)
  {
    RowsHead + RowList(rows)
  }

  /** The row list holds no comma in its numbers and reads back, line by line, as one
      line per row, in order, as long as no class name breaks a line (which scanned
      rows never do). */
  lemma RowListLines(rows: seq<HistoRow>)
    requires rows != []
    requires forall k :: 0 <= k < |rows| ==> Listable(rows[k])
    ensures SplitLines(RowList(rows)) == seq(|rows|, i requires 0 <= i < |rows| => RowLine(rows[i]))
    ensures forall k :: 0 <= k < |rows| ==> ',' !in StripCommas(rows[k].instances) && ',' !in StripCommas(rows[k].bytes)
  {
    var ls := seq(|rows|, i requires 0 <= i < |rows| => RowLine(rows[i]));
    forall k | 0 <= k < |rows|
      ensures '\n' !in ls[k] && (ls[k] == [] || ls[k][|ls[k]| - 1] != '\r')
      ensures ',' !in StripCommas(rows[k].instances) && ',' !in StripCommas(rows[k].bytes)
    {
      RowLineShape(rows[k]);
    }
    SplitJoinRoundTrip(ls);
  }

  /** What `RowShape` promises of a scanned row: columns of digits and commas, and a
      class name without a line break. */
  predicate Listable(r: HistoRow)
  {
    && AllNumChars(r.instances) && AllNumChars(r.bytes)
    && forall i :: 0 <= i < |r.className| ==> !IsLineTerminator(r.className[i])
  }

  lemma RowLineShape(r: HistoRow)
    requires Listable(r)
    ensures '\n' !in RowLine(r)
    ensures RowLine(r) != [] && RowLine(r)[|RowLine(r)| - 1] != '\r'
    ensures ',' !in StripCommas(r.instances) && ',' !in StripCommas(r.bytes)
  {
    var a := StripCommas(r.instances);
    var b := StripCommas(r.bytes);
    forall i | 0 <= i < |a| ensures a[i] != '\n' && a[i] != ',' {
      assert a[i] in a;
      var j :| 0 <= j < |r.instances| && r.instances[j] == a[i];
    }
    forall i | 0 <= i < |b| ensures b[i] != '\n' && b[i] != ',' {
      assert b[i] in b;
      var j :| 0 <= j < |r.bytes| && r.bytes[j] == b[i];
    }
    var line := RowLine(r);
    forall i | 0 <= i < |line| ensures line[i] != '\n' {
      if i >= |a| + |b| + 2 {
        assert line[i] == r.className[i - |a| - |b| - 2];
      }
    }
  }
}
