/** What a run of the pipeline promises: which prompts the `summarize` node sends and
    when, what the local fallback of lines 64-71 builds, what the `totalBytes` recompute
    of lines 74-77 does, and the order of the three nodes. */
module FlowProperties {
  import opened Wrappers
  import opened Json
  import opened Text
  import opened JsNumber
  import opened Ranking
  import opened Normalize
  import opened JsonRecovery
  import opened Histogram
  import opened HistogramExamples
  import opened Prompts
  import opened Provider
  import opened Flow

  /** The reply to the first prompt of the `summarize` node. */
  function FirstReply(summaryPrompt: string, setup: Setup): Reply
  {
    setup.llm(setup.backend, setup.model, summaryPrompt)
  }

  /** The summary the first reply gives, when the call did not throw. */
  function FirstSummary(summaryPrompt: string, setup: Setup): Json
    requires FirstReply(summaryPrompt, setup).Answer?
  {
    Normalized(SafeJson(setup.parse, FirstReply(summaryPrompt, setup).text))
  }

  /** The reply to the refinement prompt. */
  function SecondReply(text: string, setup: Setup): Reply
  {
    setup.llm(setup.backend, setup.model, RefinePrompt(text))
  }

  /** The rows the scanner finds in the dump. */
  function ScannedRows(text: string): seq<HistoRow>
  {
    RowsOf(SplitLines(text))
  }

  // ---------------------------------------------------------------------------------
  // The totalBytes recompute

  /** The recompute sums the same bytes the local fallback does. */
  lemma {:induction false} BytesSumOfEntries(es: seq<Entry>)
    ensures BytesSum(EntriesJson(es)) == TotalBytes(es)
    decreases |es|
  {
    if es != [] {
      var n := |es| - 1;
      BytesSumOfEntries(es[..n]);
      BytesSumLast(es);
      TotalBytesLast(es);
    }
  }

  /** The recompute's sum over written entries, split before the last one. */
  lemma BytesSumLast(es: seq<Entry>)
    requires es != []
    ensures var n := |es| - 1; BytesSum(EntriesJson(es)) == BytesSum(EntriesJson(es[..n])) + es[n].bytes
  {
    var n := |es| - 1;
    assert EntriesJson(es)[..n] == EntriesJson(es[..n]);
    NumberCoercionsKeepNaturals(es[n].bytes);
    assert Get(EntriesJson(es)[n], "bytes") == Some(JNum(es[n].bytes));
  }

  /** The fallback's total, split before the last entry. */
  lemma TotalBytesLast(es: seq<Entry>)
    requires es != []
    ensures var n := |es| - 1; TotalBytes(es) == TotalBytes(es[..n]) + es[n].bytes
  {
    var n := |es| - 1;
    assert es == es[..n] + [es[n]];
    TotalBytesAppend(es[..n], [es[n]]);
  }

  /** The recompute changes nothing unless it is a `jmap` run whose summary has entries
      and lacks a usable total; then it fails exactly when an entry is `null`, and
      otherwise sets `totalBytes` to the sum of the entries' bytes and leaves every
      other field as it was. */
  lemma RecomputeTotalSpec(kind: string, s: Json)
    ensures !(kind == "jmap" && Usable(s) && TotalMissing(s)) ==> RecomputeTotal(kind, s) == Ok(s)
    ensures kind == "jmap" && Usable(s) && TotalMissing(s) ==>
      var items := s.fields["topByBytes"].items;
      && (RecomputeTotal(kind, s).Err? <==> JNull in items)
      && (RecomputeTotal(kind, s).Ok? ==>
            var t := RecomputeTotal(kind, s).value;
            && t.JObj? && t.fields.Keys == s.fields.Keys + {"totalBytes"}
            && t.fields["totalBytes"] == JNum(BytesSum(items))
            && forall k :: k in s.fields && k != "totalBytes" ==> t.fields[k] == s.fields[k])
  {
  }

  /** The recompute keeps a summary's entries and, run again, changes nothing more. */
  lemma RecomputeIdempotent(kind: string, s: Json)
    requires RecomputeTotal(kind, s).Ok?
    ensures var t := RecomputeTotal(kind, s).value;
      && (Usable(t) <==> Usable(s))
      && RecomputeTotal(kind, t) == Ok(t)
  {
    var t := RecomputeTotal(kind, s).value;
    if kind == "jmap" && Usable(s) && TotalMissing(s) {
      assert Get(t, "totalBytes") == Some(JNum(BytesSum(s.fields["topByBytes"].items)));
    }
  }

  /** After normalisation a `jmap` summary needs the recompute exactly when the model
      left `totalBytes` out or sent `null`: any other value has become a number. */
  lemma RecomputeOnlyWithoutTotal(summary: Json)
    requires summary.JObj? && Get(summary, "type") == Some(JStr("jmap"))
    ensures TotalMissing(Normalized(summary)) <==> !PresentIn(summary.fields, "totalBytes")
  {
    NormalizedJmapTotal(summary);
  }

  // ---------------------------------------------------------------------------------
  // The local fallback

  /** The fields of the local fallback, by name. */
  lemma LastResortFields(rows: seq<HistoRow>)
    ensures var s, top := LastResort(rows), LastResortTop(rows);
      && s.JObj? && s.fields.Keys == {"type", "totalBytes", "topByBytes"}
      && Get(s, "type") == Some(JStr("jmap"))
      && Get(s, "totalBytes") == Some(JNum(TotalBytes(top)))
      && s.fields["topByBytes"] == JArr(EntriesJson(top))
  {
  }

  /** The entries of the local fallback: the largest ten of the rows (or all of them),
      sorted by bytes from largest down and drawn from the rows. */
  lemma LastResortRanking(rows: seq<HistoRow>)
    ensures var top := LastResortTop(rows);
      && |top| == (if |rows| <= TopCount then |rows| else TopCount)
      && SortedByBytes(top)
      && multiset(top) <= multiset(RowEntries(rows))
      && forall i, x :: 0 <= i < |top| && x in multiset(RowEntries(rows)) - multiset(top) ==> x.bytes <= top[i].bytes
  {
    RankedTop(RowEntries(rows));
    TopKeepsLargest(RowEntries(rows));
  }

  /** The local fallback has entries when there are rows, and a total that is the sum
      of the entries it keeps, so the recompute leaves it alone. */
  lemma LastResortShape(rows: seq<HistoRow>)
    requires rows != []
    ensures var s, top := LastResort(rows), LastResortTop(rows);
      && Usable(s)
      && !TotalMissing(s)
      && Get(s, "totalBytes") == Some(JNum(BytesSum(EntriesJson(top))))
      && RecomputeTotal("jmap", s) == Ok(s)
  {
    LastResortUsable(rows);
    LastResortTotal(rows);
  }

  lemma LastResortUsable(rows: seq<HistoRow>)
    requires rows != []
    ensures Usable(LastResort(rows))
  {
    LastResortFields(rows);
    LastResortRanking(rows);
    assert |EntriesJson(LastResortTop(rows))| > 0;
  }

  lemma LastResortTotal(rows: seq<HistoRow>)
    ensures var s, top := LastResort(rows), LastResortTop(rows);
      && !TotalMissing(s)
      && Get(s, "totalBytes") == Some(JNum(BytesSum(EntriesJson(top))))
      && RecomputeTotal("jmap", s) == Ok(s)
  {
    var top := LastResortTop(rows);
    LastResortFields(rows);
    BytesSumOfEntries(top);
    assert NumberOfProp(Get(LastResort(rows), "totalBytes")) == Finite(TotalBytes(top));
  }

  /** Normalising the local fallback changes nothing: it is already in the form the
      model's summaries are brought to. */
  lemma LastResortIsNormal(rows: seq<HistoRow>)
    ensures Normalized(LastResort(rows)) == LastResort(rows)
  {
    var top := LastResortTop(rows);
    LastResortFields(rows);
    LastResortRanking(rows);
    RankedFieldsAreNormal(LastResort(rows).fields, top);
  }

  /** `jmap` fields holding a number as `totalBytes` and a ranked list as `topByBytes`
      come through the `jmap` branch of normalisation unchanged. */
  lemma RankedFieldsAreNormal(f: map<string, Json>, top: seq<Entry>)
    requires "totalBytes" in f && f["totalBytes"].JNum?
    requires "topByBytes" in f && f["topByBytes"] == JArr(EntriesJson(top))
    requires SortedByBytes(top) && |top| <= TopCount
    ensures JmapFields(f) == f
  {
    NumberCoercionsKeepNaturals(f["totalBytes"].n);
    assert Coerced(f, "totalBytes", true) == f;
    TopUnchanged(top);
    assert f["topByBytes" := JArr(RankedTopByBytes(EntriesJson(top)))] == f;
  }

  /** Ranking an already ranked list again gives it back. */
  lemma TopUnchanged(top: seq<Entry>)
    requires SortedByBytes(top) && |top| <= TopCount
    ensures RankedTopByBytes(EntriesJson(top)) == EntriesJson(top)
  {
    EntriesJsonRoundTrip(top);
    SortKeepsSorted(top);
  }

  // ---------------------------------------------------------------------------------
  // The fallback chain

  /** The `summarize` node sends one to three prompts: the summary prompt first, the
      refinement prompt only in a `jmap` run, and the rows prompt only when the scanner
      found rows, built from exactly those rows. Any other type makes a single call. */
  lemma SummaryPrompts(kind: string, text: string, summaryPrompt: string, setup: Setup)
    ensures var ps := SummaryRun(kind, text, summaryPrompt, setup).prompts;
      && 1 <= |ps| <= 3
      && ps[0] == summaryPrompt
      && (kind != "jmap" ==> |ps| == 1)
      && (|ps| >= 2 ==> ps[1] == RefinePrompt(text))
      && (|ps| == 3 ==> ScannedRows(text) != [] && ps[2] == RowsPrompt(ScannedRows(text)))
  {
    if kind == "jmap" && FirstReply(summaryPrompt, setup).Answer? {
      var s1 := FirstSummary(summaryPrompt, setup);
      assert SummaryRun(kind, text, summaryPrompt, setup) == RefineStage(text, s1, setup, [summaryPrompt]);
      RefineStagePrompts(text, s1, setup, [summaryPrompt]);
    }
  }

  /** The refinement stage adds nothing, the refinement prompt, or that and the rows
      prompt. */
  lemma RefineStagePrompts(text: string, s1: Json, setup: Setup, sent: seq<string>)
    ensures var ps := RefineStage(text, s1, setup, sent).prompts;
      || ps == sent
      || ps == sent + [RefinePrompt(text)]
      || (ScannedRows(text) != [] && ps == sent + [RefinePrompt(text), RowsPrompt(ScannedRows(text))])
  {
    if !Usable(s1) && RefineJmapSummary(text, setup).Ok? {
      var s2 := Adopt(s1, RefineJmapSummary(text, setup).value);
      RowsStagePrompts(text, s2, setup, sent + [RefinePrompt(text)]);
    }
  }

  /** The rows stage adds nothing or the rows prompt, and the latter only with rows. */
  lemma RowsStagePrompts(text: string, s2: Json, setup: Setup, sent: seq<string>)
    ensures var ps := RowsStage(text, s2, setup, sent).prompts;
      || ps == sent
      || (ScannedRows(text) != [] && ps == sent + [RowsPrompt(ScannedRows(text))])
  {
  }

  /** The refinement prompt is sent exactly when a `jmap` run's first summary, after
      normalisation, has no entries. */
  lemma RefineOnlyWhenEmpty(kind: string, text: string, summaryPrompt: string, setup: Setup)
    ensures |SummaryRun(kind, text, summaryPrompt, setup).prompts| >= 2 <==>
      kind == "jmap" && FirstReply(summaryPrompt, setup).Answer? && !Usable(FirstSummary(summaryPrompt, setup))
  {
  }

  /** The rows prompt is sent exactly when the refinement also left the summary without
      entries and the scanner found rows. */
  lemma RowsPromptOnlyWhenStillEmpty(kind: string, text: string, summaryPrompt: string, setup: Setup)
    ensures |SummaryRun(kind, text, summaryPrompt, setup).prompts| == 3 <==>
      && kind == "jmap" && FirstReply(summaryPrompt, setup).Answer? && !Usable(FirstSummary(summaryPrompt, setup))
      && SecondReply(text, setup).Answer?
      && !Usable(Adopt(FirstSummary(summaryPrompt, setup), SafeJson(setup.parse, SecondReply(text, setup).text)))
      && ScannedRows(text) != []
  {
  }

  /** Each stage's result is the recompute applied to a summary that has entries, or
      the refined summary when the scanner found no rows. */
  lemma RecomputeKeepsUsable(kind: string, s: Json)
    requires Usable(s) && RecomputeTotal(kind, s).Ok?
    ensures Usable(RecomputeTotal(kind, s).value)
  {
  }

  /** A `jmap` run over a dump in which the scanner finds rows never ends with an empty
      summary: when no call throws and no entry is `null`, the summary has entries. */
  lemma NeverEmptyWithRows(text: string, summaryPrompt: string, setup: Setup)
    requires ScannedRows(text) != []
    requires SummaryRun("jmap", text, summaryPrompt, setup).result.Ok?
    ensures Usable(SummaryRun("jmap", text, summaryPrompt, setup).result.value)
  {
    var rows := ScannedRows(text);
    LastResortShape(rows);
    var first := FirstReply(summaryPrompt, setup);
    var s1 := FirstSummary(summaryPrompt, setup);
    if !Usable(s1) {
      var refined := RefineJmapSummary(text, setup);
      var s2 := Adopt(s1, refined.value);
      if !Usable(s2) {
        var fromRows := RefineJmapFromRows(rows, setup);
        var s3 := Adopt(s2, fromRows.value);
        var s4 := if Usable(s3) then s3 else LastResort(rows);
        RecomputeKeepsUsable("jmap", s4);
      } else {
        RecomputeKeepsUsable("jmap", s2);
      }
    } else {
      RecomputeKeepsUsable("jmap", s1);
    }
  }

  /** When the refined summary has no entries and the scanner finds no rows, the node
      ends with the refined summary as it is, without a third call. */
  lemma NoRowsKeepsSummary(text: string, summaryPrompt: string, setup: Setup)
    requires FirstReply(summaryPrompt, setup).Answer? && !Usable(FirstSummary(summaryPrompt, setup))
    requires SecondReply(text, setup).Answer?
    requires ScannedRows(text) == []
    ensures var s2 := Adopt(FirstSummary(summaryPrompt, setup), SafeJson(setup.parse, SecondReply(text, setup).text));
      !Usable(s2) ==>
        SummaryRun("jmap", text, summaryPrompt, setup) == Run(Ok(s2), [summaryPrompt, RefinePrompt(text)])
  {
  }

  /** When every reply fails to give entries and the scanner found rows, the summary is
      the one built locally from the rows. */
  lemma LastResortWhenAllEmpty(text: string, summaryPrompt: string, setup: Setup, raw2: string, raw3: string)
    requires FirstReply(summaryPrompt, setup).Answer? && !Usable(FirstSummary(summaryPrompt, setup))
    requires SecondReply(text, setup) == Answer(raw2)
    requires ScannedRows(text) != []
    requires setup.llm(setup.backend, setup.model, RowsPrompt(ScannedRows(text))) == Answer(raw3)
    requires var s2 := Adopt(FirstSummary(summaryPrompt, setup), SafeJson(setup.parse, raw2));
      !Usable(s2) && !Usable(Adopt(s2, SafeJson(setup.parse, raw3)))
    ensures SummaryRun("jmap", text, summaryPrompt, setup)
      == Run(Ok(LastResort(ScannedRows(text))), [summaryPrompt, RefinePrompt(text), RowsPrompt(ScannedRows(text))])
  {
    var s1 := FirstSummary(summaryPrompt, setup);
    var s2 := Adopt(s1, SafeJson(setup.parse, raw2));
    var rows := ScannedRows(text);
    JmapFirstStage(text, summaryPrompt, setup);
    RefineStageAnswered(text, s1, setup, [summaryPrompt], raw2);
    Appended(summaryPrompt, RefinePrompt(text));
    RowsStageFallback(text, s2, setup, [summaryPrompt, RefinePrompt(text)], raw3);
    AppendedTwo(summaryPrompt, RefinePrompt(text), RowsPrompt(rows));
  }

  lemma Appended(a: string, b: string)
    ensures [a] + [b] == [a, b]
  {
  }

  lemma AppendedTwo(a: string, b: string, c: string)
    ensures [a, b] + [c] == [a, b, c]
  {
  }

  /** An answered first call of a `jmap` run hands its summary on to the refinement
      stage. */
  lemma JmapFirstStage(text: string, summaryPrompt: string, setup: Setup)
    requires FirstReply(summaryPrompt, setup).Answer?
    ensures SummaryRun("jmap", text, summaryPrompt, setup)
      == RefineStage(text, FirstSummary(summaryPrompt, setup), setup, [summaryPrompt])
  {
  }

  /** An answered refinement hands its summary on to the rows stage. */
  lemma RefineStageAnswered(text: string, s1: Json, setup: Setup, sent: seq<string>, raw2: string)
    requires !Usable(s1) && SecondReply(text, setup) == Answer(raw2)
    ensures RefineStage(text, s1, setup, sent)
      == RowsStage(text, Adopt(s1, SafeJson(setup.parse, raw2)), setup, sent + [RefinePrompt(text)])
  {
    assert RefineJmapSummary(text, setup) == Ok(SafeJson(setup.parse, raw2));
  }

  /** The rows stage falls back to the local summary when the rows prompt gives no
      entries either. */
  lemma RowsStageFallback(text: string, s2: Json, setup: Setup, sent: seq<string>, raw3: string)
    requires !Usable(s2) && ScannedRows(text) != []
    requires setup.llm(setup.backend, setup.model, RowsPrompt(ScannedRows(text))) == Answer(raw3)
    requires !Usable(Adopt(s2, SafeJson(setup.parse, raw3)))
    ensures RowsStage(text, s2, setup, sent) == Run(Ok(LastResort(ScannedRows(text))), sent + [RowsPrompt(ScannedRows(text))])
  {
    var rows := ScannedRows(text);
    assert RefineJmapFromRows(rows, setup) == Ok(SafeJson(setup.parse, raw3));
    LastResortTotal(rows);
  }

  /** A summary of another type is the normalised first reply, sent once. */
  lemma OtherTypesAskOnce(kind: string, text: string, summaryPrompt: string, setup: Setup)
    requires kind != "jmap"
    ensures SummaryRun(kind, text, summaryPrompt, setup) ==
      match FirstReply(summaryPrompt, setup)
      case Thrown(m) => Run(Err(CallFailed(m)), [summaryPrompt])
      case Answer(raw) => Run(Ok(Normalized(SafeJson(setup.parse, raw))), [summaryPrompt])
  {
  }

  /** A model that answers nothing, on a dump without rows: the summary is `null`. */
  lemma SilentModelNoRows(text: string, summaryPrompt: string, setup: Setup)
    requires forall b, m, p :: setup.llm(b, m, p) == Answer("")
    requires ScannedRows(text) == []
    ensures SummaryRun("jmap", text, summaryPrompt, setup) == Run(Ok(JNull), [summaryPrompt, RefinePrompt(text)])
  {
    assert FirstReply(summaryPrompt, setup) == Answer("");
    assert SecondReply(text, setup) == Answer("");
    NoRowsKeepsSummary(text, summaryPrompt, setup);
  }

  /** The one-line dump `x` has no rows. */
  lemma NoRowsInWord()
    ensures ScannedRows("x") == []
  {
    SplitOneLine("x");
    NoRankNoRow("x");
    RowsOfOne("x");
  }

  // ---------------------------------------------------------------------------------
  // The three nodes

  /** An unknown type stops the run in `prepare`, before any model is called. */
  lemma UnknownTypeStopsAtPrepare(req: Request, env: Env, parse: Parser, llm: Oracle)
    requires req.kind != "jstack" && req.kind != "jmap" && req.kind != "flame"
    ensures Pipeline(req, env, parse, llm) == (Err(UnknownType("Unknown type: " + req.kind)), [])
  {
    PrepareSpec(req.kind, req.text);
  }

  /** For a known type the nodes run in order: the `summarize` prompts come first and
      the analysis prompt is sent last, and only when `summarize` succeeded; the
      summary returned is the one `summarize` produced. */
  lemma NodesRunInOrder(req: Request, env: Env, parse: Parser, llm: Oracle)
    requires req.kind == "jstack" || req.kind == "jmap" || req.kind == "flame"
    ensures var prep := Prepare(req.kind, req.text);
      var run := SummaryRun(req.kind, req.text, prep.value.summaryPrompt, SetupFor(req, env, parse, llm));
      var (result, ps) := Pipeline(req, env, parse, llm);
      && prep.Ok?
      && ps[0] == prep.value.summaryPrompt
      && (run.result.Err? ==> result == Err(run.result.error) && ps == run.prompts)
      && (run.result.Ok? ==> ps == run.prompts + [prep.value.prompt] && 2 <= |ps| <= 4)
      && (result.Ok? ==> result.value.summary == run.result.value && ps[|ps| - 1] == prep.value.prompt)
  {
    PrepareSpec(req.kind, req.text);
    SummaryPrompts(req.kind, req.text, Prepare(req.kind, req.text).value.summaryPrompt, SetupFor(req, env, parse, llm));
  }

  /** A model that answers nothing, on a dump with rows: `summarize` asks three times
      and falls back to the scanned rows. */
  lemma SilentModelWithRows(text: string, summaryPrompt: string, setup: Setup)
    requires forall b, m, p :: setup.llm(b, m, p) == Answer("")
    requires ScannedRows(text) != []
    ensures SummaryRun("jmap", text, summaryPrompt, setup)
      == Run(Ok(LastResort(ScannedRows(text))), [summaryPrompt, RefinePrompt(text), RowsPrompt(ScannedRows(text))])
  {
    assert FirstReply(summaryPrompt, setup) == Answer("");
    LastResortWhenAllEmpty(text, summaryPrompt, setup, "", "");
  }

  /** The columns of the one-row dump, read as numbers with the separators stripped. */
  lemma OneRowEntry()
    ensures RowEntry(HistoRow("1,234", "56,789", "com.example.Foo")) == Entry("com.example.Foo", 56789, 1234)
  {
    BytesColumn();
    InstancesColumn();
  }

  lemma BytesColumn()
    ensures ToNumberStripped(Some(JStr("56,789"))) == 56789
  {
    BytesGrouped();
    CommaGroupedRoundTrip(56789);
  }

  lemma BytesGrouped()
    ensures Grouped(56789) == "56,789"
  {
    assert ShowNat(56) == "56";
    assert ThreeDigits(789) == "789";
    assert Grouped(56789) == Grouped(56) + "," + ThreeDigits(789);
  }

  lemma InstancesColumn()
    ensures ToNumberStripped(Some(JStr("1,234"))) == 1234
  {
    InstancesGrouped();
    CommaGroupedRoundTrip(1234);
  }

  lemma InstancesGrouped()
    ensures Grouped(1234) == "1,234"
  {
    assert ShowNat(1) == "1";
    assert ThreeDigits(234) == "234";
    assert Grouped(1234) == Grouped(1) + "," + ThreeDigits(234);
  }

  /** The fallback built from the row of the one-row dump. */
  lemma OneRowFallback()
    ensures LastResort([HistoRow("1,234", "56,789", "com.example.Foo")])
      == JObj(map["type" := JStr("jmap"), "totalBytes" := JNum(56789),
                  "topByBytes" := JArr([EntryJson(Entry("com.example.Foo", 56789, 1234))])])
  {
    OneRowEntry();
    SingleRowFallback(HistoRow("1,234", "56,789", "com.example.Foo"));
  }

  /** The fallback built from a single row holds that row's entry and its bytes. */
  lemma SingleRowFallback(r: HistoRow)
    ensures LastResort([r])
      == JObj(map["type" := JStr("jmap"), "totalBytes" := JNum(RowEntry(r).bytes), "topByBytes" := JArr([EntryJson(RowEntry(r))])])
  {
    var e := RowEntry(r);
    assert RowEntries([r]) == [e];
    SortKeepsSorted([e]);
    assert LastResortTop([r]) == [e];
    assert TotalBytes([e]) == e.bytes;
    assert EntriesJson([e]) == [EntryJson(e)];
  }

  /** The one-row dump gives exactly its row. */
  lemma OneRowScan(pad: string, moduleName: string)
    requires |pad| >= 1 && AllSpaces(pad) && '\n' !in pad
    requires ')' !in moduleName && '\n' !in moduleName
    ensures ScannedRows(pad + "1" + ":" + pad + "1,234" + pad + "56,789" + pad + "com.example.Foo" + (" (" + moduleName + ")"))
      == [HistoRow("1,234", "56,789", "com.example.Foo")]
  {
    var text := pad + "1" + ":" + pad + "1,234" + pad + "56,789" + pad + "com.example.Foo" + (" (" + moduleName + ")");
    SplitOneLine(text);
    RowExample(pad, moduleName);
    RowsOfOne(text);
  }

  /** A model that answers nothing, on a dump with rows: the run asks four times and
      returns the local fallback and an empty analysis. */
  lemma SilentModelPipeline(text: string, env: Env, parse: Parser, llm: Oracle)
    requires forall b, m, p :: llm(b, m, p) == Answer("")
    requires ScannedRows(text) != []
    ensures var (result, ps) := Pipeline(Request("jmap", text, "", ""), env, parse, llm);
      && |ps| == 4
      && result == Ok(Outcome(LastResort(ScannedRows(text)), ""))
  {
    var req := Request("jmap", text, "", "");
    PrepareSpec("jmap", text);
    var prep := Prepare("jmap", text).value;
    SilentModelWithRows(text, prep.summaryPrompt, SetupFor(req, env, parse, llm));
  }

  /** A model that answers nothing, on a one-row dump: `summarize` asks three times,
      falls back to the scanned row, and the analysis (empty) is asked for last. */
  lemma SilentModelOneRow(pad: string, moduleName: string, env: Env, parse: Parser, llm: Oracle)
    requires |pad| >= 1 && AllSpaces(pad) && '\n' !in pad
    requires ')' !in moduleName && '\n' !in moduleName
    requires forall b, m, p :: llm(b, m, p) == Answer("")
    ensures var text := pad + "1" + ":" + pad + "1,234" + pad + "56,789" + pad + "com.example.Foo" + (" (" + moduleName + ")");
      var (result, ps) := Pipeline(Request("jmap", text, "", ""), env, parse, llm);
      && |ps| == 4
      && result == Ok(Outcome(JObj(map["type" := JStr("jmap"), "totalBytes" := JNum(56789),
                                        "topByBytes" := JArr([EntryJson(Entry("com.example.Foo", 56789, 1234))])]), ""))
  {
    var text := pad + "1" + ":" + pad + "1,234" + pad + "56,789" + pad + "com.example.Foo" + (" (" + moduleName + ")");
    OneRowScan(pad, moduleName);
    SilentModelPipeline(text, env, parse, llm);
    OneRowFallback();
  }
}
