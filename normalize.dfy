/** `normalizeSummary` (src/llm/langGraphFlow.js:110-145): per-type coercion of the
    parsed summary. The source rewrites the freshly parsed object in place; nothing else
    refers to that object, so the model returns the rewritten value instead. */
module Normalize {
  import opened Wrappers
  import opened Json
  import opened JsNumber
  import opened Ranking

  /** `String(x || '')` */
  function NameOf(o: Option<Json>): string
  {
    if TruthyProp(o) then JsString(o.value) else ""
  }

  /** The `.map` callback for `topByBytes` (lines 126-130); `it` is not `null`. */
  function ReadEntry(it: Json): Entry
  {
    Entry(NameOf(Get(it, "className")), ToNumberStripped(Get(it, "bytes")), ToNumberStripped(Get(it, "instances")))
  }

  function ReadEntries(items: seq<Json>): seq<Entry>
  {
    seq(|items|, i requires 0 <= i < |items| => ReadEntry(items[i]))
  }

  /** `{className, bytes, instances}` as the object literal of lines 126-130 builds it. */
  function EntryJson(e: Entry): Json
  {
    JObj(map["className" := JStr(e.className), "bytes" := JNum(e.bytes), "instances" := JNum(e.instances)])
  }

  function EntriesJson(es: seq<Entry>): seq<Json>
  {
    seq(|es|, i requires 0 <= i < |es| => EntryJson(es[i]))
  }

  /** An entry of exactly the shape `EntryJson` writes: the keys `className`, `bytes`
      and `instances` and no other, holding a string and two numbers. */
  function AsEntry(v: Json): Option<Entry>
  {
    if && v.JObj? && v.fields.Keys == {"className", "bytes", "instances"}
       && v.fields["className"].JStr? && v.fields["bytes"].JNum? && v.fields["instances"].JNum?
    then Some(Entry(v.fields["className"].s, v.fields["bytes"].n, v.fields["instances"].n))
    else None
  }

  function Decoded(js: seq<Json>): seq<Entry>
    requires forall i :: 0 <= i < |js| ==> AsEntry(js[i]).Some?
  {
    seq(|js|, i requires 0 <= i < |js| => AsEntry(js[i]).value)
  }

  /** Lines 124-133: coerce each entry, sort by bytes descending (stably) and keep ten.
      A `null` entry makes `it.className` throw inside `.map`; the `catch` at line 143
      swallows it and `topByBytes` keeps its old value. */
  function RankedTopByBytes(items: seq<Json>): seq<Json>
  {
    if JNull in items then items else EntriesJson(Top(SortByBytes(ReadEntries(items)), TopCount))
  }

  /** The `.map` callback for `topFunctions` (lines 137-140). */
  function FunctionJson(it: Json): Json
  {
    JObj(map["name" := JStr(NameOf(Get(it, "name"))), "samples" := JNum(ToNumber(Get(it, "samples")))])
  }

  /** Lines 136-141: an element-wise map, neither sorted nor cut; a `null` element throws
      and the list keeps its old value. */
  function MappedTopFunctions(items: seq<Json>): seq<Json>
  {
    if JNull in items then items else seq(|items|, i requires 0 <= i < |items| => FunctionJson(items[i]))
  }

  /** `byState` after lines 117-121: every own key (the indices, for an array) keeps
      its place and its value is replaced by `Number(value) || 0`. */
  function CountsConverted(v: Json): Json
  {
    match v
    case JObj(m) => JObj(map k | k in m :: JNum(ToNumber(Some(m[k]))))
    case JArr(xs) => JArr(seq(|xs|, i requires 0 <= i < |xs| => JNum(ToNumber(Some(xs[i])))))
    case _ => v
  }

  /** `summary[key] != null` */
  predicate PresentIn(f: map<string, Json>, key: string)
  {
    key in f && f[key] != JNull
  }

  /** `if (summary[key] != null) summary[key] = <coerce>(summary[key])`, where the
      coercion strips commas when `stripped` holds. */
  function Coerced(f: map<string, Json>, key: string, stripped: bool): map<string, Json>
  {
    if PresentIn(f, key) then
      f[key := JNum(if stripped then ToNumberStripped(Some(f[key])) else ToNumber(Some(f[key])))]
    else f
  }

  predicate Countable(v: Json)
  {
    v.JObj? || v.JArr?
  }

  /** Lines 115-121. */
  function JstackFields(f: map<string, Json>): map<string, Json>
  {
    var g := Coerced(Coerced(f, "totalThreads", false), "blockedByMonitor", false);
    if "byState" in g && Countable(g["byState"]) then g["byState" := CountsConverted(g["byState"])] else g
  }

  /** Lines 123-133. */
  function JmapFields(f: map<string, Json>): map<string, Json>
  {
    var g := Coerced(f, "totalBytes", true);
    if "topByBytes" in g && g["topByBytes"].JArr? then g["topByBytes" := JArr(RankedTopByBytes(g["topByBytes"].items))] else g
  }

  /** Lines 135-141. */
  function FlameFields(f: map<string, Json>): map<string, Json>
  {
    var g := Coerced(f, "totalSamples", false);
    if "topFunctions" in g && g["topFunctions"].JArr? then g["topFunctions" := JArr(MappedTopFunctions(g["topFunctions"].items))] else g
  }

  /** The specification of `normalizeSummary`: which branch runs depends on the summary's
      own `type` field. Anything but an object (an array's `type` is `undefined`) and an
      object of another type come back unchanged. */
  function Normalized(summary: Json): Json
  {
    match summary
    case JObj(f) =>
      var t := Get(summary, "type");
      if t == Some(JStr("jstack")) then JObj(JstackFields(f))
      else if t == Some(JStr("jmap")) then JObj(JmapFields(f))
      else if t == Some(JStr("flame")) then JObj(FlameFields(f))
      else summary
    case _ => summary
  }

  /** The loop of lines 118-120, rewriting `byState[k]` for every key `k` in turn. */
  method ConvertCounts(v: Json) returns (r: Json)
    requires Countable(v)
    ensures r == CountsConverted(v)
  {
    if v.JObj? {
      var m := ConvertKeys(v.fields);
      r := JObj(m);
    } else {
      var xs := ConvertIndices(v.items);
      r := JArr(xs);
    }
  }

  /** The loop over the own keys of an object. */
  method ConvertKeys(fields: map<string, Json>) returns (m: map<string, Json>)
    ensures m == map k | k in fields :: JNum(ToNumber(Some(fields[k])))
  {
    m := fields;
    var keys := m.Keys;
    while keys != {}
      invariant keys <= fields.Keys && m.Keys == fields.Keys
      invariant forall k :: k in keys ==> m[k] == fields[k]
      invariant forall k :: k in fields && k !in keys ==> m[k] == JNum(ToNumber(Some(fields[k])))
      decreases keys
    {
      var k :| k in keys;
      m := m[k := JNum(ToNumber(Some(m[k])))];
      keys := keys - {k};
    }
  }

  /** The loop over the indices of an array, which are its own keys. */
  method ConvertIndices(items: seq<Json>) returns (xs: seq<Json>)
    ensures xs == seq(|items|, i requires 0 <= i < |items| => JNum(ToNumber(Some(items[i]))))
  {
    xs := items;
    for i := 0 to |xs|
      invariant |xs| == |items|
      invariant forall j :: 0 <= j < i ==> xs[j] == JNum(ToNumber(Some(items[j])))
      invariant forall j :: i <= j < |xs| ==> xs[j] == items[j]
    {
      xs := xs[i := JNum(ToNumber(Some(xs[i])))];
    }
  }

  /** `normalizeSummary(summary)`: the branch chosen by the summary's own `type`. */
  method NormalizeSummary(summary: Json) returns (r: Json)
    ensures r == Normalized(summary)
  {
    if !summary.JObj? {
      return summary;
    }
    var t := Get(summary, "type");
    var fields := summary.fields;
    if t == Some(JStr("jstack")) {
      fields := NormalizeJstack(fields);
    } else if t == Some(JStr("jmap")) {
      fields := NormalizeJmap(fields);
    } else if t == Some(JStr("flame")) {
      fields := NormalizeFlame(fields);
    }
    r := JObj(fields);
  }

  /** Lines 115-121, assigning the coerced fields one after another. */
  method NormalizeJstack(f: map<string, Json>) returns (fields: map<string, Json>)
    ensures fields == JstackFields(f)
  {
    fields := f;
    if PresentIn(fields, "totalThreads") {
      fields := fields["totalThreads" := JNum(ToNumber(Some(fields["totalThreads"])))];
    }
    if PresentIn(fields, "blockedByMonitor") {
      fields := fields["blockedByMonitor" := JNum(ToNumber(Some(fields["blockedByMonitor"])))];
    }
    if "byState" in fields && Countable(fields["byState"]) {
      var byState := ConvertCounts(fields["byState"]);
      fields := fields["byState" := byState];
    }
  }

  /** Lines 123-133. */
  method NormalizeJmap(f: map<string, Json>) returns (fields: map<string, Json>)
    ensures fields == JmapFields(f)
  {
    fields := f;
    if PresentIn(fields, "totalBytes") {
      fields := fields["totalBytes" := JNum(ToNumberStripped(Some(fields["totalBytes"])))];
    }
    if "topByBytes" in fields && fields["topByBytes"].JArr? {
      fields := fields["topByBytes" := JArr(RankedTopByBytes(fields["topByBytes"].items))];
    }
  }

  /** Lines 135-141. */
  method NormalizeFlame(f: map<string, Json>) returns (fields: map<string, Json>)
    ensures fields == FlameFields(f)
  {
    fields := f;
    if PresentIn(fields, "totalSamples") {
      fields := fields["totalSamples" := JNum(ToNumber(Some(fields["totalSamples"])))];
    }
    if "topFunctions" in fields && fields["topFunctions"].JArr? {
      fields := fields["topFunctions" := JArr(MappedTopFunctions(fields["topFunctions"].items))];
    }
  }

  /** The fields a branch of `normalizeSummary` may rewrite, by summary type. */
  function Rewritten(t: Option<Json>): set<string>
  {
    if t == Some(JStr("jstack")) then {"totalThreads", "blockedByMonitor", "byState"}
    else if t == Some(JStr("jmap")) then {"totalBytes", "topByBytes"}
    else if t == Some(JStr("flame")) then {"totalSamples", "topFunctions"}
    else {}
  }

  /** Normalisation never adds or removes a field and touches only the fields of its
      branch; `type` itself, every other field, anything that is not an object and an
      object of an unknown type come through unchanged. */
  lemma NormalizedKeepsOtherFields(summary: Json)
    ensures !summary.JObj? || Rewritten(Get(summary, "type")) == {} ==> Normalized(summary) == summary
    ensures summary.JObj? ==>
      var out := Normalized(summary);
      && out.JObj? && out.fields.Keys == summary.fields.Keys
      && Get(out, "type") == Get(summary, "type")
      && forall k :: k in summary.fields && k !in Rewritten(Get(summary, "type")) ==> out.fields[k] == summary.fields[k]
  {
    if summary.JObj? {
      var f := summary.fields;
      var t := Get(summary, "type");
      if t == Some(JStr("jstack")) {
        JstackFieldsKeep(f);
      } else if t == Some(JStr("jmap")) {
        JmapFieldsKeep(f);
      } else if t == Some(JStr("flame")) {
        FlameFieldsKeep(f);
      }
    }
  }

  lemma JstackFieldsKeep(f: map<string, Json>)
    ensures JstackFields(f).Keys == f.Keys
    ensures forall k :: k in f && k !in {"totalThreads", "blockedByMonitor", "byState"} ==> JstackFields(f)[k] == f[k]
  {
  }

  lemma JmapFieldsKeep(f: map<string, Json>)
    ensures JmapFields(f).Keys == f.Keys
    ensures forall k :: k in f && k !in {"totalBytes", "topByBytes"} ==> JmapFields(f)[k] == f[k]
  {
  }

  lemma FlameFieldsKeep(f: map<string, Json>)
    ensures FlameFields(f).Keys == f.Keys
    ensures forall k :: k in f && k !in {"totalSamples", "topFunctions"} ==> FlameFields(f)[k] == f[k]
  {
  }

  /** An entry written by normalisation reads back as itself, by `AsEntry` and by the
      coercing `ReadEntry` alike. */
  lemma EntryJsonRoundTrip(e: Entry)
    ensures AsEntry(EntryJson(e)) == Some(e)
    ensures ReadEntry(EntryJson(e)) == e
  {
    var j := EntryJson(e);
    assert j.fields.Keys == {"className", "bytes", "instances"};
    NumberCoercionsKeepNaturals(e.bytes);
    NumberCoercionsKeepNaturals(e.instances);
    assert NameOf(Get(j, "className")) == e.className;
  }

  lemma EntriesJsonRoundTrip(es: seq<Entry>)
    ensures forall i :: 0 <= i < |es| ==> AsEntry(EntriesJson(es)[i]).Some?
    ensures Decoded(EntriesJson(es)) == es
    ensures ReadEntries(EntriesJson(es)) == es
    ensures JNull !in EntriesJson(es)
  {
    forall i | 0 <= i < |es| ensures AsEntry(EntriesJson(es)[i]) == Some(es[i]) && ReadEntry(EntriesJson(es)[i]) == es[i] {
      EntryJsonRoundTrip(es[i]);
    }
  }

  /** For a `jmap` summary whose `topByBytes` holds no `null`: at most ten entries, each
      with exactly the keys `className`, `bytes` and `instances`, sorted by bytes from
      largest down, drawn from the coerced input entries, and none of the entries cut off
      larger than one kept, whatever the order and length of the input. */
  lemma NormalizedJmapRanking(summary: Json)
    requires summary.JObj? && Get(summary, "type") == Some(JStr("jmap"))
    requires "topByBytes" in summary.fields && summary.fields["topByBytes"].JArr?
    requires JNull !in summary.fields["topByBytes"].items
    ensures var items := summary.fields["topByBytes"].items;
      var out := Normalized(summary).fields["topByBytes"];
      && out.JArr?
      && |out.items| == (if |items| <= TopCount then |items| else TopCount)
      && (forall i :: 0 <= i < |out.items| ==> AsEntry(out.items[i]).Some?)
      && SortedByBytes(Decoded(out.items))
      && multiset(Decoded(out.items)) <= multiset(ReadEntries(items))
      && forall i, x :: 0 <= i < |out.items| && x in multiset(ReadEntries(items)) - multiset(Decoded(out.items))
           ==> x.bytes <= Decoded(out.items)[i].bytes
  {
    var items := summary.fields["topByBytes"].items;
    assert Normalized(summary).fields["topByBytes"] == JArr(RankedTopByBytes(items));
    RankedTopByBytesSpec(items);
  }

  /** The ranking of lines 124-133 on a list without `null`, in terms of the list. */
  lemma RankedTopByBytesSpec(items: seq<Json>)
    requires JNull !in items
    ensures var out := RankedTopByBytes(items);
      && |out| == (if |items| <= TopCount then |items| else TopCount)
      && (forall i :: 0 <= i < |out| ==> AsEntry(out[i]).Some?)
      && SortedByBytes(Decoded(out))
      && multiset(Decoded(out)) <= multiset(ReadEntries(items))
      && forall i, x :: 0 <= i < |out| && x in multiset(ReadEntries(items)) - multiset(Decoded(out))
           ==> x.bytes <= Decoded(out)[i].bytes
  {
    var t := Top(SortByBytes(ReadEntries(items)), TopCount);
    EntriesJsonRoundTrip(t);
    RankedTop(ReadEntries(items));
    TopKeepsLargest(ReadEntries(items));
  }

  /** A `null` entry makes the coercion of `topByBytes` throw; the exception is swallowed
      and the list is left exactly as the model sent it. */
  lemma NormalizedJmapNullEntry(summary: Json)
    requires summary.JObj? && Get(summary, "type") == Some(JStr("jmap"))
    requires "topByBytes" in summary.fields && summary.fields["topByBytes"].JArr?
    requires JNull in summary.fields["topByBytes"].items
    ensures Normalized(summary).fields["topByBytes"] == summary.fields["topByBytes"]
  {
  }

  /** `totalBytes` of a `jmap` summary: a present, non-null value becomes a number, with
      thousands separators stripped; an absent or `null` one stays as it was. */
  lemma NormalizedJmapTotal(summary: Json)
    requires summary.JObj? && Get(summary, "type") == Some(JStr("jmap"))
    ensures var out := Normalized(summary).fields;
      if PresentIn(summary.fields, "totalBytes") then
        out["totalBytes"] == JNum(ToNumberStripped(Some(summary.fields["totalBytes"])))
      else
        && ("totalBytes" in out <==> "totalBytes" in summary.fields)
        && ("totalBytes" in out ==> out["totalBytes"] == JNull)
  {
  }

  /** A `jstack` summary: `byState` keeps exactly its keys with every value coerced (an
      unconvertible one to 0), and `totalThreads` and `blockedByMonitor` are coerced only
      when present; an absent one stays absent. */
  lemma NormalizedJstack(summary: Json)
    requires summary.JObj? && Get(summary, "type") == Some(JStr("jstack"))
    ensures var f, out := summary.fields, Normalized(summary).fields;
      && (forall key :: key in {"totalThreads", "blockedByMonitor"} ==>
            if PresentIn(f, key) then out[key] == JNum(ToNumber(Some(f[key])))
            else (key in out <==> key in f) && (key in out ==> out[key] == f[key]))
      && ("byState" in f && f["byState"].JObj? ==>
            && out["byState"].JObj?
            && out["byState"].fields.Keys == f["byState"].fields.Keys
            && forall k :: k in f["byState"].fields ==>
                 out["byState"].fields[k] == JNum(ToNumber(Some(f["byState"].fields[k]))))
  {
    var f := summary.fields;
    var g1 := Coerced(f, "totalThreads", false);
    var g := Coerced(g1, "blockedByMonitor", false);
    assert Normalized(summary).fields == JstackFields(f);
    assert "totalThreads" in g1 ==> g["totalThreads"] == g1["totalThreads"];
    if "byState" in f && f["byState"].JObj? {
      assert g["byState"] == f["byState"];
      assert JstackFields(f)["byState"] == CountsConverted(f["byState"]);
    }
  }

  /** A `flame` summary: `topFunctions` keeps its length and order, each element mapped
      to `{name, samples}` (no sort, no cut to ten), unless a `null` element makes the
      mapping throw, which leaves the list as it was. */
  lemma NormalizedFlame(summary: Json)
    requires summary.JObj? && Get(summary, "type") == Some(JStr("flame"))
    requires "topFunctions" in summary.fields && summary.fields["topFunctions"].JArr?
    ensures var items := summary.fields["topFunctions"].items;
      var out := Normalized(summary).fields["topFunctions"];
      && out.JArr? && |out.items| == |items|
      && if JNull in items then out.items == items
         else forall i :: 0 <= i < |items| ==>
           && out.items[i].JObj? && out.items[i].fields.Keys == {"name", "samples"}
           && out.items[i] == FunctionJson(items[i])
  {
    var items := summary.fields["topFunctions"].items;
    if JNull !in items {
      forall i | 0 <= i < |items| ensures FunctionJson(items[i]).fields.Keys == {"name", "samples"} {
      }
    }
  }

  lemma CoercedTwice(f: map<string, Json>, key: string, stripped: bool)
    ensures Coerced(Coerced(f, key, stripped), key, stripped) == Coerced(f, key, stripped)
  {
    if PresentIn(f, key) {
      var g := Coerced(f, key, stripped);
      NumberCoercionsKeepNaturals(g[key].n);
    }
  }

  lemma CountsConvertedTwice(v: Json)
    ensures CountsConverted(CountsConverted(v)) == CountsConverted(v)
  {
    match v
    case JObj(m) =>
      var once := CountsConverted(v).fields;
      forall k | k in once ensures CountsConverted(CountsConverted(v)).fields[k] == once[k] {
        NumberCoercionsKeepNaturals(once[k].n);
      }
    case JArr(xs) =>
      var once := CountsConverted(v).items;
      forall i | 0 <= i < |once| ensures CountsConverted(CountsConverted(v)).items[i] == once[i] {
        NumberCoercionsKeepNaturals(once[i].n);
      }
    case _ =>
  }

  lemma RankedTopByBytesTwice(items: seq<Json>)
    ensures RankedTopByBytes(RankedTopByBytes(items)) == RankedTopByBytes(items)
  {
    if JNull !in items {
      var t := Top(SortByBytes(ReadEntries(items)), TopCount);
      RankedTop(ReadEntries(items));
      EntriesJsonRoundTrip(t);
      SortKeepsSorted(t);
    }
  }

  lemma FunctionJsonTwice(it: Json)
    ensures FunctionJson(FunctionJson(it)) == FunctionJson(it)
  {
    var once := FunctionJson(it);
    NumberCoercionsKeepNaturals(once.fields["samples"].n);
    assert Get(once, "name") == Some(JStr(NameOf(Get(it, "name"))));
  }

  lemma MappedTopFunctionsTwice(items: seq<Json>)
    ensures MappedTopFunctions(MappedTopFunctions(items)) == MappedTopFunctions(items)
  {
    if JNull !in items {
      var once := MappedTopFunctions(items);
      forall i | 0 <= i < |once| ensures once[i].JObj? && FunctionJson(once[i]) == once[i] {
        FunctionJsonTwice(items[i]);
      }
      assert JNull !in once;
    }
  }

  lemma JstackFieldsTwice(f: map<string, Json>)
    ensures JstackFields(JstackFields(f)) == JstackFields(f)
  {
    var g := Coerced(Coerced(f, "totalThreads", false), "blockedByMonitor", false);
    CoercedTwice(f, "totalThreads", false);
    CoercedTwice(Coerced(f, "totalThreads", false), "blockedByMonitor", false);
    if "byState" in g && Countable(g["byState"]) {
      CountsConvertedTwice(g["byState"]);
    }
  }

  lemma JmapFieldsTwice(f: map<string, Json>)
    ensures JmapFields(JmapFields(f)) == JmapFields(f)
  {
    var g := Coerced(f, "totalBytes", true);
    var h := JmapFields(f);
    assert "totalBytes" in h ==> h["totalBytes"] == g["totalBytes"];
    CoercedNumber(h, "totalBytes", true);
    if "topByBytes" in g && g["topByBytes"].JArr? {
      RankedTopByBytesTwice(g["topByBytes"].items);
    }
  }

  /** Coercing a field that is already a number, `null` or absent changes nothing. */
  lemma CoercedNumber(h: map<string, Json>, key: string, stripped: bool)
    requires key in h ==> h[key] == JNull || h[key].JNum?
    ensures Coerced(h, key, stripped) == h
  {
    if PresentIn(h, key) {
      NumberCoercionsKeepNaturals(h[key].n);
      assert h[key := JNum(h[key].n)] == h;
    }
  }

  lemma FlameFieldsTwice(f: map<string, Json>)
    ensures FlameFields(FlameFields(f)) == FlameFields(f)
  {
    var g := Coerced(f, "totalSamples", false);
    CoercedTwice(f, "totalSamples", false);
    if "topFunctions" in g && g["topFunctions"].JArr? {
      MappedTopFunctionsTwice(g["topFunctions"].items);
    }
  }

  /** Normalising a second time changes nothing. */
  lemma NormalizedIdempotent(summary: Json)
    ensures Normalized(Normalized(summary)) == Normalized(summary)
  {
    NormalizedKeepsOtherFields(summary);
    if summary.JObj? {
      var t := Get(summary, "type");
      if t == Some(JStr("jstack")) {
        JstackFieldsTwice(summary.fields);
      } else if t == Some(JStr("jmap")) {
        JmapFieldsTwice(summary.fields);
      } else if t == Some(JStr("flame")) {
        FlameFieldsTwice(summary.fields);
      }
    }
  }
}
