/** `extractJmapRows` (src/llm/langGraphFlow.js:178-193): the rows of a `jmap -histo`
    dump, read line by line. The regular expression of line 183,
    `^\s*\d+:\s+([\d,]+)\s+([\d,]+)\s+(.+?)\s*(?:\([^)]*\)\s*)?$`, is written out as a
    scanner over character positions that picks, among all the ways a line can match,
    the one JavaScript's backtracking finds first. */
module Histogram {
  import opened Wrappers
  import opened Text

  // ---------------------------------------------------------------------------
  // Lines

  /** Drops one carriage return at the end of `s`. */
  function DropCr(s: string): string
  {
    if s != [] && s[|s| - 1] == '\r' then s[..|s| - 1] else s
  }

  /** The pieces of `cur + t` between line feeds, `cur` being the start of the current
      piece; a carriage return just before a line feed goes with the separator. */
  function SplitFrom(t: string, cur: string): (lines: seq<string>)
    requires '\n' !in cur
    ensures |lines| >= 1 && forall i :: 0 <= i < |lines| ==> '\n' !in lines[i]
    decreases |t|
  {
    if t == [] then [cur]
    else if t[0] == '\n' then [DropCr(cur)] + SplitFrom(t[1..], "")
    else SplitFrom(t[1..], cur + [t[0]])
  }

  /** `String(text).split(/\r?\n/)` */
  function SplitLines(text: string): (lines: seq<string>)
    ensures |lines| >= 1 && forall i :: 0 <= i < |lines| ==> '\n' !in lines[i]
  {
    SplitFrom(text, "")
  }

  /** The inverse direction: lines glued back together with line feeds. */
  function JoinLines(lines: seq<string>): string
    requires |lines| >= 1
  {
    if |lines| == 1 then lines[0] else lines[0] + "\n" + JoinLines(lines[1..])
  }

  /** `t` with every CR LF pair turned into a single LF. */
  function CrLfToLf(t: string): string
    decreases |t|
  {
    if t == [] then []
    else if |t| >= 2 && t[0] == '\r' && t[1] == '\n' then "\n" + CrLfToLf(t[2..])
    else [t[0]] + CrLfToLf(t[1..])
  }

  lemma {:induction false} CrLfToLfNoLf(s: string)
    requires '\n' !in s
    ensures CrLfToLf(s) == s
    decreases |s|
  {
    if s != [] {
      CrLfToLfNoLf(s[1..]);
      assert s == [s[0]] + s[1..];
    }
  }

  lemma {:induction false} CrLfToLfBeforeLf(cur: string, rest: string)
    requires '\n' !in cur
    ensures CrLfToLf(cur + "\n" + rest) == DropCr(cur) + "\n" + CrLfToLf(rest)
    decreases |cur|
  {
    var t := cur + "\n" + rest;
    if cur == [] {
      assert t == "\n" + rest;
      assert t[1..] == rest;
    } else if |cur| == 1 && cur[0] == '\r' {
      assert t[..2] == "\r\n";
      assert t[2..] == rest;
    } else {
      NoPairAtHead(cur, rest);
      CrLfToLfBeforeLf(cur[1..], rest);
      HeadStep(cur, rest);
    }
  }

  /** One character of a line ahead of a line feed, peeled off both sides. */
  lemma HeadStep(cur: string, rest: string)
    requires cur != [] && !(|cur| == 1 && cur[0] == '\r')
    ensures (cur + "\n" + rest)[1..] == cur[1..] + "\n" + rest
    ensures DropCr(cur) == [cur[0]] + DropCr(cur[1..])
  {
    assert (cur + "\n" + rest)[1..] == cur[1..] + "\n" + rest;
  }

  /** A line that is not a lone CR does not begin a CR LF pair. */
  lemma NoPairAtHead(cur: string, rest: string)
    requires '\n' !in cur && cur != [] && !(|cur| == 1 && cur[0] == '\r')
    ensures var t := cur + "\n" + rest; CrLfToLf(t) == [t[0]] + CrLfToLf(t[1..])
  {
    var t := cur + "\n" + rest;
    assert t[0] == cur[0];
    if |cur| >= 2 {
      assert t[1] == cur[1] && cur[1] in cur;
    }
  }

  lemma {:induction false} SplitFromJoin(t: string, cur: string)
    requires '\n' !in cur
    ensures JoinLines(SplitFrom(t, cur)) == CrLfToLf(cur + t)
    decreases |t|
  {
    if t == [] {
      CrLfToLfNoLf(cur);
      assert cur + t == cur;
    } else if t[0] == '\n' {
      SplitFromJoin(t[1..], "");
      assert "" + t[1..] == t[1..];
      CrLfToLfBeforeLf(cur, t[1..]);
      assert cur + t == cur + "\n" + t[1..];
    } else {
      SplitFromJoin(t[1..], cur + [t[0]]);
      assert cur + [t[0]] + t[1..] == cur + t;
    }
  }

  /** Splitting loses exactly the carriage returns of CR LF pairs: the lines, glued back
      with line feeds, give the text with CR LF turned into LF. */
  lemma SplitLinesJoin(text: string)
    ensures JoinLines(SplitLines(text)) == CrLfToLf(text)
  {
    SplitFromJoin(text, "");
    assert "" + text == text;
  }

  lemma {:induction false} SplitFromNoLf(t: string, cur: string)
    requires '\n' !in cur && '\n' !in t
    ensures SplitFrom(t, cur) == [cur + t]
    decreases |t|
  {
    if t == [] {
      assert cur + t == cur;
    } else {
      assert t[0] in t;
      SplitFromNoLf(t[1..], cur + [t[0]]);
      assert cur + [t[0]] + t[1..] == cur + t;
    }
  }

  /** A text without a line feed is one line. */
  lemma SplitOneLine(text: string)
    requires '\n' !in text
    ensures SplitLines(text) == [text]
  {
    SplitFromNoLf(text, "");
    assert "" + text == text;
  }

  lemma {:induction false} SplitFromAppend(a: string, t: string, cur: string)
    requires '\n' !in a && '\n' !in cur
    ensures SplitFrom(a + t, cur) == SplitFrom(t, cur + a)
    decreases |a|
  {
    if a == [] {
      assert a + t == t;
      assert cur + a == cur;
    } else {
      assert a[0] in a;
      assert (a + t)[0] == a[0];
      assert (a + t)[1..] == a[1..] + t;
      SplitFromAppend(a[1..], t, cur + [a[0]]);
      assert cur + [a[0]] + a[1..] == cur + a;
    }
  }

  /** The other round trip: lines without line feeds, none but the last ending in a
      carriage return, glued with line feeds, split back into themselves. */
  lemma {:induction false} SplitJoinRoundTrip(ls: seq<string>)
    requires |ls| >= 1 && forall i :: 0 <= i < |ls| ==> '\n' !in ls[i]
    requires forall i :: 0 <= i < |ls| - 1 ==> ls[i] == [] || ls[i][|ls[i]| - 1] != '\r'
    ensures SplitLines(JoinLines(ls)) == ls
    decreases |ls|
  {
    if |ls| == 1 {
      SplitOneLine(ls[0]);
    } else {
      var rest := JoinLines(ls[1..]);
      assert JoinLines(ls) == ls[0] + ("\n" + rest);
      SplitFromAppend(ls[0], "\n" + rest, "");
      assert "" + ls[0] == ls[0];
      assert ("\n" + rest)[1..] == rest;
      SplitJoinRoundTrip(ls[1..]);
      assert ls == [ls[0]] + ls[1..];
    }
  }

  // ---------------------------------------------------------------------------
  // The row pattern

  /** The character classes of the pattern: `\s`, `\d`, `[\d,]` and `.`. */
  datatype CharClass = Space | Digit | NumChar | Dot

  predicate In(k: CharClass, c: char)
  {
    match k
    case Space => IsSpace(c)
    case Digit => IsDigit(c)
    case NumChar => IsDigit(c) || c == ','
    case Dot => !IsLineTerminator(c)
  }

  /** Every character of `line[i..j]` is in `k`. */
  predicate Within(line: string, i: nat, j: nat, k: CharClass)
  {
    i <= j <= |line| && forall x :: i <= x < j ==> In(k, line[x])
  }

  /** The end of the longest run of `k` characters from `i` on. */
  function Span(line: string, i: nat, k: CharClass): (j: nat)
    requires i <= |line|
    ensures Within(line, i, j, k)
    ensures j == |line| || !In(k, line[j])
    decreases |line| - i
  {
    if i == |line| || !In(k, line[i]) then i else Span(line, i + 1, k)
  }

  /** No run is longer than `Span`'s, and a run that cannot be extended is `Span`'s. */
  lemma SpanLongest(line: string, i: nat, j: nat, k: CharClass)
    requires Within(line, i, j, k)
    ensures j <= Span(line, i, k)
    ensures j == |line| || !In(k, line[j]) ==> j == Span(line, i, k)
  {
  }

  /** `\s*(?:\([^)]*\)\s*)?$`: white space, then optionally a parenthesised module (which
      may hold anything but `)`) and more white space, then the end of the line. */
  predicate ModuleTail(t: string)
    decreases |t|
  {
    || t == []
    || (IsSpace(t[0]) && ModuleTail(t[1..]))
    || (t[0] == '(' && ModuleClose(t[1..]))
  }

  /** `[^)]*\)\s*$` */
  predicate ModuleClose(u: string)
    decreases |u|
  {
    && u != []
    && if u[0] == ')' then AllSpaces(u[1..]) else ModuleClose(u[1..])
  }

  /** Where a match cuts the line: `line[..rankAt]` is the leading white space,
      `line[rankAt..colon]` the rank, `line[instAt..instEnd]` the instances column,
      `line[bytesAt..bytesEnd]` the bytes column, `line[clsAt..clsEnd]` the lazy class
      capture and `line[clsEnd..]` the module tail. */
  datatype Cuts = Cuts(rankAt: nat, colon: nat, instAt: nat, instEnd: nat, bytesAt: nat, bytesEnd: nat, clsAt: nat, clsEnd: nat)

  /** `c` is one way for `line` to match the row pattern. */
  predicate Shaped(line: string, c: Cuts)
  {
    && Within(line, 0, c.rankAt, Space)
    && c.rankAt < c.colon && Within(line, c.rankAt, c.colon, Digit)
    && c.colon < |line| && line[c.colon] == ':'
    && c.colon + 1 < c.instAt && Within(line, c.colon + 1, c.instAt, Space)
    && c.instAt < c.instEnd && Within(line, c.instAt, c.instEnd, NumChar)
    && c.instEnd < c.bytesAt && Within(line, c.instEnd, c.bytesAt, Space)
    && c.bytesAt < c.bytesEnd && Within(line, c.bytesAt, c.bytesEnd, NumChar)
    && c.bytesEnd < c.clsAt && Within(line, c.bytesEnd, c.clsAt, Space)
    && c.clsAt < c.clsEnd && Within(line, c.clsAt, c.clsEnd, Dot)
    && ModuleTail(line[c.clsEnd..])
  }

  /** Backtracking tries `c` no later than `d`: the greedy `\s+` before the class gives
      back characters one at a time, and for each gap the lazy `(.+?)` grows one
      character at a time. */
  predicate TriedFirst(c: Cuts, d: Cuts)
  {
    c.clsAt > d.clsAt || (c.clsAt == d.clsAt && c.clsEnd <= d.clsEnd)
  }

  /** The lazy `(.+?)` from `at`, already known not to end before `e`: the first end
      from `e` on that leaves a module tail. */
  function ShortestClass(line: string, at: nat, e: nat): (r: Option<nat>)
    requires at < e && Within(line, at, e - 1, Dot)
    ensures r.Some? ==> e <= r.value && Within(line, at, r.value, Dot) && ModuleTail(line[r.value..])
    ensures r.Some? ==> forall x :: e <= x < r.value ==> !ModuleTail(line[x..])
    ensures r.None? ==> forall x :: e <= x && Within(line, at, x, Dot) ==> !ModuleTail(line[x..])
    decreases |line| - e
  {
    if e > |line| || !In(Dot, line[e - 1]) then None
    else if ModuleTail(line[e..]) then Some(e)
    else ShortestClass(line, at, e + 1)
  }

  /** `\s+(.+?)` after the bytes column, which ends at `f`: the class starts at `at`,
      then one character earlier, down to one character after `f`. */
  function PickClass(line: string, f: nat, at: nat): (r: Option<(nat, nat)>)
    requires f < at && Within(line, f, at, Space)
    ensures r.Some? ==> f < r.value.0 <= at && r.value.0 < r.value.1
    ensures r.Some? ==> Within(line, r.value.0, r.value.1, Dot) && ModuleTail(line[r.value.1..])
    ensures r.Some? ==> forall s, e :: r.value.0 < s <= at && s < e && Within(line, s, e, Dot) ==> !ModuleTail(line[e..])
    ensures r.Some? ==> forall e :: r.value.0 < e < r.value.1 ==> !ModuleTail(line[e..])
    ensures r.None? ==> forall s, e :: f < s <= at && s < e && Within(line, s, e, Dot) ==> !ModuleTail(line[e..])
    decreases at
  {
    match ShortestClass(line, at, at + 1)
    case Some(e) => Some((at, e))
    case None => if at == f + 1 then None else PickClass(line, f, at - 1)
  }

  /** The cuts of `^\s*\d+:\s+([\d,]+)\s+([\d,]+)\s+` with its last gap taken whole. */
  datatype Columns = Columns(rankAt: nat, colon: nat, instAt: nat, instEnd: nat, bytesAt: nat, bytesEnd: nat, gapEnd: nat)

  predicate ColumnsShaped(line: string, k: Columns)
  {
    && Within(line, 0, k.rankAt, Space)
    && k.rankAt < k.colon && Within(line, k.rankAt, k.colon, Digit)
    && k.colon < |line| && line[k.colon] == ':'
    && k.colon + 1 < k.instAt && Within(line, k.colon + 1, k.instAt, Space)
    && k.instAt < k.instEnd && Within(line, k.instAt, k.instEnd, NumChar)
    && k.instEnd < k.bytesAt && Within(line, k.instEnd, k.bytesAt, Space)
    && k.bytesAt < k.bytesEnd && Within(line, k.bytesAt, k.bytesEnd, NumChar)
    && k.bytesEnd < k.gapEnd && k.gapEnd == Span(line, k.bytesEnd, Space)
  }

  /** The columns up to the gap before the class. Each greedy run must stop where the
      next part's first character begins, so there is one way at most to cut them. */
  function ScanColumns(line: string): (r: Option<Columns>)
    ensures r.Some? ==> ColumnsShaped(line, r.value)
  {
    var a := Span(line, 0, Space);
    var b := Span(line, a, Digit);
    if b == a || b == |line| || line[b] != ':' then None
    else
      var c := Span(line, b + 1, Space);
      var d := Span(line, c, NumChar);
      var e := Span(line, d, Space);
      var f := Span(line, e, NumChar);
      var g := Span(line, f, Space);
      if c == b + 1 || d == c || e == d || f == e || g == f then None
      else Some(Columns(a, b, c, d, e, f, g))
  }

  /** `line.match(...)` for the row pattern: the columns are forced, and only the gap
      before the class and the class itself are searched. */
  function MatchRow(line: string): (m: Option<Cuts>)
    ensures m.Some? ==> Shaped(line, m.value)
    ensures m.Some? ==>
      var g := Span(line, m.value.bytesEnd, Space);
      m.value.clsAt <= g && (m.value.clsAt < g ==> m.value.clsEnd <= g)
  {
    match ScanColumns(line)
    case None => None
    case Some(k) =>
      match PickClass(line, k.bytesEnd, k.gapEnd)
      case None => None
      case Some((s, t)) => Some(Cuts(k.rankAt, k.colon, k.instAt, k.instEnd, k.bytesAt, k.bytesEnd, s, t))
  }

  /** A run of `k` characters followed by a character outside `k` is `Span`'s. */
  lemma RunEnds(line: string, i: nat, j: nat, k: CharClass)
    requires Within(line, i, j, k) && j < |line| && !In(k, line[j])
    ensures Span(line, i, k) == j
  {
    SpanLongest(line, i, j, k);
  }

  /** Any match cuts the columns where `ScanColumns` does. */
  lemma ColumnsForced(line: string, c: Cuts)
    requires Shaped(line, c)
    ensures ScanColumns(line) == Some(Columns(c.rankAt, c.colon, c.instAt, c.instEnd, c.bytesAt, c.bytesEnd, Span(line, c.bytesEnd, Space)))
    ensures c.clsAt <= Span(line, c.bytesEnd, Space)
  {
    RankForced(line, c);
    InstancesForced(line, c);
    BytesForced(line, c);
    SpanLongest(line, c.bytesEnd, c.clsAt, Space);
  }

  /** Any match cuts the leading white space and the rank where `ScanColumns` does. */
  lemma RankForced(line: string, c: Cuts)
    requires Shaped(line, c)
    ensures Span(line, 0, Space) == c.rankAt && Span(line, c.rankAt, Digit) == c.colon
  {
    assert In(Digit, line[c.rankAt]);
    RunEnds(line, 0, c.rankAt, Space);
    RunEnds(line, c.rankAt, c.colon, Digit);
  }

  /** ... and the gap after the colon and the instances column. */
  lemma InstancesForced(line: string, c: Cuts)
    requires Shaped(line, c)
    ensures Span(line, c.colon + 1, Space) == c.instAt && Span(line, c.instAt, NumChar) == c.instEnd
  {
    assert In(NumChar, line[c.instAt]);
    RunEnds(line, c.colon + 1, c.instAt, Space);
    assert In(Space, line[c.instEnd]);
    RunEnds(line, c.instAt, c.instEnd, NumChar);
  }

  /** ... and the gap before the bytes column and that column. */
  lemma BytesForced(line: string, c: Cuts)
    requires Shaped(line, c)
    ensures Span(line, c.instEnd, Space) == c.bytesAt && Span(line, c.bytesAt, NumChar) == c.bytesEnd
  {
    assert In(NumChar, line[c.bytesAt]);
    RunEnds(line, c.instEnd, c.bytesAt, Space);
    assert In(Space, line[c.bytesEnd]);
    RunEnds(line, c.bytesAt, c.bytesEnd, NumChar);
  }

  /** `MatchRow` finds a match whenever the line has one, and it is the one tried first:
      the columns are the same and no other match is tried before it. */
  lemma MatchRowFirst(line: string, c: Cuts)
    requires Shaped(line, c)
    ensures MatchRow(line).Some?
    ensures var m := MatchRow(line).value;
      && m.rankAt == c.rankAt && m.colon == c.colon
      && m.instAt == c.instAt && m.instEnd == c.instEnd
      && m.bytesAt == c.bytesAt && m.bytesEnd == c.bytesEnd
      && TriedFirst(m, c)
  {
    ColumnsForced(line, c);
    var g := Span(line, c.bytesEnd, Space);
    assert Within(line, c.clsAt, c.clsEnd, Dot) && ModuleTail(line[c.clsEnd..]);
    assert PickClass(line, c.bytesEnd, g).Some?;
  }

  // ---------------------------------------------------------------------------
  // Rows

  /** A scanned row: the two numeric columns as written (commas kept) and the class
      name, trimmed. */
  datatype HistoRow = HistoRow(instances: string, bytes: string, className: string)

  /** `/^w\b/i.test(s)` for a lower-case ASCII word `w`: with the `i` flag and without
      `u`, an ASCII letter matches only itself in either case. */
  predicate StartsWithWord(s: string, w: string)
  {
    && |w| <= |s|
    && (forall i :: 0 <= i < |w| ==> LowerAscii(s[i]) == w[i])
    && (|s| == |w| || !IsWordChar(s[|w|]))
  }

  /** One pass of the loop body of lines 182-190 on `line`. */
  function RowOf(line: string): Option<HistoRow>
  {
    match MatchRow(line)
    case None => None
    case Some(c) =>
      var cls := line[c.clsAt..c.clsEnd];
      if StartsWithWord(line, "num") || StartsWithWord(cls, "total") then None
      else Some(HistoRow(line[c.instAt..c.instEnd], line[c.bytesAt..c.bytesEnd], Trim(cls)))
  }

  /** The rows of `lines`, one per accepted line, in line order. */
  function RowsOf(lines: seq<string>): seq<HistoRow>
  {
    if lines == [] then []
    else
      RowsOf(lines[..|lines| - 1]) + (match RowOf(lines[|lines| - 1]) case Some(r) => [r] case None => [])
  }

  /** The loop of lines 179-192. */
  method ExtractJmapRows(text: string) returns (rows: seq<HistoRow>)
    ensures rows == RowsOf(SplitLines(text))
  {
    var lines := SplitLines(text);
    rows := [];
    for i := 0 to |lines|
      invariant rows == RowsOf(lines[..i])
    {
      assert lines[..i + 1][..i] == lines[..i];
      var line := lines[i];
      var m := MatchRow(line);
      if m.None? {
        continue;
      }
      var c := m.value;
      var cls := line[c.clsAt..c.clsEnd];
      if StartsWithWord(line, "num") || StartsWithWord(cls, "total") {
        continue;
      }
      rows := rows + [HistoRow(line[c.instAt..c.instEnd], line[c.bytesAt..c.bytesEnd], Trim(cls))];
    }
    assert lines[..|lines|] == lines;
  }

  /** The rows of consecutive blocks of lines follow each other. */
  lemma {:induction false} RowsOfAppend(a: seq<string>, b: seq<string>)
    ensures RowsOf(a + b) == RowsOf(a) + RowsOf(b)
    decreases |b|
  {
    if b == [] {
      assert a + b == a;
    } else {
      var b' := b[..|b| - 1];
      assert (a + b)[..|a + b| - 1] == a + b';
      assert (a + b)[|a + b| - 1] == b[|b| - 1];
      RowsOfAppend(a, b');
      var last := match RowOf(b[|b| - 1]) case Some(r) => [r] case None => [];
      assert RowsOf(a + b) == RowsOf(a + b') + last;
      assert RowsOf(b) == RowsOf(b') + last;
    }
  }

  /** A single line gives its row, or nothing. */
  lemma RowsOfOne(line: string)
    ensures RowsOf([line]) == (match RowOf(line) case Some(r) => [r] case None => [])
  {
    var one := [line];
    assert one[..|one| - 1] == [];
    assert one[|one| - 1] == line;
    var tail := match RowOf(line) case Some(r) => [r] case None => [];
    assert RowsOf(one) == RowsOf([]) + tail;
  }

  /** The header test of line 189 never fires: a line the row pattern accepts starts
      with white space or a digit, never with `num`. */
  lemma HeaderTestIsDead(line: string)
    requires MatchRow(line).Some?
    ensures !StartsWithWord(line, "num")
  {
    var c := MatchRow(line).value;
    assert c.rankAt > 0 ==> IsSpace(line[0]);
    assert c.rankAt == 0 ==> IsDigit(line[0]);
  }

  predicate AllNumChars(s: string)
  {
    forall i :: 0 <= i < |s| ==> IsDigit(s[i]) || s[i] == ','
  }

  lemma NumCharSlice(line: string, i: nat, j: nat)
    requires Within(line, i, j, NumChar)
    ensures AllNumChars(line[i..j])
  {
    forall x | 0 <= x < j - i ensures IsDigit(line[i..j][x]) || line[i..j][x] == ',' {
      assert line[i..j][x] == line[i + x];
      assert In(NumChar, line[i + x]);
    }
  }

  /** The class capture is either blank or starts right after the whole gap. */
  lemma CaptureBlankOrWhole(line: string)
    requires MatchRow(line).Some?
    ensures var c := MatchRow(line).value;
      var cls := line[c.clsAt..c.clsEnd];
      && |cls| >= 1
      && (forall x :: 0 <= x < |cls| ==> !IsLineTerminator(cls[x]))
      && (AllSpaces(cls) || !IsSpace(cls[0]))
  {
    var c := MatchRow(line).value;
    SliceIn(line, c.clsAt, c.clsEnd, Dot);
    var g := Span(line, c.bytesEnd, Space);
    if c.clsAt < g {
      // The gap was given back only because nothing after the whole gap matched, so
      // the capture lies inside the gap.
      SliceIn(line, c.clsAt, c.clsEnd, Space);
    } else {
      assert line[c.clsAt..c.clsEnd][0] == line[g];
    }
  }

  /** The characters of a piece that lies within a run of `k` are in `k`. */
  lemma SliceIn(line: string, i: nat, j: nat, k: CharClass)
    requires i <= j <= |line|
    requires forall x :: i <= x < j ==> In(k, line[x])
    ensures forall x :: 0 <= x < j - i ==> In(k, line[i..j][x])
  {
    forall x | 0 <= x < j - i ensures In(k, line[i..j][x]) {
      assert line[i..j][x] == line[i + x];
    }
  }

  /** Trimming a capture that is blank or starts with a non-space character, and whose
      head is not the word `total`. */
  lemma TrimmedCapture(cls: string)
    requires |cls| >= 1 && forall x :: 0 <= x < |cls| ==> !IsLineTerminator(cls[x])
    requires AllSpaces(cls) || !IsSpace(cls[0])
    requires !StartsWithWord(cls, "total")
    ensures var name := Trim(cls);
      && (name == [] || (!IsSpace(name[0]) && !IsSpace(name[|name| - 1])))
      && (forall i :: 0 <= i < |name| ==> !IsLineTerminator(name[i]))
      && !StartsWithWord(name, "total")
  {
    var name := Trim(cls);
    var a := LeadingSpaces(cls);
    assert name == cls[a..a + |name|];
    forall i | 0 <= i < |name| ensures !IsLineTerminator(name[i]) {
      assert name[i] == cls[a + i];
    }
    if !IsSpace(cls[0]) {
      assert a == 0;
      assert name == cls[..|name|];
      NameNotTotal(cls, name);
    } else {
      assert a == |cls|;
    }
  }

  /** What a scanned row holds: two non-empty columns of digits and commas and a class
      name with no white space at either end, no line break, and not starting with the
      word `total`. The name is empty only when no class can be cut from the text after
      the gap and yet that text is a module part by itself: when the line ends in its
      gap, or when the parentheses of the module hold a carriage return, which `.` does
      not match. */
  lemma RowShape(line: string)
    requires RowOf(line).Some?
    ensures var r := RowOf(line).value;
      && |r.instances| >= 1 && AllNumChars(r.instances)
      && |r.bytes| >= 1 && AllNumChars(r.bytes)
      && (r.className == [] || (!IsSpace(r.className[0]) && !IsSpace(r.className[|r.className| - 1])))
      && (forall i :: 0 <= i < |r.className| ==> !IsLineTerminator(r.className[i]))
      && !StartsWithWord(r.className, "total")
  {
    var c := MatchRow(line).value;
    NumCharSlice(line, c.instAt, c.instEnd);
    NumCharSlice(line, c.bytesAt, c.bytesEnd);
    CaptureBlankOrWhole(line);
    TrimmedCapture(line[c.clsAt..c.clsEnd]);
  }

  lemma NameNotTotal(cls: string, name: string)
    requires !StartsWithWord(cls, "total")
    requires |name| <= |cls| && name == cls[..|name|] && AllSpaces(cls[|name|..])
    ensures !StartsWithWord(name, "total")
  {
    if |name| > 5 {
      assert name[5] == cls[5];
    } else if |name| == 5 && |cls| > 5 {
      assert IsSpace(cls[|name|..][0]);
    }
  }

  /** A class name as `jmap -histo` prints it: not empty, no white space, no `(`, and
      not starting with the word `total`. */
  predicate PlainClass(cls: string)
  {
    && |cls| >= 1
    && (forall i :: 0 <= i < |cls| ==> !IsSpace(cls[i]) && cls[i] != '(')
    && !StartsWithWord(cls, "total")
  }

  /** A row as `jmap -histo` prints it: white space, the rank and a colon, the two
      columns, the class name (no white space and no `(` in it), then an optional
      `(module)` part. The scanner yields the two columns as written and the class name
      with the module dropped. */
  lemma RowOfPlainLine(lead: string, rank: string, g1: string, inst: string, g2: string, bytes: string, g3: string, cls: string, tail: string)
    requires AllSpaces(lead) && |rank| >= 1 && AllDigits(rank)
    requires |g1| >= 1 && AllSpaces(g1) && |g2| >= 1 && AllSpaces(g2) && |g3| >= 1 && AllSpaces(g3)
    requires |inst| >= 1 && AllNumChars(inst) && |bytes| >= 1 && AllNumChars(bytes)
    requires PlainClass(cls)
    requires ModuleTail(tail)
    ensures RowOf(lead + rank + ":" + g1 + inst + g2 + bytes + g3 + cls + tail) == Some(HistoRow(inst, bytes, cls))
  {
    var line := lead + rank + ":" + g1 + inst + g2 + bytes + g3 + cls + tail;
    var c := PlainCuts(lead, rank, g1, inst, g2, bytes, g3, cls);
    PlainShaped(line, lead, rank, g1, inst, g2, bytes, g3, cls, tail);
    PlainClassCuts(line, c, cls);
    SameCuts(line, c);
    HeaderTestIsDead(line);
    TrimUnpadded(cls);
  }

  /** A row with a module but no class after the bytes column: the lazy capture runs
      from the gap to the end of the line, so the module, parentheses and all, is the
      class name. */
  lemma RowOfModuleOnlyLine(lead: string, rank: string, g1: string, inst: string, g2: string, bytes: string, g3: string, m: string)
    requires AllSpaces(lead) && |rank| >= 1 && AllDigits(rank)
    requires |g1| >= 1 && AllSpaces(g1) && |g2| >= 1 && AllSpaces(g2) && |g3| >= 1 && AllSpaces(g3)
    requires |inst| >= 1 && AllNumChars(inst) && |bytes| >= 1 && AllNumChars(bytes)
    requires forall i :: 0 <= i < |m| ==> !IsSpace(m[i]) && m[i] != '(' && m[i] != ')'
    ensures RowOf(lead + rank + ":" + g1 + inst + g2 + bytes + g3 + ("(" + m + ")"))
      == Some(HistoRow(inst, bytes, "(" + m + ")"))
  {
    var cls := "(" + m + ")";
    var line := lead + rank + ":" + g1 + inst + g2 + bytes + g3 + cls;
    assert line + "" == line;
    forall i | 0 <= i < |cls| ensures !IsSpace(cls[i]) && (0 < i ==> cls[i] != '(') {
      if 0 < i < |cls| - 1 {
        assert cls[i] == m[i - 1];
      }
    }
    PlainShaped(line, lead, rank, g1, inst, g2, bytes, g3, cls, "");
    var c := PlainCuts(lead, rank, g1, inst, g2, bytes, g3, cls);
    assert line[c.clsAt] == cls[0];
    RunEnds(line, c.bytesEnd, c.clsAt, Space);
    forall e | c.clsAt < e < c.clsEnd ensures !ModuleTail(line[e..]) {
      assert line[e] == cls[e - c.clsAt];
      NoTailAt(line[e..]);
    }
    SameCuts(line, c);
    HeaderTestIsDead(line);
    TrimUnpadded(cls);
    assert LowerAscii(cls[0]) == '(';
  }

  /** A row whose module holds a carriage return, which `.` does not match: no class
      can be cut after the gap, so backtracking gives the capture the last character of
      the gap, and the class name trims to nothing. */
  lemma RowOfBrokenModuleLine(lead: string, rank: string, g1: string, inst: string, g2: string, bytes: string, g3: string, a: string, b: string)
    requires AllSpaces(lead) && |rank| >= 1 && AllDigits(rank)
    requires |g1| >= 1 && AllSpaces(g1) && |g2| >= 1 && AllSpaces(g2) && |g3| >= 1 && AllSpaces(g3)
    requires |inst| >= 1 && AllNumChars(inst) && |bytes| >= 1 && AllNumChars(bytes)
    requires forall i :: 0 <= i < |a| ==> !IsSpace(a[i]) && a[i] != '(' && a[i] != ')'
    requires forall i :: 0 <= i < |b| ==> !IsSpace(b[i]) && b[i] != '(' && b[i] != ')'
    ensures RowOf(lead + rank + ":" + g1 + inst + g2 + bytes + g3 + " " + ("(" + a + "\r" + b + ")"))
      == Some(HistoRow(inst, bytes, ""))
  {
    var line := lead + rank + ":" + g1 + inst + g2 + bytes + g3 + " " + ("(" + a + "\r" + b + ")");
    BrokenModuleMatch(line, lead, rank, g1, inst, g2, bytes, g3, a, b);
    HeaderTestIsDead(line);
    assert Trim(" ") == [];
  }

  /** A row with nothing after the bytes column but a gap of two or more white-space
      characters: the lazy capture takes the last of them, and the class name trims to
      nothing. */
  lemma RowOfTrailingGapLine(lead: string, rank: string, g1: string, inst: string, g2: string, bytes: string, g3: string)
    requires AllSpaces(lead) && |rank| >= 1 && AllDigits(rank)
    requires |g1| >= 1 && AllSpaces(g1) && |g2| >= 1 && AllSpaces(g2) && |g3| >= 1 && AllSpaces(g3)
    requires |inst| >= 1 && AllNumChars(inst) && |bytes| >= 1 && AllNumChars(bytes)
    ensures RowOf(lead + rank + ":" + g1 + inst + g2 + bytes + g3 + " ") == Some(HistoRow(inst, bytes, ""))
  {
    var line := lead + rank + ":" + g1 + inst + g2 + bytes + g3 + " ";
    assert line + "" == line;
    PlainShaped(line, lead, rank, g1, inst, g2, bytes, g3, " ", "");
    var c := PlainCuts(lead, rank, g1, inst, g2, bytes, g3, " ");
    assert c.clsEnd == |line|;
    SpanLongest(line, c.bytesEnd, c.clsEnd, Space);
    MatchRowFirst(line, c);
    assert MatchRow(line) == Some(c);
    HeaderTestIsDead(line);
    assert Trim(" ") == [];
  }

  /** The match of such a row: its class capture is the last space of the gap. */
  lemma BrokenModuleMatch(line: string, lead: string, rank: string, g1: string, inst: string, g2: string, bytes: string, g3: string, a: string, b: string)
    requires line == lead + rank + ":" + g1 + inst + g2 + bytes + g3 + " " + ("(" + a + "\r" + b + ")")
    requires AllSpaces(lead) && |rank| >= 1 && AllDigits(rank)
    requires |g1| >= 1 && AllSpaces(g1) && |g2| >= 1 && AllSpaces(g2) && |g3| >= 1 && AllSpaces(g3)
    requires |inst| >= 1 && AllNumChars(inst) && |bytes| >= 1 && AllNumChars(bytes)
    requires forall i :: 0 <= i < |a| ==> !IsSpace(a[i]) && a[i] != '(' && a[i] != ')'
    requires forall i :: 0 <= i < |b| ==> !IsSpace(b[i]) && b[i] != '(' && b[i] != ')'
    ensures var c := PlainCuts(lead, rank, g1, inst, g2, bytes, g3, " ");
      && MatchRow(line) == Some(c)
      && line[c.instAt..c.instEnd] == inst && line[c.bytesAt..c.bytesEnd] == bytes
      && line[c.clsAt..c.clsEnd] == " "
  {
    var tail := "(" + a + "\r" + b + ")";
    BrokenModuleTail(a, b);
    PlainShaped(line, lead, rank, g1, inst, g2, bytes, g3, " ", tail);
    PlainPieces(line, lead, rank, g1, inst, g2, bytes, g3, " ", tail);
    var c := PlainCuts(lead, rank, g1, inst, g2, bytes, g3, " ");
    var at := c.clsEnd;
    assert line[at..] == tail;
    assert line[at] == '(';
    assert line[c.clsAt] == ' ';
    RunEnds(line, c.bytesEnd, at, Space);
    MatchRowFirst(line, c);
    NoClassInBrokenModule(line, at, a, b);
  }

  /** No class cut from the opening parenthesis of such a module leaves a module tail:
      the cut stops before the carriage return. */
  lemma NoClassInBrokenModule(line: string, at: nat, a: string, b: string)
    requires at <= |line| && line[at..] == "(" + a + "\r" + b + ")"
    requires forall i :: 0 <= i < |a| ==> !IsSpace(a[i]) && a[i] != '(' && a[i] != ')'
    requires forall i :: 0 <= i < |b| ==> !IsSpace(b[i]) && b[i] != '(' && b[i] != ')'
    ensures forall e :: at < e && Within(line, at, e, Dot) ==> !ModuleTail(line[e..])
  {
    var tail := "(" + a + "\r" + b + ")";
    var r := at + 1 + |a|;
    assert line[r] == tail[1 + |a|] == '\r';
    forall e | at < e && Within(line, at, e, Dot) ensures !ModuleTail(line[e..]) {
      assert !In(Dot, line[r]);
      if e < r {
        assert line[e] == tail[e - at] == a[e - at - 1];
        NoTailAt(line[e..]);
      } else {
        assert line[r..][1..] == line[r + 1..] == b + ")";
        NoTailAt(line[r + 1..]);
      }
    }
  }

  /** A module whose parentheses hold a carriage return is a module tail. */
  lemma BrokenModuleTail(a: string, b: string)
    requires ')' !in a && ')' !in b
    ensures ModuleTail("(" + a + "\r" + b + ")")
  {
    var t := "(" + a + "\r" + b + ")";
    assert t[1..] == (a + "\r" + b) + ")";
    CloseAfter(a + "\r" + b);
  }

  /** A plain class starts where the gap before it ends, and no module tail starts
      inside it. */
  lemma PlainClassCuts(line: string, c: Cuts, cls: string)
    requires Shaped(line, c) && line[c.clsAt..c.clsEnd] == cls && PlainClass(cls)
    ensures c.clsAt == Span(line, c.bytesEnd, Space)
    ensures forall e :: c.clsAt < e < c.clsEnd ==> !ModuleTail(line[e..])
  {
    assert line[c.clsAt] == cls[0];
    RunEnds(line, c.bytesEnd, c.clsAt, Space);
    forall e | c.clsAt < e < c.clsEnd ensures !ModuleTail(line[e..]) {
      assert line[e] == cls[e - c.clsAt];
      NoTailAt(line[e..]);
    }
  }

  /** A match whose class starts where the gap ends and holds no earlier module tail is
      the match the scanner returns. */
  lemma SameCuts(line: string, c: Cuts)
    requires Shaped(line, c)
    requires c.clsAt == Span(line, c.bytesEnd, Space)
    requires forall e :: c.clsAt < e < c.clsEnd ==> !ModuleTail(line[e..])
    ensures MatchRow(line) == Some(c)
  {
    MatchRowFirst(line, c);
    var m := MatchRow(line).value;
    assert m.clsAt == c.clsAt;
    assert ModuleTail(line[m.clsEnd..]);
  }

  /** The cuts of a line made of the given pieces. */
  function PlainCuts(lead: string, rank: string, g1: string, inst: string, g2: string, bytes: string, g3: string, cls: string): Cuts
  {
    var o1 := |lead|;
    var o2 := o1 + |rank|;
    var o3 := o2 + 1 + |g1|;
    var o4 := o3 + |inst|;
    var o5 := o4 + |g2|;
    var o6 := o5 + |bytes|;
    var o7 := o6 + |g3|;
    Cuts(o1, o2, o3, o4, o5, o6, o7, o7 + |cls|)
  }

  lemma PlainShaped(line: string, lead: string, rank: string, g1: string, inst: string, g2: string, bytes: string, g3: string, cls: string, tail: string)
    requires line == lead + rank + ":" + g1 + inst + g2 + bytes + g3 + cls + tail
    requires AllSpaces(lead) && |rank| >= 1 && AllDigits(rank)
    requires |g1| >= 1 && AllSpaces(g1) && |g2| >= 1 && AllSpaces(g2) && |g3| >= 1 && AllSpaces(g3)
    requires |inst| >= 1 && AllNumChars(inst) && |bytes| >= 1 && AllNumChars(bytes)
    requires |cls| >= 1 && forall i :: 0 <= i < |cls| ==> !IsLineTerminator(cls[i])
    requires ModuleTail(tail)
    ensures var c := PlainCuts(lead, rank, g1, inst, g2, bytes, g3, cls);
      && Shaped(line, c)
      && line[c.instAt..c.instEnd] == inst && line[c.bytesAt..c.bytesEnd] == bytes
      && line[c.clsAt..c.clsEnd] == cls
  {
    var c := PlainCuts(lead, rank, g1, inst, g2, bytes, g3, cls);
    PlainPieces(line, lead, rank, g1, inst, g2, bytes, g3, cls, tail);
    assert line[c.colon] == line[c.colon..c.colon + 1][0];
    PieceWithin(line, 0, c.rankAt, Space);
    PieceWithin(line, c.rankAt, c.colon, Digit);
    PieceWithin(line, c.colon + 1, c.instAt, Space);
    PieceWithin(line, c.instAt, c.instEnd, NumChar);
    PieceWithin(line, c.instEnd, c.bytesAt, Space);
    PieceWithin(line, c.bytesAt, c.bytesEnd, NumChar);
    PieceWithin(line, c.bytesEnd, c.clsAt, Space);
    PieceWithin(line, c.clsAt, c.clsEnd, Dot);
  }

  /** Where each piece sits in the line. */
  lemma PlainPieces(line: string, lead: string, rank: string, g1: string, inst: string, g2: string, bytes: string, g3: string, cls: string, tail: string)
    requires line == lead + rank + ":" + g1 + inst + g2 + bytes + g3 + cls + tail
    ensures var c := PlainCuts(lead, rank, g1, inst, g2, bytes, g3, cls);
      && c.clsEnd <= |line|
      && line[..c.rankAt] == lead && line[c.rankAt..c.colon] == rank
      && line[c.colon..c.colon + 1] == ":" && line[c.colon + 1..c.instAt] == g1
      && line[c.instAt..c.instEnd] == inst && line[c.instEnd..c.bytesAt] == g2
      && line[c.bytesAt..c.bytesEnd] == bytes && line[c.bytesEnd..c.clsAt] == g3
      && line[c.clsAt..c.clsEnd] == cls && line[c.clsEnd..] == tail
  {
    var c := PlainCuts(lead, rank, g1, inst, g2, bytes, g3, cls);
    var p1 := lead + rank;
    var p2 := p1 + ":";
    var p3 := p2 + g1;
    var p4 := p3 + inst;
    var p5 := p4 + g2;
    var p6 := p5 + bytes;
    var p7 := p6 + g3;
    var p8 := p7 + cls;
    assert line[..|line|] == p8 + tail;
    Unglue(line, p8, tail);
    Unglue(line, p7, cls);
    Unglue(line, p6, g3);
    Unglue(line, p5, bytes);
    Unglue(line, p4, g2);
    Unglue(line, p3, inst);
    Unglue(line, p2, g1);
    Unglue(line, p1, ":");
    Unglue(line, lead, rank);
  }

  /** A prefix of the line made of two pieces. */
  lemma Unglue(line: string, p: string, q: string)
    requires |p| + |q| <= |line| && line[..|p| + |q|] == p + q
    ensures line[..|p|] == p && line[|p|..|p| + |q|] == q
  {
    assert line[..|p|] == line[..|p| + |q|][..|p|];
    assert line[|p|..|p| + |q|] == line[..|p| + |q|][|p|..];
  }

  /** A piece of the line whose characters are all in `k`. */
  lemma PieceWithin(line: string, i: nat, j: nat, k: CharClass)
    requires i <= j <= |line|
    requires k == Space ==> AllSpaces(line[i..j])
    requires k == Digit ==> AllDigits(line[i..j])
    requires k == NumChar ==> AllNumChars(line[i..j])
    requires k == Dot ==> forall x :: 0 <= x < j - i ==> !IsLineTerminator(line[i..j][x])
    ensures Within(line, i, j, k)
  {
    forall x | i <= x < j ensures In(k, line[x]) {
      assert line[x] == line[i..j][x - i];
    }
  }

  lemma NoTailAt(t: string)
    requires |t| >= 1 && !IsSpace(t[0]) && t[0] != '('
    ensures !ModuleTail(t)
  {
  }

  /** A line that starts with neither white space nor a digit gives no row. */
  lemma NoRankNoRow(line: string)
    requires |line| >= 1 && !IsSpace(line[0]) && !IsDigit(line[0])
    ensures RowOf(line) == None
  {
    assert Span(line, 0, Space) == 0;
    assert Span(line, 0, Digit) == 0;
  }

  /** A module in parentheses, after white space, is a module tail. */
  lemma ModuleInParens(m: string)
    requires ')' !in m
    ensures ModuleTail(" (" + m + ")")
  {
    var t := " (" + m + ")";
    assert t[1..] == "(" + m + ")";
    assert t[1..][1..] == m + ")";
    CloseAfter(m);
  }

  lemma {:induction false} CloseAfter(m: string)
    requires ')' !in m
    ensures ModuleClose(m + ")")
    decreases |m|
  {
    if m != [] {
      assert m[0] in m;
      assert (m + ")")[1..] == m[1..] + ")";
      CloseAfter(m[1..]);
    } else {
      assert (m + ")")[1..] == [];
    }
  }
}
