/** Ranking of heap-histogram entries: the stable descending sort by bytes, the cut to
    the first ten and the byte total used by normalisation (src/llm/langGraphFlow.js:125-132)
    and by the local last resort (src/llm/langGraphFlow.js:66-70). */
module Ranking {

  /** One `topByBytes` entry after coercion: `{className, bytes, instances}`. */
  datatype Entry = Entry(className: string, bytes: nat, instances: nat)

  /** How many entries `topByBytes` keeps. */
  const TopCount: nat := 10

  predicate SortedByBytes(s: seq<Entry>)
  {
    forall i, j :: 0 <= i < j < |s| ==> s[i].bytes >= s[j].bytes
  }

  /** Places `e` in front of the first entry that is not larger than it. */
  function Insert(e: Entry, s: seq<Entry>): (r: seq<Entry>)
    requires SortedByBytes(s)
    ensures SortedByBytes(r)
    ensures multiset(r) == multiset(s) + multiset{e}
    ensures |r| == |s| + 1
    decreases |s|
  {
    if s == [] || s[0].bytes <= e.bytes then
      SortedCons(e, s);
      [e] + s
    else
      var rest := Insert(e, s[1..]);
      BelowHead(e, s, rest);
      SortedCons(s[0], rest);
      assert s == [s[0]] + s[1..];
      [s[0]] + rest
  }

  /** An entry no smaller than every entry of a sorted list can go in front of it. */
  lemma SortedCons(x: Entry, s: seq<Entry>)
    requires SortedByBytes(s)
    requires s != [] ==> s[0].bytes <= x.bytes
    ensures SortedByBytes([x] + s)
  {
    forall i, j | 0 <= i < j < |s| + 1 ensures ([x] + s)[i].bytes >= ([x] + s)[j].bytes {
      assert ([x] + s)[j] == s[j - 1];
      if i > 0 {
        assert ([x] + s)[i] == s[i - 1];
      }
    }
  }

  /** Inserting an entry smaller than the head into the tail leaves every entry no
      larger than the head. */
  lemma BelowHead(e: Entry, s: seq<Entry>, rest: seq<Entry>)
    requires SortedByBytes(s) && s != [] && e.bytes < s[0].bytes
    requires multiset(rest) == multiset(s[1..]) + multiset{e}
    ensures rest != [] ==> rest[0].bytes <= s[0].bytes
  {
    if rest != [] && rest[0] != e {
      assert rest[0] in multiset(rest);
      assert rest[0] in multiset(s[1..]);
      var j :| 0 <= j < |s[1..]| && s[1..][j] == rest[0];
      assert s[j + 1] == rest[0];
    }
  }

  /** `.sort((a, b) => b.bytes - a.bytes)`: JavaScript's sort is stable, so entries with
      equal byte counts keep their input order. */
  function SortByBytes(s: seq<Entry>): (r: seq<Entry>)
    ensures SortedByBytes(r)
    ensures multiset(r) == multiset(s)
    ensures |r| == |s|
    decreases |s|
  {
    if s == [] then []
    else
      var r := Insert(s[0], SortByBytes(s[1..]));
      assert s == [s[0]] + s[1..];
      r
  }

  /** `.slice(0, k)` */
  function Top(s: seq<Entry>, k: nat): seq<Entry>
  {
    if |s| <= k then s else s[..k]
  }

  /** `.reduce((s, x) => s + x.bytes, 0)` */
  function TotalBytes(s: seq<Entry>): nat
    decreases |s|
  {
    if s == [] then 0 else s[0].bytes + TotalBytes(s[1..])
  }

  /** The entries of `s` with exactly `b` bytes, in order. */
  function WithBytes(s: seq<Entry>, b: nat): seq<Entry>
    decreases |s|
  {
    if s == [] then [] else (if s[0].bytes == b then [s[0]] else []) + WithBytes(s[1..], b)
  }

  lemma {:induction false} InsertKeepsTies(e: Entry, s: seq<Entry>, b: nat)
    requires SortedByBytes(s)
    ensures WithBytes(Insert(e, s), b) == WithBytes([e] + s, b)
    decreases |s|
  {
    assert ([e] + s)[1..] == s;
    if s != [] && s[0].bytes > e.bytes {
      var rest := s[1..];
      InsertKeepsTies(e, rest, b);
      var t := [s[0]] + Insert(e, rest);
      assert t[1..] == Insert(e, rest);
      assert ([e] + rest)[1..] == rest;
      assert WithBytes(t, b) == (if s[0].bytes == b then [s[0]] else []) + WithBytes([e] + rest, b);
      assert WithBytes(s, b) == (if s[0].bytes == b then [s[0]] else []) + WithBytes(rest, b);
    }
  }

  /** The sort is stable: for every byte count, the entries that have it appear in the
      result in the order they had in the input. */
  lemma {:induction false} SortIsStable(s: seq<Entry>, b: nat)
    ensures WithBytes(SortByBytes(s), b) == WithBytes(s, b)
    decreases |s|
  {
    if s != [] {
      SortIsStable(s[1..], b);
      InsertKeepsTies(s[0], SortByBytes(s[1..]), b);
      assert ([s[0]] + SortByBytes(s[1..]))[1..] == SortByBytes(s[1..]);
    }
  }

  /** Sorting an already sorted list changes nothing. */
  lemma {:induction false} SortKeepsSorted(s: seq<Entry>)
    requires SortedByBytes(s)
    ensures SortByBytes(s) == s
    decreases |s|
  {
    if s != [] {
      SortKeepsSorted(s[1..]);
      assert s == [s[0]] + s[1..];
    }
  }

  lemma {:induction false} TotalBytesAppend(a: seq<Entry>, b: seq<Entry>)
    ensures TotalBytes(a + b) == TotalBytes(a) + TotalBytes(b)
    decreases |a|
  {
    if a == [] {
      assert a + b == b;
    } else {
      assert (a + b)[1..] == a[1..] + b;
      TotalBytesAppend(a[1..], b);
    }
  }

  /** In a sorted list, nothing after position k is larger than anything before it. */
  lemma SortedPrefixDominates(r: seq<Entry>, k: nat, x: Entry)
    requires SortedByBytes(r) && k <= |r|
    requires x in r[k..]
    ensures forall i :: 0 <= i < k ==> x.bytes <= r[i].bytes
  {
    var j :| 0 <= j < |r[k..]| && r[k..][j] == x;
    assert r[k + j] == x;
  }

  /** The first ten of the sorted entries: as many as there are, up to ten, sorted,
      and drawn from the input. */
  lemma RankedTop(s: seq<Entry>)
    ensures var t := Top(SortByBytes(s), TopCount);
      && |t| == (if |s| <= TopCount then |s| else TopCount)
      && SortedByBytes(t)
      && multiset(t) <= multiset(s)
  {
    var r := SortByBytes(s);
    if |r| > TopCount {
      var t := r[..TopCount];
      assert r == t + r[TopCount..];
      assert multiset(r) == multiset(t) + multiset(r[TopCount..]);
      assert forall i :: 0 <= i < |t| ==> t[i] == r[i];
    }
  }

  /** No entry that the cut to ten leaves out is larger than an entry it keeps. */
  lemma TopKeepsLargest(s: seq<Entry>)
    ensures var t := Top(SortByBytes(s), TopCount);
      forall i, x :: 0 <= i < |t| && x in multiset(s) - multiset(t) ==> x.bytes <= t[i].bytes
  {
    var r := SortByBytes(s);
    if |r| > TopCount {
      var t := r[..TopCount];
      var rest := r[TopCount..];
      assert r == t + rest;
      assert multiset(r) == multiset(t) + multiset(rest);
      forall x | x in multiset(s) - multiset(t) ensures forall i :: 0 <= i < |t| ==> x.bytes <= t[i].bytes {
        assert x in multiset(rest);
        SortedPrefixDominates(r, TopCount, x);
      }
    }
  }
}
