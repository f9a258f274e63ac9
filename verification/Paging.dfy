/** The timeline query and the export that pages through it. */
module Paging {
  import opened Prelude
  import opened Sorting

  const PAGE: nat := 500

  /** A capture row as the timeline returns it. */
  datatype Entry = Entry(id: i64, timestamp: i64)

  function ByNewest(): (Entry, Entry) -> bool {
    (a: Entry, b: Entry) => a.timestamp >= b.timestamp
  }

  function OlderThan(t: i64): Entry -> bool {
    (e: Entry) => e.timestamp < t
  }

  /** All captures, newest first; rows that tie keep the table's order. */
  function Newest(rows: seq<Entry>): seq<Entry> {
    Sort(ByNewest(), rows)
  }

  /** `WHERE TimeStamp < before ORDER BY TimeStamp DESC LIMIT limit`. */
  method Timeline(rows: seq<Entry>, before: Option<i64>, limit: nat) returns (page: seq<Entry>)
    ensures var t := if before.Some? then before.value else I64_MAX;
      page == Take(Filter(OlderThan(t), Newest(rows)), limit)
    ensures var t := if before.Some? then before.value else 0x7fff_ffff_ffff_ffff; IsPage(page, rows, t, limit)
  {
    var t := if before.Some? then before.value else I64_MAX;
    var older: seq<Entry> := [];
    for i := 0 to |rows|
      invariant older == Filter(OlderThan(t), rows[..i])
    {
      assert rows[..i + 1] == rows[..i] + [rows[i]];
      FilterAppend(OlderThan(t), rows[..i], [rows[i]]);
      FilterOne(OlderThan(t), rows[i]);
      if rows[i].timestamp < t {
        older := older + [rows[i]];
      }
    }
    assert rows[..|rows|] == rows;
    SortFilter(ByNewest(), OlderThan(t), rows);
    page := Take(Sort(ByNewest(), older), limit);
    PageIsNewest(rows, t, limit, older);
  }

  /** The page holds rows older than `t`, newest first, at most `limit`, and leaves one
      out only when it is full of rows at least as new. */
  ghost predicate IsPage(page: seq<Entry>, rows: seq<Entry>, t: i64, limit: nat) {
    && |page| <= limit
    && (forall i, j :: 0 <= i < j < |page| ==> page[i].timestamp >= page[j].timestamp)
    && (forall e :: e in page ==> e in rows && e.timestamp < t)
    && (forall e :: e in rows && e.timestamp < t && e !in page ==>
          |page| == limit && forall x :: x in page ==> x.timestamp >= e.timestamp)
  }

  lemma PageIsNewest(rows: seq<Entry>, t: i64, limit: nat, older: seq<Entry>)
    requires older == Filter(OlderThan(t), rows)
    ensures IsPage(Take(Sort(ByNewest(), older), limit), rows, t, limit)
  {
    var all := Sort(ByNewest(), older);
    var page := Take(all, limit);
    SortSorted(ByNewest(), older);
    SameElements(all, older);
    assert forall i, j :: 0 <= i < j < |all| ==> ByNewest()(all[i], all[j]);
    assert forall i :: 0 <= i < |page| ==> page[i] == all[i];
    forall e | e in page ensures e in rows && e.timestamp < t {
      assert e in all && e in older;
    }
    forall e | e in rows && e.timestamp < t && e !in page
      ensures |page| == limit && forall x :: x in page ==> x.timestamp >= e.timestamp
    {
      assert OlderThan(t)(e) && e in older && e in all;
      var n :| 0 <= n < |all| && all[n] == e;
      assert n >= |page|;
      forall x | x in page ensures x.timestamp >= e.timestamp {
        var i :| 0 <= i < |page| && page[i] == x;
        assert ByNewest()(all[i], all[n]);
      }
    }
  }

  // --------------------------------------------------------------------- pages

  lemma {:induction false} FilterShorter(p: Entry -> bool, s: seq<Entry>)
    ensures |Filter(p, s)| <= |s|
    ensures (exists x :: x in s && !p(x)) ==> |Filter(p, s)| < |s|
  {
    if s != [] {
      FilterShorter(p, s[1..]);
      if p(s[0]) && exists x :: x in s && !p(x) {
        var x :| x in s && !p(x);
        assert x in s[1..];
      }
    }
  }

  lemma {:induction false} FilterTwice(p: Entry -> bool, q: Entry -> bool, s: seq<Entry>)
    requires forall x :: p(x) ==> q(x)
    ensures Filter(p, Filter(q, s)) == Filter(p, s)
  {
    if s != [] {
      FilterTwice(p, q, s[1..]);
      if q(s[0]) {
        assert ([s[0]] + Filter(q, s[1..]))[1..] == Filter(q, s[1..]);
      }
    }
  }

  /** What remains after a page: everything older than its last entry. */
  function Rest(s: seq<Entry>): (r: seq<Entry>)
    requires s != []
    ensures |r| < |s|
  {
    var page := Take(s, PAGE);
    var last := page[|page| - 1];
    FilterShorter(OlderThan(last.timestamp), s);
    assert last in s && !OlderThan(last.timestamp)(last);
    Filter(OlderThan(last.timestamp), s)
  }

  /** The pages, one after the other. */
  function Pages(s: seq<Entry>): seq<Entry>
    decreases |s|
  {
    if s == [] then [] else Take(s, PAGE) + Pages(Rest(s))
  }

  /** Moving the cursor to the end of a page leaves what is behind the page. */
  lemma CursorMoves(all: seq<Entry>, t: i64, page: seq<Entry>)
    requires page == Take(Filter(OlderThan(t), all), PAGE) && page != []
    ensures var left := Filter(OlderThan(t), all);
      var next := Filter(OlderThan(page[|page| - 1].timestamp), all);
      Pages(left) == page + Pages(next) && |next| < |left|
  {
    var left := Filter(OlderThan(t), all);
    var last := page[|page| - 1];
    assert last in left;
    FilterTwice(OlderThan(last.timestamp), OlderThan(t), all);
    assert Rest(left) == Filter(OlderThan(last.timestamp), all);
  }

  /** The export loop: it ends for every table, and returns the pages of the
      captures older than the largest timestamp. */
  method Export(rows: seq<Entry>) returns (captures: seq<Entry>)
    ensures captures == Pages(Filter(OlderThan(I64_MAX), Newest(rows)))
  {
    captures := [];
    var before: Option<i64> := None;
    ghost var all := Newest(rows);
    ghost var t: i64 := I64_MAX;
    ghost var left := Filter(OlderThan(t), all);
    ghost var whole := Pages(left);
    Joined([], [], whole);
    while true
      invariant t == if before.Some? then before.value else I64_MAX
      invariant left == Filter(OlderThan(t), all)
      invariant whole == captures + Pages(left)
      decreases |left|
    {
      var page := Timeline(rows, before, PAGE);
      if |page| == 0 {
        Joined(captures, [], []);
        break;
      }
      CursorMoves(all, t, page);
      t := page[|page| - 1].timestamp;
      left := Filter(OlderThan(t), all);
      Joined(captures, page, Pages(left));
      before := Some(page[|page| - 1].timestamp);
      captures := captures + page;
    }
  }

  lemma Joined(a: seq<Entry>, b: seq<Entry>, c: seq<Entry>)
    ensures a + (b + c) == a + b + c && a + [] == a && [] + c == c
  {
  }

  // ------------------------------------------------------------- when is it all

  /** In newest-first order, the entries older than `t` are a tail. */
  lemma OlderTail(s: seq<Entry>, t: i64, j: nat)
    requires j <= |s|
    requires forall i :: 0 <= i < j ==> s[i].timestamp >= t
    requires forall i :: j <= i < |s| ==> s[i].timestamp < t
    ensures Filter(OlderThan(t), s) == s[j..]
  {
    FilterNone(OlderThan(t), s[..j]);
    FilterAll(OlderThan(t), s[j..]);
    FilterAppend(OlderThan(t), s[..j], s[j..]);
    assert s == s[..j] + s[j..];
  }

  /** The next page starts right behind this one, unless a group of equal
      timestamps reaches across the end of the page. */
  lemma RestIsTail(s: seq<Entry>) returns (j: nat)
    requires Sorted(ByNewest(), s) && s != []
    ensures |Take(s, PAGE)| <= j <= |s| && Rest(s) == s[j..]
    ensures |s| > PAGE ==> (j == PAGE <==> s[PAGE - 1].timestamp > s[PAGE].timestamp)
  {
    var n := |Take(s, PAGE)|;
    var t := s[n - 1].timestamp;
    assert forall i, k :: 0 <= i < k < |s| ==> ByNewest()(s[i], s[k]);
    j := n;
    while j < |s| && s[j].timestamp >= t
      invariant n <= j <= |s|
      invariant forall i :: 0 <= i < j ==> s[i].timestamp >= t
      invariant j > n ==> s[n].timestamp >= t
    {
      j := j + 1;
    }
    OlderTail(s, t, j);
  }

  lemma TailSorted(s: seq<Entry>, j: nat)
    requires Sorted(ByNewest(), s) && j <= |s|
    ensures Sorted(ByNewest(), s[j..])
  {
  }

  lemma {:induction false} PagesShorter(s: seq<Entry>)
    requires Sorted(ByNewest(), s)
    ensures |Pages(s)| <= |s|
    decreases |s|
  {
    if s != [] {
      var j := RestIsTail(s);
      TailSorted(s, j);
      PagesShorter(Rest(s));
    }
  }

  function PageEnd(k: nat): nat { 500 * k }

  /** No page ends inside a group of equal timestamps. */
  ghost predicate NoGroupSplit(s: seq<Entry>) {
    forall k: nat :: k >= 1 && PageEnd(k) < |s| ==> s[PageEnd(k) - 1].timestamp > s[PageEnd(k)].timestamp
  }

  lemma SplitTail(s: seq<Entry>)
    requires |s| > PAGE
    ensures NoGroupSplit(s) <==> s[PAGE - 1].timestamp > s[PAGE].timestamp && NoGroupSplit(s[PAGE..])
  {
    assert PageEnd(1) == PAGE;
    var tail := s[PAGE..];
    if NoGroupSplit(s) {
      forall k: nat | k >= 1 && PageEnd(k) < |tail|
        ensures tail[PageEnd(k) - 1].timestamp > tail[PageEnd(k)].timestamp
      {
        assert PageEnd(k + 1) == PAGE + PageEnd(k);
      }
    }
    if s[PAGE - 1].timestamp > s[PAGE].timestamp && NoGroupSplit(tail) {
      forall k: nat | k >= 1 && PageEnd(k) < |s|
        ensures s[PageEnd(k) - 1].timestamp > s[PageEnd(k)].timestamp
      {
        if k > 1 {
          assert PageEnd(k) == PAGE + PageEnd(k - 1);
        }
      }
    }
  }

  /** The pages hold every entry exactly when no page ends inside a group. */
  lemma {:induction false} PagesCompleteExactly(s: seq<Entry>)
    requires Sorted(ByNewest(), s)
    ensures Pages(s) == s <==> NoGroupSplit(s)
    decreases |s|
  {
    if s != [] {
      var j := RestIsTail(s);
      TailSorted(s, j);
      if |s| <= PAGE {
        assert Pages(Rest(s)) == [];
        assert forall k: nat :: k >= 1 ==> PageEnd(k) >= PAGE;
      } else {
        SplitTail(s);
        var page := s[..PAGE];
        if j == PAGE {
          PagesCompleteExactly(s[PAGE..]);
          assert s == page + s[PAGE..];
          assert Pages(s) == page + Pages(s[PAGE..]);
          assert Pages(s)[PAGE..] == Pages(s[PAGE..]);
        } else {
          PagesShorter(Rest(s));
          assert |Pages(s)| < |s|;
        }
      }
    }
  }

  /** The export holds every capture, newest first, exactly when no timestamp is
      the largest possible and no page ends inside a group of equal timestamps. */
  lemma {:induction false} ExportCompleteExactly(rows: seq<Entry>)
    ensures var captures := Pages(Filter(OlderThan(I64_MAX), Newest(rows)));
      captures == Newest(rows) <==>
        (forall e :: e in rows ==> e.timestamp < 0x7fff_ffff_ffff_ffff) && NoGroupSplit(Newest(rows))
  {
    var all := Newest(rows);
    var p := OlderThan(I64_MAX);
    NewestSorted(rows);
    SameElements(all, rows);
    if forall e :: e in rows ==> e.timestamp < I64_MAX {
      FilterAll(p, all);
      PagesCompleteExactly(all);
    } else {
      var e :| e in rows && e.timestamp >= I64_MAX;
      FilterShorter(p, all);
      assert e in all && !p(e);
      SortFilter(ByNewest(), p, rows);
      NewestSorted(Filter(p, rows));
      PagesShorter(Filter(p, all));
    }
  }

  ghost predicate NewestFirst(p: seq<Entry>) {
    forall i, j :: 0 <= i < j < |p| ==> p[i].timestamp >= p[j].timestamp
  }

  /** A page takes the newest; what it leaves for no later page ties with its end. */
  lemma PageStep(s: seq<Entry>)
    requires Sorted(ByNewest(), s) && s != []
    ensures var page, rest := Take(s, PAGE), Rest(s);
      var t := page[|page| - 1].timestamp;
      && NewestFirst(page) && (forall e :: e in page ==> e in s && e.timestamp >= t)
      && (forall e :: e in rest ==> e in s && e.timestamp < t)
      && (forall e :: e in s ==> e in page || e in rest || e.timestamp == t)
  {
    var page := Take(s, PAGE);
    var n := |page|;
    assert forall a, b :: 0 <= a < b < |s| ==> ByNewest()(s[a], s[b]);
    assert forall k :: 0 <= k < n ==> page[k] == s[k];
    forall e | e in page ensures e in s && e.timestamp >= page[n - 1].timestamp {
      var k :| 0 <= k < n && page[k] == e;
      assert k == n - 1 || ByNewest()(s[k], s[n - 1]);
    }
    forall e | e in s && e !in page && e !in Rest(s) ensures e.timestamp == page[n - 1].timestamp {
      var k :| 0 <= k < |s| && s[k] == e;
      assert k >= n && ByNewest()(s[n - 1], s[k]);
      assert !OlderThan(page[n - 1].timestamp)(e);
    }
    assert forall e :: e in Rest(s) ==> OlderThan(page[n - 1].timestamp)(e);
  }

  lemma NewestFirstAppend(a: seq<Entry>, b: seq<Entry>, t: i64)
    requires NewestFirst(a) && NewestFirst(b)
    requires (forall e :: e in a ==> e.timestamp >= t) && (forall e :: e in b ==> e.timestamp < t)
    ensures NewestFirst(a + b)
  {
    var p := a + b;
    forall i, j | 0 <= i < j < |p| ensures p[i].timestamp >= p[j].timestamp {
      if i < |a| && j >= |a| {
        assert p[i] in a && p[j] == b[j - |a|] && p[j] in b;
      }
    }
  }

  /** Every entry of `s` has one of its time in `p`. */
  ghost predicate Represents(p: seq<Entry>, s: seq<Entry>) {
    forall e :: e in s ==> exists x :: x in p && x.timestamp == e.timestamp
  }

  lemma RepresentsMore(s: seq<Entry>, page: seq<Entry>, rest: seq<Entry>, more: seq<Entry>)
    requires page != [] && Represents(more, rest)
    requires forall e :: e in s ==> e in page || e in rest || e.timestamp == page[|page| - 1].timestamp
    ensures Represents(page + more, s)
  {
    forall e | e in s ensures exists x :: x in page + more && x.timestamp == e.timestamp {
      if e in page {
        assert e in page + more;
      } else if e in rest {
        var x :| x in more && x.timestamp == e.timestamp;
        assert x in page + more;
      } else {
        assert page[|page| - 1] in page + more;
      }
    }
  }

  lemma {:induction false} PagesMissOnlyTies(s: seq<Entry>)
    requires Sorted(ByNewest(), s)
    ensures var p := Pages(s);
      (forall e :: e in p ==> e in s) && NewestFirst(p) && Represents(p, s)
    decreases |s|
  {
    if s != [] {
      var page, rest := Take(s, PAGE), Rest(s);
      var j := RestIsTail(s);
      TailSorted(s, j);
      PageStep(s);
      PagesMissOnlyTies(rest);
      NewestFirstAppend(page, Pages(rest), page[|page| - 1].timestamp);
      RepresentsMore(s, page, rest, Pages(rest));
    }
  }

  /** Whatever the table, the export holds rows only, newest first, and misses a row
      below the largest timestamp only if it holds one of the same time. */
  lemma ExportMissesOnlyTies(rows: seq<Entry>)
    ensures var captures := Pages(Filter(OlderThan(I64_MAX), Newest(rows)));
      && (forall e :: e in captures ==> e in rows)
      && (forall i, j :: 0 <= i < j < |captures| ==> captures[i].timestamp >= captures[j].timestamp)
      && (forall e :: e in rows && e.timestamp < 0x7fff_ffff_ffff_ffff ==>
            exists x :: x in captures && x.timestamp == e.timestamp)
  {
    var p := OlderThan(I64_MAX);
    var below := Filter(p, Newest(rows));
    SortFilter(ByNewest(), p, rows);
    NewestSorted(Filter(p, rows));
    SameElements(Newest(rows), rows);
    PagesMissOnlyTies(below);
    forall e | e in rows && e.timestamp < 0x7fff_ffff_ffff_ffff
      ensures exists x :: x in Pages(below) && x.timestamp == e.timestamp
    {
      assert p(e) && e in Newest(rows) && e in below;
    }
  }

  lemma NewestSorted(rows: seq<Entry>)
    ensures Sorted(ByNewest(), Newest(rows))
  {
    SortSorted(ByNewest(), rows);
  }

  /** With distinct timestamps below the largest, each capture comes exactly once,
      newest first. */
  lemma DistinctTimestampsExportAll(rows: seq<Entry>)
    requires forall i, j :: 0 <= i < j < |rows| ==> rows[i].timestamp != rows[j].timestamp
    requires forall e :: e in rows ==> e.timestamp < 0x7fff_ffff_ffff_ffff
    ensures var captures := Pages(Filter(OlderThan(I64_MAX), Newest(rows)));
      && multiset(captures) == multiset(rows)
      && forall i, j :: 0 <= i < j < |captures| ==> captures[i].timestamp > captures[j].timestamp
  {
    var all := Newest(rows);
    NewestSorted(rows);
    SameElements(all, rows);
    var time := (e: Entry) => e.timestamp;
    assert DistinctBy(time, rows);
    DistinctRearranged(time, rows, all);
    forall i, j | 0 <= i < j < |all| ensures all[i].timestamp > all[j].timestamp {
      assert ByNewest()(all[i], all[j]) && time(all[i]) != time(all[j]);
    }
    assert NoGroupSplit(all);
    ExportCompleteExactly(rows);
  }
}
