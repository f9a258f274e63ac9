/** From the legs' hit lists to the final ordering of a search. */
module Ranking {
  import opened Prelude
  import opened Sorting
  import opened Semantic

  const RRF_K: int := 60
  const FUSION_POOL_FACTOR: int := 4

  /** Candidate window per leg: `(limit * 4).clamp(limit, 500)`. */
  function FusionPool(limit: int): int {
    var n := limit * FUSION_POOL_FACTOR;
    if n < limit then limit else if n > 500 then 500 else n
  }

  function ClampLimit(requested: Option<int>): int {
    var n := if requested.Some? then requested.value else 20;
    if n < 1 then 1 else if n > 200 then 200 else n
  }

  // ---------------------------------------------------------------- candidates

  /** Adds the capture of a positive hit, unless it is listed already. */
  function Consider(ids: seq<i64>, h: Hit): seq<i64> {
    match CaptureIdForItem(h.item)
    case None => ids
    case Some(id) => if h.score > 0.0 && id !in ids then ids + [id] else ids
  }

  /** Captures of the positive hits, each at its best rank. */
  function Candidates(hits: seq<Hit>): seq<i64> {
    if hits == [] then [] else Consider(Candidates(hits[..|hits| - 1]), hits[|hits| - 1])
  }

  method SemanticCandidates(hits: seq<Hit>) returns (ids: seq<i64>)
    ensures ids == Candidates(hits)
  {
    ids := [];
    for i := 0 to |hits|
      invariant ids == Candidates(hits[..i])
    {
      var h := hits[i];
      assert hits[..i + 1][..i] == hits[..i];
      if h.score <= 0.0 {
        continue;
      }
      var id := CaptureIdForItem(h.item);
      if id.Some? {
        if id.value !in ids {
          ids := ids + [id.value];
        }
      }
    }
    assert hits[..|hits|] == hits;
  }

  ghost predicate Evidence(h: Hit, id: i64) {
    h.score > 0.0 && CaptureIdForItem(h.item) == Some(id)
  }

  /** A leg's list is duplicate-free and holds exactly the captures with a hit of
      positive similarity. */
  lemma {:induction false} CandidatesAreDistinct(hits: seq<Hit>)
    ensures NoDuplicates(Candidates(hits))
    ensures forall id :: id in Candidates(hits) <==> exists k :: 0 <= k < |hits| && Evidence(hits[k], id)
  {
    if hits != [] {
      var n := |hits| - 1;
      CandidatesAreDistinct(hits[..n]);
      forall id ensures id in Candidates(hits) <==> exists k :: 0 <= k < |hits| && Evidence(hits[k], id) {
        if k :| 0 <= k < n && Evidence(hits[..n][k], id) {
          assert Evidence(hits[k], id);
        }
        if k :| 0 <= k < |hits| && Evidence(hits[k], id) {
          if k < n {
            assert Evidence(hits[..n][k], id);
          }
        }
        if id in Candidates(hits) && id !in Candidates(hits[..n]) {
          assert Evidence(hits[n], id);
        }
      }
    }
  }

  /** Best first, each row naming its own capture: what `search` returns from a
      store with at most one embedding per capture. */
  ghost predicate OneRowPerCapture(hits: seq<Hit>) {
    && Sorted(ByScore(), hits)
    && (forall i :: 0 <= i < |hits| ==> CaptureIdForItem(hits[i].item).Some?)
    && (forall i, j :: 0 <= i < j < |hits| ==> CaptureIdForItem(hits[i].item) != CaptureIdForItem(hits[j].item))
  }

  lemma OneRowInFront(hits: seq<Hit>)
    requires OneRowPerCapture(hits) && hits != []
    ensures var n := |hits| - 1;
      && OneRowPerCapture(hits[..n])
      && (n > 0 ==> hits[n].score <= hits[n - 1].score)
  {
  }

  /** With one row per capture, the last hit names a capture not listed yet. */
  lemma NextCandidate(hits: seq<Hit>)
    requires OneRowPerCapture(hits) && hits != []
    ensures var n := |hits| - 1;
      var id := CaptureIdForItem(hits[n].item);
      id.Some? && Candidates(hits) == Candidates(hits[..n]) + if hits[n].score > 0.0 then [id.value] else []
  {
    var n := |hits| - 1;
    var id := CaptureIdForItem(hits[n].item).value;
    CandidatesAreDistinct(hits[..n]);
    forall k | 0 <= k < n ensures !Evidence(hits[..n][k], id) {
      assert hits[..n][k] == hits[k];
    }
    assert id !in Candidates(hits[..n]);
  }

  /** Cutting the hits to a window cuts the candidates to the same window. */
  lemma {:induction false} WindowOfCandidates(hits: seq<Hit>, pool: nat)
    requires OneRowPerCapture(hits)
    ensures Candidates(Take(hits, pool)) == Take(Candidates(hits), pool)
    ensures |Candidates(hits)| <= |hits|
    ensures |Candidates(hits)| < |hits| ==> hits[|hits| - 1].score <= 0.0
    decreases |hits|
  {
    if hits != [] {
      var n := |hits| - 1;
      var front := hits[..n];
      OneRowInFront(hits);
      NextCandidate(hits);
      WindowOfCandidates(front, pool);
      if pool < |hits| {
        assert Take(hits, pool) == Take(front, pool);
      }
    }
  }

  function CaptureOf(): Hit -> Option<i64> { (h: Hit) => CaptureIdForItem(h.item) }

  /** Each row names a capture of its own, and so does each of its hits. */
  lemma {:induction false} ScoredOnce(joined: seq<Joined>, query: seq<real>, sim: Similarity)
    requires forall i, j :: 0 <= i < j < |joined| ==>
      CaptureIdForItem(joined[i].item) != CaptureIdForItem(joined[j].item)
    ensures DistinctBy(CaptureOf(), Scored(joined, query, sim))
  {
    if joined != [] {
      var n := |joined| - 1;
      var front := Scored(joined[..n], query, sim);
      ScoredOnce(joined[..n], query, sim);
      ScoredItems(joined[..n], query, sim);
      forall h | h in front ensures CaptureIdForItem(h.item) != CaptureIdForItem(joined[n].item) {
        var j :| j in joined[..n] && j.item == h.item;
      }
    }
  }

  lemma {:induction false} RowsOfEach(joined: seq<Joined>)
    requires forall j :: j in joined ==> CaptureIdForItem(j.item).Some?
    ensures |RowsOf(joined)| == |joined|
    ensures forall i :: 0 <= i < |joined| ==> CaptureIdForItem(joined[i].item) == Some(RowsOf(joined)[i].capture)
  {
    if joined != [] {
      RowsOfEach(joined[..|joined| - 1]);
    }
  }

  /** A search in a store that enrichment filled (capture keys only, at most one
      embedding per capture) lists no capture twice, best first. */
  lemma SearchListsCapturesOnce(joined: seq<Joined>, query: seq<real>, sim: Similarity)
    requires forall j :: j in joined ==> CaptureIdForItem(j.item).Some?
    requires forall i, j :: 0 <= i < j < |RowsOf(joined)| ==> RowsOf(joined)[i].capture != RowsOf(joined)[j].capture
    ensures OneRowPerCapture(FullRanking(joined, query, sim))
  {
    var hits := FullRanking(joined, query, sim);
    RowsOfEach(joined);
    ScoredOnce(joined, query, sim);
    SortSorted(ByScore(), Scored(joined, query, sim));
    SameElements(hits, Scored(joined, query, sim));
    ScoredItems(joined, query, sim);
    forall i | 0 <= i < |hits| ensures CaptureIdForItem(hits[i].item).Some? {
      assert hits[i] in Scored(joined, query, sim);
    }
    DistinctRearranged(CaptureOf(), Scored(joined, query, sim), hits);
    assert forall i, j :: 0 <= i < j < |hits| ==> CaptureOf()(hits[i]) != CaptureOf()(hits[j]);
  }

  lemma CandidatesNext(front: seq<Hit>, h: Hit)
    ensures Candidates(front + [h]) == Consider(Candidates(front), h)
  {
  }

  function Among(allowed: set<i64>): i64 -> bool { (id: i64) => id in allowed }

  lemma ConsiderFiltered(ids: seq<i64>, h: Hit, allowed: set<i64>)
    ensures var kept := Filter(Among(allowed), ids);
      Filter(Among(allowed), Consider(ids, h)) == if Permits(Some(allowed), h.item) then Consider(kept, h) else kept
  {
    var id := CaptureIdForItem(h.item);
    if id.Some? {
      FilterAppend(Among(allowed), ids, [id.value]);
      FilterOne(Among(allowed), id.value);
    }
  }

  /** Filtering during the scan loses nothing: the filtered candidates are the
      candidates that pass, in the same order. */
  lemma {:induction false} FilteredCandidates(hits: seq<Hit>, allowed: set<i64>)
    ensures Candidates(Filter(Permitted(Some(allowed)), hits)) == Filter(Among(allowed), Candidates(hits))
    decreases |hits|
  {
    if hits != [] {
      var n := |hits| - 1;
      var front, h := hits[..n], hits[n];
      var ok := Permitted(Some(allowed));
      FilteredCandidates(front, allowed);
      assert hits == front + [h];
      FilterAppend(ok, front, [h]);
      FilterOne(ok, h);
      CandidatesNext(Filter(ok, front), h);
      ConsiderFiltered(Candidates(front), h, allowed);
      assert Filter(ok, front) + [] == Filter(ok, front);
    }
  }

  /** `h` outranks each of the hits and names another capture. */
  ghost predicate Heads(h: Hit, hits: seq<Hit>) {
    forall x :: x in hits ==> ByScore()(h, x) && CaptureIdForItem(h.item) != CaptureIdForItem(x.item)
  }

  lemma OneRowBehind(hits: seq<Hit>)
    requires OneRowPerCapture(hits) && hits != []
    ensures OneRowPerCapture(hits[1..]) && Heads(hits[0], hits[1..])
  {
    var h, rest := hits[0], hits[1..];
    assert forall i :: 0 <= i < |rest| ==> rest[i] == hits[i + 1];
    assert forall i, j :: 0 <= i < j < |hits| ==> ByScore()(hits[i], hits[j]);
    forall x | x in rest ensures ByScore()(h, x) && CaptureIdForItem(h.item) != CaptureIdForItem(x.item) {
      var k :| 0 <= k < |rest| && rest[k] == x;
      assert ByScore()(hits[0], hits[k + 1]);
    }
  }

  lemma OneRowInFrontOf(h: Hit, rest: seq<Hit>)
    requires OneRowPerCapture(rest) && Heads(h, rest) && CaptureIdForItem(h.item).Some?
    ensures OneRowPerCapture([h] + rest)
  {
    var hits := [h] + rest;
    assert forall i :: 0 < i < |hits| ==> hits[i] == rest[i - 1];
  }

  lemma {:induction false} FilteredOneRow(hits: seq<Hit>, ok: Hit -> bool)
    requires OneRowPerCapture(hits)
    ensures OneRowPerCapture(Filter(ok, hits))
  {
    if hits != [] {
      OneRowBehind(hits);
      FilteredOneRow(hits[1..], ok);
      if ok(hits[0]) {
        OneRowInFrontOf(hits[0], Filter(ok, hits[1..]));
      }
    }
  }

  /** What a semantic leg reads: a store's rows, the query's embedding, the filter. */
  datatype SemanticLeg = SemanticLeg(joined: seq<Joined>, query: seq<real>, allowed: Option<set<i64>>)

  /** Rows as enrichment leaves them: capture keys, at most one row per capture. */
  ghost predicate FilledByEnrichment(l: SemanticLeg) {
    && (forall j :: j in l.joined ==> CaptureIdForItem(j.item).Some?)
    && (forall i, j :: 0 <= i < j < |RowsOf(l.joined)| ==> RowsOf(l.joined)[i].capture != RowsOf(l.joined)[j].capture)
  }

  /** The candidates of the search that runs: filtered, ranked, cut to `pool` hits. */
  function Searched(l: SemanticLeg, sim: Similarity, pool: nat): seq<i64> {
    Candidates(Take(Filter(Permitted(l.allowed), FullRanking(l.joined, l.query, sim)), pool))
  }

  /** The full list: every candidate of the complete ranking that the filter admits. */
  function FullList(l: SemanticLeg, sim: Similarity): seq<i64> {
    var all := Candidates(FullRanking(l.joined, l.query, sim));
    if l.allowed.None? then all else Filter(Among(l.allowed.value), all)
  }

  /** The search delivers exactly the first `pool` entries of the full list. */
  lemma SearchedIsWindow(l: SemanticLeg, sim: Similarity, pool: nat)
    requires FilledByEnrichment(l)
    ensures Searched(l, sim, pool) == Take(FullList(l, sim), pool)
    ensures NoDuplicates(FullList(l, sim))
  {
    var hits := FullRanking(l.joined, l.query, sim);
    var ok := Permitted(l.allowed);
    SearchListsCapturesOnce(l.joined, l.query, sim);
    FilteredOneRow(hits, ok);
    WindowOfCandidates(Filter(ok, hits), pool);
    CandidatesAreDistinct(Filter(ok, hits));
    match l.allowed
    case None => FilterAll(ok, hits);
    case Some(allowed) => FilteredCandidates(hits, allowed);
  }

  // -------------------------------------------------------------------- fusion

  function Weight(rank: nat): real {
    1.0 / ((RRF_K + rank + 1) as real)
  }

  /** What one leg contributes to a capture. */
  function LegScore(ids: seq<i64>, id: i64): real {
    if ids == [] then 0.0
    else
      var n := |ids| - 1;
      LegScore(ids[..n], id) + if ids[n] == id then Weight(n) else 0.0
  }

  /** The sum over all legs. */
  function Fused(legs: seq<seq<i64>>, id: i64): real {
    if legs == [] then 0.0
    else Fused(legs[..|legs| - 1], id) + LegScore(legs[|legs| - 1], id)
  }

  ghost predicate Listed(legs: seq<seq<i64>>, id: i64) {
    exists i :: 0 <= i < |legs| && id in legs[i]
  }

  /** The fusion loop. */
  method ReciprocalRankFusion(legs: seq<seq<i64>>) returns (fused: map<i64, real>)
    ensures forall id :: id in fused <==> Listed(legs, id)
    ensures forall id :: id in fused ==> fused[id] == Fused(legs, id)
  {
    fused := map[];
    for i := 0 to |legs|
      invariant forall id :: id in fused <==> Listed(legs[..i], id)
      invariant forall id :: (if id in fused then fused[id] else 0.0) == Fused(legs[..i], id)
    {
      var ids := legs[i];
      for rank := 0 to |ids|
        invariant forall id :: id in fused <==> Listed(legs[..i], id) || id in ids[..rank]
        invariant forall id ::
          (if id in fused then fused[id] else 0.0) == Fused(legs[..i], id) + LegScore(ids[..rank], id)
      {
        var id := ids[rank];
        assert ids[..rank + 1][..rank] == ids[..rank];
        assert ids[..rank + 1] == ids[..rank] + [id];
        fused := fused[id := (if id in fused then fused[id] else 0.0) + Weight(rank)];
      }
      assert ids[..|ids|] == ids;
      assert legs[..i + 1][..i] == legs[..i];
      ListedAppend(legs[..i], ids);
      assert legs[..i + 1] == legs[..i] + [ids];
    }
    assert legs[..|legs|] == legs;
  }

  lemma ListedAppend(legs: seq<seq<i64>>, ids: seq<i64>)
    ensures forall id :: Listed(legs + [ids], id) <==> Listed(legs, id) || id in ids
  {
    forall id ensures Listed(legs + [ids], id) <==> Listed(legs, id) || id in ids {
      if Listed(legs, id) {
        var i :| 0 <= i < |legs| && id in legs[i];
        assert id in (legs + [ids])[i];
      }
      if id in ids {
        assert id in (legs + [ids])[|legs|];
      }
    }
  }

  lemma {:induction false} LegScoreAbsent(ids: seq<i64>, id: i64)
    ensures LegScore(ids, id) >= 0.0
    ensures id !in ids ==> LegScore(ids, id) == 0.0
  {
    if ids != [] {
      LegScoreAbsent(ids[..|ids| - 1], id);
    }
  }

  /** In a duplicate-free leg a capture counts once, by its rank. */
  lemma {:induction false} LegScoreAt(ids: seq<i64>, k: nat)
    requires NoDuplicates(ids) && k < |ids|
    ensures LegScore(ids, ids[k]) == Weight(k) == 1.0 / ((61 + k) as real)
  {
    var n := |ids| - 1;
    if k == n {
      LegScoreAbsent(ids[..n], ids[n]);
    } else {
      LegScoreAt(ids[..n], k);
    }
  }

  lemma WeightDecreases(i: nat, j: nat)
    requires i <= j
    ensures 0.0 < Weight(j) <= Weight(i) && (i < j ==> Weight(j) < Weight(i))
  {
    var x, y := (RRF_K + i + 1) as real, (RRF_K + j + 1) as real;
    assert Weight(i) * x == 1.0 && Weight(j) * y == 1.0;
    if i < j {
      assert Weight(i) - Weight(j) == (y - x) / (x * y);
    }
  }

  // --------------------------------------------------------- order of the legs

  lemma {:induction false} FusedRemove(legs: seq<seq<i64>>, i: nat, id: i64)
    requires i < |legs|
    ensures Fused(legs, id) == Fused(legs[..i] + legs[i + 1..], id) + LegScore(legs[i], id)
    decreases |legs|
  {
    var n := |legs| - 1;
    var rest := legs[..i] + legs[i + 1..];
    if i == n {
      assert rest == legs[..n];
    } else {
      FusedRemove(legs[..n], i, id);
      assert rest[..n - 1] == legs[..n][..i] + legs[..n][i + 1..];
      assert rest[n - 1] == legs[n];
    }
  }

  /** The order in which the legs ran does not matter. */
  lemma {:induction false} FusionIgnoresLegOrder(a: seq<seq<i64>>, b: seq<seq<i64>>, id: i64)
    requires multiset(a) == multiset(b)
    ensures Fused(a, id) == Fused(b, id)
    decreases |a|
  {
    SameElements(a, b);
    if a != [] {
      var n := |a| - 1;
      var leg := a[n];
      assert leg in b;
      var i :| 0 <= i < |b| && b[i] == leg;
      assert a == a[..n] + [leg];
      assert b == b[..i] + [leg] + b[i + 1..];
      assert multiset(a[..n]) == multiset(a) - multiset{leg};
      assert multiset(b[..i] + b[i + 1..]) == multiset(b) - multiset{leg};
      FusionIgnoresLegOrder(a[..n], b[..i] + b[i + 1..], id);
      FusedRemove(b, i, id);
    }
  }

  // ----------------------------------------------------------------- dominance

  ghost predicate Above(ids: seq<i64>, a: i64, b: i64) {
    exists i, j :: 0 <= i < j < |ids| && ids[i] == a && ids[j] == b
  }

  /** `a` is above `b` in every leg that lists `b`. */
  ghost predicate Dominates(legs: seq<seq<i64>>, a: i64, b: i64) {
    forall i :: 0 <= i < |legs| && b in legs[i] ==> Above(legs[i], a, b)
  }

  ghost predicate LegsDistinct(legs: seq<seq<i64>>) {
    forall i :: 0 <= i < |legs| ==> NoDuplicates(legs[i])
  }

  lemma LegDominance(ids: seq<i64>, a: i64, b: i64)
    requires NoDuplicates(ids) && (b in ids ==> Above(ids, a, b))
    ensures LegScore(ids, a) >= LegScore(ids, b) && (b in ids ==> LegScore(ids, a) > LegScore(ids, b))
  {
    LegScoreAbsent(ids, a);
    LegScoreAbsent(ids, b);
    if b in ids {
      var i, j :| 0 <= i < j < |ids| && ids[i] == a && ids[j] == b;
      LegScoreAt(ids, i);
      LegScoreAt(ids, j);
      WeightDecreases(i, j);
    }
  }

  lemma {:induction false} FusionDominance(legs: seq<seq<i64>>, a: i64, b: i64)
    requires LegsDistinct(legs) && Dominates(legs, a, b)
    ensures Fused(legs, a) >= Fused(legs, b) && (Listed(legs, b) ==> Fused(legs, a) > Fused(legs, b))
    decreases |legs|
  {
    if legs != [] {
      var n := |legs| - 1;
      FusionDominance(legs[..n], a, b);
      LegDominance(legs[n], a, b);
      if Listed(legs, b) && b !in legs[n] {
        var i :| 0 <= i < |legs| && b in legs[i];
        assert b in legs[..n][i];
      }
    }
  }

  // -------------------------------------------------------------- final ordering

  datatype SearchHit = SearchHit(id: i64, timestamp: i64, score: real)

  /** Score first, then lexical hits, then recency. */
  function ByRelevance(fts: set<i64>): (SearchHit, SearchHit) -> bool {
    (a: SearchHit, b: SearchHit) =>
      || a.score > b.score
      || (a.score == b.score && a.id in fts && b.id !in fts)
      || (a.score == b.score && (a.id in fts <==> b.id in fts) && a.timestamp >= b.timestamp)
  }

  /** The page is the best of the hits that some leg ranked, in order. */
  ghost predicate BestPage(
    page: seq<SearchHit>, hits: map<i64, SearchHit>, legs: seq<seq<i64>>, fts: set<i64>, limit: nat)
  {
    && Sorted(ByRelevance(fts), page)
    && (forall i, j :: 0 <= i < j < |page| ==> page[i].id != page[j].id)
    && (forall h :: h in page ==>
          h.id in hits && Listed(legs, h.id) && h == hits[h.id].(id := h.id, score := Fused(legs, h.id)))
    && |page| <= limit
    && (forall id :: id in hits && Listed(legs, id) && (forall h :: h in page ==> h.id != id) ==>
          |page| == limit
          && forall h :: h in page ==> ByRelevance(fts)(h, hits[id].(id := id, score := Fused(legs, id))))
  }

  /** Assign fused scores, drop what no leg ranked, sort, and cut. The hits come
      out of their hash map in whatever order it keeps. */
  method FinalOrder(hits: map<i64, SearchHit>, legs: seq<seq<i64>>, fts: set<i64>, limit: nat)
    returns (page: seq<SearchHit>)
    ensures BestPage(page, hits, legs, fts, limit)
    ensures forall i, j :: 0 <= i < j < |page| ==> Precedes(page[i], page[j], fts)
    ensures forall id :: id in hits && Listed(legs, id) && (forall h :: h in page ==> h.id != id) ==>
      |page| == limit && forall h :: h in page ==> Precedes(h, hits[id].(id := id, score := Fused(legs, id)), fts)
  {
    var fused := ReciprocalRankFusion(legs);
    var results: seq<SearchHit> := [];
    var rest := hits.Keys;
    while rest != {}
      invariant rest <= hits.Keys
      invariant Collected(results, hits, legs, rest)
      decreases rest
    {
      var id :| id in rest;
      if id in fused {
        results := results + [hits[id].(id := id, score := fused[id])];
      }
      rest := rest - {id};
    }
    var le := ByRelevance(fts);
    RelevanceOrders(fts);
    SortSorted(le, results);
    var all := Sort(le, results);
    page := Take(all, limit);
    CutIsBest(results, all, page, hits, legs, fts, limit);
    PageInOrder(page, hits, legs, fts, limit);
  }

  /** The order of the results, told by comparisons: no higher score behind a lower
      one; at equal scores no lexical hit behind another kind; and at equal scores
      and kinds nothing newer behind something older. */
  ghost predicate Precedes(a: SearchHit, b: SearchHit, fts: set<i64>) {
    && a.score >= b.score
    && (a.score == b.score && b.id in fts ==> a.id in fts)
    && (a.score == b.score && (a.id in fts <==> b.id in fts) ==> a.timestamp >= b.timestamp)
  }

  /** The page is in that order, and so is everything on it before everything that
      was left out for want of room. */
  lemma PageInOrder(
    page: seq<SearchHit>, hits: map<i64, SearchHit>, legs: seq<seq<i64>>, fts: set<i64>, limit: nat)
    requires BestPage(page, hits, legs, fts, limit)
    ensures forall i, j :: 0 <= i < j < |page| ==> Precedes(page[i], page[j], fts)
    ensures forall id :: id in hits && Listed(legs, id) && (forall h :: h in page ==> h.id != id) ==>
      |page| == limit && forall h :: h in page ==> Precedes(h, hits[id].(id := id, score := Fused(legs, id)), fts)
  {
    forall i, j | 0 <= i < j < |page| ensures Precedes(page[i], page[j], fts) {
      assert ByRelevance(fts)(page[i], page[j]);
    }
  }

  /** The hits taken out of the map so far. */
  ghost predicate Collected(results: seq<SearchHit>, hits: map<i64, SearchHit>, legs: seq<seq<i64>>, rest: set<i64>) {
    && (forall h :: h in results ==>
          && h.id in hits && h.id !in rest && Listed(legs, h.id)
          && h == hits[h.id].(id := h.id, score := Fused(legs, h.id)))
    && (forall id :: id in hits && id !in rest && Listed(legs, id) ==>
          hits[id].(id := id, score := Fused(legs, id)) in results)
    && (forall i, j :: 0 <= i < j < |results| ==> results[i].id != results[j].id)
  }

  lemma RelevanceOrders(fts: set<i64>)
    ensures TotalPreorder(ByRelevance(fts))
  {
  }

  lemma CutIsBest(
    results: seq<SearchHit>, all: seq<SearchHit>, page: seq<SearchHit>,
    hits: map<i64, SearchHit>, legs: seq<seq<i64>>, fts: set<i64>, limit: nat)
    requires Collected(results, hits, legs, {})
    requires multiset(all) == multiset(results) && Sorted(ByRelevance(fts), all) && page == Take(all, limit)
    ensures BestPage(page, hits, legs, fts, limit)
  {
    SameElements(all, results);
    var id := (h: SearchHit) => h.id;
    assert DistinctBy(id, results);
    DistinctRearranged(id, results, all);
    assert forall i, j :: 0 <= i < j < |all| ==> id(all[i]) != id(all[j]);
    forall h | h in page ensures h in results {
      assert h in all;
    }
    forall id | id in hits && Listed(legs, id) && (forall h :: h in page ==> h.id != id)
      ensures |page| == limit
      ensures forall h :: h in page ==> ByRelevance(fts)(h, hits[id].(id := id, score := Fused(legs, id)))
    {
      var x := hits[id].(id := id, score := Fused(legs, id));
      assert x in all;
      var k :| 0 <= k < |all| && all[k] == x;
      assert forall i :: 0 <= i < |page| ==> page[i] == all[i];
      assert k >= |page|;
      forall h | h in page ensures ByRelevance(fts)(h, x) {
        var i :| 0 <= i < |page| && page[i] == h;
        assert ByRelevance(fts)(all[i], all[k]);
      }
    }
  }

  /** A capture above another in every leg that lists the other comes before it in
      the results; if the other made the page, so did it. */
  lemma DominanceInResults(
    page: seq<SearchHit>, hits: map<i64, SearchHit>, legs: seq<seq<i64>>, fts: set<i64>, limit: nat,
    a: i64, b: i64, j: nat)
    requires BestPage(page, hits, legs, fts, limit) && LegsDistinct(legs)
    requires a in hits && Dominates(legs, a, b) && j < |page| && page[j].id == b
    ensures exists i :: 0 <= i < j && page[i].id == a
  {
    var le := ByRelevance(fts);
    assert page[j] in page;
    assert Listed(legs, b);
    FusionDominance(legs, a, b);
    DominantIsListed(legs, a, b);
    var x := hits[a].(id := a, score := Fused(legs, a));
    assert x.score > page[j].score && !le(page[j], x);
    assert exists h :: h in page && h.id == a;
    var h :| h in page && h.id == a;
    var i :| 0 <= i < |page| && page[i] == h;
    assert page[i] == x;
    assert i != j && !(j < i);
  }

  lemma DominantIsListed(legs: seq<seq<i64>>, a: i64, b: i64)
    requires Dominates(legs, a, b) && Listed(legs, b)
    ensures Listed(legs, a)
  {
  }

  // ---------------------------------------------------------------- truncation

  function Windows(legs: seq<seq<i64>>, pool: nat): seq<seq<i64>> {
    if legs == [] then []
    else Windows(legs[..|legs| - 1], pool) + [Take(legs[|legs| - 1], pool)]
  }

  /** A leg cut to its window loses less than the weight of the first rank outside. */
  lemma LegTruncation(ids: seq<i64>, pool: nat, id: i64)
    requires NoDuplicates(ids)
    ensures 0.0 <= LegScore(ids, id) - LegScore(Take(ids, pool), id) <= Weight(pool)
  {
    var cut := Take(ids, pool);
    LegScoreAbsent(ids, id);
    LegScoreAbsent(cut, id);
    WeightDecreases(pool, pool);
    if id in ids {
      var k :| 0 <= k < |ids| && ids[k] == id;
      LegScoreAt(ids, k);
      if k < |cut| {
        assert cut[k] == id;
        LegScoreAt(cut, k);
      } else {
        assert id !in cut;
        WeightDecreases(pool, k);
      }
    }
  }

  function Times(n: nat, w: real): real {
    if n == 0 then 0.0 else Times(n - 1, w) + w
  }

  lemma {:induction false} TimesIsProduct(n: nat, w: real)
    ensures Times(n, w) == n as real * w
  {
    if n > 0 {
      TimesIsProduct(n - 1, w);
    }
  }

  lemma {:induction false} TruncationLoss(legs: seq<seq<i64>>, pool: nat, id: i64)
    requires LegsDistinct(legs)
    ensures 0.0 <= Fused(legs, id) - Fused(Windows(legs, pool), id) <= Times(|legs|, Weight(pool))
    ensures |Windows(legs, pool)| == |legs|
    decreases |legs|
  {
    if legs != [] {
      var n := |legs| - 1;
      var w := Windows(legs, pool);
      TruncationLoss(legs[..n], pool, id);
      LegTruncation(legs[n], pool, id);
      assert w[..n] == Windows(legs[..n], pool) && w[n] == Take(legs[n], pool);
    }
  }

  /** Fusing windows instead of full lists raises no score, and lowers none by more
      than one out-of-window weight per leg. */
  lemma TruncationBound(legs: seq<seq<i64>>, pool: nat, id: i64)
    requires LegsDistinct(legs)
    ensures 0.0 <= Fused(legs, id) - Fused(Windows(legs, pool), id) <= |legs| as real / ((61 + pool) as real)
  {
    TruncationLoss(legs, pool, id);
    TimesIsProduct(|legs|, Weight(pool));
    Quotient(|legs| as real, (61 + pool) as real);
  }

  function SearchedLegs(legs: seq<SemanticLeg>, sim: Similarity, pool: nat): seq<seq<i64>> {
    if legs == [] then []
    else SearchedLegs(legs[..|legs| - 1], sim, pool) + [Searched(legs[|legs| - 1], sim, pool)]
  }

  function FullLists(legs: seq<SemanticLeg>, sim: Similarity): seq<seq<i64>> {
    if legs == [] then [] else FullLists(legs[..|legs| - 1], sim) + [FullList(legs[|legs| - 1], sim)]
  }

  lemma WindowsAppend(front: seq<seq<i64>>, leg: seq<i64>, pool: nat)
    ensures Windows(front + [leg], pool) == Windows(front, pool) + [Take(leg, pool)]
    ensures LegsDistinct(front) && NoDuplicates(leg) ==> LegsDistinct(front + [leg])
  {
    assert (front + [leg])[..|front|] == front;
  }

  lemma Reassociated<T>(a: seq<T>, b: seq<T>, c: seq<T>)
    ensures a + (b + c) == a + b + c && [] + a == a
  {
  }

  /** The lists that are fused are the windows of the full lists. */
  lemma {:induction false} LegsAreWindows(fts: seq<i64>, legs: seq<SemanticLeg>, sim: Similarity, pool: nat)
    requires NoDuplicates(fts)
    requires forall i :: 0 <= i < |legs| ==> FilledByEnrichment(legs[i])
    ensures [Take(fts, pool)] + SearchedLegs(legs, sim, pool) == Windows([fts] + FullLists(legs, sim), pool)
    ensures LegsDistinct([fts] + FullLists(legs, sim)) && |FullLists(legs, sim)| == |legs|
    decreases |legs|
  {
    if legs == [] {
      WindowsAppend([], fts, pool);
      Reassociated([fts], [], []);
      Reassociated([Take(fts, pool)], [], []);
    } else {
      var n := |legs| - 1;
      var last := FullList(legs[n], sim);
      LegsAreWindows(fts, legs[..n], sim, pool);
      SearchedIsWindow(legs[n], sim, pool);
      WindowsAppend([fts] + FullLists(legs[..n], sim), last, pool);
      Reassociated([fts], FullLists(legs[..n], sim), [last]);
      Reassociated([Take(fts, pool)], SearchedLegs(legs[..n], sim, pool), [Take(last, pool)]);
    }
  }

  /** The searches that run, each cut to its pool, lower no fused score by more than
      n / (61 + pool) against searches without a cut. */
  lemma SearchTruncationBound(fts: seq<i64>, legs: seq<SemanticLeg>, sim: Similarity, pool: nat, id: i64)
    requires NoDuplicates(fts)
    requires forall i :: 0 <= i < |legs| ==> FilledByEnrichment(legs[i])
    ensures var run := Fused([Take(fts, pool)] + SearchedLegs(legs, sim, pool), id);
      var full := Fused([fts] + FullLists(legs, sim), id);
      0.0 <= full - run <= (|legs| + 1) as real / ((61 + pool) as real)
  {
    LegsAreWindows(fts, legs, sim, pool);
    TruncationBound([fts] + FullLists(legs, sim), pool, id);
  }

  lemma Quotient(x: real, y: real)
    requires y > 0.0
    ensures x * (1.0 / y) == x / y
  {
  }

  /** For every accepted limit the window is at least the page and at most 500. */
  lemma PoolCoversPage(requested: Option<int>)
    ensures var limit := ClampLimit(requested);
      && 1 <= limit <= 200 && limit <= FusionPool(limit) <= 500
      && (requested == None ==> limit == 20)
      && (requested.Some? && 1 <= requested.value <= 200 ==> limit == requested.value)
      && (limit <= 125 ==> FusionPool(limit) == 4 * limit)
  {
  }
}
