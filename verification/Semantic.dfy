/** One vector store (`SemanticTextStore.db` or `SemanticImageStore.db`). */
module Semantic {
  import opened Prelude
  import opened LittleEndian
  import opened Sorting

  /** The label of a store that no embedding has filled yet. */
  const SPACE_UNKNOWN: string := "unknown"

  /** An embedding together with the embedding space it really came from. The
      database keeps only the coordinates; no operation below reads `space`. */
  datatype Vector = Vector(space: string, coords: seq<real>)

  datatype SemanticError = DimMismatch(expected: nat, got: nat) | BadItemId

  type ItemId = seq<byte>

  // ---------------------------------------------------------------- item keys

  const ZERO8: seq<byte> := [0, 0, 0, 0, 0, 0, 0, 0]

  function ItemIdForCapture(id: i64): ItemId {
    Widths();
    ZERO8 + PutSigned(id, 8)
  }

  function CaptureIdForItem(item: ItemId): Option<i64> {
    if |item| != 16 || item[..8] != ZERO8 then None
    else
      Widths();
      PutGetSigned(item[8..]);
      Some(GetSigned(item[8..]))
  }

  /** A key is eight zero bytes, then the id in two's complement, lowest byte first. */
  lemma KeyBytes(id: i64)
    ensures var k := ItemIdForCapture(id);
      && |k| == 16 && (forall i :: 0 <= i < 8 ==> k[i] == 0)
      && U32At(k, 8) + 0x1_0000_0000 * U32At(k, 12) == if id < 0 then id + 0x1_0000_0000_0000_0000 else id
  {
    Widths();
    var n: nat := if id < 0 then id + 0x1_0000_0000_0000_0000 else id;
    var s := PutSigned(id, 8);
    GetPut(n, 8);
    KnownBytes8(s);
    var k := ItemIdForCapture(id);
    assert k[8..] == s;
    assert U32At(k, 8) == U32At(s, 0) && U32At(k, 12) == U32At(s, 4);
  }

  /** The 16-byte keys that decode are in bijection with the capture ids. */
  lemma ItemKeyBijection(id: i64, item: ItemId)
    ensures |ItemIdForCapture(id)| == 16
    ensures CaptureIdForItem(item) == Some(id) <==> item == ItemIdForCapture(id)
  {
    Widths();
    GetPutSigned(id, 8);
    var key := ItemIdForCapture(id);
    assert key[..8] == ZERO8 && key[8..] == PutSigned(id, 8);
    if CaptureIdForItem(item) == Some(id) {
      PutGetSigned(item[8..]);
      assert item == item[..8] + item[8..];
    }
  }

  // ------------------------------------------------------------------- tables

  datatype GraphRow = GraphRow(id: nat, vector: Vector)
  datatype MetaRow = MetaRow(embedding: nat, item: ItemId)
  datatype Joined = Joined(item: ItemId, vector: Vector)

  /** The metadata rows of one graph row, as the join delivers them. */
  function Matches(g: GraphRow, meta: seq<MetaRow>): seq<Joined> {
    if meta == [] then []
    else
      var m := meta[|meta| - 1];
      Matches(g, meta[..|meta| - 1]) + if m.embedding == g.id then [Joined(m.item, g.vector)] else []
  }

  /** `si_diskann_graph JOIN si_embedding_metadata`, in graph order. */
  function Join(graph: seq<GraphRow>, meta: seq<MetaRow>): seq<Joined> {
    if graph == [] then []
    else Join(graph[..|graph| - 1], meta) + Matches(graph[|graph| - 1], meta)
  }

  lemma {:induction false} MatchesNothing(g: GraphRow, meta: seq<MetaRow>)
    requires forall m :: m in meta ==> m.embedding != g.id
    ensures Matches(g, meta) == []
  {
    if meta != [] { MatchesNothing(g, meta[..|meta| - 1]); }
  }

  lemma {:induction false} JoinUnrelated(graph: seq<GraphRow>, meta: seq<MetaRow>, m: MetaRow)
    requires forall g :: g in graph ==> g.id != m.embedding
    ensures Join(graph, meta + [m]) == Join(graph, meta)
  {
    if graph != [] {
      JoinUnrelated(graph[..|graph| - 1], meta, m);
      assert (meta + [m])[..|meta|] == meta;
    }
  }

  /** A committed insert adds exactly one searchable row, at the end. */
  lemma JoinInsert(graph: seq<GraphRow>, meta: seq<MetaRow>, g: GraphRow, item: ItemId)
    requires forall x :: x in graph ==> x.id != g.id
    requires forall x :: x in meta ==> x.embedding != g.id
    ensures Join(graph + [g], meta + [MetaRow(g.id, item)]) == Join(graph, meta) + [Joined(item, g.vector)]
  {
    var m := MetaRow(g.id, item);
    assert (graph + [g])[..|graph|] == graph && (meta + [m])[..|meta|] == meta;
    JoinUnrelated(graph, meta, m);
    MatchesNothing(g, meta);
  }

  // ---------------------------------------------------------- the store's view

  /** A searchable row whose key names a capture. */
  datatype Row = Row(capture: i64, vector: Vector)

  /** What the rest of the system can see of a store: its label and its rows. */
  datatype Store = Store(spaceId: Option<string>, rows: seq<Row>)

  function RowsOf(joined: seq<Joined>): seq<Row> {
    if joined == [] then []
    else
      var j := joined[|joined| - 1];
      RowsOf(joined[..|joined| - 1]) +
      match CaptureIdForItem(j.item)
      case Some(id) => [Row(id, j.vector)]
      case None => []
  }

  predicate Has(s: Store, id: i64) {
    exists i :: 0 <= i < |s.rows| && s.rows[i].capture == id
  }

  function Insert(s: Store, id: i64, v: Vector): Store {
    s.(rows := s.rows + [Row(id, v)])
  }

  lemma HasInsert(s: Store, id: i64, v: Vector)
    ensures forall x :: Has(Insert(s, id, v), x) <==> Has(s, x) || x == id
  {
    var t := Insert(s, id, v);
    forall x ensures Has(t, x) <==> Has(s, x) || x == id {
      if Has(s, x) {
        var i :| 0 <= i < |s.rows| && s.rows[i].capture == x;
        assert t.rows[i].capture == x;
      }
      if x == id {
        assert t.rows[|s.rows|].capture == x;
      }
    }
  }

  lemma RowsOfMore(joined: seq<Joined>, j: Joined)
    ensures RowsOf(joined + [j]) == RowsOf(joined) +
      match CaptureIdForItem(j.item)
      case Some(id) => [Row(id, j.vector)]
      case None => []
  {
    assert (joined + [j])[..|joined|] == joined;
  }

  /** A capture has a row exactly when its key occurs in the join. */
  lemma {:induction false} RowsOfHas(spaceId: Option<string>, joined: seq<Joined>, id: i64)
    ensures Has(Store(spaceId, RowsOf(joined)), id)
       <==> exists j :: j in joined && j.item == ItemIdForCapture(id)
  {
    if joined != [] {
      var n := |joined| - 1;
      var last := joined[n];
      RowsOfHas(spaceId, joined[..n], id);
      ItemKeyBijection(id, last.item);
      assert joined == joined[..n] + [last];
      match CaptureIdForItem(last.item)
      case Some(c) =>
        HasInsert(Store(spaceId, RowsOf(joined[..n])), c, last.vector);
      case None =>
        assert RowsOf(joined) == RowsOf(joined[..n]);
    }
  }

  /** The three tables after the first `n` deletions of a clear, each of which
      commits on its own. */
  function Deleted(n: nat, items: set<ItemId>, graph: seq<GraphRow>, meta: seq<MetaRow>)
    : (set<ItemId>, seq<GraphRow>, seq<MetaRow>)
  {
    (if n >= 3 then {} else items, if n >= 2 then [] else graph, if n >= 1 then [] else meta)
  }

  lemma {:induction false} JoinWithoutMeta(graph: seq<GraphRow>)
    ensures Join(graph, []) == []
  {
    if graph != [] {
      JoinWithoutMeta(graph[..|graph| - 1]);
    }
  }

  /** A clear stopped between its deletions has the rows of one not begun or of one
      completed, and no metadata row is ever left without its item row. */
  lemma {:induction false} ClearNeverTears(n: nat, items: set<ItemId>, graph: seq<GraphRow>, meta: seq<MetaRow>)
    requires forall m :: m in meta ==> m.item in items
    ensures var (i, g, m) := Deleted(n, items, graph, meta);
      && Join(g, m) == (if n == 0 then Join(graph, meta) else [])
      && (forall x :: x in m ==> x.item in i)
  {
    JoinWithoutMeta(graph);
  }

  // -------------------------------------------------------------------- search

  datatype Hit = Hit(item: ItemId, score: real)

  type Similarity = (seq<real>, seq<real>) -> real

  /** Every row of the query's width, scored, in scan order. */
  function Scored(joined: seq<Joined>, query: seq<real>, sim: Similarity): (hits: seq<Hit>) {
    if joined == [] then []
    else
      var j := joined[|joined| - 1];
      Scored(joined[..|joined| - 1], query, sim) +
      if |j.vector.coords| == |query| then [Hit(j.item, sim(query, j.vector.coords))] else []
  }

  function ByScore(): (Hit, Hit) -> bool { (a: Hit, b: Hit) => a.score >= b.score }

  /** The complete stable ranking: what an unfiltered, unlimited search returns. */
  function FullRanking(joined: seq<Joined>, query: seq<real>, sim: Similarity): seq<Hit> {
    Sort(ByScore(), Scored(joined, query, sim))
  }

  predicate Permits(allowed: Option<set<i64>>, item: ItemId) {
    allowed.None? || (CaptureIdForItem(item).Some? && CaptureIdForItem(item).value in allowed.value)
  }

  function Permitted(allowed: Option<set<i64>>): Hit -> bool { (h: Hit) => Permits(allowed, h.item) }

  ghost predicate Found(hits: seq<Hit>, id: i64) {
    exists i :: 0 <= i < |hits| && CaptureIdForItem(hits[i].item) == Some(id)
  }

  /** With rows of one width, a capture is found by the unlimited search for any
      query of that width exactly when the store has a row for it. */
  lemma {:induction false} FoundIffHas(
    spaceId: Option<string>, joined: seq<Joined>, query: seq<real>, sim: Similarity, id: i64)
    requires forall j :: j in joined ==> |j.vector.coords| == |query|
    ensures Has(Store(spaceId, RowsOf(joined)), id) <==> Found(FullRanking(joined, query, sim), id)
  {
    RowsOfHas(spaceId, joined, id);
    if exists j :: j in joined && j.item == ItemIdForCapture(id) {
      var j :| j in joined && j.item == ItemIdForCapture(id);
      JoinedIsFound(joined, query, sim, id, j);
    }
    if Found(FullRanking(joined, query, sim), id) {
      FoundIsJoined(joined, query, sim, id);
    }
  }

  lemma {:induction false} JoinedIsFound(joined: seq<Joined>, query: seq<real>, sim: Similarity, id: i64, j: Joined)
    requires j in joined && j.item == ItemIdForCapture(id) && |j.vector.coords| == |query|
    ensures Found(FullRanking(joined, query, sim), id)
  {
    ItemKeyBijection(id, j.item);
    SameElements(FullRanking(joined, query, sim), Scored(joined, query, sim));
    ScoredItems(joined, query, sim);
    var h := Hit(j.item, sim(query, j.vector.coords));
    var i :| 0 <= i < |FullRanking(joined, query, sim)| && FullRanking(joined, query, sim)[i] == h;
  }

  lemma {:induction false} FoundIsJoined(joined: seq<Joined>, query: seq<real>, sim: Similarity, id: i64)
    requires Found(FullRanking(joined, query, sim), id)
    ensures exists j :: j in joined && j.item == ItemIdForCapture(id)
  {
    var hits := FullRanking(joined, query, sim);
    var i :| 0 <= i < |hits| && CaptureIdForItem(hits[i].item) == Some(id);
    ItemKeyBijection(id, hits[i].item);
    SameElements(hits, Scored(joined, query, sim));
    ScoredItems(joined, query, sim);
    assert hits[i] in Scored(joined, query, sim);
  }

  lemma {:induction false} ScoredItems(joined: seq<Joined>, query: seq<real>, sim: Similarity)
    ensures forall j :: j in joined && |j.vector.coords| == |query|
              ==> Hit(j.item, sim(query, j.vector.coords)) in Scored(joined, query, sim)
    ensures forall h :: h in Scored(joined, query, sim)
              ==> exists j :: j in joined && j.item == h.item
  {
    if joined != [] {
      var n := |joined| - 1;
      ScoredItems(joined[..n], query, sim);
      assert joined == joined[..n] + [joined[n]];
      forall h | h in Scored(joined, query, sim) ensures exists j :: j in joined && j.item == h.item {
        if h in Scored(joined[..n], query, sim) {
          var j :| j in joined[..n] && j.item == h.item;
          assert j in joined;
        } else {
          assert joined[n] in joined && joined[n].item == h.item;
        }
      }
    }
  }

  /** The hit is this row, of the query's width, with their similarity. */
  predicate HitOf(h: Hit, j: Joined, query: seq<real>, sim: Similarity) {
    j.item == h.item && |j.vector.coords| == |query| && h.score == sim(query, j.vector.coords)
  }

  lemma {:induction false} ScoredTruly(joined: seq<Joined>, query: seq<real>, sim: Similarity)
    ensures forall h :: h in Scored(joined, query, sim) ==> exists j :: j in joined && HitOf(h, j, query, sim)
  {
    if joined != [] {
      var n := |joined| - 1;
      ScoredTruly(joined[..n], query, sim);
      forall h | h in Scored(joined, query, sim) ensures exists j :: j in joined && HitOf(h, j, query, sim) {
        if h in Scored(joined[..n], query, sim) {
          var j :| j in joined[..n] && HitOf(h, j, query, sim);
          assert j in joined;
        } else {
          assert joined[n] in joined && HitOf(h, joined[n], query, sim);
        }
      }
    }
  }

  /** May the row be returned under the allow-list? */
  predicate Allowed(allowed: Option<set<i64>>, item: ItemId) {
    allowed == None || exists id :: id in allowed.value && CaptureIdForItem(item) == Some(id)
  }

  lemma {:induction false} FilterSorted(ok: Hit -> bool, s: seq<Hit>)
    requires Sorted(ByScore(), s)
    ensures Sorted(ByScore(), Filter(ok, s))
  {
    if s != [] {
      assert forall i, j :: 0 <= i < j < |s| ==> ByScore()(s[i], s[j]);
      forall i, j | 0 <= i < j < |s[1..]| ensures ByScore()(s[1..][i], s[1..][j]) {
        assert s[1..][i] == s[i + 1] && s[1..][j] == s[j + 1];
      }
      FilterSorted(ok, s[1..]);
      forall x | x in Filter(ok, s[1..]) ensures ByScore()(s[0], x) {
        var k :| 0 <= k < |s[1..]| && s[1..][k] == x;
        assert ByScore()(s[0], s[k + 1]);
      }
    }
  }

  /** A search returns the k best: hits of allowed rows with their own similarity,
      scores never rising, and a row left out only behind k that are as good. */
  lemma SearchIsTopK(joined: seq<Joined>, query: seq<real>, k: nat, allowed: Option<set<i64>>, sim: Similarity)
    ensures var hits := Take(Filter(Permitted(allowed), FullRanking(joined, query, sim)), k);
      && |hits| <= k
      && (forall i, j :: 0 <= i < j < |hits| ==> hits[i].score >= hits[j].score)
      && (forall h :: h in hits ==> Allowed(allowed, h.item))
      && (forall h :: h in hits ==> exists j :: j in joined && HitOf(h, j, query, sim))
      && (forall j :: j in joined && |j.vector.coords| == |query| && Allowed(allowed, j.item) ==>
            || Hit(j.item, sim(query, j.vector.coords)) in hits
            || (|hits| == k && forall h :: h in hits ==> h.score >= sim(query, j.vector.coords)))
  {
    var ok := Permitted(allowed);
    var all := Filter(ok, FullRanking(joined, query, sim));
    SortSorted(ByScore(), Scored(joined, query, sim));
    FilterSorted(ok, FullRanking(joined, query, sim));
    SameElements(FullRanking(joined, query, sim), Scored(joined, query, sim));
    ScoredTruly(joined, query, sim);
    ScoredItems(joined, query, sim);
    TopOfSorted(all, k);
    forall item ensures Allowed(allowed, item) <==> Permits(allowed, item) {
    }
  }

  lemma TopOfSorted(all: seq<Hit>, k: nat)
    requires Sorted(ByScore(), all)
    ensures var hits := Take(all, k);
      && (forall i, j :: 0 <= i < j < |hits| ==> hits[i].score >= hits[j].score)
      && (forall h :: h in hits ==> h in all)
      && (forall x :: x in all && x !in hits ==> |hits| == k && forall h :: h in hits ==> h.score >= x.score)
  {
    var hits := Take(all, k);
    assert forall i, j :: 0 <= i < j < |all| ==> ByScore()(all[i], all[j]);
    forall x | x in all && x !in hits ensures |hits| == k && forall h :: h in hits ==> h.score >= x.score {
      var n :| 0 <= n < |all| && all[n] == x;
      assert forall i :: 0 <= i < |hits| ==> hits[i] == all[i];
      assert n >= |hits|;
      forall h | h in hits ensures h.score >= x.score {
        var i :| 0 <= i < |hits| && hits[i] == h;
        assert ByScore()(all[i], all[n]);
      }
    }
  }

  // --------------------------------------------------------------- the database

  class SemanticIndex {
    const dim: nat
    var items: set<ItemId>
    var graph: seq<GraphRow>
    var meta: seq<MetaRow>
    var nextId: nat
    var spaceId: Option<string>

    /** Every metadata row has its item row, and graph ids are never reused. */
    ghost predicate Valid()
      reads this
    {
      && (forall m :: m in meta ==> m.item in items && m.embedding < nextId)
      && (forall g :: g in graph ==> g.id < nextId)
    }

    function Rows(): seq<Joined>
      reads this
    {
      Join(graph, meta)
    }

    ghost function View(): Store
      reads this
    {
      Store(spaceId, RowsOf(Rows()))
    }

    /** Creates the store, stamped with `space`. */
    constructor Open(dim: nat, space: string)
      ensures Valid() && this.dim == dim
      ensures View() == Store(Some(space), [])
    {
      this.dim := dim;
      items, graph, meta, nextId := {}, [], [], 0;
      spaceId := Some(space);
    }

    method SetSpaceId(space: string)
      requires Valid()
      modifies this
      ensures Valid()
      ensures View() == old(View()).(spaceId := Some(space)) && Rows() == old(Rows())
    {
      spaceId := Some(space);
    }

    method Clear()
      requires Valid()
      modifies this
      ensures Valid()
      ensures View() == Store(old(View()).spaceId, []) && Rows() == []
    {
      meta := [];
      graph := [];
      items := {};
    }

    /** One transaction over the three tables: all rows or none. */
    method InsertEmbedding(item: ItemId, embedding: Vector) returns (r: Result<nat, SemanticError>)
      requires Valid()
      modifies this
      ensures Valid()
      ensures |embedding.coords| != dim ==> r == Err(DimMismatch(dim, |embedding.coords|))
      ensures |embedding.coords| == dim && |item| != 16 ==> r == Err(BadItemId)
      ensures |embedding.coords| == dim && |item| == 16 ==>
        && r.Ok?
        && Rows() == old(Rows()) + [Joined(item, embedding)]
        && View() == match CaptureIdForItem(item)
                     case Some(id) => Insert(old(View()), id, embedding)
                     case None => old(View())
      ensures r.Err? ==> View() == old(View()) && Rows() == old(Rows())
    {
      if |embedding.coords| != dim {
        return Err(DimMismatch(dim, |embedding.coords|));
      }
      if |item| != 16 {
        return Err(BadItemId);
      }
      RowsOfMore(Rows(), Joined(item, embedding));
      var id := Commit(item, embedding);
      r := Ok(id);
    }

    /** The transaction: an item row unless it exists, a graph row, a metadata row. */
    method Commit(item: ItemId, embedding: Vector) returns (id: nat)
      requires Valid()
      modifies this
      ensures Valid() && spaceId == old(spaceId)
      ensures Rows() == old(Rows()) + [Joined(item, embedding)]
    {
      JoinInsert(graph, meta, GraphRow(nextId, embedding), item);
      items := items + {item};
      graph := graph + [GraphRow(nextId, embedding)];
      meta := meta + [MetaRow(nextId, item)];
      id := nextId;
      nextId := nextId + 1;
    }

    /** Is the item backed by a row that a search can return? */
    method HasItem(item: ItemId) returns (r: Result<bool, SemanticError>)
      requires Valid()
      ensures |item| != 16 ==> r == Err(BadItemId)
      ensures |item| == 16 ==> r == Ok(exists j :: j in Rows() && j.item == item)
      ensures CaptureIdForItem(item).Some? ==> r == Ok(Has(View(), CaptureIdForItem(item).value))
    {
      if |item| != 16 {
        return Err(BadItemId);
      }
      var found := Filter((j: Joined) => j.item == item, Rows());
      r := Ok(item in items && found != []);
      if found != [] {
        assert found[0] in Rows() && found[0].item == item;
        JoinItems(graph, meta, found[0]);
      }
      if j :| j in Rows() && j.item == item {
        assert j in found;
        JoinItems(graph, meta, j);
      }
      if CaptureIdForItem(item).Some? {
        var id := CaptureIdForItem(item).value;
        ItemKeyBijection(id, item);
        RowsOfHas(spaceId, Rows(), id);
      }
    }

    /** `has_item(item_id_for_capture(id))`. */
    method HasCapture(id: i64) returns (b: bool)
      requires Valid()
      ensures b == Has(View(), id)
    {
      var item := ItemIdForCapture(id);
      ItemKeyBijection(id, item);
      var r := HasItem(item);
      b := r.value;
    }

    /** `insert(item_id_for_capture(id), ...)` of a vector of the right width. */
    method InsertForCapture(id: i64, embedding: Vector)
      requires Valid() && |embedding.coords| == dim
      modifies this
      ensures Valid() && View() == Insert(old(View()), id, embedding)
    {
      var item := ItemIdForCapture(id);
      ItemKeyBijection(id, item);
      var r := InsertEmbedding(item, embedding);
    }

    /** The k best rows: filtered while scanning, then sorted, then cut. */
    method Search(query: seq<real>, k: nat, allowed: Option<set<i64>>, sim: Similarity)
      returns (r: Result<seq<Hit>, SemanticError>)
      ensures |query| != dim ==> r == Err(DimMismatch(dim, |query|))
      ensures |query| == dim ==> r == Ok(Take(Filter(Permitted(allowed), FullRanking(Rows(), query, sim)), k))
    {
      if |query| != dim {
        return Err(DimMismatch(dim, |query|));
      }
      var rows := Rows();
      var ok := Permitted(allowed);
      SortFilter(ByScore(), ok, Scored(rows, query, sim));
      if allowed == Some({}) {
        FilterNone(ok, FullRanking(rows, query, sim));
        return Ok([]);
      }
      var hits: seq<Hit> := [];
      for i := 0 to |rows|
        invariant hits == Filter(ok, Scored(rows[..i], query, sim))
      {
        var row := rows[i];
        ScanStep(rows, i, query, sim, ok);
        if !Permits(allowed, row.item) {
          continue;
        }
        if |row.vector.coords| != dim {
          continue;
        }
        hits := hits + [Hit(row.item, sim(query, row.vector.coords))];
      }
      assert rows[..|rows|] == rows;
      r := Ok(Take(Sort(ByScore(), hits), k));
    }
  }

  lemma {:induction false} ScoredNext(rows: seq<Joined>, i: nat, query: seq<real>, sim: Similarity)
    requires i < |rows|
    ensures var j := rows[i];
      Scored(rows[..i + 1], query, sim)
      == Scored(rows[..i], query, sim)
       + if |j.vector.coords| == |query| then [Hit(j.item, sim(query, j.vector.coords))] else []
  {
    assert rows[..i + 1][..i] == rows[..i];
  }

  lemma {:induction false} ScanStep(rows: seq<Joined>, i: nat, query: seq<real>, sim: Similarity, ok: Hit -> bool)
    requires i < |rows|
    ensures var j := rows[i];
      var hit := Hit(j.item, sim(query, j.vector.coords));
      Filter(ok, Scored(rows[..i + 1], query, sim))
      == Filter(ok, Scored(rows[..i], query, sim)) + if |j.vector.coords| == |query| && ok(hit) then [hit] else []
  {
    var j := rows[i];
    ScoredNext(rows, i, query, sim);
    var hit := Hit(j.item, sim(query, j.vector.coords));
    if |j.vector.coords| == |query| {
      FilterAppend(ok, Scored(rows[..i], query, sim), [hit]);
      FilterOne(ok, hit);
    } else {
      assert Scored(rows[..i], query, sim) + [] == Scored(rows[..i], query, sim);
    }
  }

  lemma {:induction false} JoinItems(graph: seq<GraphRow>, meta: seq<MetaRow>, j: Joined)
    requires j in Join(graph, meta)
    ensures exists m :: m in meta && m.item == j.item
  {
    var n := |graph| - 1;
    if j in Join(graph[..n], meta) {
      JoinItems(graph[..n], meta, j);
    } else {
      MatchesItems(graph[n], meta, j);
    }
  }

  lemma {:induction false} MatchesItems(g: GraphRow, meta: seq<MetaRow>, j: Joined)
    requires j in Matches(g, meta)
    ensures exists m :: m in meta && m.item == j.item
  {
    var n := |meta| - 1;
    if j in Matches(g, meta[..n]) {
      MatchesItems(g, meta[..n], j);
    } else {
      assert meta[n] in meta;
    }
  }
}
