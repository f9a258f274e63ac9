/** The tables of `ukg.db` that enrichment reads and writes. */
module UkgDb {
  import opened Prelude

  datatype ImageState = Pending | Done | Skipped

  /** A `PrecallImageEmbedding` row. */
  datatype ImageRow = ImageRow(state: ImageState, attempts: int)

  /** A `WindowCapture` row with the OCR texts of its regions. */
  datatype Capture = Capture(
    timestamp: Option<i64>, token: Option<string>, regions: seq<Option<string>>, processed: bool)

  datatype Tables = Tables(
    captures: map<i64, Capture>,
    images: map<i64, ImageRow>,
    attempts: map<i64, int>,
    config: map<string, string>)

  // ------------------------------------------------------------------- updates

  function TouchAttempt(u: Tables, id: i64, now: int): Tables {
    u.(attempts := u.attempts[id := now])
  }

  function SetImage(u: Tables, id: i64, state: ImageState, attempts: int): Tables {
    u.(images := u.images[id := ImageRow(state, attempts)])
  }

  function ResetImages(u: Tables): Tables {
    u.(images := map[])
  }

  function Process(u: Tables, id: i64): Tables {
    if id in u.captures then u.(captures := u.captures[id := u.captures[id].(processed := true)]) else u
  }

  function UnprocessAll(u: Tables): Tables {
    u.(captures := map id | id in u.captures :: u.captures[id].(processed := false))
  }

  function Configure(u: Tables, key: string, value: string): Tables {
    u.(config := u.config[key := value])
  }

  function AddCapture(u: Tables, id: i64, c: Capture): Tables {
    u.(captures := u.captures[id := c])
  }

  // ------------------------------------------------------------------- queries

  predicate Flag(u: Tables, key: string) {
    key in u.config && u.config[key] == "1"
  }

  predicate HasState(u: Tables, id: i64, state: ImageState) {
    id in u.images && u.images[id].state == state
  }

  predicate Processed(u: Tables, id: i64) {
    id in u.captures && u.captures[id].processed
  }

  function Token(u: Tables, id: i64): Option<string> {
    if id in u.captures then u.captures[id].token else None
  }

  function Timestamp(u: Tables, id: i64): Option<i64> {
    if id in u.captures then u.captures[id].timestamp else None
  }

  /** The OCR texts that are present, joined by single spaces. */
  function JoinTexts(regions: seq<Option<string>>): string {
    if regions == [] then ""
    else match regions[0]
      case None => JoinTexts(regions[1..])
      case Some(t) =>
        if exists i :: 1 <= i < |regions| && regions[i].Some?
        then t + " " + JoinTexts(regions[1..])
        else t
  }

  ghost predicate HasWords(r: Option<string>) {
    r.Some? && r.value != ""
  }

  /** There is text to embed exactly when some region has words, or two regions have
      any text at all (the space between them is text). */
  lemma {:induction false} TextNeededExactly(regions: seq<Option<string>>)
    ensures JoinTexts(regions) != "" <==>
      || (exists i :: 0 <= i < |regions| && HasWords(regions[i]))
      || (exists i, j :: 0 <= i < j < |regions| && regions[i].Some? && regions[j].Some?)
  {
    if regions != [] {
      var rest := regions[1..];
      TextNeededExactly(rest);
      assert forall i :: 0 <= i < |rest| ==> rest[i] == regions[i + 1];
      if i :| 0 <= i < |regions| && HasWords(regions[i]) {
        if i > 0 { assert HasWords(rest[i - 1]); }
      }
      if i, j :| 0 <= i < j < |regions| && regions[i].Some? && regions[j].Some? {
        if i > 0 { assert rest[i - 1].Some? && rest[j - 1].Some?; }
      }
      if i :| 0 <= i < |rest| && HasWords(rest[i]) { assert HasWords(regions[i + 1]); }
      if i, j :| 0 <= i < j < |rest| && rest[i].Some? && rest[j].Some? {
        assert regions[i + 1].Some? && regions[j + 1].Some?;
      }
      if regions[0].None? {
        assert JoinTexts(regions) == JoinTexts(rest);
      }
    }
  }

  function OcrText(u: Tables, id: i64): string {
    if id in u.captures then JoinTexts(u.captures[id].regions) else ""
  }

  // -------------------------------------------------------------------- queues

  /** The two enrichment queues. */
  datatype Queue = Backfill | Fresh

  predicate Member(u: Tables, q: Queue, id: i64) {
    match q
    case Backfill =>
      && Token(u, id).Some? && Processed(u, id)
      && (id !in u.images || u.images[id].state == Pending)
    case Fresh =>
      id in u.captures && !u.captures[id].processed
  }

  predicate Due(u: Tables, id: i64, cutoff: int) {
    id in u.attempts ==> u.attempts[id] <= cutoff
  }

  function DueSet(u: Tables, q: Queue, cutoff: int): set<i64> {
    set id | id in u.captures && Member(u, q, id) && Due(u, id, cutoff)
  }

  function LastAttempt(u: Tables, id: i64): int {
    if id in u.attempts then u.attempts[id] else 0
  }

  /** Least recently attempted first, then by id. */
  predicate Before(u: Tables, x: i64, y: i64) {
    LastAttempt(u, x) < LastAttempt(u, y) || (LastAttempt(u, x) == LastAttempt(u, y) && x < y)
  }

  predicate Least(u: Tables, s: set<i64>, m: i64) {
    m in s && forall x :: x in s && x != m ==> Before(u, m, x)
  }

  lemma {:induction false} LeastExists(u: Tables, s: set<i64>)
    requires s != {}
    ensures exists m :: Least(u, s, m)
  {
    var x :| x in s;
    if s == {x} {
      assert Least(u, s, x);
    } else {
      var rest := s - {x};
      assert rest != {};
      LeastExists(u, rest);
      var m :| Least(u, rest, m);
      if Before(u, x, m) {
        forall y | y in s && y != x ensures Before(u, x, y) {
          assert y in rest;
          assert y == m || Before(u, m, y);
        }
        assert Least(u, s, x);
      } else {
        assert Before(u, m, x);
        assert Least(u, s, m);
      }
    }
  }

  /** The set in queue order. */
  ghost function Ranked(u: Tables, s: set<i64>): (r: seq<i64>)
    ensures forall x :: x in r <==> x in s
    ensures |r| == |s|
  {
    if s == {} then []
    else
      LeastExists(u, s);
      var m :| Least(u, s, m);
      [m] + Ranked(u, s - {m})
  }

  lemma RankedHead(u: Tables, s: set<i64>, m: i64)
    requires Least(u, s, m)
    ensures Ranked(u, s) == [m] + Ranked(u, s - {m})
  {
  }

  ghost predicate InOrder(u: Tables, r: seq<i64>) {
    forall i, j :: 0 <= i < j < |r| ==> Before(u, r[i], r[j])
  }

  lemma InOrderCons(u: Tables, m: i64, rest: seq<i64>)
    requires InOrder(u, rest) && forall x :: x in rest ==> Before(u, m, x)
    ensures InOrder(u, [m] + rest)
  {
  }

  lemma {:induction false} RankedInOrder(u: Tables, s: set<i64>)
    ensures InOrder(u, Ranked(u, s))
  {
    if s != {} {
      LeastExists(u, s);
      var m :| Least(u, s, m);
      RankedInOrder(u, s - {m});
      InOrderCons(u, m, Ranked(u, s - {m}));
      RankedHead(u, s, m);
    }
  }

  /** The rows one queue query returns. */
  ghost function Batch(u: Tables, q: Queue, cutoff: int, limit: nat): seq<i64> {
    Take(Ranked(u, DueSet(u, q, cutoff)), limit)
  }

  /** The queues forget nobody: a capture is in queue 2 exactly while it is
      unprocessed, in queue 1 exactly while it is processed, has a token, and has
      neither a done nor a skipped image, and otherwise it is finished. */
  lemma QueuesExhaust(u: Tables, id: i64)
    requires id in u.captures
    ensures var c := u.captures[id];
      && (Member(u, Fresh, id) <==> !c.processed)
      && (Member(u, Backfill, id) <==>
            && c.processed && c.token.Some?
            && !(id in u.images && u.images[id].state == Done) && !(id in u.images && u.images[id].state == Skipped))
      && (!Member(u, Fresh, id) && !Member(u, Backfill, id) <==>
            c.processed && (c.token.None?
              || (id in u.images && (u.images[id].state == Done || u.images[id].state == Skipped))))
  {
  }

  /** What a batch of 64 leaves out, told on the tables: a capture that is due is in
      its batch, or 64 others are that were attempted before it, or never, and on a
      tie have the smaller id. */
  lemma BatchOnTables(u: Tables, q: Queue, cutoff: int, id: i64)
    requires Selectable(u, q, id, cutoff)
    ensures var b := Batch(u, q, cutoff, 64);
      id !in b ==>
        && |b| == 64 && NoDuplicates(b)
        && forall x :: x in b ==>
             var tx, t := if x in u.attempts then u.attempts[x] else 0, if id in u.attempts then u.attempts[id] else 0;
             tx < t || (tx == t && x < id)
  {
    BatchIsFair(u, q, cutoff, 64);
    assert id in DueSet(u, q, cutoff);
  }

  /** A batch holds due members only, in queue order, and leaves out a due member
      only when it is full of members that come before it. */
  lemma BatchIsFair(u: Tables, q: Queue, cutoff: int, limit: nat)
    ensures var b := Batch(u, q, cutoff, limit);
      && NoDuplicates(b) && |b| <= limit
      && (forall x :: x in b ==> x in DueSet(u, q, cutoff))
      && (forall c :: c in DueSet(u, q, cutoff) && c !in b ==>
            |b| == limit && forall x :: x in b ==> Before(u, x, c))
  {
    var due := DueSet(u, q, cutoff);
    var all := Ranked(u, due);
    var b := Batch(u, q, cutoff, limit);
    RankedInOrder(u, due);
    forall i, j | 0 <= i < j < |b| ensures b[i] != b[j] {
      assert Before(u, all[i], all[j]);
    }
    assert forall x :: x in b ==> x in all;
    forall c | c in due && c !in b ensures |b| == limit && forall x :: x in b ==> Before(u, x, c) {
      var j :| 0 <= j < |all| && all[j] == c;
      assert forall k :: 0 <= k < |b| ==> b[k] == all[k];
      assert j >= |b|;
      forall x | x in b ensures Before(u, x, c) {
        var i :| 0 <= i < |b| && b[i] == x;
        assert all[i] == x;
      }
    }
  }

  /** The row conditions of the two queries, on the columns. */
  ghost predicate Selectable(u: Tables, q: Queue, id: i64, cutoff: int) {
    && id in u.captures && (id in u.attempts ==> u.attempts[id] <= cutoff)
    && match q
       case Fresh => !u.captures[id].processed
       case Backfill =>
         u.captures[id].processed && u.captures[id].token.Some? && (id in u.images ==> u.images[id].state == Pending)
  }

  /** A batch holds rows that meet the conditions, each once, and all of them unless
      it is full. */
  lemma BatchSelects(u: Tables, q: Queue, cutoff: int, limit: nat)
    ensures var r := Batch(u, q, cutoff, limit);
      && NoDuplicates(r) && |r| <= limit && (forall id :: id in r ==> Selectable(u, q, id, cutoff))
      && (|r| < limit ==> forall id :: Selectable(u, q, id, cutoff) ==> id in r)
  {
    BatchIsFair(u, q, cutoff, limit);
    forall id ensures Selectable(u, q, id, cutoff) <==> id in DueSet(u, q, cutoff) {
    }
  }

  lemma Shifted(r: seq<i64>, m: i64, rest: seq<i64>)
    ensures r + ([m] + rest) == r + [m] + rest
  {
  }

  lemma Prefixed(r: seq<i64>, left: seq<i64>, limit: nat)
    requires |r| <= limit && (|r| == limit || left == [])
    ensures Take(r + left, limit) == r
  {
  }

  // --------------------------------------------------------------- the database

  class Ukg {
    var captures: map<i64, Capture>
    var images: map<i64, ImageRow>
    var attempts: map<i64, int>
    var config: map<string, string>

    function View(): Tables
      reads this
    {
      Tables(captures, images, attempts, config)
    }

    constructor Open()
      ensures View() == Tables(map[], map[], map[], map[])
    {
      captures, images, attempts, config := map[], map[], map[], map[];
    }

    method TouchEnrichAttempt(id: i64, now: int)
      modifies this
      ensures View() == TouchAttempt(old(View()), id, now)
    {
      attempts := attempts[id := now];
    }

    method SetImageEmbeddingState(id: i64, state: ImageState, tries: int)
      modifies this
      ensures View() == SetImage(old(View()), id, state, tries)
    {
      images := images[id := ImageRow(state, tries)];
    }

    method ResetImageEmbeddingStates()
      modifies this
      ensures View() == ResetImages(old(View()))
    {
      images := map[];
    }

    method MarkProcessed(id: i64)
      modifies this
      ensures View() == Process(old(View()), id)
    {
      if id in captures {
        captures := captures[id := captures[id].(processed := true)];
      }
    }

    method MarkAllUnprocessed()
      modifies this
      ensures View() == UnprocessAll(old(View()))
    {
      captures := map id | id in captures :: captures[id].(processed := false);
    }

    method SetConfig(key: string, value: string)
      modifies this
      ensures View() == Configure(old(View()), key, value)
    {
      config := config[key := value];
    }

    method PickLeast(rows: set<i64>) returns (m: i64)
      requires rows != {}
      ensures Least(View(), rows, m)
    {
      var u := View();
      LeastExists(u, rows);
      m :| Least(u, rows, m);
    }

    /** The `limit` least recently attempted of the given rows. */
    method LeastRecent(rows: set<i64>, limit: nat) returns (r: seq<i64>)
      ensures r == Take(Ranked(View(), rows), limit)
    {
      ghost var u := View();
      r := [];
      var rest := rows;
      ghost var left := Ranked(u, rows);
      while |r| < limit && rest != {}
        invariant |r| <= limit
        invariant left == Ranked(u, rest) && r + left == Ranked(u, rows)
        decreases limit - |r|
      {
        var m := PickLeast(rest);
        RankedHead(u, rest, m);
        Shifted(r, m, Ranked(u, rest - {m}));
        r := r + [m];
        rest := rest - {m};
        left := Ranked(u, rest);
      }
      Prefixed(r, left, limit);
    }

    method CapturesNeedingImageEmbedding(limit: nat, now: int, backoff: int) returns (r: seq<i64>)
      ensures r == Batch(View(), Backfill, now - backoff, limit)
    {
      var rows := ImagesDue(now - backoff);
      r := LeastRecent(rows, limit);
    }

    /** The rows that meet the query's conditions. */
    method ImagesDue(cutoff: int) returns (rows: set<i64>)
      ensures rows == DueSet(View(), Backfill, cutoff)
      ensures forall id :: id in rows <==> Selectable(View(), Backfill, id, cutoff)
    {
      rows := (set id | id in captures
                        && captures[id].token.Some? && captures[id].processed
                        && (id !in images || images[id].state == Pending)
                        && (id !in attempts || attempts[id] <= cutoff));
      assert forall id :: id in rows <==> id in DueSet(View(), Backfill, cutoff);
    }

    method FreshDue(cutoff: int) returns (rows: set<i64>)
      ensures rows == DueSet(View(), Fresh, cutoff)
      ensures forall id :: id in rows <==> Selectable(View(), Fresh, id, cutoff)
    {
      rows := (set id | id in captures && !captures[id].processed && (id !in attempts || attempts[id] <= cutoff));
      assert forall id :: id in rows <==> id in DueSet(View(), Fresh, cutoff);
    }

    method CapturesPendingEnrichment(limit: nat, now: int, backoff: int) returns (r: seq<i64>)
      ensures r == Batch(View(), Fresh, now - backoff, limit)
    {
      var rows := FreshDue(now - backoff);
      r := LeastRecent(rows, limit);
    }
  }
}
