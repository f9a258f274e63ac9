/** No due capture is starved: the number of queue members ahead of it is a
    ranking function over passes. */
module Starvation {
  import opened Prelude
  import opened Semantic
  import opened UkgDb
  import opened Protocol
  import opened Enrichment
  import opened Safety
  import opened PassSafety
  import opened Outcomes

  ghost predicate Touched(es: seq<Event>, id: i64) {
    exists k :: 0 <= k < |es| && es[k].Touch? && es[k].id == id
  }

  /** Every attempt in the list is made at `now`. */
  ghost predicate AllAt(es: seq<Event>, now: int) {
    forall k :: 0 <= k < |es| && es[k].Touch? ==> es[k].now == now
  }

  lemma TouchedAppend(a: seq<Event>, b: seq<Event>)
    ensures forall id :: Touched(a + b, id) <==> Touched(a, id) || Touched(b, id)
  {
    forall id ensures Touched(a + b, id) <==> Touched(a, id) || Touched(b, id) {
      if Touched(a, id) {
        var k :| 0 <= k < |a| && a[k].Touch? && a[k].id == id;
        assert (a + b)[k] == a[k];
      }
      if Touched(b, id) {
        var k :| 0 <= k < |b| && b[k].Touch? && b[k].id == id;
        assert (a + b)[|a| + k] == b[k];
      }
    }
  }

  /** The attempt clock after a list of events. */
  lemma {:induction false} ClockAfter(es: seq<Event>, d: Disk, now: int, id: i64)
    requires AllAt(es, now)
    ensures var e := Run(es, d);
      && (Touched(es, id) ==> id in e.ukg.attempts && e.ukg.attempts[id] == now)
      && (!Touched(es, id) ==>
           && (id in e.ukg.attempts <==> id in d.ukg.attempts)
           && (id in d.ukg.attempts ==> e.ukg.attempts[id] == d.ukg.attempts[id]))
    decreases |es|
  {
    if es != [] {
      var d1 := Apply(es[0], d);
      assert AllAt(es[1..], now);
      ClockAfter(es[1..], d1, now, id);
      assert es == [es[0]] + es[1..];
      TouchedAppend([es[0]], es[1..]);
      assert Touched([es[0]], id) <==> es[0].Touch? && es[0].id == id by {
        assert [es[0]][0] == es[0];
      }
    }
  }

  // --------------------------------------------------- which captures are attempted

  ghost predicate NoTouch(es: seq<Event>) {
    forall k :: 0 <= k < |es| ==> !es[k].Touch?
  }

  lemma ImageTouchesNothing(d: Disk, env: Env, id: i64)
    ensures NoTouch(ImageOf(d, env, id).0)
  {
    var (before, step) := StepOf(d, env, id);
    assert NoTouch(before);
    if step.Embed? {
      assert NoTouch(RecordOf(d, env, id, step.attempts).0);
    }
  }

  lemma StagesTouchNothing(d: Disk, env: Env, id: i64, stop: bool)
    ensures NoTouch(TextLeg(d, env, id)) && NoTouch(ImageOf(d, env, id).0) && NoTouch(FreshImage(d, env, id, stop).0)
  {
    ImageTouchesNothing(d, env, id);
  }

  lemma OneCaptureTouch(d: Disk, env: Env, id: i64, stop: bool)
    ensures var (es, _) := BackfillOne(d, env, id); AllAt(es, env.now) && forall x :: Touched(es, x) <==> x == id
    ensures var (es, _) := FreshOne(d, env, id, stop); AllAt(es, env.now) && forall x :: Touched(es, x) <==> x == id
  {
    var touch := [Touch(id, env.now)];
    var d1 := Apply(Touch(id, env.now), d);
    var text := TextLeg(d1, env, id);
    StagesTouchNothing(d1, env, id, stop);
    StagesTouchNothing(Run(text, d1), env, id, stop);
    OnlyFirst(touch, ImageOf(d1, env, id).0, id);
    var (image, leg) := FreshImage(Run(text, d1), env, id, stop);
    var finish := if !TextRetries(d1, env, id) && leg != LegRetry then [MarkProcessed(id)] else [];
    var rest := text + image + finish;
    assert NoTouch(rest);
    assert touch + text + image + finish == touch + rest;
    OnlyFirst(touch, rest, id);
  }

  lemma OnlyFirst(touch: seq<Event>, rest: seq<Event>, id: i64)
    requires |touch| == 1 && touch[0].Touch? && touch[0].id == id && NoTouch(rest)
    ensures forall x :: Touched(touch + rest, x) <==> x == id
    ensures AllAt(touch + rest, touch[0].now)
  {
    TouchedAppend(touch, rest);
    assert touch[0].id == id;
  }

  /** Queue 2 attempts its whole batch. */
  lemma {:induction false} FreshTouches(d: Disk, env: Env, ids: seq<i64>, stop: bool)
    ensures var es := FreshLoop(d, env, ids, stop);
      AllAt(es, env.now) && forall x :: Touched(es, x) <==> x in ids
    decreases |ids|
  {
    if ids != [] {
      var (one, leg) := FreshOne(d, env, ids[0], stop);
      var rest := FreshLoop(Run(one, d), env, ids[1..], stop || leg == Unavailable);
      OneCaptureTouch(d, env, ids[0], stop);
      FreshTouches(Run(one, d), env, ids[1..], stop || leg == Unavailable);
      TouchedAppend(one, rest);
      assert ids == [ids[0]] + ids[1..];
    }
  }

  /** Queue 1 attempts a prefix of its batch: all of it unless the image route is
      absent, and at least the first capture even then. */
  lemma {:induction false} BackfillTouches(d: Disk, env: Env, ids: seq<i64>) returns (n: nat)
    ensures n <= |ids| && (ids != [] ==> n > 0) && (!BackfillLoop(d, env, ids).1 ==> n == |ids|)
    ensures var es := BackfillLoop(d, env, ids).0;
      AllAt(es, env.now) && forall x :: Touched(es, x) <==> x in ids[..n]
    decreases |ids|
  {
    n := 0;
    if ids != [] {
      var (one, leg) := BackfillOne(d, env, ids[0]);
      OneCaptureTouch(d, env, ids[0], false);
      if leg == Unavailable {
        n := 1;
      } else {
        var rest := BackfillLoop(Run(one, d), env, ids[1..]).0;
        var m := BackfillTouches(Run(one, d), env, ids[1..]);
        n := m + 1;
        TouchedAppend(one, rest);
        assert ids[..n] == [ids[0]] + ids[1..][..m];
      }
    }
  }

  // ------------------------------------------------------------ the ranking function

  /** The queue members that the queue orders before `c`. */
  ghost function Ahead(u: Tables, q: Queue, c: i64): set<i64> {
    set x | x in u.captures && Member(u, q, x) && Before(u, x, c)
  }

  /** Did the pass get through this queue without an absent image route? */
  ghost predicate Uncut(d: Disk, env: Env, q: Queue) {
    q == Fresh || !BackfillLoop(d, env, QueueAt(d, env, Backfill)).1
  }

  lemma AttemptedOf(d: Disk, env: Env, q: Queue) returns (n: nat)
    ensures var b := QueueAt(d, env, q);
      && n <= |b| && (b != [] ==> n > 0) && (Uncut(d, env, q) ==> n == |b|)
      && AllAt(Work(d, env), env.now)
      && forall x :: x in b[..n] ==> Touched(Work(d, env), x)
  {
    var backfill, pending := QueueAt(d, env, Backfill), QueueAt(d, env, Fresh);
    var (first, stop) := BackfillLoop(d, env, backfill);
    var m := BackfillTouches(d, env, backfill);
    FreshTouches(Run(first, d), env, pending, stop);
    TouchedAppend(first, FreshLoop(Run(first, d), env, pending, stop));
    n := if q == Fresh then |pending| else m;
  }

  ghost function Elements(s: seq<i64>): set<i64> {
    set x | x in s
  }

  lemma {:induction false} CountElements(s: seq<i64>)
    requires NoDuplicates(s)
    ensures |Elements(s)| == |s|
  {
    if s != [] {
      var n := |s| - 1;
      CountElements(s[..n]);
      assert s == s[..n] + [s[n]];
      assert Elements(s) == Elements(s[..n]) + {s[n]};
      assert s[n] !in s[..n];
    }
  }

  /** The attempted part of a batch lies ahead of a due capture that is not in it. */
  lemma PrefixAhead(d: Disk, q: Queue, cutoff: int, b: seq<i64>, n: nat, c: i64)
    requires b == Batch(d.ukg, q, cutoff, BATCH) && n <= |b|
    requires c in DueSet(d.ukg, q, cutoff) && c !in b[..n]
    ensures forall x :: x in b[..n] ==> x in Ahead(d.ukg, q, c)
    ensures NoDuplicates(b[..n]) && (n == |b| ==> n == BATCH) && (b == [] ==> BATCH == 0)
  {
    BatchIsFair(d.ukg, q, cutoff, BATCH);
    RankedInOrder(d.ukg, DueSet(d.ukg, q, cutoff));
    assert forall k :: 0 <= k < n ==> b[..n][k] == b[k];
    assert n == |b| ==> b[..n] == b;
    forall x | x in b[..n] ensures x in Ahead(d.ukg, q, c) {
      var i :| 0 <= i < n && b[i] == x;
      assert x in b;
      if c in b {
        var j :| 0 <= j < |b| && b[j] == c;
        assert j >= n;
      }
    }
  }

  /** Being attempted now puts a capture behind every capture that was due. */
  lemma Overtaken(d: Disk, env: Env, es: seq<Event>, x: i64, c: i64)
    requires env.now >= RETRY_BACKOFF_TICKS && AllAt(es, env.now)
    requires Due(d.ukg, c, env.now - RETRY_BACKOFF_TICKS) && !Touched(es, c) && Touched(es, x)
    ensures !Before(Run(es, d).ukg, x, c)
  {
    ClockAfter(es, d, env.now, x);
    ClockAfter(es, d, env.now, c);
  }

  /** A due capture that a pass does not attempt has all the captures the pass
      did attempt ahead of it, and none of them stays ahead. */
  lemma PassedOver(d: Disk, env: Env, q: Queue, c: i64) returns (done: set<i64>)
    requires env.now >= RETRY_BACKOFF_TICKS
    requires c in DueSet(d.ukg, q, env.now - RETRY_BACKOFF_TICKS) && !Touched(Work(d, env), c)
    ensures done <= Ahead(d.ukg, q, c) && |done| >= (if Uncut(d, env, q) then BATCH else 1)
    ensures forall x :: x in done ==> !Before(Run(Work(d, env), d).ukg, x, c)
  {
    var b := QueueAt(d, env, q);
    var n := AttemptedOf(d, env, q);
    done := LeftBehind(d, env, q, c, Work(d, env), b, n);
  }

  lemma LeftBehind(d: Disk, env: Env, q: Queue, c: i64, es: seq<Event>, b: seq<i64>, n: nat) returns (done: set<i64>)
    requires env.now >= RETRY_BACKOFF_TICKS && AllAt(es, env.now)
    requires c in DueSet(d.ukg, q, env.now - RETRY_BACKOFF_TICKS) && !Touched(es, c)
    requires b == QueueAt(d, env, q) && n <= |b| && (b != [] ==> n > 0)
    requires forall x :: x in b[..n] ==> Touched(es, x)
    ensures done <= Ahead(d.ukg, q, c) && |done| >= 1 && (n == |b| ==> |done| >= BATCH)
    ensures forall x :: x in done ==> !Before(Run(es, d).ukg, x, c)
  {
    PrefixAhead(d, q, env.now - RETRY_BACKOFF_TICKS, b, n, c);
    CountElements(b[..n]);
    done := Elements(b[..n]);
    forall x | x in done ensures !Before(Run(es, d).ukg, x, c) {
      Overtaken(d, env, es, x, c);
    }
  }

  /** One pass as seen from its queues, and what happens until the next one. */
  datatype Round = Round(disk: Disk, env: Env, between: seq<Event>)

  ghost function NextDisk(r: Round): Disk {
    Run(r.between, Run(Work(r.disk, r.env), r.disk))
  }

  /** The capture stays due, nothing is attempted between passes, and no member
      joins the queue ahead of the capture. */
  ghost predicate Waiting(rs: seq<Round>, q: Queue, c: i64) {
    && (forall i :: 0 <= i < |rs| ==>
          && rs[i].env.now >= RETRY_BACKOFF_TICKS
          && NoTouch(rs[i].between)
          && c in DueSet(rs[i].disk.ukg, q, rs[i].env.now - RETRY_BACKOFF_TICKS))
    && (forall i :: 0 <= i < |rs| - 1 ==>
          && rs[i + 1].disk == NextDisk(rs[i])
          && Ahead(rs[i + 1].disk.ukg, q, c) <= Ahead(rs[i].disk.ukg, q, c))
  }

  /** Each pass that leaves the capture out moves it forward. */
  lemma MovesForward(r: Round, q: Queue, c: i64)
    requires r.env.now >= RETRY_BACKOFF_TICKS && NoTouch(r.between)
    requires c in DueSet(r.disk.ukg, q, r.env.now - RETRY_BACKOFF_TICKS)
    requires !Touched(Work(r.disk, r.env), c)
    requires Ahead(NextDisk(r).ukg, q, c) <= Ahead(r.disk.ukg, q, c)
    ensures |Ahead(NextDisk(r).ukg, q, c)| + (if Uncut(r.disk, r.env, q) then BATCH else 1) <= |Ahead(r.disk.ukg, q, c)|
  {
    var done := PassedOver(r.disk, r.env, q, c);
    var e := Run(Work(r.disk, r.env), r.disk);
    var f := NextDisk(r);
    forall x ensures LastAttempt(f.ukg, x) == LastAttempt(e.ukg, x) {
      ClockAfter(r.between, e, 0, x);
    }
    var ahead, rest := Ahead(r.disk.ukg, q, c), Ahead(f.ukg, q, c);
    assert rest !! done;
    assert |rest + done| == |rest| + |done|;
    Smaller(rest + done, ahead);
  }

  lemma {:induction false} Smaller(a: set<i64>, b: set<i64>)
    requires a <= b
    ensures |a| <= |b|
  {
    assert b == a + (b - a);
  }

  lemma WaitingTail(rs: seq<Round>, q: Queue, c: i64)
    requires Waiting(rs, q, c) && rs != []
    ensures Waiting(rs[1..], q, c)
  {
  }

  ghost predicate AllUncut(rs: seq<Round>, q: Queue) {
    forall i :: 0 <= i < |rs| ==> Uncut(rs[i].disk, rs[i].env, q)
  }

  ghost predicate Attempted(r: Round, c: i64) {
    Touched(Work(r.disk, r.env), c)
  }

  /** A waiting capture is attempted within (members ahead) + 1 passes, and within
      floor(members ahead / 64) + 1 passes when none of them is cut short. */
  lemma {:induction false} NoStarvation(rs: seq<Round>, q: Queue, c: i64)
    requires Waiting(rs, q, c) && rs != []
    requires var ahead := |Ahead(rs[0].disk.ukg, q, c)|;
      |rs| > ahead || (|rs| > ahead / BATCH && AllUncut(rs, q))
    ensures exists i :: 0 <= i < |rs| && Attempted(rs[i], c)
    decreases |rs|
  {
    var r, rest := rs[0], rs[1..];
    if Attempted(r, c) {
      assert Attempted(rs[0], c);
    } else {
      Advance(rs, q, c);
      NoStarvation(rest, q, c);
      var i :| 0 <= i < |rest| && Attempted(rest[i], c);
      assert Attempted(rs[i + 1], c);
    }
  }

  /** After a pass that left the capture out, fewer passes still suffice. */
  lemma Advance(rs: seq<Round>, q: Queue, c: i64)
    requires Waiting(rs, q, c) && rs != [] && !Attempted(rs[0], c)
    requires var ahead := |Ahead(rs[0].disk.ukg, q, c)|;
      |rs| > ahead || (|rs| > ahead / BATCH && AllUncut(rs, q))
    ensures |rs| > 1 && Waiting(rs[1..], q, c)
    ensures var ahead := |Ahead(rs[1].disk.ukg, q, c)|;
      |rs[1..]| > ahead || (|rs[1..]| > ahead / BATCH && AllUncut(rs[1..], q))
  {
    var r := rs[0];
    var done := PassedOver(r.disk, r.env, q, c);
    Smaller(done, Ahead(r.disk.ukg, q, c));
    assert AllUncut(rs, q) ==> Uncut(r.disk, r.env, q) && AllUncut(rs[1..], q);
    assert |rs| > 1;
    assert rs[0 + 1].disk == NextDisk(rs[0]);
    MovesForward(r, q, c);
    WaitingTail(rs, q, c);
  }

  // ------------------------------------------------------------------ on the tables

  /** The capture still has work to do in this queue. */
  ghost predicate Needs(u: Tables, q: Queue, c: i64) {
    c in u.captures &&
    match q
    case Fresh => !u.captures[c].processed
    case Backfill =>
      && u.captures[c].processed && u.captures[c].token.Some?
      && !(c in u.images && (u.images[c].state == Done || u.images[c].state == Skipped))
  }

  /** The captures with work in the queue that were attempted before `c`, or on a tie
      have the smaller id. */
  ghost function InFront(u: Tables, q: Queue, c: i64): set<i64> {
    set x | x in u.captures && Needs(u, q, x) &&
      var tx, tc := if x in u.attempts then u.attempts[x] else 0, if c in u.attempts then u.attempts[c] else 0;
      tx < tc || (tx == tc && x < c)
  }

  /** The capture keeps its work and is due at every pass (its last attempt at least
      600,000,000 ticks ago), nothing is attempted between passes, and no capture
      gets in front of it. */
  ghost predicate WaitsFor(rs: seq<Round>, q: Queue, c: i64) {
    && (forall i :: 0 <= i < |rs| ==>
          && rs[i].env.now >= 600_000_000 && NoTouch(rs[i].between)
          && Needs(rs[i].disk.ukg, q, c)
          && (c in rs[i].disk.ukg.attempts ==> rs[i].disk.ukg.attempts[c] <= rs[i].env.now - 600_000_000))
    && (forall i :: 0 <= i < |rs| - 1 ==>
          && rs[i + 1].disk == NextDisk(rs[i])
          && InFront(rs[i + 1].disk.ukg, q, c) <= InFront(rs[i].disk.ukg, q, c))
  }

  lemma InFrontIsAhead(u: Tables, q: Queue, c: i64)
    ensures InFront(u, q, c) == Ahead(u, q, c)
    ensures Needs(u, q, c) <==> Member(u, q, c)
  {
    forall x ensures Needs(u, q, x) <==> Member(u, q, x) {
      if x in u.captures { QueuesExhaust(u, x); }
    }
  }

  lemma WaitsIsWaiting(rs: seq<Round>, q: Queue, c: i64)
    requires WaitsFor(rs, q, c)
    ensures Waiting(rs, q, c)
  {
    forall i | 0 <= i < |rs| ensures c in DueSet(rs[i].disk.ukg, q, rs[i].env.now - RETRY_BACKOFF_TICKS) {
      InFrontIsAhead(rs[i].disk.ukg, q, c);
    }
    forall i | 0 <= i < |rs| - 1
      ensures Ahead(rs[i + 1].disk.ukg, q, c) <= Ahead(rs[i].disk.ukg, q, c)
    {
      InFrontIsAhead(rs[i].disk.ukg, q, c);
      InFrontIsAhead(rs[i + 1].disk.ukg, q, c);
    }
  }

  /** Without an absent route in the replies, no queue is cut short. */
  lemma {:induction false} NeverCut(d: Disk, env: Env, ids: seq<i64>)
    requires forall id :: !env.image(id).Disabled?
    ensures !BackfillLoop(d, env, ids).1
    decreases |ids|
  {
    if ids != [] {
      var one := BackfillOne(d, env, ids[0]).0;
      BackfillAttempt(d, env, ids[0]);
      NeverCut(Run(one, d), env, ids[1..]);
    }
  }

  /** Nobody with work left is forgotten: a fresh capture, or a processed one with a
      token whose image is neither done nor skipped, is attempted within n + 1 passes
      when n such captures are in front of it, and within floor(n / 64) + 1 passes
      when no reply says that the image route is absent. */
  lemma NobodyStarves(rs: seq<Round>, q: Queue, c: i64)
    requires WaitsFor(rs, q, c) && rs != []
    requires var n := |InFront(rs[0].disk.ukg, q, c)|;
      || |rs| > n
      || (|rs| > n / 64 && forall i, id :: 0 <= i < |rs| ==> !rs[i].env.image(id).Disabled?)
    ensures exists i :: 0 <= i < |rs| && Attempted(rs[i], c)
  {
    WaitsIsWaiting(rs, q, c);
    InFrontIsAhead(rs[0].disk.ukg, q, c);
    if forall i, id :: 0 <= i < |rs| ==> !rs[i].env.image(id).Disabled? {
      forall i | 0 <= i < |rs| ensures Uncut(rs[i].disk, rs[i].env, q) {
        NeverCut(rs[i].disk, rs[i].env, QueueAt(rs[i].disk, rs[i].env, Backfill));
      }
    }
    NoStarvation(rs, q, c);
  }
}
