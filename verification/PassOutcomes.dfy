/** What a whole pass does to each capture, when no reply makes it rebuild a store. */
module PassOutcomes {
  import opened Prelude
  import opened Semantic
  import opened UkgDb
  import opened Protocol
  import opened Enrichment
  import opened PassSafety
  import opened Outcomes

  // -------------------------------------------------------------- start of a pass

  predicate RaisedOn(u: Tables, key: string) {
    key in u.config && u.config[key] == "1"
  }

  /** The start of a pass, table by table: each store carries the reported space and
      keeps its rows exactly if they may be in it; a leg that lost its rows or whose
      flag stood raised starts afresh; pacing is kept. */
  lemma StartOutcome(d: Disk, t: string, i: string)
    ensures var e := Run(Prologue(d, Some((t, i))), d);
      var textAgain := HoldsOther(d.text, t) || RaisedOn(d.ukg, "enrich.text_unavailable");
      var imageAgain := HoldsOther(d.image, i) || RaisedOn(d.ukg, "enrich.image_unavailable");
      && e.text == Store(Some(t), if HoldsOther(d.text, t) then [] else d.text.rows)
      && e.image == Store(Some(i), if HoldsOther(d.image, i) then [] else d.image.rows)
      && e.ukg.captures == (if textAgain
           then map id | id in d.ukg.captures :: d.ukg.captures[id].(processed := false) else d.ukg.captures)
      && e.ukg.images == (if imageAgain then map[] else d.ukg.images)
      && e.ukg.attempts == d.ukg.attempts && e.refused == (if textAgain then {} else d.refused)
      && !RaisedOn(e.ukg, "enrich.text_unavailable") && !RaisedOn(e.ukg, "enrich.image_unavailable")
  {
    var d2 := BothStamped(d, t, i);
    var e := BothLowered(d2);
    var a, b := Install(d.text, Text, t), Install(d.image, Image, i);
    assert Raised(d2, Text) == Raised(d, Text) && Raised(d2, Image) == Raised(d, Image);
    InFourParts(d, a, b, if Raised(d, Text) then Lower(Text) else [], if Raised(d, Image) then Lower(Image) else []);
  }

  lemma BothStamped(d: Disk, t: string, i: string) returns (e: Disk)
    ensures e == Run(Install(d.image, Image, i), Run(Install(d.text, Text, t), d))
    ensures var otherText, otherImage := HoldsOther(d.text, t), HoldsOther(d.image, i);
      && e.text == Store(Some(t), if otherText then [] else d.text.rows)
      && e.image == Store(Some(i), if otherImage then [] else d.image.rows)
      && e.ukg.captures == (if otherText then UnprocessAll(d.ukg).captures else d.ukg.captures)
      && e.ukg.images == (if otherImage then map[] else d.ukg.images)
      && e.ukg.attempts == d.ukg.attempts && e.ukg.config == d.ukg.config
      && e.refused == (if otherText then {} else d.refused)
  {
    var d1 := Run(Install(d.text, Text, t), d);
    Installed(d, Text, t);
    Installed(d1, Image, i);
    e := Run(Install(d.image, Image, i), d1);
  }

  lemma BothLowered(d: Disk) returns (e: Disk)
    ensures e == Run(if Raised(d, Image) then Lower(Image) else [], Run(if Raised(d, Text) then Lower(Text) else [], d))
    ensures e.text == d.text && e.image == d.image && !Raised(e, Text) && !Raised(e, Image)
    ensures e.ukg.captures == if Raised(d, Text) then UnprocessAll(d.ukg).captures else d.ukg.captures
    ensures e.ukg.images == if Raised(d, Image) then map[] else d.ukg.images
    ensures e.ukg.attempts == d.ukg.attempts && e.refused == if Raised(d, Text) then {} else d.refused
  {
    var c := if Raised(d, Text) then Lower(Text) else [];
    var f := if Raised(d, Image) then Lower(Image) else [];
    LoweredIf(d, Text, c);
    LoweredIf(Run(c, d), Image, f);
    e := Run(f, Run(c, d));
  }

  lemma InFourParts(d: Disk, a: seq<Event>, b: seq<Event>, c: seq<Event>, f: seq<Event>)
    ensures Run(a + b + c + f, d) == Run(f, Run(c, Run(b, Run(a, d))))
  {
    RunAppend(a, b, d);
    RunAppend(a + b, c, d);
    RunAppend(a + b + c, f, d);
  }

  lemma Installed(d: Disk, leg: Leg, space: string)
    ensures var e := Run(Install(StoreOf(d, leg), leg, space), d);
      var other := HoldsOther(StoreOf(d, leg), space);
      && StoreOf(e, leg) == Store(Some(space), if other then [] else StoreOf(d, leg).rows)
      && e.ukg == (if !other then d.ukg else if leg == Text then UnprocessAll(d.ukg) else ResetImages(d.ukg))
      && e.refused == (if other && leg == Text then {} else d.refused)
      && (leg == Text ==> e.image == d.image) && (leg == Image ==> e.text == d.text)
  {
    Run3(Clear(leg, space), Requeue(leg), SetSpace(leg, space), d);
    Run1(SetSpace(leg, space), d);
    assert Install(StoreOf(d, leg), leg, space) ==
      if HoldsOther(StoreOf(d, leg), space) then [Clear(leg, space), Requeue(leg), SetSpace(leg, space)]
      else [SetSpace(leg, space)];
  }

  lemma LoweredIf(d: Disk, leg: Leg, es: seq<Event>)
    requires es == if Raised(d, leg) then Lower(leg) else []
    ensures var e := Run(es, d);
      && e.text == d.text && e.image == d.image && !Raised(e, leg)
      && (forall other :: other != leg ==> Raised(e, other) == Raised(d, other))
      && e.ukg.captures == (if Raised(d, leg) && leg == Text then UnprocessAll(d.ukg).captures else d.ukg.captures)
      && e.ukg.images == (if Raised(d, leg) && leg == Image then map[] else d.ukg.images)
      && e.ukg.attempts == d.ukg.attempts
      && e.refused == (if Raised(d, leg) && leg == Text then {} else d.refused)
  {
    Run2(SetFlag(leg, false), Requeue(leg), d);
  }

  /** When the service cannot name its spaces, the start of a pass does nothing. */
  lemma NoStart(d: Disk)
    ensures Run(Prologue(d, None), d) == d
  {
  }

  // -------------------------------------------------------------------- the queues

  /** All replies of a leg are in one space, which no store contradicts. */
  ghost predicate OneSpace(d: Disk, env: Env, t: string, i: string) {
    && (forall id :: env.text(id).Embedded? ==> env.text(id).vector.space == t)
    && (forall id :: env.image(id).Embedded? ==> env.image(id).vector.space == i)
    && !HoldsOther(d.text, t) && !HoldsOther(d.image, i)
  }

  ghost predicate RouteExists(env: Env) {
    forall id :: !env.image(id).Disabled?
  }

  lemma {:induction false} BackfillResults(d: Disk, env: Env, ids: seq<i64>, t: string, i: string)
    requires OneSpace(d, env, t, i) && RouteExists(env) && NoDuplicates(ids)
    ensures var (es, stop) := BackfillLoop(d, env, ids);
      var e := Run(es, d);
      && !stop && OneSpace(e, env, t, i)
      && (forall x :: x in ids ==> BackfillResult(env, x, LocalOf(d, x), LocalOf(e, x)))
      && (forall x :: x !in ids ==> LocalOf(e, x) == LocalOf(d, x))
    decreases |ids|
  {
    if ids != [] {
      var id, rest := ids[0], ids[1..];
      var one := BackfillOne(d, env, id).0;
      var d1 := Run(one, d);
      BackfillAttempt(d, env, id);
      assert forall k :: 0 <= k < |rest| ==> rest[k] == ids[k + 1];
      BackfillResults(d1, env, rest, t, i);
      RunAppend(one, BackfillLoop(d1, env, rest).0, d);
      assert ids == [id] + rest && id !in rest;
    }
  }

  lemma {:induction false} FreshResults(d: Disk, env: Env, ids: seq<i64>, t: string, i: string)
    requires OneSpace(d, env, t, i) && RouteExists(env) && NoDuplicates(ids)
    requires forall x :: x in ids ==> Member(d.ukg, Fresh, x)
    ensures var e := Run(FreshLoop(d, env, ids, false), d);
      && OneSpace(e, env, t, i)
      && (forall x :: x in ids ==>
            LocalOf(d, x).capture.Some? && FreshResult(env, x, false, LocalOf(d, x), LocalOf(e, x)))
      && (forall x :: x !in ids ==> LocalOf(e, x) == LocalOf(d, x))
    decreases |ids|
  {
    if ids != [] {
      var id, rest := ids[0], ids[1..];
      var (one, leg) := FreshOne(d, env, id, false);
      var d1 := Run(one, d);
      assert id in ids && Member(d.ukg, Fresh, id);
      FreshAttempt(d, env, id, false);
      assert forall k :: 0 <= k < |rest| ==> rest[k] == ids[k + 1];
      assert ids == [id] + rest && id !in rest;
      forall x | x in rest ensures Member(d1.ukg, Fresh, x) {
        assert LocalOf(d1, x) == LocalOf(d, x) && Member(d.ukg, Fresh, x);
      }
      FreshResults(d1, env, rest, t, i);
      RunAppend(one, FreshLoop(d1, env, rest, false), d);
    }
  }

  /** Both queues, whose batches were chosen in `d`: each capture of a batch fares as
      its replies say, and every other capture is as before. */
  lemma WorkResults(d: Disk, env: Env, t: string, i: string)
    requires OneSpace(d, env, t, i) && RouteExists(env)
    ensures var e := Run(Work(d, env), d);
      && (forall x :: x in QueueAt(d, env, Backfill) ==> BackfillResult(env, x, LocalOf(d, x), LocalOf(e, x)))
      && (forall x :: x in QueueAt(d, env, Fresh) ==>
            LocalOf(d, x).capture.Some? && FreshResult(env, x, false, LocalOf(d, x), LocalOf(e, x)))
      && (forall x :: x !in QueueAt(d, env, Backfill) && x !in QueueAt(d, env, Fresh) ==>
            LocalOf(e, x) == LocalOf(d, x))
  {
    QueuesDrainable(d, env);
    QueueDrainable(d, env, Fresh);
    DrainResults(d, env, QueueAt(d, env, Backfill), QueueAt(d, env, Fresh), t, i);
  }

  lemma DrainResults(d: Disk, env: Env, backfill: seq<i64>, pending: seq<i64>, t: string, i: string)
    requires OneSpace(d, env, t, i) && RouteExists(env) && NoDuplicates(backfill) && NoDuplicates(pending)
    requires forall x :: x in pending ==> x !in backfill && Member(d.ukg, Fresh, x)
    ensures var (first, stop) := BackfillLoop(d, env, backfill);
      var e := Run(first + FreshLoop(Run(first, d), env, pending, stop), d);
      && (forall x :: x in backfill ==> BackfillResult(env, x, LocalOf(d, x), LocalOf(e, x)))
      && (forall x :: x in pending ==>
            LocalOf(d, x).capture.Some? && FreshResult(env, x, false, LocalOf(d, x), LocalOf(e, x)))
      && (forall x :: x !in backfill && x !in pending ==> LocalOf(e, x) == LocalOf(d, x))
  {
    BackfillResults(d, env, backfill, t, i);
    var (first, stop) := BackfillLoop(d, env, backfill);
    var d1 := Run(first, d);
    forall x | x in pending ensures Member(d1.ukg, Fresh, x) {
      assert LocalOf(d1, x) == LocalOf(d, x);
    }
    FreshResults(d1, env, pending, t, i);
    RunAppend(first, FreshLoop(d1, env, pending, stop), d);
  }

  /** A pass whose replies are all in the spaces it reports, with both routes there:
      every capture of its two batches ends exactly as the replies say, every other
      capture as the start of the pass left it. */
  lemma SettledPass(d: Disk, env: Env)
    requires env.spaces.Some? && RouteExists(env)
    requires forall id :: env.text(id).Embedded? ==> env.text(id).vector.space == env.spaces.value.0
    requires forall id :: env.image(id).Embedded? ==> env.image(id).vector.space == env.spaces.value.1
    ensures var b := Run(Prologue(d, env.spaces), d);
      var e := Run(Pass(d, env), d);
      && (forall x :: x in QueueAt(b, env, Backfill) ==> BackfillResult(env, x, LocalOf(b, x), LocalOf(e, x)))
      && (forall x :: x in QueueAt(b, env, Fresh) ==>
            LocalOf(b, x).capture.Some? && FreshResult(env, x, false, LocalOf(b, x), LocalOf(e, x)))
      && (forall x :: x !in QueueAt(b, env, Backfill) && x !in QueueAt(b, env, Fresh) ==>
            LocalOf(e, x) == LocalOf(b, x))
  {
    var (t, i) := env.spaces.value;
    assert env.spaces == Some((t, i));
    var b := Run(Prologue(d, env.spaces), d);
    StartOutcome(d, t, i);
    WorkResults(b, env, t, i);
    RunAppend(Prologue(d, env.spaces), Work(b, env), d);
  }
}
