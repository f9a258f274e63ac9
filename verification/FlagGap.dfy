/** The one place where a pass writes that something is finished before it is: the
    text flag is lowered first, and the captures are re-queued next. */
module FlagGap {
  import opened Prelude
  import opened Semantic
  import opened UkgDb
  import opened Protocol
  import opened Enrichment

  /** Has a pass stopped between the two, after `cut` of its writes? */
  ghost predicate InGap(d: Disk, env: Env, cut: nat) {
    && env.spaces.Some? && Raised(d, Text)
    && cut == |Install(d.text, Text, env.spaces.value.0)| + |Install(d.image, Image, env.spaces.value.1)| + 1
  }

  predicate Lowers(e: Event) {
    e.SetFlag? && e.leg == Text && !e.up
  }

  ghost predicate Quiet(es: seq<Event>) {
    forall k :: 0 <= k < |es| ==> !Lowers(es[k])
  }

  lemma {:induction false} QuietOwesNothing(d: Disk, es: seq<Event>)
    requires !d.owed && Quiet(es)
    ensures !Run(es, d).owed
    decreases |es|
  {
    if es != [] {
      assert !Lowers(es[0]) && Quiet(es[1..]);
      QuietOwesNothing(Apply(es[0], d), es[1..]);
    }
  }

  lemma QuietStages(d: Disk, env: Env, id: i64, stop: bool)
    ensures Quiet(TextLeg(d, env, id)) && Quiet(ImageOf(d, env, id).0) && Quiet(FreshImage(d, env, id, stop).0)
  {
  }

  lemma QuietOne(d: Disk, env: Env, id: i64, stop: bool)
    ensures Quiet(BackfillOne(d, env, id).0) && Quiet(FreshOne(d, env, id, stop).0)
  {
    var d1 := Apply(Touch(id, env.now), d);
    QuietStages(d1, env, id, stop);
    QuietStages(Run(TextLeg(d1, env, id), d1), env, id, stop);
  }

  lemma {:induction false} QuietBackfill(d: Disk, env: Env, ids: seq<i64>)
    ensures Quiet(BackfillLoop(d, env, ids).0)
    decreases |ids|
  {
    if ids != [] {
      var one := BackfillOne(d, env, ids[0]).0;
      QuietOne(d, env, ids[0], false);
      QuietBackfill(Run(one, d), env, ids[1..]);
    }
  }

  lemma {:induction false} QuietFresh(d: Disk, env: Env, ids: seq<i64>, stop: bool)
    ensures Quiet(FreshLoop(d, env, ids, stop))
    decreases |ids|
  {
    if ids != [] {
      var (one, leg) := FreshOne(d, env, ids[0], stop);
      QuietOne(d, env, ids[0], stop);
      QuietFresh(Run(one, d), env, ids[1..], stop || leg == Unavailable);
    }
  }

  lemma QuietWork(d: Disk, env: Env)
    ensures Quiet(Work(d, env))
  {
    var (first, stop) := BackfillLoop(d, env, QueueAt(d, env, Backfill));
    QuietBackfill(d, env, QueueAt(d, env, Backfill));
    QuietFresh(Run(first, d), env, QueueAt(d, env, Fresh), stop);
  }

  lemma QuietStart(d: Disk, t: string, i: string)
    ensures Quiet(Install(d.text, Text, t) + Install(d.image, Image, i))
    ensures Quiet(if Raised(d, Image) then Lower(Image) else [])
  {
    assert Quiet(Install(d.text, Text, t)) && Quiet(Install(d.image, Image, i));
  }

  lemma QuietAppend(a: seq<Event>, b: seq<Event>)
    requires Quiet(a) && Quiet(b)
    ensures Quiet(a + b)
  {
  }

  /** What a pass does around the gap, if its flag is raised, and otherwise. */
  lemma PassAroundGap(d: Disk, env: Env) returns (front: seq<Event>, rest: seq<Event>)
    ensures Quiet(front) && Quiet(rest)
    ensures env.spaces.Some? ==>
      front == Install(d.text, Text, env.spaces.value.0) + Install(d.image, Image, env.spaces.value.1)
    ensures Pass(d, env) == front + (if env.spaces.Some? && Raised(d, Text) then Lower(Text) else []) + rest
  {
    var e := Run(Prologue(d, env.spaces), d);
    QuietWork(e, env);
    match env.spaces
    case None =>
      front, rest := [], Work(e, env);
    case Some((t, i)) =>
      QuietStart(d, t, i);
      var last := if Raised(d, Image) then Lower(Image) else [];
      front := Install(d.text, Text, t) + Install(d.image, Image, i);
      rest := last + Work(e, env);
      QuietAppend(last, Work(e, env));
      Regroup(front, if Raised(d, Text) then Lower(Text) else [], last, Work(e, env));
  }

  lemma Regroup(a: seq<Event>, b: seq<Event>, c: seq<Event>, w: seq<Event>)
    ensures a + b + c + w == a + b + (c + w)
  {
  }

  /** Stopping inside `front + Lower(Text) + rest`. */
  lemma OwedInside(d: Disk, front: seq<Event>, rest: seq<Event>, cut: nat)
    requires !d.owed && Quiet(front) && Quiet(rest)
    ensures Run(Take(front + Lower(Text) + rest, cut), d).owed <==> cut == |front| + 1
  {
    var n := |front|;
    var done := Take(front + Lower(Text) + rest, cut);
    var down, requeue := Lower(Text)[0], Lower(Text)[1];
    QuietOwesNothing(d, front);
    if cut <= n {
      assert done == front[..cut];
      QuietOwesNothing(d, done);
    } else if cut == n + 1 {
      assert done == front + [down];
      RunAppend(front, [down], d);
      Run1(down, Run(front, d));
    } else {
      var tail := Take(rest, cut - n - 2);
      assert done == front + Lower(Text) + tail;
      RunAppend(front, Lower(Text), d);
      Run2(down, requeue, Run(front, d));
      RunAppend(front + Lower(Text), tail, d);
      QuietOwesNothing(Run(front + Lower(Text), d), tail);
    }
  }

  /** A stopped process owes the text re-queueing exactly when it stopped there. */
  lemma OwedExactly(d: Disk, env: Env, cut: nat)
    requires !d.owed
    ensures Run(Take(Pass(d, env), cut), d).owed <==> InGap(d, env, cut)
  {
    var front, rest := PassAroundGap(d, env);
    if env.spaces.Some? && Raised(d, Text) {
      OwedInside(d, front, rest, cut);
    } else {
      Ungapped(d, front, rest, cut);
    }
  }

  lemma Ungapped(d: Disk, front: seq<Event>, rest: seq<Event>, cut: nat)
    requires !d.owed && Quiet(front) && Quiet(rest)
    ensures !Run(Take(front + [] + rest, cut), d).owed
  {
    QuietAppend(front, rest);
    assert front + [] + rest == front + rest;
    assert Quiet(Take(front + rest, cut));
    QuietOwesNothing(d, Take(front + rest, cut));
  }
}
