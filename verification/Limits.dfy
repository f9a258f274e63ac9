/** Where the protocol's promises end: concrete runs that break them, and the
    exact conditions under which they hold. */
module Limits {
  import opened Prelude
  import opened Semantic
  import opened UkgDb
  import opened Protocol
  import opened Enrichment
  import opened Safety
  import opened PassSafety
  import opened Runs
  import opened FlagGap

  // ------------------------------------------------------- an overtaken rebuild

  /** Stopped within the start of a pass. */
  lemma StoppedAtStart(d: Disk, env: Env, cut: nat)
    requires cut <= |Prologue(d, env.spaces)|
    ensures StepTrace(d, PassUpTo(env, cut)) == Prologue(d, env.spaces)[..cut] + [Restart]
  {
    var begin := Prologue(d, env.spaces);
    TakeFront(begin, Work(Run(begin, d), env), cut);
  }

  lemma TakeFront(a: seq<Event>, b: seq<Event>, n: nat)
    requires n <= |a|
    ensures Take(a + b, n) == a[..n]
  {
    assert (a + b)[..n] == a[..n];
  }

  lemma Cut2(d: Disk, env: Env, begin: seq<Event>)
    requires begin == Prologue(d, env.spaces) && |begin| >= 2
    ensures Run(StepTrace(d, PassUpTo(env, 2)), d) == Apply(Restart, Apply(begin[1], Apply(begin[0], d)))
  {
    StoppedAtStart(d, env, 2);
    assert begin[..2] + [Restart] == [begin[0], begin[1], Restart];
    Run3(begin[0], begin[1], Restart, d);
  }

  lemma Cut3(d: Disk, env: Env, begin: seq<Event>)
    requires begin == Prologue(d, env.spaces) && |begin| >= 3
    ensures Run(StepTrace(d, PassUpTo(env, 3)), d)
         == Apply(Restart, Apply(begin[2], Apply(begin[1], Apply(begin[0], d))))
  {
    StoppedAtStart(d, env, 3);
    assert begin[..3] == [begin[0], begin[1], begin[2]];
    RunAppend(begin[..3], [Restart], d);
    Run3(begin[0], begin[1], begin[2], d);
    Run1(Restart, Run(begin[..3], d));
  }

  lemma StartOfRebuild(d: Disk, t: string, i: string)
    requires d.text.spaceId == Some(t) && SpaceMismatch(d.image, i)
    ensures var begin := Prologue(d, Some((t, i)));
      |begin| >= 2 && begin[0] == SetSpace(Text, t) && begin[1] == Clear(Image, i)
  {
  }

  lemma StartOfPlainPass(d: Disk, t: string, i: string)
    requires d.text.spaceId == Some(t) && d.image.spaceId == Some(i)
    ensures var begin := Prologue(d, Some((t, i)));
      && |begin| >= 2 && begin[0] == SetSpace(Text, t) && begin[1] == SetSpace(Image, i)
      && (Raised(d, Text) ==> |begin| >= 3 && begin[2] == Lower(Text)[0])
  {
  }

  /** An answer in the abandoned space, arriving while a rebuild stands interrupted,
      leaves the image leg recoverable exactly when the label already names another
      space, or no other image is marked done. */
  lemma OvertakenImageExactly(d: Disk, dim: nat, id: i64, v: Vector)
    requires Inv(d, dim) && !d.owed && Interrupted(d, Image) && !Sound(d, Image)
    requires v.space != SPACE_UNKNOWN && |v.coords| == dim
    requires Token(d.ukg, id).Some? && !HasState(d.ukg, id, Skipped)
    ensures var e := Run(Install(d.image, Image, v.space) + [InsertRow(Image, id, v)], d);
      Recoverable(e, Image) <==>
        d.image.spaceId != Some(v.space) || forall x :: HasState(d.ukg, x, Done) ==> x == id
  {
    var d1 := Run(Install(d.image, Image, v.space), d);
    var e := Apply(InsertRow(Image, id, v), d1);
    InstallThenInsert(d, Image, id, v);
    HasInsert(d1.image, id, v);
    assert !Interrupted(e, Image);
  }

  /** The same for a text: every other processed text must need no embedding. */
  lemma OvertakenTextExactly(d: Disk, dim: nat, id: i64, v: Vector)
    requires Inv(d, dim) && !d.owed && Interrupted(d, Text) && !Sound(d, Text)
    requires v.space != SPACE_UNKNOWN && |v.coords| == dim
    ensures var e := Run(Install(d.text, Text, v.space) + [InsertRow(Text, id, v)], d);
      Recoverable(e, Text) <==>
        || d.text.spaceId != Some(v.space)
        || forall x :: Processed(d.ukg, x) && OcrText(d.ukg, x) != "" && x !in d.refused ==> x == id
  {
    var d1 := Run(Install(d.text, Text, v.space), d);
    var e := Apply(InsertRow(Text, id, v), d1);
    InstallThenInsert(d, Text, id, v);
    HasInsert(d1.text, id, v);
    assert !Interrupted(e, Text) && !Raised(d, Text);
    if d.text.spaceId == Some(v.space) {
      forall x ensures TextSettled(e, x) <==> OcrText(d.ukg, x) == "" || x in d.refused || x == id {
      }
    } else {
      assert forall x :: !Processed(e.ukg, x);
    }
  }

  /** A rebuild towards a new space stops right after clearing; the next pass finds
      the service back in the old space and embeds one image there. An image that
      was embedded before is still marked done, has no embedding and is in neither
      queue, and the store no longer shows that a rebuild was under way. */
  lemma {:induction false} OvertakenRebuildLosesAnImage(
    d: Disk, id: i64, other: i64, v: Vector, toNew: Env, toOld: Env)
    requires HasState(d.ukg, id, Done) && Processed(d.ukg, id) && Has(d.image, id)
    requires !Raised(d, Text) && !Raised(d, Image) && !d.owed
    requires toNew.spaces.Some? && toOld.spaces.Some?
    requires d.text.spaceId == Some(toNew.spaces.value.0) == Some(toOld.spaces.value.0)
    requires d.image.spaceId == Some(toOld.spaces.value.1)
    requires toNew.spaces.value.1 != toOld.spaces.value.1 && toOld.spaces.value.1 != SPACE_UNKNOWN
    requires QueueAt(d, toOld, Backfill) != [] && QueueAt(d, toOld, Backfill)[0] == other
    requires EmbedsIn(d, toOld, other, v, toOld.spaces.value.1)
    ensures var e := Run(RunTrace(d, [PassUpTo(toNew, 2), PassUpTo(toOld, 7)]), d);
      && HasState(e.ukg, id, Done) && !Has(e.image, id) && Has(e.image, other)
      && !Member(e.ukg, Backfill, id) && !Member(e.ukg, Fresh, id)
      && e.image.spaceId == Some(toOld.spaces.value.1) && !Recoverable(e, Image)
  {
    var mid := Emptied(d, toNew.spaces.value.1);
    StoppedAfterClear(d, toNew);
    FirstIsMember(d, toOld, other);
    var e := BackInTheOldSpace(mid, toOld, other, v);
    Lost(d, mid, toOld.now, id, other, v);
    TwoSteps(d, mid, e, PassUpTo(toNew, 2), PassUpTo(toOld, 7));
  }

  lemma Lost(d: Disk, mid: Disk, now: int, id: i64, other: i64, v: Vector)
    requires HasState(d.ukg, id, Done) && Processed(d.ukg, id) && Member(d.ukg, Backfill, other) && !d.owed
    requires mid.ukg == d.ukg && mid.image.rows == [] && mid.image.spaceId == Some(v.space)
    ensures var e := OneEmbedded(mid, now, other, v);
      && HasState(e.ukg, id, Done) && !Has(e.image, id) && Has(e.image, other)
      && !Member(e.ukg, Backfill, id) && !Member(e.ukg, Fresh, id)
      && e.image.spaceId == Some(v.space) && !Recoverable(e, Image)
  {
    var e := OneEmbedded(mid, now, other, v);
    HasInsert(mid.image, other, v);
    assert e.image == Insert(mid.image, other, v);
    assert e.ukg.captures == d.ukg.captures && e.ukg.images[id] == d.ukg.images[id];
  }

  /** The capture's screenshot is readable and its vector usable, in `space`. */
  ghost predicate EmbedsIn(d: Disk, env: Env, id: i64, v: Vector, space: string) {
    && Timestamp(d.ukg, id).Some? && env.screenshot(id).Jpeg?
    && env.image(id) == Embedded(v) && v.space == space && |v.coords| == env.dim
  }

  lemma FirstIsMember(d: Disk, env: Env, other: i64)
    requires QueueAt(d, env, Backfill) != [] && QueueAt(d, env, Backfill)[0] == other
    ensures Member(d.ukg, Backfill, other)
  {
    BatchIsFair(d.ukg, Backfill, env.now - RETRY_BACKOFF_TICKS, BATCH);
    assert other in QueueAt(d, env, Backfill);
  }

  function Emptied(d: Disk, goal: string): Disk {
    d.(image := d.image.(rows := []), goals := d.goals[Image := goal])
  }

  lemma StoppedAfterClear(d: Disk, env: Env)
    requires env.spaces.Some?
    requires d.text.spaceId == Some(env.spaces.value.0) && SpaceMismatch(d.image, env.spaces.value.1)
    requires !d.owed
    ensures Run(StepTrace(d, PassUpTo(env, 2)), d) == Emptied(d, env.spaces.value.1)
  {
    var (t, i) := env.spaces.value;
    var begin := Prologue(d, env.spaces);
    assert |begin| >= 2 && begin[0] == SetSpace(Text, t) && begin[1] == Clear(Image, i) by {
      assert env.spaces == Some((t, i));
      StartOfRebuild(d, t, i);
    }
    Cut2(d, env, begin);
    Relabel(d, Text, t);
    Cleared(d, i);
  }

  lemma Cleared(d: Disk, i: string)
    requires !d.owed
    ensures Apply(Restart, Apply(Clear(Image, i), d)) == Emptied(d, i)
  {
  }

  /** The state after one image of queue 1 was embedded. */
  function OneEmbedded(d: Disk, now: int, id: i64, v: Vector): Disk {
    d.(ukg := SetImage(TouchAttempt(d.ukg, id, now), id, Done, Attempts(d, id) + 1),
       image := Insert(d.image, id, v),
       asked := d.asked - {(Text, id), (Image, id)} + {(Image, id)})
  }

  lemma EmbedOne(d: Disk, env: Env, id: i64, v: Vector)
    requires d.image.rows == [] && d.image.spaceId == Some(v.space) && Member(d.ukg, Backfill, id)
    requires EmbedsIn(d, env, id, v, v.space)
    ensures var (es, leg) := BackfillOne(d, env, id);
      |es| == 5 && leg == LegDone && Run(es, d) == OneEmbedded(d, env.now, id, v)
  {
    var n := Attempts(d, id);
    var d1 := Apply(Touch(id, env.now), d);
    assert Attempts(d1, id) == n && !Has(d1.image, id) && Timestamp(d1.ukg, id).Some?;
    assert StepOf(d1, env, id) == ([], Embed(n));
    assert Install(d1.image, Image, v.space) == [SetSpace(Image, v.space)];
    assert BackfillOne(d, env, id).0 == FiveEvents(env.now, id, v, n);
    FiveRun(d, env.now, id, v, n);
  }

  function FirstTwo(now: int, id: i64): seq<Event> {
    [Touch(id, now), Ask(Image, id, now)]
  }

  function LastThree(id: i64, v: Vector, n: int): seq<Event> {
    [SetSpace(Image, v.space), InsertRow(Image, id, v), SetState(id, Done, n + 1)]
  }

  function FiveEvents(now: int, id: i64, v: Vector, n: int): seq<Event> {
    FirstTwo(now, id) + LastThree(id, v, n)
  }

  lemma FiveRun(d: Disk, now: int, id: i64, v: Vector, n: int)
    requires d.image.spaceId == Some(v.space) && n == Attempts(d, id)
    ensures Run(FiveEvents(now, id, v, n), d) == OneEmbedded(d, now, id, v)
  {
    var d2 := FirstTwoRun(d, now, id);
    LastThreeRun(d2, id, v, n);
    RunAppend(FirstTwo(now, id), LastThree(id, v, n), d);
  }

  lemma FirstTwoRun(d: Disk, now: int, id: i64) returns (e: Disk)
    ensures e == d.(ukg := TouchAttempt(d.ukg, id, now), asked := d.asked - {(Text, id), (Image, id)} + {(Image, id)})
    ensures e == Run(FirstTwo(now, id), d)
  {
    Run2(Touch(id, now), Ask(Image, id, now), d);
    e := Apply(Ask(Image, id, now), Apply(Touch(id, now), d));
  }

  lemma LastThreeRun(d: Disk, id: i64, v: Vector, n: int)
    requires d.image.spaceId == Some(v.space)
    ensures Run(LastThree(id, v, n), d) == d.(image := Insert(d.image, id, v), ukg := SetImage(d.ukg, id, Done, n + 1))
  {
    Run3(SetSpace(Image, v.space), InsertRow(Image, id, v), SetState(id, Done, n + 1), d);
    Relabel(d, Image, v.space);
  }

  lemma BackInTheOldSpace(d: Disk, env: Env, other: i64, v: Vector) returns (e: Disk)
    requires env.spaces.Some?
    requires d.text.spaceId == Some(env.spaces.value.0) && d.image.spaceId == Some(env.spaces.value.1)
    requires !d.owed && !Raised(d, Text) && !Raised(d, Image) && d.image.rows == []
    requires QueueAt(d, env, Backfill) != [] && QueueAt(d, env, Backfill)[0] == other
    requires Member(d.ukg, Backfill, other) && EmbedsIn(d, env, other, v, env.spaces.value.1)
    ensures e == OneEmbedded(d, env.now, other, v) == Run(StepTrace(d, PassUpTo(env, 7)), d)
  {
    e := OneEmbedded(d, env.now, other, v);
    var pass, done := SevenEvents(d, env, other, v);
    StopHere(d, env, 7, pass, done, e);
  }

  lemma SevenEvents(d: Disk, env: Env, other: i64, v: Vector)
    returns (pass: seq<Event>, done: seq<Event>)
    requires env.spaces.Some?
    requires d.text.spaceId == Some(env.spaces.value.0) && d.image.spaceId == Some(env.spaces.value.1)
    requires !d.owed && !Raised(d, Text) && !Raised(d, Image) && d.image.rows == []
    requires QueueAt(d, env, Backfill) != [] && QueueAt(d, env, Backfill)[0] == other
    requires Member(d.ukg, Backfill, other) && EmbedsIn(d, env, other, v, env.spaces.value.1)
    ensures pass == Pass(d, env) && done == Take(pass, 7) && Run(done, d) == OneEmbedded(d, env.now, other, v)
  {
    var one, rest := FirstEmbeds(d, env, other, v);
    var begin := PassInTheOldSpace(d, env);
    pass, done := begin + (one + rest), begin + one;
    TakeBoth(begin, one, rest);
    RunBoth(d, begin, one);
  }

  /** Queue 1 begins with five events that embed its first capture. */
  lemma FirstEmbeds(d: Disk, env: Env, other: i64, v: Vector) returns (one: seq<Event>, rest: seq<Event>)
    requires d.image.rows == [] && d.image.spaceId == Some(v.space) && Member(d.ukg, Backfill, other)
    requires EmbedsIn(d, env, other, v, v.space)
    requires QueueAt(d, env, Backfill) != [] && QueueAt(d, env, Backfill)[0] == other
    ensures Work(d, env) == one + rest && |one| == 5 && Run(one, d) == OneEmbedded(d, env.now, other, v)
  {
    EmbedOne(d, env, other, v);
    one := BackfillOne(d, env, other).0;
    rest := FirstOfQueue(d, env, other);
  }

  lemma RunBoth(d: Disk, begin: seq<Event>, one: seq<Event>)
    requires Run(begin, d) == d
    ensures Run(begin + one, d) == Run(one, d)
  {
    RunAppend(begin, one, d);
  }

  lemma TakeBoth(a: seq<Event>, b: seq<Event>, c: seq<Event>)
    ensures Take(a + (b + c), |a| + |b|) == a + b
  {
    assert (a + (b + c))[..|a| + |b|] == a + b;
  }

  lemma RestartAfter(d: Disk, done: seq<Event>, e: Disk)
    requires Run(done, d) == e && !e.owed
    ensures Run(done + [Restart], d) == e
  {
    RunAppend(done, [Restart], d);
    Run1(Restart, e);
  }

  lemma StoppedAt(d: Disk, env: Env, cut: nat, pass: seq<Event>, done: seq<Event>)
    requires pass == Pass(d, env) && Take(pass, cut) == done
    ensures StepTrace(d, PassUpTo(env, cut)) == done + [Restart]
  {
  }

  lemma StopHere(d: Disk, env: Env, cut: nat, pass: seq<Event>, done: seq<Event>, e: Disk)
    requires pass == Pass(d, env) && Take(pass, cut) == done && Run(done, d) == e && !e.owed
    ensures Run(StepTrace(d, PassUpTo(env, cut)), d) == e
  {
    StoppedAt(d, env, cut, pass, done);
    RestartAfter(d, done, e);
  }

  lemma PassInTheOldSpace(d: Disk, env: Env) returns (begin: seq<Event>)
    requires env.spaces.Some?
    requires d.text.spaceId == Some(env.spaces.value.0) && d.image.spaceId == Some(env.spaces.value.1)
    requires !Raised(d, Text) && !Raised(d, Image)
    ensures |begin| == 2 && Run(begin, d) == d && Pass(d, env) == begin + Work(d, env)
  {
    var (t, i) := env.spaces.value;
    assert env.spaces == Some((t, i));
    begin := [SetSpace(Text, t), SetSpace(Image, i)];
    PlainPrologue(d, t, i);
    Run2(begin[0], begin[1], d);
    Relabel(d, Text, t);
    Relabel(d, Image, i);
  }

  lemma PlainPrologue(d: Disk, t: string, i: string)
    requires d.text.spaceId == Some(t) && d.image.spaceId == Some(i)
    requires !Raised(d, Text) && !Raised(d, Image)
    ensures Prologue(d, Some((t, i))) == [SetSpace(Text, t), SetSpace(Image, i)]
  {
    assert Install(d.text, Text, t) == [SetSpace(Text, t)];
    assert Install(d.image, Image, i) == [SetSpace(Image, i)];
  }

  lemma FirstOfLoop(d: Disk, env: Env, ids: seq<i64>) returns (rest: seq<Event>)
    requires ids != []
    ensures BackfillLoop(d, env, ids).0 == BackfillOne(d, env, ids[0]).0 + rest
  {
    var (one, leg) := BackfillOne(d, env, ids[0]);
    rest := if leg == Unavailable then [] else BackfillLoop(Run(one, d), env, ids[1..]).0;
    assert one + [] == one;
  }

  /** The work of a pass begins with the first capture of queue 1. */
  lemma FirstOfQueue(d: Disk, env: Env, other: i64) returns (rest: seq<Event>)
    requires QueueAt(d, env, Backfill) != [] && QueueAt(d, env, Backfill)[0] == other
    ensures Work(d, env) == BackfillOne(d, env, other).0 + rest
  {
    var (first, stop) := BackfillLoop(d, env, QueueAt(d, env, Backfill));
    var more := FirstOfLoop(d, env, QueueAt(d, env, Backfill));
    var second := FreshLoop(Run(first, d), env, QueueAt(d, env, Fresh), stop);
    rest := more + second;
    Regrouped(BackfillOne(d, env, other).0, more, second);
  }

  lemma Regrouped(a: seq<Event>, b: seq<Event>, c: seq<Event>)
    ensures a + b + c == a + (b + c)
  {
  }

  /** Writing the label a store already has changes nothing. */
  lemma Relabel(d: Disk, leg: Leg, space: string)
    requires StoreOf(d, leg).spaceId == Some(space)
    ensures Apply(SetSpace(leg, space), d) == d
  {
  }

  lemma TwoSteps(d: Disk, mid: Disk, e: Disk, s0: Step, s1: Step)
    requires mid == Run(StepTrace(d, s0), d) && e == Run(StepTrace(mid, s1), mid)
    ensures Run(RunTrace(d, [s0, s1]), d) == e
  {
    assert [s0, s1][1..] == [s1] && [s1][1..] == [];
    assert RunTrace(e, []) == [];
    assert RunTrace(mid, [s1]) == StepTrace(mid, s1) + [];
    assert StepTrace(mid, s1) + [] == StepTrace(mid, s1);
    RunAppend(StepTrace(d, s0), RunTrace(mid, [s1]), d);
  }

  // ------------------------------------------------------------ the flag's gap

  /** Stopping between lowering the text flag and re-queueing loses the text of a
      capture that only the flag covered: it is processed, and no later rebuild
      is bound to notice. */
  lemma FlagGapLosesAText(d: Disk, id: i64, env: Env)
    requires Raised(d, Text) && !d.owed
    requires env.spaces.Some?
    requires d.text.spaceId == Some(env.spaces.value.0) && d.image.spaceId == Some(env.spaces.value.1)
    requires Processed(d.ukg, id) && OcrText(d.ukg, id) != "" && !Has(d.text, id) && id !in d.refused
    requires d.text.rows != []
    ensures Recoverable(d, Text) && !Recoverable(Run(StepTrace(d, PassUpTo(env, 3)), d), Text)
  {
    var t, i := env.spaces.value.0, env.spaces.value.1;
    var down := Lower(Text)[0];
    StartOfPlainPass(d, t, i);
    Cut3(d, env, Prologue(d, env.spaces));
    Relabel(d, Text, t);
    Relabel(d, Image, i);
    FlagDropped(d, id);
  }

  lemma FlagDropped(d: Disk, id: i64)
    requires Raised(d, Text) && Processed(d.ukg, id) && d.text.rows != []
    requires OcrText(d.ukg, id) != "" && !Has(d.text, id) && id !in d.refused
    ensures Sound(d, Text) && !Recoverable(Apply(Restart, Apply(Lower(Text)[0], d)), Text)
  {
    OnceLowered(d);
    var e := Apply(Restart, Apply(Lower(Text)[0], d));
    assert e.text == d.text && !e.owed;
  }

  /** Once the flag is down, what it covered is what has neither row nor refusal. */
  lemma OnceLowered(d: Disk)
    ensures var e := Apply(Restart, Apply(SetFlag(Text, false), d));
      Sound(e, Text) <==>
        forall id :: Processed(d.ukg, id) ==> OcrText(d.ukg, id) == "" || Has(d.text, id) || id in d.refused
  {
    var e := Apply(Restart, Apply(SetFlag(Text, false), d));
    forall id ensures TextSettled(e, id) <==> OcrText(d.ukg, id) == "" || Has(d.text, id) || id in d.refused {
      assert !Raised(e, Text);
    }
    forall id ensures Processed(e.ukg, id) <==> Processed(d.ukg, id) {
    }
  }

  /** A pass may stop anywhere but in the gap, and there too if the text store is
      being rebuilt, stands emptied for another space, or lacks nothing; otherwise
      the text leg is beyond recovery. */
  lemma FlagGapExactly(d: Disk, dim: nat, env: Env, cut: nat)
    requires Inv(d, dim) && Restartable(d) && Honest(env) && env.dim == dim && PassResumes(d, env)
    ensures Recoverable(Run(StepTrace(d, PassUpTo(env, cut)), d), Text) <==>
      || !InGap(d, env, cut)
      || SpaceMismatch(d.text, env.spaces.value.0)
      || (d.text.rows == [] && Text in d.goals && d.goals[Text] != env.spaces.value.0)
      || forall id :: Processed(d.ukg, id) ==> OcrText(d.ukg, id) == "" || Has(d.text, id) || id in d.refused
  {
    if InGap(d, env, cut) {
      var (t, i) := env.spaces.value;
      StoppedInGap(d, env, cut);
      TextBeforeGap(d, t, i);
      LeftInGap(d, Run(Install(d.text, Text, t) + Install(d.image, Image, i), d), t);
    } else {
      StepRestartable(d, dim, PassUpTo(env, cut));
    }
  }

  lemma LeftInGap(d: Disk, d2: Disk, t: string)
    requires t != SPACE_UNKNOWN
    requires SpaceMismatch(d.text, t) ==> forall id :: !Processed(d2.ukg, id)
    requires !SpaceMismatch(d.text, t) ==> TextPart(d.(text := d.text.(spaceId := Some(t))), d2)
    ensures var e := Apply(Restart, Apply(SetFlag(Text, false), d2));
      Recoverable(e, Text) <==>
        || SpaceMismatch(d.text, t)
        || (d.text.rows == [] && Text in d.goals && d.goals[Text] != t)
        || forall id :: Processed(d.ukg, id) ==> OcrText(d.ukg, id) == "" || Has(d.text, id) || id in d.refused
  {
    OnceLowered(d2);
    if !SpaceMismatch(d.text, t) {
      assert d2.text.rows == d.text.rows && forall id :: Has(d2.text, id) == Has(d.text, id);
      assert forall id :: Processed(d2.ukg, id) == Processed(d.ukg, id);
      assert forall id :: OcrText(d2.ukg, id) == OcrText(d.ukg, id);
    }
  }

  lemma StoppedInGap(d: Disk, env: Env, cut: nat)
    requires InGap(d, env, cut)
    ensures var (t, i) := env.spaces.value;
      var d2 := Run(Install(d.text, Text, t) + Install(d.image, Image, i), d);
      Run(StepTrace(d, PassUpTo(env, cut)), d) == Apply(Restart, Apply(SetFlag(Text, false), d2))
  {
    var front, rest := PassAroundGap(d, env);
    var down := Lower(Text)[0];
    assert Take(Pass(d, env), cut) == front + [down];
    RunAppend(front, [down], d);
    RunAppend(front + [down], [Restart], d);
    Run1(down, Run(front, d));
    Run1(Restart, Run(front + [down], d));
  }

  /** What the text leg looks like just before the gap. */
  lemma TextBeforeGap(d: Disk, t: string, i: string)
    ensures var d2 := Run(Install(d.text, Text, t) + Install(d.image, Image, i), d);
      && (SpaceMismatch(d.text, t) ==> forall id :: !Processed(d2.ukg, id))
      && (!SpaceMismatch(d.text, t) ==> TextPart(d.(text := d.text.(spaceId := Some(t))), d2))
  {
    var d1 := Run(Install(d.text, Text, t), d);
    RunAppend(Install(d.text, Text, t), Install(d.image, Image, i), d);
    InstallThenInsert(d, Text, 0, Vector(t, []));
    InstallFrame(d1, Image, i);
    assert d1.image == d.image by { InstallFrame(d, Text, t); }
  }

  // --------------------------------------------------------- the placeholder space

  lemma RowsAfter(d: Disk, id: i64, v: Vector)
    ensures var e := Run(Install(d.text, Text, v.space) + [InsertRow(Text, id, v)], d);
      && e.text.rows == (if SpaceMismatch(d.text, v.space) then [] else d.text.rows) + [Row(id, v)]
      && e.text.spaceId == Some(v.space)
  {
    InstallThenInsert(d, Text, id, v);
  }

  /** An embedder that called its space "unknown" would end up mixed with the
      next space: the label then never reads as a mismatch. */
  lemma PlaceholderSpaceMixes(d: Disk, v: Vector, w: Vector)
    requires d.text.rows == [] && d.text.spaceId.Some? && d.text.spaceId.value != SPACE_UNKNOWN
    requires v.space == SPACE_UNKNOWN && w.space != SPACE_UNKNOWN
    ensures var es := Install(d.text, Text, v.space) + [InsertRow(Text, 1, v)];
      var d1 := Run(es, d);
      var d2 := Run(Install(d1.text, Text, w.space) + [InsertRow(Text, 2, w)], d1);
      d2.text.rows == [Row(1, v), Row(2, w)]
  {
    var es := Install(d.text, Text, v.space) + [InsertRow(Text, 1, v)];
    RowsAfter(d, 1, v);
    RowsAfter(Run(es, d), 2, w);
  }
}
