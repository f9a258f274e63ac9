/** Whole runs: passes that may stop after any write, captures arriving in
    between, spaces and services changing at will. */
module Runs {
  import opened Prelude
  import opened Semantic
  import opened UkgDb
  import opened Protocol
  import opened Enrichment
  import opened Safety
  import opened PassSafety
  import opened FlagGap

  /** A pass of which `cut` events happen before the process stops (all of them
      when `cut` is large enough), or a capture stored by the broker. */
  datatype Step = PassUpTo(env: Env, cut: nat) | NewCapture(id: i64, capture: Capture)

  ghost function StepTrace(d: Disk, s: Step): seq<Event> {
    match s
    case PassUpTo(env, cut) => Take(Pass(d, env), cut) + [Restart]
    case NewCapture(id, c) => [Arrive(id, c)]
  }

  ghost function RunTrace(d: Disk, steps: seq<Step>): seq<Event>
    decreases |steps|
  {
    if steps == [] then []
    else StepTrace(d, steps[0]) + RunTrace(Run(StepTrace(d, steps[0]), d), steps[1..])
  }

  ghost predicate LegalStep(d: Disk, dim: nat, s: Step) {
    match s
    case PassUpTo(env, _) => Honest(env) && env.dim == dim
    case NewCapture(id, c) => id !in d.ukg.captures && !c.processed
  }

  /** The two things that crash safety asks of the outside: while a rebuild stands
      interrupted no answer comes in the space it abandons, and the process does
      not stop between lowering the text flag and re-queueing. */
  ghost predicate Heeds(d: Disk, s: Step) {
    match s
    case PassUpTo(env, cut) => PassResumes(d, env) && !InGap(d, env, cut)
    case NewCapture(_, _) => true
  }

  ghost predicate LegalRun(d: Disk, dim: nat, steps: seq<Step>)
    decreases |steps|
  {
    steps == [] || (LegalStep(d, dim, steps[0]) && LegalRun(Run(StepTrace(d, steps[0]), d), dim, steps[1..]))
  }

  ghost predicate HeedfulRun(d: Disk, steps: seq<Step>)
    decreases |steps|
  {
    steps == [] || (Heeds(d, steps[0]) && HeedfulRun(Run(StepTrace(d, steps[0]), d), steps[1..]))
  }

  lemma StepLawful(d: Disk, dim: nat, careful: bool, s: Step)
    requires Inv(d, dim) && LegalStep(d, dim, s) && (careful ==> Restartable(d) && Heeds(d, s))
    ensures Lawful(d, dim, careful, StepTrace(d, s))
  {
    match s
    case PassUpTo(env, cut) =>
      var pass := Pass(d, env);
      var done := Take(pass, cut);
      PassConduct(d, dim, careful, env);
      assert pass == done + pass[|done|..];
      LawfulAppend(d, dim, careful, done, pass[|done|..]);
      if careful { OwedExactly(d, env, cut); }
      LawfulOne(Run(done, d), dim, careful, Restart);
      LawfulAppend(d, dim, careful, done, [Restart]);
    case NewCapture(id, c) =>
      LawfulOne(d, dim, careful, Arrive(id, c));
  }

  /** Every step ends with nothing owed: a fresh process owes nothing. */
  lemma StepOwesNothing(d: Disk, s: Step)
    requires !d.owed
    ensures !Run(StepTrace(d, s), d).owed
  {
    match s
    case PassUpTo(env, cut) =>
      RunAppend(Take(Pass(d, env), cut), [Restart], d);
      Run1(Restart, Run(Take(Pass(d, env), cut), d));
    case NewCapture(id, c) =>
      Run1(Arrive(id, c), d);
  }

  lemma StepRestartable(d: Disk, dim: nat, s: Step)
    requires Inv(d, dim) && Restartable(d) && LegalStep(d, dim, s) && Heeds(d, s)
    ensures Restartable(Run(StepTrace(d, s), d))
  {
    StepLawful(d, dim, true, s);
    StepOwesNothing(d, s);
    LawfulKeepsRecoverable(d, dim, StepTrace(d, s), Text);
    LawfulKeepsRecoverable(d, dim, StepTrace(d, s), Image);
  }

  lemma {:induction false} RunLawful(d: Disk, dim: nat, careful: bool, steps: seq<Step>)
    requires Inv(d, dim) && LegalRun(d, dim, steps)
    requires careful ==> Restartable(d) && HeedfulRun(d, steps)
    ensures Lawful(d, dim, careful, RunTrace(d, steps))
    decreases |steps|
  {
    if steps != [] {
      var es := StepTrace(d, steps[0]);
      StepLawful(d, dim, careful, steps[0]);
      LawfulKeepsInv(d, dim, careful, es);
      if careful { StepRestartable(d, dim, steps[0]); }
      RunLawful(Run(es, d), dim, careful, steps[1..]);
      LawfulAppend(d, dim, careful, es, RunTrace(Run(es, d), steps[1..]));
    }
  }

  // ------------------------------------------------------------- safety of runs

  /** Wherever a run stops: each vector store holds one space, which is its label
      whenever it has rows; no capture has two embeddings in a store; and no image
      is both skipped and embedded. */
  lemma StoresStayCoherent(d: Disk, dim: nat, steps: seq<Step>)
    requires Inv(d, dim) && LegalRun(d, dim, steps)
    ensures var e := Run(RunTrace(d, steps), d);
      && (forall leg: Leg, i :: 0 <= i < |StoreOf(e, leg).rows| ==>
            && StoreOf(e, leg).spaceId == Some(StoreOf(e, leg).rows[i].vector.space)
            && |StoreOf(e, leg).rows[i].vector.coords| == dim)
      && (forall leg: Leg, i, j :: 0 <= i < j < |StoreOf(e, leg).rows| ==>
            StoreOf(e, leg).rows[i].capture != StoreOf(e, leg).rows[j].capture)
      && (forall id :: !(Has(e.image, id) && HasState(e.ukg, id, Skipped)))
  {
    RunLawful(d, dim, false, steps);
    LawfulKeepsInv(d, dim, false, RunTrace(d, steps));
  }

  /** Wherever a heedful run stops, each leg is sound, or its store is empty and its
      label differs from the space for which it was cleared. */
  lemma {:induction false} CrashesAreRecoverable(d: Disk, dim: nat, steps: seq<Step>)
    requires Inv(d, dim) && Restartable(d)
    requires LegalRun(d, dim, steps) && HeedfulRun(d, steps)
    ensures var e := Run(RunTrace(d, steps), d);
      && (forall leg :: Sound(e, leg)
            || (StoreOf(e, leg).rows == [] && leg in e.goals && SpaceMismatch(StoreOf(e, leg), e.goals[leg])))
      && Inv(e, dim) && Restartable(e)
  {
    RunLawful(d, dim, true, steps);
    LawfulKeepsInv(d, dim, true, RunTrace(d, steps));
    LawfulKeepsRecoverable(d, dim, RunTrace(d, steps), Text);
    LawfulKeepsRecoverable(d, dim, RunTrace(d, steps), Image);
    NeverOwed(d, steps);
    var e := Run(RunTrace(d, steps), d);
    forall leg ensures Sound(e, leg) || Interrupted(e, leg) {
      assert leg == Text || leg == Image;
    }
  }

  lemma {:induction false} NeverOwed(d: Disk, steps: seq<Step>)
    requires !d.owed
    ensures !Run(RunTrace(d, steps), d).owed
    decreases |steps|
  {
    if steps != [] {
      var es := StepTrace(d, steps[0]);
      StepOwesNothing(d, steps[0]);
      NeverOwed(Run(es, d), steps[1..]);
      RunAppend(es, RunTrace(Run(es, d), steps[1..]), d);
    }
  }

  /** Inside a rebuild: at every write, the leg is sound, or its store is empty and
      still carries a label other than the space being installed. */
  lemma MidRebuild(d: Disk, leg: Leg, space: string, n: nat)
    requires Sound(d, leg)
    ensures var e := Run(Take(Install(StoreOf(d, leg), leg, space), n), d);
      Sound(e, leg) || (StoreOf(e, leg).rows == [] && SpaceMismatch(StoreOf(e, leg), space))
  {
    var es := Install(StoreOf(d, leg), leg, space);
    if SpaceMismatch(StoreOf(d, leg), space) {
      var d1 := Apply(Clear(leg, space), d);
      var d2 := Apply(Requeue(leg), d1);
      RequeueSound(d, leg, space);
      Run1(Clear(leg, space), d);
      Run2(Clear(leg, space), Requeue(leg), d);
      Run3(Clear(leg, space), Requeue(leg), SetSpace(leg, space), d);
      LabelKeepsSound(d2, leg, space);
      assert n == 1 ==> Take(es, n) == [Clear(leg, space)];
      assert n == 2 ==> Take(es, n) == [Clear(leg, space), Requeue(leg)];
      assert n >= 3 ==> Take(es, n) == es;
    } else {
      Run1(SetSpace(leg, space), d);
      LabelKeepsSound(d, leg, space);
      assert n >= 1 ==> Take(es, n) == [SetSpace(leg, space)];
    }
  }

  lemma LabelKeepsSound(d: Disk, leg: Leg, space: string)
    requires Sound(d, leg)
    ensures Sound(Apply(SetSpace(leg, space), d), leg)
  {
  }

  /** A completed pass that resumes what it found leaves each leg sound, if its
      start already made it sound. */
  lemma CompletedPassIsSound(d: Disk, dim: nat, env: Env, leg: Leg)
    requires Inv(d, dim) && Restartable(d) && Honest(env) && env.dim == dim && PassResumes(d, env)
    requires Sound(Run(Prologue(d, env.spaces), d), leg)
    ensures Sound(Run(Pass(d, env), d), leg)
  {
    var begin := Prologue(d, env.spaces);
    var e := Run(begin, d);
    PrologueConduct(d, dim, true, env.spaces);
    LawfulKeepsRecoverable(d, dim, begin, Text);
    LawfulKeepsRecoverable(d, dim, begin, Image);
    WorkConduct(e, dim, true, env);
    RunAppend(begin, Work(e, env), d);
  }

  /** The start of a pass repairs an interrupted rebuild exactly when the reported
      space is not the one the emptied store still names (an image leg is also
      repaired by a raised flag, which re-queues everything). */
  lemma ResumptionExactly(d: Disk, dim: nat, t: string, i: string)
    requires Inv(d, dim) && Restartable(d) && t != SPACE_UNKNOWN && i != SPACE_UNKNOWN
    ensures var e := Run(Prologue(d, Some((t, i))), d);
      && (Sound(e, Text) <==> Sound(d, Text) || d.text.spaceId != Some(t))
      && (Sound(e, Image) <==> Sound(d, Image) || d.image.spaceId != Some(i) || Raised(d, Image))
  {
    PrologueRestores(d, dim, t, i);
    if !Sound(d, Text) && d.text.spaceId == Some(t) {
      StaysUnsoundText(d, t, i);
    }
    if !Sound(d, Image) && d.image.spaceId == Some(i) && !Raised(d, Image) {
      StaysUnsoundImage(d, t, i);
    }
  }

  lemma PrologueRestores(d: Disk, dim: nat, t: string, i: string)
    requires Inv(d, dim) && Restartable(d) && t != SPACE_UNKNOWN && i != SPACE_UNKNOWN
    ensures var e := Run(Prologue(d, Some((t, i))), d);
      && (Sound(d, Text) || d.text.spaceId != Some(t) ==> Sound(e, Text))
      && (Sound(d, Image) || d.image.spaceId != Some(i) || Raised(d, Image) ==> Sound(e, Image))
  {
    var a, b := Install(d.text, Text, t), Install(d.image, Image, i);
    var c := if Raised(d, Text) then Lower(Text) else [];
    var f := if Raised(d, Image) then Lower(Image) else [];
    var d2 := BothInstalled(d, dim, t, i);
    var d3 := Run(c, d2);
    RunAppend(a + b, c, d);
    RunAppend(a + b + c, f, d);
    LowerIf(d2, dim, true, Text, c);
    LowerIf(d3, dim, true, Image, f);
  }

  lemma BothInstalled(d: Disk, dim: nat, t: string, i: string) returns (d2: Disk)
    requires Inv(d, dim) && Restartable(d) && t != SPACE_UNKNOWN && i != SPACE_UNKNOWN
    ensures d2 == Run(Install(d.text, Text, t) + Install(d.image, Image, i), d)
    ensures Inv(d2, dim)
    ensures Sound(d, Text) || d.text.spaceId != Some(t) ==> Sound(d2, Text)
    ensures Sound(d, Image) || d.image.spaceId != Some(i) ==> Sound(d2, Image)
  {
    var a, b := Install(d.text, Text, t), Install(d.image, Image, i);
    InstallConduct(d, dim, true, Text, t);
    var d1 := Run(a, d);
    LawfulKeepsRecoverable(d, dim, a, Image);
    InstallConduct(d1, dim, true, Image, i);
    RunAppend(a, b, d);
    d2 := Run(b, d1);
  }

  /** A next pass that sees, for each leg that is not sound, a space other than the
      one its emptied store names, ends with both legs sound. */
  lemma NextPassRestores(d: Disk, dim: nat, env: Env)
    requires Inv(d, dim) && Restartable(d) && Honest(env) && env.dim == dim && env.spaces.Some?
    requires Sound(d, Text) || d.text.spaceId != Some(env.spaces.value.0)
    requires Sound(d, Image) || d.image.spaceId != Some(env.spaces.value.1)
    ensures var e := Run(Pass(d, env), d);
      Sound(e, Text) && Sound(e, Image)
  {
    var (t, i) := env.spaces.value;
    assert env.spaces == Some((t, i));
    PrologueRestores(d, dim, t, i);
    assert PassResumes(d, env);
    CompletedPassIsSound(d, dim, env, Text);
    CompletedPassIsSound(d, dim, env, Image);
  }

  function Reported(env: Env, leg: Leg): string
    requires env.spaces.Some?
  {
    if leg == Text then env.spaces.value.0 else env.spaces.value.1
  }

  /** After any heedful run, wherever it stopped, one completed pass that reports,
      for each leg left unfinished, any space but the abandoned one ends with both
      legs sound. */
  lemma HeedfulRunsEndSound(d: Disk, dim: nat, steps: seq<Step>, env: Env)
    requires Inv(d, dim) && Restartable(d) && LegalRun(d, dim, steps) && HeedfulRun(d, steps)
    requires Honest(env) && env.dim == dim && env.spaces.Some?
    requires var e := Run(RunTrace(d, steps), d);
      forall leg :: Sound(e, leg) || StoreOf(e, leg).spaceId != Some(Reported(env, leg))
    ensures var e := Run(RunTrace(d, steps), d);
      forall leg :: Sound(Run(Pass(e, env), e), leg)
  {
    var e := Run(RunTrace(d, steps), d);
    CrashesAreRecoverable(d, dim, steps);
    assert Sound(e, Text) || StoreOf(e, Text).spaceId != Some(Reported(env, Text));
    assert Sound(e, Image) || StoreOf(e, Image).spaceId != Some(Reported(env, Image));
    NextPassRestores(e, dim, env);
    forall leg ensures Sound(Run(Pass(e, env), e), leg) {
      assert leg == Text || leg == Image;
    }
  }

  /** In particular a pass that sees the space for which each unfinished leg was
      cleared. */
  lemma TargetPassRestores(d: Disk, dim: nat, steps: seq<Step>, env: Env)
    requires Inv(d, dim) && Restartable(d) && LegalRun(d, dim, steps) && HeedfulRun(d, steps)
    requires Honest(env) && env.dim == dim && env.spaces.Some?
    requires var e := Run(RunTrace(d, steps), d);
      forall leg :: Sound(e, leg) || (leg in e.goals && Reported(env, leg) == e.goals[leg])
    ensures var e := Run(RunTrace(d, steps), d);
      forall leg :: Sound(Run(Pass(e, env), e), leg)
  {
    CrashesAreRecoverable(d, dim, steps);
    HeedfulRunsEndSound(d, dim, steps, env);
  }

  // ------------------------------------------------------- runs without crashes

  ghost predicate Completes(d: Disk, s: Step) {
    s.PassUpTo? ==> s.cut >= |Pass(d, s.env)|
  }

  ghost predicate CompletedRun(d: Disk, steps: seq<Step>)
    decreases |steps|
  {
    steps == [] || (Completes(d, steps[0]) && CompletedRun(Run(StepTrace(d, steps[0]), d), steps[1..]))
  }

  ghost predicate Settled(d: Disk) {
    !d.owed && Sound(d, Text) && Sound(d, Image)
  }

  /** From a settled state nothing can be overtaken, whatever the answers. */
  lemma SettledResumes(d: Disk, dim: nat, env: Env)
    requires Inv(d, dim) && Settled(d) && Honest(env) && env.dim == dim
    ensures PassResumes(d, env) && Settled(Run(Pass(d, env), d))
  {
    PrologueConduct(d, dim, true, env.spaces);
    PassConduct(d, dim, true, env);
  }

  lemma RestartKeepsSound(d: Disk, es: seq<Event>)
    requires Settled(Run(es, d))
    ensures Settled(Run(es + [Restart], d))
  {
    var e := Run(es, d);
    RunAppend(es, [Restart], d);
    Run1(Restart, e);
    assert Apply(Restart, e) == e;
  }

  lemma CompletedStepSettles(d: Disk, dim: nat, s: Step)
    requires Inv(d, dim) && Settled(d) && LegalStep(d, dim, s) && Completes(d, s)
    ensures Settled(Run(StepTrace(d, s), d))
  {
    match s
    case PassUpTo(env, cut) =>
      SettledResumes(d, dim, env);
      RestartKeepsSound(d, Pass(d, env));
    case NewCapture(id, c) =>
      Run1(Arrive(id, c), d);
      ArrivalKeepsSound(d, id, c);
  }

  lemma ArrivalKeepsSound(d: Disk, id: i64, c: Capture)
    requires Settled(d) && id !in d.ukg.captures && !c.processed
    ensures Settled(Apply(Arrive(id, c), d))
  {
    var e := Apply(Arrive(id, c), d);
    forall x | Processed(e.ukg, x) ensures TextSettled(e, x) {
      assert x != id && Processed(d.ukg, x) && TextSettled(d, x);
      assert OcrText(e.ukg, x) == OcrText(d.ukg, x);
    }
  }

  lemma {:induction false} CompletedRunsSettle(d: Disk, dim: nat, steps: seq<Step>)
    requires Inv(d, dim) && Settled(d) && LegalRun(d, dim, steps) && CompletedRun(d, steps)
    ensures Settled(Run(RunTrace(d, steps), d))
    decreases |steps|
  {
    if steps != [] {
      var es := StepTrace(d, steps[0]);
      StepLawful(d, dim, false, steps[0]);
      LawfulKeepsInv(d, dim, false, es);
      CompletedStepSettles(d, dim, steps[0]);
      CompletedRunsSettle(Run(es, d), dim, steps[1..]);
      RunAppend(es, RunTrace(Run(es, d), steps[1..]), d);
    }
  }

  /** No lost work: over any number of completed passes, whatever the answers and
      whichever spaces come and go in the middle of them, every processed text is
      stored, refused or flagged, and every done image has its embedding. */
  lemma {:induction false} CompletedRunsStaySound(d: Disk, dim: nat, steps: seq<Step>)
    requires Inv(d, dim) && Settled(d) && LegalRun(d, dim, steps) && CompletedRun(d, steps)
    ensures var e := Run(RunTrace(d, steps), d);
      && (forall id :: Processed(e.ukg, id) ==>
            OcrText(e.ukg, id) == "" || Has(e.text, id) || id in e.refused || Raised(e, Text))
      && (forall id :: HasState(e.ukg, id, Done) ==> Has(e.image, id))
  {
    CompletedRunsSettle(d, dim, steps);
    var e := Run(RunTrace(d, steps), d);
    assert forall id :: Processed(e.ukg, id) ==> TextSettled(e, id);
  }

  /** In every reachable state, a query that the space check lets through is ranked
      against vectors of its own space only. */
  lemma QueriesStayInTheirSpace(d: Disk, dim: nat, steps: seq<Step>, leg: Leg, space: string)
    requires Inv(d, dim) && LegalRun(d, dim, steps) && space != SPACE_UNKNOWN
    ensures var s := StoreOf(Run(RunTrace(d, steps), d), leg);
      !SpaceMismatch(s, space) ==> forall i :: 0 <= i < |s.rows| ==> s.rows[i].vector.space == space
  {
    RunLawful(d, dim, false, steps);
    LawfulKeepsInv(d, dim, false, RunTrace(d, steps));
    var e := Run(RunTrace(d, steps), d);
    assert Coherent(StoreOf(e, leg));
  }

  /** A new client starts in a state from which all of this applies. */
  lemma NewClientIsReady(captures: map<i64, Capture>, dim: nat, t: string, i: string)
    requires forall id :: id in captures ==> !captures[id].processed
    ensures var d := Disk(
        Tables(captures, map[], map[], map[]), Store(Some(t), []), Store(Some(i), []), {}, {}, false, map[]);
      Inv(d, dim) && Restartable(d) && Sound(d, Text) && Sound(d, Image)
  {
  }

  /** Installing the space a store already has changes nothing; installing or
      lowering one leg leaves what the other leg's soundness depends on. */
  lemma InstallFrame(d: Disk, leg: Leg, space: string)
    ensures var e := Run(Install(StoreOf(d, leg), leg, space), d);
      && (StoreOf(d, leg).spaceId == Some(space) ==> e == d)
      && e.ukg.config == d.ukg.config
      && (leg == Text ==> ImagePart(d, e))
      && (leg == Image ==> TextPart(d, e))
  {
    Run3(Clear(leg, space), Requeue(leg), SetSpace(leg, space), d);
    Run1(SetSpace(leg, space), d);
    assert Install(StoreOf(d, leg), leg, space) ==
      if SpaceMismatch(StoreOf(d, leg), space) then [Clear(leg, space), Requeue(leg), SetSpace(leg, space)]
      else [SetSpace(leg, space)];
  }

  lemma LowerFrame(d: Disk, leg: Leg)
    ensures var e := Run(Lower(leg), d);
      && (leg == Text ==> ImagePart(d, e))
      && (leg == Image ==> TextPart(d, e) && Raised(e, Text) == Raised(d, Text))
  {
    Run2(Lower(leg)[0], Requeue(leg), d);
  }

  ghost predicate TextPart(d: Disk, e: Disk) {
    && e.text == d.text && e.refused == d.refused && e.ukg.captures == d.ukg.captures
    && (Text in e.goals <==> Text in d.goals) && (Text in d.goals ==> e.goals[Text] == d.goals[Text])
  }

  ghost predicate ImagePart(d: Disk, e: Disk) {
    e.image == d.image && e.ukg.images == d.ukg.images
  }

  lemma StaysUnsoundText(d: Disk, t: string, i: string)
    requires !Sound(d, Text) && d.text.spaceId == Some(t)
    ensures !Sound(Run(Prologue(d, Some((t, i))), d), Text)
  {
    var id :| Processed(d.ukg, id) && !TextSettled(d, id);
    assert !Raised(d, Text);
    var a, b := Install(d.text, Text, t), Install(d.image, Image, i);
    var f := if Raised(d, Image) then Lower(Image) else [];
    var d2 := Run(b, d);
    var e := Run(f, d2);
    assert Prologue(d, Some((t, i))) == a + b + f;
    InstallFrame(d, Text, t);
    InstallFrame(d, Image, i);
    LowerFrame(d2, Image);
    RunAppend(a, b, d);
    RunAppend(a + b, f, d);
    UnsettledKept(d, e, id);
  }

  lemma UnsettledKept(d: Disk, e: Disk, id: i64)
    requires Processed(d.ukg, id) && !TextSettled(d, id)
    requires TextPart(d, e) && Raised(e, Text) == Raised(d, Text)
    ensures !Sound(e, Text)
  {
    assert Processed(e.ukg, id) && !TextSettled(e, id);
  }

  lemma StaysUnsoundImage(d: Disk, t: string, i: string)
    requires !Sound(d, Image) && d.image.spaceId == Some(i) && !Raised(d, Image)
    ensures !Sound(Run(Prologue(d, Some((t, i))), d), Image)
  {
    var a, b := Install(d.text, Text, t), Install(d.image, Image, i);
    var c := if Raised(d, Text) then Lower(Text) else [];
    var d1 := Run(a, d);
    var e := Run(c, d1);
    assert Prologue(d, Some((t, i))) == a + b + c;
    InstallFrame(d, Text, t);
    InstallFrame(d1, Image, i);
    LowerFrame(d1, Text);
    RunAppend(a, b, d);
    RunAppend(a + b, c, d);
    assert ImagePart(d, e);
  }
}
