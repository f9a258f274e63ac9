/** Every write of a pass respects the guards of `Safety`, stage by stage. */
module PassSafety {
  import opened Prelude
  import opened Semantic
  import opened UkgDb
  import opened Protocol
  import opened Enrichment
  import opened Safety

  /** No embedder names the placeholder as its space. */
  ghost predicate Honest(env: Env) {
    && (env.spaces.Some? ==> env.spaces.value.0 != SPACE_UNKNOWN && env.spaces.value.1 != SPACE_UNKNOWN)
    && forall leg, id :: Reply(env, leg, id).Embedded? ==> Reply(env, leg, id).vector.space != SPACE_UNKNOWN
  }

  /** While a rebuild of the leg stands interrupted, no answer is in the space
      that the emptied store is still labelled with. */
  ghost predicate Resumes(d: Disk, env: Env, leg: Leg) {
    !Sound(d, leg) ==>
      forall id :: Reply(env, leg, id).Embedded? ==> StoreOf(d, leg).spaceId != Some(Reply(env, leg, id).vector.space)
  }

  ghost predicate Ready(d: Disk, env: Env) {
    && !d.owed
    && Recoverable(d, Text) && Resumes(d, env, Text)
    && Recoverable(d, Image) && Resumes(d, env, Image)
  }

  ghost predicate SameCaptures(d: Disk, e: Disk) {
    && d.ukg.captures.Keys == e.ukg.captures.Keys
    && forall id :: id in d.ukg.captures ==>
         d.ukg.captures[id].(processed := false) == e.ukg.captures[id].(processed := false)
  }

  ghost predicate Keeps(d: Disk, e: Disk) {
    SameCaptures(d, e) && (e.owed ==> d.owed)
  }

  /** A stage may finish an interrupted rebuild; it never starts one unfinished. */
  ghost predicate Progress(d: Disk, e: Disk, leg: Leg) {
    && (Sound(d, leg) ==> Sound(e, leg))
    && (Sound(e, leg) || StoreOf(e, leg).spaceId == StoreOf(d, leg).spaceId)
  }

  ghost predicate Progresses(d: Disk, e: Disk) {
    Progress(d, e, Text) && Progress(d, e, Image)
  }

  lemma ReadyAfter(d: Disk, dim: nat, es: seq<Event>, env: Env)
    requires Ready(d, env) && Lawful(d, dim, true, es)
    requires var e := Run(es, d); Keeps(d, e) && Progresses(d, e)
    ensures Ready(Run(es, d), env)
  {
    LawfulKeepsRecoverable(d, dim, es, Text);
    LawfulKeepsRecoverable(d, dim, es, Image);
  }

  /** What every stage promises. */
  ghost predicate Conduct(d: Disk, dim: nat, careful: bool, es: seq<Event>) {
    var e := Run(es, d);
    && Lawful(d, dim, careful, es)
    && Inv(e, dim)
    && Keeps(d, e)
    && (careful ==> Progresses(d, e))
  }

  lemma ConductAppend(d: Disk, dim: nat, careful: bool, a: seq<Event>, b: seq<Event>)
    requires Conduct(d, dim, careful, a) && Conduct(Run(a, d), dim, careful, b)
    ensures Conduct(d, dim, careful, a + b) && Run(a + b, d) == Run(b, Run(a, d))
  {
    LawfulAppend(d, dim, careful, a, b);
    RunAppend(a, b, d);
  }

  lemma ConductNone(d: Disk, dim: nat, careful: bool)
    requires Inv(d, dim)
    ensures Conduct(d, dim, careful, []) && Run([], d) == d
  {
  }

  lemma ConductOne(d: Disk, dim: nat, careful: bool, e: Event)
    requires Inv(d, dim) && Guard(d, dim, e) && (careful ==> Careful(d, e))
    requires Keeps(d, Apply(e, d)) && (careful ==> Progresses(d, Apply(e, d)))
    ensures Conduct(d, dim, careful, [e]) && Run([e], d) == Apply(e, d)
  {
    LawfulOne(d, dim, careful, e);
    InvStep(d, dim, e);
  }

  lemma SoundText(d: Disk, e: Disk)
    requires SameCaptures(d, e) && d.refused <= e.refused && (Raised(d, Text) ==> Raised(e, Text))
    requires forall id :: Has(d.text, id) ==> Has(e.text, id)
    requires forall id :: Processed(e.ukg, id) ==> Processed(d.ukg, id) || TextSettled(e, id)
    ensures Sound(d, Text) ==> Sound(e, Text)
  {
  }

  lemma SoundImage(d: Disk, e: Disk)
    requires forall id :: Has(d.image, id) ==> Has(e.image, id)
    requires forall id :: HasState(e.ukg, id, Done) ==> HasState(d.ukg, id, Done) || Has(e.image, id)
    ensures Sound(d, Image) ==> Sound(e, Image)
  {
  }

  // -------------------------------------------------- events with simple effects

  lemma TouchConduct(d: Disk, dim: nat, careful: bool, id: i64, now: int)
    requires Inv(d, dim) && Guard(d, dim, Touch(id, now))
    ensures Conduct(d, dim, careful, [Touch(id, now)]) && Run([Touch(id, now)], d) == Apply(Touch(id, now), d)
  {
    var e := Apply(Touch(id, now), d);
    SoundText(d, e);
    SoundImage(d, e);
    ConductOne(d, dim, careful, Touch(id, now));
  }

  lemma SetStateConduct(d: Disk, dim: nat, careful: bool, id: i64, state: ImageState, n: int)
    requires Inv(d, dim) && Guard(d, dim, SetState(id, state, n))
    ensures var e := SetState(id, state, n);
      Conduct(d, dim, careful, [e]) && Run([e], d) == Apply(e, d)
  {
    var e := Apply(SetState(id, state, n), d);
    SoundText(d, e);
    SoundImage(d, e);
    ConductOne(d, dim, careful, SetState(id, state, n));
  }

  lemma HistoryConduct(d: Disk, dim: nat, careful: bool, e: Event)
    requires Inv(d, dim) && Guard(d, dim, e) && (e.Ask? || e.Refuse?)
    ensures Conduct(d, dim, careful, [e]) && Run([e], d) == Apply(e, d)
  {
    ConductOne(d, dim, careful, e);
  }

  lemma RaiseConduct(d: Disk, dim: nat, careful: bool, leg: Leg)
    requires Inv(d, dim)
    ensures var e := SetFlag(leg, true);
      Conduct(d, dim, careful, [e]) && Run([e], d) == Apply(e, d)
  {
    var e := Apply(SetFlag(leg, true), d);
    SoundText(d, e);
    SoundImage(d, e);
    ConductOne(d, dim, careful, SetFlag(leg, true));
  }

  // --------------------------------------------------------- installing a space

  lemma InstallConduct(d: Disk, dim: nat, careful: bool, leg: Leg, space: string)
    requires Inv(d, dim) && space != SPACE_UNKNOWN
    requires careful ==> Recoverable(d, leg) && !d.owed
    ensures var es := Install(StoreOf(d, leg), leg, space);
      var e := Run(es, d);
      && Conduct(d, dim, careful, es)
      && e.ukg.attempts == d.ukg.attempts && e.asked == d.asked && e.ukg.config == d.ukg.config
      && StoreOf(e, leg).spaceId == Some(space)
      && (SpaceMismatch(StoreOf(d, leg), space) ==> Sound(e, leg) && StoreOf(e, leg).rows == [])
      && (forall id :: Has(StoreOf(e, leg), id) ==> Has(StoreOf(d, leg), id))
      && (forall id, s :: HasState(e.ukg, id, s) ==> HasState(d.ukg, id, s))
      && (leg == Text ==> e.image == d.image && e.ukg.images == d.ukg.images)
      && (leg == Image ==> e.text == d.text && e.refused == d.refused && e.ukg.captures == d.ukg.captures)
  {
    var s := StoreOf(d, leg);
    if SpaceMismatch(s, space) {
      var d1 := Apply(Clear(leg, space), d);
      var d2 := Apply(Requeue(leg), d1);
      InvStep(d, dim, Clear(leg, space));
      InvStep(d1, dim, Requeue(leg));
      LawfulOne(d, dim, careful, Clear(leg, space));
      LawfulOne(d1, dim, careful, Requeue(leg));
      LawfulAppend(d, dim, careful, [Clear(leg, space)], [Requeue(leg)]);
      RunAppend([Clear(leg, space)], [Requeue(leg)], d);
      assert [Clear(leg, space)] + [Requeue(leg)] == [Clear(leg, space), Requeue(leg)];
      RequeueSound(d, leg, space);
      assert Conduct(d, dim, careful, [Clear(leg, space), Requeue(leg)]);
      MoveLabel(d2, dim, careful, leg, space);
      ConductAppend(d, dim, careful, [Clear(leg, space), Requeue(leg)], [SetSpace(leg, space)]);
    } else {
      assert Install(s, leg, space) == [SetSpace(leg, space)];
      MoveLabel(d, dim, careful, leg, space);
    }
  }

  /** Clearing a store and re-queueing its leg leaves nothing marked as finished. */
  lemma RequeueSound(d: Disk, leg: Leg, space: string)
    ensures var e := Apply(Requeue(leg), Apply(Clear(leg, space), d));
      Sound(e, leg) && Keeps(d, e) && Progresses(d, e)
  {
    var e := Apply(Requeue(leg), Apply(Clear(leg, space), d));
    match leg
    case Text =>
      assert forall id :: !Processed(e.ukg, id);
      SoundImage(d, e);
    case Image =>
      assert forall id :: !HasState(e.ukg, id, Done);
      SoundText(d, e);
  }

  lemma MoveLabel(d: Disk, dim: nat, careful: bool, leg: Leg, space: string)
    requires !SpaceMismatch(StoreOf(d, leg), space) || StoreOf(d, leg).rows == []
    requires Inv(d, dim) && space != SPACE_UNKNOWN
    requires careful ==> Sound(d, leg) || StoreOf(d, leg).spaceId == Some(space)
    ensures Conduct(d, dim, careful, [SetSpace(leg, space)])
    ensures Run([SetSpace(leg, space)], d) == Apply(SetSpace(leg, space), d)
  {
    var e := Apply(SetSpace(leg, space), d);
    assert e.text.rows == d.text.rows && e.image.rows == d.image.rows;
    assert forall id :: Has(e.text, id) == Has(d.text, id);
    assert forall id :: Has(e.image, id) == Has(d.image, id);
    SoundText(d, e);
    SoundImage(d, e);
    ConductOne(d, dim, careful, SetSpace(leg, space));
  }

  // ------------------------------------------------------------------ text stage

  /** The capture has been touched in this pass and this leg not yet asked. */
  ghost predicate MayAsk(d: Disk, env: Env, leg: Leg, id: i64) {
    id in d.ukg.attempts && d.ukg.attempts[id] == env.now && (leg, id) !in d.asked
  }

  /** An embedding of the active space is stored behind the right label. */
  lemma StoreConduct(d: Disk, dim: nat, careful: bool, leg: Leg, id: i64, v: Vector)
    requires Inv(d, dim) && v.space != SPACE_UNKNOWN && |v.coords| == dim && !Has(StoreOf(d, leg), id)
    requires leg == Image ==> Token(d.ukg, id).Some? && !HasState(d.ukg, id, Skipped)
    requires careful ==> Recoverable(d, leg) && !d.owed
    requires careful && !Sound(d, leg) ==> StoreOf(d, leg).spaceId != Some(v.space)
    ensures var es := Install(StoreOf(d, leg), leg, v.space) + [InsertRow(leg, id, v)];
      var e := Run(es, d);
      && Conduct(d, dim, careful, es)
      && e.ukg.attempts == d.ukg.attempts && e.asked == d.asked && e.ukg.config == d.ukg.config
      && Has(StoreOf(e, leg), id)
      && (forall i, s :: HasState(e.ukg, i, s) ==> HasState(d.ukg, i, s))
      && (leg == Text ==> e.image == d.image && e.ukg.images == d.ukg.images)
      && (leg == Image ==> e.text == d.text && e.refused == d.refused && e.ukg.captures == d.ukg.captures)
  {
    var install := Install(StoreOf(d, leg), leg, v.space);
    InstallConduct(d, dim, careful, leg, v.space);
    var d1 := Run(install, d);
    var e := Apply(InsertRow(leg, id, v), d1);
    assert careful ==> Sound(d1, leg);
    assert leg == Image ==> Token(d1.ukg, id) == Token(d.ukg, id);
    HasInsert(StoreOf(d1, leg), id, v);
    SoundText(d1, e);
    SoundImage(d1, e);
    ConductOne(d1, dim, careful, InsertRow(leg, id, v));
    ConductAppend(d, dim, careful, install, [InsertRow(leg, id, v)]);
  }

  lemma TextVerdictConduct(d: Disk, dim: nat, careful: bool, env: Env, id: i64)
    requires Inv(d, dim) && Honest(env) && env.dim == dim && NeedsText(d, id)
    requires careful ==> Ready(d, env)
    ensures var es := TextVerdict(d, env, id);
      var e := Run(es, d);
      && Conduct(d, dim, careful, es)
      && e.ukg.attempts == d.ukg.attempts && e.asked == d.asked
      && e.image == d.image && e.ukg.images == d.ukg.images
      && (env.text(id).Retry? || TextSettled(e, id))
  {
    match env.text(id)
    case Embedded(v) =>
      assert Reply(env, Text, id) == Embedded(v);
      if |v.coords| != env.dim {
        HistoryConduct(d, dim, careful, Refuse(id));
      } else {
        StoreConduct(d, dim, careful, Text, id, v);
      }
    case Disabled => RaiseConduct(d, dim, careful, Text);
    case Rejected => HistoryConduct(d, dim, careful, Refuse(id));
    case Retry => ConductNone(d, dim, careful);
  }

  lemma AskReady(d: Disk, env: Env, leg: Leg, id: i64)
    requires Ready(d, env)
    ensures Ready(Apply(Ask(leg, id, env.now), d), env)
  {
  }

  lemma TextLegConduct(d: Disk, dim: nat, careful: bool, env: Env, id: i64)
    requires Inv(d, dim) && Honest(env) && env.dim == dim && MayAsk(d, env, Text, id)
    requires careful ==> Ready(d, env)
    ensures var es := TextLeg(d, env, id);
      var e := Run(es, d);
      && Conduct(d, dim, careful, es)
      && e.ukg.attempts == d.ukg.attempts && (e.asked == d.asked || e.asked == d.asked + {(Text, id)})
      && e.image == d.image && e.ukg.images == d.ukg.images
      && (TextRetries(d, env, id) || TextSettled(e, id))
  {
    if NeedsText(d, id) {
      var ask := Ask(Text, id, env.now);
      HistoryConduct(d, dim, careful, ask);
      var d1 := Apply(ask, d);
      if careful { AskReady(d, env, Text, id); }
      TextVerdictConduct(d1, dim, careful, env, id);
      ConductAppend(d, dim, careful, [ask], TextVerdict(d1, env, id));
      assert TextVerdict(d1, env, id) == TextVerdict(d, env, id);
    } else {
      ConductNone(d, dim, careful);
    }
  }

  // ----------------------------------------------------------------- image stage

  /** What the image stage leaves alone: everything the text leg decided. */
  ghost predicate TextUntouched(d: Disk, e: Disk) {
    && e.text == d.text && e.refused == d.refused && e.ukg.captures == d.ukg.captures
    && e.ukg.attempts == d.ukg.attempts && Raised(e, Text) == Raised(d, Text)
  }

  /** Before the embedder is called, the image stage writes at most one state. */
  lemma StepWrites(d: Disk, env: Env, id: i64) returns (state: ImageState, n: int)
    ensures var (es, step) := StepOf(d, env, id);
      && (es == [] || es == [SetState(id, state, n)])
      && (state == Skipped ==> !Has(d.image, id)) && (state == Done ==> Has(d.image, id))
      && (es != [] ==> HasState(d.ukg, id, Skipped) ==> Has(d.image, id))
      && (step.Embed? ==> es == [] && !Has(d.image, id) && !HasState(d.ukg, id, Skipped))
  {
    var es := StepOf(d, env, id).0;
    state, n := Pending, 0;
    if es != [] {
      state, n := es[0].state, es[0].attempts;
    }
  }

  lemma StepConduct(d: Disk, dim: nat, careful: bool, env: Env, id: i64)
    requires Inv(d, dim)
    ensures var (es, step) := StepOf(d, env, id);
      && Conduct(d, dim, careful, es) && TextUntouched(d, Run(es, d))
      && (step.Embed? ==> es == [] && !Has(d.image, id) && !HasState(d.ukg, id, Skipped))
  {
    var state, n := StepWrites(d, env, id);
    ConductNone(d, dim, careful);
    assert Has(d.image, id) ==> !HasState(d.ukg, id, Skipped);
    if StepOf(d, env, id).0 != [] {
      SetStateConduct(d, dim, careful, id, state, n);
    }
  }

  lemma RecordConduct(d: Disk, dim: nat, careful: bool, env: Env, id: i64, n: int)
    requires Inv(d, dim) && Honest(env) && env.dim == dim
    requires Token(d.ukg, id).Some? && !Has(d.image, id) && !HasState(d.ukg, id, Skipped)
    requires careful ==> Ready(d, env)
    ensures var (es, leg) := RecordOf(d, env, id, n);
      Conduct(d, dim, careful, es) && TextUntouched(d, Run(es, d))
  {
    match env.image(id)
    case Embedded(v) =>
      assert Reply(env, Image, id) == Embedded(v);
      if |v.coords| != env.dim {
        SetStateConduct(d, dim, careful, id, Skipped, n + 1);
      } else {
        var es := Install(d.image, Image, v.space) + [InsertRow(Image, id, v)];
        StoreConduct(d, dim, careful, Image, id, v);
        SetStateConduct(Run(es, d), dim, careful, id, Done, n + 1);
        ConductAppend(d, dim, careful, es, [SetState(id, Done, n + 1)]);
        assert es + [SetState(id, Done, n + 1)] == RecordOf(d, env, id, n).0;
      }
    case Disabled => RaiseConduct(d, dim, careful, Image);
    case Rejected => SetStateConduct(d, dim, careful, id, Skipped, n + 1);
    case Retry => SetStateConduct(d, dim, careful, id, Pending, n + 1);
  }

  lemma ImageConduct(d: Disk, dim: nat, careful: bool, env: Env, id: i64)
    requires Inv(d, dim) && Honest(env) && env.dim == dim
    requires Token(d.ukg, id).Some? && MayAsk(d, env, Image, id)
    requires careful ==> Ready(d, env)
    ensures var (es, leg) := ImageOf(d, env, id);
      Conduct(d, dim, careful, es) && TextUntouched(d, Run(es, d))
  {
    StepConduct(d, dim, careful, env, id);
    match StepOf(d, env, id).1
    case Settled(_) =>
    case Embed(n) =>
      var ask := Ask(Image, id, env.now);
      HistoryConduct(d, dim, careful, ask);
      var d1 := Apply(ask, d);
      if careful { AskReady(d, env, Image, id); }
      RecordConduct(d1, dim, careful, env, id, n);
      ConductAppend(d, dim, careful, [ask], RecordOf(d1, env, id, n).0);
      assert RecordOf(d1, env, id, n) == RecordOf(d, env, id, n);
  }

  // ------------------------------------------------------------------ one capture

  lemma TouchReady(d: Disk, dim: nat, env: Env, id: i64)
    requires Inv(d, dim) && Due(d.ukg, id, env.now - RETRY_BACKOFF_TICKS)
    ensures var e := Apply(Touch(id, env.now), d);
      && Conduct(d, dim, true, [Touch(id, env.now)]) && Run([Touch(id, env.now)], d) == e
      && (Ready(d, env) ==> Ready(e, env))
  {
    TouchConduct(d, dim, true, id, env.now);
    if Ready(d, env) {
      ReadyAfter(d, dim, [Touch(id, env.now)], env);
    }
  }

  lemma BackfillOneConduct(d: Disk, dim: nat, careful: bool, env: Env, id: i64)
    requires Inv(d, dim) && Honest(env) && env.dim == dim
    requires Token(d.ukg, id).Some? && Due(d.ukg, id, env.now - RETRY_BACKOFF_TICKS)
    requires careful ==> Ready(d, env)
    ensures var (es, leg) := BackfillOne(d, env, id);
      Conduct(d, dim, careful, es) && Run(es, d).ukg.attempts == d.ukg.attempts[id := env.now]
  {
    TouchReady(d, dim, env, id);
    TouchConduct(d, dim, careful, id, env.now);
    var d1 := Apply(Touch(id, env.now), d);
    ImageConduct(d1, dim, careful, env, id);
    ConductAppend(d, dim, careful, [Touch(id, env.now)], ImageOf(d1, env, id).0);
  }

  lemma FreshImageConduct(d: Disk, dim: nat, careful: bool, env: Env, id: i64, stop: bool)
    requires Inv(d, dim) && Honest(env) && env.dim == dim && MayAsk(d, env, Image, id)
    requires careful ==> Ready(d, env)
    ensures var (es, leg) := FreshImage(d, env, id, stop);
      Conduct(d, dim, careful, es) && TextUntouched(d, Run(es, d))
  {
    if stop {
      ConductNone(d, dim, careful);
    } else if Token(d.ukg, id).Some? {
      ImageConduct(d, dim, careful, env, id);
    } else {
      SetStateConduct(d, dim, careful, id, Skipped, 1);
    }
  }

  lemma FinishConduct(d: Disk, dim: nat, careful: bool, id: i64)
    requires Inv(d, dim) && TextSettled(d, id)
    ensures Conduct(d, dim, careful, [MarkProcessed(id)])
    ensures Run([MarkProcessed(id)], d) == Apply(MarkProcessed(id), d)
  {
    var e := Apply(MarkProcessed(id), d);
    assert SameCaptures(d, e);
    forall x | Processed(e.ukg, x) ensures Processed(d.ukg, x) || TextSettled(e, x) {
      assert x == id ==> OcrText(e.ukg, id) == OcrText(d.ukg, id);
    }
    SoundText(d, e);
    SoundImage(d, e);
    ConductOne(d, dim, careful, MarkProcessed(id));
  }

  /** The touch and the text leg of a fresh capture. */
  lemma FreshTextConduct(d: Disk, dim: nat, careful: bool, env: Env, id: i64)
    requires Inv(d, dim) && Honest(env) && env.dim == dim
    requires Due(d.ukg, id, env.now - RETRY_BACKOFF_TICKS)
    requires careful ==> Ready(d, env)
    ensures var touch := [Touch(id, env.now)];
      var d1 := Apply(Touch(id, env.now), d);
      var text := TextLeg(d1, env, id);
      var d2 := Run(text, d1);
      && Conduct(d, dim, careful, touch + text) && Run(touch + text, d) == d2
      && d2.ukg.attempts == d.ukg.attempts[id := env.now]
      && MayAsk(d2, env, Image, id)
      && (TextRetries(d1, env, id) || TextSettled(d2, id))
      && (careful ==> Ready(d2, env))
  {
    var touch := [Touch(id, env.now)];
    TouchReady(d, dim, env, id);
    TouchConduct(d, dim, careful, id, env.now);
    var d1 := Apply(Touch(id, env.now), d);
    var text := TextLeg(d1, env, id);
    TextLegConduct(d1, dim, careful, env, id);
    ConductAppend(d, dim, careful, touch, text);
    if careful { ReadyAfter(d1, dim, text, env); }
  }

  lemma FreshOneConduct(d: Disk, dim: nat, careful: bool, env: Env, id: i64, stop: bool)
    requires Inv(d, dim) && Honest(env) && env.dim == dim
    requires Due(d.ukg, id, env.now - RETRY_BACKOFF_TICKS)
    requires careful ==> Ready(d, env)
    ensures var (es, leg) := FreshOne(d, env, id, stop);
      Conduct(d, dim, careful, es) && Run(es, d).ukg.attempts == d.ukg.attempts[id := env.now]
  {
    FreshTextConduct(d, dim, careful, env, id);
    var d1 := Apply(Touch(id, env.now), d);
    var text := TextLeg(d1, env, id);
    var d2 := Run(text, d1);
    var head := [Touch(id, env.now)] + text;
    var (image, leg) := FreshImage(d2, env, id, stop);
    FreshImageConduct(d2, dim, careful, env, id, stop);
    var d3 := Run(image, d2);
    ConductAppend(d, dim, careful, head, image);
    if !TextRetries(d1, env, id) && leg != LegRetry {
      SettledKept(d2, d3, id);
      FinishConduct(d3, dim, careful, id);
      ConductAppend(d, dim, careful, head + image, [MarkProcessed(id)]);
    } else {
      assert head + image + [] == head + image;
    }
  }

  lemma SettledKept(d: Disk, e: Disk, id: i64)
    requires TextSettled(d, id) && TextUntouched(d, e)
    ensures TextSettled(e, id)
  {
  }

  // ------------------------------------------------------------------- the queues

  /** Captures outside `ids` keep their attempt clock. */
  ghost predicate ClockKept(d: Disk, e: Disk, ids: seq<i64>) {
    forall x :: x !in ids ==>
      && (x in e.ukg.attempts <==> x in d.ukg.attempts)
      && (x in d.ukg.attempts ==> e.ukg.attempts[x] == d.ukg.attempts[x])
  }

  ghost predicate Drainable(d: Disk, env: Env, ids: seq<i64>) {
    NoDuplicates(ids) && forall x :: x in ids ==> Due(d.ukg, x, env.now - RETRY_BACKOFF_TICKS)
  }

  ghost predicate Tokens(d: Disk, ids: seq<i64>) {
    forall x :: x in ids ==> Token(d.ukg, x).Some?
  }

  lemma DrainRest(d: Disk, e: Disk, env: Env, ids: seq<i64>)
    requires ids != [] && Drainable(d, env, ids) && Keeps(d, e)
    requires e.ukg.attempts == d.ukg.attempts[ids[0] := env.now]
    ensures Drainable(e, env, ids[1..]) && (Tokens(d, ids) ==> Tokens(e, ids[1..]))
    ensures forall f :: ClockKept(e, f, ids[1..]) ==> ClockKept(d, f, ids)
  {
    forall x | x in ids[1..]
      ensures Due(e.ukg, x, env.now - RETRY_BACKOFF_TICKS) && Token(e.ukg, x) == Token(d.ukg, x)
    {
      assert x in ids;
      var k :| 0 <= k < |ids[1..]| && ids[1..][k] == x;
      assert ids[0] != ids[k + 1];
    }
    assert ids == [ids[0]] + ids[1..];
  }

  lemma {:induction false} BackfillConduct(d: Disk, dim: nat, careful: bool, env: Env, ids: seq<i64>)
    requires Inv(d, dim) && Honest(env) && env.dim == dim && Drainable(d, env, ids) && Tokens(d, ids)
    requires careful ==> Ready(d, env)
    ensures var es := BackfillLoop(d, env, ids).0;
      Conduct(d, dim, careful, es) && ClockKept(d, Run(es, d), ids)
    decreases |ids|
  {
    if ids == [] {
      ConductNone(d, dim, careful);
    } else {
      var (one, leg) := BackfillOne(d, env, ids[0]);
      assert ids[0] in ids;
      BackfillOneConduct(d, dim, careful, env, ids[0]);
      if leg != Unavailable {
        var e := Run(one, d);
        DrainRest(d, e, env, ids);
        if careful { ReadyAfter(d, dim, one, env); }
        BackfillConduct(e, dim, careful, env, ids[1..]);
        ConductAppend(d, dim, careful, one, BackfillLoop(e, env, ids[1..]).0);
      }
    }
  }

  lemma {:induction false} FreshConduct(d: Disk, dim: nat, careful: bool, env: Env, ids: seq<i64>, stop: bool)
    requires Inv(d, dim) && Honest(env) && env.dim == dim && Drainable(d, env, ids)
    requires careful ==> Ready(d, env)
    ensures Conduct(d, dim, careful, FreshLoop(d, env, ids, stop))
    decreases |ids|
  {
    if ids == [] {
      ConductNone(d, dim, careful);
    } else {
      var (one, leg) := FreshOne(d, env, ids[0], stop);
      assert ids[0] in ids;
      FreshOneConduct(d, dim, careful, env, ids[0], stop);
      var e := Run(one, d);
      DrainRest(d, e, env, ids);
      if careful { ReadyAfter(d, dim, one, env); }
      FreshConduct(e, dim, careful, env, ids[1..], stop || leg == Unavailable);
      ConductAppend(d, dim, careful, one, FreshLoop(e, env, ids[1..], stop || leg == Unavailable));
    }
  }

  lemma QueueDrainable(d: Disk, env: Env, q: Queue)
    ensures Drainable(d, env, QueueAt(d, env, q)) && |QueueAt(d, env, q)| <= 64
    ensures forall x :: x in QueueAt(d, env, q) ==> Member(d.ukg, q, x)
  {
    BatchIsFair(d.ukg, q, env.now - RETRY_BACKOFF_TICKS, BATCH);
  }

  /** The queues of a pass hold due captures, each once and in one queue only. */
  lemma QueuesDrainable(d: Disk, env: Env)
    ensures var backfill, pending := QueueAt(d, env, Backfill), QueueAt(d, env, Fresh);
      && Drainable(d, env, backfill) && Tokens(d, backfill)
      && Drainable(d, env, pending)
      && (forall x :: x in pending ==> x !in backfill)
      && |backfill| <= 64 && |pending| <= 64
  {
    QueueDrainable(d, env, Backfill);
    QueueDrainable(d, env, Fresh);
  }

  lemma DrainableAfter(d: Disk, e: Disk, env: Env, done: seq<i64>, ids: seq<i64>)
    requires Drainable(d, env, ids) && ClockKept(d, e, done) && forall x :: x in ids ==> x !in done
    ensures Drainable(e, env, ids)
  {
  }

  lemma WorkConduct(d: Disk, dim: nat, careful: bool, env: Env)
    requires Inv(d, dim) && Honest(env) && env.dim == dim
    requires careful ==> Ready(d, env)
    ensures Conduct(d, dim, careful, Work(d, env))
  {
    QueuesDrainable(d, env);
    DrainConduct(d, dim, careful, env, QueueAt(d, env, Backfill), QueueAt(d, env, Fresh));
  }

  lemma DrainConduct(d: Disk, dim: nat, careful: bool, env: Env, backfill: seq<i64>, pending: seq<i64>)
    requires Inv(d, dim) && Honest(env) && env.dim == dim
    requires Drainable(d, env, backfill) && Tokens(d, backfill) && Drainable(d, env, pending)
    requires forall x :: x in pending ==> x !in backfill
    requires careful ==> Ready(d, env)
    ensures var (first, stop) := BackfillLoop(d, env, backfill);
      Conduct(d, dim, careful, first + FreshLoop(Run(first, d), env, pending, stop))
  {
    BackfillConduct(d, dim, careful, env, backfill);
    var (first, stop) := BackfillLoop(d, env, backfill);
    var e := Run(first, d);
    DrainableAfter(d, e, env, backfill, pending);
    if careful { ReadyAfter(d, dim, first, env); }
    FreshConduct(e, dim, careful, env, pending, stop);
    ConductAppend(d, dim, careful, first, FreshLoop(e, env, pending, stop));
  }

  // ------------------------------------------------------------- start of the pass

  lemma LowerConduct(d: Disk, dim: nat, careful: bool, leg: Leg)
    requires Inv(d, dim)
    ensures var es := Lower(leg);
      var e := Run(es, d);
      && Conduct(d, dim, careful, es) && Sound(e, leg)
      && e.ukg.attempts == d.ukg.attempts && e.asked == d.asked
      && e.text == d.text && e.image == d.image
  {
    var down, requeue := Lower(leg)[0], Requeue(leg);
    var d1 := Apply(down, d);
    var e := Apply(requeue, d1);
    InvStep(d, dim, down);
    InvStep(d1, dim, requeue);
    LawfulOne(d, dim, careful, down);
    LawfulOne(d1, dim, careful, requeue);
    LawfulAppend(d, dim, careful, [down], [requeue]);
    assert [down] + [requeue] == Lower(leg);
    Run2(down, requeue, d);
    match leg
    case Text =>
      assert forall id :: !Processed(e.ukg, id);
      SoundImage(d, e);
    case Image =>
      assert forall id :: !HasState(e.ukg, id, Done);
      SoundText(d, e);
  }

  ghost predicate Restartable(d: Disk) {
    !d.owed && Recoverable(d, Text) && Recoverable(d, Image)
  }

  lemma PrologueConduct(d: Disk, dim: nat, careful: bool, spaces: Option<(string, string)>)
    requires Inv(d, dim)
    requires spaces.Some? ==> spaces.value.0 != SPACE_UNKNOWN && spaces.value.1 != SPACE_UNKNOWN
    requires careful ==> Restartable(d)
    ensures Conduct(d, dim, careful, Prologue(d, spaces))
    ensures Run(Prologue(d, spaces), d).ukg.attempts == d.ukg.attempts
  {
    match spaces
    case None => ConductNone(d, dim, careful);
    case Some((t, i)) =>
      var a, b := Install(d.text, Text, t), Install(d.image, Image, i);
      var c := if Raised(d, Text) then Lower(Text) else [];
      var f := if Raised(d, Image) then Lower(Image) else [];
      InstallConduct(d, dim, careful, Text, t);
      var d1 := Run(a, d);
      if careful {
        assert Recoverable(d1, Image) by { LawfulKeepsRecoverable(d, dim, a, Image); }
      }
      InstallConduct(d1, dim, careful, Image, i);
      ConductAppend(d, dim, careful, a, b);
      var d2 := Run(a + b, d);
      LowerIf(d2, dim, careful, Text, c);
      ConductAppend(d, dim, careful, a + b, c);
      var d3 := Run(a + b + c, d);
      LowerIf(d3, dim, careful, Image, f);
      ConductAppend(d, dim, careful, a + b + c, f);
  }

  lemma LowerIf(d: Disk, dim: nat, careful: bool, leg: Leg, es: seq<Event>)
    requires Inv(d, dim) && (es == [] || es == Lower(leg))
    ensures Conduct(d, dim, careful, es) && Run(es, d).ukg.attempts == d.ukg.attempts
    ensures Run(es, d).text == d.text && Run(es, d).image == d.image
    ensures es != [] ==> Sound(Run(es, d), leg)
  {
    ConductNone(d, dim, careful);
    LowerConduct(d, dim, careful, leg);
  }

  // -------------------------------------------------------------------- the pass

  /** The pass overtakes no interrupted rebuild. */
  ghost predicate PassResumes(d: Disk, env: Env) {
    var e := Run(Prologue(d, env.spaces), d);
    Resumes(e, env, Text) && Resumes(e, env, Image)
  }

  lemma PassConduct(d: Disk, dim: nat, careful: bool, env: Env)
    requires Inv(d, dim) && Honest(env) && env.dim == dim
    requires careful ==> Restartable(d) && PassResumes(d, env)
    ensures Conduct(d, dim, careful, Pass(d, env))
  {
    var begin := Prologue(d, env.spaces);
    PrologueConduct(d, dim, careful, env.spaces);
    var e := Run(begin, d);
    if careful {
      LawfulKeepsRecoverable(d, dim, begin, Text);
      LawfulKeepsRecoverable(d, dim, begin, Image);
    }
    WorkConduct(e, dim, careful, env);
    ConductAppend(d, dim, careful, begin, Work(e, env));
  }
}
