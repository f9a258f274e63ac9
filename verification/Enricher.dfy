/** The enrichment worker for one client directory. Its methods write the three
    databases one statement at a time; `log` records every write in order. */
module Enrichment {
  import opened Prelude
  import opened Semantic
  import opened UkgDb
  import opened Protocol

  /** A durable state together with the writes that led to it. */
  datatype Log = Log(disk: Disk, trace: seq<Event>)

  ghost function Extend(l: Log, es: seq<Event>): Log {
    Log(Run(es, l.disk), l.trace + es)
  }

  lemma ExtendTwice(l: Log, a: seq<Event>, b: seq<Event>)
    ensures Extend(Extend(l, a), b) == Extend(l, a + b)
  {
    RunAppend(a, b, l.disk);
    assert l.trace + a + b == l.trace + (a + b);
  }

  lemma ExtendOne(l: Log, e: Event)
    ensures Extend(l, [e]) == Log(Apply(e, l.disk), l.trace + [e])
  {
    assert [e][1..] == [];
    assert Run([], Apply(e, l.disk)) == Apply(e, l.disk);
  }

  lemma ExtendNone(l: Log)
    ensures Extend(l, []) == l
  {
  }

  /** The store's newest row is this vector, under this vector's label. */
  ghost predicate HoldsLast(s: Store, id: i64, v: Vector) {
    s.spaceId == Some(v.space) && s.rows != [] && s.rows[|s.rows| - 1] == Row(id, v)
  }

  class Enricher {
    const dim: nat
    const ukg: Ukg
    const textIndex: SemanticIndex
    const imageIndex: SemanticIndex
    ghost var log: Log

    /** The log's state is what the databases hold. */
    ghost predicate Valid()
      reads this, ukg, textIndex, imageIndex
    {
      && textIndex != imageIndex
      && textIndex.dim == imageIndex.dim == dim
      && textIndex.Valid() && imageIndex.Valid()
      && log.disk.ukg == ukg.View()
      && log.disk.text == textIndex.View()
      && log.disk.image == imageIndex.View()
    }

    constructor (ukg: Ukg, textIndex: SemanticIndex, imageIndex: SemanticIndex)
      requires textIndex != imageIndex && textIndex.dim == imageIndex.dim
      requires textIndex.Valid() && imageIndex.Valid()
      ensures Valid() && this.ukg == ukg && this.textIndex == textIndex && this.imageIndex == imageIndex
      ensures log == Log(Disk(ukg.View(), textIndex.View(), imageIndex.View(), {}, {}, false, map[]), [])
    {
      this.dim := textIndex.dim;
      this.ukg, this.textIndex, this.imageIndex := ukg, textIndex, imageIndex;
      log := Log(Disk(ukg.View(), textIndex.View(), imageIndex.View(), {}, {}, false, map[]), []);
    }

    // ------------------------------------------------- one statement, one event

    method Touch(id: i64, now: int)
      requires Valid()
      modifies this, ukg
      ensures Valid() && log == Extend(old(log), [Event.Touch(id, now)])
    {
      ukg.TouchEnrichAttempt(id, now);
      log := Log(Apply(Event.Touch(id, now), log.disk), log.trace + [Event.Touch(id, now)]);
      ExtendOne(old(log), Event.Touch(id, now));
    }

    method SetState(id: i64, state: ImageState, attempts: int)
      requires Valid()
      modifies this, ukg
      ensures Valid() && log == Extend(old(log), [Event.SetState(id, state, attempts)])
      ensures id in ukg.images && ukg.images[id] == ImageRow(state, attempts)
    {
      ukg.SetImageEmbeddingState(id, state, attempts);
      ghost var e := Event.SetState(id, state, attempts);
      log := Log(Apply(e, log.disk), log.trace + [e]);
      ExtendOne(old(log), e);
    }

    method MarkProcessed(id: i64)
      requires Valid()
      modifies this, ukg
      ensures Valid() && log == Extend(old(log), [Event.MarkProcessed(id)])
    {
      ukg.MarkProcessed(id);
      log := Log(Apply(Event.MarkProcessed(id), log.disk), log.trace + [Event.MarkProcessed(id)]);
      ExtendOne(old(log), Event.MarkProcessed(id));
    }

    method SetFlag(leg: Leg, up: bool)
      requires Valid()
      modifies this, ukg
      ensures Valid() && log == Extend(old(log), [Event.SetFlag(leg, up)])
    {
      ukg.SetConfig(FlagKey(leg), if up then "1" else "0");
      log := Log(Apply(Event.SetFlag(leg, up), log.disk), log.trace + [Event.SetFlag(leg, up)]);
      ExtendOne(old(log), Event.SetFlag(leg, up));
    }

    /** Put back every capture that a leg has already dealt with. */
    method RequeueLeg(leg: Leg)
      requires Valid()
      modifies this, ukg
      ensures Valid() && log == Extend(old(log), [Requeue(leg)])
    {
      if leg == Text {
        ukg.MarkAllUnprocessed();
      } else {
        ukg.ResetImageEmbeddingStates();
      }
      log := Log(Apply(Requeue(leg), log.disk), log.trace + [Requeue(leg)]);
      ExtendOne(old(log), Requeue(leg));
    }

    /** Empty a store; that this is done for `goal` is history only. */
    method ClearStore(leg: Leg, ghost goal: string)
      requires Valid()
      modifies this, textIndex, imageIndex
      ensures Valid() && log == Extend(old(log), [Clear(leg, goal)])
    {
      var index := if leg == Text then textIndex else imageIndex;
      index.Clear();
      log := Log(Apply(Clear(leg, goal), log.disk), log.trace + [Clear(leg, goal)]);
      ExtendOne(old(log), Clear(leg, goal));
    }

    method SetSpaceId(leg: Leg, space: string)
      requires Valid()
      modifies this, textIndex, imageIndex
      ensures Valid() && log == Extend(old(log), [SetSpace(leg, space)])
      ensures StoreOf(log.disk, leg).spaceId == Some(space)
    {
      var index := if leg == Text then textIndex else imageIndex;
      index.SetSpaceId(space);
      log := Log(Apply(SetSpace(leg, space), log.disk), log.trace + [SetSpace(leg, space)]);
      ExtendOne(old(log), SetSpace(leg, space));
    }

    method InsertVector(leg: Leg, id: i64, v: Vector)
      requires Valid() && |v.coords| == dim
      modifies this, textIndex, imageIndex
      ensures Valid() && log == Extend(old(log), [InsertRow(leg, id, v)])
      ensures StoreOf(log.disk, leg) == Insert(StoreOf(old(log).disk, leg), id, v)
    {
      var index := if leg == Text then textIndex else imageIndex;
      index.InsertForCapture(id, v);
      log := Log(Apply(InsertRow(leg, id, v), log.disk), log.trace + [InsertRow(leg, id, v)]);
      ExtendOne(old(log), InsertRow(leg, id, v));
    }

    /** History only: the embedder is called, or its refusal is noted. */
    ghost method Note(e: Event)
      requires Valid() && (e.Ask? || e.Refuse?)
      modifies this
      ensures Valid() && log == Extend(old(log), [e])
    {
      log := Log(Apply(e, log.disk), log.trace + [e]);
      ExtendOne(old(log), e);
    }

    // ------------------------------------------------------------ reading a state

    method HasVector(leg: Leg, id: i64) returns (b: bool)
      requires Valid()
      ensures b == Has(StoreOf(log.disk, leg), id)
    {
      var index := if leg == Text then textIndex else imageIndex;
      b := index.HasCapture(id);
    }

    method SpaceDiffers(leg: Leg, space: string) returns (b: bool)
      requires Valid()
      ensures b == SpaceMismatch(StoreOf(log.disk, leg), space)
    {
      var index := if leg == Text then textIndex else imageIndex;
      b := index.spaceId.Some? && index.spaceId.value != space && index.spaceId.value != SPACE_UNKNOWN;
    }

    // --------------------------------------------------------------------- stages

    /** Rebuild a store that holds another space, then move its label. */
    method InstallSpace(leg: Leg, space: string)
      requires Valid()
      modifies this, ukg, textIndex, imageIndex
      ensures Valid() && log == Extend(old(log), Install(StoreOf(old(log).disk, leg), leg, space))
      ensures StoreOf(log.disk, leg).spaceId == Some(space)
    {
      var differs := SpaceDiffers(leg, space);
      if differs {
        ClearStore(leg, space);
        RequeueLeg(leg);
        ExtendTwice(old(log), [Clear(leg, space)], [Requeue(leg)]);
        assert [Clear(leg, space)] + [Requeue(leg)] == [Clear(leg, space), Requeue(leg)];
        SetSpaceId(leg, space);
        ExtendTwice(old(log), [Clear(leg, space), Requeue(leg)], [SetSpace(leg, space)]);
      } else {
        SetSpaceId(leg, space);
        assert [] + [SetSpace(leg, space)] == [SetSpace(leg, space)];
      }
    }

    /** Lower a leg's flag, if it is raised, and re-queue what it covered. */
    method ReturningService(leg: Leg)
      requires Valid()
      modifies this, ukg
      ensures Valid()
      ensures log == Extend(old(log), if Raised(old(log).disk, leg) then Lower(leg) else [])
    {
      var key := FlagKey(leg);
      ExtendNone(log);
      if key in ukg.config && ukg.config[key] == "1" {
        SetFlag(leg, false);
        RequeueLeg(leg);
        ExtendTwice(old(log), [Event.SetFlag(leg, false)], [Requeue(leg)]);
        assert [Event.SetFlag(leg, false)] + [Requeue(leg)] == Lower(leg);
      }
    }

    method TextStage(env: Env, id: i64) returns (retry: bool)
      requires Valid() && env.dim == dim
      modifies this, ukg, textIndex, imageIndex
      ensures Valid() && log == Extend(old(log), TextLeg(old(log).disk, env, id))
      ensures retry == TextRetries(old(log).disk, env, id)
    {
      retry := false;
      var text := if id in ukg.captures then JoinTexts(ukg.captures[id].regions) else "";
      var present := HasVector(Text, id);
      ghost var d := log.disk;
      assert NeedsText(d, id) == (text != "" && !present);
      ExtendNone(log);
      if text == "" || present {
        return;
      }
      Note(Ask(Text, id, env.now));
      retry := TextReply(env, id);
      ghost var verdict := TextVerdict(d, env, id);
      AskKeeps(old(log), Text, id, env.now);
      ExtendTwice(old(log), [Ask(Text, id, env.now)], verdict);
    }

    method TextReply(env: Env, id: i64) returns (retry: bool)
      requires Valid() && env.dim == dim
      modifies this, ukg, textIndex, imageIndex
      ensures Valid() && log == Extend(old(log), TextVerdict(old(log).disk, env, id))
      ensures env.text(id).Embedded? && |env.text(id).vector.coords| == dim ==>
        HoldsLast(textIndex.View(), id, env.text(id).vector)
      ensures !(env.text(id).Embedded? && |env.text(id).vector.coords| == dim) ==>
        textIndex.View() == old(textIndex.View())
      ensures retry == env.text(id).Retry?
    {
      retry := false;
      match env.text(id)
      case Embedded(v) =>
        if |v.coords| != dim {
          Note(Refuse(id));
        } else {
          InstallSpace(Text, v.space);
          InsertVector(Text, id, v);
          ExtendTwice(old(log), Install(old(log).disk.text, Text, v.space), [InsertRow(Text, id, v)]);
        }
      case Disabled =>
        SetFlag(Text, true);
      case Rejected =>
        Note(Refuse(id));
      case Retry =>
        ExtendNone(log);
        retry := true;
    }

    method StepImage(env: Env, id: i64) returns (step: ImageStep)
      requires Valid()
      modifies this, ukg
      ensures Valid()
      ensures log == Extend(old(log), StepOf(old(log).disk, env, id).0)
      ensures step == StepOf(old(log).disk, env, id).1
    {
      ExtendNone(log);
      var present := HasVector(Image, id);
      var n := if id in ukg.images then ukg.images[id].attempts else 0;
      assert present == Has(log.disk.image, id) && n == Attempts(log.disk, id);
      if present {
        if !(id in ukg.images && ukg.images[id].state == Done) {
          SetState(id, Done, n);
        }
        return Settled(LegDone);
      }
      if id in ukg.images && ukg.images[id].state == Skipped {
        return Settled(Terminal);
      }
      if id !in ukg.captures || ukg.captures[id].timestamp.None? {
        SetState(id, Skipped, n + 1);
        return Settled(Terminal);
      }
      step := ReadImage(env.screenshot(id), id, n);
    }

    method ReadImage(read: ObjectRead, id: i64, n: int) returns (step: ImageStep)
      requires Valid()
      modifies this, ukg
      ensures Valid()
      ensures log == Extend(old(log), ReadOf(read, id, n).0)
      ensures step == ReadOf(read, id, n).1
    {
      ExtendNone(log);
      match read
      case RawOnly =>
        SetState(id, Skipped, n + 1);
        return Settled(Terminal);
      case Missing =>
        SetState(id, Pending, n + 1);
        return Settled(LegRetry);
      case Corrupt =>
        SetState(id, Skipped, n + 1);
        return Settled(Terminal);
      case Unreadable =>
        SetState(id, Pending, n + 1);
        return Settled(LegRetry);
      case Jpeg =>
        return Embed(n);
    }

    method RecordImage(env: Env, id: i64, n: int) returns (leg: ImageLeg)
      requires Valid() && env.dim == dim
      modifies this, ukg, textIndex, imageIndex
      ensures Valid()
      ensures log == Extend(old(log), RecordOf(old(log).disk, env, id, n).0)
      ensures env.image(id).Embedded? && |env.image(id).vector.coords| == dim ==>
        && HoldsLast(imageIndex.View(), id, env.image(id).vector)
        && id in ukg.images && ukg.images[id] == ImageRow(Done, n + 1)
      ensures env.image(id).Rejected? || (env.image(id).Embedded? && |env.image(id).vector.coords| != dim) ==>
        id in ukg.images && ukg.images[id] == ImageRow(Skipped, n + 1)
      ensures env.image(id).Retry? ==> id in ukg.images && ukg.images[id] == ImageRow(Pending, n + 1)
      ensures leg == RecordOf(old(log).disk, env, id, n).1
    {
      match env.image(id)
      case Embedded(v) =>
        if |v.coords| != dim {
          SetState(id, Skipped, n + 1);
          return Terminal;
        }
        InstallSpace(Image, v.space);
        InsertVector(Image, id, v);
        ghost var install := Install(old(log).disk.image, Image, v.space);
        ExtendTwice(old(log), install, [InsertRow(Image, id, v)]);
        SetState(id, Done, n + 1);
        ExtendTwice(old(log), install + [InsertRow(Image, id, v)], [Event.SetState(id, Done, n + 1)]);
        assert install + [InsertRow(Image, id, v)] + [Event.SetState(id, Done, n + 1)]
            == install + [InsertRow(Image, id, v), Event.SetState(id, Done, n + 1)];
        return LegDone;
      case Disabled =>
        SetFlag(Image, true);
        return Unavailable;
      case Rejected =>
        SetState(id, Skipped, n + 1);
        return Terminal;
      case Retry =>
        SetState(id, Pending, n + 1);
        return LegRetry;
    }

    method ImageStage(env: Env, id: i64) returns (leg: ImageLeg)
      requires Valid() && env.dim == dim
      modifies this, ukg, textIndex, imageIndex
      ensures Valid()
      ensures log == Extend(old(log), ImageOf(old(log).disk, env, id).0)
      ensures leg == ImageOf(old(log).disk, env, id).1
    {
      var step := StepImage(env, id);
      match step
      case Settled(l) =>
        leg := l;
      case Embed(n) =>
        ExtendNone(old(log));
        assert log == old(log);
        Note(Ask(Image, id, env.now));
        AskKeeps(old(log), Image, id, env.now);
        leg := RecordImage(env, id, n);
        ExtendTwice(old(log), [Ask(Image, id, env.now)], RecordOf(old(log).disk, env, id, n).0);
    }

    // --------------------------------------------------------------------- queues

    /** Queue 1: the image leg of captures that are already processed. */
    method DrainBackfill(env: Env, ids: seq<i64>) returns (stop: bool)
      requires Valid() && env.dim == dim
      modifies this, ukg, textIndex, imageIndex
      ensures Valid()
      ensures log == Extend(old(log), BackfillLoop(old(log).disk, env, ids).0)
      ensures stop == BackfillLoop(old(log).disk, env, ids).1
    {
      ghost var start := log;
      ghost var es: seq<Event> := [];
      ExtendNone(log);
      assert ids[0..] == ids;
      ghost var all := BackfillLoop(log.disk, env, ids);
      assert [] + all.0 == all.0 && all == (all.0, all.1);
      stop := false;
      var i := 0;
      while i < |ids|
        invariant 0 <= i <= |ids| && Valid() && !stop
        invariant log == Extend(start, es)
        invariant BackfillLoop(start.disk, env, ids)
               == After(es, BackfillLoop(log.disk, env, ids[i..]))
      {
        ghost var here := log;
        ghost var one := BackfillOne(here.disk, env, ids[i]).0;
        BackfillStep(here.disk, env, ids[i..], es);
        assert ids[i..][0] == ids[i] && ids[i..][1..] == ids[i + 1..];
        Touch(ids[i], env.now);
        ExtendOne(here, Event.Touch(ids[i], env.now));
        ghost var image := ImageOf(log.disk, env, ids[i]).0;
        var leg := ImageStage(env, ids[i]);
        ExtendTwice(here, [Event.Touch(ids[i], env.now)], image);
        ExtendTwice(start, es, one);
        es := es + one;
        if leg == Unavailable {
          return true;
        }
        i := i + 1;
      }
      assert ids[i..] == [];
      assert es + [] == es;
    }

    method FreshCapture(env: Env, id: i64, stop: bool) returns (leg: ImageLeg)
      requires Valid() && env.dim == dim
      modifies this, ukg, textIndex, imageIndex
      ensures Valid()
      ensures log == Extend(old(log), FreshOne(old(log).disk, env, id, stop).0)
      ensures leg == FreshOne(old(log).disk, env, id, stop).1
    {
      ghost var touch := [Event.Touch(id, env.now)];
      Touch(id, env.now);
      ExtendOne(old(log), Event.Touch(id, env.now));
      ghost var text := TextLeg(log.disk, env, id);
      var textRetry := TextStage(env, id);
      ExtendTwice(old(log), touch, text);
      ghost var image := FreshImage(log.disk, env, id, stop).0;
      leg := FreshImageStage(env, id, stop);
      ExtendTwice(old(log), touch + text, image);
      ghost var finish := if !textRetry && leg != LegRetry then [Event.MarkProcessed(id)] else [];
      ExtendNone(log);
      if !textRetry && leg != LegRetry {
        MarkProcessed(id);
      }
      ExtendTwice(old(log), touch + text + image, finish);
    }

    method FreshImageStage(env: Env, id: i64, stop: bool) returns (leg: ImageLeg)
      requires Valid() && env.dim == dim
      modifies this, ukg, textIndex, imageIndex
      ensures Valid()
      ensures log == Extend(old(log), FreshImage(old(log).disk, env, id, stop).0)
      ensures leg == FreshImage(old(log).disk, env, id, stop).1
    {
      ExtendNone(log);
      if stop {
        leg := Unavailable;
      } else if id in ukg.captures && ukg.captures[id].token.Some? {
        leg := ImageStage(env, id);
      } else {
        SetState(id, Skipped, 1);
        leg := Terminal;
      }
    }

    /** Queue 2: both legs of fresh captures. */
    method DrainFresh(env: Env, ids: seq<i64>, stopped: bool)
      requires Valid() && env.dim == dim
      modifies this, ukg, textIndex, imageIndex
      ensures Valid()
      ensures log == Extend(old(log), FreshLoop(old(log).disk, env, ids, stopped))
    {
      ghost var start := log;
      ghost var es: seq<Event> := [];
      ExtendNone(log);
      var stop := stopped;
      for i := 0 to |ids|
        invariant Valid()
        invariant log == Extend(start, es)
        invariant FreshLoop(start.disk, env, ids, stopped) == es + FreshLoop(log.disk, env, ids[i..], stop)
      {
        ghost var here := log;
        ghost var one := FreshOne(here.disk, env, ids[i], stop).0;
        assert ids[i..][0] == ids[i] && ids[i..][1..] == ids[i + 1..];
        FreshStep(here.disk, env, ids[i..], stop, es);
        var leg := FreshCapture(env, ids[i], stop);
        ExtendTwice(start, es, one);
        es := es + one;
        if leg == Unavailable {
          stop := true;
        }
      }
      assert ids[|ids|..] == [];
      assert es + [] == es;
    }

    // ----------------------------------------------------------------- the pass

    /** Bring both stores into the spaces the service reports, then re-queue
        what a missing route had left aside. */
    method Prepare(env: Env)
      requires Valid()
      modifies this, ukg, textIndex, imageIndex
      ensures Valid() && log == Extend(old(log), Prologue(old(log).disk, env.spaces))
    {
      ExtendNone(log);
      match env.spaces
      case None =>
      case Some((textSpace, imageSpace)) =>
        PrologueExtends(log, textSpace, imageSpace);
        InstallSpace(Text, textSpace);
        InstallSpace(Image, imageSpace);
        ReturningService(Text);
        ReturningService(Image);
    }

    method SelectBackfill(env: Env) returns (ids: seq<i64>)
      requires Valid()
      ensures ids == QueueAt(log.disk, env, Backfill)
    {
      ids := ukg.CapturesNeedingImageEmbedding(BATCH, env.now, RETRY_BACKOFF_TICKS);
    }

    method SelectFresh(env: Env) returns (ids: seq<i64>)
      requires Valid()
      ensures ids == QueueAt(log.disk, env, Fresh)
    {
      ids := ukg.CapturesPendingEnrichment(BATCH, env.now, RETRY_BACKOFF_TICKS);
    }

    /** One pass over this client. */
    method EnrichClient(env: Env)
      requires Valid() && env.dim == dim
      modifies this, ukg, textIndex, imageIndex
      ensures Valid() && log == Extend(old(log), Pass(old(log).disk, env))
    {
      PassExtends(log, env);
      Prepare(env);
      var backfill := SelectBackfill(env);
      var pending := SelectFresh(env);
      if |backfill| == 0 && |pending| == 0 {
        ExtendNone(log);
        return;
      }
      var stop := DrainBackfill(env, backfill);
      DrainFresh(env, pending, stop);
    }
  }

  /** The start of a pass, each part reading the state the previous one left. */
  lemma PrologueExtends(l: Log, t: string, i: string)
    ensures var l1 := Extend(l, Install(l.disk.text, Text, t));
      var l2 := Extend(l1, Install(l1.disk.image, Image, i));
      var l3 := Extend(l2, if Raised(l2.disk, Text) then Lower(Text) else []);
      var l4 := Extend(l3, if Raised(l3.disk, Image) then Lower(Image) else []);
      Extend(l, Prologue(l.disk, Some((t, i)))) == l4
  {
    var d := l.disk;
    var a, b := Install(d.text, Text, t), Install(d.image, Image, i);
    var c := if Raised(d, Text) then Lower(Text) else [];
    var e := if Raised(d, Image) then Lower(Image) else [];
    var l1 := Extend(l, a);
    InstallKeeps(d.text, Text, t, d);
    var l2 := Extend(l1, b);
    InstallKeeps(d.image, Image, i, l1.disk);
    var l3 := Extend(l2, c);
    if Raised(l2.disk, Text) {
      LowerKeeps(Text, l2.disk);
    } else {
      ExtendNone(l2);
    }
    ExtendTwice(l, a, b);
    ExtendTwice(l, a + b, c);
    ExtendTwice(l, a + b + c, e);
  }

  /** A pass: its start, then the two queues as they stood after the start. */
  lemma PassExtends(l: Log, env: Env)
    ensures var l1 := Extend(l, Prologue(l.disk, env.spaces));
      var (first, stop) := BackfillLoop(l1.disk, env, QueueAt(l1.disk, env, Backfill));
      var l2 := Extend(l1, first);
      Extend(l, Pass(l.disk, env)) == Extend(l2, FreshLoop(l2.disk, env, QueueAt(l1.disk, env, Fresh), stop))
  {
    var begin := Prologue(l.disk, env.spaces);
    var l1 := Extend(l, begin);
    var (first, stop) := BackfillLoop(l1.disk, env, QueueAt(l1.disk, env, Backfill));
    var l2 := Extend(l1, first);
    var second := FreshLoop(l2.disk, env, QueueAt(l1.disk, env, Fresh), stop);
    ExtendTwice(l1, first, second);
    ExtendTwice(l, begin, first + second);
  }

  ghost function After(es: seq<Event>, r: (seq<Event>, bool)): (seq<Event>, bool) {
    (es + r.0, r.1)
  }

  lemma BackfillStep(d: Disk, env: Env, ids: seq<i64>, es: seq<Event>)
    requires ids != []
    ensures var (one, leg) := BackfillOne(d, env, ids[0]);
      After(es, BackfillLoop(d, env, ids)) ==
      if leg == Unavailable then (es + one, true)
      else After(es + one, BackfillLoop(Run(one, d), env, ids[1..]))
  {
    var (one, leg) := BackfillOne(d, env, ids[0]);
    var rest := BackfillLoop(Run(one, d), env, ids[1..]).0;
    assert es + (one + rest) == es + one + rest;
  }

  lemma FreshStep(d: Disk, env: Env, ids: seq<i64>, stop: bool, es: seq<Event>)
    requires ids != []
    ensures var (one, leg) := FreshOne(d, env, ids[0], stop);
      es + FreshLoop(d, env, ids, stop)
      == es + one + FreshLoop(Run(one, d), env, ids[1..], stop || leg == Unavailable)
  {
    var (one, leg) := FreshOne(d, env, ids[0], stop);
    var rest := FreshLoop(Run(one, d), env, ids[1..], stop || leg == Unavailable);
    assert es + (one + rest) == es + one + rest;
  }

  /** Calling the embedder changes nothing that a stage reads. */
  lemma AskKeeps(l: Log, leg: Leg, id: i64, now: int)
    ensures var d := Extend(l, [Ask(leg, id, now)]).disk;
      d == l.disk.(asked := l.disk.asked + {(leg, id)})
  {
    ExtendOne(l, Ask(leg, id, now));
  }

  /** Installing a space touches neither the other store nor the flags. */
  lemma InstallKeeps(s: Store, leg: Leg, space: string, d: Disk)
    ensures var after := Run(Install(s, leg, space), d);
      && after.ukg.config == d.ukg.config
      && (leg == Text ==> after.image == d.image)
      && (leg == Image ==> after.text == d.text)
  {
    if SpaceMismatch(s, space) {
      Run3(Clear(leg, space), Requeue(leg), SetSpace(leg, space), d);
      assert Install(s, leg, space) == [Clear(leg, space), Requeue(leg), SetSpace(leg, space)];
    } else {
      assert Install(s, leg, space) == [SetSpace(leg, space)];
      Run1(SetSpace(leg, space), d);
    }
  }

  /** Storing a reply: the store is brought into its space, then gains the row. */
  lemma InstallThenInsert(d: Disk, leg: Leg, id: i64, v: Vector)
    ensures var d1 := Run(Install(StoreOf(d, leg), leg, v.space), d);
      && Run(Install(StoreOf(d, leg), leg, v.space) + [InsertRow(leg, id, v)], d) == Apply(InsertRow(leg, id, v), d1)
      && d1 == if SpaceMismatch(StoreOf(d, leg), v.space)
               then Apply(SetSpace(leg, v.space), Apply(Requeue(leg), Apply(Clear(leg, v.space), d)))
               else Apply(SetSpace(leg, v.space), d)
  {
    var es := Install(StoreOf(d, leg), leg, v.space);
    RunAppend(es, [InsertRow(leg, id, v)], d);
    Run1(InsertRow(leg, id, v), Run(es, d));
    Run1(SetSpace(leg, v.space), d);
    Run3(Clear(leg, v.space), Requeue(leg), SetSpace(leg, v.space), d);
    assert es == if SpaceMismatch(StoreOf(d, leg), v.space)
      then [Clear(leg, v.space), Requeue(leg), SetSpace(leg, v.space)] else [SetSpace(leg, v.space)];
  }

  lemma LowerKeeps(leg: Leg, d: Disk)
    requires Raised(d, leg)
    ensures var other := if leg == Text then Image else Text;
      Raised(Run(Lower(leg), d), other) == Raised(d, other)
  {
    Run2(Lower(leg)[0], Lower(leg)[1], d);
  }

  lemma Run1(e: Event, d: Disk)
    ensures Run([e], d) == Apply(e, d)
  {
  }

  lemma Run2(e0: Event, e1: Event, d: Disk)
    ensures Run([e0, e1], d) == Apply(e1, Apply(e0, d))
  {
    assert [e0, e1][1..] == [e1];
    Run1(e1, Apply(e0, d));
  }

  lemma Run3(e0: Event, e1: Event, e2: Event, d: Disk)
    ensures Run([e0, e1, e2], d) == Apply(e2, Apply(e1, Apply(e0, d)))
  {
    assert [e0, e1, e2][1..] == [e1, e2];
    Run2(e1, e2, Apply(e0, d));
  }
}
