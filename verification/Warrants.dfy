/** Why a pass may write what it writes: every verdict, flag and row has its reason
    in a reply or in the object store, in passes of every kind. */
module Warrants {
  import opened Prelude
  import opened Semantic
  import opened UkgDb
  import opened Protocol
  import opened Enrichment
  import opened Safety
  import opened PassSafety
  import opened Outcomes

  /** The image can never be embedded: nothing to read, or the service said no. */
  predicate Lost(u: Tables, env: Env, id: i64) {
    || Token(u, id).None? || Timestamp(u, id).None?
    || env.screenshot(id).RawOnly? || env.screenshot(id).Corrupt?
    || (env.screenshot(id).Jpeg? && Declined(env, env.image(id)))
  }

  ghost predicate Warranted(u: Tables, env: Env, e: Event) {
    match e
    case SetState(id, state, _) => state == Skipped ==> Lost(u, env, id)
    case Refuse(id) => Declined(env, env.text(id))
    case SetFlag(leg, up) => up ==> exists id :: Reply(env, leg, id).Disabled?
    case InsertRow(leg, id, v) =>
      Reply(env, leg, id) == Embedded(v) && |v.coords| == env.dim && (leg == Image ==> env.screenshot(id).Jpeg?)
    case Arrive(_, _) => false
    case _ => true
  }

  ghost predicate AllWarranted(u: Tables, env: Env, es: seq<Event>) {
    forall k :: 0 <= k < |es| ==> Warranted(u, env, es[k])
  }

  lemma WarrantedAppend(u: Tables, env: Env, a: seq<Event>, b: seq<Event>)
    requires AllWarranted(u, env, a) && AllWarranted(u, env, b)
    ensures AllWarranted(u, env, a + b)
  {
  }

  /** The reasons do not change during a pass. */
  ghost predicate SameReasons(u: Tables, w: Tables) {
    forall id :: Token(u, id) == Token(w, id) && Timestamp(u, id) == Timestamp(w, id)
  }

  lemma {:induction false} ReasonsKept(d: Disk, u: Tables, env: Env, es: seq<Event>)
    requires AllWarranted(u, env, es)
    ensures SameReasons(d.ukg, Run(es, d).ukg)
    decreases |es|
  {
    if es != [] {
      assert Warranted(u, env, es[0]) && AllWarranted(u, env, es[1..]);
      ReasonsKept(Apply(es[0], d), u, env, es[1..]);
    }
  }

  lemma ReasonsShared(u: Tables, w: Tables, env: Env, es: seq<Event>)
    requires SameReasons(u, w)
    ensures AllWarranted(u, env, es) <==> AllWarranted(w, env, es)
  {
    forall e ensures Warranted(u, env, e) <==> Warranted(w, env, e) {
      match e
      case SetState(id, _, _) => assert Lost(u, env, id) <==> Lost(w, env, id);
      case _ =>
    }
  }

  // ------------------------------------------------------------ every stage of a pass

  lemma InstallWarranted(u: Tables, env: Env, s: Store, leg: Leg, space: string)
    ensures AllWarranted(u, env, Install(s, leg, space))
  {
  }

  lemma TextWarranted(d: Disk, env: Env, id: i64)
    ensures AllWarranted(d.ukg, env, TextLeg(d, env, id))
  {
    var reply := env.text(id);
    assert reply == Reply(env, Text, id);
    if reply.Embedded? { InstallWarranted(d.ukg, env, d.text, Text, reply.vector.space); }
    assert AllWarranted(d.ukg, env, TextVerdict(d, env, id));
  }

  lemma RecordWarranted(d: Disk, env: Env, id: i64, n: int)
    requires env.screenshot(id).Jpeg?
    ensures AllWarranted(d.ukg, env, RecordOf(d, env, id, n).0)
  {
    var reply := env.image(id);
    assert reply == Reply(env, Image, id);
    if reply.Embedded? { InstallWarranted(d.ukg, env, d.image, Image, reply.vector.space); }
  }

  lemma ImageWarranted(d: Disk, env: Env, id: i64)
    ensures AllWarranted(d.ukg, env, ImageOf(d, env, id).0)
  {
    var (before, step) := StepOf(d, env, id);
    if step.Embed? {
      RecordWarranted(d, env, id, step.attempts);
    }
  }

  lemma BackfillOneWarranted(d: Disk, env: Env, id: i64)
    ensures AllWarranted(d.ukg, env, BackfillOne(d, env, id).0)
  {
    var d1 := Apply(Touch(id, env.now), d);
    ImageWarranted(d1, env, id);
    ReasonsShared(d.ukg, d1.ukg, env, ImageOf(d1, env, id).0);
    WarrantedAppend(d.ukg, env, [Touch(id, env.now)], ImageOf(d1, env, id).0);
  }

  lemma FreshOneWarranted(d: Disk, env: Env, id: i64, stop: bool)
    ensures AllWarranted(d.ukg, env, FreshOne(d, env, id, stop).0)
  {
    var u := d.ukg;
    var d1, d2, d3, retry, leg, e := FreshParts(d, env, id, stop);
    var text, image := TextLeg(d1, env, id), FreshImage(d2, env, id, stop).0;
    TextWarranted(d1, env, id);
    ReasonsKept(d1, d1.ukg, env, text);
    if !stop && Token(d2.ukg, id).Some? { ImageWarranted(d2, env, id); }
    assert AllWarranted(d2.ukg, env, image);
    ReasonsShared(u, d1.ukg, env, text);
    ReasonsShared(u, d2.ukg, env, image);
    var finish := if !retry && leg != LegRetry then [MarkProcessed(id)] else [];
    WarrantedAppend(u, env, [Touch(id, env.now)], text);
    WarrantedAppend(u, env, [Touch(id, env.now)] + text, image);
    WarrantedAppend(u, env, [Touch(id, env.now)] + text + image, finish);
  }

  lemma {:induction false} BackfillWarranted(d: Disk, env: Env, ids: seq<i64>)
    ensures AllWarranted(d.ukg, env, BackfillLoop(d, env, ids).0)
    decreases |ids|
  {
    if ids != [] {
      var (one, leg) := BackfillOne(d, env, ids[0]);
      BackfillOneWarranted(d, env, ids[0]);
      if leg != Unavailable {
        var d1 := Run(one, d);
        var rest := BackfillLoop(d1, env, ids[1..]).0;
        BackfillWarranted(d1, env, ids[1..]);
        ReasonsKept(d, d.ukg, env, one);
        ReasonsShared(d.ukg, d1.ukg, env, rest);
        WarrantedAppend(d.ukg, env, one, rest);
      }
    }
  }

  lemma {:induction false} FreshWarranted(d: Disk, env: Env, ids: seq<i64>, stop: bool)
    ensures AllWarranted(d.ukg, env, FreshLoop(d, env, ids, stop))
    decreases |ids|
  {
    if ids != [] {
      var (one, leg) := FreshOne(d, env, ids[0], stop);
      var d1 := Run(one, d);
      var rest := FreshLoop(d1, env, ids[1..], stop || leg == Unavailable);
      FreshOneWarranted(d, env, ids[0], stop);
      FreshWarranted(d1, env, ids[1..], stop || leg == Unavailable);
      ReasonsKept(d, d.ukg, env, one);
      ReasonsShared(d.ukg, d1.ukg, env, rest);
      WarrantedAppend(d.ukg, env, one, rest);
    }
  }

  lemma WorkWarranted(d: Disk, env: Env)
    ensures AllWarranted(d.ukg, env, Work(d, env))
  {
    var (first, stop) := BackfillLoop(d, env, QueueAt(d, env, Backfill));
    var d1 := Run(first, d);
    var second := FreshLoop(d1, env, QueueAt(d, env, Fresh), stop);
    BackfillWarranted(d, env, QueueAt(d, env, Backfill));
    FreshWarranted(d1, env, QueueAt(d, env, Fresh), stop);
    ReasonsKept(d, d.ukg, env, first);
    ReasonsShared(d.ukg, d1.ukg, env, second);
    WarrantedAppend(d.ukg, env, first, second);
  }

  lemma StartWarranted(d: Disk, env: Env)
    ensures AllWarranted(d.ukg, env, Prologue(d, env.spaces))
  {
    match env.spaces
    case None =>
    case Some((t, i)) =>
      var a, b := Install(d.text, Text, t), Install(d.image, Image, i);
      var c := if Raised(d, Text) then Lower(Text) else [];
      var f := if Raised(d, Image) then Lower(Image) else [];
      InstallWarranted(d.ukg, env, d.text, Text, t);
      InstallWarranted(d.ukg, env, d.image, Image, i);
      WarrantedAppend(d.ukg, env, a, b);
      WarrantedAppend(d.ukg, env, a + b, c);
      WarrantedAppend(d.ukg, env, a + b + c, f);
  }

  lemma PassWarranted(d: Disk, env: Env)
    ensures AllWarranted(d.ukg, env, Pass(d, env))
  {
    var begin := Prologue(d, env.spaces);
    var b := Run(begin, d);
    StartWarranted(d, env);
    WorkWarranted(b, env);
    ReasonsKept(d, d.ukg, env, begin);
    ReasonsShared(d.ukg, b.ukg, env, Work(b, env));
    WarrantedAppend(d.ukg, env, begin, Work(b, env));
  }

  // --------------------------------------------------------------- what follows

  lemma {:induction false} SkippedFor(d: Disk, u: Tables, env: Env, es: seq<Event>, id: i64)
    requires AllWarranted(u, env, es) && HasState(Run(es, d).ukg, id, Skipped)
    ensures HasState(d.ukg, id, Skipped) || Lost(u, env, id)
    decreases |es|
  {
    if es != [] {
      assert Warranted(u, env, es[0]) && AllWarranted(u, env, es[1..]);
      SkippedFor(Apply(es[0], d), u, env, es[1..], id);
    }
  }

  /** An image is skipped after a pass only if it was before, has no token or no
      timestamp, has no readable JPEG, or the service turned it down: never because
      something failed that may pass. */
  lemma SkippedOnlyForCause(d: Disk, env: Env, id: i64)
    requires HasState(Run(Pass(d, env), d).ukg, id, Skipped)
    ensures
      || HasState(d.ukg, id, Skipped)
      || Token(d.ukg, id).None? || Timestamp(d.ukg, id).None?
      || env.screenshot(id).RawOnly? || env.screenshot(id).Corrupt?
      || (env.screenshot(id).Jpeg?
          && (env.image(id).Rejected? || (env.image(id).Embedded? && |env.image(id).vector.coords| != env.dim)))
  {
    PassWarranted(d, env);
    SkippedFor(d, d.ukg, env, Pass(d, env), id);
  }

  lemma {:induction false} RefusedFor(d: Disk, u: Tables, env: Env, es: seq<Event>, id: i64)
    requires AllWarranted(u, env, es) && id in Run(es, d).refused
    ensures id in d.refused || Declined(env, env.text(id))
    decreases |es|
  {
    if es != [] {
      assert Warranted(u, env, es[0]) && AllWarranted(u, env, es[1..]);
      RefusedFor(Apply(es[0], d), u, env, es[1..], id);
    }
  }

  lemma {:induction false} RaisedFor(d: Disk, u: Tables, env: Env, es: seq<Event>, leg: Leg)
    requires AllWarranted(u, env, es) && Raised(Run(es, d), leg)
    ensures Raised(d, leg) || exists id :: Reply(env, leg, id).Disabled?
    decreases |es|
  {
    if es != [] {
      var d1 := Apply(es[0], d);
      assert Warranted(u, env, es[0]) && AllWarranted(u, env, es[1..]);
      RaisedFor(d1, u, env, es[1..], leg);
      if Raised(d1, leg) && !Raised(d, leg) {
        FlagRises(d, es[0], leg);
      }
    }
  }

  lemma FlagRises(d: Disk, e: Event, leg: Leg)
    requires !Raised(d, leg) && Raised(Apply(e, d), leg)
    ensures e == SetFlag(leg, true)
  {
  }

  /** A text counts as refused after a pass only if it did before or the service
      turned it down, and a leg's flag stands raised only if it did before or the
      service said that the route is absent. */
  lemma RefusedAndFlaggedOnlyForCause(d: Disk, env: Env, id: i64, leg: Leg)
    ensures var e := Run(Pass(d, env), d);
      && (id in e.refused ==>
            || id in d.refused || env.text(id).Rejected?
            || (env.text(id).Embedded? && |env.text(id).vector.coords| != env.dim))
      && (Raised(e, leg) ==> Raised(d, leg) || exists x :: Reply(env, leg, x).Disabled?)
  {
    PassWarranted(d, env);
    var e := Run(Pass(d, env), d);
    if id in e.refused { RefusedFor(d, d.ukg, env, Pass(d, env), id); }
    if Raised(e, leg) { RaisedFor(d, d.ukg, env, Pass(d, env), leg); }
  }

  // ------------------------------------------------------ images that have to wait

  /** Not embedded, not recorded as done and not given up. */
  ghost predicate Open(d: Disk, id: i64) {
    !Has(d.image, id) && !HasState(d.ukg, id, Done) && !HasState(d.ukg, id, Skipped)
  }

  lemma {:induction false} StaysOpen(d: Disk, dim: nat, u: Tables, env: Env, es: seq<Event>, id: i64)
    requires Lawful(d, dim, false, es) && AllWarranted(u, env, es)
    requires Open(d, id) && !Lost(u, env, id) && Passing(env, id)
    ensures Open(Run(es, d), id)
    decreases |es|
  {
    if es != [] {
      var e, d1 := es[0], Apply(es[0], d);
      assert Warranted(u, env, e) && AllWarranted(u, env, es[1..]);
      assert Open(d1, id) by {
        if e.InsertRow? && e.leg == Image {
          assert e.id != id;
          HasInsert(d.image, e.id, e.vector);
        }
      }
      StaysOpen(d1, dim, u, env, es[1..], id);
    }
  }

  /** An image whose attempt fails for a reason that may pass is, after any pass, in
      one of the two queues: fresh, or processed without embedding or verdict. */
  lemma FailedImageStaysQueued(d: Disk, dim: nat, env: Env, id: i64)
    requires Inv(d, dim) && Honest(env) && env.dim == dim && Open(d, id)
    requires Token(d.ukg, id).Some? && Timestamp(d.ukg, id).Some?
    requires || env.screenshot(id).Missing? || env.screenshot(id).Unreadable?
             || (env.screenshot(id).Jpeg? && env.image(id).Retry?)
    ensures var e := Run(Pass(d, env), d);
      && id in e.ukg.captures && e.ukg.captures[id].token.Some?
      && (id in e.ukg.images ==> e.ukg.images[id].state == Pending) && !Has(e.image, id)
      && (Member(e.ukg, Backfill, id) || Member(e.ukg, Fresh, id))
  {
    PassKeepsOpen(d, dim, env, id);
    OpenIsQueued(Run(Pass(d, env), d), id);
  }

  lemma PassKeepsOpen(d: Disk, dim: nat, env: Env, id: i64)
    requires Inv(d, dim) && Honest(env) && env.dim == dim && Open(d, id)
    requires !Lost(d.ukg, env, id) && Passing(env, id)
    ensures var e := Run(Pass(d, env), d);
      Open(e, id) && Token(e.ukg, id) == Token(d.ukg, id)
  {
    var pass := Pass(d, env);
    PassWarranted(d, env);
    PassConduct(d, dim, false, env);
    ReasonsKept(d, d.ukg, env, pass);
    StaysOpen(d, dim, d.ukg, env, pass, id);
  }

  lemma OpenIsQueued(e: Disk, id: i64)
    requires Open(e, id) && Token(e.ukg, id).Some?
    ensures id in e.ukg.captures && e.ukg.captures[id].token.Some?
    ensures (id in e.ukg.images ==> e.ukg.images[id].state == Pending) && !Has(e.image, id)
    ensures Member(e.ukg, Backfill, id) || Member(e.ukg, Fresh, id)
  {
    QueuesExhaust(e.ukg, id);
  }

  // --------------------------------------------------------------- an absent route

  predicate AsksImage(e: Event) {
    e.Ask? && e.leg == Image
  }

  ghost predicate NoImageAsk(es: seq<Event>) {
    forall k :: 0 <= k < |es| ==> !AsksImage(es[k])
  }

  /** Some image call of the list was told that the route is absent. */
  ghost predicate ToldAbsent(env: Env, es: seq<Event>) {
    exists k :: 0 <= k < |es| && AsksImage(es[k]) && env.image(es[k].id).Disabled?
  }

  /** No image call follows such an answer. */
  ghost predicate StopsAsking(env: Env, es: seq<Event>) {
    forall i, j :: 0 <= i < j < |es| && AsksImage(es[i]) && env.image(es[i].id).Disabled? ==> !AsksImage(es[j])
  }

  lemma StopsAppend(env: Env, a: seq<Event>, b: seq<Event>)
    requires StopsAsking(env, a) && StopsAsking(env, b) && (ToldAbsent(env, a) ==> NoImageAsk(b))
    ensures StopsAsking(env, a + b)
    ensures ToldAbsent(env, a + b) ==> ToldAbsent(env, a) || ToldAbsent(env, b)
    ensures NoImageAsk(a) && NoImageAsk(b) ==> NoImageAsk(a + b)
  {
    var es := a + b;
    forall i, j | 0 <= i < j < |es| && AsksImage(es[i]) && env.image(es[i].id).Disabled? ensures !AsksImage(es[j]) {
      if i < |a| && j >= |a| {
        assert AsksImage(a[i]) && ToldAbsent(env, a);
        assert es[j] == b[j - |a|];
      } else if i >= |a| {
        assert es[i] == b[i - |a|] && es[j] == b[j - |a|];
      }
    }
    if k :| 0 <= k < |es| && AsksImage(es[k]) && env.image(es[k].id).Disabled? {
      if k < |a| {
        assert AsksImage(a[k]);
      } else {
        assert AsksImage(b[k - |a|]);
      }
    }
  }

  lemma QuietText(d: Disk, env: Env, id: i64)
    ensures NoImageAsk(TextLeg(d, env, id))
  {
  }

  lemma ImageAsksOnce(d: Disk, env: Env, id: i64)
    ensures var (es, leg) := ImageOf(d, env, id);
      StopsAsking(env, es) && (ToldAbsent(env, es) ==> leg == Unavailable)
  {
    var (before, step) := StepOf(d, env, id);
    assert NoImageAsk(before);
    if step.Embed? {
      assert NoImageAsk(RecordOf(d, env, id, step.attempts).0);
    }
  }

  lemma BackfillOneAsks(d: Disk, env: Env, id: i64)
    ensures var (es, leg) := BackfillOne(d, env, id);
      StopsAsking(env, es) && (ToldAbsent(env, es) ==> leg == Unavailable)
  {
    var d1 := Apply(Touch(id, env.now), d);
    ImageAsksOnce(d1, env, id);
    StopsAppend(env, [Touch(id, env.now)], ImageOf(d1, env, id).0);
  }

  lemma FreshOneAsks(d: Disk, env: Env, id: i64, stop: bool)
    ensures var (es, leg) := FreshOne(d, env, id, stop);
      StopsAsking(env, es) && (ToldAbsent(env, es) ==> leg == Unavailable) && (stop ==> NoImageAsk(es))
  {
    var d1, d2, d3, retry, leg, e := FreshParts(d, env, id, stop);
    var touch, text, image := [Touch(id, env.now)], TextLeg(d1, env, id), FreshImage(d2, env, id, stop).0;
    var finish := if !retry && leg != LegRetry then [MarkProcessed(id)] else [];
    QuietText(d1, env, id);
    if !stop && Token(d2.ukg, id).Some? { ImageAsksOnce(d2, env, id); }
    StopsAppend(env, touch, text);
    StopsAppend(env, touch + text, image);
    StopsAppend(env, touch + text + image, finish);
  }

  lemma {:induction false} BackfillAsks(d: Disk, env: Env, ids: seq<i64>)
    ensures var (es, stop) := BackfillLoop(d, env, ids);
      StopsAsking(env, es) && (ToldAbsent(env, es) ==> stop)
    decreases |ids|
  {
    if ids != [] {
      var (one, leg) := BackfillOne(d, env, ids[0]);
      BackfillOneAsks(d, env, ids[0]);
      if leg != Unavailable {
        BackfillAsks(Run(one, d), env, ids[1..]);
        StopsAppend(env, one, BackfillLoop(Run(one, d), env, ids[1..]).0);
      }
    }
  }

  lemma {:induction false} FreshAsks(d: Disk, env: Env, ids: seq<i64>, stop: bool)
    ensures var es := FreshLoop(d, env, ids, stop);
      StopsAsking(env, es) && (stop ==> NoImageAsk(es))
    decreases |ids|
  {
    if ids != [] {
      var (one, leg) := FreshOne(d, env, ids[0], stop);
      var rest := FreshLoop(Run(one, d), env, ids[1..], stop || leg == Unavailable);
      FreshOneAsks(d, env, ids[0], stop);
      FreshAsks(Run(one, d), env, ids[1..], stop || leg == Unavailable);
      StopsAppend(env, one, rest);
    }
  }

  /** Once an image call is told that the route is absent, no further image is sent
      in that pass, from either queue. */
  lemma AbsentRouteAskedOnce(d: Disk, env: Env, i: nat, j: nat)
    requires var es := Work(d, env);
      i < j < |es| && es[i].Ask? && es[i].leg == Image && env.image(es[i].id).Disabled?
    ensures var es := Work(d, env);
      !(es[j].Ask? && es[j].leg == Image)
  {
    var (first, stop) := BackfillLoop(d, env, QueueAt(d, env, Backfill));
    var second := FreshLoop(Run(first, d), env, QueueAt(d, env, Fresh), stop);
    BackfillAsks(d, env, QueueAt(d, env, Backfill));
    FreshAsks(Run(first, d), env, QueueAt(d, env, Fresh), stop);
    StopsAppend(env, first, second);
    assert AsksImage(Work(d, env)[i]);
    assert !AsksImage(Work(d, env)[j]);
  }
}
