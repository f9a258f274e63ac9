/** Captures that the broker stores while a pass is running. */
module Arrivals {
  import opened Prelude
  import opened Semantic
  import opened UkgDb
  import opened Protocol
  import opened Enrichment

  predicate Mentions(e: Event, id: i64) {
    match e
    case Touch(i, _) => i == id
    case SetState(i, _, _) => i == id
    case MarkProcessed(i) => i == id
    case Arrive(i, _) => i == id
    case _ => false
  }

  /** No event is about the capture itself. */
  ghost predicate Elsewhere(es: seq<Event>, id: i64) {
    forall k :: 0 <= k < |es| ==> !Mentions(es[k], id)
  }

  lemma UnprocessCommutes(u: Tables, id: i64, c: Capture)
    requires id !in u.captures && !c.processed
    ensures UnprocessAll(AddCapture(u, id, c)) == AddCapture(UnprocessAll(u), id, c)
  {
    assert UnprocessAll(AddCapture(u, id, c)).captures == AddCapture(UnprocessAll(u), id, c).captures;
  }

  lemma ProcessCommutes(u: Tables, id: i64, c: Capture, i: i64)
    requires id !in u.captures && i != id
    ensures Process(AddCapture(u, id, c), i) == AddCapture(Process(u, i), id, c)
  {
    assert Process(AddCapture(u, id, c), i).captures == AddCapture(Process(u, i), id, c).captures;
  }

  lemma AddCommutes(u: Tables, id: i64, c: Capture, i: i64, other: Capture)
    requires i != id
    ensures AddCapture(AddCapture(u, id, c), i, other) == AddCapture(AddCapture(u, i, other), id, c)
  {
    assert AddCapture(AddCapture(u, id, c), i, other).captures == AddCapture(AddCapture(u, i, other), id, c).captures;
  }

  lemma CommutesOne(d: Disk, e: Event, id: i64, c: Capture)
    requires id !in d.ukg.captures && !c.processed && !Mentions(e, id)
    ensures Apply(e, Apply(Arrive(id, c), d)) == Apply(Arrive(id, c), Apply(e, d))
    ensures id !in Apply(e, d).ukg.captures
  {
    match e
    case MarkProcessed(i) => ProcessCommutes(d.ukg, id, c, i);
    case Arrive(i, other) => AddCommutes(d.ukg, id, c, i, other);
    case UnmarkAll => UnprocessCommutes(d.ukg, id, c);
    case _ =>
  }

  /** An arrival may be moved past any writes that are not about it: a pass cut
      anywhere leaves the same state whether the capture came before or after. */
  lemma {:induction false} ArrivalCommutes(d: Disk, es: seq<Event>, id: i64, c: Capture)
    requires id !in d.ukg.captures && !c.processed && Elsewhere(es, id)
    ensures Run(es, Apply(Arrive(id, c), d)) == Apply(Arrive(id, c), Run(es, d))
    ensures id !in Run(es, d).ukg.captures
    decreases |es|
  {
    if es != [] {
      CommutesOne(d, es[0], id, c);
      assert Elsewhere(es[1..], id);
      ArrivalCommutes(Apply(es[0], d), es[1..], id, c);
    }
  }

  lemma FreshOneUnaffected(d: Disk, env: Env, x: i64, stop: bool, id: i64, c: Capture)
    requires id !in d.ukg.captures && !c.processed && x != id
    ensures var later := Apply(Arrive(id, c), d);
      && FreshOne(later, env, x, stop) == FreshOne(d, env, x, stop)
      && BackfillOne(later, env, x) == BackfillOne(d, env, x)
      && Elsewhere(FreshOne(d, env, x, stop).0, id) && Elsewhere(BackfillOne(d, env, x).0, id)
  {
    var later := Apply(Arrive(id, c), d);
    var touch := Touch(x, env.now);
    var d1 := Apply(touch, d);
    CommutesOne(d, touch, id, c);
    StagesUnaffected(d1, env, x, stop, id, c);
    var text := TextLeg(d1, env, x);
    ArrivalCommutes(d1, text, id, c);
    StagesUnaffected(Run(text, d1), env, x, stop, id, c);
  }

  lemma StagesUnaffected(d: Disk, env: Env, x: i64, stop: bool, id: i64, c: Capture)
    requires id !in d.ukg.captures && !c.processed && x != id
    ensures var later := Apply(Arrive(id, c), d);
      && TextLeg(later, env, x) == TextLeg(d, env, x) && TextRetries(later, env, x) == TextRetries(d, env, x)
      && ImageOf(later, env, x) == ImageOf(d, env, x)
      && FreshImage(later, env, x, stop) == FreshImage(d, env, x, stop)
      && Elsewhere(TextLeg(d, env, x), id) && Elsewhere(ImageOf(d, env, x).0, id)
      && Elsewhere(FreshImage(d, env, x, stop).0, id)
  {
    TextUnaffected(d, env, x, id, c);
    ImageUnaffected(d, env, x, id, c);
    var later := Apply(Arrive(id, c), d);
    assert Token(later.ukg, x) == Token(d.ukg, x);
  }

  lemma InstallElsewhere(s: Store, leg: Leg, space: string, id: i64)
    ensures Elsewhere(Install(s, leg, space), id)
  {
  }

  lemma TextUnaffected(d: Disk, env: Env, x: i64, id: i64, c: Capture)
    requires id !in d.ukg.captures && x != id
    ensures var later := Apply(Arrive(id, c), d);
      && TextLeg(later, env, x) == TextLeg(d, env, x) && TextRetries(later, env, x) == TextRetries(d, env, x)
      && Elsewhere(TextLeg(d, env, x), id)
  {
    var later := Apply(Arrive(id, c), d);
    assert OcrText(later.ukg, x) == OcrText(d.ukg, x);
    assert TextVerdict(later, env, x) == TextVerdict(d, env, x);
    if env.text(x).Embedded? { InstallElsewhere(d.text, Text, env.text(x).vector.space, id); }
    assert Elsewhere(TextVerdict(d, env, x), id);
  }

  lemma ImageUnaffected(d: Disk, env: Env, x: i64, id: i64, c: Capture)
    requires id !in d.ukg.captures && x != id
    ensures var later := Apply(Arrive(id, c), d);
      ImageOf(later, env, x) == ImageOf(d, env, x) && Elsewhere(ImageOf(d, env, x).0, id)
  {
    var later := Apply(Arrive(id, c), d);
    assert Timestamp(later.ukg, x) == Timestamp(d.ukg, x);
    assert StepOf(later, env, x) == StepOf(d, env, x);
    var n := Attempts(d, x);
    assert RecordOf(later, env, x, n) == RecordOf(d, env, x, n);
    if env.image(x).Embedded? { InstallElsewhere(d.image, Image, env.image(x).vector.space, id); }
    assert Elsewhere(RecordOf(d, env, x, n).0, id);
  }

  /** The rest of both queues runs as if the capture had not arrived. */
  lemma {:induction false} QueuesUnaffected(d: Disk, env: Env, ids: seq<i64>, stop: bool, id: i64, c: Capture)
    requires id !in d.ukg.captures && !c.processed && id !in ids
    ensures var later := Apply(Arrive(id, c), d);
      && FreshLoop(later, env, ids, stop) == FreshLoop(d, env, ids, stop)
      && BackfillLoop(later, env, ids) == BackfillLoop(d, env, ids)
    decreases |ids|
  {
    if ids != [] {
      var (f, fLeg) := FreshOne(d, env, ids[0], stop);
      var (b, bLeg) := BackfillOne(d, env, ids[0]);
      FreshOneUnaffected(d, env, ids[0], stop, id, c);
      ArrivalCommutes(d, f, id, c);
      ArrivalCommutes(d, b, id, c);
      QueuesUnaffected(Run(f, d), env, ids[1..], stop || fLeg == Unavailable, id, c);
      QueuesUnaffected(Run(b, d), env, ids[1..], stop, id, c);
    }
  }
}
