/** What an attempt does to the one capture it is made on, told on that capture's
    own data: its row, its verdict, its clock and its embeddings. */
module Outcomes {
  import opened Prelude
  import opened Semantic
  import opened UkgDb
  import opened Protocol
  import opened Enrichment

  /** Everything the databases hold about one capture, and whether its text was
      terminally refused. */
  datatype Local = Local(
    capture: Option<Capture>,
    image: Option<ImageRow>,
    attempt: Option<int>,
    text: seq<Vector>,
    pictures: seq<Vector>,
    refused: bool)

  function Lookup<V>(m: map<i64, V>, id: i64): Option<V> {
    if id in m then Some(m[id]) else None
  }

  function VectorsOf(rows: seq<Row>, id: i64): seq<Vector> {
    if rows == [] then []
    else
      var last := rows[|rows| - 1];
      VectorsOf(rows[..|rows| - 1], id) + if last.capture == id then [last.vector] else []
  }

  function LocalOf(d: Disk, id: i64): Local {
    Local(
      Lookup(d.ukg.captures, id), Lookup(d.ukg.images, id), Lookup(d.ukg.attempts, id),
      VectorsOf(d.text.rows, id), VectorsOf(d.image.rows, id), id in d.refused)
  }

  lemma {:induction false} VectorsIffHas(rows: seq<Row>, id: i64)
    ensures VectorsOf(rows, id) != [] <==> exists i :: 0 <= i < |rows| && rows[i].capture == id
  {
    if rows != [] {
      var n := |rows| - 1;
      VectorsIffHas(rows[..n], id);
      if i :| 0 <= i < |rows| && rows[i].capture == id && i < n {
        assert rows[..n][i].capture == id;
      }
    }
  }

  lemma VectorsMore(rows: seq<Row>, row: Row, id: i64)
    ensures VectorsOf(rows + [row], id) == VectorsOf(rows, id) + if row.capture == id then [row.vector] else []
  {
    assert (rows + [row])[..|rows|] == rows;
  }

  // ------------------------------------------------- what the replies ought to do

  predicate WantsText(l: Local) {
    l.capture.Some? && JoinTexts(l.capture.value.regions) != "" && l.text == []
  }

  predicate Usable(env: Env, o: Outcome) {
    o.Embedded? && |o.vector.coords| == env.dim
  }

  /** The service's last word against an input. */
  predicate Declined(env: Env, o: Outcome) {
    o.Rejected? || (o.Embedded? && |o.vector.coords| != env.dim)
  }

  /** A usable reply is stored; a declined text is refused for good; any other reply
      leaves the text as it was. */
  predicate TextResult(env: Env, id: i64, l: Local, m: Local) {
    if WantsText(l) && Usable(env, env.text(id)) then
      m.text == [env.text(id).vector] && (m.refused ==> l.refused)
    else
      m.text == l.text && (m.refused <==> l.refused || (WantsText(l) && Declined(env, env.text(id))))
  }

  /** Nothing can come of this image. */
  predicate Hopeless(env: Env, id: i64, l: Local) {
    || l.capture.None? || l.capture.value.timestamp.None?
    || env.screenshot(id).RawOnly? || env.screenshot(id).Corrupt?
    || (env.screenshot(id).Jpeg? && Declined(env, env.image(id)))
  }

  /** Something stood in the way that may pass. */
  predicate Passing(env: Env, id: i64) {
    || env.screenshot(id).Missing? || env.screenshot(id).Unreadable?
    || (env.screenshot(id).Jpeg? && env.image(id).Retry?)
  }

  function Tries(l: Local): int {
    if l.image.Some? then l.image.value.attempts else 0
  }

  /** An image that is neither embedded nor given up. */
  predicate Undecided(l: Local) {
    l.pictures == [] && !(l.image.Some? && l.image.value.state == Skipped)
  }

  /** An attempt on an image: an existing embedding is recorded as done, a skipped
      image stays skipped; otherwise it is embedded, given up or left pending,
      with one more attempt on record, unless the route is absent. */
  predicate ImageResult(env: Env, id: i64, l: Local, m: Local) {
    if l.pictures != [] then m.pictures == l.pictures && m.image == Some(ImageRow(Done, Tries(l)))
    else if !Undecided(l) then m.pictures == [] && m.image == l.image
    else if Hopeless(env, id, l) then m.pictures == [] && m.image == Some(ImageRow(Skipped, Tries(l) + 1))
    else if Passing(env, id) then m.pictures == [] && m.image == Some(ImageRow(Pending, Tries(l) + 1))
    else if env.image(id).Disabled? then m.pictures == [] && m.image == l.image
    else m.pictures == [env.image(id).vector] && m.image == Some(ImageRow(Done, Tries(l) + 1))
  }

  /** Must the capture stay in the queue of fresh captures? */
  predicate Unfinished(env: Env, id: i64, stop: bool, l: Local) {
    || (WantsText(l) && env.text(id).Retry?)
    || (!stop && l.capture.Some? && l.capture.value.token.Some?
        && Undecided(l) && !Hopeless(env, id, l) && Passing(env, id))
  }

  predicate FreshResult(env: Env, id: i64, stop: bool, l: Local, m: Local)
    requires l.capture.Some?
  {
    && m.attempt == Some(env.now)
    && TextResult(env, id, l, m)
    && (if stop then m.pictures == l.pictures && m.image == l.image
        else if l.capture.value.token.Some? then ImageResult(env, id, l, m)
        else m.pictures == l.pictures && m.image == Some(ImageRow(Skipped, 1)))
    && m.capture == Some(l.capture.value.(processed := !Unfinished(env, id, stop, l)))
  }

  predicate BackfillResult(env: Env, id: i64, l: Local, m: Local) {
    && m.attempt == Some(env.now)
    && ImageResult(env, id, l, m)
    && m.text == l.text && m.refused == l.refused && m.capture == l.capture
  }

  // ------------------------------------------------------------ storing a reply

  /** The rows belong to another space than `space`. */
  predicate HoldsOther(s: Store, space: string) {
    s.spaceId != None && s.spaceId != Some("unknown") && s.spaceId != Some(space)
  }

  /** The reply is in another space than the rows: storing it empties the store. */
  predicate Moves(s: Store, o: Outcome) {
    o.Embedded? && HoldsOther(s, o.vector.space)
  }

  lemma StoreText(d: Disk, id: i64, v: Vector)
    ensures var e := Run(Install(d.text, Text, v.space) + [InsertRow(Text, id, v)], d);
      var other := HoldsOther(d.text, v.space);
      && e.text == Store(Some(v.space), (if other then [] else d.text.rows) + [Row(id, v)])
      && e.refused == (if other then {} else d.refused)
      && e.ukg == (if other then UnprocessAll(d.ukg) else d.ukg)
      && e.image == d.image
  {
    InstallThenInsert(d, Text, id, v);
  }

  lemma StoreImage(d: Disk, id: i64, v: Vector)
    ensures var e := Run(Install(d.image, Image, v.space) + [InsertRow(Image, id, v)], d);
      var other := HoldsOther(d.image, v.space);
      && e.image == Store(Some(v.space), (if other then [] else d.image.rows) + [Row(id, v)])
      && e.ukg == (if other then ResetImages(d.ukg) else d.ukg)
      && e.text == d.text && e.refused == d.refused
  {
    InstallThenInsert(d, Image, id, v);
  }

  /** Everything about the other captures is as it was. */
  ghost predicate OthersKept(d: Disk, e: Disk, id: i64) {
    forall x :: x != id ==> LocalOf(e, x) == LocalOf(d, x)
  }

  // ----------------------------------------------------------------- the text leg

  lemma TextStored(d: Disk, id: i64, v: Vector)
    requires !Processed(d.ukg, id) && LocalOf(d, id).text == []
    ensures var e := Run(Install(d.text, Text, v.space) + [InsertRow(Text, id, v)], d);
      var l, m := LocalOf(d, id), LocalOf(e, id);
      && m.text == [v] && (m.refused ==> l.refused)
      && m.(text := l.text, refused := l.refused) == l
      && (!HoldsOther(d.text, v.space) ==> OthersKept(d, e, id))
  {
    StoreText(d, id, v);
    var e := Run(Install(d.text, Text, v.space) + [InsertRow(Text, id, v)], d);
    VectorsMore([], Row(id, v), id);
    VectorsMore(d.text.rows, Row(id, v), id);
    forall x | x != id && !HoldsOther(d.text, v.space) ensures LocalOf(e, x) == LocalOf(d, x) {
      VectorsMore(d.text.rows, Row(id, v), x);
    }
  }

  lemma WantsIffNeeds(d: Disk, id: i64)
    ensures WantsText(LocalOf(d, id)) <==> NeedsText(d, id)
  {
    VectorsIffHas(d.text.rows, id);
  }

  /** What the text leg decides about a capture, and about no other unless a reply
      comes in another space than the store's. */
  lemma TextStage(d: Disk, env: Env, id: i64)
    requires !Processed(d.ukg, id)
    ensures var e := Run(TextLeg(d, env, id), d);
      var l, m := LocalOf(d, id), LocalOf(e, id);
      && TextResult(env, id, l, m) && m.(text := l.text, refused := l.refused) == l
      && e.image == d.image
      && (TextRetries(d, env, id) <==> WantsText(l) && env.text(id).Retry?)
    ensures var e := Run(TextLeg(d, env, id), d);
      Moves(d.text, env.text(id)) || OthersKept(d, e, id)
    ensures var e := Run(TextLeg(d, env, id), d);
      if WantsText(LocalOf(d, id)) && Usable(env, env.text(id))
      then e.text.spaceId == Some(env.text(id).vector.space)
      else e.text.spaceId == d.text.spaceId
  {
    WantsIffNeeds(d, id);
    if NeedsText(d, id) {
      var ask := Ask(Text, id, env.now);
      var d1 := Apply(ask, d);
      assert forall x :: LocalOf(d1, x) == LocalOf(d, x);
      RunAppend([ask], TextVerdict(d1, env, id), d);
      Run1(ask, d);
      assert TextVerdict(d1, env, id) == TextVerdict(d, env, id);
      TextReplied(d1, env, id);
    }
  }

  lemma RefusedOnly(d: Disk, id: i64)
    ensures var e := Run([Refuse(id)], d);
      && LocalOf(e, id) == LocalOf(d, id).(refused := true) && OthersKept(d, e, id)
      && e.text == d.text && e.image == d.image
  {
    Run1(Refuse(id), d);
  }

  lemma FlagOnly(d: Disk, leg: Leg)
    ensures var e := Run([SetFlag(leg, true)], d);
      (forall x :: LocalOf(e, x) == LocalOf(d, x)) && e.text == d.text && e.image == d.image
  {
    Run1(SetFlag(leg, true), d);
  }

  lemma TextReplied(d: Disk, env: Env, id: i64)
    requires !Processed(d.ukg, id) && WantsText(LocalOf(d, id))
    ensures var e := Run(TextVerdict(d, env, id), d);
      var l, m := LocalOf(d, id), LocalOf(e, id);
      && TextResult(env, id, l, m) && m.(text := l.text, refused := l.refused) == l
      && e.image == d.image
    ensures var e := Run(TextVerdict(d, env, id), d);
      Moves(d.text, env.text(id)) || OthersKept(d, e, id)
    ensures var e := Run(TextVerdict(d, env, id), d);
      e.text.spaceId == if Usable(env, env.text(id)) then Some(env.text(id).vector.space) else d.text.spaceId
  {
    match env.text(id)
    case Embedded(v) =>
      if |v.coords| == env.dim {
        TextStored(d, id, v);
        StoreText(d, id, v);
      } else {
        RefusedOnly(d, id);
      }
    case Disabled => FlagOnly(d, Text);
    case Rejected => RefusedOnly(d, id);
    case Retry =>
  }

  // ---------------------------------------------------------------- the image leg

  lemma StateSet(d: Disk, id: i64, state: ImageState, n: int)
    ensures var e := Run([SetState(id, state, n)], d);
      && LocalOf(e, id) == LocalOf(d, id).(image := Some(ImageRow(state, n)))
      && OthersKept(d, e, id) && e.text == d.text && e.image == d.image
  {
    Run1(SetState(id, state, n), d);
  }

  lemma ImageInserted(d: Disk, id: i64, v: Vector)
    requires LocalOf(d, id).pictures == []
    ensures var e := Run(Install(d.image, Image, v.space) + [InsertRow(Image, id, v)], d);
      var l, m := LocalOf(d, id), LocalOf(e, id);
      && m.pictures == [v] && m.(pictures := l.pictures, image := l.image) == l
      && (HoldsOther(d.image, v.space) || OthersKept(d, e, id))
      && e.image.spaceId == Some(v.space) && e.text == d.text
  {
    StoreImage(d, id, v);
    var e := Run(Install(d.image, Image, v.space) + [InsertRow(Image, id, v)], d);
    VectorsMore([], Row(id, v), id);
    VectorsMore(d.image.rows, Row(id, v), id);
    forall x | x != id && !HoldsOther(d.image, v.space) ensures LocalOf(e, x) == LocalOf(d, x) {
      VectorsMore(d.image.rows, Row(id, v), x);
    }
  }

  lemma ImageStored(d: Disk, id: i64, v: Vector, n: int)
    requires LocalOf(d, id).pictures == []
    ensures var e := Run(Install(d.image, Image, v.space) + [InsertRow(Image, id, v), SetState(id, Done, n)], d);
      var l, m := LocalOf(d, id), LocalOf(e, id);
      && m == l.(pictures := [v], image := Some(ImageRow(Done, n)))
      && (HoldsOther(d.image, v.space) || OthersKept(d, e, id))
      && e.image.spaceId == Some(v.space) && e.text == d.text
  {
    var es := Install(d.image, Image, v.space) + [InsertRow(Image, id, v)];
    ImageInserted(d, id, v);
    Finished(d, es, Install(d.image, Image, v.space), id, v, n);
    StateSet(Run(es, d), id, Done, n);
  }

  lemma Finished(d: Disk, es: seq<Event>, install: seq<Event>, id: i64, v: Vector, n: int)
    requires es == install + [InsertRow(Image, id, v)]
    ensures Run(install + [InsertRow(Image, id, v), SetState(id, Done, n)], d)
         == Run([SetState(id, Done, n)], Run(es, d))
  {
    assert es + [SetState(id, Done, n)] == install + [InsertRow(Image, id, v), SetState(id, Done, n)];
    RunAppend(es, [SetState(id, Done, n)], d);
  }

  /** How the leg ends, for those who wait for it. */
  predicate LegEnds(env: Env, id: i64, l: Local, leg: ImageLeg) {
    var open := Undecided(l) && !Hopeless(env, id, l);
    && (leg == LegRetry <==> open && Passing(env, id))
    && (leg == Unavailable <==> open && !Passing(env, id) && env.image(id).Disabled?)
  }

  /** What the image leg decides about a capture. */
  lemma ImageStage(d: Disk, env: Env, id: i64)
    ensures var (es, leg) := ImageOf(d, env, id);
      var e := Run(es, d);
      var l, m := LocalOf(d, id), LocalOf(e, id);
      && ImageResult(env, id, l, m) && m.(image := l.image, pictures := l.pictures) == l
      && LegEnds(env, id, l, leg) && e.text == d.text
    ensures var e := Run(ImageOf(d, env, id).0, d);
      Moves(d.image, env.image(id)) || OthersKept(d, e, id)
    ensures var e := Run(ImageOf(d, env, id).0, d);
      e.image.spaceId == d.image.spaceId
      || (Usable(env, env.image(id)) && e.image.spaceId == Some(env.image(id).vector.space))
  {
    var l := LocalOf(d, id);
    var n := Attempts(d, id);
    VectorsIffHas(d.image.rows, id);
    if StepOf(d, env, id).1.Settled? {
      ImageSettled(d, env, id);
    } else {
      var ask := Ask(Image, id, env.now);
      var d1 := Apply(ask, d);
      assert forall x :: LocalOf(d1, x) == LocalOf(d, x);
      RunAppend([ask], RecordOf(d, env, id, n).0, d);
      Run1(ask, d);
      assert RecordOf(d1, env, id, n) == RecordOf(d, env, id, n);
      ImageReplied(d1, env, id, n);
    }
  }

  /** Without a call: an existing embedding, an old verdict, or nothing to send. */
  lemma ImageSettled(d: Disk, env: Env, id: i64)
    requires StepOf(d, env, id).1.Settled?
    ensures var (es, leg) := ImageOf(d, env, id);
      var e := Run(es, d);
      var l, m := LocalOf(d, id), LocalOf(e, id);
      && ImageResult(env, id, l, m) && m.(image := l.image, pictures := l.pictures) == l
      && LegEnds(env, id, l, leg) && e.text == d.text && e.image == d.image && OthersKept(d, e, id)
  {
    VectorsIffHas(d.image.rows, id);
    var es := StepOf(d, env, id).0;
    if es != [] {
      StateSet(d, id, es[0].state, es[0].attempts);
      assert es == [SetState(id, es[0].state, es[0].attempts)];
    }
  }

  lemma ImageReplied(d: Disk, env: Env, id: i64, n: int)
    requires env.screenshot(id).Jpeg? && Undecided(LocalOf(d, id)) && n == Tries(LocalOf(d, id))
    requires Timestamp(d.ukg, id).Some?
    ensures var (es, leg) := RecordOf(d, env, id, n);
      var e := Run(es, d);
      var l, m := LocalOf(d, id), LocalOf(e, id);
      && ImageResult(env, id, l, m) && m.(image := l.image, pictures := l.pictures) == l
      && LegEnds(env, id, l, leg) && e.text == d.text
    ensures var e := Run(RecordOf(d, env, id, n).0, d);
      Moves(d.image, env.image(id)) || OthersKept(d, e, id)
    ensures var e := Run(RecordOf(d, env, id, n).0, d);
      e.image.spaceId == d.image.spaceId
      || (Usable(env, env.image(id)) && e.image.spaceId == Some(env.image(id).vector.space))
  {
    if Usable(env, env.image(id)) {
      ImageStored(d, id, env.image(id).vector, n + 1);
    } else {
      ImageUnstored(d, env, id, n);
    }
  }

  /** Without a usable reply the leg writes one verdict, or raises the flag. */
  lemma ImageUnstored(d: Disk, env: Env, id: i64, n: int)
    requires !Usable(env, env.image(id))
    ensures var (es, leg) := RecordOf(d, env, id, n);
      var e := Run(es, d);
      var l, m := LocalOf(d, id), LocalOf(e, id);
      && m == (if Declined(env, env.image(id)) then l.(image := Some(ImageRow(Skipped, n + 1)))
               else if env.image(id).Retry? then l.(image := Some(ImageRow(Pending, n + 1)))
               else l)
      && leg == (if Declined(env, env.image(id)) then Terminal
                 else if env.image(id).Retry? then LegRetry else Unavailable)
      && e.text == d.text && e.image == d.image && OthersKept(d, e, id)
  {
    match env.image(id)
    case Embedded(v) => StateSet(d, id, Skipped, n + 1);
    case Disabled => FlagOnly(d, Image);
    case Rejected => StateSet(d, id, Skipped, n + 1);
    case Retry => StateSet(d, id, Pending, n + 1);
  }

  // ------------------------------------------------------------- one whole attempt

  lemma TouchOnly(d: Disk, id: i64, now: int)
    ensures var e := Apply(Touch(id, now), d);
      && LocalOf(e, id) == LocalOf(d, id).(attempt := Some(now)) && OthersKept(d, e, id)
      && e.text == d.text && e.image == d.image && Run([Touch(id, now)], d) == e
  {
    Run1(Touch(id, now), d);
  }

  /** An attempt from queue 1 does what the replies say to its capture, and nothing to
      any other unless an image reply comes in another space than the store's. */
  lemma BackfillAttempt(d: Disk, env: Env, id: i64)
    ensures var (es, leg) := BackfillOne(d, env, id);
      var e := Run(es, d);
      && BackfillResult(env, id, LocalOf(d, id), LocalOf(e, id))
      && (leg == Unavailable ==> env.image(id).Disabled?)
      && (Moves(d.image, env.image(id)) || OthersKept(d, e, id))
      && e.text == d.text
      && (e.image.spaceId == d.image.spaceId
          || (Usable(env, env.image(id)) && e.image.spaceId == Some(env.image(id).vector.space)))
  {
    var d1 := Apply(Touch(id, env.now), d);
    TouchOnly(d, id, env.now);
    ImageStage(d1, env, id);
    RunAppend([Touch(id, env.now)], ImageOf(d1, env, id).0, d);
  }

  lemma FreshImageStage(d: Disk, env: Env, id: i64, stop: bool)
    requires id in d.ukg.captures
    ensures var (es, leg) := FreshImage(d, env, id, stop);
      var e := Run(es, d);
      var l, m := LocalOf(d, id), LocalOf(e, id);
      && (if stop then e == d && leg == Unavailable
          else if l.capture.value.token.Some? then ImageResult(env, id, l, m) && LegEnds(env, id, l, leg)
          else m.pictures == l.pictures && m.image == Some(ImageRow(Skipped, 1)) && leg == Terminal)
      && m.(image := l.image, pictures := l.pictures) == l && e.text == d.text
      && (Moves(d.image, env.image(id)) || OthersKept(d, e, id))
      && (e.image.spaceId == d.image.spaceId
          || (Usable(env, env.image(id)) && e.image.spaceId == Some(env.image(id).vector.space)))
  {
    if !stop {
      if Token(d.ukg, id).Some? {
        ImageStage(d, env, id);
      } else {
        StateSet(d, id, Skipped, 1);
      }
    }
  }

  lemma MarkOnly(d: Disk, id: i64)
    requires id in d.ukg.captures
    ensures var e := Run([MarkProcessed(id)], d);
      var l := LocalOf(d, id);
      && LocalOf(e, id) == l.(capture := Some(l.capture.value.(processed := true))) && OthersKept(d, e, id)
      && e.text == d.text && e.image == d.image
  {
    Run1(MarkProcessed(id), d);
  }

  /** The state after each part of an attempt on a fresh capture. */
  lemma FreshParts(d: Disk, env: Env, id: i64, stop: bool)
    returns (d1: Disk, d2: Disk, d3: Disk, retry: bool, leg: ImageLeg, e: Disk)
    ensures d1 == Apply(Touch(id, env.now), d) && d2 == Run(TextLeg(d1, env, id), d1)
    ensures d3 == Run(FreshImage(d2, env, id, stop).0, d2) && retry == TextRetries(d1, env, id)
    ensures leg == FreshImage(d2, env, id, stop).1 && leg == FreshOne(d, env, id, stop).1
    ensures e == Run(FreshOne(d, env, id, stop).0, d)
    ensures e == if retry || leg == LegRetry then d3 else Run([MarkProcessed(id)], d3)
  {
    d1 := Apply(Touch(id, env.now), d);
    var text := TextLeg(d1, env, id);
    d2 := Run(text, d1);
    var (image, ends) := FreshImage(d2, env, id, stop);
    retry, leg := TextRetries(d1, env, id), ends;
    d3 := Run(image, d2);
    var finish := if !retry && leg != LegRetry then [MarkProcessed(id)] else [];
    FourParts(d, Touch(id, env.now), text, image, finish);
    e := Run(finish, d3);
  }

  lemma FourParts(d: Disk, touch: Event, text: seq<Event>, image: seq<Event>, finish: seq<Event>)
    ensures Run([touch] + text + image + finish, d) == Run(finish, Run(image, Run(text, Apply(touch, d))))
  {
    Run1(touch, d);
    RunAppend([touch], text, d);
    RunAppend([touch] + text, image, d);
    RunAppend([touch] + text + image, finish, d);
  }

  /** The parts make the whole, on the capture's own data. */
  lemma PartsMakeResult(
    env: Env, id: i64, stop: bool, l: Local, l1: Local, l2: Local, l3: Local, m: Local, retry: bool, leg: ImageLeg)
    requires l.capture.Some? && !l.capture.value.processed && l1 == l.(attempt := Some(env.now))
    requires TextResult(env, id, l1, l2) && l2.(text := l1.text, refused := l1.refused) == l1
    requires retry <==> WantsText(l1) && env.text(id).Retry?
    requires if stop then l3 == l2 && leg == Unavailable
      else if l.capture.value.token.Some? then ImageResult(env, id, l2, l3) && LegEnds(env, id, l2, leg)
      else l3.pictures == l2.pictures && l3.image == Some(ImageRow(Skipped, 1)) && leg == Terminal
    requires l3.(image := l2.image, pictures := l2.pictures) == l2
    requires m == if retry || leg == LegRetry then l3
      else l3.(capture := Some(l.capture.value.(processed := true)))
    ensures FreshResult(env, id, stop, l, m)
  {
    assert l2.capture == l.capture && l2.image == l.image && l2.pictures == l.pictures;
  }

  /** The text part of an attempt, from touch to reply. */
  lemma FreshText(d: Disk, env: Env, id: i64, d1: Disk, d2: Disk)
    requires id in d.ukg.captures && !Processed(d.ukg, id)
    requires d1 == Apply(Touch(id, env.now), d) && d2 == Run(TextLeg(d1, env, id), d1)
    ensures var l, l1, l2 := LocalOf(d, id), LocalOf(d1, id), LocalOf(d2, id);
      && l1 == l.(attempt := Some(env.now)) && id in d2.ukg.captures
      && TextResult(env, id, l1, l2) && l2.(text := l1.text, refused := l1.refused) == l1
      && (TextRetries(d1, env, id) <==> WantsText(l1) && env.text(id).Retry?)
      && d2.image == d.image
      && d2.text.spaceId == (if WantsText(l) && Usable(env, env.text(id))
          then Some(env.text(id).vector.space) else d.text.spaceId)
      && (Moves(d.text, env.text(id)) || OthersKept(d, d2, id))
  {
    TouchOnly(d, id, env.now);
    TextStage(d1, env, id);
    OthersTwice(d, d1, d2, id);
    assert LocalOf(d2, id).capture.Some?;
  }

  /** The image part and the mark. */
  lemma FreshRest(d2: Disk, env: Env, id: i64, stop: bool, d3: Disk, e: Disk, retry: bool, leg: ImageLeg)
    requires id in d2.ukg.captures && d3 == Run(FreshImage(d2, env, id, stop).0, d2)
    requires leg == FreshImage(d2, env, id, stop).1
    requires e == if retry || leg == LegRetry then d3 else Run([MarkProcessed(id)], d3)
    ensures var l2, l3, m := LocalOf(d2, id), LocalOf(d3, id), LocalOf(e, id);
      && (if stop then l3 == l2 && leg == Unavailable
          else if l2.capture.value.token.Some? then ImageResult(env, id, l2, l3) && LegEnds(env, id, l2, leg)
          else l3.pictures == l2.pictures && l3.image == Some(ImageRow(Skipped, 1)) && leg == Terminal)
      && l3.(image := l2.image, pictures := l2.pictures) == l2
      && m == (if retry || leg == LegRetry then l3
               else l3.(capture := Some(l2.capture.value.(processed := true))))
      && e.text == d2.text
      && (e.image.spaceId == d2.image.spaceId
          || (Usable(env, env.image(id)) && e.image.spaceId == Some(env.image(id).vector.space)))
      && (Moves(d2.image, env.image(id)) || OthersKept(d2, e, id))
  {
    FreshImageStage(d2, env, id, stop);
    assert LocalOf(d3, id).capture.Some?;
    MarkOnly(d3, id);
    OthersTwice(d2, d3, e, id);
  }

  /** An attempt on a fresh capture: its text and its image fare as their replies
      say, and it leaves the queue exactly when nothing is left to try again. */
  lemma FreshAttempt(d: Disk, env: Env, id: i64, stop: bool)
    requires id in d.ukg.captures && !Processed(d.ukg, id)
    ensures var (es, leg) := FreshOne(d, env, id, stop);
      var e := Run(es, d);
      && FreshResult(env, id, stop, LocalOf(d, id), LocalOf(e, id))
      && (leg == Unavailable ==> stop || env.image(id).Disabled?)
      && (Moves(d.text, env.text(id)) || Moves(d.image, env.image(id)) || OthersKept(d, e, id))
      && (e.text.spaceId == if WantsText(LocalOf(d, id)) && Usable(env, env.text(id))
          then Some(env.text(id).vector.space) else d.text.spaceId)
      && (e.image.spaceId == d.image.spaceId
          || (Usable(env, env.image(id)) && e.image.spaceId == Some(env.image(id).vector.space)))
  {
    var d1, d2, d3, retry, leg, e := FreshParts(d, env, id, stop);
    FreshText(d, env, id, d1, d2);
    FreshRest(d2, env, id, stop, d3, e, retry, leg);
    PartsMakeResult(
      env, id, stop, LocalOf(d, id), LocalOf(d1, id), LocalOf(d2, id), LocalOf(d3, id), LocalOf(e, id), retry, leg);
    OthersTwice(d, d2, e, id);
  }

  lemma OthersTwice(d: Disk, e: Disk, f: Disk, id: i64)
    ensures OthersKept(d, e, id) && OthersKept(e, f, id) ==> OthersKept(d, f, id)
  {
  }

  // ------------------------------------------------------------------ on the tables

  lemma {:induction false} VectorsAreRows(rows: seq<Row>, id: i64, v: Vector)
    ensures v in VectorsOf(rows, id) <==> Row(id, v) in rows
  {
    if rows != [] {
      VectorsAreRows(rows[..|rows| - 1], id, v);
      assert rows == rows[..|rows| - 1] + [rows[|rows| - 1]];
    }
  }

  /** A fresh capture with text and no row, answered with a vector of the store's
      width: its attempt ends with that row, under that vector's label, and the text
      does not count as refused unless it did before. */
  lemma UsableTextIsStored(d: Disk, env: Env, id: i64, stop: bool, v: Vector)
    requires id in d.ukg.captures && !d.ukg.captures[id].processed
    requires JoinTexts(d.ukg.captures[id].regions) != "" && !Has(d.text, id)
    requires env.text(id) == Embedded(v) && |v.coords| == env.dim
    ensures var e := Run(FreshOne(d, env, id, stop).0, d);
      && Row(id, v) in e.text.rows && e.text.spaceId == Some(v.space)
      && (id in e.refused ==> id in d.refused)
  {
    FreshAttempt(d, env, id, stop);
    VectorsIffHas(d.text.rows, id);
    var e := Run(FreshOne(d, env, id, stop).0, d);
    VectorsAreRows(e.text.rows, id, v);
  }

  /** An undecided image with a timestamp: with a readable JPEG and a usable vector
      its attempt ends with that row and a done state; after a failure that may pass
      it ends pending, and after a final one skipped; each with one more attempt. */
  lemma ImageAttemptRecorded(d: Disk, env: Env, id: i64)
    requires id in d.ukg.captures && d.ukg.captures[id].timestamp.Some? && !Has(d.image, id)
    requires !(id in d.ukg.images && d.ukg.images[id].state == Skipped)
    ensures var e := Run(BackfillOne(d, env, id).0, d);
      var n := if id in d.ukg.images then d.ukg.images[id].attempts else 0;
      && (env.screenshot(id) == Jpeg && env.image(id).Embedded? && |env.image(id).vector.coords| == env.dim ==>
            Row(id, env.image(id).vector) in e.image.rows && Lookup(e.ukg.images, id) == Some(ImageRow(Done, n + 1)))
      && (env.screenshot(id) in {Missing, Unreadable} || (env.screenshot(id) == Jpeg && env.image(id) == Retry) ==>
            Lookup(e.ukg.images, id) == Some(ImageRow(Pending, n + 1)) && !Has(e.image, id))
      && (env.screenshot(id) in {RawOnly, Corrupt} || (env.screenshot(id) == Jpeg && env.image(id) == Rejected) ==>
            Lookup(e.ukg.images, id) == Some(ImageRow(Skipped, n + 1)) && !Has(e.image, id))
  {
    BackfillAttempt(d, env, id);
    VectorsIffHas(d.image.rows, id);
    ReadBack(env, id, LocalOf(d, id), Run(BackfillOne(d, env, id).0, d));
  }

  lemma ReadBack(env: Env, id: i64, l: Local, e: Disk)
    requires l.capture.Some? && l.capture.value.timestamp.Some? && Undecided(l)
    requires ImageResult(env, id, l, LocalOf(e, id))
    ensures env.screenshot(id) == Jpeg && env.image(id).Embedded? && |env.image(id).vector.coords| == env.dim ==>
      Row(id, env.image(id).vector) in e.image.rows && Lookup(e.ukg.images, id) == Some(ImageRow(Done, Tries(l) + 1))
    ensures env.screenshot(id) in {Missing, Unreadable} || (env.screenshot(id) == Jpeg && env.image(id) == Retry) ==>
      Lookup(e.ukg.images, id) == Some(ImageRow(Pending, Tries(l) + 1)) && !Has(e.image, id)
    ensures env.screenshot(id) in {RawOnly, Corrupt} || (env.screenshot(id) == Jpeg && env.image(id) == Rejected) ==>
      Lookup(e.ukg.images, id) == Some(ImageRow(Skipped, Tries(l) + 1)) && !Has(e.image, id)
  {
    VectorsIffHas(e.image.rows, id);
    if env.image(id).Embedded? { VectorsAreRows(e.image.rows, id, env.image(id).vector); }
  }
}
