/** The enrichment protocol as single durable writes: what one pass over a
    client's three databases does, event by event. */
module Protocol {
  import opened Prelude
  import opened Semantic
  import opened UkgDb

  const BATCH: nat := 64
  const RETRY_BACKOFF_TICKS: int := 60 * 10_000_000
  const TEXT_UNAVAILABLE: string := "enrich.text_unavailable"
  const IMAGE_UNAVAILABLE: string := "enrich.image_unavailable"

  datatype Leg = Text | Image

  /** How an embedder call ends; a vector carries the space it belongs to. */
  datatype Outcome = Embedded(vector: Vector) | Disabled | Rejected | Retry

  /** What the object store holds for a capture's screenshot. */
  datatype ObjectRead = Jpeg | RawOnly | Missing | Corrupt | Unreadable

  /** Everything a pass learns from outside. A pass asks each question at most
      once per capture, so the answers are functions of the capture. */
  datatype Env = Env(
    dim: nat,
    now: int,
    spaces: Option<(string, string)>,
    screenshot: i64 -> ObjectRead,
    text: i64 -> Outcome,
    image: i64 -> Outcome)

  function Reply(env: Env, leg: Leg, id: i64): Outcome {
    if leg == Text then env.text(id) else env.image(id)
  }

  /** The durable state of one client, and four pieces of history that no code
      reads: which texts were terminally refused since the last re-queueing, which
      legs were sent to the embedder since the capture's last attempt, whether the
      process owes a text re-queueing whose flag it has already lowered, and the
      space for which each leg was last cleared. */
  datatype Disk = Disk(
    ukg: Tables,
    text: Store,
    image: Store,
    refused: set<i64>,
    asked: set<(Leg, i64)>,
    owed: bool,
    goals: map<Leg, string>)

  /** The `PrecallConfig` key under which a leg's absent route is recorded. */
  function FlagKey(leg: Leg): string {
    if leg == Text then TEXT_UNAVAILABLE else IMAGE_UNAVAILABLE
  }

  function StoreOf(d: Disk, leg: Leg): Store {
    if leg == Text then d.text else d.image
  }

  function WithStore(d: Disk, leg: Leg, s: Store): Disk {
    if leg == Text then d.(text := s) else d.(image := s)
  }

  // -------------------------------------------------------------------- events

  /** One committed write, or (Ask, Refuse, Restart) one step that writes nothing. */
  datatype Event =
    | Touch(id: i64, now: int)
    | SetState(id: i64, state: ImageState, attempts: int)
    | ResetStates
    | MarkProcessed(id: i64)
    | UnmarkAll
    | SetFlag(leg: Leg, up: bool)
    | Clear(leg: Leg, goal: string)
    | SetSpace(leg: Leg, space: string)
    | InsertRow(leg: Leg, id: i64, vector: Vector)
    | Arrive(id: i64, capture: Capture)
    | Ask(leg: Leg, id: i64, now: int)
    | Refuse(id: i64)
    | Restart

  function Apply(e: Event, d: Disk): Disk {
    match e
    case Touch(id, now) =>
      d.(ukg := TouchAttempt(d.ukg, id, now), asked := d.asked - {(Text, id), (Image, id)})
    case SetState(id, state, attempts) => d.(ukg := SetImage(d.ukg, id, state, attempts))
    case ResetStates => d.(ukg := ResetImages(d.ukg))
    case MarkProcessed(id) => d.(ukg := Process(d.ukg, id))
    case UnmarkAll => d.(ukg := UnprocessAll(d.ukg), refused := {}, owed := false)
    case SetFlag(leg, up) =>
      d.(ukg := Configure(d.ukg, FlagKey(leg), if up then "1" else "0"), owed := d.owed || (leg == Text && !up))
    case Clear(leg, goal) =>
      WithStore(d, leg, StoreOf(d, leg).(rows := [])).(goals := d.goals[leg := goal])
    case SetSpace(leg, space) => WithStore(d, leg, StoreOf(d, leg).(spaceId := Some(space)))
    case InsertRow(leg, id, v) => WithStore(d, leg, Insert(StoreOf(d, leg), id, v))
    case Arrive(id, c) => d.(ukg := AddCapture(d.ukg, id, c))
    case Ask(leg, id, _) => d.(asked := d.asked + {(leg, id)})
    case Refuse(id) => d.(refused := d.refused + {id})
    case Restart => d.(owed := false)
  }

  function Run(es: seq<Event>, d: Disk): Disk {
    if es == [] then d else Run(es[1..], Apply(es[0], d))
  }

  lemma {:induction false} RunAppend(a: seq<Event>, b: seq<Event>, d: Disk)
    ensures Run(a + b, d) == Run(b, Run(a, d))
  {
    if a == [] {
      assert a + b == b;
    } else {
      assert (a + b)[0] == a[0] && (a + b)[1..] == a[1..] + b;
      RunAppend(a[1..], b, Apply(a[0], d));
    }
  }

  // ------------------------------------------------------------- rebuilding a leg

  /** Do the rows belong to another space than `space`? */
  predicate SpaceMismatch(s: Store, space: string) {
    s.spaceId.Some? && s.spaceId.value != space && s.spaceId.value != SPACE_UNKNOWN
  }

  function Requeue(leg: Leg): Event {
    if leg == Text then UnmarkAll else ResetStates
  }

  /** Bring a store into `space`: clear, re-queue, and move the label last. */
  function Install(s: Store, leg: Leg, space: string): seq<Event> {
    (if SpaceMismatch(s, space) then [Clear(leg, space), Requeue(leg)] else []) + [SetSpace(leg, space)]
  }

  // --------------------------------------------------------------- start of a pass

  predicate Raised(d: Disk, leg: Leg) {
    Flag(d.ukg, FlagKey(leg))
  }

  function Lower(leg: Leg): seq<Event> {
    [SetFlag(leg, false), Requeue(leg)]
  }

  function Prologue(d: Disk, spaces: Option<(string, string)>): seq<Event> {
    match spaces
    case None => []
    case Some((t, i)) =>
      Install(d.text, Text, t) + Install(d.image, Image, i)
      + (if Raised(d, Text) then Lower(Text) else [])
      + (if Raised(d, Image) then Lower(Image) else [])
  }

  // ------------------------------------------------------------------ the text leg

  predicate NeedsText(d: Disk, id: i64) {
    OcrText(d.ukg, id) != "" && !Has(d.text, id)
  }

  function TextVerdict(d: Disk, env: Env, id: i64): seq<Event> {
    match env.text(id)
    case Embedded(v) =>
      if |v.coords| != env.dim then [Refuse(id)]
      else Install(d.text, Text, v.space) + [InsertRow(Text, id, v)]
    case Disabled => [SetFlag(Text, true)]
    case Rejected => [Refuse(id)]
    case Retry => []
  }

  function TextLeg(d: Disk, env: Env, id: i64): seq<Event> {
    if NeedsText(d, id) then [Ask(Text, id, env.now)] + TextVerdict(d, env, id) else []
  }

  predicate TextRetries(d: Disk, env: Env, id: i64) {
    NeedsText(d, id) && env.text(id).Retry?
  }

  // ----------------------------------------------------------------- the image leg

  datatype ImageLeg = LegDone | Terminal | LegRetry | Unavailable

  datatype ImageStep = Embed(attempts: int) | Settled(leg: ImageLeg)

  function Attempts(d: Disk, id: i64): int {
    if id in d.ukg.images then d.ukg.images[id].attempts else 0
  }

  /** Everything the image leg decides before it calls the embedder. */
  function StepOf(d: Disk, env: Env, id: i64): (seq<Event>, ImageStep) {
    var n := Attempts(d, id);
    if Has(d.image, id) then
      (if HasState(d.ukg, id, Done) then [] else [SetState(id, Done, n)], Settled(LegDone))
    else if HasState(d.ukg, id, Skipped) then
      ([], Settled(Terminal))
    else if Timestamp(d.ukg, id).None? then
      ([SetState(id, Skipped, n + 1)], Settled(Terminal))
    else ReadOf(env.screenshot(id), id, n)
  }

  /** What the stored screenshot decides. */
  function ReadOf(read: ObjectRead, id: i64, n: int): (seq<Event>, ImageStep) {
    match read
    case RawOnly => ([SetState(id, Skipped, n + 1)], Settled(Terminal))
    case Missing => ([SetState(id, Pending, n + 1)], Settled(LegRetry))
    case Corrupt => ([SetState(id, Skipped, n + 1)], Settled(Terminal))
    case Unreadable => ([SetState(id, Pending, n + 1)], Settled(LegRetry))
    case Jpeg => ([], Embed(n))
  }

  /** What the embedder's verdict writes, and how the leg ends. */
  function RecordOf(d: Disk, env: Env, id: i64, n: int): (seq<Event>, ImageLeg) {
    match env.image(id)
    case Embedded(v) =>
      if |v.coords| != env.dim then ([SetState(id, Skipped, n + 1)], Terminal)
      else (Install(d.image, Image, v.space) + [InsertRow(Image, id, v), SetState(id, Done, n + 1)], LegDone)
    case Disabled => ([SetFlag(Image, true)], Unavailable)
    case Rejected => ([SetState(id, Skipped, n + 1)], Terminal)
    case Retry => ([SetState(id, Pending, n + 1)], LegRetry)
  }

  function ImageOf(d: Disk, env: Env, id: i64): (seq<Event>, ImageLeg) {
    var (before, step) := StepOf(d, env, id);
    match step
    case Settled(leg) => (before, leg)
    case Embed(n) =>
      var (after, leg) := RecordOf(d, env, id, n);
      ([Ask(Image, id, env.now)] + after, leg)
  }

  // -------------------------------------------------------------------- the queues

  function BackfillOne(d: Disk, env: Env, id: i64): (seq<Event>, ImageLeg) {
    var (es, leg) := ImageOf(Apply(Touch(id, env.now), d), env, id);
    ([Touch(id, env.now)] + es, leg)
  }

  /** Queue 1 stops at the first sign that the image route is absent. */
  function BackfillLoop(d: Disk, env: Env, ids: seq<i64>): (seq<Event>, bool)
    decreases |ids|
  {
    if ids == [] then ([], false)
    else
      var (es, leg) := BackfillOne(d, env, ids[0]);
      if leg == Unavailable then (es, true)
      else
        var (rest, stop) := BackfillLoop(Run(es, d), env, ids[1..]);
        (es + rest, stop)
  }

  function FreshImage(d: Disk, env: Env, id: i64, stop: bool): (seq<Event>, ImageLeg) {
    if stop then ([], Unavailable)
    else if Token(d.ukg, id).Some? then ImageOf(d, env, id)
    else ([SetState(id, Skipped, 1)], Terminal)
  }

  function FreshOne(d: Disk, env: Env, id: i64, stop: bool): (seq<Event>, ImageLeg) {
    var d1 := Apply(Touch(id, env.now), d);
    var text := TextLeg(d1, env, id);
    var (image, leg) := FreshImage(Run(text, d1), env, id, stop);
    var finish := if !TextRetries(d1, env, id) && leg != LegRetry then [MarkProcessed(id)] else [];
    ([Touch(id, env.now)] + text + image + finish, leg)
  }

  function FreshLoop(d: Disk, env: Env, ids: seq<i64>, stop: bool): seq<Event>
    decreases |ids|
  {
    if ids == [] then []
    else
      var (es, leg) := FreshOne(d, env, ids[0], stop);
      es + FreshLoop(Run(es, d), env, ids[1..], stop || leg == Unavailable)
  }

  ghost function QueueAt(d: Disk, env: Env, q: Queue): seq<i64> {
    Batch(d.ukg, q, env.now - RETRY_BACKOFF_TICKS, BATCH)
  }

  /** Both queues, as they stand once the start of the pass is done. */
  ghost function Work(d: Disk, env: Env): seq<Event> {
    var (first, stop) := BackfillLoop(d, env, QueueAt(d, env, Backfill));
    first + FreshLoop(Run(first, d), env, QueueAt(d, env, Fresh), stop)
  }

  /** One pass over one client, every write in order. */
  ghost function Pass(d: Disk, env: Env): seq<Event> {
    var start := Prologue(d, env.spaces);
    start + Work(Run(start, d), env)
  }
}
