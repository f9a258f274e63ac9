/** What every single write of the protocol respects, and the invariants that
    follow for every state a crash could leave behind. */
module Safety {
  import opened Prelude
  import opened Semantic
  import opened UkgDb
  import opened Protocol
  import opened Enrichment

  // ---------------------------------------------------------------- invariants

  /** All rows come from one space, and that space is the label. */
  ghost predicate Coherent(s: Store) {
    s.rows != [] ==>
      && s.spaceId.Some? && s.spaceId.value != SPACE_UNKNOWN
      && forall i :: 0 <= i < |s.rows| ==> s.rows[i].vector.space == s.spaceId.value
  }

  /** At most one embedding per capture. */
  ghost predicate UniqueRows(s: Store) {
    forall i, j :: 0 <= i < j < |s.rows| ==> s.rows[i].capture != s.rows[j].capture
  }

  ghost predicate Wide(s: Store, dim: nat) {
    forall i :: 0 <= i < |s.rows| ==> |s.rows[i].vector.coords| == dim
  }

  ghost predicate StoreInv(s: Store, dim: nat) {
    Coherent(s) && UniqueRows(s) && Wide(s, dim)
  }

  /** An embedded image belongs to a capture with a token and is not skipped. */
  ghost predicate ImagesExclusive(d: Disk) {
    forall id :: Has(d.image, id) ==> !HasState(d.ukg, id, Skipped) && Token(d.ukg, id).Some?
  }

  ghost predicate Inv(d: Disk, dim: nat) {
    StoreInv(d.text, dim) && StoreInv(d.image, dim) && ImagesExclusive(d)
  }

  /** The text leg owes nothing more to this capture. */
  ghost predicate TextSettled(d: Disk, id: i64) {
    OcrText(d.ukg, id) == "" || Has(d.text, id) || id in d.refused || Raised(d, Text)
  }

  /** Nothing is recorded as finished that is not: a processed capture's text is
      settled; an image marked done has a searchable embedding. */
  ghost predicate Sound(d: Disk, leg: Leg) {
    match leg
    case Text => forall id :: Processed(d.ukg, id) ==> TextSettled(d, id)
    case Image => forall id :: HasState(d.ukg, id, Done) ==> Has(d.image, id)
  }

  /** A store emptied for a space that its label still differs from. */
  ghost predicate Interrupted(d: Disk, leg: Leg) {
    StoreOf(d, leg).rows == [] && leg in d.goals && SpaceMismatch(StoreOf(d, leg), d.goals[leg])
  }

  ghost predicate Recoverable(d: Disk, leg: Leg) {
    Sound(d, leg) || Interrupted(d, leg) || (leg == Text && d.owed)
  }

  // -------------------------------------------------------------------- guards

  /** What holds whenever the protocol performs an event. */
  ghost predicate Guard(d: Disk, dim: nat, e: Event) {
    match e
    case Touch(id, now) => id in d.ukg.attempts ==> d.ukg.attempts[id] + RETRY_BACKOFF_TICKS <= now
    case SetState(id, state, _) =>
      && (state == Skipped ==> !Has(d.image, id))
      && (state == Done ==> Has(d.image, id))
      && (HasState(d.ukg, id, Skipped) ==> state == Skipped)
    case MarkProcessed(id) => TextSettled(d, id)
    case SetSpace(leg, space) =>
      space != SPACE_UNKNOWN && (StoreOf(d, leg).rows == [] || StoreOf(d, leg).spaceId == Some(space))
    case InsertRow(leg, id, v) =>
      && StoreOf(d, leg).spaceId == Some(v.space) && v.space != SPACE_UNKNOWN
      && !Has(StoreOf(d, leg), id) && |v.coords| == dim
      && (leg == Image ==> Token(d.ukg, id).Some? && !HasState(d.ukg, id, Skipped))
    case Clear(leg, goal) => SpaceMismatch(StoreOf(d, leg), goal)
    case Arrive(id, c) => id !in d.ukg.captures && !c.processed
    case Ask(leg, id, now) =>
      && id in d.ukg.attempts && d.ukg.attempts[id] == now
      && (leg, id) !in d.asked && !Has(StoreOf(d, leg), id)
      && (leg == Image ==> !HasState(d.ukg, id, Skipped))
    case _ => true
  }

  /** What holds as well when no interrupted rebuild is overtaken. */
  ghost predicate Careful(d: Disk, e: Event) {
    match e
    case SetSpace(leg, space) => Sound(d, leg) || StoreOf(d, leg).spaceId == Some(space)
    case InsertRow(leg, _, _) => Sound(d, leg)
    case Restart => d.owed ==> Sound(d, Text)
    case _ => true
  }

  ghost predicate Lawful(d: Disk, dim: nat, careful: bool, es: seq<Event>)
    decreases |es|
  {
    es == [] ||
    (Guard(d, dim, es[0]) && (careful ==> Careful(d, es[0])) && Lawful(Apply(es[0], d), dim, careful, es[1..]))
  }

  lemma {:induction false} LawfulAppend(d: Disk, dim: nat, careful: bool, a: seq<Event>, b: seq<Event>)
    ensures Lawful(d, dim, careful, a + b) <==> Lawful(d, dim, careful, a) && Lawful(Run(a, d), dim, careful, b)
    decreases |a|
  {
    if a == [] {
      assert a + b == b;
    } else {
      assert (a + b)[0] == a[0] && (a + b)[1..] == a[1..] + b;
      LawfulAppend(Apply(a[0], d), dim, careful, a[1..], b);
    }
  }

  lemma LawfulOne(d: Disk, dim: nat, careful: bool, e: Event)
    requires Guard(d, dim, e) && (careful ==> Careful(d, e))
    ensures Lawful(d, dim, careful, [e]) && Run([e], d) == Apply(e, d)
  {
  }

  // ----------------------------------------------------- one event at a time

  lemma InsertKeepsStore(s: Store, dim: nat, id: i64, v: Vector)
    requires StoreInv(s, dim) && s.spaceId == Some(v.space) && v.space != SPACE_UNKNOWN
    requires !Has(s, id) && |v.coords| == dim
    ensures StoreInv(Insert(s, id, v), dim)
  {
  }

  lemma InvStep(d: Disk, dim: nat, e: Event)
    requires Inv(d, dim) && Guard(d, dim, e)
    ensures Inv(Apply(e, d), dim)
  {
    match e
    case InsertRow(leg, id, v) =>
      InsertKeepsStore(StoreOf(d, leg), dim, id, v);
      HasInsert(StoreOf(d, leg), id, v);
    case SetSpace(leg, space) =>
    case Clear(leg, _) =>
    case _ =>
      var after := Apply(e, d);
      assert after.text == d.text && after.image == d.image;
      forall id | Has(after.image, id)
        ensures !HasState(after.ukg, id, Skipped) && Token(after.ukg, id).Some?
      {
        assert Has(d.image, id);
      }
  }

  predicate Empties(e: Event, leg: Leg) {
    e.Clear? && e.leg == leg
  }

  lemma RecoverableStep(d: Disk, dim: nat, e: Event, leg: Leg)
    requires Guard(d, dim, e) && Careful(d, e) && Recoverable(d, leg)
    ensures Recoverable(Apply(e, d), leg)
  {
    var after := Apply(e, d);
    match leg
    case Image => RecoverImage(d, dim, e);
    case Text => RecoverText(d, dim, e);
  }

  lemma RecoverImage(d: Disk, dim: nat, e: Event)
    requires Guard(d, dim, e) && Careful(d, e) && Recoverable(d, Image)
    ensures Recoverable(Apply(e, d), Image)
  {
    var after := Apply(e, d);
    match e
    case InsertRow(leg, id, v) => HasInsert(StoreOf(d, leg), id, v);
    case _ =>
      if Sound(d, Image) && !Empties(e, Image) {
        assert after.image.rows == d.image.rows;
        assert forall id :: Has(after.image, id) == Has(d.image, id);
        assert Sound(after, Image);
      }
  }

  lemma RecoverText(d: Disk, dim: nat, e: Event)
    requires Guard(d, dim, e) && Careful(d, e) && Recoverable(d, Text)
    ensures Recoverable(Apply(e, d), Text)
  {
    var after := Apply(e, d);
    match e
    case InsertRow(leg, id, v) => HasInsert(StoreOf(d, leg), id, v);
    case UnmarkAll =>
      assert Sound(after, Text);
    case _ =>
      if Sound(d, Text) && !Empties(e, Text) && !after.owed {
        assert after.text.rows == d.text.rows;
        assert forall id :: Has(after.text, id) == Has(d.text, id);
        forall id | Processed(after.ukg, id) ensures TextSettled(after, id) {
          if e != MarkProcessed(id) {
            assert Processed(d.ukg, id);
          }
          assert TextSettled(d, id);
        }
      }
  }

  lemma {:induction false} LawfulKeepsInv(d: Disk, dim: nat, careful: bool, es: seq<Event>)
    requires Inv(d, dim) && Lawful(d, dim, careful, es)
    ensures Inv(Run(es, d), dim)
    decreases |es|
  {
    if es != [] {
      InvStep(d, dim, es[0]);
      LawfulKeepsInv(Apply(es[0], d), dim, careful, es[1..]);
    }
  }

  lemma {:induction false} LawfulKeepsRecoverable(d: Disk, dim: nat, es: seq<Event>, leg: Leg)
    requires Recoverable(d, leg) && Lawful(d, dim, true, es)
    ensures Recoverable(Run(es, d), leg)
    decreases |es|
  {
    if es != [] {
      RecoverableStep(d, dim, es[0], leg);
      LawfulKeepsRecoverable(Apply(es[0], d), dim, es[1..], leg);
    }
  }
}
