/** What the order of events in a whole run guarantees. */
module Pacing {
  import opened Prelude
  import opened Semantic
  import opened UkgDb
  import opened Protocol
  import opened Enrichment
  import opened Safety
  import opened Runs

  ghost predicate ClockAtLeast(d: Disk, id: i64, t: int) {
    id in d.ukg.attempts && d.ukg.attempts[id] >= t
  }

  lemma {:induction false} TouchAfter(d: Disk, dim: nat, es: seq<Event>, j: nat, id: i64, t: int)
    requires Lawful(d, dim, false, es) && ClockAtLeast(d, id, t)
    requires j < |es| && es[j].Touch? && es[j].id == id
    ensures es[j].now >= t + RETRY_BACKOFF_TICKS
    decreases j
  {
    if j > 0 {
      TouchAfter(Apply(es[0], d), dim, es[1..], j - 1, id, t);
    }
  }

  lemma {:induction false} TouchesApart(d: Disk, dim: nat, es: seq<Event>, i: nat, j: nat)
    requires Lawful(d, dim, false, es) && i < j < |es|
    requires es[i].Touch? && es[j].Touch? && es[i].id == es[j].id
    ensures es[j].now >= es[i].now + RETRY_BACKOFF_TICKS
    decreases i
  {
    if i > 0 {
      TouchesApart(Apply(es[0], d), dim, es[1..], i - 1, j - 1);
    } else {
      TouchAfter(Apply(es[0], d), dim, es[1..], j - 1, es[0].id, es[0].now);
    }
  }

  /** In every run, whatever its clocks show, two attempts on one capture are at
      least the backoff apart, across queues, crashes, rebuilds and re-queueings. */
  lemma AttemptsArePaced(d: Disk, dim: nat, steps: seq<Step>, i: nat, j: nat)
    requires Inv(d, dim) && LegalRun(d, dim, steps)
    requires var es := RunTrace(d, steps);
      i < j < |es| && es[i].Touch? && es[j].Touch? && es[i].id == es[j].id
    ensures var es := RunTrace(d, steps);
      es[j].now >= es[i].now + 600_000_000
  {
    RunLawful(d, dim, false, steps);
    TouchesApart(d, dim, RunTrace(d, steps), i, j);
  }

  /** The leg was asked under clock `t`, or the backoff has passed since. */
  ghost predicate AskedAt(d: Disk, leg: Leg, id: i64, t: int) {
    && ClockAtLeast(d, id, t)
    && ((leg, id) in d.asked || ClockAtLeast(d, id, t + RETRY_BACKOFF_TICKS))
  }

  lemma {:induction false} AskAfter(d: Disk, dim: nat, es: seq<Event>, j: nat, leg: Leg, id: i64, t: int)
    requires Lawful(d, dim, false, es) && AskedAt(d, leg, id, t)
    requires j < |es| && es[j].Ask? && es[j].leg == leg && es[j].id == id
    ensures es[j].now >= t + RETRY_BACKOFF_TICKS
    decreases j
  {
    if j > 0 {
      AskAfter(Apply(es[0], d), dim, es[1..], j - 1, leg, id, t);
    }
  }

  lemma {:induction false} AsksApart(d: Disk, dim: nat, es: seq<Event>, i: nat, j: nat)
    requires Lawful(d, dim, false, es) && i < j < |es|
    requires es[i].Ask? && es[j].Ask? && es[i].leg == es[j].leg && es[i].id == es[j].id
    ensures es[j].now >= es[i].now + RETRY_BACKOFF_TICKS
    decreases i
  {
    if i > 0 {
      AsksApart(Apply(es[0], d), dim, es[1..], i - 1, j - 1);
    } else {
      AskAfter(Apply(es[0], d), dim, es[1..], j - 1, es[0].leg, es[0].id, es[0].now);
    }
  }

  /** In every run, a capture's text (or image) is sent to the embedder at most
      once per backoff period. */
  lemma EmbedderCallsArePaced(d: Disk, dim: nat, steps: seq<Step>, i: nat, j: nat)
    requires Inv(d, dim) && LegalRun(d, dim, steps)
    requires var es := RunTrace(d, steps);
      i < j < |es| && es[i].Ask? && es[j].Ask? && es[i].leg == es[j].leg && es[i].id == es[j].id
    ensures var es := RunTrace(d, steps);
      es[j].now >= es[i].now + 600_000_000
  {
    RunLawful(d, dim, false, steps);
    AsksApart(d, dim, RunTrace(d, steps), i, j);
  }

  lemma {:induction false} SkippedUntilReset(d: Disk, dim: nat, es: seq<Event>, j: nat, id: i64)
    requires Lawful(d, dim, false, es) && HasState(d.ukg, id, Skipped)
    requires j < |es| && es[j].Ask? && es[j].leg == Image && es[j].id == id
    ensures exists k :: 0 <= k < j && es[k] == ResetStates
    decreases j
  {
    if j > 0 && es[0] != ResetStates {
      SkippedUntilReset(Apply(es[0], d), dim, es[1..], j - 1, id);
      var k :| 0 <= k < j - 1 && es[1..][k] == ResetStates;
      assert es[k + 1] == ResetStates;
    }
  }

  lemma {:induction false} SkipThenAsk(d: Disk, dim: nat, es: seq<Event>, i: nat, j: nat)
    requires Lawful(d, dim, false, es) && i < j < |es|
    requires es[i].SetState? && es[i].state == Skipped
    requires es[j].Ask? && es[j].leg == Image && es[j].id == es[i].id
    ensures exists k :: i < k < j && es[k] == ResetStates
    decreases i
  {
    if i > 0 {
      SkipThenAsk(Apply(es[0], d), dim, es[1..], i - 1, j - 1);
      var k :| i - 1 < k < j - 1 && es[1..][k] == ResetStates;
      assert es[k + 1] == ResetStates;
    } else {
      SkippedUntilReset(Apply(es[0], d), dim, es[1..], j - 1, es[0].id);
      var k :| 0 <= k < j - 1 && es[1..][k] == ResetStates;
      assert es[k + 1] == ResetStates;
    }
  }

  /** In every run, a skipped image goes to the embedder again only after the
      image states have been reset. */
  lemma SkippedStaysSkipped(d: Disk, dim: nat, steps: seq<Step>, i: nat, j: nat)
    requires Inv(d, dim) && LegalRun(d, dim, steps)
    requires var es := RunTrace(d, steps);
      && i < j < |es|
      && es[i].SetState? && es[i].state == Skipped
      && es[j].Ask? && es[j].leg == Image && es[j].id == es[i].id
    ensures exists k :: i < k < j && RunTrace(d, steps)[k] == ResetStates
  {
    RunLawful(d, dim, false, steps);
    SkipThenAsk(d, dim, RunTrace(d, steps), i, j);
  }
}
