/** The connection counter shared by all session tasks. */
module Sessions {
  import opened Prelude

  /** `counter` is the atomic; the sets say which tasks passed the check and which
      are on their way out of a failed one. */
  datatype State = State(counter: int, admitted: set<nat>, rejecting: set<nat>)

  /** One atomic operation of one task. */
  datatype Op = Connect(task: nat) | Withdraw(task: nat) | Close(task: nat)

  ghost predicate Enabled(s: State, op: Op) {
    match op
    case Connect(t) => t !in s.admitted && t !in s.rejecting
    case Withdraw(t) => t in s.rejecting
    case Close(t) => t in s.admitted
  }

  /** `fetch_add` with the check on its old value; `fetch_sub` after a failed check;
      `fetch_sub` when the guard is dropped. */
  function Apply(maxClients: nat, s: State, op: Op): State {
    match op
    case Connect(t) =>
      if s.counter >= maxClients then State(s.counter + 1, s.admitted, s.rejecting + {t})
      else State(s.counter + 1, s.admitted + {t}, s.rejecting)
    case Withdraw(t) => State(s.counter - 1, s.admitted, s.rejecting - {t})
    case Close(t) => State(s.counter - 1, s.admitted - {t}, s.rejecting)
  }

  function Run(maxClients: nat, s: State, ops: seq<Op>): State
    decreases |ops|
  {
    if ops == [] then s else Run(maxClients, Apply(maxClients, s, ops[0]), ops[1..])
  }

  ghost predicate AllEnabled(maxClients: nat, s: State, ops: seq<Op>)
    decreases |ops|
  {
    ops == [] || (Enabled(s, ops[0]) && AllEnabled(maxClients, Apply(maxClients, s, ops[0]), ops[1..]))
  }

  ghost predicate Inv(maxClients: nat, s: State) {
    s.counter == |s.admitted| + |s.rejecting| && |s.admitted| <= maxClients
  }

  lemma InvStep(maxClients: nat, s: State, op: Op)
    requires Inv(maxClients, s) && Enabled(s, op)
    ensures Inv(maxClients, Apply(maxClients, s, op))
    ensures !op.Connect? ==> s.counter > 0
  {
  }

  /** Under every interleaving: never more than `maxClients` admitted sessions, and
      the counter is the number of admitted and withdrawing tasks, so that no
      subtraction underflows. */
  lemma {:induction false} EveryInterleaving(maxClients: nat, s: State, ops: seq<Op>)
    requires Inv(maxClients, s) && AllEnabled(maxClients, s, ops)
    ensures var e := Run(maxClients, s, ops);
      e.counter == |e.admitted| + |e.rejecting| >= 0 && |e.admitted| <= maxClients
    decreases |ops|
  {
    if ops != [] {
      InvStep(maxClients, s, ops[0]);
      EveryInterleaving(maxClients, Apply(maxClients, s, ops[0]), ops[1..]);
    }
  }

  function Connects(ops: seq<Op>): nat {
    if ops == [] then 0 else (if ops[0].Connect? then 1 else 0) + Connects(ops[1..])
  }

  function Ends(ops: seq<Op>): nat {
    if ops == [] then 0 else (if ops[0].Connect? then 0 else 1) + Ends(ops[1..])
  }

  lemma {:induction false} CounterCounts(maxClients: nat, s: State, ops: seq<Op>)
    ensures Run(maxClients, s, ops).counter == s.counter + Connects(ops) - Ends(ops)
    decreases |ops|
  {
    if ops != [] {
      CounterCounts(maxClients, Apply(maxClients, s, ops[0]), ops[1..]);
    }
  }

  /** After any interleaving, the next connection is refused exactly when the
      connections so far, less the withdrawals and closings so far, fill the limit:
      a task counts from its first operation to its last, admitted or not ... */
  lemma RefusedExactly(maxClients: nat, ops: seq<Op>, t: nat)
    requires AllEnabled(maxClients, State(0, {}, {}), ops)
    requires Enabled(Run(maxClients, State(0, {}, {}), ops), Connect(t))
    ensures var s := Run(maxClients, State(0, {}, {}), ops);
      && (t in Apply(maxClients, s, Connect(t)).rejecting <==> Connects(ops) - Ends(ops) >= maxClients)
      && (t in Apply(maxClients, s, Connect(t)).admitted <==> |s.admitted| + |s.rejecting| < maxClients)
  {
    EveryInterleaving(maxClients, State(0, {}, {}), ops);
    CounterCounts(maxClients, State(0, {}, {}), ops);
  }

  /** ... so a refusal in progress can cost another client a free place. */
  lemma RefusalWithAFreePlace()
    ensures var ops := [Connect(1), Connect(2), Close(1), Connect(3)];
      var s := State(0, {}, {});
      AllEnabled(1, s, ops) && Run(1, s, ops) == State(2, {}, {2, 3})
  {
  }
}
