/** The orchestrator as written: a loop over the steps that updates its variables and the saved row. */
module IntakeOrchestrators {
  import opened Ordering
  import opened CanonicalJson
  import opened MockGateways
  import opened IntakeSteps
  import opened IntakeRuns
  import opened IntakeCrashes
  import opened IntakeFaults
  import opened IntakeOutcomes

  type RowKey = (Text, Text)

  datatype IntakeResult =
    | Finished(
        state: FinalState, appliedSteps: seq<StepName>, partialFailure: Option<PartialFailure>,
        stepResults: map<StepName, StepResult>, actedOnAnyStep: bool)
    | TurnedAway(why: Rejection)
    | Thrown

  function ResultOf(r: Run): IntakeResult {
    match r.phase
    case Done(t) => Finished(t, r.applied, r.failure, r.results, r.acted)
    case _ => Thrown
  }

  /** What a request comes to when no other run interferes; its awaits meet the fates given. */
  function Intake(w: World, req: IntakeRequest, entry: Entry, env: Env, fates: nat -> Fate): (World, IntakeResult) {
    var (v, a) := Admit(w, req, entry);
    match a
    case Rejected(why) => (v, TurnedAway(why))
    case Admitted(r) =>
      if !InRange(r) then (v, Thrown) else var (u, x) := FinishWith(v, r, env, fates); (u, ResultOf(x))
  }

  lemma FinishAt(w: World, r: Run, env: Env, fates: nat -> Fate, n: nat, v: World, x: Run)
    requires Traced(w, r, env, fates, n, v, x) && n <= RUN_LENGTH && Over(x)
    ensures FinishWith(w, r, env, fates) == (v, x)
  {
    OverStays(w, r, env, fates, n, RUN_LENGTH);
  }

  /** The write before a step: it neither happens nor is heard of, or only the latter, when it fails. */
  function Mark(w: World, r: Run, at: nat, fate: Fate): (World, Run)
    requires at < |STEP_ORDER|
  {
    (Begin(w, r, at, !fate.Refused?).0, Begin(w, r, at, !ToldFailed(fate)).1)
  }

  function Step(w: World, r: Run, at: nat, env: Env, fate: Fate): (World, Run)
    requires at < |STEP_ORDER|
  {
    if fate.Lost? then LoseReply(w, r, at, env, fate.code, fate.sent) else Execute(w, r, at, env)
  }

  function Save(w: World, r: Run, at: nat, fate: Fate): (World, Run)
    requires at < |STEP_ORDER|
  {
    (Commit(w, r, at, !fate.Refused?).0, Commit(w, r, at, !ToldFailed(fate)).1)
  }

  /** One turn of the loop: the write before the step, the step, and the write after it unless the step failed. */
  function Turn(w: World, r: Run, at: nat, env: Env, first: Fate, second: Fate, third: Fate): (World, Run)
    requires at < |STEP_ORDER|
  {
    var (w1, r1) := Mark(w, r, at, first);
    if r1.phase.Threw? then (w1, r1)
    else
      var (w2, r2) := Step(w1, r1, at, env, second);
      if r2.phase.Executed? then Save(w2, r2, at, third) else (w2, r2)
  }

  /** What a call to the gateway that goes through leaves of a turn. */
  lemma TurnLeaves(w: World, r: Run, at: nat, env: Env, second: Fate, third: Fate)
    requires at < |STEP_ORDER| && w.row.Some? && r.failure.None?
    requires !(second.Lost? && Calls(STEP_ORDER[at], r.target))
    ensures var step := STEP_ORDER[at]; var marked := MarkRow(w.row.value, r, step);
      var (gateway, outcome) := Perform(step, r.req, r.target, w.gateway, env);
      var sent := if Calls(step, r.target) then r.(sent := r.sent + [step]) else r;
      Turn(w, r, at, env, Taken, second, third) ==
      match outcome
      case Failure(code, retryable) => (World(Some(marked), gateway), Fail(sent, PartialFailure(step, code, retryable)))
      case Success(result) => (
        var done := Absorb(sent, step, at, result);
        (World(Some(if third.Refused? then marked else CommitRow(marked, done, step)), gateway),
         if ToldFailed(third) then Fail(done, PartialFailure(step, TransactionFailed, false))
         else done.(phase := if StoppedForReview(step, done.results) then Ending(ReviewPending) else Head(at + 1))))
  {
  }

  /** And one that throws. */
  lemma LostTurnLeaves(w: World, r: Run, at: nat, env: Env, second: Fate, third: Fate)
    requires at < |STEP_ORDER| && w.row.Some? && r.failure.None? && second.Lost? && Calls(STEP_ORDER[at], r.target)
    ensures var step := STEP_ORDER[at];
      var failed := Fail(r, PartialFailure(step, Contract(second.code), ThrownRetryable(second.code)));
      Turn(w, r, at, env, Taken, second, third) ==
      (World(Some(MarkRow(w.row.value, r, step)),
             if second.sent then Perform(step, r.req, r.target, w.gateway, env).0 else w.gateway),
       if second.sent then failed.(sent := r.sent + [step]) else failed)
  {
  }

  /** The run that started from first in start has come this far. */
  ghost predicate Traced(
      start: World, first: Run, env: Env, fates: nat -> Fate, n: nat, w: World, now: Run) {
    InRange(first) && InRange(now) && Suffered(start, first, env, fates, n) == (w, now)
  }

  lemma TracedNext(start: World, first: Run, env: Env, fates: nat -> Fate, n: nat, m: nat, w: World, now: Run)
    requires Traced(start, first, env, fates, n, w, now) && m == n + 1
    ensures var (v, q) := Suffer(w, now, env, fates(n)); Traced(start, first, env, fates, m, v, q)
  {
    SufferedNext(start, first, env, fates, n, m);
  }

  ghost predicate TwoStretches(w: World, r: Run, env: Env, first: Fate, second: Fate, v: World, q: Run)
    requires InRange(r)
  {
    var (w1, r1) := Suffer(w, r, env, first); (v, q) == Suffer(w1, r1, env, second)
  }

  ghost predicate ThreeStretches(w: World, r: Run, env: Env, first: Fate, second: Fate, third: Fate, v: World, q: Run)
    requires InRange(r)
  {
    var (w1, r1) := Suffer(w, r, env, first); TwoStretches(w1, r1, env, second, third, v, q)
  }

  ghost predicate ComesTo(
      w: World, r: Run, env: Env, first: Fate, second: Fate, third: Fate, spent: nat, v: World, q: Run)
    requires InRange(r)
  {
    || (spent == 1 && Suffer(w, r, env, first) == (v, q))
    || (spent == 2 && TwoStretches(w, r, env, first, second, v, q))
    || (spent == 3 && ThreeStretches(w, r, env, first, second, third, v, q))
  }

  lemma MarkIsStretch(w: World, r: Run, at: nat, env: Env, fate: Fate)
    requires InRange(r) && r.phase.Head? && w.row.Some? && NextStep(r.loaded, r.phase.next) == at < |STEP_ORDER|
    ensures Suffer(w, r, env, fate) == Mark(w, r, at, fate)
  {
  }

  lemma StepIsStretch(w: World, r: Run, at: nat, env: Env, fate: Fate)
    requires r.phase == Marked(at) && at < |STEP_ORDER|
    ensures Suffer(w, r, env, fate) == Step(w, r, at, env, fate)
  {
  }

  lemma SaveIsStretch(w: World, r: Run, at: nat, env: Env, fate: Fate)
    requires r.phase == Executed(at) && at < |STEP_ORDER|
    ensures Suffer(w, r, env, fate) == Save(w, r, at, fate)
  {
  }

  /** A turn is up to three stretches of the run. */
  lemma TurnComesTo(w: World, r: Run, at: nat, env: Env, first: Fate, second: Fate, third: Fate)
    requires InRange(r) && r.phase.Head? && w.row.Some? && NextStep(r.loaded, r.phase.next) == at < |STEP_ORDER|
    ensures var (v, q) := Turn(w, r, at, env, first, second, third);
      ComesTo(w, r, env, first, second, third, AwaitsOf(w, r, at, env, first, second), v, q)
  {
    MarkIsStretch(w, r, at, env, first);
    var (w1, r1) := Mark(w, r, at, first);
    if !r1.phase.Threw? {
      StepThenSave(w1, r1, at, env, second, third);
    }
  }

  lemma StepThenSave(w: World, r: Run, at: nat, env: Env, second: Fate, third: Fate)
    requires r.phase == Marked(at) && at < |STEP_ORDER|
    ensures var (w2, r2) := Step(w, r, at, env, second);
      if r2.phase.Executed? then
        var (v, q) := Save(w2, r2, at, third); TwoStretches(w, r, env, second, third, v, q)
      else Suffer(w, r, env, second) == (w2, r2)
  {
    StepIsStretch(w, r, at, env, second);
    var (w2, r2) := Step(w, r, at, env, second);
    if r2.phase.Executed? {
      SaveIsStretch(w2, r2, at, env, third);
    }
  }

  /** How many awaits a turn takes. */
  function AwaitsOf(w: World, r: Run, at: nat, env: Env, first: Fate, second: Fate): nat
    requires at < |STEP_ORDER|
  {
    if ToldFailed(first) then 1
    else if Step(w, r, at, env, second).1.phase.Executed? then 3
    else 2
  }

  lemma TracedTwo(
      start: World, first: Run, env: Env, fates: nat -> Fate, n: nat, m: nat, w: World, now: Run, v: World, q: Run)
    requires Traced(start, first, env, fates, n, w, now) && m == n + 2
    requires TwoStretches(w, now, env, fates(n), fates(n + 1), v, q)
    ensures Traced(start, first, env, fates, m, v, q)
  {
    var next := n + 1;
    TracedNext(start, first, env, fates, n, next, w, now);
    var (w1, r1) := Suffer(w, now, env, fates(n));
    TracedNext(start, first, env, fates, next, m, w1, r1);
  }

  lemma TracedThree(
      start: World, first: Run, env: Env, fates: nat -> Fate, n: nat, m: nat, w: World, now: Run, v: World, q: Run)
    requires Traced(start, first, env, fates, n, w, now) && m == n + 3
    requires ThreeStretches(w, now, env, fates(n), fates(n + 1), fates(n + 2), v, q)
    ensures Traced(start, first, env, fates, m, v, q)
  {
    var next := n + 1;
    TracedNext(start, first, env, fates, n, next, w, now);
    var (w1, r1) := Suffer(w, now, env, fates(n));
    TracedTwo(start, first, env, fates, next, m, w1, r1, v, q);
  }

  lemma TracedBy(
      start: World, first: Run, env: Env, fates: nat -> Fate, n: nat, w: World, now: Run, spent: nat, m: nat, v: World, q: Run)
    requires Traced(start, first, env, fates, n, w, now) && m == n + spent
    requires ComesTo(w, now, env, fates(n), fates(n + 1), fates(n + 2), spent, v, q)
    ensures spent <= 3 && Traced(start, first, env, fates, m, v, q)
  {
    if spent == 1 {
      TracedNext(start, first, env, fates, n, m, w, now);
    } else if spent == 2 {
      TracedTwo(start, first, env, fates, n, m, w, now, v, q);
    } else {
      TracedThree(start, first, env, fates, n, m, w, now, v, q);
    }
  }

  function End(w: World, r: Run, state: FinalState, fate: Fate): (World, Run) {
    (Persist(w, r, state, !fate.Refused?).0, Persist(w, r, state, !ToldFailed(fate)).1)
  }

  lemma EndIsStretch(w: World, r: Run, env: Env, state: FinalState, fate: Fate)
    requires InRange(r) && Upto(r, |STEP_ORDER|) && !r.phase.Threw?
    requires state == if r.phase.Ending? then r.phase.terminal else Completed
    ensures Suffer(w, r, env, fate) == End(w, r, state, fate)
  {
  }

  /** After the loop only the last write is left. */
  lemma LastWrite(start: World, first: Run, env: Env, fates: nat -> Fate, n: nat, w: World, r: Run, state: FinalState)
    requires Traced(start, first, env, fates, n, w, r) && n < RUN_LENGTH && Upto(r, |STEP_ORDER|) && !r.phase.Threw?
    requires state == (if r.phase.Ending? then r.phase.terminal else Completed) && w.row.Some?
    ensures FinishWith(start, first, env, fates) == End(w, r, state, fates(n))
  {
    var next := n + 1;
    TracedNext(start, first, env, fates, n, next, w, r);
    EndIsStretch(w, r, env, state, fates(n));
    var (v, x) := End(w, r, state, fates(n));
    FinishAt(start, first, env, fates, next, v, x);
  }

  /** The loop over the steps has come to index i: it was broken off, or everything from where the run stands up to
      there was applied before. */
  predicate Upto(r: Run, i: nat) {
    r.phase.Ending? || r.phase.Threw? ||
    (r.phase.Head? && r.phase.next <= i <= |STEP_ORDER| && NextStep(r.loaded, r.phase.next) == NextStep(r.loaded, i))
  }

  lemma SpentCalled(w: World, r: Run, at: nat, env: Env, second: Fate)
    requires at < |STEP_ORDER| && !(second.Lost? && Calls(STEP_ORDER[at], r.target))
    ensures Step(w, r, at, env, second).1.phase.Executed? <==>
      Perform(STEP_ORDER[at], r.req, r.target, w.gateway, env).1.Success?
  {
  }

  /** At most the row of one revision has changed. */
  ghost predicate OnlyRow(key: RowKey, before: map<RowKey, Row>, after: map<RowKey, Row>) {
    key in after && before.Keys + {key} == after.Keys && forall k :: k in before && k != key ==> before[k] == after[k]
  }

  class CheckpointStore {
    var rows: map<RowKey, Row>

    constructor ()
      ensures rows == map[]
    {
      rows := map[];
    }

    /** Returns the saved row of the revision, made now if there was none; None for another draft. */
    method Create(key: RowKey, row: Row) returns (saved: Option<Row>)
      modifies this
      ensures if key in old(rows) then
          rows == old(rows) && saved == if old(rows)[key].draftDigest == row.draftDigest then Some(old(rows)[key]) else None
        else
          rows == old(rows)[key := row] && saved == Some(row)
    {
      if key in rows {
        return if rows[key].draftDigest == row.draftDigest then Some(rows[key]) else None;
      }
      rows := rows[key := row];
      return Some(row);
    }

    /** Absent fields of the target keep what is saved; every other field is overwritten. A write that is not taken
        changes nothing, and its caller gets an exception. */
    method Update(key: RowKey, currentStep: Option<StepName>, state: RowState, applied: seq<StepName>,
                  results: map<StepName, StepResult>, lastError: Option<PartialFailure>,
                  canonicalId: Option<Text>, canonicalVersion: Option<Text>, taken: bool)
      requires key in rows
      modifies this
      ensures var was := old(rows)[key];
        rows == if taken then old(rows)[key :=
          Row(was.draftDigest,
              Target(if canonicalId.Some? then canonicalId else was.target.id,
                     if canonicalVersion.Some? then canonicalVersion else was.target.version),
              currentStep, state, applied, results, lastError)] else old(rows)
    {
      if taken {
        var was := rows[key];
        var target := Target(if canonicalId.Some? then canonicalId else was.target.id,
                             if canonicalVersion.Some? then canonicalVersion else was.target.version);
        rows := rows[key := Row(was.draftDigest, target, currentStep, state, applied, results, lastError)];
      }
    }
  }

  class IntakeOrchestrator {
    const store: CheckpointStore
    var gateway: Gateway

    constructor (store: CheckpointStore)
      ensures this.store == store && gateway == Fresh()
    {
      this.store := store;
      gateway := Fresh();
    }

    /** What the orchestrator knows of one revision. */
    ghost function WorldOf(key: RowKey): World
      reads this, store
    {
      World(if key in store.rows then Some(store.rows[key]) else None, gateway)
    }

    method SaveMark(key: RowKey, r: Run, step: StepName, taken: bool)
      requires key in store.rows
      modifies store
      ensures store.rows == if taken then old(store.rows)[key := MarkRow(old(store.rows)[key], r, step)] else old(store.rows)
    {
      store.Update(key, Some(step), Running, r.applied, r.results, None, None, None, taken);
    }

    method SaveStep(key: RowKey, r: Run, step: StepName, taken: bool)
      requires key in store.rows
      modifies store
      ensures store.rows == if taken then old(store.rows)[key := CommitRow(old(store.rows)[key], r, step)] else old(store.rows)
    {
      store.Update(key, Some(step), Running, r.applied, r.results, None, r.target.id, r.target.version, taken);
    }

    method SaveEnd(key: RowKey, r: Run, state: FinalState, taken: bool)
      requires key in store.rows
      modifies store
      ensures store.rows == if taken then old(store.rows)[key := FinalRow(old(store.rows)[key], r, state)] else old(store.rows)
    {
      store.Update(key, if r.failure.Some? then Some(r.failure.value.failedStep) else None, Final(state), r.applied,
                   r.results, r.failure, r.target.id, r.target.version, taken);
    }

    /** The write after a step, and where the run goes from there. */
    method SaveApplied(key: RowKey, r: Run, at: nat, fate: Fate) returns (q: Run)
      requires key in store.rows && at < |STEP_ORDER|
      modifies store
      ensures store.rows ==
        if fate.Refused? then old(store.rows) else old(store.rows)[key := CommitRow(old(store.rows)[key], r, STEP_ORDER[at])]
      ensures q == if ToldFailed(fate) then Fail(r, PartialFailure(STEP_ORDER[at], TransactionFailed, false))
        else r.(phase := if StoppedForReview(STEP_ORDER[at], r.results) then Ending(ReviewPending) else Head(at + 1))
    {
      var step := STEP_ORDER[at];
      SaveStep(key, r, step, !fate.Refused?);
      if ToldFailed(fate) {
        return Fail(r, PartialFailure(step, TransactionFailed, false));
      }
      q := r.(phase := if StoppedForReview(step, r.results) then Ending(ReviewPending) else Head(at + 1));
    }

    /** A step whose call throws, whether or not it reached the gateway. */
    method LoseStep(key: RowKey, at: nat, r: Run, env: Env, second: Fate, third: Fate) returns (q: Run)
      requires key in store.rows && at < |STEP_ORDER| && r.failure.None?
      requires second.Lost? && Calls(STEP_ORDER[at], r.target)
      modifies this, store
      ensures (WorldOf(key), q) == Turn(old(WorldOf(key)), r, at, env, Taken, second, third)
      ensures OnlyRow(key, old(store.rows), store.rows) && q.loaded == r.loaded && q.phase.Ending?
    {
      LostTurnLeaves(WorldOf(key), r, at, env, second, third);
      var step := STEP_ORDER[at];
      SaveMark(key, r, step, true);
      q := Fail(r, PartialFailure(step, Contract(second.code), ThrownRetryable(second.code)));
      if second.sent {
        gateway := Perform(step, r.req, r.target, gateway, env).0;
        q := q.(sent := r.sent + [step]);
      }
    }

    /** A step whose call, if it makes one, goes through, and the write after it. */
    method TakeCalledStep(key: RowKey, at: nat, r: Run, env: Env, second: Fate, third: Fate)
      returns (q: Run, spent: nat)
      requires key in store.rows && at < |STEP_ORDER| && r.failure.None?
      requires !(second.Lost? && Calls(STEP_ORDER[at], r.target))
      modifies this, store
      ensures (WorldOf(key), q) == Turn(old(WorldOf(key)), r, at, env, Taken, second, third)
      ensures OnlyRow(key, old(store.rows), store.rows)
      ensures q.loaded == r.loaded && (q.phase.Ending? || (q.phase == Head(at + 1) && q.failure.None?))
      ensures spent == if Perform(STEP_ORDER[at], r.req, r.target, old(gateway), env).1.Success? then 3 else 2
    {
      TurnLeaves(WorldOf(key), r, at, env, second, third);
      var step := STEP_ORDER[at];
      q := r;
      SaveMark(key, q, step, true);
      if Calls(step, q.target) {
        q := q.(sent := q.sent + [step]);
      }
      var (answered, outcome) := Perform(step, q.req, q.target, gateway, env);
      gateway := answered;
      match outcome {
        case Failure(code, retryable) =>
          q, spent := Fail(q, PartialFailure(step, code, retryable)), 2;
        case Success(result) =>
          q := q.(applied := q.applied + [step], results := Record(q.results, step, result), acted := true,
                  target := Retarget(q.target, result));
          spent := 3;
          q := SaveApplied(key, q, at, third);
      }
    }

    /** One turn of the loop over the steps: a failure of the write before the step throws; a failure of the step, of its
        call or of the write after it ends the run. */
    method TakeStep(key: RowKey, at: nat, r: Run, env: Env, first: Fate, second: Fate, third: Fate)
      returns (q: Run, spent: nat)
      requires key in store.rows && at < |STEP_ORDER| && r.failure.None?
      modifies this, store
      ensures (WorldOf(key), q) == Turn(old(WorldOf(key)), r, at, env, first, second, third)
      ensures OnlyRow(key, old(store.rows), store.rows)
      ensures q.loaded == r.loaded && spent == AwaitsOf(old(WorldOf(key)), r, at, env, first, second)
      ensures q.phase.Ending? || q.phase.Threw? || (q.phase == Head(at + 1) && q.failure.None?)
    {
      if ToldFailed(first) {
        SaveMark(key, r, STEP_ORDER[at], !first.Refused?);
        return r.(phase := Threw), 1;
      }
      if second.Lost? && Calls(STEP_ORDER[at], r.target) {
        q := LoseStep(key, at, r, env, second, third);
        return q, 2;
      }
      SpentCalled(WorldOf(key), r, at, env, second);
      q, spent := TakeCalledStep(key, at, r, env, second, third);
    }

    /** The same turn, or a skip over a step applied before, seen as stretches of the run that started in start. */
    method TakeOrSkip(key: RowKey, at: nat, r: Run, env: Env, fates: nat -> Fate, n: nat, ghost start: World, ghost first: Run)
      returns (q: Run, m: nat)
      requires key in store.rows && at < |STEP_ORDER| && Upto(r, at) && r.phase.Head? && r.failure.None?
      requires Traced(start, first, env, fates, n, WorldOf(key), r)
      modifies this, store
      ensures n <= m <= n + 3 && Traced(start, first, env, fates, m, WorldOf(key), q)
      ensures OnlyRow(key, old(store.rows), store.rows)
      ensures Upto(q, at + 1) && (q.phase.Head? ==> q.failure.None?)
    {
      if STEP_ORDER[at] in r.loaded {
        return r, n;
      }
      ghost var before := WorldOf(key);
      var spent;
      q, spent := TakeStep(key, at, r, env, fates(n), fates(n + 1), fates(n + 2));
      m := n + spent;
      TurnComesTo(before, r, at, env, fates(n), fates(n + 1), fates(n + 2));
      TracedBy(start, first, env, fates, n, before, r, spent, m, WorldOf(key), q);
    }

    /** The loop over the steps; a step that fails or finds a possible match breaks it off. */
    method TakeSteps(key: RowKey, first: Run, env: Env, fates: nat -> Fate) returns (r: Run, n: nat)
      requires key in store.rows && first.phase == Head(0) && first.failure.None?
      modifies this, store
      ensures OnlyRow(key, old(store.rows), store.rows)
      ensures n < RUN_LENGTH && Traced(old(WorldOf(key)), first, env, fates, n, WorldOf(key), r)
      ensures Upto(r, |STEP_ORDER|) && (r.phase.Head? ==> r.failure.None?)
    {
      ghost var start := WorldOf(key);
      r, n := first, 0;
      var i := 0;
      while i < |STEP_ORDER| && r.phase.Head?
        invariant i <= |STEP_ORDER| && n <= 3 * i
        invariant OnlyRow(key, old(store.rows), store.rows)
        invariant Traced(start, first, env, fates, n, WorldOf(key), r)
        invariant Upto(r, i) && (r.phase.Head? ==> r.failure.None?)
      {
        r, n := TakeOrSkip(key, i, r, env, fates, n, start, first);
        i := i + 1;
      }
    }

    /** From a row whose confirmation was checked to still bind it. */
    method ExecuteFromCheckpoint(key: RowKey, req: IntakeRequest, env: Env, fates: nat -> Fate) returns (result: IntakeResult)
      requires key in store.rows
      modifies this, store
      ensures InRange(Load(old(store.rows)[key], req))
      ensures var (w, x) := FinishWith(old(WorldOf(key)), Load(old(store.rows)[key], req), env, fates);
        WorldOf(key) == w && result == ResultOf(x) && Over(x)
      ensures OnlyRow(key, old(store.rows), store.rows)
    {
      ghost var start, first := WorldOf(key), Load(store.rows[key], req);
      var r, n := TakeSteps(key, Load(store.rows[key], req), env, fates);
      if r.phase.Threw? {
        FinishAt(start, first, env, fates, n, WorldOf(key), r);
        return Thrown;
      }
      var state := if r.phase.Ending? then r.phase.terminal else Completed;
      LastWrite(start, first, env, fates, n, WorldOf(key), r, state);
      SaveEnd(key, r, state, !fates(n).Refused?);
      return if ToldFailed(fates(n)) then Thrown else Finished(state, r.applied, r.failure, r.results, r.acted);
    }

    /** The checks of run, and the checkpoint made or found. */
    method Enter(req: IntakeRequest) returns (refusal: Option<Rejection>)
      modifies store
      ensures var key := (req.organizationId, req.intakeRevisionId); var (w, a) := Admit(old(WorldOf(key)), req, ByRun);
        && WorldOf(key) == w
        && (match a case Rejected(why) => refusal == Some(why) case Admitted(run) =>
              refusal == None && key in store.rows && run == Load(store.rows[key], req))
        && (store.rows == old(store.rows) || OnlyRow(key, old(store.rows), store.rows))
    {
      var key := (req.organizationId, req.intakeRevisionId);
      var digest := DigestOf(DraftOf(req));
      if req.draftDigest != digest {
        return Some(IdempotencyMismatch);
      }
      if req.confirmation.draftDigest != digest || req.organizationId == [] || req.intakeRevisionId == [] {
        return Some(InvalidRequest);
      }
      var saved := store.Create(key, FreshRow(req));
      if saved.None? {
        return Some(IdempotencyMismatch);
      }
      return if Binds(req.confirmation, req.intakeRevisionId, saved.value) then None else Some(InvalidRequest);
    }

    /** run: what a first or repeated submission comes to. */
    method Submit(req: IntakeRequest, env: Env, fates: nat -> Fate) returns (result: IntakeResult)
      modifies this, store
      ensures var key := (req.organizationId, req.intakeRevisionId);
        && (WorldOf(key), result) == Intake(old(WorldOf(key)), req, ByRun, env, fates)
        && (store.rows == old(store.rows) || OnlyRow(key, old(store.rows), store.rows))
    {
      var refusal := Enter(req);
      if refusal.Some? {
        return TurnedAway(refusal.value);
      }
      result := ExecuteFromCheckpoint((req.organizationId, req.intakeRevisionId), req, env, fates);
    }

    /** resumeWithPayload: a submission continued from its checkpoint. */
    method ResumeWithPayload(req: IntakeRequest, env: Env, fates: nat -> Fate) returns (result: IntakeResult)
      modifies this, store
      ensures var key := (req.organizationId, req.intakeRevisionId);
        && (WorldOf(key), result) == Intake(old(WorldOf(key)), req, ByResume, env, fates)
        && (store.rows == old(store.rows) || OnlyRow(key, old(store.rows), store.rows))
    {
      var key := (req.organizationId, req.intakeRevisionId);
      var digest := DigestOf(DraftOf(req));
      if req.draftDigest != digest {
        return TurnedAway(IdempotencyMismatch);
      }
      if req.confirmation.draftDigest != digest || req.organizationId == [] || req.intakeRevisionId == [] {
        return TurnedAway(InvalidRequest);
      }
      if key !in store.rows {
        return TurnedAway(InvalidRequest);
      }
      var row := store.rows[key];
      if row.draftDigest != digest {
        return TurnedAway(IdempotencyMismatch);
      }
      if !Binds(req.confirmation, req.intakeRevisionId, row) {
        return TurnedAway(InvalidRequest);
      }
      result := ExecuteFromCheckpoint(key, req, env, fates);
    }
  }
}
