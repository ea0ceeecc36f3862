/** Faults on the way: refused writes, writes whose success is not heard of, and gateway calls that throw; then a resume. */
module IntakeFaults {
  import opened MockGateways
  import opened IntakeSteps
  import opened IntakeRuns
  import opened IntakeCrashes

  /** What happens to the next await of a run: its write is taken, refused, or taken but reported as failed; or its
      gateway call throws, having reached the gateway or not. */
  datatype Fate = Taken | Refused | Unheard | Lost(code: ErrorCode, sent: bool)

  function Suffer(w: World, r: Run, env: Env, fate: Fate): (s: (World, Run))
    requires InRange(r)
    ensures InRange(s.1)
  {
    match fate
    case Taken => Advance(w, r, env, true)
    case Refused => Advance(w, r, env, false)
    case Unheard => (Advance(w, r, env, true).0, Advance(w, r, env, false).1)
    case Lost(code, sent) =>
      if r.phase.Marked? then LoseReply(w, r, r.phase.at, env, code, sent) else Advance(w, r, env, true)
  }

  /** n stretches of a run, each with its fate. */
  function Suffered(w: World, r: Run, env: Env, fates: nat -> Fate, n: nat): (s: (World, Run))
    requires InRange(r)
    ensures InRange(s.1)
  {
    if n == 0 then (w, r) else var (v, q) := Suffered(w, r, env, fates, n - 1); Suffer(v, q, env, fates(n - 1))
  }

  lemma SufferedNext(w: World, r: Run, env: Env, fates: nat -> Fate, k: nat, n: nat)
    requires InRange(r) && n == k + 1
    ensures var (v, q) := Suffered(w, r, env, fates, k); Suffered(w, r, env, fates, n) == Suffer(v, q, env, fates(k))
  {
  }

  // ---------------------------------------------------------------- rows that resume alike

  /** All that a resume reads of a row. */
  ghost predicate SameProgress(a: Row, b: Row) {
    && a.draftDigest == b.draftDigest && a.target == b.target
    && a.appliedSteps == b.appliedSteps && a.stepResults == b.stepResults
  }

  lemma FirstWriteSame(c: World, u: World, q: Run, env: Env)
    requires c.row.Some? && u.row.Some? && SameProgress(c.row.value, u.row.value) && c.gateway == u.gateway
    requires Shape(q) && q.phase.Head?
    ensures InRange(q) && Advance(c, q, env, true) == Advance(u, q, env, true)
  {
    HeadAdvance(c, q, env, true);
    HeadAdvance(u, q, env, true);
  }

  lemma SameFinish(c: World, u: World, q: Run, env: Env)
    requires InRange(q) && Advance(c, q, env, true) == Advance(u, q, env, true)
    ensures Finish(c, q, env) == Finish(u, q, env)
  {
    var rest := RUN_LENGTH - 1;
    StepsCompose(c, q, env, 1, rest);
    StepsCompose(u, q, env, 1, rest);
    OneStep(c, q, env);
    OneStep(u, q, env);
  }

  // ---------------------------------------------------------------- the run that meets no fault

  /** The failing run's last write will tell what is saved, or what the other one is about to save. */
  ghost predicate Failing(q: Run, u: World, p: Run) {
    && q.phase.Ending? && u.row.Some?
    && (Fits(u.row.value, q)
        || (p.phase.Executed? && q.applied == p.applied && q.results == p.results && q.target == p.target))
  }

  /** The run q that met faults, its world c, and a run p of the same request that met none, its world u: together so far,
      or q about to fail or over, with the same progress saved and the same gateway. */
  ghost predicate Mirrors(c: World, q: Run, u: World, p: Run) {
    && c.row.Some? && u.row.Some? && c.gateway == u.gateway
    && ((c == u && q == p) || (c == u && Failing(q, u, p)) || (SameProgress(c.row.value, u.row.value) && Over(q)))
  }

  lemma OverMirrors(c: World, q: Run, u: World, p: Run, env: Env, fate: Fate)
    requires Mirrors(c, q, u, p) && Over(q)
    ensures InRange(q) && var (c', q') := Suffer(c, q, env, fate); Mirrors(c', q', u, p)
  {
  }

  lemma FinalTells(row: Row, q: Run, t: FinalState)
    requires Fits(row, q)
    ensures SameProgress(FinalRow(row, q, t), row)
  {
  }

  lemma FinalIsCommit(row: Row, q: Run, p: Run, t: FinalState, step: StepName)
    requires q.applied == p.applied && q.results == p.results && q.target == p.target
    ensures SameProgress(FinalRow(row, q, t), CommitRow(row, p, step))
  {
  }

  lemma FailingMirrors(c: World, q: Run, u: World, p: Run, env: Env, fate: Fate) returns (stay: bool)
    requires Consistent(u, p, env) && c == u && Failing(q, u, p)
    ensures InRange(q) && InRange(p)
    ensures var (c', q') := Suffer(c, q, env, fate);
      var (u', p') := if stay then (u, p) else Advance(u, p, env, true); Mirrors(c', q', u', p')
  {
    stay := fate.Refused? || Fits(u.row.value, q);
    if Fits(u.row.value, q) {
      FinalTells(u.row.value, q, q.phase.terminal);
    } else {
      FinalIsCommit(u.row.value, q, p, q.phase.terminal, STEP_ORDER[p.phase.at]);
    }
  }

  lemma LostMirrors(u: World, p: Run, env: Env, code: ErrorCode, sent: bool) returns (stay: bool)
    requires Consistent(u, p, env) && p.phase.Marked?
    ensures InRange(p)
    ensures var (c', q') := LoseReply(u, p, p.phase.at, env, code, sent);
      var (u', p') := if stay then (u, p) else Advance(u, p, env, true); Mirrors(c', q', u', p')
  {
    stay := Calls(STEP_ORDER[p.phase.at], p.target) && !sent;
  }

  lemma WriteMirrors(u: World, p: Run, env: Env, fate: Fate) returns (stay: bool)
    requires Consistent(u, p, env) && !p.phase.Marked? && (fate.Refused? || fate.Unheard?)
    ensures InRange(p)
    ensures var (c', q') := Suffer(u, p, env, fate);
      var (u', p') := if stay then (u, p) else Advance(u, p, env, true); Mirrors(c', q', u', p')
  {
    stay := fate.Refused? && !Over(p);
    if p.phase.Executed? {
      CommitFits(u, p, env, p.phase.at);
    }
  }

  lemma TogetherMirrors(u: World, p: Run, env: Env, fate: Fate) returns (stay: bool)
    requires Consistent(u, p, env)
    ensures InRange(p)
    ensures var (c', q') := Suffer(u, p, env, fate);
      var (u', p') := if stay then (u, p) else Advance(u, p, env, true); Mirrors(c', q', u', p')
  {
    AdvanceConsistent(u, p, env);
    if fate.Lost? && p.phase.Marked? {
      stay := LostMirrors(u, p, env, fate.code, fate.sent);
    } else if (fate.Refused? || fate.Unheard?) && !p.phase.Marked? {
      stay := WriteMirrors(u, p, env, fate);
    } else {
      stay := false;
    }
  }

  lemma MirrorNext(c: World, q: Run, u: World, p: Run, env: Env, fate: Fate) returns (stay: bool)
    requires Consistent(u, p, env) && Mirrors(c, q, u, p)
    ensures InRange(q) && InRange(p)
    ensures var (c', q') := Suffer(c, q, env, fate);
      var (u', p') := if stay then (u, p) else Advance(u, p, env, true); Mirrors(c', q', u', p')
  {
    if c == u && q == p {
      stay := TogetherMirrors(u, p, env, fate);
    } else if Over(q) {
      AdvanceConsistent(u, p, env);
      stay := true;
      OverMirrors(c, q, u, p, env, fate);
    } else {
      AdvanceConsistent(u, p, env);
      stay := FailingMirrors(c, q, u, p, env, fate);
    }
  }

  /** Whatever faults a run meets, its world stays the mirror of a world its undisturbed self passes through. */
  lemma {:induction false} Mirrored(w: World, r: Run, env: Env, fates: nat -> Fate, n: nat) returns (j: nat)
    requires Consistent(w, r, env)
    ensures InRange(r) && var ((c, q), (u, p)) := (Suffered(w, r, env, fates, n), Steps(w, r, env, j)); Mirrors(c, q, u, p)
  {
    AdvanceConsistent(w, r, env);
    if n == 0 {
      j := 0;
    } else {
      var before := n - 1;
      j := Mirrored(w, r, env, fates, before);
      var ((c, q), (u, p)) := (Suffered(w, r, env, fates, before), Steps(w, r, env, j));
      StepsConsistent(w, r, env, j);
      var stay := MirrorNext(c, q, u, p, env, fates(before));
      SufferedNext(w, r, env, fates, before, n);
      if !stay {
        StepsNext(w, r, env, j, j + 1);
        j := j + 1;
      }
    }
  }

  // ---------------------------------------------------------------- the theorems

  lemma ReopenMirrored(c: World, q: Run, u: World, p: Run, req: IntakeRequest, env: Env)
    requires Consistent(u, p, env) && Mirrors(c, q, u, p) && p.req == req
    ensures c.row.Some? && InRange(Load(c.row.value, req)) && Load(c.row.value, req) == Load(u.row.value, req)
    ensures SameProgress(c.row.value, u.row.value)
    ensures Finish(c, Load(c.row.value, req), env) == Finish(u, Load(u.row.value, req), env)
  {
    var load := Load(u.row.value, req);
    FirstWriteSame(c, u, load, env);
    SameFinish(c, u, load, env);
  }

  /** The saved row stays bound to the run's draft. */
  lemma SufferedBound(w: World, r: Run, env: Env, fates: nat -> Fate, n: nat)
    requires Consistent(w, r, env)
    ensures InRange(r) && var cut := Suffered(w, r, env, fates, n).0;
      cut.row.Some? && cut.row.value.draftDigest == r.req.draftDigest
  {
    var j := Mirrored(w, r, env, fates, n);
    StepsConsistent(w, r, env, j);
    StepsKeepRequest(w, r, env, j);
  }

  /** A run that meets any faults, is cut off at any await or is over, and is then reopened with the same request, ends as
      if nothing had happened to it: same steps, results, target, failure and state, same saved row, same gateway; except
      exactly when the saved row already shows a possible match of that run, which the reopened run walks past. */
  lemma FaultsThenResume(w: World, r: Run, env: Env, fates: nat -> Fate, n: nat)
    requires Consistent(w, r, env)
    ensures InRange(r)
    ensures var cut := Suffered(w, r, env, fates, n).0;
      && cut.row.Some? && InRange(Load(cut.row.value, r.req))
      && (Binds(r.req.confirmation, r.req.intakeRevisionId, cut.row.value) ==>
            (EndsTheSame(w, r, cut, env) <==> !FoundPossible(r, cut.row.value)))
  {
    var j := Mirrored(w, r, env, fates, n);
    var ((c, q), (u, p)) := (Suffered(w, r, env, fates, n), Steps(w, r, env, j));
    StepsConsistent(w, r, env, j);
    StepsKeepRequest(w, r, env, j);
    ReopenMirrored(c, q, u, p, r.req, env);
    CrashThenResume(w, r, env, j);
  }

  lemma MovedShape(w: World, r: Run, env: Env, saved: bool)
    requires WorldShape(w) && Shape(r)
    ensures InRange(r) && var (v, q) := Advance(w, r, env, saved); WorldShape(v) && Shape(q)
  {
    AdvanceShape(w, r, env, saved);
    AdvanceWorldShape(w, r, env, saved);
  }

  lemma SufferShape(w: World, r: Run, env: Env, fate: Fate)
    requires WorldShape(w) && Shape(r)
    ensures InRange(r) && var (v, q) := Suffer(w, r, env, fate); WorldShape(v) && Shape(q)
  {
    match fate {
      case Taken => MovedShape(w, r, env, true);
      case Refused => MovedShape(w, r, env, false);
      case Unheard =>
        MovedShape(w, r, env, true);
        MovedShape(w, r, env, false);
      case Lost(code, sent) =>
        if r.phase.Marked? {
          LostShape(w, r, r.phase.at, env, code, sent);
        } else {
          MovedShape(w, r, env, true);
        }
    }
  }

  lemma LostShape(w: World, r: Run, at: nat, env: Env, code: ErrorCode, sent: bool)
    requires WorldShape(w) && Shape(r) && r.phase == Marked(at)
    ensures var (v, q) := LoseReply(w, r, at, env, code, sent); WorldShape(v) && Shape(q)
  {
    if Calls(STEP_ORDER[at], r.target) {
      LoseShape(w, r, at, env, code, sent);
    } else {
      ExecuteShape(w, r, at, env);
    }
  }

  lemma {:induction false} SufferedShape(w: World, r: Run, env: Env, fates: nat -> Fate, n: nat)
    requires WorldShape(w) && Shape(r)
    ensures InRange(r) && var (v, q) := Suffered(w, r, env, fates, n); WorldShape(v) && Shape(q)
  {
    if n > 0 {
      var before := n - 1;
      SufferedShape(w, r, env, fates, before);
      SufferedNext(w, r, env, fates, before, n);
      var (v, q) := Suffered(w, r, env, fates, before);
      SufferShape(v, q, env, fates(before));
    }
  }

  /** One attempt of many: the fates of its awaits, and how many it lives through. */
  datatype Attempt = Attempt(fates: nat -> Fate, lived: nat)

  /** A run cut off and reopened again and again, the last time without faults and to its end. */
  function Attempts(w: World, r: Run, env: Env, attempts: seq<Attempt>): (World, Run)
    requires InRange(r)
    decreases |attempts|
  {
    if attempts == [] then Finish(w, r, env)
    else
      var (cut, stopped) := Suffered(w, r, env, attempts[0].fates, attempts[0].lived);
      if cut.row.None? then (cut, stopped) else Attempts(cut, Load(cut.row.value, r.req), env, attempts[1..])
  }

  /** Every attempt was let in again, and none after a possible match. */
  ghost predicate NeverRefused(w: World, r: Run, env: Env, attempts: seq<Attempt>)
    requires InRange(r)
    decreases |attempts|
  {
    attempts == [] ||
    (var cut := Suffered(w, r, env, attempts[0].fates, attempts[0].lived).0;
     && cut.row.Some? && Binds(r.req.confirmation, r.req.intakeRevisionId, cut.row.value)
     && !FoundPossible(r, cut.row.value)
     && NeverRefused(cut, Load(cut.row.value, r.req), env, attempts[1..]))
  }

  lemma ReopenedConsistent(w: World, r: Run, env: Env, fates: nat -> Fate, n: nat)
    requires Consistent(w, r, env)
    requires InRange(r) && var cut := Suffered(w, r, env, fates, n).0;
      cut.row.Some? && Binds(r.req.confirmation, r.req.intakeRevisionId, cut.row.value)
    ensures var cut := Suffered(w, r, env, fates, n).0; Consistent(cut, Load(cut.row.value, r.req), env)
  {
    var j := Mirrored(w, r, env, fates, n);
    var ((c, q), (u, p)) := (Suffered(w, r, env, fates, n), Steps(w, r, env, j));
    StepsConsistent(w, r, env, j);
    StepsKeepRequest(w, r, env, j);
    ReopenMirrored(c, q, u, p, r.req, env);
    LoadConsistent(u, p, env);
    SufferedShape(w, r, env, fates, n);
  }

  /** Any number of attempts, with any faults, makes no difference. */
  lemma {:induction false} ManyFaults(w: World, r: Run, env: Env, attempts: seq<Attempt>)
    requires Consistent(w, r, env) && InRange(r) && NeverRefused(w, r, env, attempts)
    ensures var ((v, x), (u, y)) := (Finish(w, r, env), Attempts(w, r, env, attempts)); v == u && SameEnd(x, y)
    decreases |attempts|
  {
    if attempts != [] {
      var first, rest := attempts[0], attempts[1..];
      FaultsThenResume(w, r, env, first.fates, first.lived);
      ReopenedConsistent(w, r, env, first.fates, first.lived);
      var cut := Suffered(w, r, env, first.fates, first.lived).0;
      ManyFaults(cut, Load(cut.row.value, r.req), env, rest);
    }
  }
}
