/** What each call of a run is answered and logged as, told from the earlier calls alone. */
module GatewayHistory {
  import opened Ordering
  import opened CanonicalJson
  import opened MockGateways

  /** The call needs the privileged tier and does not come in it. */
  ghost predicate Unprivileged<D>(req: Request<D>) {
    && req.tier != PrivilegedMerge
    && req.command in {MergeLaborProfiles, ResolvePossibleMatch, CommitReviewDecision, SupersedeReviewStatus}
  }

  /** An earlier call j with the key of call i succeeded. */
  ghost predicate Answered<D, R>(calls: seq<Call<D, R>>, j: nat, i: nat)
    requires i < |calls|
  {
    j < i && KeyOf(calls[j].request) == KeyOf(calls[i].request) && !ReplyTo(Fresh(), calls, j).Failed?
  }

  /** The same payload for the same method in the same tier. */
  ghost predicate Same<D>(a: Request<D>, b: Request<D>) {
    a.digest == b.digest && a.command == b.command && a.tier == b.tier
  }

  /** How many operation ids the first n calls drew. */
  ghost function Drawn<D, R>(calls: seq<Call<D, R>>, n: nat): nat
    requires n <= |calls|
  {
    if n == 0 then 0
    else
      var i := n - 1;
      Drawn(calls, i)
      + if ReplyTo(Fresh(), calls, i).Accepted? && forall j: nat :: !Answered(calls, j, i) then 1 else 0
  }

  /** The reply to a call nobody answered before: as its scenario says, for the tiers and methods it allows. */
  ghost predicate ByScenario<D, R>(c: Call<D, R>, drawn: nat, reply: Reply<R>) {
    var req := c.request;
    if req.tier !in c.fixture.allowedTiers then reply == Failed(req.commandId, req.correlationId, Forbidden)
    else if req.command !in c.fixture.allowedMethods then reply == Failed(req.commandId, req.correlationId, PolicyRejection)
    else
      && reply.commandId == req.commandId && reply.correlationId == req.correlationId
      && match c.fixture.outcome
         case Applies(data) => reply.Applied? && reply.data == data
         case Accepts => reply.Accepted? && reply.operation == Operation(c.clock, drawn + 1)
         case Fails(code) => reply.Failed? && reply.code == code
  }

  /** The gateway's cache holds just the successes so far. */
  ghost predicate HoldsSuccesses<D, R>(calls: seq<Call<D, R>>, n: nat)
    requires n <= |calls|
  {
    var s := Reached(Fresh(), calls, n);
    && (forall key: Text :: key in s.cache ==> exists j :: Succeeded(calls, j, n, key))
    && (forall key: Text, j: nat :: Succeeded(calls, j, n, key) ==>
          key in s.cache && s.cache[key] == CachedFrom(calls, j))
    && s.issued == Drawn(calls, n)
  }

  ghost predicate Succeeded<D, R>(calls: seq<Call<D, R>>, j: nat, n: nat, key: Text)
    requires n <= |calls|
  {
    j < n && KeyOf(calls[j].request) == key && !ReplyTo(Fresh(), calls, j).Failed?
  }

  ghost function CachedFrom<D, R>(calls: seq<Call<D, R>>, j: nat): Cached<D, R>
    requires j < |calls|
  {
    var req := calls[j].request; Cached(req.digest, ReplyTo(Fresh(), calls, j), req.tier, req.command)
  }

  lemma OneCall<D, R>(s: State<D, R>, c: Call<D, R>)
    ensures var (t, reply) := Decide(s, c.fixture, c.clock, c.request); var (req, key) := (c.request, KeyOf(c.request));
      && (Unprivileged(req) ==> t == s && reply == Failed(req.commandId, req.correlationId, Forbidden))
      && (!Unprivileged(req) && key in s.cache ==>
            t == s &&
            if s.cache[key].digest == req.digest && s.cache[key].command == req.command && s.cache[key].tier == req.tier
            then reply == s.cache[key].reply else reply == Failed(req.commandId, req.correlationId, IdempotencyConflict))
      && (!Unprivileged(req) && key !in s.cache ==>
            && ByScenario(c, s.issued, reply)
            && t.issued == s.issued + (if reply.Accepted? then 1 else 0)
            && t.cache == if reply.Failed? then s.cache else s.cache[key := Cached(req.digest, reply, req.tier, req.command)])
  {
  }

  lemma NextHolds<D, R>(calls: seq<Call<D, R>>, i: nat, n: nat)
    requires n == i + 1 <= |calls| && HoldsSuccesses(calls, i)
    ensures HoldsSuccesses(calls, n)
  {
    NextDrawn(calls, i, n);
    forall key: Text | key in Reached(Fresh(), calls, n).cache
      ensures exists j :: Succeeded(calls, j, n, key)
    {
      CachedSucceeded(calls, i, n, key);
    }
    forall key: Text, j: nat | Succeeded(calls, j, n, key)
      ensures key in Reached(Fresh(), calls, n).cache && Reached(Fresh(), calls, n).cache[key] == CachedFrom(calls, j)
    {
      SucceededCached(calls, i, n, key, j);
    }
  }

  /** A call adds at most one entry: its own, if it succeeds. */
  ghost predicate Grown<D, R>(s: State<D, R>, t: State<D, R>, req: Request<D>, reply: Reply<R>) {
    && (forall key :: key in s.cache ==> key in t.cache && t.cache[key] == s.cache[key])
    && (forall key :: key in t.cache && key !in s.cache ==> key == KeyOf(req) && !reply.Failed?)
    && (!reply.Failed? ==> KeyOf(req) in t.cache && t.cache[KeyOf(req)] == Cached(req.digest, reply, req.tier, req.command))
  }

  lemma CallGrows<D, R>(s: State<D, R>, c: Call<D, R>)
    ensures var (t, reply) := Decide(s, c.fixture, c.clock, c.request); Grown(s, t, c.request, reply)
  {
  }

  lemma NextGrows<D, R>(calls: seq<Call<D, R>>, i: nat, n: nat)
    requires n == i + 1 <= |calls|
    ensures Grown(Reached(Fresh(), calls, i), Reached(Fresh(), calls, n), calls[i].request, ReplyTo(Fresh(), calls, i))
  {
    CallGrows(Reached(Fresh(), calls, i), calls[i]);
  }

  lemma CachedSucceeded<D, R>(calls: seq<Call<D, R>>, i: nat, n: nat, key: Text)
    requires n == i + 1 <= |calls| && HoldsSuccesses(calls, i) && key in Reached(Fresh(), calls, n).cache
    ensures exists j :: Succeeded(calls, j, n, key)
  {
    NextGrows(calls, i, n);
    if key in Reached(Fresh(), calls, i).cache {
      var j :| Succeeded(calls, j, i, key);
      assert Succeeded(calls, j, n, key);
    } else {
      assert Succeeded(calls, i, n, key);
    }
  }

  lemma SucceededCached<D, R>(calls: seq<Call<D, R>>, i: nat, n: nat, key: Text, j: nat)
    requires n == i + 1 <= |calls| && HoldsSuccesses(calls, i) && Succeeded(calls, j, n, key)
    ensures key in Reached(Fresh(), calls, n).cache && Reached(Fresh(), calls, n).cache[key] == CachedFrom(calls, j)
  {
    NextGrows(calls, i, n);
    if j < i {
      EarlierCached(calls, i, key, j);
    } else {
      LatestCached(calls, i, Reached(Fresh(), calls, i), Reached(Fresh(), calls, n));
    }
  }

  lemma EarlierCached<D, R>(calls: seq<Call<D, R>>, i: nat, key: Text, j: nat)
    requires i <= |calls| && HoldsSuccesses(calls, i) && Succeeded(calls, j, i, key)
    ensures key in Reached(Fresh(), calls, i).cache && Reached(Fresh(), calls, i).cache[key] == CachedFrom(calls, j)
  {
  }

  lemma LatestCached<D, R>(calls: seq<Call<D, R>>, i: nat, s: State<D, R>, t: State<D, R>)
    requires i < |calls| && Grown(s, t, calls[i].request, ReplyTo(Fresh(), calls, i))
    requires !ReplyTo(Fresh(), calls, i).Failed?
    ensures KeyOf(calls[i].request) in t.cache && t.cache[KeyOf(calls[i].request)] == CachedFrom(calls, i)
  {
  }

  lemma NextDrawn<D, R>(calls: seq<Call<D, R>>, i: nat, n: nat)
    requires n == i + 1 <= |calls| && HoldsSuccesses(calls, i)
    ensures Reached(Fresh(), calls, n).issued == Drawn(calls, n)
  {
    OneCall(Reached(Fresh(), calls, i), calls[i]);
    CachedExactly(calls, i);
  }

  lemma CachedExactly<D, R>(calls: seq<Call<D, R>>, i: nat)
    requires i < |calls| && HoldsSuccesses(calls, i)
    ensures KeyOf(calls[i].request) in Reached(Fresh(), calls, i).cache <==> exists j: nat :: Answered(calls, j, i)
  {
    var key := KeyOf(calls[i].request);
    if key in Reached(Fresh(), calls, i).cache {
      var j :| Succeeded(calls, j, i, key);
      assert Answered(calls, j, i);
    }
    if j: nat :| Answered(calls, j, i) {
      assert Succeeded(calls, j, i, key);
    }
  }

  lemma {:induction false} AlwaysHolds<D, R>(calls: seq<Call<D, R>>, n: nat)
    requires n <= |calls|
    ensures HoldsSuccesses(calls, n)
  {
    if n > 0 {
      var before := n - 1;
      AlwaysHolds(calls, before);
      NextHolds(calls, before, n);
    }
  }

  lemma AnsweredCached<D, R>(calls: seq<Call<D, R>>, i: nat, j: nat)
    requires i < |calls| && HoldsSuccesses(calls, i) && Answered(calls, j, i)
    ensures KeyOf(calls[i].request) in Reached(Fresh(), calls, i).cache
    ensures Reached(Fresh(), calls, i).cache[KeyOf(calls[i].request)] == CachedFrom(calls, j)
  {
    assert Succeeded(calls, j, i, KeyOf(calls[i].request));
  }

  ghost predicate Repeats<D, R>(calls: seq<Call<D, R>>, i: nat, j: nat)
    requires i < |calls| && j < |calls|
  {
    var req := calls[i].request;
    ReplyTo(Fresh(), calls, i) ==
      if Same(calls[j].request, req) then ReplyTo(Fresh(), calls, j)
      else Failed(req.commandId, req.correlationId, IdempotencyConflict)
  }

  lemma AnsweredRepeats<D, R>(calls: seq<Call<D, R>>, i: nat, j: nat)
    requires i < |calls| && HoldsSuccesses(calls, i) && Answered(calls, j, i) && !Unprivileged(calls[i].request)
    ensures Repeats(calls, i, j)
  {
    AnsweredCached(calls, i, j);
    OneCall(Reached(Fresh(), calls, i), calls[i]);
  }

  /** Over any run of calls on a new gateway each reply follows from the calls before it: a privileged method outside the
      privileged tier is forbidden; after a success under its key a call gets the very same reply if it is the same call and
      a conflict if not; anything else is answered by its scenario. */
  lemma RepliesFollowHistory<D, R>(calls: seq<Call<D, R>>, i: nat)
    requires i < |calls|
    ensures var (reply, req) := (ReplyTo(Fresh(), calls, i), calls[i].request);
      if Unprivileged(req) then reply == Failed(req.commandId, req.correlationId, Forbidden)
      else if exists j: nat :: Answered(calls, j, i) then forall j: nat :: Answered(calls, j, i) ==> Repeats(calls, i, j)
      else ByScenario(calls[i], Drawn(calls, i), reply)
  {
    AlwaysHolds(calls, i);
    if Unprivileged(calls[i].request) || forall j: nat :: !Answered(calls, j, i) {
      OneCall(Reached(Fresh(), calls, i), calls[i]);
      CachedExactly(calls, i);
    } else {
      forall j: nat | Answered(calls, j, i)
        ensures Repeats(calls, i, j)
      {
        AnsweredRepeats(calls, i, j);
      }
    }
  }

  ghost predicate AnsweredSame<D, R>(calls: seq<Call<D, R>>, j: nat, i: nat)
    requires i < |calls|
  {
    Answered(calls, j, i) && Same(calls[j].request, calls[i].request)
  }

  ghost predicate AnsweredOther<D, R>(calls: seq<Call<D, R>>, j: nat, i: nat)
    requires i < |calls|
  {
    Answered(calls, j, i) && !Same(calls[j].request, calls[i].request)
  }

  lemma FlagsFollow<D, R>(calls: seq<Call<D, R>>, i: nat)
    requires i < |calls| && HoldsSuccesses(calls, i)
    ensures var (s, req) := (Reached(Fresh(), calls, i), calls[i].request);
      && (Replays(s, req) <==> !Unprivileged(req) && exists j: nat :: AnsweredSame(calls, j, i))
      && (Conflicts(s, req) <==> !Unprivileged(req) && exists j: nat :: AnsweredOther(calls, j, i))
  {
    if j: nat :| Answered(calls, j, i) {
      FlagsKnown(calls, i, j);
      assert AnsweredSame(calls, j, i) || AnsweredOther(calls, j, i);
      OneWay(calls, i, j);
    } else {
      CachedExactly(calls, i);
    }
  }

  lemma FlagsKnown<D, R>(calls: seq<Call<D, R>>, i: nat, j: nat)
    requires i < |calls| && HoldsSuccesses(calls, i) && Answered(calls, j, i)
    ensures var (s, req) := (Reached(Fresh(), calls, i), calls[i].request);
      && (Replays(s, req) <==> !Unprivileged(req) && AnsweredSame(calls, j, i))
      && (Conflicts(s, req) <==> !Unprivileged(req) && AnsweredOther(calls, j, i))
  {
    AnsweredCached(calls, i, j);
  }

  /** All earlier successes under a key are of the same call. */
  lemma OneWay<D, R>(calls: seq<Call<D, R>>, i: nat, j: nat)
    requires i < |calls| && HoldsSuccesses(calls, i) && Answered(calls, j, i)
    ensures forall k: nat :: Answered(calls, k, i) ==> (AnsweredSame(calls, k, i) <==> AnsweredSame(calls, j, i))
  {
    AnsweredCached(calls, i, j);
    forall k: nat | Answered(calls, k, i)
      ensures Same(calls[k].request, calls[j].request)
    {
      AnsweredCached(calls, i, k);
    }
  }

  /** The log entry of each call tells the call, its time, how it was answered, whether from the cache, and whether it
      clashed with an earlier call under its key. */
  lemma LogFollowsHistory<D, R>(calls: seq<Call<D, R>>, i: nat)
    requires i < |calls|
    ensures var (c, reply) := (calls[i], ReplyTo(Fresh(), calls, i));
      var entry := EntryFor(Reached(Fresh(), calls, i), c.fixture, c.clock, c.request);
      && entry.request == c.request && entry.clock == c.clock
      && (entry.status == StatusApplied <==> reply.Applied?) && (entry.status == StatusAccepted <==> reply.Accepted?)
      && (entry.status == StatusFailed <==> reply.Failed?)
      && entry.errorCode == (if reply.Failed? then Some(reply.code) else None)
      && (entry.cacheHit <==> !Unprivileged(c.request) && exists j: nat :: AnsweredSame(calls, j, i))
      && (entry.idempotencyConflict <==> !Unprivileged(c.request) && exists j: nat :: AnsweredOther(calls, j, i))
  {
    AlwaysHolds(calls, i);
    FlagsFollow(calls, i);
  }
}
