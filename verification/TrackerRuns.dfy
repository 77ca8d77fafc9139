// Sequential runs of the tracker: any calls in any order, with a monotone clock.
module TrackerRuns {
  import opened Basics
  import opened TrackerTypes
  import opened TrackerSpec
  import opened MapLemmas

  datatype Op =
    | Check(user: User, ip: IpAddr, clock: Clock)
    | Remove(user: User, ip: IpAddr, compactAt: Instant, epochSecs: nat)
    | Enqueue(user: User, ip: IpAddr)
    | DrainSome                                   // any drain: of a user, a shard or the whole queue
    | Maintain(compactAt: Instant, epochSecs: nat)
    | ClearUser(user: User)
    | ClearEverything
    | SetPolicy(mode: Mode, windowSecs: nat)
    | SetLimit(user: User, limit: nat)
    | DropLimit(user: User)
    | Load(defaultLimit: nat, limits: map<User, nat>)

  /** One call: from `s` to `s'`, answering `r` when it is an admission. */
  ghost predicate Step(s: State, op: Op, s': State, r: Option<Outcome>) {
    match op
    case Check(user, ip, clock) => (s', r) == var (t, o) := CheckAndAdd(s, user, ip, clock); (t, Some(o))
    case Remove(user, ip, compactAt, epochSecs) => r == None && s' == RemoveIp(s, user, ip, compactAt, epochSecs)
    case Enqueue(user, ip) => r == None && s' == EnqueueCleanup(s, user, ip)
    case DrainSome => r == None && exists taken :: Submap(taken, s.queue) && s' == Drain(s, taken)
    case Maintain(compactAt, epochSecs) => r == None && s' == MaybeCompact(s, compactAt, epochSecs)
    case ClearUser(user) => r == None && s' == ClearUserIps(s, user)
    case ClearEverything => r == None && s' == ClearAll(s)
    case SetPolicy(mode, windowSecs) => r == None && s' == SetLimitPolicy(s, mode, windowSecs)
    case SetLimit(user, limit) => r == None && s' == SetUserLimit(s, user, limit)
    case DropLimit(user) => r == None && s' == RemoveUserLimit(s, user)
    case Load(defaultLimit, limits) => r == None && s' == LoadLimits(s, defaultLimit, limits)
  }

  /** The call reads the clock between `from` and `to`. */
  predicate Timed(op: Op, from: Instant, to: Instant) {
    && from <= to
    && (op.Check? ==> from <= op.clock.compactAt <= op.clock.now <= to)
    && (op.Remove? ==> from <= op.compactAt <= to)
    && (op.Maintain? ==> from <= op.compactAt <= to)
  }

  /** `states[i]` is the state before call `i`, reached at time `times[i]`. */
  datatype Trace = Trace(states: seq<State>, ops: seq<Op>, results: seq<Option<Outcome>>, times: seq<Instant>)

  ghost predicate CallAt(r: Trace, i: nat)
    requires |r.states| == |r.ops| + 1 == |r.results| + 1 == |r.times|
    requires i < |r.ops|
  {
    && Step(r.states[i], r.ops[i], r.states[i + 1], r.results[i])
    && Timed(r.ops[i], r.times[i], r.times[i + 1])
  }

  ghost predicate IsRun(r: Trace) {
    && |r.states| == |r.ops| + 1 == |r.results| + 1 == |r.times|
    && forall i :: 0 <= i < |r.ops| ==> CallAt(r, i)
  }

  type Run = r: Trace | IsRun(r) ghost witness Trace([InitialState()], [], [], [0])

  function WindowAt(r: Trace, i: nat): nat
    requires i < |r.states|
  {
    LimitWindow(r.states[i].policy)
  }

  /** The configured window never grows during the run. */
  ghost predicate WindowNeverGrows(r: Trace) {
    forall i :: 0 <= i && i + 1 < |r.states| ==> WindowAt(r, i + 1) <= WindowAt(r, i)
  }

  function Extended(r: Trace, op: Op, s': State, result: Option<Outcome>, to: Instant): Trace {
    Trace(r.states + [s'], r.ops + [op], r.results + [result], r.times + [to])
  }

  lemma EarlierCall(r: Run, op: Op, s': State, result: Option<Outcome>, to: Instant, i: nat)
    requires i < |r.ops|
    ensures CallAt(Extended(r, op, s', result, to), i)
  {
    assert CallAt(r, i);
    var t := Extended(r, op, s', result, to);
    assert t.states[i] == r.states[i] && t.states[i + 1] == r.states[i + 1] && t.ops[i] == r.ops[i];
    assert t.results[i] == r.results[i] && t.times[i] == r.times[i] && t.times[i + 1] == r.times[i + 1];
  }

  lemma LastCall(r: Run, op: Op, s': State, result: Option<Outcome>, to: Instant)
    requires Step(r.states[|r.ops|], op, s', result) && Timed(op, r.times[|r.ops|], to)
    ensures CallAt(Extended(r, op, s', result, to), |r.ops|)
  {
    var t, n := Extended(r, op, s', result, to), |r.ops|;
    assert t.states[n] == r.states[n] && t.states[n + 1] == s' && t.ops[n] == op;
    assert t.results[n] == result && t.times[n] == r.times[n] && t.times[n + 1] == to;
  }

  lemma ExtendedIsRun(r: Run, op: Op, s': State, result: Option<Outcome>, to: Instant)
    requires CallAt(Extended(r, op, s', result, to), |r.ops|)
    ensures IsRun(Extended(r, op, s', result, to))
  {
    var t := Extended(r, op, s', result, to);
    forall i | 0 <= i < |t.ops| ensures CallAt(t, i) {
      if i < |r.ops| {
        EarlierCall(r, op, s', result, to, i);
      }
    }
  }

  /** One more call at the end of a run. */
  lemma Extend(r: Run, op: Op, s': State, result: Option<Outcome>, to: Instant) returns (r': Run)
    requires Step(r.states[|r.ops|], op, s', result)
    requires Timed(op, r.times[|r.ops|], to)
    ensures r' == Trace(r.states + [s'], r.ops + [op], r.results + [result], r.times + [to])
  {
    LastCall(r, op, s', result, to);
    ExtendedIsRun(r, op, s', result, to);
    r' := Extended(r, op, s', result, to);
  }

  lemma CallTimes(r: Run, i: nat)
    requires i < |r.ops|
    ensures Timed(r.ops[i], r.times[i], r.times[i + 1])
  {
    assert CallAt(r, i);
  }

  lemma CallStep(r: Run, i: nat)
    requires i < |r.ops|
    ensures Step(r.states[i], r.ops[i], r.states[i + 1], r.results[i])
  {
    assert CallAt(r, i);
  }

  lemma {:induction false} TimesIncrease(r: Run, i: nat, j: nat)
    requires i <= j < |r.times|
    ensures r.times[i] <= r.times[j]
  {
    if i < j {
      TimesIncrease(r, i, j - 1);
      CallTimes(r, j - 1);
    }
  }
}

// Pruning and compaction cannot be seen from outside while the window does not grow.
module RecentLog {
  import opened Basics
  import opened TrackerTypes
  import opened TrackerSpec
  import opened MapLemmas
  import opened TrackerRuns

  /** The time of every pair's last admission since the last clear, never pruned. */
  ghost function Log(r: Run, n: nat): map<Pair, Instant>
    requires n <= |r.ops|
  {
    if n == 0 then map[] else
      match r.ops[n - 1]
      case Check(user, ip, clock) =>
        if r.results[n - 1] == Some(Admitted) then Log(r, n - 1)[Pair(user, ip) := clock.now] else Log(r, n - 1)
      case ClearUser(user) => WithoutUser(Log(r, n - 1), user)
      case ClearEverything => map[]
      case _ => Log(r, n - 1)
  }

  /** `recent` is the log minus entries that have left the window for good. */
  ghost predicate Pruned(recent: map<Pair, Instant>, log: map<Pair, Instant>, now: Instant, window: nat) {
    && Submap(recent, log)
    && forall p :: p in log && p !in recent ==> !InWindow(log[p], now, window)
  }

  lemma PrunedLater(
      recent: map<Pair, Instant>, log: map<Pair, Instant>, now: Instant, window: nat, later: Instant, smaller: nat)
    requires Pruned(recent, log, now, window) && now <= later && smaller <= window
    ensures Pruned(recent, log, later, smaller)
  {}

  lemma PruneKeeps(recent: map<Pair, Instant>, log: map<Pair, Instant>, now: Instant, window: nat)
    requires Pruned(recent, log, now, window)
    ensures Pruned(Prune(recent, now, window), log, now, window)
  {}

  lemma PruneUserKeeps(recent: map<Pair, Instant>, log: map<Pair, Instant>, user: User, now: Instant, window: nat)
    requires Pruned(recent, log, now, window)
    ensures Pruned(PruneUser(recent, user, now, window), log, now, window)
  {}

  lemma CompactKeeps(s: State, log: map<Pair, Instant>, now: Instant, epochSecs: nat)
    requires Pruned(s.recent, log, now, LimitWindow(s.policy))
    ensures Pruned(MaybeCompact(s, now, epochSecs).recent, log, now, LimitWindow(s.policy))
  {
    PruneKeeps(s.recent, log, now, LimitWindow(s.policy));
  }

  lemma PrepareKeeps(s: State, log: map<Pair, Instant>, user: User, clock: Clock, from: Instant)
    requires from <= clock.compactAt <= clock.now
    requires Pruned(s.recent, log, from, LimitWindow(s.policy))
    ensures Pruned(Prepare(s, user, clock).recent, log, clock.now, LimitWindow(s.policy))
  {
    var w := LimitWindow(s.policy);
    var s0 := Drain(s, OnlyUser(s.queue, user));
    PrunedLater(s.recent, log, from, w, clock.compactAt, w);
    CompactKeeps(s0, log, clock.compactAt, clock.epochSecs);
    var s1 := MaybeCompact(s0, clock.compactAt, clock.epochSecs);
    PrunedLater(s1.recent, log, clock.compactAt, w, clock.now, w);
    PruneUserKeeps(s1.recent, log, user, clock.now, w);
  }

  lemma CheckKeeps(s: State, log: map<Pair, Instant>, user: User, ip: IpAddr, clock: Clock, from: Instant)
    requires from <= clock.compactAt <= clock.now
    requires Pruned(s.recent, log, from, LimitWindow(s.policy))
    ensures var (s', outcome) := CheckAndAdd(s, user, ip, clock);
      Pruned(s'.recent, if outcome.Admitted? then log[Pair(user, ip) := clock.now] else log, clock.now,
        LimitWindow(s.policy))
  {
    PrepareKeeps(s, log, user, clock, from);
  }

  /** One call keeps `recent` a pruned log, up to the end of the call. */
  lemma CallKeeps(r: Run, n: nat)
    requires n < |r.ops|
    requires Pruned(r.states[n].recent, Log(r, n), r.times[n], WindowAt(r, n))
    ensures Pruned(r.states[n + 1].recent, Log(r, n + 1), r.times[n + 1], WindowAt(r, n))
  {
    var s, s', op, log := r.states[n], r.states[n + 1], r.ops[n], Log(r, n);
    var from, to, w := r.times[n], r.times[n + 1], WindowAt(r, n);
    CallTimes(r, n);
    CallStep(r, n);
    if op.Check? {
      CheckKeeps(s, log, op.user, op.ip, op.clock, from);
      PrunedLater(s'.recent, Log(r, n + 1), op.clock.now, w, to, w);
    } else if op.Remove? || op.Maintain? {
      PrunedLater(s.recent, log, from, w, op.compactAt, w);
      CompactKeeps(s, log, op.compactAt, op.epochSecs);
      PrunedLater(s'.recent, log, op.compactAt, w, to, w);
    } else {
      PrunedLater(s.recent, log, from, w, to, w);
    }
  }

  lemma {:induction false} RecentIsPrunedLog(r: Run, n: nat)
    requires r.states[0].recent == map[] && WindowNeverGrows(r)
    requires n <= |r.ops|
    ensures Pruned(r.states[n].recent, Log(r, n), r.times[n], WindowAt(r, n))
    decreases n
  {
    if n > 0 {
      RecentIsPrunedLog(r, n - 1);
      CallKeeps(r, n - 1);
      assert WindowAt(r, n - 1 + 1) <= WindowAt(r, n - 1);
      PrunedLater(r.states[n].recent, Log(r, n), r.times[n], WindowAt(r, n - 1), r.times[n], WindowAt(r, n));
    }
  }

  // ---- Compaction ----

  /** Wall-clock seconds a call reads, if it may compact. */
  function EpochOf(op: Op): Option<nat> {
    match op
    case Check(_, _, clock) => Some(clock.epochSecs)
    case Remove(_, _, _, epochSecs) => Some(epochSecs)
    case Maintain(_, epochSecs) => Some(epochSecs)
    case _ => None
  }

  /** The wall clock of the last compaction: of the first call a minute or more after the one before. */
  ghost function CompactedAt(r: Run, n: nat): nat
    requires n <= |r.ops|
  {
    if n == 0 then r.states[0].lastCompactEpochSecs else
      var before, epoch := CompactedAt(r, n - 1), EpochOf(r.ops[n - 1]);
      if epoch.Some? && before + 60 <= epoch.value then epoch.value else before
  }

  lemma {:induction false} CompactionIsTimed(r: Run, n: nat)
    requires n <= |r.ops|
    ensures r.states[n].lastCompactEpochSecs == CompactedAt(r, n)
    decreases n
  {
    if n > 0 {
      CompactionIsTimed(r, n - 1);
      CallCompacts(r, n - 1);
    }
  }

  lemma CallCompacts(r: Run, n: nat)
    requires n < |r.ops|
    ensures var before, epoch := r.states[n].lastCompactEpochSecs, EpochOf(r.ops[n]);
      r.states[n + 1].lastCompactEpochSecs
      == if epoch.Some? && before + 60 <= epoch.value then epoch.value else before
  {
    CallStep(r, n);
  }

  /** A maintenance call forgets what has left the window, exactly when a minute has passed since the last one did. */
  lemma MaintenanceForgets(r: Run, n: nat, p: Pair)
    requires n < |r.ops| && r.ops[n].Maintain?
    ensures var op, before := r.ops[n], r.states[n].recent;
      p in r.states[n + 1].recent
      <==> && p in before
           && (CompactedAt(r, n) + 60 <= op.epochSecs ==> InWindow(before[p], op.compactAt, WindowAt(r, n)))
  {
    CompactionIsTimed(r, n);
    CallStep(r, n);
  }

  /** What a query against the full log would answer. */
  ghost function LoggedIps(r: Run, n: nat, user: User, now: Instant): set<IpAddr>
    requires n <= |r.ops|
  {
    set p | p in Log(r, n) && p.user == user && InWindow(Log(r, n)[p], now, WindowAt(r, n)) :: p.ip
  }

  /** Whenever pruning and compaction ran, a recent-address query answers as if they never had. */
  lemma PruningIsUnobservable(r: Run, n: nat, user: User, now: Instant)
    requires r.states[0].recent == map[] && WindowNeverGrows(r)
    requires n <= |r.ops| && r.times[n] <= now
    ensures RecentIps(r.states[n], user, now) == LoggedIps(r, n, user, now)
  {
    RecentIsPrunedLog(r, n);
    var recent, log, w := r.states[n].recent, Log(r, n), WindowAt(r, n);
    PrunedLater(recent, log, r.times[n], w, now, w);
    forall ip ensures ip in RecentIps(r.states[n], user, now) <==> ip in LoggedIps(r, n, user, now) {
      var p := Pair(user, ip);
      if ip in LoggedIps(r, n, user, now) {
        assert p in log && InWindow(log[p], now, w);
        assert p in recent;
      }
      if ip in RecentIps(r.states[n], user, now) {
        assert p in recent;
        assert p in log;
      }
    }
  }
}
