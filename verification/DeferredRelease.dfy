// Deferring every release through the queue changes no admission decision.
module DeferredRelease {
  import opened Basics
  import opened TrackerTypes
  import opened TrackerSpec
  import opened MapLemmas
  import opened TrackerRuns

  /** The sessions a pair has left once everything queued is released. */
  function Owed(s: State, p: Pair): nat {
    SaturatingSub(SessionCount(s.active, p), SessionCount(s.queue, p))
  }

  /** The last admission of a pair, if it is still inside the window. */
  function Recall(recent: map<Pair, Instant>, p: Pair, now: Instant, window: nat): Option<Instant> {
    if p in recent && InWindow(recent[p], now, window) then Some(recent[p]) else None
  }

  ghost predicate SameRecall(a: map<Pair, Instant>, b: map<Pair, Instant>, now: Instant, window: nat) {
    forall p :: Recall(a, p, now, window) == Recall(b, p, now, window)
  }

  ghost predicate SameOwed(a: State, b: State) {
    forall p :: Owed(a, p) == Owed(b, p)
  }

  /** Two trackers nobody can tell apart from now on by asking for admissions. */
  ghost predicate Agree(a: State, b: State, now: Instant) {
    && a.policy == b.policy
    && AllPositive(a.active) && AllPositive(b.active)
    && SameOwed(a, b)
    && SameRecall(a.recent, b.recent, now, LimitWindow(a.policy))
  }

  // ---- What one call does to the sessions owed ----

  lemma DrainOwes(s: State, taken: map<Pair, nat>)
    requires AllPositive(s.active) && Submap(taken, s.queue)
    ensures AllPositive(Drain(s, taken).active)
    ensures forall p :: Owed(Drain(s, taken), p) == Owed(s, p)
  {}

  lemma PrepareOwes(s: State, user: User, clock: Clock)
    requires AllPositive(s.active)
    ensures AllPositive(Prepare(s, user, clock).active)
    ensures forall p :: Owed(Prepare(s, user, clock), p) == Owed(s, p)
    ensures forall p: Pair :: p.user == user ==> p !in Prepare(s, user, clock).queue
  {
    DrainOwes(s, OnlyUser(s.queue, user));
    var d := Drain(s, OnlyUser(s.queue, user));
    var t := Prepare(s, user, clock);
    assert t.active == d.active && t.queue == d.queue;
    forall p ensures Owed(t, p) == Owed(s, p) {
      assert Owed(d, p) == Owed(s, p);
    }
  }

  lemma CheckOwes(s: State, user: User, ip: IpAddr, clock: Clock)
    requires AllPositive(s.active)
    ensures var (s', o) := CheckAndAdd(s, user, ip, clock);
      && AllPositive(s'.active)
      && forall p :: Owed(s', p) == Owed(s, p) + if o.Admitted? && p == Pair(user, ip) then 1 else 0
  {
    PrepareOwes(s, user, clock);
  }

  lemma RemoveOwes(s: State, user: User, ip: IpAddr, compactAt: Instant, epochSecs: nat)
    requires AllPositive(s.active)
    ensures var s' := RemoveIp(s, user, ip, compactAt, epochSecs);
      && AllPositive(s'.active)
      && forall p :: Owed(s', p) == SaturatingSub(Owed(s, p), if p == Pair(user, ip) then 1 else 0)
  {}

  lemma EnqueueOwes(s: State, user: User, ip: IpAddr)
    ensures var s' := EnqueueCleanup(s, user, ip);
      forall p :: Owed(s', p) == SaturatingSub(Owed(s, p), if p == Pair(user, ip) then 1 else 0)
  {}

  // ---- What one call does to the window ----

  lemma RecallLater(
      a: map<Pair, Instant>, b: map<Pair, Instant>, now: Instant, window: nat, later: Instant, smaller: nat)
    requires SameRecall(a, b, now, window) && now <= later && smaller <= window
    ensures SameRecall(a, b, later, smaller)
  {
    forall p ensures Recall(a, p, later, smaller) == Recall(b, p, later, smaller) {
      assert Recall(a, p, now, window) == Recall(b, p, now, window);
    }
  }

  lemma CompactRecalls(s: State, compactAt: Instant, epochSecs: nat, later: Instant)
    requires compactAt <= later
    ensures SameRecall(MaybeCompact(s, compactAt, epochSecs).recent, s.recent, later, LimitWindow(s.policy))
  {}

  lemma PrepareRecalls(s: State, user: User, clock: Clock)
    requires clock.compactAt <= clock.now
    ensures SameRecall(Prepare(s, user, clock).recent, s.recent, clock.now, LimitWindow(s.policy))
    ensures forall p: Pair :: p.user == user ==>
      (p in Prepare(s, user, clock).recent <==> Recall(s.recent, p, clock.now, LimitWindow(s.policy)).Some?)
  {}

  // ---- Equal decisions ----

  predicate CapHit(o: Outcome) {
    o.ActiveCapReached? || o.RecentCapReached?
  }

  lemma SameDecision(a: State, b: State, user: User, ip: IpAddr)
    requires a.policy == b.policy
    requires forall p: Pair :: p.user == user ==> (p in a.active <==> p in b.active)
    requires forall p: Pair :: p.user == user ==> (p in a.recent <==> p in b.recent)
    requires !CapHit(Decide(a, user, ip)) && !CapHit(Decide(b, user, ip))
    ensures Decide(a, user, ip) == Decide(b, user, ip)
  {
    assert UserIps(a.active, user) == UserIps(b.active, user);
    assert UserIps(a.recent, user) == UserIps(b.recent, user);
  }

  lemma ActiveIffOwed(s: State, user: User, clock: Clock, p: Pair)
    requires AllPositive(s.active) && p.user == user
    ensures p in Prepare(s, user, clock).active <==> 0 < Owed(s, p)
  {
    PrepareOwes(s, user, clock);
    assert Owed(Prepare(s, user, clock), p) == Owed(s, p);
  }

  lemma CheckAgrees(a: State, b: State, user: User, ip: IpAddr, clock: Clock, from: Instant)
    requires Agree(a, b, from) && from <= clock.compactAt <= clock.now
    requires !CapHit(CheckAndAdd(a, user, ip, clock).1) && !CapHit(CheckAndAdd(b, user, ip, clock).1)
    ensures CheckAndAdd(a, user, ip, clock).1 == CheckAndAdd(b, user, ip, clock).1
  {
    var a1, b1, w := Prepare(a, user, clock), Prepare(b, user, clock), LimitWindow(a.policy);
    forall p: Pair | p.user == user ensures p in a1.active <==> p in b1.active {
      ActiveIffOwed(a, user, clock, p);
      ActiveIffOwed(b, user, clock, p);
      assert Owed(a, p) == Owed(b, p);
    }
    RecallLater(a.recent, b.recent, from, w, clock.now, w);
    PrepareRecalls(a, user, clock);
    PrepareRecalls(b, user, clock);
    forall p: Pair | p.user == user ensures p in a1.recent <==> p in b1.recent {
      assert Recall(a.recent, p, clock.now, w) == Recall(b.recent, p, clock.now, w);
    }
    SameDecision(a1, b1, user, ip);
  }

  // ---- Whole runs ----

  /** The same call with its release deferred. */
  function Defer(op: Op): Op {
    if op.Remove? then Enqueue(op.user, op.ip) else op
  }

  /** Run `b` makes the calls of run `a` at the same times, releasing through the queue. */
  ghost predicate Defers(a: Run, b: Run) {
    && |a.ops| == |b.ops|
    && a.times == b.times
    && forall i :: 0 <= i < |a.ops| ==> b.ops[i] == Defer(a.ops[i])
  }

  /** What a call makes of the number of sessions a pair is owed. */
  function OwedAfter(op: Op, r: Option<Outcome>, n: nat, p: Pair): nat {
    match op
    case Check(user, ip, _) => if r == Some(Admitted) && p == Pair(user, ip) then n + 1 else n
    case Remove(user, ip, _, _) => SaturatingSub(n, if p == Pair(user, ip) then 1 else 0)
    case Enqueue(user, ip) => SaturatingSub(n, if p == Pair(user, ip) then 1 else 0)
    case ClearUser(user) => if p.user == user then 0 else n
    case ClearEverything => 0
    case _ => n
  }

  /** What a call makes of the time a pair was last admitted. */
  function RecallAfter(op: Op, r: Option<Outcome>, seen: Option<Instant>, p: Pair): Option<Instant> {
    match op
    case Check(user, ip, clock) => if r == Some(Admitted) && p == Pair(user, ip) then Some(clock.now) else seen
    case ClearUser(user) => if p.user == user then None else seen
    case ClearEverything => None
    case _ => seen
  }

  function PolicyAfter(op: Op, policy: Policy): Policy {
    match op
    case SetPolicy(mode, secs) => policy.(mode := mode, windowSecs := if secs >= 1 then secs else 1)
    case SetLimit(user, limit) => policy.(maxIps := policy.maxIps[user := limit])
    case DropLimit(user) => policy.(maxIps := policy.maxIps - {user})
    case Load(defaultLimit, limits) => policy.(maxIps := limits, defaultMaxIps := defaultLimit)
    case _ => policy
  }

  function StillIn(seen: Option<Instant>, now: Instant, window: nat): Option<Instant> {
    if seen.Some? && InWindow(seen.value, now, window) then seen else None
  }

  lemma CallPolicy(r: Run, i: nat)
    requires i < |r.ops|
    ensures r.states[i + 1].policy == PolicyAfter(r.ops[i], r.states[i].policy)
  {
    CallStep(r, i);
  }

  lemma CallOwes(r: Run, i: nat)
    requires i < |r.ops| && AllPositive(r.states[i].active)
    ensures AllPositive(r.states[i + 1].active)
    ensures forall p :: Owed(r.states[i + 1], p) == OwedAfter(r.ops[i], r.results[i], Owed(r.states[i], p), p)
  {
    var s, op := r.states[i], r.ops[i];
    CallStep(r, i);
    match op
    case Check(user, ip, clock) => CheckOwes(s, user, ip, clock);
    case Remove(user, ip, compactAt, epochSecs) => RemoveOwes(s, user, ip, compactAt, epochSecs);
    case Enqueue(user, ip) => EnqueueOwes(s, user, ip);
    case DrainSome =>
      var taken :| Submap(taken, s.queue) && r.states[i + 1] == Drain(s, taken);
      DrainOwes(s, taken);
    case _ =>
  }

  lemma CheckRecalls(s: State, user: User, ip: IpAddr, clock: Clock, from: Instant, to: Instant, p: Pair)
    requires from <= clock.compactAt <= clock.now <= to
    ensures var (s', o) := CheckAndAdd(s, user, ip, clock);
      var w := LimitWindow(s.policy);
      Recall(s'.recent, p, to, w)
      == StillIn(if o == Admitted && p == Pair(user, ip) then Some(clock.now) else Recall(s.recent, p, from, w), to, w)
  {
    var s1, w := Prepare(s, user, clock), LimitWindow(s.policy);
    PrepareRecalls(s, user, clock);
    assert Recall(s1.recent, p, clock.now, w) == Recall(s.recent, p, clock.now, w);
    assert Recall(s1.recent, p, to, w) == Recall(s.recent, p, to, w);
  }

  lemma CallRecalls(r: Run, i: nat, p: Pair)
    requires i < |r.ops|
    ensures var w := WindowAt(r, i);
      Recall(r.states[i + 1].recent, p, r.times[i + 1], w)
      == StillIn(RecallAfter(r.ops[i], r.results[i], Recall(r.states[i].recent, p, r.times[i], w), p),
                 r.times[i + 1], w)
  {
    var s, op := r.states[i], r.ops[i];
    CallStep(r, i);
    CallTimes(r, i);
    if op.Check? {
      CheckRecalls(s, op.user, op.ip, op.clock, r.times[i], r.times[i + 1], p);
    } else if op.Remove? || op.Maintain? {
      CompactRecalls(s, op.compactAt, op.epochSecs, r.times[i + 1]);
      var s' := MaybeCompact(s, op.compactAt, op.epochSecs);
      assert Recall(s'.recent, p, r.times[i + 1], WindowAt(r, i))
        == Recall(s.recent, p, r.times[i + 1], WindowAt(r, i));
    }
  }

  ghost predicate NoCapHit(r: Run, n: nat)
    requires n <= |r.ops|
  {
    forall i :: 0 <= i < n ==> r.results[i].Some? ==> !CapHit(r.results[i].value)
  }

  lemma SameAnswer(a: Run, b: Run, i: nat)
    requires Defers(a, b) && i < |a.ops| && Agree(a.states[i], b.states[i], a.times[i])
    requires NoCapHit(a, i + 1) && NoCapHit(b, i + 1)
    ensures a.results[i] == b.results[i]
  {
    CallStep(a, i);
    CallStep(b, i);
    CallTimes(a, i);
    if a.ops[i].Check? {
      CheckAgrees(a.states[i], b.states[i], a.ops[i].user, a.ops[i].ip, a.ops[i].clock, a.times[i]);
    }
  }

  lemma SameOwedAfter(a: Run, b: Run, i: nat)
    requires Defers(a, b) && i < |a.ops| && Agree(a.states[i], b.states[i], a.times[i])
    requires a.results[i] == b.results[i]
    ensures AllPositive(a.states[i + 1].active) && AllPositive(b.states[i + 1].active)
    ensures SameOwed(a.states[i + 1], b.states[i + 1])
  {
    CallOwes(a, i);
    CallOwes(b, i);
    var a', b' := a.states[i + 1], b.states[i + 1];
    forall p ensures Owed(a', p) == Owed(b', p) {
      assert Owed(a.states[i], p) == Owed(b.states[i], p);
    }
  }

  lemma SameRecallAfter(a: Run, b: Run, i: nat)
    requires Defers(a, b) && i < |a.ops| && Agree(a.states[i], b.states[i], a.times[i])
    requires a.results[i] == b.results[i]
    ensures SameRecall(a.states[i + 1].recent, b.states[i + 1].recent, a.times[i + 1], WindowAt(a, i))
  {
    var a', b', to, w := a.states[i + 1].recent, b.states[i + 1].recent, a.times[i + 1], WindowAt(a, i);
    forall p ensures Recall(a', p, to, w) == Recall(b', p, to, w) {
      CallRecalls(a, i, p);
      CallRecalls(b, i, p);
      assert Recall(a.states[i].recent, p, a.times[i], w) == Recall(b.states[i].recent, p, a.times[i], w);
    }
  }

  /** One call on both sides: same answer, and still nobody can tell the trackers apart. */
  lemma CallAgrees(a: Run, b: Run, i: nat)
    requires Defers(a, b) && i < |a.ops| && Agree(a.states[i], b.states[i], a.times[i])
    requires NoCapHit(a, i + 1) && NoCapHit(b, i + 1)
    requires WindowAt(a, i + 1) <= WindowAt(a, i)
    ensures a.results[i] == b.results[i]
    ensures Agree(a.states[i + 1], b.states[i + 1], a.times[i + 1])
  {
    SameAnswer(a, b, i);
    SameOwedAfter(a, b, i);
    SameRecallAfter(a, b, i);
    CallPolicy(a, i);
    CallPolicy(b, i);
    RecallLater(a.states[i + 1].recent, b.states[i + 1].recent, a.times[i + 1], WindowAt(a, i),
                a.times[i + 1], WindowAt(a, i + 1));
  }

  /**
   * Replacing every immediate release by a queued one leaves every answer unchanged, for any calls in any order,
   * over-releases and clears included, as long as neither run meets a global cap and the window never grows.
   */
  lemma {:induction false} DeferralIsInvisible(a: Run, b: Run, n: nat)
    requires Defers(a, b) && n <= |a.ops|
    requires Agree(a.states[0], b.states[0], a.times[0])
    requires WindowNeverGrows(a)
    requires NoCapHit(a, n) && NoCapHit(b, n)
    ensures a.results[..n] == b.results[..n]
    ensures Agree(a.states[n], b.states[n], a.times[n])
    decreases n
  {
    if n > 0 {
      DeferralIsInvisible(a, b, n - 1);
      assert WindowAt(a, n - 1 + 1) <= WindowAt(a, n - 1);
      CallAgrees(a, b, n - 1);
      assert a.results[..n] == a.results[..n - 1] + [a.results[n - 1]];
      assert b.results[..n] == b.results[..n - 1] + [b.results[n - 1]];
    }
  }
}
