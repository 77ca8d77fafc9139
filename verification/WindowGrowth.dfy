// Why deferral needs a window that does not grow: an immediate release may compact the log, a queued one does not,
// and a later, longer window tells the difference.
module WindowGrowth {
  import opened Basics
  import opened TrackerTypes
  import opened TrackerSpec
  import opened TrackerRuns
  import opened DeferredRelease

  // ---- Clocks ----

  /** The wall clock, `base` seconds ahead of the monotone one. */
  function Wall(base: nat, now: Instant): nat {
    base + now / NANOS_PER_SEC
  }

  /** The call reads both clocks in step. */
  predicate InStep(op: Op, base: nat) {
    match op
    case Check(_, _, clock) => clock.epochSecs == Wall(base, clock.compactAt)
    case Remove(_, _, compactAt, epochSecs) => epochSecs == Wall(base, compactAt)
    case Maintain(compactAt, epochSecs) => epochSecs == Wall(base, compactAt)
    case _ => true
  }

  ghost predicate Coupled(r: Run, base: nat) {
    forall i :: 0 <= i < |r.ops| ==> InStep(r.ops[i], base)
  }

  /** A tracker as it is started, with any limits. */
  predicate New(s: State) {
    s.active == map[] && s.recent == map[] && s.queue == map[] && s.lastCompactEpochSecs == 0
  }

  function Seconds(n: nat): Instant {
    NANOS_PER_SEC * n
  }

  // ---- The calls that tell the difference ----

  /** When the address is released: compaction is due again, and the address has just left the window. */
  function ReleasedAt(before: nat): nat {
    if before + 1 < COMPACT_INTERVAL_SECS then COMPACT_INTERVAL_SECS else before + 1
  }

  function AdmittedAt(before: nat): nat {
    ReleasedAt(before) - (before + 1)
  }

  /** One address per window of `secs` seconds. */
  function OneAddress(user: User, secs: nat): Policy {
    Policy(map[user := 1], 0, TimeWindow, secs)
  }

  function Empty(user: User, secs: nat, compacted: nat): State {
    State(map[], map[], map[], compacted, OneAddress(user, secs))
  }

  /** The address was admitted at the given second and its session is still open. */
  function Occupied(user: User, ip: IpAddr, secs: nat, at: nat, compacted: nat): State {
    State(map[Pair(user, ip) := 1], map[Pair(user, ip) := Seconds(at)], map[], compacted, OneAddress(user, secs))
  }

  function CheckAt(user: User, ip: IpAddr, base: nat, secs: nat): Op {
    Check(user, ip, Clock(Seconds(secs), Seconds(secs), base + secs))
  }

  /** First maintenance, an admission, its release, a longer window, and another address. */
  function Calls(user: User, ip: IpAddr, other: IpAddr, base: nat, before: nat, after: nat, release: Op): seq<Op> {
    [Maintain(0, base), CheckAt(user, ip, base, AdmittedAt(before)), release, SetPolicy(TimeWindow, after),
     CheckAt(user, other, base, ReleasedAt(before))]
  }

  function Times(before: nat): seq<Instant> {
    var a, r := Seconds(AdmittedAt(before)), Seconds(ReleasedAt(before));
    [0, 0, a, r, r, r]
  }

  function RemoveAt(user: User, ip: IpAddr, base: nat, before: nat): Op {
    Remove(user, ip, Seconds(ReleasedAt(before)), base + ReleasedAt(before))
  }

  // ---- What each call does ----

  lemma FirstMaintenance(user: User, base: nat, before: nat)
    requires COMPACT_INTERVAL_SECS <= base
    ensures MaybeCompact(Empty(user, before, 0), 0, base) == Empty(user, before, base)
  {
    assert Prune(map[], 0, LimitWindow(OneAddress(user, before))) == map[];
  }

  lemma EmptyPrepares(s: State, user: User, clock: Clock)
    requires s.active == map[] && s.recent == map[] && s.queue == map[] && !CompactionDue(s, clock.epochSecs)
    ensures Prepare(s, user, clock) == s
  {}

  lemma EmptyAdmits(s: State, user: User, ip: IpAddr, secs: nat)
    requires s.active == map[] && s.recent == map[] && s.policy == OneAddress(user, secs)
    ensures Decide(s, user, ip) == Admitted
  {
    assert UserIps(s.active, user) == {} && UserIps(s.recent, user) == {};
  }

  lemma EmptyChecks(user: User, ip: IpAddr, base: nat, secs: nat, at: nat, compacted: nat)
    requires base + at < compacted + COMPACT_INTERVAL_SECS
    ensures CheckAndAdd(Empty(user, secs, compacted), user, ip, Clock(Seconds(at), Seconds(at), base + at))
      == (Occupied(user, ip, secs, at, compacted), Admitted)
  {
    var s, clock := Empty(user, secs, compacted), Clock(Seconds(at), Seconds(at), base + at);
    EmptyPrepares(s, user, clock);
    EmptyAdmits(s, user, ip, secs);
    assert Enter(s, Pair(user, ip), Seconds(at)) == Occupied(user, ip, secs, at, compacted);
  }

  /** The immediate release finds the address outside the window and compacts it away. */
  lemma ImmediateRelease(user: User, ip: IpAddr, base: nat, before: nat)
    requires 1 <= before
    ensures RemoveIp(Occupied(user, ip, before, AdmittedAt(before), base), user, ip,
                     Seconds(ReleasedAt(before)), base + ReleasedAt(before))
      == Empty(user, before, base + ReleasedAt(before))
  {
    var s := Occupied(user, ip, before, AdmittedAt(before), base);
    assert CompactionDue(s, base + ReleasedAt(before));
    assert !InWindow(Seconds(AdmittedAt(before)), Seconds(ReleasedAt(before)), LimitWindow(s.policy));
    var t := MaybeCompact(s, Seconds(ReleasedAt(before)), base + ReleasedAt(before));
    assert t.recent == map[];
    assert Release(t.active, map[Pair(user, ip) := 1]) == map[];
  }

  function Queued(user: User, ip: IpAddr, secs: nat, before: nat, base: nat): State {
    Occupied(user, ip, secs, AdmittedAt(before), base).(queue := map[Pair(user, ip) := 1])
  }

  lemma QueuedRelease(user: User, ip: IpAddr, base: nat, before: nat)
    ensures EnqueueCleanup(Occupied(user, ip, before, AdmittedAt(before), base), user, ip)
      == Queued(user, ip, before, before, base)
  {}

  lemma QueuedGrows(user: User, ip: IpAddr, base: nat, before: nat, after: nat)
    requires 1 <= after
    ensures SetLimitPolicy(Queued(user, ip, before, before, base), TimeWindow, after)
      == Queued(user, ip, after, before, base)
  {}

  /** The queued release leaves it on record, and in the longer window it still counts. */
  lemma DeniedAfterQueued(user: User, ip: IpAddr, other: IpAddr, base: nat, before: nat, after: nat)
    requires 1 <= before < after && ip != other
    ensures CheckAndAdd(Queued(user, ip, after, before, base), user, other,
                        Clock(Seconds(ReleasedAt(before)), Seconds(ReleasedAt(before)), base + ReleasedAt(before))).1
      == LimitReached(0, 1, 1, TimeWindow)
  {
    var p, at := Pair(user, ip), Seconds(ReleasedAt(before));
    var s := Queued(user, ip, after, before, base);
    assert InWindow(Seconds(AdmittedAt(before)), at, LimitWindow(s.policy));
    var s1 := Prepare(s, user, Clock(at, at, base + ReleasedAt(before)));
    PrepareQueued(s, p, Clock(at, at, base + ReleasedAt(before)));
    assert UserIps(s1.active, user) == {} && UserIps(s1.recent, user) == {ip};
  }

  lemma PrepareQueued(s: State, p: Pair, clock: Clock)
    requires s.active == s.queue == map[p := 1] && s.recent.Keys == {p} && clock.compactAt <= clock.now
    requires InWindow(s.recent[p], clock.now, LimitWindow(s.policy))
    ensures Prepare(s, p.user, clock).active == map[]
    ensures Prepare(s, p.user, clock).recent == s.recent && Prepare(s, p.user, clock).policy == s.policy
  {
    var d := Drain(s, OnlyUser(s.queue, p.user));
    assert OnlyUser(s.queue, p.user) == map[p := 1];
    assert d.active == map[];
    assert Prune(d.recent, clock.compactAt, LimitWindow(s.policy)) == d.recent;
  }

  // ---- The two runs ----

  lemma UpToAdmission(user: User, ip: IpAddr, base: nat, before: nat) returns (r: Run)
    requires COMPACT_INTERVAL_SECS <= base && 1 <= before
    ensures r.states[0] == Empty(user, before, 0) && r.results == [None, Some(Admitted)]
    ensures r.ops == [Maintain(0, base), CheckAt(user, ip, base, AdmittedAt(before))]
    ensures r.times == [0, 0, Seconds(AdmittedAt(before))]
    ensures r.states[2] == Occupied(user, ip, before, AdmittedAt(before), base)
  {
    FirstMaintenance(user, base, before);
    EmptyChecks(user, ip, base, before, AdmittedAt(before), base);
    r := Trace([Empty(user, before, 0)], [], [], [0]);
    r := Extend(r, Maintain(0, base), Empty(user, before, base), None, 0);
    r := Extend(r, CheckAt(user, ip, base, AdmittedAt(before)), Occupied(user, ip, before, AdmittedAt(before), base),
                Some(Admitted), Seconds(AdmittedAt(before)));
  }

  lemma ThenReleaseAndGrow(r: Run, before: nat, after: nat, release: Op, s1: State) returns (r': Run)
    requires |r.ops| == 2 && r.times == [0, 0, Seconds(AdmittedAt(before))]
    requires Step(r.states[2], release, s1, None)
    requires Timed(release, Seconds(AdmittedAt(before)), Seconds(ReleasedAt(before)))
    ensures r'.states == r.states + [s1, SetLimitPolicy(s1, TimeWindow, after)]
    ensures r'.ops == r.ops + [release, SetPolicy(TimeWindow, after)] && r'.results == r.results + [None, None]
    ensures r'.times == r.times + [Seconds(ReleasedAt(before)), Seconds(ReleasedAt(before))]
  {
    var at := Seconds(ReleasedAt(before));
    r' := Extend(r, release, s1, None, at);
    r' := Extend(r', SetPolicy(TimeWindow, after), SetLimitPolicy(s1, TimeWindow, after), None, at);
  }

  lemma ThenCheck(r: Run, user: User, ip: IpAddr, base: nat, secs: nat) returns (r': Run)
    requires r.times[|r.ops|] == Seconds(secs)
    ensures r'.states[0] == r.states[0] && r'.times == r.times + [Seconds(secs)]
    ensures r'.ops == r.ops + [CheckAt(user, ip, base, secs)]
    ensures var (s', o) := CheckAndAdd(r.states[|r.ops|], user, ip, Clock(Seconds(secs), Seconds(secs), base + secs));
      r'.results == r.results + [Some(o)]
  {
    var (s', o) := CheckAndAdd(r.states[|r.ops|], user, ip, Clock(Seconds(secs), Seconds(secs), base + secs));
    r' := Extend(r, CheckAt(user, ip, base, secs), s', Some(o), Seconds(secs));
  }

  /** With an immediate release the other address gets in. */
  lemma ImmediateRun(user: User, ip: IpAddr, other: IpAddr, base: nat, before: nat, after: nat) returns (r: Run)
    requires COMPACT_INTERVAL_SECS <= base && 1 <= before && 1 <= after
    ensures r.states[0] == Empty(user, before, 0) && r.times == Times(before)
    ensures r.ops == Calls(user, ip, other, base, before, after, RemoveAt(user, ip, base, before))
    ensures r.results == [None, Some(Admitted), None, None, Some(Admitted)]
  {
    r := UpToAdmission(user, ip, base, before);
    ImmediateRelease(user, ip, base, before);
    EmptyChecks(user, other, base, after, ReleasedAt(before), base + ReleasedAt(before));
    r := ThenReleaseAndGrow(r, before, after, RemoveAt(user, ip, base, before),
                            Empty(user, before, base + ReleasedAt(before)));
    assert r.states[4] == Empty(user, after, base + ReleasedAt(before));
    r := ThenCheck(r, user, other, base, ReleasedAt(before));
  }

  lemma QueuedUpToGrowth(user: User, ip: IpAddr, base: nat, before: nat, after: nat) returns (r: Run)
    requires COMPACT_INTERVAL_SECS <= base && 1 <= before < after
    ensures r.states[0] == Empty(user, before, 0) && |r.ops| == 4
    ensures r.states[4] == Queued(user, ip, after, before, base)
    ensures r.ops == [Maintain(0, base), CheckAt(user, ip, base, AdmittedAt(before)), Enqueue(user, ip),
                      SetPolicy(TimeWindow, after)]
    ensures r.results == [None, Some(Admitted), None, None]
    ensures r.times == [0, 0, Seconds(AdmittedAt(before)), Seconds(ReleasedAt(before)), Seconds(ReleasedAt(before))]
  {
    r := UpToAdmission(user, ip, base, before);
    QueuedRelease(user, ip, base, before);
    r := ThenReleaseAndGrow(r, before, after, Enqueue(user, ip), Queued(user, ip, before, before, base));
    QueuedGrows(user, ip, base, before, after);
  }

  /** With a queued release it is turned away. */
  lemma QueuedRun(user: User, ip: IpAddr, other: IpAddr, base: nat, before: nat, after: nat) returns (r: Run)
    requires COMPACT_INTERVAL_SECS <= base && 1 <= before < after && ip != other
    ensures r.states[0] == Empty(user, before, 0) && r.times == Times(before)
    ensures r.ops == Calls(user, ip, other, base, before, after, Enqueue(user, ip))
    ensures r.results == [None, Some(Admitted), None, None, Some(LimitReached(0, 1, 1, TimeWindow))]
  {
    r := QueuedUpToGrowth(user, ip, base, before, after);
    DeniedAfterQueued(user, ip, other, base, before, after);
    r := ThenCheck(r, user, other, base, ReleasedAt(before));
  }

  // ---- Exactly when deferral is harmless ----

  /** The window is `before` seconds up to some point of the run and `after` seconds from there on. */
  ghost predicate SwitchesWindow(r: Run, before: nat, after: nat) {
    exists k :: SwitchesAt(r, before, after, k)
  }

  ghost predicate SwitchesAt(r: Run, before: nat, after: nat, k: int) {
    forall i :: 0 <= i < |r.states| ==> WindowAt(r, i) == Seconds(if i < k then before else after)
  }

  /** The two runs are those of one new tracker, with releases immediate or deferred, under one pair of clocks. */
  ghost predicate Comparable(a: Run, b: Run, base: nat, before: nat, after: nat) {
    && New(a.states[0]) && a.states[0] == b.states[0] && Coupled(a, base) && Defers(a, b)
    && SwitchesWindow(a, before, after) && NoCapHit(a, |a.ops|) && NoCapHit(b, |b.ops|)
  }

  /** No run of a new tracker from the one window to the other shows whether releases were deferred. */
  ghost predicate DeferralHarmless(base: nat, before: nat, after: nat) {
    forall a: Run, b: Run :: Comparable(a, b, base, before, after) ==> a.results == b.results
  }

  lemma ShrinkingIsHarmless(a: Run, b: Run, base: nat, before: nat, after: nat)
    requires after <= before && Comparable(a, b, base, before, after)
    ensures a.results == b.results
  {
    var k :| SwitchesAt(a, before, after, k);
    assert WindowNeverGrows(a);
    DeferralIsInvisible(a, b, |a.ops|);
    assert a.results[..|a.ops|] == a.results && b.results[..|a.ops|] == b.results;
  }

  lemma SwitchesOnce(r: Run, user: User, ip: IpAddr, other: IpAddr, base: nat, before: nat, after: nat, release: Op)
    requires 1 <= before && 1 <= after && (release.Remove? || release.Enqueue?)
    requires r.ops == Calls(user, ip, other, base, before, after, release)
    requires r.states[0].policy == OneAddress(user, before)
    ensures SwitchesWindow(r, before, after)
  {
    CallPolicy(r, 0);
    CallPolicy(r, 1);
    CallPolicy(r, 2);
    CallPolicy(r, 3);
    CallPolicy(r, 4);
    assert SwitchesAt(r, before, after, 4);
  }

  /** For every longer window there are calls, with clocks in step, whose answer changes. */
  lemma GrowingIsVisible(user: User, ip: IpAddr, other: IpAddr, base: nat, before: nat, after: nat)
    requires COMPACT_INTERVAL_SECS <= base && 1 <= before < after && ip != other
    ensures !DeferralHarmless(base, before, after)
  {
    var a := ImmediateRun(user, ip, other, base, before, after);
    var b := QueuedRun(user, ip, other, base, before, after);
    assert Defers(a, b);
    assert Coupled(a, base);
    SwitchesOnce(a, user, ip, other, base, before, after, RemoveAt(user, ip, base, before));
    assert Comparable(a, b, base, before, after);
    assert a.results[4] != b.results[4];
  }

  /** Deferral is harmless across a change of window exactly when the window does not grow. */
  lemma DeferralHarmlessIff(base: nat, before: nat, after: nat)
    requires COMPACT_INTERVAL_SECS <= base && 1 <= before && 1 <= after
    ensures DeferralHarmless(base, before, after) <==> after <= before
  {
    if after <= before {
      forall a: Run, b: Run | Comparable(a, b, base, before, after) ensures a.results == b.results {
        ShrinkingIsHarmless(a, b, base, before, after);
      }
    } else {
      GrowingIsVisible("user", V4(1), V4(2), base, before, after);
    }
  }
}
