// An admission nobody disturbs: the steps under the lock come to what the flat specification decides.
module InterleavedCalls {
  import opened Basics
  import opened TrackerTypes
  import opened TrackerSpec
  import opened Interleaving
  import opened InterleavedCounters

  /** The view after the steps, if each of them can be taken. */
  ghost function Taken(v: View, i: nat, steps: seq<Action>, shardOf: User -> ShardIndex): Option<View>
    decreases |steps|
  {
    if steps == [] then Some(v)
    else if Enabled(v, i, steps[0], shardOf) then Taken(Act(v, i, steps[0], shardOf), i, steps[1..], shardOf)
    else None
  }

  /** The steps of an admission, by whether the address has a session and whether it is on record. */
  function Steps(shard: Shard, p: Pair, limit: Option<nat>, mode: Mode, now: Instant): seq<Action> {
    if p in shard.active then
      if p in shard.recent then [BumpKnown(p, now)] else [ReserveRecent(p), BumpUnseen(now)]
    else
      if p in shard.recent then [ReserveActive(p, limit, mode), EnterSeen(now)]
      else [ReserveActive(p, limit, mode), ReserveSecond, EnterNew(now)]
  }

  /** The flat table has the entries the shard has for the user, and as many in all as the counter says. */
  ghost predicate Agrees<T>(flat: map<Pair, T>, shard: map<Pair, T>, count: nat, user: User) {
    OnlyUser(flat, user) == OnlyUser(shard, user) && |flat| == count
  }

  ghost predicate Flattens(s: State, v: View, user: User) {
    Agrees(s.active, v.shard.active, v.activeCount, user) && Agrees(s.recent, v.shard.recent, v.recentCount, user)
  }

  lemma SameEntry<T>(a: map<Pair, T>, b: map<Pair, T>, p: Pair)
    requires OnlyUser(a, p.user) == OnlyUser(b, p.user)
    ensures p in a <==> p in b
    ensures p in a ==> a[p] == b[p]
  {
    assert p in a <==> p in OnlyUser(a, p.user);
    assert p in b <==> p in OnlyUser(b, p.user);
    if p in a {
      assert OnlyUser(a, p.user)[p] == a[p] && OnlyUser(b, p.user)[p] == b[p];
    }
  }

  lemma SameIps<T>(a: map<Pair, T>, b: map<Pair, T>, user: User)
    requires OnlyUser(a, user) == OnlyUser(b, user)
    ensures UserIps(a, user) == UserIps(b, user)
  {
    OnlyIps(a, user);
    OnlyIps(b, user);
  }

  lemma OnlyIps<T>(m: map<Pair, T>, user: User)
    ensures UserIps(m, user) == UserIps(OnlyUser(m, user), user)
  {
    assert forall p :: p in OnlyUser(m, user) <==> p in m && p.user == user;
  }

  lemma OneStep(v: View, i: nat, a: Action, shardOf: User -> ShardIndex)
    ensures Taken(v, i, [a], shardOf) == if Enabled(v, i, a, shardOf) then Some(Act(v, i, a, shardOf)) else None
  {}

  lemma TwoSteps(v: View, i: nat, a: Action, b: Action, shardOf: User -> ShardIndex)
    ensures Taken(v, i, [a, b], shardOf)
      == if Enabled(v, i, a, shardOf) then Taken(Act(v, i, a, shardOf), i, [b], shardOf) else None
  {
    assert [a, b][1..] == [b];
  }

  lemma ThreeSteps(v: View, i: nat, a: Action, b: Action, c: Action, shardOf: User -> ShardIndex)
    ensures Taken(v, i, [a, b, c], shardOf)
      == if Enabled(v, i, a, shardOf) then Taken(Act(v, i, a, shardOf), i, [b, c], shardOf) else None
  {
    assert [a, b, c][1..] == [b, c];
  }

  /** What an admission makes of the view. */
  function Admits(v: View, p: Pair, now: Instant): View {
    v.(shard := Shard(OneMore(v.shard.active, p), v.shard.recent[p := now]), live := OneMore(v.live, p),
       activeCount := if p in v.shard.active then v.activeCount else v.activeCount + 1,
       recentCount := if p in v.shard.recent then v.recentCount else v.recentCount + 1)
  }

  /** What has to hold for it. */
  predicate Admissible(v: View, p: Pair, limit: Option<nat>, mode: Mode) {
    && (p !in v.shard.active ==> Allowed(v.shard, p, limit, mode) && v.activeCount < MAX_ACTIVE_IP_ENTRIES)
    && (p !in v.shard.recent ==> v.recentCount < MAX_RECENT_IP_ENTRIES)
  }

  lemma BumpStep(v: View, i: nat, p: Pair, now: Instant, shardOf: User -> ShardIndex)
    requires v.pc == Locked(i) && shardOf(p.user) == i && p in v.shard.active && p in v.shard.recent
    ensures Taken(v, i, [BumpKnown(p, now)], shardOf) == Some(Admits(v, p, now))
  {
    OneStep(v, i, BumpKnown(p, now), shardOf);
  }

  lemma UnseenStep(v: View, i: nat, p: Pair, now: Instant, shardOf: User -> ShardIndex)
    requires v.pc == HoldsRecent(i, p) && p in v.shard.active && p !in v.shard.recent && v.recentCount > 0
    ensures Taken(v, i, [BumpUnseen(now)], shardOf)
      == Some(Admits(v.(pc := Locked(i), recentCount := v.recentCount - 1), p, now))
  {
    OneStep(v, i, BumpUnseen(now), shardOf);
  }

  lemma SeenStep(v: View, i: nat, p: Pair, now: Instant, shardOf: User -> ShardIndex)
    requires v.pc == HoldsActive(i, p) && p !in v.shard.active && p in v.shard.recent && v.activeCount > 0
    ensures Taken(v, i, [EnterSeen(now)], shardOf)
      == Some(Admits(v.(pc := Locked(i), activeCount := v.activeCount - 1), p, now))
  {
    OneStep(v, i, EnterSeen(now), shardOf);
  }

  lemma NewStep(v: View, i: nat, p: Pair, now: Instant, shardOf: User -> ShardIndex)
    requires v.pc == HoldsBoth(i, p) && p !in v.shard.active && p !in v.shard.recent
    requires v.activeCount > 0 && v.recentCount > 0
    ensures Taken(v, i, [EnterNew(now)], shardOf)
      == Some(Admits(v.(pc := Locked(i), activeCount := v.activeCount - 1, recentCount := v.recentCount - 1), p, now))
  {
    OneStep(v, i, EnterNew(now), shardOf);
  }

  /** After the sessions were reserved: the second reservation and the entry. */
  lemma SecondSteps(v: View, i: nat, p: Pair, now: Instant, shardOf: User -> ShardIndex)
    requires v.pc == HoldsActive(i, p) && p !in v.shard.active && p !in v.shard.recent && v.activeCount > 0
    ensures Taken(v, i, [ReserveSecond, EnterNew(now)], shardOf)
      == if v.recentCount < MAX_RECENT_IP_ENTRIES
         then Some(Admits(v.(pc := Locked(i), activeCount := v.activeCount - 1), p, now)) else None
  {
    TwoSteps(v, i, ReserveSecond, EnterNew(now), shardOf);
    if v.recentCount < MAX_RECENT_IP_ENTRIES {
      var v1 := v.(pc := HoldsBoth(i, p), recentCount := v.recentCount + 1);
      assert Act(v, i, ReserveSecond, shardOf) == v1;
      NewStep(v1, i, p, now, shardOf);
    }
  }

  lemma UnseenSteps(v: View, i: nat, p: Pair, now: Instant, shardOf: User -> ShardIndex)
    requires v.pc == Locked(i) && shardOf(p.user) == i && p in v.shard.active && p !in v.shard.recent
    ensures Taken(v, i, [ReserveRecent(p), BumpUnseen(now)], shardOf)
      == if v.recentCount < MAX_RECENT_IP_ENTRIES then Some(Admits(v, p, now)) else None
  {
    TwoSteps(v, i, ReserveRecent(p), BumpUnseen(now), shardOf);
    if v.recentCount < MAX_RECENT_IP_ENTRIES {
      var v1 := v.(pc := HoldsRecent(i, p), recentCount := v.recentCount + 1);
      assert Act(v, i, ReserveRecent(p), shardOf) == v1;
      UnseenStep(v1, i, p, now, shardOf);
    }
  }

  lemma SeenSteps(v: View, i: nat, p: Pair, first: Action, now: Instant, shardOf: User -> ShardIndex)
    requires Enabled(v, i, first, shardOf) && first.ReserveActive? && first.p == p && p in v.shard.recent
    ensures Taken(v, i, [first, EnterSeen(now)], shardOf) == Some(Admits(v, p, now))
  {
    var v1 := v.(pc := HoldsActive(i, p), activeCount := v.activeCount + 1);
    assert Act(v, i, first, shardOf) == v1;
    TwoSteps(v, i, first, EnterSeen(now), shardOf);
    SeenStep(v1, i, p, now, shardOf);
  }

  lemma NewSteps(v: View, i: nat, p: Pair, first: Action, now: Instant, shardOf: User -> ShardIndex)
    requires Enabled(v, i, first, shardOf) && first.ReserveActive? && first.p == p && p !in v.shard.recent
    ensures Taken(v, i, [first, ReserveSecond, EnterNew(now)], shardOf)
      == if v.recentCount < MAX_RECENT_IP_ENTRIES then Some(Admits(v, p, now)) else None
  {
    var v1 := v.(pc := HoldsActive(i, p), activeCount := v.activeCount + 1);
    assert Act(v, i, first, shardOf) == v1;
    assert v1.(pc := Locked(i), activeCount := v1.activeCount - 1) == v;
    ThreeSteps(v, i, first, ReserveSecond, EnterNew(now), shardOf);
    SecondSteps(v1, i, p, now, shardOf);
  }

  lemma StepsTaken(v: View, i: nat, p: Pair, limit: Option<nat>, mode: Mode, now: Instant, shardOf: User -> ShardIndex)
    requires v.pc == Locked(i) && shardOf(p.user) == i
    ensures Taken(v, i, Steps(v.shard, p, limit, mode, now), shardOf)
      == if Admissible(v, p, limit, mode) then Some(Admits(v, p, now)) else None
  {
    var first := ReserveActive(p, limit, mode);
    if p in v.shard.active {
      if p in v.shard.recent {
        BumpStep(v, i, p, now, shardOf);
      } else {
        UnseenSteps(v, i, p, now, shardOf);
      }
    } else if Enabled(v, i, first, shardOf) {
      if p in v.shard.recent {
        SeenSteps(v, i, p, first, now, shardOf);
      } else {
        NewSteps(v, i, p, first, now, shardOf);
      }
    }
  }

  lemma AdmissibleIff(s: State, v: View, p: Pair)
    requires Flattens(s, v, p.user)
    ensures Admissible(v, p, UserLimit(s.policy, p.user), s.policy.mode) <==> Decide(s, p.user, p.ip) == Admitted
  {
    SameEntry(s.active, v.shard.active, p);
    SameEntry(s.recent, v.shard.recent, p);
    SameIps(s.active, v.shard.active, p.user);
    SameIps(s.recent, v.shard.recent, p.user);
  }

  /**
   * Under the lock, with nobody else at the counters, the steps of an admission can all be taken exactly when the flat
   * specification admits, and then make the entries it makes.
   */
  lemma UndisturbedAdmission(s: State, v: View, i: nat, p: Pair, now: Instant, shardOf: User -> ShardIndex)
    requires v.pc == Locked(i) && shardOf(p.user) == i && Flattens(s, v, p.user)
    ensures var taken := Taken(v, i, Steps(v.shard, p, UserLimit(s.policy, p.user), s.policy.mode, now), shardOf);
      && (taken.Some? <==> Decide(s, p.user, p.ip) == Admitted)
      && (taken.Some? ==> taken.value.pc == Locked(i) && Flattens(Enter(s, p, now), taken.value, p.user))
  {
    var limit, mode := UserLimit(s.policy, p.user), s.policy.mode;
    AdmissibleIff(s, v, p);
    StepsTaken(v, i, p, limit, mode, now, shardOf);
    if Admissible(v, p, limit, mode) {
      AdmitsFlattens(s, v, p, now);
    }
  }

  lemma OnlyEntered<T>(m: map<Pair, T>, p: Pair, x: T)
    ensures OnlyUser(m[p := x], p.user) == OnlyUser(m, p.user)[p := x]
  {}

  lemma EnteredAgrees<T>(flat: map<Pair, T>, shard: map<Pair, T>, count: nat, p: Pair, x: T)
    requires Agrees(flat, shard, count, p.user)
    ensures Agrees(flat[p := x], shard[p := x], if p in shard then count else count + 1, p.user)
  {
    OnlyEntered(flat, p, x);
    OnlyEntered(shard, p, x);
    SameEntry(flat, shard, p);
    InsertSize(flat, p, x);
  }

  lemma EnteredSessions(flat: map<Pair, nat>, shard: map<Pair, nat>, count: nat, p: Pair)
    requires Agrees(flat, shard, count, p.user)
    ensures var n := if p in shard then count else count + 1;
      Agrees(flat[p := SessionCount(flat, p) + 1], OneMore(shard, p), n, p.user)
  {
    SameEntry(flat, shard, p);
    assert SessionCount(flat, p) == SessionCount(shard, p);
    EnteredAgrees(flat, shard, count, p, SessionCount(flat, p) + 1);
  }

  lemma AdmitsFlattens(s: State, v: View, p: Pair, now: Instant)
    requires Flattens(s, v, p.user)
    ensures Flattens(Enter(s, p, now), Admits(v, p, now), p.user)
  {
    var t, w := Enter(s, p, now), Admits(v, p, now);
    assert Agrees(t.active, w.shard.active, w.activeCount, p.user) by {
      EnteredSessions(s.active, v.shard.active, v.activeCount, p);
    }
    assert Agrees(t.recent, w.shard.recent, w.recentCount, p.user) by {
      EnteredAgrees(s.recent, v.shard.recent, v.recentCount, p, now);
    }
  }
}
