// The IP tracker itself: 64 shards of nested maps, entry counters with hard caps and a deferred-release queue.
// Each method is proved to do exactly what `TrackerSpec` says of the flat tables `active`, `recent` and `queue`.
module Tracker {
  import opened Basics
  import opened TrackerTypes
  import opened TrackerSpec
  import opened MapLemmas
  import opened NestedMaps
  import opened ShardOps
  import IpOrder

  lemma DrainNothing(s: State, user: User)
    requires |s.queue| == 0
    ensures Drain(s, OnlyUser(s.queue, user)) == s
  {
    assert OnlyUser(s.queue, user) == map[];
    ReleaseNothing(s.active);
  }

  lemma DrainTwice(s: State, first: map<Pair, nat>, second: map<Pair, nat>)
    requires Submap(second, s.queue - first.Keys)
    ensures Drain(Drain(s, first), second) == Drain(s, first + second)
  {
    assert Release(Release(s.active, first), second) == Release(s.active, first + second);
    assert s.queue - first.Keys - second.Keys == s.queue - (first + second).Keys;
  }

  /** Forget one user's sessions and recent addresses. */
  method DropUser(active: Table<nat>, recent: Table<Instant>, shardOf: User -> ShardIndex, ghost s: State, user: User)
    returns (active': Table<nat>, recent': Table<Instant>)
    requires TablesOk(active, recent, shardOf, s)
    ensures TablesOk(active', recent', shardOf, TrackerSpec.ClearUserIps(s, user))
  {
    var a, goneActive := RemoveUser(active.shards, shardOf, s.active, user);
    var r, goneRecent := RemoveUser(recent.shards, shardOf, s.recent, user);
    active' := Table(a, SaturatingSub(active.count, |goneActive|));
    recent' := Table(r, SaturatingSub(recent.count, |goneRecent|));
  }

  lemma DrainEmptyMap(s: State)
    ensures Drain(s, map[]) == s
  {
    ReleaseNothing(s.active);
  }

  /** `taken` holds one batch of every shard below `n`, and nothing else. */
  ghost predicate DrainedBelow(queue: map<Pair, nat>, shardOf: User -> ShardIndex, taken: map<Pair, nat>, n: nat) {
    && (forall p :: p in taken ==> shardOf(p.user) < n)
    && forall i :: 0 <= i < n ==> BatchOf(queue, shardOf, i, OnlyShard(taken, shardOf, i))
  }

  lemma LaterShardUntouched(queue: map<Pair, nat>, shardOf: User -> ShardIndex, taken: map<Pair, nat>, n: nat)
    requires forall p :: p in taken ==> shardOf(p.user) < n
    ensures OnlyShard(queue - taken.Keys, shardOf, n) == OnlyShard(queue, shardOf, n)
  {}

  lemma OwnShard(shardOf: User -> ShardIndex, taken: map<Pair, nat>, n: nat, batch: map<Pair, nat>)
    requires forall p :: p in taken ==> shardOf(p.user) < n
    requires forall p :: p in batch ==> shardOf(p.user) == n
    ensures OnlyShard(taken + batch, shardOf, n) == batch
  {}

  lemma EarlierShard(shardOf: User -> ShardIndex, taken: map<Pair, nat>, n: nat, batch: map<Pair, nat>, i: nat)
    requires forall p :: p in batch ==> shardOf(p.user) == n
    requires i < n
    ensures OnlyShard(taken + batch, shardOf, i) == OnlyShard(taken, shardOf, i)
  {}

  lemma NextBatch(
      queue: map<Pair, nat>, shardOf: User -> ShardIndex, taken: map<Pair, nat>, n: nat, batch: map<Pair, nat>)
    requires DrainedBelow(queue, shardOf, taken, n)
    requires BatchOf(queue - taken.Keys, shardOf, n, batch)
    ensures DrainedBelow(queue, shardOf, taken + batch, n + 1)
    ensures Submap(batch, queue - taken.Keys)
  {
    assert forall p :: p in batch ==> p in OnlyShard(queue - taken.Keys, shardOf, n);
    LaterShardUntouched(queue, shardOf, taken, n);
    OwnShard(shardOf, taken, n, batch);
    forall i | 0 <= i < n + 1 ensures BatchOf(queue, shardOf, i, OnlyShard(taken + batch, shardOf, i)) {
      if i < n {
        EarlierShard(shardOf, taken, n, batch, i);
      }
    }
  }

  method RecentOf(
      recent: Table<Instant>, shardOf: User -> ShardIndex, ghost s: State, user: User, now: Instant, window: nat)
    returns (ips: set<IpAddr>)
    requires RecentOk(recent, shardOf, s.recent) && window == LimitWindow(s.policy)
    ensures ips == RecentIps(s, user, now)
  {
    var m := Inner(recent.shards, shardOf, user);
    ips := set ip | ip in m && InWindow(m[ip], now, window);
    assert UserAgrees(s.recent, user, m);
    forall ip ensures ip in ips <==> ip in RecentIps(s, user, now) {
      if ip in m {
        assert Pair(user, ip) in s.recent;
      }
    }
  }

  /** Batch `k` was taken off shard `i` of queue `k`, which leaves queue `k + 1`. */
  ghost predicate DrainAt(
      queues: seq<map<Pair, nat>>, batches: seq<map<Pair, nat>>, shardOf: User -> ShardIndex, i: nat, k: nat)
    requires k < |batches| && |queues| == |batches| + 1
  {
    BatchOf(queues[k], shardOf, i, batches[k]) && queues[k + 1] == queues[k] - batches[k].Keys
  }

  lemma OneDrainLeaves(queue: map<Pair, nat>, batch: map<Pair, nat>, shardOf: User -> ShardIndex, i: nat)
    requires BatchOf(queue, shardOf, i, batch)
    ensures |OnlyShard(queue - batch.Keys, shardOf, i)|
      == SaturatingSub(|OnlyShard(queue, shardOf, i)|, CLEANUP_DRAIN_BATCH_LIMIT)
  {
    var q := OnlyShard(queue, shardOf, i);
    assert OnlyShard(queue - batch.Keys, shardOf, i) == q - batch.Keys;
    SubmapSize(batch, q);
  }

  /** Draining shard `i` over and over takes a full batch each time until the shard is empty. */
  lemma {:induction false} DrainsLeave(
      queues: seq<map<Pair, nat>>, batches: seq<map<Pair, nat>>, shardOf: User -> ShardIndex, i: nat, n: nat)
    requires |queues| == |batches| + 1 && n <= |batches|
    requires forall k :: 0 <= k < |batches| ==> DrainAt(queues, batches, shardOf, i, k)
    ensures |OnlyShard(queues[n], shardOf, i)|
      == SaturatingSub(|OnlyShard(queues[0], shardOf, i)|, 1024 * n)
    decreases n
  {
    if n > 0 {
      DrainsLeave(queues, batches, shardOf, i, n - 1);
      assert DrainAt(queues, batches, shardOf, i, n - 1);
      OneDrainLeaves(queues[n - 1], batches[n - 1], shardOf, i);
    }
  }

  class UserIpTracker {
    const shardOf: User -> ShardIndex
    var active: Table<nat>
    var recent: Table<Instant>
    var cleanup: Table<nat>
    var lastCompactEpochSecs: nat
    var policy: Policy

    /** The flat tables and settings the fields stand for. */
    ghost var state: State

    ghost predicate Valid()
      reads this
    {
      && ActiveOk(active, shardOf, state.active)
      && RecentOk(recent, shardOf, state.recent)
      && QueueOk(cleanup, shardOf, state.queue)
      && lastCompactEpochSecs == state.lastCompactEpochSecs
      && policy == state.policy
    }

    constructor (shardOf: User -> ShardIndex)
      ensures Valid()
      ensures this.shardOf == shardOf
      ensures state == InitialState()
    {
      this.shardOf := shardOf;
      active := Table(seq(USER_IP_TRACKER_SHARDS, _ => map[]), 0);
      recent := Table(seq(USER_IP_TRACKER_SHARDS, _ => map[]), 0);
      cleanup := Table(seq(USER_IP_TRACKER_SHARDS, _ => map[]), 0);
      lastCompactEpochSecs := 0;
      policy := Policy(map[], 0, ActiveWindow, 30);
      state := InitialState();
    }

    // ---- Limits and policy ----

    method SetLimitPolicy(mode: Mode, windowSecs: nat)
      requires Valid()
      modifies this`policy, this`state
      ensures Valid()
      ensures state == TrackerSpec.SetLimitPolicy(old(state), mode, windowSecs)
    {
      policy := policy.(mode := mode, windowSecs := if windowSecs >= 1 then windowSecs else 1);
      state := TrackerSpec.SetLimitPolicy(state, mode, windowSecs);
    }

    method SetUserLimit(user: User, limit: nat)
      requires Valid()
      modifies this`policy, this`state
      ensures Valid()
      ensures state == TrackerSpec.SetUserLimit(old(state), user, limit)
    {
      policy := policy.(maxIps := policy.maxIps[user := limit]);
      state := TrackerSpec.SetUserLimit(state, user, limit);
    }

    method RemoveUserLimit(user: User)
      requires Valid()
      modifies this`policy, this`state
      ensures Valid()
      ensures state == TrackerSpec.RemoveUserLimit(old(state), user)
    {
      policy := policy.(maxIps := policy.maxIps - {user});
      state := TrackerSpec.RemoveUserLimit(state, user);
    }

    method LoadLimits(defaultLimit: nat, limits: map<User, nat>)
      requires Valid()
      modifies this`policy, this`state
      ensures Valid()
      ensures state == TrackerSpec.LoadLimits(old(state), defaultLimit, limits)
    {
      policy := policy.(maxIps := limits, defaultMaxIps := defaultLimit);
      state := TrackerSpec.LoadLimits(state, defaultLimit, limits);
    }

    // ---- Deferred releases ----

    method EnqueueCleanup(user: User, ip: IpAddr)
      requires Valid()
      modifies this`cleanup, this`state
      ensures Valid()
      ensures state == TrackerSpec.EnqueueCleanup(old(state), user, ip)
    {
      cleanup := QueuePush(cleanup, shardOf, state.queue, Pair(user, ip));
      state := TrackerSpec.EnqueueCleanup(state, user, ip);
    }

    /** Release everything queued for one user. */
    method DrainCleanupForUser(user: User)
      requires Valid()
      modifies this`cleanup, this`active, this`state
      ensures Valid()
      ensures state == Drain(old(state), OnlyUser(old(state).queue, user))
    {
      if cleanup.count == 0 {
        DrainNothing(state, user);
        return;
      }
      var taken;
      cleanup, taken := QueueTakeUser(cleanup, shardOf, state.queue, user);
      active := ApplyReleases(active, shardOf, state.active, taken);
      state := Drain(state, taken);
    }

    /** Release one batch of shard `i`: all that is queued there, or exactly `CLEANUP_DRAIN_BATCH_LIMIT` pairs. */
    method DrainCleanupShard(i: nat) returns (taken: map<Pair, nat>)
      requires Valid()
      requires i < USER_IP_TRACKER_SHARDS
      modifies this`cleanup, this`active, this`state
      ensures Valid()
      ensures BatchOf(old(state).queue, shardOf, i, taken)
      ensures state == Drain(old(state), taken)
    {
      cleanup, taken := QueueTakeBatch(cleanup, shardOf, state.queue, i);
      active := ApplyReleases(active, shardOf, state.active, taken);
      state := Drain(state, taken);
    }

    // ---- Compaction ----

    method MaybeCompactEmptyUsers(now: Instant, epochSecs: nat)
      requires Valid()
      modifies this`lastCompactEpochSecs, this`recent, this`active, this`state
      ensures Valid()
      ensures state == MaybeCompact(old(state), now, epochSecs)
    {
      if SaturatingSub(epochSecs, lastCompactEpochSecs) < COMPACT_INTERVAL_SECS {
        return;
      }
      lastCompactEpochSecs := epochSecs;
      active, recent := CompactShards(active, recent, shardOf, state.active, state.recent, now, LimitWindow(policy));
      state := MaybeCompact(state, now, epochSecs);
    }

    // ---- Admission and release ----

    /** Everything up to the decision: drain, compact, and prune the user's recent entries. */
    method PrepareAdmission(user: User, clock: Clock)
      requires Valid()
      modifies this
      ensures Valid()
      ensures state == Prepare(old(state), user, clock)
    {
      DrainCleanupForUser(user);
      MaybeCompactEmptyUsers(clock.compactAt, clock.epochSecs);
      var window := LimitWindow(policy);
      var activeShards := EntryOrDefault(active.shards, shardOf, state.active, user);
      var recentShards, pruned := PruneUserIn(recent.shards, shardOf, state.recent, user, clock.now, window);
      active, recent := Table(activeShards, active.count), Table(recentShards, SaturatingSub(recent.count, pruned));
      state := state.(recent := PruneUser(state.recent, user, clock.now, window));
    }

    method CheckAndAdd(user: User, ip: IpAddr, clock: Clock) returns (outcome: Outcome)
      requires Valid()
      modifies this
      ensures Valid()
      ensures (state, outcome) == TrackerSpec.CheckAndAdd(old(state), user, ip, clock)
    {
      PrepareAdmission(user, clock);
      active, recent, outcome := Admit(active, recent, shardOf, policy, state, Pair(user, ip), clock.now);
      state := if outcome.Admitted? then Enter(state, Pair(user, ip), clock.now) else state;
    }

    method RemoveIp(user: User, ip: IpAddr, compactAt: Instant, epochSecs: nat)
      requires Valid()
      modifies this
      ensures Valid()
      ensures state == TrackerSpec.RemoveIp(old(state), user, ip, compactAt, epochSecs)
    {
      MaybeCompactEmptyUsers(compactAt, epochSecs);
      active := ApplyReleases(active, shardOf, state.active, map[Pair(user, ip) := 1]);
      state := state.(active := Release(state.active, map[Pair(user, ip) := 1]));
    }

    method ClearUserIps(user: User)
      requires Valid()
      modifies this`active, this`recent, this`state
      ensures Valid()
      ensures state == TrackerSpec.ClearUserIps(old(state), user)
    {
      active, recent := DropUser(active, recent, shardOf, state, user);
      state := TrackerSpec.ClearUserIps(state, user);
    }

    method ClearAll()
      requires Valid()
      modifies this`active, this`recent, this`cleanup, this`state
      ensures Valid()
      ensures state == TrackerSpec.ClearAll(old(state))
    {
      active := Table(seq(USER_IP_TRACKER_SHARDS, _ => map[]), 0);
      recent := Table(seq(USER_IP_TRACKER_SHARDS, _ => map[]), 0);
      cleanup := Table(seq(USER_IP_TRACKER_SHARDS, _ => map[]), 0);
      state := TrackerSpec.ClearAll(state);
    }

    // ---- Maintenance and queries ----

    /** Release one batch of every shard. */
    method DrainCleanupQueue() returns (taken: map<Pair, nat>)
      requires Valid()
      modifies this`cleanup, this`active, this`state
      ensures Valid()
      ensures forall i :: 0 <= i < USER_IP_TRACKER_SHARDS ==>
        BatchOf(old(state).queue, shardOf, i, OnlyShard(taken, shardOf, i))
      ensures state == Drain(old(state), taken)
    {
      taken := map[];
      DrainEmptyMap(state);
      if cleanup.count == 0 {
        forall i ensures BatchOf(state.queue, shardOf, i, OnlyShard(taken, shardOf, i)) {
          assert OnlyShard(state.queue, shardOf, i) == map[];
        }
        return;
      }
      for i := 0 to USER_IP_TRACKER_SHARDS
        invariant Valid()
        invariant DrainedBelow(old(state).queue, shardOf, taken, i)
        invariant state == Drain(old(state), taken)
      {
        var batch := DrainCleanupShard(i);
        NextBatch(old(state).queue, shardOf, taken, i, batch);
        DrainTwice(old(state), taken, batch);
        taken := taken + batch;
      }
    }

    /** How many addresses each listed user was admitted from inside the window, read without draining. */
    method GetRecentCountsSnapshot(users: seq<User>, now: Instant) returns (counts: map<User, nat>)
      requires Valid()
      ensures counts.Keys == set u | u in users
      ensures forall u :: u in counts ==> counts[u] == |RecentIps(state, u, now)|
    {
      counts := map[];
      for k := 0 to |users|
        invariant counts.Keys == set u | u in users[..k]
        invariant forall u :: u in counts ==> counts[u] == |RecentIps(state, u, now)|
      {
        var ips := RecentOf(recent, shardOf, state, users[k], now, LimitWindow(policy));
        assert users[..k + 1] == users[..k] + [users[k]];
        counts := counts[users[k] := |ips|];
      }
    }

    method ReadRecentIps(users: seq<User>, now: Instant) returns (out: map<User, seq<IpAddr>>)
      requires Valid()
      ensures out.Keys == set u | u in users
      ensures forall u :: u in out ==> Lists(out[u], RecentIps(state, u, now))
    {
      out := map[];
      for k := 0 to |users|
        invariant out.Keys == set u | u in users[..k]
        invariant forall u :: u in out ==> Lists(out[u], RecentIps(state, u, now))
      {
        var ips := RecentOf(recent, shardOf, state, users[k], now, LimitWindow(policy));
        var sorted := IpOrder.Sort(ips);
        assert users[..k + 1] == users[..k] + [users[k]];
        out := out[users[k] := sorted];
      }
    }

    /** The addresses each listed user was admitted from inside the window, in order; draining first changes nothing. */
    method GetRecentIpsForUsers(users: seq<User>, now: Instant) returns (out: map<User, seq<IpAddr>>)
      requires Valid()
      modifies this`cleanup, this`active, this`state
      ensures Valid()
      ensures out.Keys == set u | u in users
      ensures forall u :: u in out ==> Lists(out[u], RecentIps(old(state), u, now))
    {
      var taken := DrainCleanupQueue();
      out := ReadRecentIps(users, now);
      forall u | u in out ensures Lists(out[u], RecentIps(old(state), u, now)) {
        SameRecentIps(old(state), state, u, now);
      }
    }
  }

  /** The listing of a set of addresses. */
  ghost predicate Lists(listing: seq<IpAddr>, ips: set<IpAddr>) {
    IpOrder.Sorted(listing) && forall ip :: ip in listing <==> ip in ips
  }

  lemma SameRecentIps(s: State, t: State, user: User, now: Instant)
    requires s.recent == t.recent && s.policy == t.policy
    ensures RecentIps(s, user, now) == RecentIps(t, user, now)
  {}
}
