// In every interleaving the per-user limit bounds the addresses counted as active, and so the live ones.
module InterleavedLimit {
  import opened Basics
  import opened TrackerTypes
  import opened TrackerSpec
  import opened Interleaving
  import opened InterleavedCounters
  import opened InterleavedSessions

  /** The thread has room reserved for a new address of the user. */
  predicate Reserves(pc: Pc, user: User) {
    (pc.HoldsActive? || pc.HoldsBoth?) && pc.p.user == user
  }

  predicate Within(shard: Shard, pc: Pc, user: User, limit: nat) {
    && |UserIps(shard.active, user)| <= limit
    && (Reserves(pc, user) ==> |UserIps(shard.active, user)| < limit)
  }

  /** Admissions of the user run under this limit, in a mode that counts active addresses. */
  predicate Governed(a: Action, user: User, limit: nat) {
    a.ReserveActive? && a.p.user == user ==> a.limit == Some(limit) && a.mode != TimeWindow
  }

  lemma FewerIps<V>(before: map<Pair, V>, after: map<Pair, V>, user: User)
    requires after.Keys <= before.Keys
    ensures |UserIps(after, user)| <= |UserIps(before, user)|
  {
    SubsetSize(UserIps(after, user), UserIps(before, user));
  }

  lemma SubsetSize(a: set<IpAddr>, b: set<IpAddr>)
    requires a <= b
    ensures |a| <= |b|
  {
    assert b == a + (b - a);
  }

  lemma OneMoreIp<V>(m: map<Pair, V>, p: Pair, x: V, user: User)
    ensures UserIps(m[p := x], user) == UserIps(m, user) + if p.user == user then {p.ip} else {}
  {
    var before, after := UserIps(m, user), UserIps(m[p := x], user);
    forall ip ensures ip in after <==> ip in before || (p.user == user && ip == p.ip) {
      if ip in before {
        assert Pair(user, ip) in m;
        assert Pair(user, ip) in m[p := x];
      }
    }
  }

  lemma SameIps<V>(m: map<Pair, V>, p: Pair, x: V, user: User)
    requires p in m
    ensures UserIps(m[p := x], user) == UserIps(m, user)
  {
    OneMoreIp(m, p, x, user);
  }

  lemma EnterKeepsLimit(v: View, i: nat, a: Action, shardOf: User -> ShardIndex, user: User, limit: nat)
    requires Enabled(v, i, a, shardOf) && (a.EnterSeen? || a.EnterNew?) && Within(v.shard, v.pc, user, limit)
    ensures Within(Act(v, i, a, shardOf).shard, Act(v, i, a, shardOf).pc, user, limit)
  {
    OneMoreIp(v.shard.active, v.pc.p, 1, user);
  }

  lemma BumpKeepsLimit(v: View, i: nat, a: Action, shardOf: User -> ShardIndex, user: User, limit: nat)
    requires Enabled(v, i, a, shardOf) && (a.BumpKnown? || a.BumpUnseen?) && Within(v.shard, v.pc, user, limit)
    requires Holding(v.pc, v.shard)
    ensures Within(Act(v, i, a, shardOf).shard, Act(v, i, a, shardOf).pc, user, limit)
  {
    var p := if a.BumpKnown? then a.p else v.pc.p;
    SameIps(v.shard.active, p, SessionCount(v.shard.active, p) + 1, user);
  }

  lemma RemovalKeepsLimit(v: View, i: nat, a: Action, shardOf: User -> ShardIndex, user: User, limit: nat)
    requires Enabled(v, i, a, shardOf) && (a.ApplyOne? || a.RemoveOne? || a.ClearActive?)
      && Within(v.shard, v.pc, user, limit)
    ensures Within(Act(v, i, a, shardOf).shard, Act(v, i, a, shardOf).pc, user, limit)
  {
    FewerIps(v.shard.active, Act(v, i, a, shardOf).shard.active, user);
  }

  lemma QueueKeepsLimit(v: View, i: nat, a: Action, shardOf: User -> ShardIndex, user: User, limit: nat)
    requires OnQueue(a) && CanQueue(v, i, a, shardOf) && Within(v.shard, v.pc, user, limit)
    ensures Within(v.shard, ActOnQueue(v, i, a, shardOf).pc, user, limit)
    ensures ActOnQueue(v, i, a, shardOf).shard == v.shard
  {}

  lemma LockKeepsLimit(v: View, i: nat, a: Action, user: User, limit: nat)
    requires OnLock(a) && CanLock(v, i, a) && Within(v.shard, v.pc, user, limit)
    ensures Within(v.shard, ActOnLock(v, i, a).pc, user, limit)
    ensures ActOnLock(v, i, a).shard == v.shard
  {}

  lemma PruningKeepsLimit(v: View, i: nat, a: Action, user: User, limit: nat)
    requires OnRecent(a) && Within(v.shard, v.pc, user, limit)
    ensures Within(ActOnRecent(v, i, a).shard, ActOnRecent(v, i, a).pc, user, limit)
  {
    assert ActOnRecent(v, i, a).shard.active == v.shard.active;
  }

  /** A reservation for the user is made only while there is room under the limit. */
  lemma CountersKeepLimit(v: View, i: nat, a: Action, shardOf: User -> ShardIndex, user: User, limit: nat)
    requires OnCounters(a) && CanCounters(v, i, a, shardOf) && Governed(a, user, limit)
      && Within(v.shard, v.pc, user, limit)
    ensures Within(v.shard, ActOnCounters(v, i, a, shardOf).pc, user, limit)
    ensures ActOnCounters(v, i, a, shardOf).shard == v.shard
  {}

  lemma ActionKeepsLimit(v: View, i: nat, a: Action, shardOf: User -> ShardIndex, user: User, limit: nat)
    requires Enabled(v, i, a, shardOf) && Governed(a, user, limit) && Within(v.shard, v.pc, user, limit)
    requires Holding(v.pc, v.shard)
    ensures Within(Act(v, i, a, shardOf).shard, Act(v, i, a, shardOf).pc, user, limit)
  {
    if OnQueue(a) {
      QueueKeepsLimit(v, i, a, shardOf, user, limit);
    } else if OnLock(a) {
      LockKeepsLimit(v, i, a, user, limit);
    } else if OnRecent(a) {
      PruningKeepsLimit(v, i, a, user, limit);
    } else if OnCounters(a) {
      CountersKeepLimit(v, i, a, shardOf, user, limit);
    } else if a.EnterSeen? || a.EnterNew? {
      EnterKeepsLimit(v, i, a, shardOf, user, limit);
    } else if a.BumpKnown? || a.BumpUnseen? {
      BumpKeepsLimit(v, i, a, shardOf, user, limit);
    } else {
      RemovalKeepsLimit(v, i, a, shardOf, user, limit);
    }
  }

  /** Elsewhere no room is reserved for the user. */
  lemma NotReservedElsewhere(v: View, i: nat, a: Action, shardOf: User -> ShardIndex, user: User)
    requires Enabled(v, i, a, shardOf) && Homed(v.pc, shardOf) && shardOf(user) != i
    ensures !Reserves(Act(v, i, a, shardOf).pc, user)
  {
    if OnCounters(a) {
      CountersReserveHome(v, i, a, shardOf, user);
    } else {
      OthersPromiseNothing(v, i, a, shardOf);
    }
  }

  lemma CountersReserveHome(v: View, i: nat, a: Action, shardOf: User -> ShardIndex, user: User)
    requires OnCounters(a) && CanCounters(v, i, a, shardOf) && Homed(v.pc, shardOf) && shardOf(user) != i
    ensures !Reserves(ActOnCounters(v, i, a, shardOf).pc, user)
  {}

  // ---- The invariant ----

  ghost predicate LimitInv(s: System, shardOf: User -> ShardIndex, user: User, limit: nat) {
    && Inv(s, shardOf)
    && |UserIps(s.shards[shardOf(user)].active, user)| <= limit
    && forall t :: 0 <= t < |s.threads| ==> Within(s.shards[shardOf(user)], s.threads[t], user, limit)
  }

  /** Who reserved room for the user holds the lock of the user's shard, so nobody else changes it. */
  lemma OthersUndisturbed(
      s: System, t: nat, i: nat, a: Action, shardOf: User -> ShardIndex, user: User, limit: nat, u: nat)
    requires LimitInv(s, shardOf, user, limit) && t < |s.threads| && i < |s.shards| && u < |s.threads| && u != t
    requires Enabled(ViewOf(s, t, i), i, a, shardOf) && i == shardOf(user)
    requires Reserves(s.threads[u], user)
    ensures Act(ViewOf(s, t, i), i, a, shardOf).shard == s.shards[i]
  {
    EnabledLock(ViewOf(s, t, i), i, a, shardOf);
    LockGuards(ViewOf(s, t, i), i, a, shardOf);
    assert Homed(s.threads[u], shardOf);
    assert LockOf(s.threads[u]) == Some(i);
  }

  lemma ThreadKeepsLimit(s: System, t: nat, i: nat, a: Action, shardOf: User -> ShardIndex, user: User, limit: nat)
    requires LimitInv(s, shardOf, user, limit) && t < |s.threads| && i < |s.shards|
    requires Enabled(ViewOf(s, t, i), i, a, shardOf) && Governed(a, user, limit)
    ensures var s' := Write(s, t, i, Act(ViewOf(s, t, i), i, a, shardOf));
      && |UserIps(s'.shards[shardOf(user)].active, user)| <= limit
      && forall u :: 0 <= u < |s'.threads| ==> Within(s'.shards[shardOf(user)], s'.threads[u], user, limit)
  {
    var v := ViewOf(s, t, i);
    var s' := Write(s, t, i, Act(v, i, a, shardOf));
    assert Within(s.shards[shardOf(user)], s.threads[t], user, limit);
    if i == shardOf(user) {
      ActorPromise(s, t, i, a, shardOf);
      ActionKeepsLimit(v, i, a, shardOf, user, limit);
      forall u | 0 <= u < |s'.threads| ensures Within(s'.shards[i], s'.threads[u], user, limit) {
        assert Within(s.shards[i], s.threads[u], user, limit);
        if u != t && Reserves(s.threads[u], user) {
          OthersUndisturbed(s, t, i, a, shardOf, user, limit, u);
        }
      }
    } else {
      NotReservedElsewhere(v, i, a, shardOf, user);
      forall u | 0 <= u < |s'.threads| ensures Within(s'.shards[shardOf(user)], s'.threads[u], user, limit) {
        assert Within(s.shards[shardOf(user)], s.threads[u], user, limit);
      }
    }
  }

  predicate GovernedMove(m: Move, user: User, limit: nat) {
    m.Thread? ==> Governed(m.a, user, limit)
  }

  lemma MoveKeepsLimit(s: System, m: Move, s': System, shardOf: User -> ShardIndex, user: User, limit: nat)
    requires LimitInv(s, shardOf, user, limit) && Next(s, m, s', shardOf) && GovernedMove(m, user, limit)
    ensures LimitInv(s', shardOf, user, limit)
  {
    MoveKeepsInv(s, m, s', shardOf);
    match m
    case Thread(t, i, a) =>
      ThreadKeepsLimit(s, t, i, a, shardOf, user, limit);
    case ClearAll =>
      assert UserIps(s'.shards[shardOf(user)].active, user) == {};
  }

  ghost predicate GovernedAlong(r: Trace, user: User, limit: nat) {
    forall k :: 0 <= k < |r.moves| ==> GovernedMove(r.moves[k], user, limit)
  }

  /** The limit bounds the user's active addresses in every reachable state. */
  lemma {:induction false} ActiveWithinLimit(r: Trace, k: nat, shardOf: User -> ShardIndex, user: User, limit: nat)
    requires IsRun(r, shardOf) && GovernedAlong(r, user, limit) && k < |r.states|
    ensures LimitInv(r.states[k], shardOf, user, limit)
    decreases k
  {
    if k == 0 {
      StartInv(r.states[0], shardOf);
      assert UserIps(r.states[0].shards[shardOf(user)].active, user) == {};
    } else {
      ActiveWithinLimit(r, k - 1, shardOf, user, limit);
      assert MoveAt(r, k - 1, shardOf) && GovernedMove(r.moves[k - 1], user, limit);
      MoveKeepsLimit(r.states[k - 1], r.moves[k - 1], r.states[k], shardOf, user, limit);
    }
  }

  /** The addresses a user has a live session from. */
  ghost function LiveIps(s: System, user: User): set<IpAddr> {
    set p | p in s.live && p.user == user && 0 < s.live[p] :: p.ip
  }

  /** Distinct live addresses never exceed a constant limit, whatever the interleaving. */
  lemma LiveWithinLimit(r: Trace, k: nat, shardOf: User -> ShardIndex, user: User, limit: nat)
    requires IsRun(r, shardOf) && GovernedAlong(r, user, limit) && ReleasesOnceAlong(r) && k < |r.states|
    ensures |LiveIps(r.states[k], user)| <= limit
  {
    ActiveWithinLimit(r, k, shardOf, user, limit);
    var s := r.states[k];
    forall ip | ip in LiveIps(s, user) ensures ip in UserIps(s.shards[shardOf(user)].active, user) {
      LiveStaysActive(r, k, shardOf, Pair(user, ip));
    }
    SubsetSize(LiveIps(s, user), UserIps(s.shards[shardOf(user)].active, user));
  }
}
