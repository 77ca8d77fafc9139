// The sliding-window limit under concurrency. A thread reads the clock before it gets the shard lock, so an admission
// may be recorded with a time that lies back by as much as the thread had to wait. The window shrinks by that lag.
module InterleavedWindow {
  import opened Basics
  import opened TrackerTypes
  import opened TrackerSpec
  import opened Interleaving
  import opened InterleavedCounters
  import FreshAdmissions

  // ---- Room for a new address ----

  /** The thread has reserved an entry for a new address of the user. */
  predicate ReservesNew(pc: Pc, shard: Shard, user: User) {
    (pc.HoldsActive? || pc.HoldsBoth?) && pc.p.user == user && pc.p !in shard.recent
  }

  predicate Room(shard: Shard, pc: Pc, user: User, limit: nat) {
    ReservesNew(pc, shard, user) ==> |UserIps(shard.recent, user)| < limit
  }

  /** The user is admitted under this limit, in a mode that counts recent addresses, and is not cleared. */
  predicate Governed(m: Move, user: User, limit: nat) {
    && m.Thread?
    && (m.a.ReserveActive? && m.a.p.user == user ==> m.a.limit == Some(limit) && m.a.mode != ActiveWindow)
    && m.a != ClearRecent(user)
  }

  /** Only the steps on counters leave a thread with a reservation. */
  lemma NothingReserved(v: View, i: nat, a: Action, shardOf: User -> ShardIndex)
    requires Enabled(v, i, a, shardOf) && !OnCounters(a)
    ensures var pc := Act(v, i, a, shardOf).pc; !pc.HoldsActive? && !pc.HoldsBoth?
  {}

  lemma CountersKeepRoom(v: View, i: nat, a: Action, shardOf: User -> ShardIndex, user: User, limit: nat)
    requires OnCounters(a) && CanCounters(v, i, a, shardOf) && Room(v.shard, v.pc, user, limit)
    requires a.ReserveActive? && a.p.user == user ==> a.limit == Some(limit) && a.mode != ActiveWindow
    ensures ActOnCounters(v, i, a, shardOf).shard == v.shard
    ensures Room(v.shard, ActOnCounters(v, i, a, shardOf).pc, user, limit)
  {}

  lemma ActionKeepsRoom(v: View, i: nat, a: Action, shardOf: User -> ShardIndex, user: User, limit: nat)
    requires Enabled(v, i, a, shardOf) && Room(v.shard, v.pc, user, limit)
    requires a.ReserveActive? && a.p.user == user ==> a.limit == Some(limit) && a.mode != ActiveWindow
    ensures Room(Act(v, i, a, shardOf).shard, Act(v, i, a, shardOf).pc, user, limit)
  {
    if OnCounters(a) {
      CountersKeepRoom(v, i, a, shardOf, user, limit);
    } else {
      NothingReserved(v, i, a, shardOf);
    }
  }

  ghost predicate RoomInv(s: System, shardOf: User -> ShardIndex, user: User, limit: nat) {
    && Inv(s, shardOf)
    && forall t :: 0 <= t < |s.threads| ==> Room(s.shards[shardOf(user)], s.threads[t], user, limit)
  }

  /** Who holds a reservation for the user also holds the lock, so nobody else changes the shard. */
  lemma OthersKeepRoom(
      s: System, t: nat, i: nat, a: Action, shardOf: User -> ShardIndex, user: User, limit: nat, u: nat)
    requires RoomInv(s, shardOf, user, limit) && t < |s.threads| && i < |s.shards| && u < |s.threads| && u != t
    requires Enabled(ViewOf(s, t, i), i, a, shardOf)
    ensures var s' := Write(s, t, i, Act(ViewOf(s, t, i), i, a, shardOf));
      Room(s'.shards[shardOf(user)], s.threads[u], user, limit)
  {
    assert Room(s.shards[shardOf(user)], s.threads[u], user, limit);
    var pc := s.threads[u];
    if (pc.HoldsActive? || pc.HoldsBoth?) && pc.p.user == user && i == shardOf(user) {
      assert Homed(pc, shardOf);
      assert LockOf(pc) == Some(i);
      EnabledLock(ViewOf(s, t, i), i, a, shardOf);
      LockGuards(ViewOf(s, t, i), i, a, shardOf);
    }
  }

  lemma ActorKeepsRoom(s: System, t: nat, i: nat, a: Action, shardOf: User -> ShardIndex, user: User, limit: nat)
    requires RoomInv(s, shardOf, user, limit) && t < |s.threads| && i < |s.shards|
    requires Enabled(ViewOf(s, t, i), i, a, shardOf) && Governed(Thread(t, i, a), user, limit)
    ensures var v' := Act(ViewOf(s, t, i), i, a, shardOf);
      Room(Write(s, t, i, v').shards[shardOf(user)], v'.pc, user, limit)
  {
    var v := ViewOf(s, t, i);
    assert Room(s.shards[shardOf(user)], s.threads[t], user, limit);
    if i == shardOf(user) {
      ActionKeepsRoom(v, i, a, shardOf, user, limit);
    } else {
      assert Homed(s.threads[t], shardOf);
      StaysHomed(v, i, a, shardOf);
      StaysHere(v, i, a, shardOf);
    }
  }

  lemma StaysHere(v: View, i: nat, a: Action, shardOf: User -> ShardIndex)
    requires Enabled(v, i, a, shardOf)
    ensures var pc := Act(v, i, a, shardOf).pc; pc.HoldsActive? || pc.HoldsBoth? ==> pc.i == i
  {
    LockGuards(v, i, a, shardOf);
  }

  lemma MoveKeepsRoom(s: System, m: Move, s': System, shardOf: User -> ShardIndex, user: User, limit: nat)
    requires RoomInv(s, shardOf, user, limit) && Next(s, m, s', shardOf) && Governed(m, user, limit)
    ensures RoomInv(s', shardOf, user, limit)
  {
    MoveKeepsInv(s, m, s', shardOf);
    forall u | 0 <= u < |s'.threads| ensures Room(s'.shards[shardOf(user)], s'.threads[u], user, limit) {
      if u == m.t {
        ActorKeepsRoom(s, m.t, m.i, m.a, shardOf, user, limit);
      } else {
        OthersKeepRoom(s, m.t, m.i, m.a, shardOf, user, limit, u);
      }
    }
  }

  // ---- Timed runs ----

  /**
   * Admissions are recorded with a time the thread read at most `lag` earlier; entries of the user are pruned with the
   * constant window and a time already read.
   */
  predicate Timely(m: Move, at: Instant, user: User, window: nat, lag: nat) {
    m.Thread? ==>
      && (OnEntry(m.a) ==> m.a.now <= at <= m.a.now + lag)
      && (m.a.PruneOf? && user in m.a.users ==> m.a.window == window && m.a.now <= at)
  }

  /** What governs the runs: whose limit, how large, which window, and how long threads wait at most. */
  datatype Setting = Setting(shardOf: User -> ShardIndex, user: User, limit: nat, window: nat, lag: nat)

  /** Move `k` happens at `times[k]`. */
  ghost predicate Timed(r: Trace, times: seq<Instant>, g: Setting) {
    && IsRun(r, g.shardOf) && |times| == |r.moves|
    && (forall j, k :: 0 <= j <= k < |times| ==> times[j] <= times[k])
    && (forall k :: 0 <= k < |times| ==> Governed(r.moves[k], g.user, g.limit))
    && (forall k :: 0 <= k < |times| ==> Timely(r.moves[k], times[k], g.user, g.window, g.lag))
  }

  lemma {:induction false} ReachableRoom(r: Trace, times: seq<Instant>, g: Setting, k: nat)
    requires Timed(r, times, g) && k < |r.states|
    ensures RoomInv(r.states[k], g.shardOf, g.user, g.limit)
    decreases k
  {
    if k == 0 {
      StartInv(r.states[0], g.shardOf);
    } else {
      ReachableRoom(r, times, g, k - 1);
      assert MoveAt(r, k - 1, g.shardOf) && Governed(r.moves[k - 1], g.user, g.limit);
      MoveKeepsRoom(r.states[k - 1], r.moves[k - 1], r.states[k], g.shardOf, g.user, g.limit);
    }
  }

  /** Move `k` admits the user from an address that is neither active nor on record. */
  ghost predicate FreshAt(r: Trace, k: nat, user: User) {
    && k < |r.moves| && k < |r.states| && r.moves[k].Thread? && r.moves[k].a.EnterNew?
    && r.moves[k].t < |r.states[k].threads|
    && var pc := r.states[k].threads[r.moves[k].t]; pc.HoldsBoth? && pc.p.user == user
  }

  ghost function IpAt(r: Trace, k: nat): IpAddr {
    if k < |r.moves| && k < |r.states| && r.moves[k].Thread? && r.moves[k].t < |r.states[k].threads|
    then var pc := r.states[k].threads[r.moves[k].t]; if pc.HoldsBoth? then pc.p.ip else V4(0)
    else V4(0)
  }

  // ---- Admissions stay on record ----

  /** The address is on record with a time no more than `lag` before `since`. */
  predicate OnRecord(recent: map<Pair, Instant>, p: Pair, since: Instant, lag: nat) {
    p in recent && since <= recent[p] + lag
  }

  lemma EntryKeepsRecord(
      v: View, i: nat, a: Action, shardOf: User -> ShardIndex, p: Pair, since: Instant, at: Instant, lag: nat)
    requires OnEntry(a) && CanEnter(v, i, a, shardOf) && OnRecord(v.shard.recent, p, since, lag)
    requires since <= at <= a.now + lag
    ensures OnRecord(ActOnEntry(v, i, a, shardOf).shard.recent, p, since, lag)
  {}

  lemma PruningKeepsRecord(v: View, i: nat, a: Action, p: Pair, since: Instant, at: Instant, window: nat, lag: nat)
    requires OnRecent(a) && a != ClearRecent(p.user) && OnRecord(v.shard.recent, p, since, lag)
    requires a.PruneOf? && p.user in a.users ==> a.window == window && a.now <= at
    requires at + lag <= since + window
    ensures OnRecord(ActOnRecent(v, i, a).shard.recent, p, since, lag)
  {}

  /** The other steps do not touch the record. */
  lemma OthersKeepRecord(v: View, i: nat, a: Action, shardOf: User -> ShardIndex, p: Pair, since: Instant, lag: nat)
    requires Enabled(v, i, a, shardOf) && !OnEntry(a) && !OnRecent(a) && OnRecord(v.shard.recent, p, since, lag)
    ensures OnRecord(Act(v, i, a, shardOf).shard.recent, p, since, lag)
  {}

  lemma ActionKeepsRecord(v: View, i: nat, a: Action, g: Setting, p: Pair, since: Instant, at: Instant)
    requires Enabled(v, i, a, g.shardOf) && p.user == g.user && OnRecord(v.shard.recent, p, since, g.lag)
    requires a != ClearRecent(g.user) && Timely(Thread(0, i, a), at, g.user, g.window, g.lag)
    requires since <= at && at + g.lag <= since + g.window
    ensures OnRecord(Act(v, i, a, g.shardOf).shard.recent, p, since, g.lag)
  {
    if OnEntry(a) {
      EntryKeepsRecord(v, i, a, g.shardOf, p, since, at, g.lag);
    } else if OnRecent(a) {
      PruningKeepsRecord(v, i, a, p, since, at, g.window, g.lag);
    } else {
      OthersKeepRecord(v, i, a, g.shardOf, p, since, g.lag);
    }
  }

  function RecordOf(s: System, g: Setting): map<Pair, Instant>
    requires |s.shards| == USER_IP_TRACKER_SHARDS
  {
    s.shards[g.shardOf(g.user)].recent
  }

  lemma MoveKeepsRecord(s: System, m: Move, s': System, g: Setting, p: Pair, since: Instant, at: Instant)
    requires |s.shards| == USER_IP_TRACKER_SHARDS && Next(s, m, s', g.shardOf)
    requires p.user == g.user && OnRecord(RecordOf(s, g), p, since, g.lag)
    requires Governed(m, g.user, g.limit) && Timely(m, at, g.user, g.window, g.lag)
    requires since <= at && at + g.lag <= since + g.window
    ensures |s'.shards| == USER_IP_TRACKER_SHARDS && OnRecord(RecordOf(s', g), p, since, g.lag)
  {
    if m.i == g.shardOf(g.user) {
      ActionKeepsRecord(ViewOf(s, m.t, m.i), m.i, m.a, g, p, since, at);
    }
  }

  /** A fresh admission puts its address on record. */
  lemma FreshIsRecorded(r: Trace, times: seq<Instant>, g: Setting, k: nat)
    requires Timed(r, times, g) && FreshAt(r, k, g.user) && |r.states[k + 1].shards| == USER_IP_TRACKER_SHARDS
    requires Inv(r.states[k], g.shardOf)
    ensures OnRecord(RecordOf(r.states[k + 1], g), Pair(g.user, IpAt(r, k)), times[k], g.lag)
  {
    assert MoveAt(r, k, g.shardOf) && Timely(r.moves[k], times[k], g.user, g.window, g.lag);
    var m := r.moves[k];
    var pc := r.states[k].threads[m.t];
    assert Homed(pc, g.shardOf);
    assert pc.p == Pair(g.user, IpAt(r, k));
  }

  /** It stays there as long as its time plus the window has not come, less the lag. */
  lemma {:induction false} Remembered(r: Trace, times: seq<Instant>, g: Setting, k: nat, n: nat)
    requires Timed(r, times, g) && FreshAt(r, k, g.user) && k < n < |r.states|
    requires times[n - 1] + g.lag <= times[k] + g.window || n == k + 1
    ensures |r.states[n].shards| == USER_IP_TRACKER_SHARDS
    ensures OnRecord(RecordOf(r.states[n], g), Pair(g.user, IpAt(r, k)), times[k], g.lag)
    decreases n
  {
    ReachableInv(r, n, g.shardOf);
    ReachableInv(r, k, g.shardOf);
    if n == k + 1 {
      FreshIsRecorded(r, times, g, k);
    } else {
      Remembered(r, times, g, k, n - 1);
      assert MoveAt(r, n - 1, g.shardOf) && Governed(r.moves[n - 1], g.user, g.limit);
      assert Timely(r.moves[n - 1], times[n - 1], g.user, g.window, g.lag);
      MoveKeepsRecord(r.states[n - 1], r.moves[n - 1], r.states[n], g, Pair(g.user, IpAt(r, k)), times[k],
        times[n - 1]);
    }
  }

  // ---- Counting ----

  /** The fresh admissions of the user among the first `n` moves at times from `start` to `start + length`. */
  ghost function FreshIn(r: Trace, times: seq<Instant>, n: nat, user: User, start: Instant, length: nat): set<nat> {
    set k: nat | k < n && FreshAt(r, k, user) && k < |times| && start <= times[k] <= start + length
  }

  lemma EarlierOnRecord(r: Trace, times: seq<Instant>, g: Setting, start: Instant, length: nat, k: nat, n: nat)
    requires Timed(r, times, g) && length + g.lag <= g.window && FreshAt(r, k, g.user) && FreshAt(r, n, g.user) && k < n
    requires start <= times[k] && times[n] <= start + length
    ensures |r.states[n].shards| == USER_IP_TRACKER_SHARDS
    ensures IpAt(r, k) in UserIps(RecordOf(r.states[n], g), g.user)
    ensures IpAt(r, k) != IpAt(r, n)
  {
    Remembered(r, times, g, k, n);
    assert Pair(g.user, IpAt(r, k)) in RecordOf(r.states[n], g);
    NotOnRecord(r, times, g, n);
  }

  /** The address of a fresh admission is not on record, and there is room for it. */
  lemma NotOnRecord(r: Trace, times: seq<Instant>, g: Setting, n: nat)
    requires Timed(r, times, g) && FreshAt(r, n, g.user)
    ensures |r.states[n].shards| == USER_IP_TRACKER_SHARDS
    ensures Pair(g.user, IpAt(r, n)) !in RecordOf(r.states[n], g)
    ensures |UserIps(RecordOf(r.states[n], g), g.user)| < g.limit
  {
    ReachableRoom(r, times, g, n);
    var s, m := r.states[n], r.moves[n];
    assert MoveAt(r, n, g.shardOf);
    var pc := s.threads[m.t];
    assert Promise(pc, s.shards) && Homed(pc, g.shardOf) && Room(s.shards[g.shardOf(g.user)], pc, g.user, g.limit);
    assert pc.p == Pair(g.user, IpAt(r, n));
  }

  lemma FreshBefore(r: Trace, times: seq<Instant>, g: Setting, start: Instant, length: nat, n: nat)
    requires Timed(r, times, g) && length + g.lag <= g.window && FreshAt(r, n, g.user)
    requires start <= times[n] <= start + length
    ensures |FreshIn(r, times, n, g.user, start, length)| < g.limit
  {
    NotOnRecord(r, times, g, n);
    var ks, ips := FreshIn(r, times, n, g.user, start, length), UserIps(RecordOf(r.states[n], g), g.user);
    forall k | k in ks ensures IpAt(r, k) in ips {
      EarlierOnRecord(r, times, g, start, length, k, n);
    }
    forall k, l | k in ks && l in ks && k != l ensures IpAt(r, k) != IpAt(r, l) {
      if k < l {
        EarlierOnRecord(r, times, g, start, length, k, l);
      } else {
        EarlierOnRecord(r, times, g, start, length, l, k);
      }
    }
    FreshAdmissions.InjectionBound(ks, (k: nat) => IpAt(r, k), ips);
  }

  lemma FreshExtends(r: Trace, times: seq<Instant>, last: nat, user: User, start: Instant, length: nat)
    ensures FreshIn(r, times, last + 1, user, start, length) ==
      if FreshAt(r, last, user) && last < |times| && start <= times[last] <= start + length
      then FreshIn(r, times, last, user, start, length) + {last}
      else FreshIn(r, times, last, user, start, length)
  {}

  lemma OneMoreMove(r: Trace, times: seq<Instant>, g: Setting, start: Instant, length: nat, n: nat)
    requires Timed(r, times, g) && length + g.lag <= g.window
    requires |FreshIn(r, times, n, g.user, start, length)| <= g.limit
    ensures |FreshIn(r, times, n + 1, g.user, start, length)| <= g.limit
  {
    FreshExtends(r, times, n, g.user, start, length);
    if FreshAt(r, n, g.user) && n < |times| && start <= times[n] <= start + length {
      FreshBefore(r, times, g, start, length, n);
    }
  }

  /** In every interleaving every closed interval shorter than the window by the lag holds at most `limit` of them. */
  lemma {:induction false} LaggedLimitHolds(
      r: Trace, times: seq<Instant>, g: Setting, start: Instant, length: nat, n: nat)
    requires Timed(r, times, g) && length + g.lag <= g.window
    ensures |FreshIn(r, times, n, g.user, start, length)| <= g.limit
    decreases n
  {
    if n == 0 {
      assert FreshIn(r, times, n, g.user, start, length) == {};
    } else {
      LaggedLimitHolds(r, times, g, start, length, n - 1);
      OneMoreMove(r, times, g, start, length, n - 1);
    }
  }
}
