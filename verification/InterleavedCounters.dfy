// Every interleaving keeps the entry counters and the queue gauge exact up to what threads still owe.
module InterleavedCounters {
  import opened Basics
  import opened TrackerTypes
  import opened TrackerSpec
  import opened MapLemmas
  import opened Interleaving

  function ActiveSize(shard: Shard): nat {
    |shard.active|
  }

  function RecentSize(shard: Shard): nat {
    |shard.recent|
  }

  // ---- One action, seen locally ----

  /** What a reservation promises about the shard while its lock is held. */
  predicate Holding(pc: Pc, shard: Shard) {
    match pc
    case HoldsActive(_, p) => p !in shard.active
    case HoldsBoth(_, p) => p !in shard.active && p !in shard.recent
    case HoldsRecent(_, p) => p in shard.active && p !in shard.recent
    case _ => true
  }

  lemma LostSize<V>(before: map<Pair, V>, after: map<Pair, V>)
    requires after.Keys <= before.Keys
    ensures |after| + Lost(before, after) == |before|
  {
    assert before.Keys == after.Keys + (before.Keys - after.Keys);
  }

  lemma InsertSize<V>(m: map<Pair, V>, p: Pair, x: V)
    ensures |m[p := x]| == if p in m then |m| else |m| + 1
  {
    if p in m {
      assert m[p := x].Keys == m.Keys;
    }
  }

  ghost predicate ActiveBalanced(v: View, v': View) {
    && v'.activeCount + |v.shard.active| + ActiveDebt(v.pc) == v.activeCount + |v'.shard.active| + ActiveDebt(v'.pc)
    && v'.activeCount <= MAX_ACTIVE_IP_ENTRIES
  }

  lemma ReleasedIsSmaller(active: map<Pair, nat>, p: Pair, n: nat)
    ensures |Released(active, p, n)| + Lost(active, Released(active, p, n)) == |active|
  {
    LostSize(active, Released(active, p, n));
  }

  lemma WithoutIsSmaller<V>(m: map<Pair, V>, user: User)
    ensures |WithoutUser(m, user)| + Lost(m, WithoutUser(m, user)) == |m|
  {
    LostSize(m, WithoutUser(m, user));
  }

  lemma EntryBalances(v: View, i: nat, a: Action, shardOf: User -> ShardIndex)
    requires OnEntry(a) && CanEnter(v, i, a, shardOf)
    requires Holding(v.pc, v.shard) && v.activeCount <= MAX_ACTIVE_IP_ENTRIES
    ensures ActiveBalanced(v, ActOnEntry(v, i, a, shardOf))
  {
    var p := if a.BumpKnown? then a.p else v.pc.p;
    InsertSize(v.shard.active, p, ActOnEntry(v, i, a, shardOf).shard.active[p]);
  }

  lemma ApplyBalances(v: View, i: nat, p: Pair, shardOf: User -> ShardIndex)
    requires CanSessions(v, i, ApplyOne(p), shardOf) && v.activeCount <= MAX_ACTIVE_IP_ENTRIES
    ensures ActiveBalanced(v, ActOnSessions(v, i, ApplyOne(p), shardOf))
  {
    ReleasedIsSmaller(v.shard.active, p, v.pc.todo[p]);
  }

  lemma SessionsBalance(v: View, i: nat, a: Action, shardOf: User -> ShardIndex)
    requires OnSessions(a) && CanSessions(v, i, a, shardOf) && v.activeCount <= MAX_ACTIVE_IP_ENTRIES
    ensures ActiveBalanced(v, ActOnSessions(v, i, a, shardOf))
  {
    match a
    case ApplyOne(p) => ApplyBalances(v, i, p, shardOf);
    case RemoveOne(p) => ReleasedIsSmaller(v.shard.active, p, 1);
    case ClearActive(user) => WithoutIsSmaller(v.shard.active, user);
  }

  predicate ChangesSessions(a: Action) {
    OnSessions(a) || OnEntry(a)
  }

  lemma QueueBalances(v: View, i: nat, a: Action, shardOf: User -> ShardIndex)
    requires OnQueue(a) && CanQueue(v, i, a, shardOf) && v.activeCount <= MAX_ACTIVE_IP_ENTRIES
    ensures ActiveBalanced(v, ActOnQueue(v, i, a, shardOf))
  {}

  lemma LockBalances(v: View, i: nat, a: Action)
    requires OnLock(a) && CanLock(v, i, a) && v.activeCount <= MAX_ACTIVE_IP_ENTRIES
    ensures ActiveBalanced(v, ActOnLock(v, i, a))
  {}

  lemma CountersBalance(v: View, i: nat, a: Action, shardOf: User -> ShardIndex)
    requires OnCounters(a) && CanCounters(v, i, a, shardOf)
    requires ActiveDebt(v.pc) <= v.activeCount <= MAX_ACTIVE_IP_ENTRIES
    ensures ActiveBalanced(v, ActOnCounters(v, i, a, shardOf))
  {}

  lemma PruningBalances(v: View, i: nat, a: Action)
    requires OnRecent(a) && v.pc == Locked(i) && v.activeCount <= MAX_ACTIVE_IP_ENTRIES
    ensures ActiveBalanced(v, ActOnRecent(v, i, a))
  {}

  lemma ActiveBalances(v: View, i: nat, a: Action, shardOf: User -> ShardIndex)
    requires Enabled(v, i, a, shardOf) && Holding(v.pc, v.shard)
    requires ActiveDebt(v.pc) <= v.activeCount <= MAX_ACTIVE_IP_ENTRIES
    ensures ActiveBalanced(v, Act(v, i, a, shardOf))
  {
    if OnQueue(a) {
      QueueBalances(v, i, a, shardOf);
    } else if OnLock(a) {
      LockBalances(v, i, a);
    } else if OnSessions(a) {
      SessionsBalance(v, i, a, shardOf);
    } else if OnCounters(a) {
      CountersBalance(v, i, a, shardOf);
    } else if OnEntry(a) {
      EntryBalances(v, i, a, shardOf);
    } else {
      PruningBalances(v, i, a);
    }
  }

  ghost predicate RecentBalanced(v: View, v': View) {
    && v'.recentCount + |v.shard.recent| + RecentDebt(v.pc) == v.recentCount + |v'.shard.recent| + RecentDebt(v'.pc)
    && v'.recentCount <= MAX_RECENT_IP_ENTRIES
  }

  lemma PrunedIsSmaller(v: View, i: nat, a: Action)
    requires OnRecent(a)
    ensures var v' := ActOnRecent(v, i, a);
      |v'.shard.recent| + v'.pc.n == |v.shard.recent|
  {
    LostSize(v.shard.recent, ActOnRecent(v, i, a).shard.recent);
  }

  lemma EntryRecentBalances(v: View, i: nat, a: Action, shardOf: User -> ShardIndex)
    requires OnEntry(a) && CanEnter(v, i, a, shardOf)
    requires Holding(v.pc, v.shard) && v.recentCount <= MAX_RECENT_IP_ENTRIES
    ensures RecentBalanced(v, ActOnEntry(v, i, a, shardOf))
  {
    InsertSize(v.shard.recent, if a.BumpKnown? then a.p else v.pc.p, a.now);
  }

  lemma CountersRecentBalance(v: View, i: nat, a: Action, shardOf: User -> ShardIndex)
    requires OnCounters(a) && CanCounters(v, i, a, shardOf)
    requires RecentDebt(v.pc) <= v.recentCount <= MAX_RECENT_IP_ENTRIES
    ensures RecentBalanced(v, ActOnCounters(v, i, a, shardOf))
  {}

  lemma QueueLeavesRecent(v: View, i: nat, a: Action, shardOf: User -> ShardIndex)
    requires OnQueue(a) && CanQueue(v, i, a, shardOf) && v.recentCount <= MAX_RECENT_IP_ENTRIES
    ensures RecentBalanced(v, ActOnQueue(v, i, a, shardOf))
  {}

  lemma LockLeavesRecent(v: View, i: nat, a: Action)
    requires OnLock(a) && CanLock(v, i, a) && v.recentCount <= MAX_RECENT_IP_ENTRIES
    ensures RecentBalanced(v, ActOnLock(v, i, a))
  {}

  lemma SessionsLeaveRecent(v: View, i: nat, a: Action, shardOf: User -> ShardIndex)
    requires OnSessions(a) && CanSessions(v, i, a, shardOf) && v.recentCount <= MAX_RECENT_IP_ENTRIES
    ensures RecentBalanced(v, ActOnSessions(v, i, a, shardOf))
  {
    var v' := ActOnSessions(v, i, a, shardOf);
    assert v'.shard.recent == v.shard.recent;
    assert RecentDebt(v'.pc) == RecentDebt(v.pc) == 0;
  }

  lemma RecentBalances(v: View, i: nat, a: Action, shardOf: User -> ShardIndex)
    requires Enabled(v, i, a, shardOf) && Holding(v.pc, v.shard)
    requires RecentDebt(v.pc) <= v.recentCount <= MAX_RECENT_IP_ENTRIES
    ensures RecentBalanced(v, Act(v, i, a, shardOf))
  {
    if OnRecent(a) {
      PrunedIsSmaller(v, i, a);
    } else if OnCounters(a) {
      CountersRecentBalance(v, i, a, shardOf);
    } else if OnEntry(a) {
      EntryRecentBalances(v, i, a, shardOf);
    } else if OnQueue(a) {
      QueueLeavesRecent(v, i, a, shardOf);
    } else if OnLock(a) {
      LockLeavesRecent(v, i, a);
    } else {
      SessionsLeaveRecent(v, i, a, shardOf);
    }
  }

  lemma OnlyUserIsPart(queue: map<Pair, nat>, user: User)
    ensures |queue - OnlyUser(queue, user).Keys| + |OnlyUser(queue, user)| == |queue|
  {
    SubmapSize(OnlyUser(queue, user), queue);
  }

  ghost predicate GaugeBalanced(v: View, v': View) {
    v'.gauge + |v.queue| + GaugeDebt(v.pc) == v.gauge + |v'.queue| + GaugeDebt(v'.pc)
  }

  lemma QueueGaugeBalances(v: View, i: nat, a: Action, shardOf: User -> ShardIndex)
    requires OnQueue(a) && CanQueue(v, i, a, shardOf) && GaugeDebt(v.pc) <= v.gauge && Apart(v.pc, v.queue)
    ensures GaugeBalanced(v, ActOnQueue(v, i, a, shardOf))
  {
    match a
    case TakeUser(user) => OnlyUserIsPart(v.queue, user);
    case PopOne(p) => SizeRemove(v.queue, p);
    case PushNew(p) => InsertSize(v.queue, p, 1);
    case PushMore(p) => InsertSize(v.queue, p, SessionCount(v.queue, p) + 1);
    case _ =>
  }

  lemma LockLeavesGauge(v: View, i: nat, a: Action)
    requires OnLock(a) && CanLock(v, i, a)
    ensures GaugeBalanced(v, ActOnLock(v, i, a))
  {}

  lemma ApplyLeavesGauge(v: View, i: nat, p: Pair, shardOf: User -> ShardIndex)
    requires CanSessions(v, i, ApplyOne(p), shardOf)
    ensures GaugeBalanced(v, ActOnSessions(v, i, ApplyOne(p), shardOf))
  {}

  lemma RemoveLeavesGauge(v: View, i: nat, p: Pair, shardOf: User -> ShardIndex)
    requires CanSessions(v, i, RemoveOne(p), shardOf)
    ensures GaugeBalanced(v, ActOnSessions(v, i, RemoveOne(p), shardOf))
  {}

  lemma ClearLeavesGauge(v: View, i: nat, user: User, shardOf: User -> ShardIndex)
    requires CanSessions(v, i, ClearActive(user), shardOf)
    ensures GaugeBalanced(v, ActOnSessions(v, i, ClearActive(user), shardOf))
  {}

  lemma SessionsLeaveGauge(v: View, i: nat, a: Action, shardOf: User -> ShardIndex)
    requires OnSessions(a) && CanSessions(v, i, a, shardOf)
    ensures GaugeBalanced(v, ActOnSessions(v, i, a, shardOf))
  {
    match a
    case ApplyOne(p) => ApplyLeavesGauge(v, i, p, shardOf);
    case RemoveOne(p) => RemoveLeavesGauge(v, i, p, shardOf);
    case ClearActive(user) => ClearLeavesGauge(v, i, user, shardOf);
  }

  lemma PruningLeavesGauge(v: View, i: nat, a: Action)
    requires OnRecent(a) && v.pc == Locked(i)
    ensures GaugeBalanced(v, ActOnRecent(v, i, a))
  {}

  lemma CountersLeaveGauge(v: View, i: nat, a: Action, shardOf: User -> ShardIndex)
    requires OnCounters(a) && CanCounters(v, i, a, shardOf)
    ensures GaugeBalanced(v, ActOnCounters(v, i, a, shardOf))
  {}

  lemma EntryLeavesGauge(v: View, i: nat, a: Action, shardOf: User -> ShardIndex)
    requires OnEntry(a) && CanEnter(v, i, a, shardOf)
    ensures GaugeBalanced(v, ActOnEntry(v, i, a, shardOf))
  {}

  lemma GaugeBalances(v: View, i: nat, a: Action, shardOf: User -> ShardIndex)
    requires Enabled(v, i, a, shardOf) && GaugeDebt(v.pc) <= v.gauge && Apart(v.pc, v.queue)
    ensures GaugeBalanced(v, Act(v, i, a, shardOf))
  {
    if OnQueue(a) {
      QueueGaugeBalances(v, i, a, shardOf);
    } else if OnLock(a) {
      LockLeavesGauge(v, i, a);
    } else if OnSessions(a) {
      SessionsLeaveGauge(v, i, a, shardOf);
    } else if OnRecent(a) {
      PruningLeavesGauge(v, i, a);
    } else if OnCounters(a) {
      CountersLeaveGauge(v, i, a, shardOf);
    } else {
      EntryLeavesGauge(v, i, a, shardOf);
    }
  }

  // ---- The mutex of a queue, seen locally ----

  /** What a thread works on lives in the shard it works on. */
  ghost predicate Homed(pc: Pc, shardOf: User -> ShardIndex) {
    && ((pc.Popping? || pc.Drained? || pc.Applying?) ==> forall p :: p in pc.todo ==> shardOf(p.user) == pc.i)
    && ((pc.Enqueuing? || pc.HoldsActive? || pc.HoldsBoth? || pc.HoldsRecent?) ==> shardOf(pc.p.user) == pc.i)
  }

  /** What the holder of a queue's mutex is adding or has taken off is not queued. */
  ghost predicate Apart(pc: Pc, queue: map<Pair, nat>) {
    && (pc.Enqueuing? ==> pc.p !in queue)
    && (pc.Popping? ==> pc.todo.Keys !! queue.Keys)
  }

  lemma QueueStaysHomed(v: View, i: nat, a: Action, shardOf: User -> ShardIndex)
    requires OnQueue(a) && CanQueue(v, i, a, shardOf) && Homed(v.pc, shardOf)
    ensures Homed(ActOnQueue(v, i, a, shardOf).pc, shardOf)
  {}

  lemma SessionsStayHomed(v: View, i: nat, a: Action, shardOf: User -> ShardIndex)
    requires OnSessions(a) && CanSessions(v, i, a, shardOf) && Homed(v.pc, shardOf)
    ensures Homed(ActOnSessions(v, i, a, shardOf).pc, shardOf)
  {}

  lemma StaysHomed(v: View, i: nat, a: Action, shardOf: User -> ShardIndex)
    requires Enabled(v, i, a, shardOf) && Homed(v.pc, shardOf)
    ensures Homed(Act(v, i, a, shardOf).pc, shardOf)
  {
    if OnQueue(a) {
      QueueStaysHomed(v, i, a, shardOf);
    } else if OnSessions(a) {
      SessionsStayHomed(v, i, a, shardOf);
    }
  }

  lemma QueueStaysApart(v: View, i: nat, a: Action, shardOf: User -> ShardIndex)
    requires OnQueue(a) && CanQueue(v, i, a, shardOf) && Apart(v.pc, v.queue)
    ensures var v' := ActOnQueue(v, i, a, shardOf);
      && Apart(v'.pc, v'.queue)
      && v'.queue.Keys <= v.queue.Keys + if a.PushNew? then {a.p} else {}
  {}

  lemma StaysApart(v: View, i: nat, a: Action, shardOf: User -> ShardIndex)
    requires Enabled(v, i, a, shardOf) && Apart(v.pc, v.queue)
    ensures var v' := Act(v, i, a, shardOf);
      && Apart(v'.pc, v'.queue)
      && v'.queue.Keys <= v.queue.Keys + if a.PushNew? then {a.p} else {}
  {
    if OnQueue(a) {
      QueueStaysApart(v, i, a, shardOf);
    }
  }

  /** The mutex of queue `i` is taken only by the steps that say so, and kept by the thread that works on queue `i`. */
  lemma QueueGuards(v: View, i: nat, a: Action, shardOf: User -> ShardIndex)
    requires Enabled(v, i, a, shardOf)
    ensures var v' := Act(v, i, a, shardOf);
      && (QueueLockOf(v.pc) == None || QueueLockOf(v.pc) == Some(i))
      && (QueueLockOf(v'.pc) == None || QueueLockOf(v'.pc) == Some(i))
      && (QueueLockOf(v'.pc).Some? && QueueLockOf(v.pc).None? ==> TakesQueue(a, v.pc))
      && (a.PushNew? ==> QueueLockOf(v.pc) == Some(i) && shardOf(a.p.user) == i)
  {}

  lemma EnabledLock(v: View, i: nat, a: Action, shardOf: User -> ShardIndex)
    requires Enabled(v, i, a, shardOf)
    ensures LockOf(v.pc) == None || LockOf(v.pc) == Some(i)
  {}

  /** The lock of shard `i` guards it: only its holder changes the shard, and only a free lock is taken. */
  lemma LockGuards(v: View, i: nat, a: Action, shardOf: User -> ShardIndex)
    requires Enabled(v, i, a, shardOf)
    ensures var v' := Act(v, i, a, shardOf);
      && (LockOf(v.pc) == None ==> v'.shard == v.shard)
      && (LockOf(v'.pc) == None || LockOf(v'.pc) == Some(i))
      && (LockOf(v'.pc).Some? && LockOf(v.pc).None? ==> a.Lock? || a.BeginApply?)
  {}

  lemma KeepsPromise(v: View, i: nat, a: Action, shardOf: User -> ShardIndex)
    requires Enabled(v, i, a, shardOf) && Holding(v.pc, v.shard)
    ensures Holding(Act(v, i, a, shardOf).pc, Act(v, i, a, shardOf).shard)
  {
    if OnCounters(a) {
      CountersKeepPromise(v, i, a, shardOf);
    } else {
      OthersPromiseNothing(v, i, a, shardOf);
    }
  }

  lemma CountersKeepPromise(v: View, i: nat, a: Action, shardOf: User -> ShardIndex)
    requires OnCounters(a) && CanCounters(v, i, a, shardOf) && Holding(v.pc, v.shard)
    ensures var v' := ActOnCounters(v, i, a, shardOf);
      Holding(v'.pc, v'.shard)
  {}

  lemma OthersPromiseNothing(v: View, i: nat, a: Action, shardOf: User -> ShardIndex)
    requires Enabled(v, i, a, shardOf) && !OnCounters(a)
    ensures var pc := Act(v, i, a, shardOf).pc;
      !pc.HoldsRecent? && !pc.HoldsActive? && !pc.HoldsBoth?
  {}

  // ---- The invariant ----

  /** No two threads hold the same shard lock. */
  ghost predicate Exclusive(s: System) {
    forall t, u :: 0 <= t < |s.threads| && 0 <= u < |s.threads| && t != u && LockOf(s.threads[t]).Some? ==>
      LockOf(s.threads[t]) != LockOf(s.threads[u])
  }

  ghost predicate QueueExclusive(s: System) {
    forall t, u :: 0 <= t < |s.threads| && 0 <= u < |s.threads| && t != u && QueueLockOf(s.threads[t]).Some? ==>
      QueueLockOf(s.threads[t]) != QueueLockOf(s.threads[u])
  }

  ghost predicate Tidy(s: System, shardOf: User -> ShardIndex) {
    forall t :: 0 <= t < |s.threads| ==> Homed(s.threads[t], shardOf) && Apart(s.threads[t], s.queue)
  }

  /** Every lock belongs to a shard, and its holder's reservation still stands. */
  ghost predicate Promises(s: System) {
    forall t :: 0 <= t < |s.threads| ==> Promise(s.threads[t], s.shards)
  }

  predicate Promise(pc: Pc, shards: seq<Shard>) {
    LockOf(pc).Some? ==> LockOf(pc).value < |shards| && Holding(pc, shards[LockOf(pc).value])
  }

  /** The counter is the number of entries in all shards plus what threads reserved or still have to subtract. */
  ghost predicate ActiveExact(s: System) {
    s.activeCount == Sum(s.shards, ActiveSize) + Sum(s.threads, ActiveDebt) <= MAX_ACTIVE_IP_ENTRIES
  }

  ghost predicate RecentExact(s: System) {
    s.recentCount == Sum(s.shards, RecentSize) + Sum(s.threads, RecentDebt) <= MAX_RECENT_IP_ENTRIES
  }

  /** The gauge is the queued pairs plus those about to be queued or taken off but not yet off the gauge. */
  ghost predicate GaugeExact(s: System) {
    s.gauge == |s.queue| + Sum(s.threads, GaugeDebt)
  }

  ghost predicate Inv(s: System, shardOf: User -> ShardIndex) {
    && |s.shards| == USER_IP_TRACKER_SHARDS
    && Exclusive(s) && QueueExclusive(s)
    && Tidy(s, shardOf)
    && Promises(s)
    && ActiveExact(s) && RecentExact(s) && GaugeExact(s)
  }

  lemma {:induction false} SumAtLeast<T>(xs: seq<T>, f: T -> nat, k: nat)
    requires k < |xs|
    ensures f(xs[k]) <= Sum(xs, f)
  {
    if k < |xs| - 1 {
      SumAtLeast(xs[..|xs| - 1], f, k);
    }
  }

  // ---- A thread's move keeps it ----

  lemma ActorPromise(s: System, t: nat, i: nat, a: Action, shardOf: User -> ShardIndex)
    requires Promises(s) && t < |s.threads| && i < |s.shards| && Enabled(ViewOf(s, t, i), i, a, shardOf)
    ensures Holding(s.threads[t], s.shards[i])
  {
    EnabledLock(ViewOf(s, t, i), i, a, shardOf);
    assert Promise(s.threads[t], s.shards);
  }

  lemma ThreadKeepsActive(s: System, t: nat, i: nat, a: Action, shardOf: User -> ShardIndex)
    requires ActiveExact(s) && t < |s.threads| && i < |s.shards|
    requires Enabled(ViewOf(s, t, i), i, a, shardOf) && Holding(s.threads[t], s.shards[i])
    ensures ActiveExact(Write(s, t, i, Act(ViewOf(s, t, i), i, a, shardOf)))
  {
    var v := ViewOf(s, t, i);
    var v' := Act(v, i, a, shardOf);
    SumAtLeast(s.threads, ActiveDebt, t);
    ActiveBalances(v, i, a, shardOf);
    SumUpdate(s.shards, ActiveSize, i, v'.shard);
    SumUpdate(s.threads, ActiveDebt, t, v'.pc);
  }

  lemma ThreadKeepsRecent(s: System, t: nat, i: nat, a: Action, shardOf: User -> ShardIndex)
    requires RecentExact(s) && t < |s.threads| && i < |s.shards|
    requires Enabled(ViewOf(s, t, i), i, a, shardOf) && Holding(s.threads[t], s.shards[i])
    ensures RecentExact(Write(s, t, i, Act(ViewOf(s, t, i), i, a, shardOf)))
  {
    var v := ViewOf(s, t, i);
    var v' := Act(v, i, a, shardOf);
    SumAtLeast(s.threads, RecentDebt, t);
    RecentBalances(v, i, a, shardOf);
    SumUpdate(s.shards, RecentSize, i, v'.shard);
    SumUpdate(s.threads, RecentDebt, t, v'.pc);
  }

  lemma ThreadKeepsGauge(s: System, t: nat, i: nat, a: Action, shardOf: User -> ShardIndex)
    requires GaugeExact(s) && t < |s.threads| && i < |s.shards| && Apart(s.threads[t], s.queue)
    requires Enabled(ViewOf(s, t, i), i, a, shardOf)
    ensures GaugeExact(Write(s, t, i, Act(ViewOf(s, t, i), i, a, shardOf)))
  {
    var v := ViewOf(s, t, i);
    SumAtLeast(s.threads, GaugeDebt, t);
    GaugeBalances(v, i, a, shardOf);
    SumUpdate(s.threads, GaugeDebt, t, Act(v, i, a, shardOf).pc);
  }

  lemma ThreadKeepsExclusive(s: System, t: nat, i: nat, a: Action, shardOf: User -> ShardIndex)
    requires Exclusive(s) && t < |s.threads| && i < |s.shards|
    requires Enabled(ViewOf(s, t, i), i, a, shardOf)
    requires a.Lock? || a.BeginApply? ==> LockFree(s, i)
    ensures Exclusive(Write(s, t, i, Act(ViewOf(s, t, i), i, a, shardOf)))
  {
    EnabledLock(ViewOf(s, t, i), i, a, shardOf);
    LockGuards(ViewOf(s, t, i), i, a, shardOf);
  }

  lemma ThreadKeepsQueueExclusive(s: System, t: nat, i: nat, a: Action, shardOf: User -> ShardIndex)
    requires QueueExclusive(s) && t < |s.threads| && i < |s.shards|
    requires Enabled(ViewOf(s, t, i), i, a, shardOf)
    requires TakesQueue(a, s.threads[t]) ==> QueueFree(s, i)
    ensures QueueExclusive(Write(s, t, i, Act(ViewOf(s, t, i), i, a, shardOf)))
  {
    QueueGuards(ViewOf(s, t, i), i, a, shardOf);
  }

  /** A new entry is made under the mutex, so it is in nobody else's hands. */
  lemma OthersStayApart(s: System, t: nat, i: nat, a: Action, shardOf: User -> ShardIndex, u: nat)
    requires QueueExclusive(s) && t < |s.threads| && i < |s.shards| && u < |s.threads| && u != t
    requires Homed(s.threads[u], shardOf) && Apart(s.threads[u], s.queue) && Apart(s.threads[t], s.queue)
    requires Enabled(ViewOf(s, t, i), i, a, shardOf)
    ensures Apart(s.threads[u], Act(ViewOf(s, t, i), i, a, shardOf).queue)
  {
    var v := ViewOf(s, t, i);
    StaysApart(v, i, a, shardOf);
    QueueGuards(v, i, a, shardOf);
    assert a.PushNew? ==> QueueLockOf(s.threads[u]) != Some(i);
  }

  lemma ThreadKeepsTidy(s: System, t: nat, i: nat, a: Action, shardOf: User -> ShardIndex)
    requires QueueExclusive(s) && Tidy(s, shardOf) && t < |s.threads| && i < |s.shards|
    requires Enabled(ViewOf(s, t, i), i, a, shardOf)
    ensures Tidy(Write(s, t, i, Act(ViewOf(s, t, i), i, a, shardOf)), shardOf)
  {
    var s' := Write(s, t, i, Act(ViewOf(s, t, i), i, a, shardOf));
    forall u | 0 <= u < |s'.threads| ensures Homed(s'.threads[u], shardOf) && Apart(s'.threads[u], s'.queue) {
      assert Homed(s.threads[u], shardOf) && Apart(s.threads[u], s.queue);
      if u == t {
        StaysHomed(ViewOf(s, t, i), i, a, shardOf);
        StaysApart(ViewOf(s, t, i), i, a, shardOf);
      } else {
        OthersStayApart(s, t, i, a, shardOf, u);
      }
    }
  }

  lemma ThreadKeepsPromises(s: System, t: nat, i: nat, a: Action, shardOf: User -> ShardIndex)
    requires Exclusive(s) && Promises(s) && t < |s.threads| && i < |s.shards|
    requires Enabled(ViewOf(s, t, i), i, a, shardOf)
    ensures Promises(Write(s, t, i, Act(ViewOf(s, t, i), i, a, shardOf)))
  {
    var v := ViewOf(s, t, i);
    var s' := Write(s, t, i, Act(v, i, a, shardOf));
    ActorPromise(s, t, i, a, shardOf);
    KeepsPromise(v, i, a, shardOf);
    EnabledLock(v, i, a, shardOf);
    LockGuards(v, i, a, shardOf);
    forall u | 0 <= u < |s'.threads| ensures Promise(s'.threads[u], s'.shards) {
      assert Promise(s.threads[u], s.shards);
    }
  }

  lemma ThreadKeepsInv(s: System, t: nat, i: nat, a: Action, shardOf: User -> ShardIndex)
    requires Inv(s, shardOf) && t < |s.threads| && i < |s.shards|
    requires Enabled(ViewOf(s, t, i), i, a, shardOf)
    requires a.Lock? || a.BeginApply? ==> LockFree(s, i)
    requires TakesQueue(a, s.threads[t]) ==> QueueFree(s, i)
    ensures Inv(Write(s, t, i, Act(ViewOf(s, t, i), i, a, shardOf)), shardOf)
  {
    ThreadKeepsQueueExclusive(s, t, i, a, shardOf);
    ThreadKeepsTidy(s, t, i, a, shardOf);
    ActorPromise(s, t, i, a, shardOf);
    ThreadKeepsActive(s, t, i, a, shardOf);
    ThreadKeepsRecent(s, t, i, a, shardOf);
    ThreadKeepsGauge(s, t, i, a, shardOf);
    ThreadKeepsExclusive(s, t, i, a, shardOf);
    ThreadKeepsPromises(s, t, i, a, shardOf);
  }

  // ---- Every reachable state ----

  lemma QuietSums(s: System)
    requires forall i :: 0 <= i < |s.shards| ==> s.shards[i] == Shard(map[], map[])
    requires forall t :: 0 <= t < |s.threads| ==> s.threads[t] == Idle
    ensures Sum(s.shards, ActiveSize) == 0 && Sum(s.shards, RecentSize) == 0
    ensures Sum(s.threads, ActiveDebt) == 0 && Sum(s.threads, RecentDebt) == 0 && Sum(s.threads, GaugeDebt) == 0
  {
    SumZero(s.shards, ActiveSize);
    SumZero(s.shards, RecentSize);
    SumZero(s.threads, ActiveDebt);
    SumZero(s.threads, RecentDebt);
    SumZero(s.threads, GaugeDebt);
  }

  lemma MoveKeepsInv(s: System, m: Move, s': System, shardOf: User -> ShardIndex)
    requires Inv(s, shardOf) && Next(s, m, s', shardOf)
    ensures Inv(s', shardOf)
  {
    match m
    case Thread(t, i, a) => ThreadKeepsInv(s, t, i, a, shardOf);
    case ClearAll => QuietSums(s');
  }

  lemma StartInv(s: System, shardOf: User -> ShardIndex)
    requires Start(s)
    ensures Inv(s, shardOf)
  {
    QuietSums(s);
  }

  lemma {:induction false} ReachableInv(r: Trace, k: nat, shardOf: User -> ShardIndex)
    requires IsRun(r, shardOf) && k < |r.states|
    ensures Inv(r.states[k], shardOf)
    decreases k
  {
    if k == 0 {
      StartInv(r.states[0], shardOf);
    } else {
      ReachableInv(r, k - 1, shardOf);
      assert MoveAt(r, k - 1, shardOf);
      MoveKeepsInv(r.states[k - 1], r.moves[k - 1], r.states[k], shardOf);
    }
  }

  /** In every reachable state both counters are exact up to debts, and the number of entries is within the caps. */
  lemma CountersExact(r: Trace, k: nat, shardOf: User -> ShardIndex)
    requires IsRun(r, shardOf) && k < |r.states|
    ensures var s := r.states[k];
      && s.activeCount == Sum(s.shards, ActiveSize) + Sum(s.threads, ActiveDebt)
      && s.recentCount == Sum(s.shards, RecentSize) + Sum(s.threads, RecentDebt)
      && Sum(s.shards, ActiveSize) <= s.activeCount <= MAX_ACTIVE_IP_ENTRIES
      && Sum(s.shards, RecentSize) <= s.recentCount <= MAX_RECENT_IP_ENTRIES
  {
    ReachableInv(r, k, shardOf);
  }

  /** Whenever no shard lock is held the counters are the number of entries, with no correction. */
  lemma ExactWhenUnlocked(r: Trace, k: nat, shardOf: User -> ShardIndex)
    requires IsRun(r, shardOf) && k < |r.states|
    requires forall i :: 0 <= i < |r.states[k].shards| ==> LockFree(r.states[k], i)
    ensures var s := r.states[k];
      s.activeCount == Sum(s.shards, ActiveSize) && s.recentCount == Sum(s.shards, RecentSize)
  {
    ReachableInv(r, k, shardOf);
    var s := r.states[k];
    forall t | 0 <= t < |s.threads| ensures LockOf(s.threads[t]).None? {
      assert Promise(s.threads[t], s.shards);
      var lock := LockOf(s.threads[t]);
      assert lock.Some? ==> LockFree(s, lock.value);
    }
    SumZero(s.threads, ActiveDebt);
    SumZero(s.threads, RecentDebt);
  }

  /** No subtraction ever saturates: the counter always covers what its thread owes. */
  lemma NeverSaturates(r: Trace, k: nat, t: nat, shardOf: User -> ShardIndex)
    requires IsRun(r, shardOf) && k < |r.states| && t < |r.states[k].threads|
    ensures var s := r.states[k];
      && ActiveDebt(s.threads[t]) <= s.activeCount
      && RecentDebt(s.threads[t]) <= s.recentCount
      && GaugeDebt(s.threads[t]) <= s.gauge
  {
    ReachableInv(r, k, shardOf);
    var s := r.states[k];
    SumAtLeast(s.threads, ActiveDebt, t);
    SumAtLeast(s.threads, RecentDebt, t);
    SumAtLeast(s.threads, GaugeDebt, t);
  }

  /** The gauge reads zero only when nothing is queued, so the early return of a drain skips no release. */
  lemma GaugeZeroMeansEmpty(r: Trace, k: nat, shardOf: User -> ShardIndex)
    requires IsRun(r, shardOf) && k < |r.states|
    ensures |r.states[k].queue| <= r.states[k].gauge
    ensures r.states[k].gauge == 0 ==> r.states[k].queue == map[]
  {
    ReachableInv(r, k, shardOf);
  }
}
