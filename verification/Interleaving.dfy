// The tracker under concurrency: threads take shard locks, reserve, insert, remove and subtract in any interleaving.
// Each action below is one step of the source that other threads can see only as a whole: it touches one atomic, or
// only what the lock or queue mutex its thread holds protects. What happens between two of them may be anything.
module Interleaving {
  import opened Basics
  import opened TrackerTypes
  import opened TrackerSpec

  datatype Shard = Shard(active: map<Pair, nat>, recent: map<Pair, Instant>)

  /** Where a thread is, and what it still has to settle. All but the first four hold the lock of shard `i`. */
  datatype Pc =
    | Idle
    | Enqueuing(i: nat, p: Pair)                         // gauge raised, entry not made, mutex of queue `i` held
    | Popping(i: nat, todo: map<Pair, nat>, debt: nat)   // filling a batch under the mutex of queue `i`
    | Drained(i: nat, todo: map<Pair, nat>, debt: nat)   // off the queue, `debt` pairs not yet off the gauge
    | Applying(i: nat, todo: map<Pair, nat>, removed: nat)
    | Locked(i: nat)
    | OwesActive(i: nat, n: nat)                         // removed entries not yet subtracted
    | OwesRecent(i: nat, n: nat)
    | HoldsRecent(i: nat, p: Pair)                       // reserved but not yet inserted
    | HoldsActive(i: nat, p: Pair)
    | HoldsBoth(i: nat, p: Pair)

  function LockOf(pc: Pc): Option<nat> {
    if pc.Idle? || pc.Enqueuing? || pc.Popping? || pc.Drained? then None else Some(pc.i)
  }

  /** The queue whose mutex the thread holds. */
  function QueueLockOf(pc: Pc): Option<nat> {
    if pc.Enqueuing? || pc.Popping? then Some(pc.i) else None
  }

  function ActiveDebt(pc: Pc): nat {
    match pc
    case Applying(_, _, removed) => removed
    case OwesActive(_, n) => n
    case HoldsActive(_, _) => 1
    case HoldsBoth(_, _) => 1
    case _ => 0
  }

  function RecentDebt(pc: Pc): nat {
    match pc
    case OwesRecent(_, n) => n
    case HoldsRecent(_, _) => 1
    case HoldsBoth(_, _) => 1
    case _ => 0
  }

  function GaugeDebt(pc: Pc): nat {
    if pc.Enqueuing? then 1 else if pc.Popping? || pc.Drained? then pc.debt else 0
  }

  datatype Action =
    | RaiseGauge(p: Pair)
    | PushNew(p: Pair)
    | PushMore(p: Pair)
    | TakeUser(user: User)
    | PopOne(p: Pair)
    | EndPop
    | LowerGauge(n: nat)
    | BeginApply
    | ApplyOne(p: Pair)
    | EndApply
    | Lock
    | Unlock
    | RemoveOne(p: Pair)
    | PruneOf(users: set<User>, now: Instant, window: nat)
    | Settle
    | BumpKnown(p: Pair, now: Instant)
    | ReserveRecent(p: Pair)
    | BumpUnseen(now: Instant)
    | ReserveActive(p: Pair, limit: Option<nat>, mode: Mode)
    | ReserveSecond
    | RollBack
    | EnterSeen(now: Instant)
    | EnterNew(now: Instant)
    | ClearActive(user: User)
    | ClearRecent(user: User)

  /** What one action can see and change: the thread, one shard, the counters and the queue. */
  datatype View = View(
    pc: Pc, shard: Shard, activeCount: nat, recentCount: nat,
    queue: map<Pair, nat>, gauge: nat,
    live: map<Pair, nat>)   // ghost: sessions admitted and not yet released

  /** The limit does not stand in the way of a new address. */
  predicate Allowed(shard: Shard, p: Pair, limit: Option<nat>, mode: Mode) {
    limit.None? || !Denied(
      Policy(map[], 0, mode, 0), limit.value, |UserIps(shard.active, p.user)|, |UserIps(shard.recent, p.user)|,
      p !in shard.recent)
  }

  predicate OnQueue(a: Action) {
    a.RaiseGauge? || a.PushNew? || a.PushMore? || a.TakeUser? || a.PopOne? || a.EndPop? || a.LowerGauge?
  }

  predicate OnLock(a: Action) {
    a.BeginApply? || a.EndApply? || a.Lock? || a.Unlock?
  }

  predicate OnSessions(a: Action) {
    a.ApplyOne? || a.RemoveOne? || a.ClearActive?
  }

  predicate OnRecent(a: Action) {
    a.PruneOf? || a.ClearRecent?
  }

  predicate OnCounters(a: Action) {
    a.Settle? || a.ReserveRecent? || a.ReserveActive? || a.ReserveSecond? || a.RollBack?
  }

  predicate OnEntry(a: Action) {
    a.BumpKnown? || a.BumpUnseen? || a.EnterSeen? || a.EnterNew?
  }

  predicate CanQueue(v: View, i: nat, a: Action, shardOf: User -> ShardIndex)
    requires OnQueue(a)
  {
    match a
    case RaiseGauge(p) => v.pc.Idle? && p !in v.queue && shardOf(p.user) == i
    case PushNew(p) => v.pc == Enqueuing(i, p) && shardOf(p.user) == i
    case PushMore(p) => v.pc.Idle? && p in v.queue && shardOf(p.user) == i
    case TakeUser(user) => v.pc.Idle? && shardOf(user) == i
    case PopOne(p) => (v.pc.Idle? || (v.pc.Popping? && v.pc.i == i)) && p in v.queue && shardOf(p.user) == i
    case EndPop => v.pc.Popping? && v.pc.i == i
    case LowerGauge(n) => (v.pc.Popping? || v.pc.Drained?) && v.pc.i == i && n <= v.pc.debt
  }

  predicate CanLock(v: View, i: nat, a: Action)
    requires OnLock(a)
  {
    match a
    case BeginApply => v.pc.Drained? && v.pc.i == i && v.pc.debt == 0
    case EndApply => v.pc.Applying? && v.pc.i == i && v.pc.todo == map[]
    case Lock => v.pc.Idle?
    case Unlock => v.pc == Locked(i)
  }

  predicate CanSessions(v: View, i: nat, a: Action, shardOf: User -> ShardIndex)
    requires OnSessions(a)
  {
    match a
    case ApplyOne(p) => v.pc.Applying? && v.pc.i == i && p in v.pc.todo
    case RemoveOne(p) => v.pc == Locked(i) && shardOf(p.user) == i
    case ClearActive(user) => v.pc == Locked(i) && shardOf(user) == i
  }

  predicate CanRecent(v: View, i: nat, a: Action, shardOf: User -> ShardIndex)
    requires OnRecent(a)
  {
    v.pc == Locked(i) && (a.ClearRecent? ==> shardOf(a.user) == i)
  }

  predicate CanCounters(v: View, i: nat, a: Action, shardOf: User -> ShardIndex)
    requires OnCounters(a)
  {
    match a
    case Settle => (v.pc.OwesActive? || v.pc.OwesRecent?) && v.pc.i == i
    case ReserveRecent(p) =>
      && v.pc == Locked(i) && shardOf(p.user) == i && p in v.shard.active && p !in v.shard.recent
      && v.recentCount < MAX_RECENT_IP_ENTRIES
    case ReserveActive(p, limit, mode) =>
      && v.pc == Locked(i) && shardOf(p.user) == i && p !in v.shard.active
      && Allowed(v.shard, p, limit, mode)
      && v.activeCount < MAX_ACTIVE_IP_ENTRIES
    case ReserveSecond =>
      v.pc.HoldsActive? && v.pc.i == i && v.pc.p !in v.shard.recent && v.recentCount < MAX_RECENT_IP_ENTRIES
    case RollBack =>
      v.pc.HoldsActive? && v.pc.i == i && v.pc.p !in v.shard.recent && v.recentCount >= MAX_RECENT_IP_ENTRIES
  }

  predicate CanEnter(v: View, i: nat, a: Action, shardOf: User -> ShardIndex)
    requires OnEntry(a)
  {
    match a
    case BumpKnown(p, now) => v.pc == Locked(i) && shardOf(p.user) == i && p in v.shard.active && p in v.shard.recent
    case BumpUnseen(now) => v.pc.HoldsRecent? && v.pc.i == i
    case EnterSeen(now) => v.pc.HoldsActive? && v.pc.i == i && v.pc.p in v.shard.recent
    case EnterNew(now) => v.pc.HoldsBoth? && v.pc.i == i
  }

  /** The thread is at the point where it takes this step. */
  predicate Enabled(v: View, i: nat, a: Action, shardOf: User -> ShardIndex) {
    if OnQueue(a) then CanQueue(v, i, a, shardOf)
    else if OnLock(a) then CanLock(v, i, a)
    else if OnSessions(a) then CanSessions(v, i, a, shardOf)
    else if OnRecent(a) then CanRecent(v, i, a, shardOf)
    else if OnCounters(a) then CanCounters(v, i, a, shardOf)
    else CanEnter(v, i, a, shardOf)
  }

  function Released(active: map<Pair, nat>, p: Pair, n: nat): map<Pair, nat> {
    Release(active, map[p := n])
  }

  function OneMore(m: map<Pair, nat>, p: Pair): map<Pair, nat> {
    m[p := SessionCount(m, p) + 1]
  }

  function OneLess(m: map<Pair, nat>, p: Pair): map<Pair, nat> {
    m[p := SaturatingSub(SessionCount(m, p), 1)]
  }

  /** How many entries a table lost. */
  function Lost<V>(before: map<Pair, V>, after: map<Pair, V>): nat {
    |before.Keys - after.Keys|
  }

  ghost function ActOnQueue(v: View, i: nat, a: Action, shardOf: User -> ShardIndex): View
    requires OnQueue(a) && CanQueue(v, i, a, shardOf)
  {
    match a
    case RaiseGauge(p) => v.(pc := Enqueuing(i, p), gauge := v.gauge + 1)
    case PushNew(p) => v.(pc := Idle, queue := v.queue[p := 1], live := OneLess(v.live, p))
    case PushMore(p) => v.(queue := OneMore(v.queue, p), live := OneLess(v.live, p))
    case TakeUser(user) =>
      var taken := OnlyUser(v.queue, user);
      v.(pc := Drained(i, taken, |taken|), queue := v.queue - taken.Keys)
    case PopOne(p) =>
      var (todo, debt) := if v.pc.Popping? then (v.pc.todo, v.pc.debt) else (map[], 0);
      v.(pc := Popping(i, todo[p := v.queue[p]], debt + 1), queue := v.queue - {p})
    case EndPop => v.(pc := Drained(i, v.pc.todo, v.pc.debt))
    case LowerGauge(n) => v.(pc := v.pc.(debt := v.pc.debt - n), gauge := SaturatingSub(v.gauge, n))
  }

  ghost function ActOnLock(v: View, i: nat, a: Action): View
    requires OnLock(a) && CanLock(v, i, a)
  {
    match a
    case BeginApply => v.(pc := Applying(i, v.pc.todo, 0))
    case EndApply => v.(pc := OwesActive(i, v.pc.removed))
    case Lock => v.(pc := Locked(i))
    case Unlock => v.(pc := Idle)
  }

  ghost function ActOnSessions(v: View, i: nat, a: Action, shardOf: User -> ShardIndex): View
    requires OnSessions(a) && CanSessions(v, i, a, shardOf)
  {
    match a
    case ApplyOne(p) =>
      var active := Released(v.shard.active, p, v.pc.todo[p]);
      v.(pc := Applying(i, v.pc.todo - {p}, v.pc.removed + Lost(v.shard.active, active)),
        shard := v.shard.(active := active))
    case RemoveOne(p) =>
      var active := Released(v.shard.active, p, 1);
      v.(pc := OwesActive(i, Lost(v.shard.active, active)), shard := v.shard.(active := active),
        live := OneLess(v.live, p))
    case ClearActive(user) =>
      var active := WithoutUser(v.shard.active, user);
      v.(pc := OwesActive(i, Lost(v.shard.active, active)), shard := v.shard.(active := active))
  }

  ghost function ActOnRecent(v: View, i: nat, a: Action): View
    requires OnRecent(a)
  {
    var recent := if a.PruneOf? then PruneUsers(v.shard.recent, a.users, a.now, a.window)
      else WithoutUser(v.shard.recent, a.user);
    v.(pc := OwesRecent(i, Lost(v.shard.recent, recent)), shard := v.shard.(recent := recent))
  }

  ghost function ActOnCounters(v: View, i: nat, a: Action, shardOf: User -> ShardIndex): View
    requires OnCounters(a) && CanCounters(v, i, a, shardOf)
  {
    match a
    case Settle =>
      if v.pc.OwesActive? then v.(pc := Locked(i), activeCount := SaturatingSub(v.activeCount, v.pc.n))
      else v.(pc := Locked(i), recentCount := SaturatingSub(v.recentCount, v.pc.n))
    case ReserveRecent(p) => v.(pc := HoldsRecent(i, p), recentCount := v.recentCount + 1)
    case ReserveActive(p, limit, mode) => v.(pc := HoldsActive(i, p), activeCount := v.activeCount + 1)
    case ReserveSecond => v.(pc := HoldsBoth(i, v.pc.p), recentCount := v.recentCount + 1)
    case RollBack => v.(pc := Locked(i), activeCount := SaturatingSub(v.activeCount, 1))
  }

  /** An admission: a known address counts one session more, a new one starts at one. */
  ghost function ActOnEntry(v: View, i: nat, a: Action, shardOf: User -> ShardIndex): View
    requires OnEntry(a) && CanEnter(v, i, a, shardOf)
  {
    var p := if a.BumpKnown? then a.p else v.pc.p;
    var active := if a.BumpKnown? || a.BumpUnseen? then OneMore(v.shard.active, p) else v.shard.active[p := 1];
    v.(pc := Locked(i), shard := Shard(active, v.shard.recent[p := a.now]), live := OneMore(v.live, p))
  }

  ghost function Act(v: View, i: nat, a: Action, shardOf: User -> ShardIndex): View
    requires Enabled(v, i, a, shardOf)
  {
    if OnQueue(a) then ActOnQueue(v, i, a, shardOf)
    else if OnLock(a) then ActOnLock(v, i, a)
    else if OnSessions(a) then ActOnSessions(v, i, a, shardOf)
    else if OnRecent(a) then ActOnRecent(v, i, a)
    else if OnCounters(a) then ActOnCounters(v, i, a, shardOf)
    else ActOnEntry(v, i, a, shardOf)
  }

  // ---- The whole system ----

  datatype System = System(
    shards: seq<Shard>, threads: seq<Pc>, activeCount: nat, recentCount: nat,
    queue: map<Pair, nat>, gauge: nat, live: map<Pair, nat>)

  /** One move: a thread acts on a shard or its queue, or everything is cleared while no call is under way. */
  datatype Move =
    | Thread(t: nat, i: nat, a: Action)
    | ClearAll

  function ViewOf(s: System, t: nat, i: nat): View
    requires t < |s.threads| && i < |s.shards|
  {
    View(s.threads[t], s.shards[i], s.activeCount, s.recentCount, s.queue, s.gauge, s.live)
  }

  function Write(s: System, t: nat, i: nat, v: View): System
    requires t < |s.threads| && i < |s.shards|
  {
    System(s.shards[i := v.shard], s.threads[t := v.pc], v.activeCount, v.recentCount, v.queue, v.gauge, v.live)
  }

  ghost predicate LockFree(s: System, i: nat) {
    forall t :: 0 <= t < |s.threads| ==> LockOf(s.threads[t]) != Some(i)
  }

  /** Nobody holds the mutex of queue `i`. */
  ghost predicate QueueFree(s: System, i: nat) {
    forall t :: 0 <= t < |s.threads| ==> QueueLockOf(s.threads[t]) != Some(i)
  }

  /** The step starts by taking the mutex of its queue. */
  predicate TakesQueue(a: Action, pc: Pc) {
    a.RaiseGauge? || a.PushMore? || a.TakeUser? || (a.PopOne? && pc.Idle?)
  }

  ghost predicate Next(s: System, m: Move, s': System, shardOf: User -> ShardIndex) {
    match m
    case Thread(t, i, a) =>
      && t < |s.threads| && i < |s.shards|
      && (a.Lock? || a.BeginApply? ==> LockFree(s, i))
      && (TakesQueue(a, s.threads[t]) ==> QueueFree(s, i))
      && Enabled(ViewOf(s, t, i), i, a, shardOf)
      && s' == Write(s, t, i, Act(ViewOf(s, t, i), i, a, shardOf))
    case ClearAll =>
      && (forall t :: 0 <= t < |s.threads| ==> s.threads[t] == Idle)
      && s' == s.(shards := seq(|s.shards|, _ => Shard(map[], map[])), activeCount := 0, recentCount := 0,
                  queue := map[], gauge := 0, live := map[])
  }

  ghost predicate Start(s: System) {
    && |s.shards| == USER_IP_TRACKER_SHARDS
    && (forall i :: 0 <= i < |s.shards| ==> s.shards[i] == Shard(map[], map[]))
    && (forall t :: 0 <= t < |s.threads| ==> s.threads[t] == Idle)
    && s.activeCount == 0 && s.recentCount == 0 && s.queue == map[] && s.gauge == 0 && s.live == map[]
  }

  datatype Trace = Trace(states: seq<System>, moves: seq<Move>)

  ghost predicate IsRun(r: Trace, shardOf: User -> ShardIndex) {
    && |r.states| == |r.moves| + 1
    && Start(r.states[0])
    && forall k :: 0 <= k < |r.moves| ==> MoveAt(r, k, shardOf)
  }

  ghost predicate MoveAt(r: Trace, k: nat, shardOf: User -> ShardIndex)
    requires k < |r.moves| < |r.states|
  {
    Next(r.states[k], r.moves[k], r.states[k + 1], shardOf)
  }

  // ---- Sums ----

  function Sum<T>(xs: seq<T>, f: T -> nat): nat {
    if xs == [] then 0 else Sum(xs[..|xs| - 1], f) + f(xs[|xs| - 1])
  }

  lemma {:induction false} SumUpdate<T>(xs: seq<T>, f: T -> nat, k: nat, x: T)
    requires k < |xs|
    ensures Sum(xs[k := x], f) == Sum(xs, f) - f(xs[k]) + f(x)
  {
    var last := |xs| - 1;
    if k == last {
      assert xs[k := x][..last] == xs[..last];
    } else {
      SumUpdate(xs[..last], f, k, x);
      assert xs[k := x][..last] == xs[..last][k := x];
    }
  }

  lemma {:induction false} SumZero<T>(xs: seq<T>, f: T -> nat)
    requires forall k :: 0 <= k < |xs| ==> f(xs[k]) == 0
    ensures Sum(xs, f) == 0
  {
    if xs != [] {
      SumZero(xs[..|xs| - 1], f);
    }
  }
}
