// The tracker as one flat table per kind of entry: no shards, no nested maps, no counters.
// `Tracker.UserIpTracker` is proved to refine it, and the theorems about whole runs are stated on it.
module TrackerSpec {
  import opened Basics
  import opened TrackerTypes

  datatype Policy = Policy(maxIps: map<User, nat>, defaultMaxIps: nat, mode: Mode, windowSecs: nat)

  datatype State = State(
    active: map<Pair, nat>,        // sessions counted per (user, address)
    recent: map<Pair, Instant>,    // last admission per (user, address)
    queue: map<Pair, nat>,         // deferred releases per (user, address)
    lastCompactEpochSecs: nat,
    policy: Policy)

  datatype Outcome =
    | Admitted
    | LimitReached(activeLen: nat, recentLen: nat, limit: nat, mode: Mode)
    | ActiveCapReached
    | RecentCapReached

  function UserLimit(policy: Policy, user: User): Option<nat> {
    if user in policy.maxIps && policy.maxIps[user] > 0 then Some(policy.maxIps[user])
    else if policy.defaultMaxIps > 0 then Some(policy.defaultMaxIps)
    else None
  }

  function LimitWindow(policy: Policy): nat {
    NANOS_PER_SEC * if policy.windowSecs >= 1 then policy.windowSecs else 1
  }

  /** Whether an entry last seen at `seen` is still inside the window at time `now`. */
  predicate InWindow(seen: Instant, now: Instant, window: nat) {
    SaturatingSub(now, seen) <= window
  }

  function WithoutUser<T>(m: map<Pair, T>, user: User): map<Pair, T> {
    map p | p in m && p.user != user :: m[p]
  }

  function OnlyUser<T>(m: map<Pair, T>, user: User): map<Pair, T> {
    map p | p in m && p.user == user :: m[p]
  }

  /** The addresses of one user in a flat table. */
  function UserIps<T>(m: map<Pair, T>, user: User): set<IpAddr> {
    set p | p in m && p.user == user :: p.ip
  }

  /** Subtract pending releases from the session counts, dropping what reaches zero. */
  function Release(active: map<Pair, nat>, pending: map<Pair, nat>): map<Pair, nat> {
    map p | p in active && !(p in pending && active[p] <= pending[p]) ::
      if p in pending then active[p] - pending[p] else active[p]
  }

  function Prune(recent: map<Pair, Instant>, now: Instant, window: nat): map<Pair, Instant> {
    map p | p in recent && InWindow(recent[p], now, window) :: recent[p]
  }

  function PruneUser(recent: map<Pair, Instant>, user: User, now: Instant, window: nat): map<Pair, Instant> {
    map p | p in recent && (p.user == user ==> InWindow(recent[p], now, window)) :: recent[p]
  }

  /** Prune the listed users only. */
  function PruneUsers(f: map<Pair, Instant>, users: set<User>, now: Instant, window: nat): map<Pair, Instant> {
    map p | p in f && (p.user in users ==> InWindow(f[p], now, window)) :: f[p]
  }

  /** Every count is of at least one session. */
  ghost predicate AllPositive(f: map<Pair, nat>) {
    forall p :: p in f ==> 0 < f[p]
  }

  /** Apply and forget a part of the queued releases. */
  function Drain(s: State, taken: map<Pair, nat>): State {
    s.(active := Release(s.active, taken), queue := s.queue - taken.Keys)
  }

  predicate CompactionDue(s: State, epochSecs: nat) {
    SaturatingSub(epochSecs, s.lastCompactEpochSecs) >= COMPACT_INTERVAL_SECS
  }

  /**
   * One call's clock readings: the monotone instant compaction saw, the later one admission saw,
   * and the wall clock in whole seconds.
   */
  datatype Clock = Clock(compactAt: Instant, now: Instant, epochSecs: nat)

  function MaybeCompact(s: State, now: Instant, epochSecs: nat): State {
    if CompactionDue(s, epochSecs)
    then s.(recent := Prune(s.recent, now, LimitWindow(s.policy)), lastCompactEpochSecs := epochSecs)
    else s
  }

  /** Everything `check_and_add` does before it looks at the user's entries. */
  function Prepare(s: State, user: User, clock: Clock): State {
    var s1 := MaybeCompact(Drain(s, OnlyUser(s.queue, user)), clock.compactAt, clock.epochSecs);
    s1.(recent := PruneUser(s1.recent, user, clock.now, LimitWindow(s1.policy)))
  }

  predicate Denied(policy: Policy, limit: nat, activeLen: nat, recentLen: nat, isNewIp: bool) {
    match policy.mode
    case ActiveWindow => activeLen >= limit
    case TimeWindow => recentLen >= limit && isNewIp
    case Combined => activeLen >= limit || (recentLen >= limit && isNewIp)
  }

  /** The verdict on a prepared state. */
  function Decide(s: State, user: User, ip: IpAddr): Outcome {
    var p := Pair(user, ip);
    if p in s.active then
      if p !in s.recent && |s.recent| >= MAX_RECENT_IP_ENTRIES then RecentCapReached else Admitted
    else
      var activeLen, recentLen := |UserIps(s.active, user)|, |UserIps(s.recent, user)|;
      match UserLimit(s.policy, user)
      case Some(limit) =>
        if Denied(s.policy, limit, activeLen, recentLen, p !in s.recent)
        then LimitReached(activeLen, recentLen, limit, s.policy.mode)
        else DecideCaps(s, p)
      case None => DecideCaps(s, p)
  }

  function DecideCaps(s: State, p: Pair): Outcome {
    if |s.active| >= MAX_ACTIVE_IP_ENTRIES then ActiveCapReached
    else if p !in s.recent && |s.recent| >= MAX_RECENT_IP_ENTRIES then RecentCapReached
    else Admitted
  }

  function SessionCount(active: map<Pair, nat>, p: Pair): nat {
    if p in active then active[p] else 0
  }

  function Enter(s: State, p: Pair, now: Instant): State {
    s.(active := s.active[p := SessionCount(s.active, p) + 1], recent := s.recent[p := now])
  }

  function CheckAndAdd(s: State, user: User, ip: IpAddr, clock: Clock): (State, Outcome) {
    var s1 := Prepare(s, user, clock);
    var outcome := Decide(s1, user, ip);
    (if outcome.Admitted? then Enter(s1, Pair(user, ip), clock.now) else s1, outcome)
  }

  function RemoveIp(s: State, user: User, ip: IpAddr, compactAt: Instant, epochSecs: nat): State {
    var s1 := MaybeCompact(s, compactAt, epochSecs);
    s1.(active := Release(s1.active, map[Pair(user, ip) := 1]))
  }

  function EnqueueCleanup(s: State, user: User, ip: IpAddr): State {
    s.(queue := s.queue[Pair(user, ip) := SessionCount(s.queue, Pair(user, ip)) + 1])
  }

  function ClearUserIps(s: State, user: User): State {
    s.(active := WithoutUser(s.active, user), recent := WithoutUser(s.recent, user))
  }

  function ClearAll(s: State): State {
    s.(active := map[], recent := map[], queue := map[])
  }

  function SetLimitPolicy(s: State, mode: Mode, windowSecs: nat): State {
    s.(policy := s.policy.(mode := mode, windowSecs := if windowSecs >= 1 then windowSecs else 1))
  }

  function SetUserLimit(s: State, user: User, limit: nat): State {
    s.(policy := s.policy.(maxIps := s.policy.maxIps[user := limit]))
  }

  function RemoveUserLimit(s: State, user: User): State {
    s.(policy := s.policy.(maxIps := s.policy.maxIps - {user}))
  }

  function LoadLimits(s: State, defaultLimit: nat, limits: map<User, nat>): State {
    s.(policy := s.policy.(maxIps := limits, defaultMaxIps := defaultLimit))
  }

  /** What a recent-address query answers: the addresses still inside the window. */
  function RecentIps(s: State, user: User, now: Instant): set<IpAddr> {
    set p | p in s.recent && p.user == user && InWindow(s.recent[p], now, LimitWindow(s.policy)) :: p.ip
  }

  function InitialState(): State {
    State(map[], map[], map[], 0, Policy(map[], 0, ActiveWindow, 30))
  }
}
