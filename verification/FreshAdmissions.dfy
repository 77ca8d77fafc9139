// The sliding-window limit over whole runs: no window of time lets in more new addresses than the limit.
module FreshAdmissions {
  import opened Basics
  import opened TrackerTypes
  import opened TrackerSpec
  import opened TrackerRuns

  /** The address is in the user's window at time `now`. */
  predicate Seen(s: State, p: Pair, now: Instant) {
    p in s.recent && InWindow(s.recent[p], now, LimitWindow(s.policy))
  }

  /** Call `k` admits `user` from an address that is neither active nor in the window. */
  ghost predicate Fresh(r: Run, k: nat, user: User)
  {
    && k < |r.ops|
    && r.ops[k].Check? && r.ops[k].user == user
    && r.results[k] == Some(Admitted)
    && var p := Pair(user, r.ops[k].ip);
       && p !in Drain(r.states[k], OnlyUser(r.states[k].queue, user)).active
       && !Seen(r.states[k], p, r.ops[k].clock.now)
  }

  function IpAt(r: Trace, k: nat): IpAddr {
    if k < |r.ops| && r.ops[k].Check? then r.ops[k].ip else V4(0)
  }

  function TimeAt(r: Trace, k: nat): Instant {
    if k < |r.ops| && r.ops[k].Check? then r.ops[k].clock.now else 0
  }

  /** The fresh admissions of `user` among the first `n` calls at times from `start` to `start + window`. */
  ghost function FreshIn(r: Run, n: nat, user: User, start: Instant, window: nat): set<nat>
  {
    set k: nat | k < n && Fresh(r, k, user) && start <= TimeAt(r, k) <= start + window
  }

  predicate Governs(policy: Policy, user: User, limit: nat, window: nat) {
    && UserLimit(policy, user) == Some(limit)
    && LimitWindow(policy) == window
    && policy.mode != ActiveWindow
  }

  /** The user's limit, window and a window-counting mode hold throughout, and nothing of the user is cleared. */
  ghost predicate Governed(r: Run, user: User, limit: nat, window: nat) {
    && (forall i :: 0 <= i < |r.states| ==> Governs(r.states[i].policy, user, limit, window))
    && (forall i :: 0 <= i < |r.ops| ==> r.ops[i] != ClearUser(user) && r.ops[i] != ClearEverything)
  }

  /** The pair's last admission is on record and not before `t`. */
  predicate SeenSince(recent: map<Pair, Instant>, p: Pair, t: Instant) {
    p in recent && recent[p] >= t
  }

  lemma PrepareRemembers(s: State, user: User, clock: Clock, p: Pair, t: Instant)
    requires SeenSince(s.recent, p, t)
    requires clock.compactAt <= clock.now && InWindow(t, clock.now, LimitWindow(s.policy))
    ensures SeenSince(Prepare(s, user, clock).recent, p, t)
  {}

  /** No call but a clear forgets an admission that is still inside the window when the call ends. */
  lemma CallRemembers(r: Run, i: nat, p: Pair, t: Instant)
    requires i < |r.ops| && r.ops[i] != ClearUser(p.user) && r.ops[i] != ClearEverything
    requires SeenSince(r.states[i].recent, p, t) && t <= r.times[i]
    requires InWindow(t, r.times[i + 1], LimitWindow(r.states[i].policy))
    ensures SeenSince(r.states[i + 1].recent, p, t)
  {
    CallStep(r, i);
    CallTimes(r, i);
    if r.ops[i].Check? {
      PrepareRemembers(r.states[i], r.ops[i].user, r.ops[i].clock, p, t);
    }
  }

  lemma AdmissionIsSeen(s: State, user: User, ip: IpAddr, clock: Clock)
    requires CheckAndAdd(s, user, ip, clock).1 == Admitted
    ensures SeenSince(CheckAndAdd(s, user, ip, clock).0.recent, Pair(user, ip), clock.now)
  {}

  /** An admission stays on record as long as it is inside the window. */
  lemma {:induction false} Remembered(r: Run, user: User, limit: nat, window: nat, k: nat, n: nat)
    requires Governed(r, user, limit, window)
    requires k < n <= |r.ops| && r.ops[k].Check? && r.ops[k].user == user && r.results[k] == Some(Admitted)
    requires InWindow(TimeAt(r, k), r.times[n], window)
    ensures SeenSince(r.states[n].recent, Pair(user, IpAt(r, k)), TimeAt(r, k))
    decreases n
  {
    if k == n - 1 {
      CallStep(r, k);
      AdmissionIsSeen(r.states[k], user, r.ops[k].ip, r.ops[k].clock);
    } else {
      Remembered(r, user, limit, window, k, n - 1) by {
        CallTimes(r, n - 1);
      }
      CallTimes(r, k);
      TimesIncrease(r, k + 1, n - 1);
      assert Governs(r.states[n - 1].policy, user, limit, window);
      CallRemembers(r, n - 1, Pair(user, IpAt(r, k)), TimeAt(r, k));
    }
  }

  /** Two fresh admissions in one window come from different addresses, and the later finds the earlier on record. */
  lemma EarlierOnRecord(r: Run, user: User, limit: nat, window: nat, start: Instant, k: nat, n: nat)
    requires Governed(r, user, limit, window)
    requires k < n && Fresh(r, k, user) && Fresh(r, n, user)
    requires start <= TimeAt(r, k) && TimeAt(r, n) <= start + window
    ensures IpAt(r, k) in UserIps(Prepare(r.states[n], user, r.ops[n].clock).recent, user)
    ensures IpAt(r, k) != IpAt(r, n)
  {
    var p, t, clock := Pair(user, IpAt(r, k)), TimeAt(r, k), r.ops[n].clock;
    CallTimes(r, n);
    assert Governs(r.states[n].policy, user, limit, window);
    Remembered(r, user, limit, window, k, n);
    PrepareRemembers(r.states[n], user, clock, p, t);
    assert p in Prepare(r.states[n], user, clock).recent;
  }

  lemma {:induction false} InjectionBound(ks: set<nat>, ip: nat -> IpAddr, ips: set<IpAddr>)
    requires forall k :: k in ks ==> ip(k) in ips
    requires forall k, l :: k in ks && l in ks && k != l ==> ip(k) != ip(l)
    ensures |ks| <= |ips|
  {
    if ks != {} {
      var k :| k in ks;
      InjectionBound(ks - {k}, ip, ips - {ip(k)});
    }
  }

  lemma FreshMeansRoom(r: Run, user: User, limit: nat, window: nat, n: nat)
    requires Governed(r, user, limit, window) && Fresh(r, n, user)
    ensures |UserIps(Prepare(r.states[n], user, r.ops[n].clock).recent, user)| < limit
  {
    var s, op := r.states[n], r.ops[n];
    CallStep(r, n);
    assert Governs(s.policy, user, limit, window);
    var s1 := Prepare(s, user, op.clock);
    assert Decide(s1, user, op.ip) == Admitted;
    assert Pair(user, op.ip) !in s1.active && Pair(user, op.ip) !in s1.recent;
  }

  lemma FreshBefore(r: Run, user: User, limit: nat, window: nat, start: Instant, n: nat)
    requires Governed(r, user, limit, window)
    requires Fresh(r, n, user) && start <= TimeAt(r, n) <= start + window
    ensures |FreshIn(r, n, user, start, window)| < limit
  {
    var ks := FreshIn(r, n, user, start, window);
    var ips := UserIps(Prepare(r.states[n], user, r.ops[n].clock).recent, user);
    forall k | k in ks ensures IpAt(r, k) in ips {
      EarlierOnRecord(r, user, limit, window, start, k, n);
    }
    forall k, l | k in ks && l in ks && k != l ensures IpAt(r, k) != IpAt(r, l) {
      if k < l {
        EarlierOnRecord(r, user, limit, window, start, k, l);
      } else {
        EarlierOnRecord(r, user, limit, window, start, l, k);
      }
    }
    InjectionBound(ks, (k: nat) => IpAt(r, k), ips);
    FreshMeansRoom(r, user, limit, window, n);
  }

  lemma FreshExtends(r: Run, last: nat, user: User, start: Instant, window: nat)
    ensures FreshIn(r, last + 1, user, start, window) ==
      if Fresh(r, last, user) && start <= TimeAt(r, last) <= start + window
      then FreshIn(r, last, user, start, window) + {last}
      else FreshIn(r, last, user, start, window)
  {}

  lemma OneMoreCall(r: Run, user: User, limit: nat, window: nat, start: Instant, n: nat)
    requires Governed(r, user, limit, window)
    requires |FreshIn(r, n, user, start, window)| <= limit
    ensures |FreshIn(r, n + 1, user, start, window)| <= limit
  {
    FreshExtends(r, n, user, start, window);
    if Fresh(r, n, user) && start <= TimeAt(r, n) <= start + window {
      FreshBefore(r, user, limit, window, start, n);
    }
  }

  /** Every closed interval as long as the window holds at most `limit` fresh admissions. */
  lemma {:induction false} WindowLimitHolds(r: Run, user: User, limit: nat, window: nat, start: Instant, n: nat)
    requires Governed(r, user, limit, window) && n <= |r.ops|
    ensures |FreshIn(r, n, user, start, window)| <= limit
    decreases n
  {
    if n == 0 {
      assert FreshIn(r, n, user, start, window) == {};
    } else {
      WindowLimitHolds(r, user, limit, window, start, n - 1);
      OneMoreCall(r, user, limit, window, start, n - 1);
    }
  }
}
