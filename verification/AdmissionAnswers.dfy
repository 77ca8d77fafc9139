// What an admission is answered, told from the calls before it.
module AdmissionAnswers {
  import opened Basics
  import opened TrackerTypes
  import opened TrackerSpec
  import opened MapLemmas
  import opened TrackerRuns
  import opened RecentLog
  import opened DeferredRelease

  // ---- One call ----

  /** A positive limit is in force for the user: their own row, or else the default. */
  predicate InForce(policy: Policy, user: User, limit: nat) {
    && 0 < limit
    && limit == if user in policy.maxIps && 0 < policy.maxIps[user] then policy.maxIps[user] else policy.defaultMaxIps
  }

  /** The user's addresses that are owed a session. */
  function OwedIps(s: State, user: User): set<IpAddr> {
    set p | p in s.active && p.user == user && 0 < Owed(s, p) :: p.ip
  }

  predicate Recalled(s: State, p: Pair, now: Instant) {
    Recall(s.recent, p, now, LimitWindow(s.policy)).Some?
  }

  /** The user's addresses that were admitted within the window. */
  function RecalledIps(s: State, user: User, now: Instant): set<IpAddr> {
    set p | p in s.recent && p.user == user && Recalled(s, p, now) :: p.ip
  }

  /** So many addresses are held, or so many were seen, that this mode lets no other in. */
  predicate Full(mode: Mode, limit: nat, held: nat, seen: nat, unseen: bool) {
    || (mode != TimeWindow && limit <= held)
    || (mode != ActiveWindow && limit <= seen && unseen)
  }

  /** The limit stands in the way of the address. */
  predicate Blocks(s: State, p: Pair, now: Instant, limit: nat) {
    && Owed(s, p) == 0 && InForce(s.policy, p.user, limit)
    && Full(s.policy.mode, limit, |OwedIps(s, p.user)|, |RecalledIps(s, p.user, now)|, !Recalled(s, p, now))
  }

  /** The session entries there are once the user's queued releases are applied. */
  function ActiveEntries(s: State, user: User): set<Pair> {
    set p | p in s.active && (p.user == user ==> 0 < Owed(s, p))
  }

  /** The entries of the log of recent addresses once what is due to be pruned has been. */
  function RecentEntries(s: State, user: User, clock: Clock): set<Pair> {
    set p | && p in s.recent && (p.user == user ==> Recalled(s, p, clock.now))
            && (CompactionDue(s, clock.epochSecs) ==> Recalled(s, p, clock.compactAt))
  }

  lemma PreparedEntries(s: State, user: User, clock: Clock)
    requires AllPositive(s.active) && clock.compactAt <= clock.now
    ensures Prepare(s, user, clock).active.Keys == ActiveEntries(s, user)
    ensures Prepare(s, user, clock).recent.Keys == RecentEntries(s, user, clock)
    ensures Prepare(s, user, clock).policy == s.policy
  {
    var t := Prepare(s, user, clock);
    forall p ensures p in t.active <==> p in ActiveEntries(s, user) {
      if p.user == user {
        ActiveIffOwed(s, user, clock, p);
      }
    }
  }

  lemma PreparedIps(s: State, user: User, clock: Clock)
    requires AllPositive(s.active) && clock.compactAt <= clock.now
    ensures UserIps(Prepare(s, user, clock).active, user) == OwedIps(s, user)
    ensures UserIps(Prepare(s, user, clock).recent, user) == RecalledIps(s, user, clock.now)
  {
    var t := Prepare(s, user, clock);
    forall ip ensures ip in UserIps(t.active, user) <==> ip in OwedIps(s, user) {
      PreparedActive(s, user, clock, Pair(user, ip));
    }
    forall ip ensures ip in UserIps(t.recent, user) <==> ip in RecalledIps(s, user, clock.now) {
      PreparedRecent(s, user, clock, Pair(user, ip));
    }
  }

  lemma InUserIps<T>(m: map<Pair, T>, p: Pair)
    ensures p.ip in UserIps(m, p.user) <==> p in m
  {
    if p.ip in UserIps(m, p.user) {
      var q :| q in m && q.user == p.user && q.ip == p.ip;
      assert q == p;
    }
  }

  lemma PreparedActive(s: State, user: User, clock: Clock, p: Pair)
    requires AllPositive(s.active) && p.user == user
    ensures p.ip in UserIps(Prepare(s, user, clock).active, user) <==> p.ip in OwedIps(s, user)
  {
    InUserIps(Prepare(s, user, clock).active, p);
    ActiveIffOwed(s, user, clock, p);
    assert 0 < Owed(s, p) ==> p in s.active;
  }

  lemma PreparedRecent(s: State, user: User, clock: Clock, p: Pair)
    requires clock.compactAt <= clock.now && p.user == user
    ensures p.ip in UserIps(Prepare(s, user, clock).recent, user) <==> p.ip in RecalledIps(s, user, clock.now)
    ensures p in Prepare(s, user, clock).recent <==> Recalled(s, p, clock.now)
  {
    InUserIps(Prepare(s, user, clock).recent, p);
    PrepareRecalls(s, user, clock);
  }

  /** What the verdict on a prepared state comes to. */
  lemma Verdict(s: State, user: User, ip: IpAddr, clock: Clock)
    requires AllPositive(s.active) && clock.compactAt <= clock.now
    ensures var p, t := Pair(user, ip), Prepare(s, user, clock);
      && (p in t.active <==> 0 < Owed(s, p)) && (p in t.recent <==> Recalled(s, p, clock.now))
      && |UserIps(t.active, user)| == |OwedIps(s, user)|
      && |UserIps(t.recent, user)| == |RecalledIps(s, user, clock.now)|
      && |t.active| == |ActiveEntries(s, user)| && |t.recent| == |RecentEntries(s, user, clock)|
      && t.policy == s.policy
  {
    var p := Pair(user, ip);
    ActiveIffOwed(s, user, clock, p);
    PreparedRecent(s, user, clock, p);
    PreparedIps(s, user, clock);
    PreparedEntries(s, user, clock);
  }

  lemma LimitInForce(policy: Policy, user: User, limit: nat)
    ensures UserLimit(policy, user) == Some(limit) <==> InForce(policy, user, limit)
  {}

  /** The limit is named in the answer exactly when it stands in the way. */
  lemma LimitAnswer(s: State, user: User, ip: IpAddr, clock: Clock, limit: nat)
    requires AllPositive(s.active) && clock.compactAt <= clock.now
    ensures CheckAndAdd(s, user, ip, clock).1
        == LimitReached(|OwedIps(s, user)|, |RecalledIps(s, user, clock.now)|, limit, s.policy.mode)
      <==> Blocks(s, Pair(user, ip), clock.now, limit)
    ensures CheckAndAdd(s, user, ip, clock).1.LimitReached? ==>
      exists l :: Blocks(s, Pair(user, ip), clock.now, l)
  {
    Verdict(s, user, ip, clock);
    LimitInForce(s.policy, user, limit);
    var o := CheckAndAdd(s, user, ip, clock).1;
    if o.LimitReached? {
      LimitInForce(s.policy, user, o.limit);
      assert Blocks(s, Pair(user, ip), clock.now, o.limit);
    }
  }

  lemma LimitedIff(s: State, user: User, ip: IpAddr, clock: Clock)
    requires AllPositive(s.active) && clock.compactAt <= clock.now
    ensures CheckAndAdd(s, user, ip, clock).1.LimitReached?
      <==> exists limit :: Blocks(s, Pair(user, ip), clock.now, limit)
  {
    LimitAnswer(s, user, ip, clock, 0);
    if limit :| Blocks(s, Pair(user, ip), clock.now, limit) {
      LimitAnswer(s, user, ip, clock, limit);
    }
  }

  /** All other answers: the two caps, the first for new sessions only, the second for addresses not recalled. */
  lemma OtherAnswers(s: State, user: User, ip: IpAddr, clock: Clock)
    requires AllPositive(s.active) && clock.compactAt <= clock.now
    requires forall limit :: !Blocks(s, Pair(user, ip), clock.now, limit)
    ensures var p := Pair(user, ip);
      CheckAndAdd(s, user, ip, clock).1
      == if Owed(s, p) == 0 && |ActiveEntries(s, user)| >= 131_072 then ActiveCapReached
         else if !Recalled(s, p, clock.now) && |RecentEntries(s, user, clock)| >= 262_144 then RecentCapReached
         else Admitted
  {
    LimitAnswer(s, user, ip, clock, 0);
    Verdict(s, user, ip, clock);
  }

  // ---- What the calls before it make of a state ----

  /** A tracker on which no call has been made. */
  predicate IsNew(s: State) {
    s.active == map[] && s.recent == map[] && s.queue == map[]
  }

  /** A tracker just made is new, bounds nobody, and has a window of thirty seconds. */
  lemma InitialIsNew()
    ensures IsNew(InitialState()) && InitialState().policy.mode == ActiveWindow
    ensures LimitWindow(InitialState().policy) == 30_000_000_000
    ensures forall user, limit :: !InForce(InitialState().policy, user, limit)
  {}

  /** A tracker that was cleared is new again, whatever was queued. */
  lemma ClearedIsNew(r: Run, n: nat)
    requires n < |r.ops| && r.ops[n] == ClearEverything
    ensures IsNew(r.states[n + 1]) && r.states[n + 1].policy == r.states[n].policy
  {
    CallStep(r, n);
  }

  /** Sessions admitted and not released, since the last clear. */
  ghost function Held(r: Run, n: nat, p: Pair): nat
    requires n <= |r.ops|
  {
    if n == 0 then 0 else OwedAfter(r.ops[n - 1], r.results[n - 1], Held(r, n - 1, p), p)
  }

  ghost function PolicyAt(r: Run, n: nat): Policy
    requires n <= |r.ops|
  {
    if n == 0 then r.states[0].policy else PolicyAfter(r.ops[n - 1], PolicyAt(r, n - 1))
  }

  /** The addresses from which the user asked for admission. */
  ghost function Asked(r: Run, n: nat, user: User): set<IpAddr>
    requires n <= |r.ops|
  {
    set k | 0 <= k < n && r.ops[k].Check? && r.ops[k].user == user :: r.ops[k].ip
  }

  ghost function HeldIps(r: Run, n: nat, user: User): set<IpAddr>
    requires n <= |r.ops|
  {
    set ip | ip in Asked(r, n, user) && 0 < Held(r, n, Pair(user, ip))
  }

  lemma {:induction false} HeldIsOwed(r: Run, n: nat)
    requires IsNew(r.states[0]) && n <= |r.ops|
    ensures AllPositive(r.states[n].active)
    ensures forall p :: Owed(r.states[n], p) == Held(r, n, p)
    decreases n
  {
    if n > 0 {
      HeldIsOwed(r, n - 1);
      CallOwes(r, n - 1);
      forall p ensures Owed(r.states[n], p) == Held(r, n, p) {
        assert Owed(r.states[n - 1], p) == Held(r, n - 1, p);
      }
    }
  }

  lemma {:induction false} PolicyIsSet(r: Run, n: nat)
    requires n <= |r.ops|
    ensures r.states[n].policy == PolicyAt(r, n)
    decreases n
  {
    if n > 0 {
      PolicyIsSet(r, n - 1);
      CallPolicy(r, n - 1);
    }
  }

  lemma AskedMore(r: Run, n: nat, user: User)
    requires n < |r.ops|
    ensures Asked(r, n + 1, user)
      == Asked(r, n, user) + if r.ops[n].Check? && r.ops[n].user == user then {r.ops[n].ip} else {}
  {}

  /** A call makes entries for the address it asks about only. */
  lemma CallEntries(r: Run, n: nat)
    requires n < |r.ops|
    ensures var added := if r.ops[n].Check? then {Pair(r.ops[n].user, r.ops[n].ip)} else {};
      && r.states[n + 1].active.Keys <= r.states[n].active.Keys + added
      && r.states[n + 1].recent.Keys <= r.states[n].recent.Keys + added
  {
    CallStep(r, n);
  }

  lemma {:induction false} EntriesAsked(r: Run, n: nat, p: Pair)
    requires IsNew(r.states[0]) && n <= |r.ops| && (p in r.states[n].active || p in r.states[n].recent)
    ensures p.ip in Asked(r, n, p.user)
    decreases n
  {
    if n > 0 {
      CallEntries(r, n - 1);
      AskedMore(r, n - 1, p.user);
      if p in r.states[n - 1].active || p in r.states[n - 1].recent {
        EntriesAsked(r, n - 1, p);
      }
    }
  }

  lemma SubsetSize<T>(a: set<T>, b: set<T>)
    requires a <= b
    ensures |a| <= |b|
  {
    assert b == a + (b - a);
  }

  lemma OneMore<V>(a: map<Pair, V>, b: map<Pair, V>, op: Op)
    requires a.Keys <= b.Keys + if op.Check? then {Pair(op.user, op.ip)} else {}
    ensures |a| <= |b| + 1
  {
    if op.Check? {
      SubsetSize(a.Keys, b.Keys + {Pair(op.user, op.ip)});
    } else {
      SubsetSize(a.Keys, b.Keys);
    }
  }

  lemma CallAddsOne(r: Run, n: nat)
    requires n < |r.ops|
    ensures |r.states[n + 1].active| <= |r.states[n].active| + 1
    ensures |r.states[n + 1].recent| <= |r.states[n].recent| + 1
  {
    CallEntries(r, n);
    OneMore(r.states[n + 1].active, r.states[n].active, r.ops[n]);
    OneMore(r.states[n + 1].recent, r.states[n].recent, r.ops[n]);
  }

  lemma {:induction false} FewEntries(r: Run, n: nat)
    requires IsNew(r.states[0]) && n <= |r.ops|
    ensures |r.states[n].active| <= n && |r.states[n].recent| <= n
    decreases n
  {
    if n > 0 {
      FewEntries(r, n - 1);
      CallAddsOne(r, n - 1);
    }
  }

  lemma OwedIsHeldIps(r: Run, n: nat, user: User)
    requires IsNew(r.states[0]) && n <= |r.ops|
    ensures OwedIps(r.states[n], user) == HeldIps(r, n, user)
  {
    var s := r.states[n];
    HeldIsOwed(r, n);
    forall ip ensures ip in OwedIps(s, user) <==> ip in HeldIps(r, n, user) {
      var p := Pair(user, ip);
      assert Owed(s, p) == Held(r, n, p);
      if ip in OwedIps(s, user) || ip in HeldIps(r, n, user) {
        assert p in s.active;
        EntriesAsked(r, n, p);
      }
    }
  }

  lemma RecalledIsLogged(r: Run, n: nat, user: User, now: Instant)
    requires IsNew(r.states[0]) && WindowNeverGrows(r) && n <= |r.ops| && r.times[n] <= now
    ensures RecalledIps(r.states[n], user, now) == LoggedIps(r, n, user, now)
  {
    PruningIsUnobservable(r, n, user, now);
    assert RecalledIps(r.states[n], user, now) == RecentIps(r.states[n], user, now);
  }

  // ---- Whole runs ----

  /** The same of the calls: the limit stands in the way of the address. */
  ghost predicate Bars(r: Run, n: nat, user: User, ip: IpAddr, now: Instant, limit: nat)
    requires n <= |r.ops|
  {
    && Held(r, n, Pair(user, ip)) == 0 && InForce(PolicyAt(r, n), user, limit)
    && Full(PolicyAt(r, n).mode, limit, |HeldIps(r, n, user)|, |LoggedIps(r, n, user, now)|,
            ip !in LoggedIps(r, n, user, now))
  }

  lemma BarsIffBlocks(r: Run, n: nat, user: User, ip: IpAddr, now: Instant, limit: nat)
    requires IsNew(r.states[0]) && WindowNeverGrows(r) && n <= |r.ops| && r.times[n] <= now
    ensures Bars(r, n, user, ip, now, limit) <==> Blocks(r.states[n], Pair(user, ip), now, limit)
  {
    HeldIsOwed(r, n);
    PolicyIsSet(r, n);
    OwedIsHeldIps(r, n, user);
    RecalledIsLogged(r, n, user, now);
    assert ip in RecalledIps(r.states[n], user, now) <==> Recalled(r.states[n], Pair(user, ip), now);
  }

  /**
   * In any run of a new tracker whose window does not grow, a call that meets no cap is turned away exactly when the
   * address has no session left, a positive limit is in force, and that many addresses of the user have sessions left,
   * or were admitted within the window while this one was not, as the mode has it.
   */
  lemma TurnedAwayIff(r: Run, n: nat)
    requires IsNew(r.states[0]) && WindowNeverGrows(r)
    requires n < |r.ops| && r.ops[n].Check? && r.results[n].Some? && !CapHit(r.results[n].value)
    ensures var op := r.ops[n];
      r.results[n].value.LimitReached? <==> exists limit :: Bars(r, n, op.user, op.ip, op.clock.now, limit)
    ensures r.results[n].value.LimitReached? || r.results[n].value == Admitted
  {
    var s, op := r.states[n], r.ops[n];
    CallStep(r, n);
    CallTimes(r, n);
    HeldIsOwed(r, n);
    forall limit ensures Bars(r, n, op.user, op.ip, op.clock.now, limit)
      <==> Blocks(s, Pair(op.user, op.ip), op.clock.now, limit)
    {
      BarsIffBlocks(r, n, op.user, op.ip, op.clock.now, limit);
    }
    LimitedIff(s, op.user, op.ip, op.clock);
  }

  lemma RoomLeft(r: Run, n: nat, user: User, ip: IpAddr, now: Instant, limit: nat)
    requires IsNew(r.states[0]) && n <= |r.ops| && |Asked(r, n, user) + {ip}| <= limit
    ensures !Blocks(r.states[n], Pair(user, ip), now, limit)
  {
    var s, all := r.states[n], Asked(r, n, user) + {ip};
    forall other | other in OwedIps(s, user) || other in RecalledIps(s, user, now) ensures other in all {
      EntriesAsked(r, n, Pair(user, other));
    }
    if Owed(s, Pair(user, ip)) == 0 {
      OneMissing(OwedIps(s, user), all, ip);
    }
    if !Recalled(s, Pair(user, ip), now) {
      OneMissing(RecalledIps(s, user, now), all, ip);
    }
  }

  lemma OneMissing<T>(part: set<T>, all: set<T>, x: T)
    requires part <= all && x in all && x !in part
    ensures |part| < |all|
  {
    SubsetSize(part + {x}, all);
  }

  /**
   * On a new tracker a user who has asked from no more addresses than the limit is admitted, in every mode, after any
   * calls up to the number of entries there is room for.
   */
  lemma FirstAddressesAdmitted(r: Run, n: nat, limit: nat)
    requires IsNew(r.states[0]) && n < |r.ops| && n < 131_072 && r.ops[n].Check?
    requires InForce(PolicyAt(r, n), r.ops[n].user, limit) && |Asked(r, n + 1, r.ops[n].user)| <= limit
    ensures r.results[n] == Some(Admitted)
  {
    var s, op := r.states[n], r.ops[n];
    CallStep(r, n);
    CallTimes(r, n);
    HeldIsOwed(r, n);
    PolicyIsSet(r, n);
    AskedMore(r, n, op.user);
    RoomLeft(r, n, op.user, op.ip, op.clock.now, limit);
    FewEntries(r, n);
    SubsetSize(ActiveEntries(s, op.user), s.active.Keys);
    SubsetSize(RecentEntries(s, op.user, op.clock), s.recent.Keys);
    OtherAnswers(s, op.user, op.ip, op.clock);
  }

  /** A user for whom no limit is in force is never turned away by one. */
  lemma NoLimitAdmits(r: Run, n: nat)
    requires IsNew(r.states[0]) && n < |r.ops| && n < 131_072 && r.ops[n].Check?
    requires forall limit :: !InForce(PolicyAt(r, n), r.ops[n].user, limit)
    ensures r.results[n] == Some(Admitted)
  {
    var s, op := r.states[n], r.ops[n];
    CallStep(r, n);
    CallTimes(r, n);
    HeldIsOwed(r, n);
    PolicyIsSet(r, n);
    FewEntries(r, n);
    SubsetSize(ActiveEntries(s, op.user), s.active.Keys);
    SubsetSize(RecentEntries(s, op.user, op.clock), s.recent.Keys);
    OtherAnswers(s, op.user, op.ip, op.clock);
  }
}
