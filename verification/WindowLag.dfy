// The lag is not an artefact: one more instant, and two addresses get in where the limit is one.
module WindowLag {
  import opened Basics
  import opened TrackerTypes
  import opened TrackerSpec
  import opened Interleaving
  import opened InterleavedWindow

  // ---- Runs of one thread ----

  function EmptyShards(): seq<Shard> {
    seq(USER_IP_TRACKER_SHARDS, _ => Shard(map[], map[]))
  }

  /** The system in which one thread works on shard `i` and everything else is empty. */
  function Solo(v: View, i: ShardIndex): System {
    System(EmptyShards()[i := v.shard], [v.pc], v.activeCount, v.recentCount, v.queue, v.gauge, v.live)
  }

  lemma Rewritten<T>(s: seq<T>, i: nat, x: T, y: T)
    requires i < |s|
    ensures s[i := x][i := y] == s[i := y]
  {}

  lemma SoloMove(v: View, i: ShardIndex, a: Action, shardOf: User -> ShardIndex)
    requires Enabled(v, i, a, shardOf)
    ensures Next(Solo(v, i), Thread(0, i, a), Solo(Act(v, i, a, shardOf), i), shardOf)
  {
    var v' := Act(v, i, a, shardOf);
    assert ViewOf(Solo(v, i), 0, i) == v;
    Rewritten(EmptyShards(), i, v.shard, v'.shard);
    Rewritten([Idle], 0, v.pc, v'.pc);
    assert [Idle][0 := v.pc] == [v.pc] && [Idle][0 := v'.pc] == [v'.pc];
    SoloFree(v, i, a, shardOf);
  }

  lemma SoloFree(v: View, i: ShardIndex, a: Action, shardOf: User -> ShardIndex)
    requires Enabled(v, i, a, shardOf)
    ensures a.Lock? || a.BeginApply? ==> LockFree(Solo(v, i), i)
    ensures TakesQueue(a, v.pc) ==> QueueFree(Solo(v, i), i)
  {}

  /** `views[k]` is what the thread sees before its action `k`. */
  ghost predicate SoloRun(views: seq<View>, actions: seq<Action>, i: ShardIndex, shardOf: User -> ShardIndex) {
    && |views| == |actions| + 1 && views[0] == View(Idle, Shard(map[], map[]), 0, 0, map[], 0, map[])
    && forall k :: 0 <= k < |actions| ==> SoloStep(views[k], actions[k], views[k + 1], i, shardOf)
  }

  ghost predicate SoloStep(v: View, a: Action, v': View, i: ShardIndex, shardOf: User -> ShardIndex) {
    Enabled(v, i, a, shardOf) && v' == Act(v, i, a, shardOf)
  }

  ghost function TraceOf(views: seq<View>, actions: seq<Action>, i: ShardIndex): Trace {
    Trace(seq(|views|, k requires 0 <= k < |views| => Solo(views[k], i)),
          seq(|actions|, k requires 0 <= k < |actions| => Thread(0, i, actions[k])))
  }

  lemma SoloIsRun(views: seq<View>, actions: seq<Action>, i: ShardIndex, shardOf: User -> ShardIndex)
    requires SoloRun(views, actions, i, shardOf)
    ensures IsRun(TraceOf(views, actions, i), shardOf)
  {
    var r := TraceOf(views, actions, i);
    forall k | 0 <= k < |r.moves| ensures MoveAt(r, k, shardOf) {
      assert SoloStep(views[k], actions[k], views[k + 1], i, shardOf);
      SoloMove(views[k], i, actions[k], shardOf);
    }
  }

  // ---- Two admissions ----

  /** Admitted at `lag` with the time 0, then again as soon as that time is outside the window. */
  function Second(window: nat, lag: nat): Instant {
    if lag <= window then window + 1 else lag
  }

  const MOVES := 13

  function ActionAt(p: Pair, q: Pair, window: nat, later: Instant, k: nat): Action {
    if k == 0 || k == 7 then Lock
    else if k == 1 then PruneOf({p.user}, 0, window)
    else if k == 2 || k == 9 then Settle
    else if k == 3 then ReserveActive(p, Some(1), TimeWindow)
    else if k == 4 || k == 11 then ReserveSecond
    else if k == 5 then EnterNew(0)
    else if k == 6 then Unlock
    else if k == 8 then PruneOf({p.user}, later, window)
    else if k == 10 then ReserveActive(q, Some(1), TimeWindow)
    else EnterNew(later)
  }

  function Actions(p: Pair, q: Pair, window: nat, later: Instant): seq<Action> {
    seq(MOVES, k requires 0 <= k => ActionAt(p, q, window, later, k))
  }

  function Times(lag: nat, later: Instant): seq<Instant> {
    seq(MOVES, k => if k < 7 then lag else later)
  }

  /** Before the first address is entered. */
  function EarlyView(i: nat, p: Pair, k: nat): View {
    var none := Shard(map[], map[]);
    if k == 0 then View(Idle, none, 0, 0, map[], 0, map[])
    else if k == 2 then View(OwesRecent(i, 0), none, 0, 0, map[], 0, map[])
    else if k == 4 then View(HoldsActive(i, p), none, 1, 0, map[], 0, map[])
    else if k == 5 then View(HoldsBoth(i, p), none, 1, 1, map[], 0, map[])
    else View(Locked(i), none, 0, 0, map[], 0, map[])
  }

  /** After it, until the second address is entered. */
  function LateView(i: nat, p: Pair, q: Pair, k: nat): View {
    var one, forgotten := Shard(map[p := 1], map[p := 0]), Shard(map[p := 1], map[]);
    if k == 7 then View(Idle, one, 1, 1, map[], 0, map[p := 1])
    else if k == 9 then View(OwesRecent(i, 1), forgotten, 1, 1, map[], 0, map[p := 1])
    else if k == 10 then View(Locked(i), forgotten, 1, 0, map[], 0, map[p := 1])
    else if k == 11 then View(HoldsActive(i, q), forgotten, 2, 0, map[], 0, map[p := 1])
    else if k == 12 then View(HoldsBoth(i, q), forgotten, 2, 1, map[], 0, map[p := 1])
    else View(Locked(i), one, 1, 1, map[], 0, map[p := 1])
  }

  function ViewAt(i: nat, p: Pair, q: Pair, later: Instant, k: nat): View {
    if k < 6 then EarlyView(i, p, k)
    else if k < MOVES then LateView(i, p, q, k)
    else View(Locked(i), Shard(map[p := 1, q := 1], map[q := later]), 2, 1, map[], 0, map[p := 1, q := 1])
  }

  function Views(i: nat, p: Pair, q: Pair, later: Instant): seq<View> {
    seq(MOVES + 1, k requires 0 <= k => ViewAt(i, p, q, later, k))
  }

  ghost predicate StepAt(p: Pair, q: Pair, later: Instant, window: nat, shardOf: User -> ShardIndex, k: nat) {
    var i := shardOf(p.user);
    SoloStep(ViewAt(i, p, q, later, k), ActionAt(p, q, window, later, k), ViewAt(i, p, q, later, k + 1), i, shardOf)
  }

  lemma NoneOnRecord(active: map<Pair, nat>, p: Pair)
    ensures Allowed(Shard(active, map[]), p, Some(1), TimeWindow)
  {
    var none: map<Pair, Instant> := map[];
    assert UserIps(none, p.user) == {};
  }

  lemma NothingToPrune(p: Pair, q: Pair, later: Instant, window: nat, shardOf: User -> ShardIndex)
    ensures StepAt(p, q, later, window, shardOf, 1)
  {
    var none: map<Pair, Instant> := map[];
    assert PruneUsers(none, {p.user}, 0, window) == none && none.Keys - none.Keys == {};
  }

  lemma FirstReserves(p: Pair, q: Pair, later: Instant, window: nat, shardOf: User -> ShardIndex)
    ensures StepAt(p, q, later, window, shardOf, 3) && StepAt(p, q, later, window, shardOf, 4)
  {
    NoneOnRecord(map[], p);
  }

  lemma FirstEnters(p: Pair, q: Pair, later: Instant, window: nat, shardOf: User -> ShardIndex)
    ensures StepAt(p, q, later, window, shardOf, 5) && StepAt(p, q, later, window, shardOf, 6)
  {
    var active: map<Pair, nat> := map[];
    assert active[p := 1] == map[p := 1];
  }

  lemma LocksAndSettles(p: Pair, q: Pair, later: Instant, window: nat, shardOf: User -> ShardIndex)
    ensures StepAt(p, q, later, window, shardOf, 0) && StepAt(p, q, later, window, shardOf, 2)
    ensures StepAt(p, q, later, window, shardOf, 7) && StepAt(p, q, later, window, shardOf, 9)
  {}

  lemma Forgets(p: Pair, window: nat, later: Instant)
    requires window < later
    ensures PruneUsers(map[p := 0], {p.user}, later, window) == map[]
    ensures Lost(map[p := 0], PruneUsers(map[p := 0], {p.user}, later, window)) == 1
  {
    var before: map<Pair, Instant> := map[p := 0];
    var after := PruneUsers(before, {p.user}, later, window);
    assert after == map[];
    assert before.Keys - after.Keys == {p};
  }

  lemma FirstIsForgotten(p: Pair, q: Pair, later: Instant, window: nat, shardOf: User -> ShardIndex)
    requires window < later
    ensures StepAt(p, q, later, window, shardOf, 8)
  {
    Forgets(p, window, later);
  }

  lemma SecondReserves(p: Pair, q: Pair, later: Instant, window: nat, shardOf: User -> ShardIndex)
    requires p.user == q.user && p != q
    ensures StepAt(p, q, later, window, shardOf, 10) && StepAt(p, q, later, window, shardOf, 11)
  {
    NoneOnRecord(map[p := 1], q);
  }

  lemma SecondEnters(p: Pair, q: Pair, later: Instant, window: nat, shardOf: User -> ShardIndex)
    requires p.user == q.user && p != q
    ensures StepAt(p, q, later, window, shardOf, 12)
  {
    var active: map<Pair, nat> := map[p := 1];
    assert active[q := 1] == map[p := 1, q := 1];
  }

  lemma EveryStep(p: Pair, q: Pair, later: Instant, window: nat, shardOf: User -> ShardIndex, k: nat)
    requires window < later && p.user == q.user && p != q && k < MOVES
    ensures StepAt(p, q, later, window, shardOf, k)
  {
    if k == 1 {
      NothingToPrune(p, q, later, window, shardOf);
    } else if k == 3 || k == 4 {
      FirstReserves(p, q, later, window, shardOf);
    } else if k == 5 || k == 6 {
      FirstEnters(p, q, later, window, shardOf);
    } else if k == 8 {
      FirstIsForgotten(p, q, later, window, shardOf);
    } else if k == 10 || k == 11 {
      SecondReserves(p, q, later, window, shardOf);
    } else if k == 12 {
      SecondEnters(p, q, later, window, shardOf);
    } else {
      LocksAndSettles(p, q, later, window, shardOf);
    }
  }

  lemma TwoAdmissions(p: Pair, q: Pair, later: Instant, window: nat, shardOf: User -> ShardIndex)
    requires window < later && p.user == q.user && p != q
    ensures var i := shardOf(p.user);
      SoloRun(Views(i, p, q, later), Actions(p, q, window, later), i, shardOf)
  {
    var i := shardOf(p.user);
    var views, actions := Views(i, p, q, later), Actions(p, q, window, later);
    forall k | 0 <= k < |actions| ensures SoloStep(views[k], actions[k], views[k + 1], i, shardOf) {
      EveryStep(p, q, later, window, shardOf, k);
    }
  }

  lemma WitnessIsTimed(p: Pair, q: Pair, window: nat, lag: nat, shardOf: User -> ShardIndex)
    requires p.user == q.user && p != q
    ensures var i, later := shardOf(p.user), Second(window, lag);
      Timed(TraceOf(Views(i, p, q, later), Actions(p, q, window, later), i), Times(lag, later),
            Setting(shardOf, p.user, 1, window, lag))
  {
    var i, later := shardOf(p.user), Second(window, lag);
    TwoAdmissions(p, q, later, window, shardOf);
    SoloIsRun(Views(i, p, q, later), Actions(p, q, window, later), i, shardOf);
    var r := TraceOf(Views(i, p, q, later), Actions(p, q, window, later), i);
    forall k | 0 <= k < MOVES
      ensures Governed(r.moves[k], p.user, 1) && Timely(r.moves[k], Times(lag, later)[k], p.user, window, lag)
    {
      MovesInTime(p, q, window, lag, i, k);
    }
    TimesGrow(lag, later);
  }

  lemma MovesInTime(p: Pair, q: Pair, window: nat, lag: nat, i: nat, k: nat)
    requires k < MOVES
    ensures var later := Second(window, lag);
      var m := Thread(0, i, Actions(p, q, window, later)[k]);
      Governed(m, p.user, 1) && Timely(m, Times(lag, later)[k], p.user, window, lag)
  {}

  lemma TimesGrow(lag: nat, later: Instant)
    requires lag <= later
    ensures forall j, k :: 0 <= j <= k < |Times(lag, later)| ==> Times(lag, later)[j] <= Times(lag, later)[k]
  {}

  lemma TwoAtLeast(s: set<nat>, a: nat, b: nat)
    requires a in s && b in s && a != b
    ensures |s| >= 2
  {
    assert |s| == |s - {a}| + 1;
    assert b in s - {a};
  }

  /** Both admissions fall into an interval one instant longer than the bound. */
  lemma WitnessIsFresh(p: Pair, q: Pair, window: nat, lag: nat, length: nat, i: ShardIndex)
    requires p.user == q.user && p != q && window < length + lag
    ensures var later := Second(window, lag);
      var r := TraceOf(Views(i, p, q, later), Actions(p, q, window, later), i);
      |FreshIn(r, Times(lag, later), MOVES, p.user, lag, length)| >= 2
  {
    var later := Second(window, lag);
    var r := TraceOf(Views(i, p, q, later), Actions(p, q, window, later), i);
    assert r.moves[5] == Thread(0, i, EnterNew(0)) && r.states[5].threads == [HoldsBoth(i, p)];
    assert r.moves[12] == Thread(0, i, EnterNew(later)) && r.states[12].threads == [HoldsBoth(i, q)];
    TwoAtLeast(FreshIn(r, Times(lag, later), MOVES, p.user, lag, length), 5, 12);
  }

  // ---- Exactly how long the interval may be ----

  /** Every closed interval of this length holds at most `limit` fresh admissions, for every limit and interleaving. */
  ghost predicate LimitHolds(window: nat, lag: nat, length: nat) {
    forall r, times, g: Setting, start, n ::
      Timed(r, times, g) && g.window == window && g.lag == lag ==>
        |FreshIn(r, times, n, g.user, start, length)| <= g.limit
  }

  /** The limit holds for intervals of a length exactly when length and lag together fit into the window. */
  lemma LimitHoldsIff(window: nat, lag: nat, length: nat)
    ensures LimitHolds(window, lag, length) <==> length + lag <= window
  {
    if length + lag <= window {
      forall r, times, g: Setting, start, n | Timed(r, times, g) && g.window == window && g.lag == lag
        ensures |FreshIn(r, times, n, g.user, start, length)| <= g.limit
      {
        LaggedLimitHolds(r, times, g, start, length, n);
      }
    } else {
      var p, q, later := Pair("user", V4(1)), Pair("user", V4(2)), Second(window, lag);
      var shardOf: User -> ShardIndex := _ => 0;
      WitnessIsTimed(p, q, window, lag, shardOf);
      WitnessIsFresh(p, q, window, lag, length, shardOf(p.user));
    }
  }
}
