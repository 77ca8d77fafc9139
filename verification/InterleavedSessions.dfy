// Every interleaving accounts for every session: what is counted is live, queued for release, or on its way there.
module InterleavedSessions {
  import opened Basics
  import opened TrackerTypes
  import opened TrackerSpec
  import opened Interleaving
  import opened InterleavedCounters

  /** Releases a thread has taken off the queue but not yet applied to the pair. */
  function Unapplied(pc: Pc, p: Pair): nat {
    if pc.Popping? || pc.Drained? || pc.Applying? then SessionCount(pc.todo, p) else 0
  }

  /** The action releases only sessions that are live, and clears nothing. */
  predicate Disciplined(live: map<Pair, nat>, a: Action) {
    && !a.ClearActive?
    && (a.RemoveOne? || a.PushNew? || a.PushMore? ==> 0 < SessionCount(live, a.p))
  }

  /** Live, queued and unapplied sessions of a pair, as far as this thread can see. */
  function Booked(v: View, p: Pair): nat {
    SessionCount(v.live, p) + SessionCount(v.queue, p) + Unapplied(v.pc, p)
  }

  /** The action changes the pair's count by exactly as much as what the count stands for. */
  ghost predicate SessionsBalanced(v: View, v': View, p: Pair) {
    SessionCount(v'.shard.active, p) + Booked(v, p) == SessionCount(v.shard.active, p) + Booked(v', p)
  }

  lemma ReleasedCount(active: map<Pair, nat>, p: Pair, n: nat, q: Pair)
    ensures SessionCount(Released(active, p, n), q) == SaturatingSub(SessionCount(active, q), if q == p then n else 0)
  {}

  lemma ApplyAccounts(v: View, i: nat, p: Pair, shardOf: User -> ShardIndex, q: Pair)
    requires CanSessions(v, i, ApplyOne(p), shardOf) && Booked(v, q) <= SessionCount(v.shard.active, q)
    ensures SessionsBalanced(v, ActOnSessions(v, i, ApplyOne(p), shardOf), q)
  {
    ReleasedCount(v.shard.active, p, v.pc.todo[p], q);
  }

  lemma RemoveAccounts(v: View, i: nat, p: Pair, shardOf: User -> ShardIndex, q: Pair)
    requires Enabled(v, i, RemoveOne(p), shardOf) && Booked(v, q) <= SessionCount(v.shard.active, q)
    requires 0 < SessionCount(v.live, p)
    ensures SessionsBalanced(v, Act(v, i, RemoveOne(p), shardOf), q)
  {
    ReleasedCount(v.shard.active, p, 1, q);
  }

  lemma EntryAccounts(v: View, i: nat, a: Action, shardOf: User -> ShardIndex, q: Pair)
    requires Enabled(v, i, a, shardOf) && (a.BumpKnown? || a.BumpUnseen? || a.EnterSeen? || a.EnterNew?)
    requires Holding(v.pc, v.shard)
    ensures SessionsBalanced(v, Act(v, i, a, shardOf), q)
  {}

  lemma QueueAccounts(v: View, i: nat, a: Action, shardOf: User -> ShardIndex, q: Pair)
    requires OnQueue(a) && CanQueue(v, i, a, shardOf) && Apart(v.pc, v.queue) && Disciplined(v.live, a)
    ensures SessionsBalanced(v, ActOnQueue(v, i, a, shardOf), q)
  {}

  lemma LockAccounts(v: View, i: nat, a: Action, q: Pair)
    requires OnLock(a) && CanLock(v, i, a)
    ensures SessionsBalanced(v, ActOnLock(v, i, a), q)
  {}

  lemma OtherAccounts(v: View, i: nat, a: Action, shardOf: User -> ShardIndex, q: Pair)
    requires Enabled(v, i, a, shardOf) && !OnQueue(a) && !OnLock(a) && !ChangesSessions(a)
    ensures SessionsBalanced(v, Act(v, i, a, shardOf), q)
  {}

  lemma ActionAccounts(v: View, i: nat, a: Action, shardOf: User -> ShardIndex, q: Pair)
    requires Enabled(v, i, a, shardOf) && Disciplined(v.live, a)
    requires Holding(v.pc, v.shard) && Apart(v.pc, v.queue)
    requires Booked(v, q) <= SessionCount(v.shard.active, q)
    ensures SessionsBalanced(v, Act(v, i, a, shardOf), q)
  {
    if OnQueue(a) {
      QueueAccounts(v, i, a, shardOf, q);
    } else if OnLock(a) {
      LockAccounts(v, i, a, q);
    } else if !ChangesSessions(a) {
      OtherAccounts(v, i, a, shardOf, q);
    } else if a.ApplyOne? {
      ApplyAccounts(v, i, a.p, shardOf, q);
    } else if a.RemoveOne? {
      RemoveAccounts(v, i, a.p, shardOf, q);
    } else {
      EntryAccounts(v, i, a, shardOf, q);
    }
  }

  lemma QueueElsewhere(v: View, i: nat, a: Action, shardOf: User -> ShardIndex, q: Pair)
    requires OnQueue(a) && CanQueue(v, i, a, shardOf) && Homed(v.pc, shardOf) && shardOf(q.user) != i
    ensures Booked(ActOnQueue(v, i, a, shardOf), q) == Booked(v, q)
  {}

  lemma SessionsElsewhere(v: View, i: nat, a: Action, shardOf: User -> ShardIndex, q: Pair)
    requires OnSessions(a) && CanSessions(v, i, a, shardOf) && Homed(v.pc, shardOf) && shardOf(q.user) != i
    ensures Booked(ActOnSessions(v, i, a, shardOf), q) == Booked(v, q)
  {}

  lemma EntryElsewhere(v: View, i: nat, a: Action, shardOf: User -> ShardIndex, q: Pair)
    requires OnEntry(a) && CanEnter(v, i, a, shardOf) && Homed(v.pc, shardOf) && shardOf(q.user) != i
    ensures Booked(ActOnEntry(v, i, a, shardOf), q) == Booked(v, q)
  {}

  /** Pairs of other shards are not touched at all. */
  lemma ElsewhereUntouched(v: View, i: nat, a: Action, shardOf: User -> ShardIndex, q: Pair)
    requires Enabled(v, i, a, shardOf) && Homed(v.pc, shardOf) && shardOf(q.user) != i
    ensures Booked(Act(v, i, a, shardOf), q) == Booked(v, q)
  {
    if OnQueue(a) {
      QueueElsewhere(v, i, a, shardOf, q);
    } else if OnSessions(a) {
      SessionsElsewhere(v, i, a, shardOf, q);
    } else if OnEntry(a) {
      EntryElsewhere(v, i, a, shardOf, q);
    }
  }

  // ---- The invariant ----

  function AllUnapplied(threads: seq<Pc>, p: Pair): nat {
    if threads == [] then 0 else AllUnapplied(threads[..|threads| - 1], p) + Unapplied(threads[|threads| - 1], p)
  }

  lemma {:induction false} UnappliedUpdate(threads: seq<Pc>, p: Pair, t: nat, pc: Pc)
    requires t < |threads|
    ensures AllUnapplied(threads[t := pc], p) + Unapplied(threads[t], p) == AllUnapplied(threads, p) + Unapplied(pc, p)
    decreases |threads|
  {
    var last := |threads| - 1;
    if t == last {
      assert threads[t := pc][..last] == threads[..last];
    } else {
      UnappliedUpdate(threads[..last], p, t, pc);
      assert threads[t := pc][..last] == threads[..last][t := pc];
    }
  }

  lemma {:induction false} UnappliedAtLeast(threads: seq<Pc>, p: Pair, t: nat)
    requires t < |threads|
    ensures Unapplied(threads[t], p) <= AllUnapplied(threads, p)
    decreases |threads|
  {
    if t < |threads| - 1 {
      UnappliedAtLeast(threads[..|threads| - 1], p, t);
    }
  }

  lemma {:induction false} NoneUnapplied(threads: seq<Pc>, p: Pair)
    requires forall t :: 0 <= t < |threads| ==> threads[t] == Idle
    ensures AllUnapplied(threads, p) == 0
    decreases |threads|
  {
    if threads != [] {
      NoneUnapplied(threads[..|threads| - 1], p);
    }
  }

  function Counted(s: System, shardOf: User -> ShardIndex, p: Pair): nat
    requires |s.shards| == USER_IP_TRACKER_SHARDS
  {
    SessionCount(s.shards[shardOf(p.user)].active, p)
  }

  /** The count of a pair is its live sessions plus its queued and its drained but unapplied releases. */
  ghost predicate Accounted(s: System, shardOf: User -> ShardIndex, p: Pair)
    requires |s.shards| == USER_IP_TRACKER_SHARDS
  {
    Counted(s, shardOf, p) == SessionCount(s.live, p) + SessionCount(s.queue, p) + AllUnapplied(s.threads, p)
  }

  ghost predicate SessionInv(s: System, shardOf: User -> ShardIndex) {
    && Inv(s, shardOf)
    && forall p :: Accounted(s, shardOf, p)
  }

  lemma ThreadAccounts(s: System, t: nat, i: nat, a: Action, shardOf: User -> ShardIndex, q: Pair)
    requires |s.shards| == USER_IP_TRACKER_SHARDS && t < |s.threads| && i < |s.shards|
    requires Tidy(s, shardOf) && Promises(s) && Accounted(s, shardOf, q)
    requires Enabled(ViewOf(s, t, i), i, a, shardOf) && Disciplined(s.live, a)
    ensures Accounted(Write(s, t, i, Act(ViewOf(s, t, i), i, a, shardOf)), shardOf, q)
  {
    var v := ViewOf(s, t, i);
    UnappliedUpdate(s.threads, q, t, Act(v, i, a, shardOf).pc);
    if shardOf(q.user) == i {
      UnappliedAtLeast(s.threads, q, t);
      ActorPromise(s, t, i, a, shardOf);
      ActionAccounts(v, i, a, shardOf, q);
    } else {
      ElsewhereUntouched(v, i, a, shardOf, q);
    }
  }

  // ---- Every reachable state ----

  /** Sessions are released at most once and nothing is cleared. */
  predicate ReleasesOnce(s: System, m: Move) {
    match m
    case Thread(_, _, a) => Disciplined(s.live, a)
    case ClearAll => false
  }

  ghost predicate ReleasesOnceAlong(r: Trace) {
    forall k :: 0 <= k < |r.moves| && k < |r.states| ==> ReleasesOnce(r.states[k], r.moves[k])
  }

  lemma MoveAccountsAll(s: System, m: Move, s': System, shardOf: User -> ShardIndex)
    requires SessionInv(s, shardOf) && Next(s, m, s', shardOf) && ReleasesOnce(s, m)
    ensures SessionInv(s', shardOf)
  {
    match m
    case Thread(t, i, a) =>
      MoveKeepsInv(s, m, s', shardOf);
      forall q ensures Accounted(s', shardOf, q) {
        assert Accounted(s, shardOf, q);
        ThreadAccounts(s, t, i, a, shardOf, q);
      }
  }

  lemma StartAccounts(s: System, shardOf: User -> ShardIndex)
    requires Start(s)
    ensures SessionInv(s, shardOf)
  {
    StartInv(s, shardOf);
    forall p ensures Accounted(s, shardOf, p) {
      NoneUnapplied(s.threads, p);
    }
  }

  /** In every interleaving that releases sessions at most once, every count is fully accounted for. */
  lemma {:induction false} SessionsAccounted(r: Trace, k: nat, shardOf: User -> ShardIndex)
    requires IsRun(r, shardOf) && ReleasesOnceAlong(r) && k < |r.states|
    ensures SessionInv(r.states[k], shardOf)
    decreases k
  {
    if k == 0 {
      StartAccounts(r.states[0], shardOf);
    } else {
      SessionsAccounted(r, k - 1, shardOf);
      assert MoveAt(r, k - 1, shardOf) && ReleasesOnce(r.states[k - 1], r.moves[k - 1]);
      MoveAccountsAll(r.states[k - 1], r.moves[k - 1], r.states[k], shardOf);
    }
  }

  /** An address with a live session is never dropped. */
  lemma LiveStaysActive(r: Trace, k: nat, shardOf: User -> ShardIndex, p: Pair)
    requires IsRun(r, shardOf) && ReleasesOnceAlong(r) && k < |r.states|
    requires 0 < SessionCount(r.states[k].live, p)
    ensures |r.states[k].shards| == USER_IP_TRACKER_SHARDS
    ensures p in r.states[k].shards[shardOf(p.user)].active
  {
    SessionsAccounted(r, k, shardOf);
    assert Accounted(r.states[k], shardOf, p);
  }
}
