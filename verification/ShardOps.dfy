// The steps the tracker performs on its shard maps, each proved against the flat table `f` the maps stand for.
module ShardOps {
  import opened Basics
  import opened TrackerTypes
  import opened TrackerSpec
  import opened MapLemmas
  import opened NestedMaps

  /** A sharded table together with the counter that is meant to equal its number of entries. */
  datatype Table<T> = Table(shards: seq<Nested<T>>, count: nat)

  /** The session table: every count positive, the counter exact, and never more entries than the cap. */
  ghost predicate ActiveOk(t: Table<nat>, shardOf: User -> ShardIndex, f: map<Pair, nat>) {
    && Flat(t.shards, shardOf, f)
    && t.count == |f| <= MAX_ACTIVE_IP_ENTRIES
    && AllPositive(f)
  }

  ghost predicate RecentOk(t: Table<Instant>, shardOf: User -> ShardIndex, f: map<Pair, Instant>) {
    && Flat(t.shards, shardOf, f)
    && t.count == |f| <= MAX_RECENT_IP_ENTRIES
  }

  /** No user is listed with nothing to release. */
  ghost predicate NoEmptyUsers(queue: Nested<nat>) {
    forall u :: u in queue ==> queue[u] != map[]
  }

  ghost predicate NoEmptyQueues(ms: seq<Nested<nat>>) {
    forall i :: 0 <= i < |ms| ==> NoEmptyUsers(ms[i])
  }

  lemma NoEmptyUpdate(ms: seq<Nested<nat>>, i: nat, shard: Nested<nat>)
    requires NoEmptyQueues(ms) && i < |ms| && NoEmptyUsers(shard)
    ensures NoEmptyQueues(ms[i := shard])
  {}

  /** The release queue: nothing listed without a release, and the gauge counts the listed pairs. */
  ghost predicate QueueOk(t: Table<nat>, shardOf: User -> ShardIndex, f: map<Pair, nat>) {
    && Flat(t.shards, shardOf, f)
    && t.count == |f|
    && AllPositive(f)
    && NoEmptyQueues(t.shards)
  }

  // ---- Releasing sessions ----

  /** Release of one entry, as one map operation. */
  function ReleaseEntry<K>(f: map<K, nat>, k: K, n: nat): map<K, nat> {
    if k !in f then f else if f[k] > n then f[k := f[k] - n] else f - {k}
  }

  lemma ReleaseEntrySize<K>(f: map<K, nat>, k: K, n: nat)
    ensures |ReleaseEntry(f, k, n)| == if k in f && f[k] <= n then |f| - 1 else |f|
  {
    if k in f {
      SizeRemove(f, k);
    }
  }

  lemma ReleaseEntryUser(f: map<Pair, nat>, p: Pair, n: nat, m: map<IpAddr, nat>)
    requires UserAgrees(f, p.user, m)
    ensures SameElsewhere(f, ReleaseEntry(f, p, n), p.user)
    ensures UserAgrees(ReleaseEntry(f, p, n), p.user, ReleaseEntry(m, p.ip, n))
  {
    assert p == Pair(p.user, p.ip);
    assert p in f <==> p.ip in m;
  }

  /** Subtract `pending` releases from one entry, dropping the entry at zero and a user without entries. */
  method ApplyActiveCleanup(
      ms: seq<Nested<nat>>, shardOf: User -> ShardIndex, ghost f: map<Pair, nat>, p: Pair, pending: nat)
    returns (ms': seq<Nested<nat>>, removed: nat)
    requires Flat(ms, shardOf, f)
    ensures pending == 0 ==> ms' == ms && removed == 0
    ensures pending > 0 ==> Flat(ms', shardOf, ReleaseEntry(f, p, pending))
    ensures pending > 0 ==> removed == |f| - |ReleaseEntry(f, p, pending)|
  {
    if pending == 0 {
      return ms, 0;
    }
    var Pair(user, ip) := p;
    var i, m := shardOf(user), Inner(ms, shardOf, user);
    removed := 0;
    var m' := m;
    if ip in m {
      if m[ip] > pending {
        m' := m[ip := m[ip] - pending];
      } else {
        m' := m - {ip};
        removed := 1;
      }
    }
    ms' := ms[i := if m' == map[] then ms[i] - {user} else ms[i][user := m']];
    ReleaseEntryUser(f, p, pending, m);
    ReleaseEntrySize(f, p, pending);
    PutFlat(ms, shardOf, f, user, m', ms', ReleaseEntry(f, p, pending));
  }

  lemma ReleaseNothing(active: map<Pair, nat>)
    ensures Release(active, map[]) == active
  {}

  lemma ReleaseStep(active: map<Pair, nat>, done: map<Pair, nat>, p: Pair, n: nat)
    requires p !in done
    ensures ReleaseEntry(Release(active, done), p, n) == Release(active, done[p := n])
  {}

  lemma ReleasePositive(active: map<Pair, nat>, taken: map<Pair, nat>)
    requires AllPositive(active)
    ensures AllPositive(Release(active, taken))
  {}

  /** The loop both drains share: apply every taken release and account for the entries it removed. */
  method ApplyReleases(t: Table<nat>, shardOf: User -> ShardIndex, ghost f: map<Pair, nat>, taken: map<Pair, nat>)
    returns (t': Table<nat>)
    requires ActiveOk(t, shardOf, f)
    requires AllPositive(taken)
    ensures ActiveOk(t', shardOf, Release(f, taken))
  {
    var shards := t.shards;
    var removed: nat := 0;
    var todo := taken;
    ghost var done: map<Pair, nat> := map[];
    ReleaseNothing(f);
    SplitStart(taken);
    while todo != map[]
      invariant Flat(shards, shardOf, Release(f, done))
      invariant Split(taken, done, todo)
      invariant removed + |Release(f, done)| == |f|
      decreases |todo|
    {
      var p :| p in todo;
      var n := todo[p];
      var r;
      shards, r := ApplyActiveCleanup(shards, shardOf, Release(f, done), p, n);
      removed := removed + r;
      ReleaseStep(f, done, p, n);
      SplitMove(taken, done, todo, p);
      SizeRemove(todo, p);
      todo := todo - {p};
      done := done[p := n];
    }
    SplitEnd(taken, done);
    ReleasePositive(f, taken);
    t' := Table(shards, SaturatingSub(t.count, removed));
  }

  // ---- The release queue ----

  /** Store one entry under its user. */
  method InsertEntry<T(!new)>(
      ms: seq<Nested<T>>, shardOf: User -> ShardIndex, ghost f: map<Pair, T>, p: Pair, value: T)
    returns (ms': seq<Nested<T>>)
    requires Flat(ms, shardOf, f)
    ensures Flat(ms', shardOf, f[p := value])
    ensures var i := shardOf(p.user); ms' == ms[i := ms[i][p.user := Inner(ms, shardOf, p.user)[p.ip := value]]]
  {
    var i, m := shardOf(p.user), Inner(ms, shardOf, p.user);
    ms' := ms[i := ms[i][p.user := m[p.ip := value]]];
    InsertUser(f, p, value, m);
    PutFlat(ms, shardOf, f, p.user, m[p.ip := value], ms', f[p := value]);
  }

  lemma InsertUser<T(!new)>(f: map<Pair, T>, p: Pair, value: T, m: map<IpAddr, T>)
    requires UserAgrees(f, p.user, m)
    ensures SameElsewhere(f, f[p := value], p.user)
    ensures UserAgrees(f[p := value], p.user, m[p.ip := value])
  {
    assert p == Pair(p.user, p.ip);
  }

  lemma Lookup<T>(ms: seq<Nested<T>>, shardOf: User -> ShardIndex, f: map<Pair, T>, p: Pair)
    requires Flat(ms, shardOf, f)
    ensures p in f <==> p.ip in Inner(ms, shardOf, p.user)
    ensures p in f ==> f[p] == Inner(ms, shardOf, p.user)[p.ip]
  {
    assert UserAgrees(f, p.user, Inner(ms, shardOf, p.user));
    assert p == Pair(p.user, p.ip);
  }

  lemma NoEmptyPush(ms: seq<Nested<nat>>, i: nat, p: Pair, m: map<IpAddr, nat>, n: nat)
    requires NoEmptyQueues(ms) && i < |ms|
    ensures NoEmptyQueues(ms[i := ms[i][p.user := m[p.ip := n]]])
  {
    assert p.ip in m[p.ip := n];
    NoEmptyUpdate(ms, i, ms[i][p.user := m[p.ip := n]]);
  }

  /** Queue one more release of a pair; the gauge grows only when the pair was not listed. */
  method QueuePush(t: Table<nat>, shardOf: User -> ShardIndex, ghost f: map<Pair, nat>, p: Pair)
    returns (t': Table<nat>)
    requires QueueOk(t, shardOf, f)
    ensures QueueOk(t', shardOf, f[p := SessionCount(f, p) + 1])
  {
    var userQueue := Inner(t.shards, shardOf, p.user);
    Lookup(t.shards, shardOf, f, p);
    var n := if p.ip in userQueue then userQueue[p.ip] else 0;
    var shards := InsertEntry(t.shards, shardOf, f, p, n + 1);
    t' := Table(shards, if n == 0 then t.count + 1 else t.count);
    NoEmptyPush(t.shards, shardOf(p.user), p, userQueue, n + 1);
  }

  /** Take one arbitrary pair off shard `i`; it comes back empty-handed only from an empty shard. */
  method PopOneCleanup(t: Table<nat>, shardOf: User -> ShardIndex, ghost f: map<Pair, nat>, i: nat)
    returns (t': Table<nat>, popped: Option<(Pair, nat)>)
    requires QueueOk(t, shardOf, f) && i < USER_IP_TRACKER_SHARDS
    ensures popped.None? ==> t' == t && OnlyShard(f, shardOf, i) == map[]
    ensures popped.Some? ==>
      var (p, n) := popped.value;
      && p in OnlyShard(f, shardOf, i) && n == f[p]
      && QueueOk(t', shardOf, f - {p})
  {
    var ms := t.shards;
    var queue := ms[i];
    if queue == map[] {
      EmptyShard(ms, shardOf, f, i);
      return t, None;
    }
    var u :| u in queue;
    assert NoEmptyUsers(queue);
    var ip :| ip in queue[u];
    var rest := queue[u] - {ip};
    var ms' := ms[i := if rest == map[] then queue - {u} else queue[u := rest]];
    popped := Some((Pair(u, ip), queue[u][ip]));
    NoEmptyUpdate(ms, i, ms'[i]);
    Lookup(ms, shardOf, f, Pair(u, ip));
    RemoveFromUser(f, Pair(u, ip), queue[u]);
    PutFlat(ms, shardOf, f, u, rest, ms', f - {Pair(u, ip)});
    SizeRemove(f, Pair(u, ip));
    t' := Table(ms', t.count - 1);
  }

  lemma RemoveFromUser<T(!new)>(f: map<Pair, T>, p: Pair, m: map<IpAddr, T>)
    requires UserAgrees(f, p.user, m)
    ensures SameElsewhere(f, f - {p}, p.user)
    ensures UserAgrees(f - {p}, p.user, m - {p.ip})
  {
    assert p == Pair(p.user, p.ip);
  }

  /** The part of a flat table that lives in one shard. */
  ghost function OnlyShard<T>(f: map<Pair, T>, shardOf: User -> ShardIndex, i: nat): map<Pair, T> {
    map p | p in f && shardOf(p.user) == i :: f[p]
  }

  lemma EmptyShard<T>(ms: seq<Nested<T>>, shardOf: User -> ShardIndex, f: map<Pair, T>, i: nat)
    requires Flat(ms, shardOf, f) && i < USER_IP_TRACKER_SHARDS && ms[i] == map[]
    ensures OnlyShard(f, shardOf, i) == map[]
  {
    forall p | p in f ensures shardOf(p.user) != i {
      Lookup(ms, shardOf, f, p);
    }
  }

  /** `taken` is one batch of shard `i`: `min(CLEANUP_DRAIN_BATCH_LIMIT, pairs)` of its queued pairs, counts intact. */
  ghost predicate BatchOf(queue: map<Pair, nat>, shardOf: User -> ShardIndex, i: nat, taken: map<Pair, nat>) {
    && Submap(taken, OnlyShard(queue, shardOf, i))
    && |taken| == var n := |OnlyShard(queue, shardOf, i)|;
                  if n < CLEANUP_DRAIN_BATCH_LIMIT then n else CLEANUP_DRAIN_BATCH_LIMIT
  }

  /** Take up to one batch of pairs off shard `i` of the queue, lowering the gauge pair by pair. */
  method QueueTakeBatch(t: Table<nat>, shardOf: User -> ShardIndex, ghost f: map<Pair, nat>, i: nat)
    returns (t': Table<nat>, taken: map<Pair, nat>)
    requires QueueOk(t, shardOf, f) && i < USER_IP_TRACKER_SHARDS
    ensures QueueOk(t', shardOf, f - taken.Keys)
    ensures BatchOf(f, shardOf, i, taken)
    ensures AllPositive(taken)
  {
    t', taken := t, map[];
    ghost var rest := f;
    SplitStart(f);
    for k := 0 to CLEANUP_DRAIN_BATCH_LIMIT
      invariant QueueOk(t', shardOf, rest)
      invariant Split(f, taken, rest)
      invariant forall p :: p in taken ==> shardOf(p.user) == i
      invariant |taken| == k
    {
      var popped;
      t', popped := PopOneCleanup(t', shardOf, rest, i);
      if popped.None? {
        break;
      }
      var (p, n) := popped.value;
      SplitMove(f, taken, rest, p);
      taken, rest := taken[p := n], rest - {p};
    }
    BatchIsExact(f, shardOf, i, taken, rest);
    SplitRest(f, taken, rest);
  }

  lemma ShardSplit(
      queue: map<Pair, nat>, shardOf: User -> ShardIndex, i: nat, taken: map<Pair, nat>, rest: map<Pair, nat>)
    requires Split(queue, taken, rest) && forall p :: p in taken ==> shardOf(p.user) == i
    ensures Split(OnlyShard(queue, shardOf, i), taken, OnlyShard(rest, shardOf, i))
  {
    var whole, left := OnlyShard(queue, shardOf, i), OnlyShard(rest, shardOf, i);
    assert whole.Keys == (taken + left).Keys;
    forall p | p in whole ensures whole[p] == (taken + left)[p] {}
  }

  lemma BatchIsExact(
      queue: map<Pair, nat>, shardOf: User -> ShardIndex, i: nat, taken: map<Pair, nat>, rest: map<Pair, nat>)
    requires Split(queue, taken, rest)
    requires forall p :: p in taken ==> shardOf(p.user) == i
    requires |taken| <= CLEANUP_DRAIN_BATCH_LIMIT
    requires |taken| < CLEANUP_DRAIN_BATCH_LIMIT ==> OnlyShard(rest, shardOf, i) == map[]
    ensures BatchOf(queue, shardOf, i, taken)
  {
    ShardSplit(queue, shardOf, i, taken, rest);
    SplitSize(OnlyShard(queue, shardOf, i), taken, OnlyShard(rest, shardOf, i));
  }

  /** One user's inner map as a piece of the flat table. */
  function Tag<T>(user: User, m: map<IpAddr, T>): map<Pair, T> {
    map p | p in (set ip | ip in m :: Pair(user, ip)) :: m[p.ip]
  }

  lemma TagIsOnlyUser<T>(f: map<Pair, T>, user: User, m: map<IpAddr, T>)
    requires UserAgrees(f, user, m)
    ensures Tag(user, m) == OnlyUser(f, user)
  {}

  /** Forget a user altogether, keeping what the user had. */
  method RemoveUser<T(!new)>(ms: seq<Nested<T>>, shardOf: User -> ShardIndex, ghost f: map<Pair, T>, user: User)
    returns (ms': seq<Nested<T>>, gone: map<IpAddr, T>)
    requires Flat(ms, shardOf, f)
    ensures Flat(ms', shardOf, WithoutUser(f, user))
    ensures UserAgrees(f, user, gone)
    ensures |f| == |WithoutUser(f, user)| + |gone|
    ensures ms' == ms[shardOf(user) := ms[shardOf(user)] - {user}]
  {
    var i := shardOf(user);
    gone := Inner(ms, shardOf, user);
    ms' := ms[i := ms[i] - {user}];
    PutFlat(ms, shardOf, f, user, map[], ms', WithoutUser(f, user));
    SplitByUser(f, user);
    UserSize(f, user, gone);
  }

  lemma WithoutIsRemoval<T>(f: map<Pair, T>, user: User)
    ensures WithoutUser(f, user) == f - OnlyUser(f, user).Keys
  {}

  /** Take everything queued for one user; the gauge drops by the number of pairs. */
  method QueueTakeUser(t: Table<nat>, shardOf: User -> ShardIndex, ghost f: map<Pair, nat>, user: User)
    returns (t': Table<nat>, taken: map<Pair, nat>)
    requires QueueOk(t, shardOf, f)
    ensures QueueOk(t', shardOf, f - taken.Keys)
    ensures taken == OnlyUser(f, user)
    ensures AllPositive(taken)
  {
    var shards, gone := RemoveUser(t.shards, shardOf, f, user);
    t', taken := Table(shards, t.count - |gone|), Tag(user, gone);
    TagIsOnlyUser(f, user, gone);
    WithoutIsRemoval(f, user);
  }

  // ---- Pruning and compaction ----

  /** Keep the entries still inside the window; `pruned` says how many went. */
  method PruneRecent(userRecent: map<IpAddr, Instant>, now: Instant, window: nat)
    returns (kept: map<IpAddr, Instant>, pruned: nat)
    ensures forall ip :: ip in kept ==> ip in userRecent && kept[ip] == userRecent[ip]
    ensures forall ip :: ip in userRecent ==> (ip in kept <==> InWindow(userRecent[ip], now, window))
    ensures pruned + |kept| == |userRecent|
  {
    if userRecent == map[] {
      return userRecent, 0;
    }
    kept := map ip | ip in userRecent && InWindow(userRecent[ip], now, window) :: userRecent[ip];
    assert userRecent.Keys == kept.Keys + (userRecent.Keys - kept.Keys);
    pruned := |userRecent| - |kept|;
  }

  /** Prune one user's entries, creating the user's map when it is missing. */
  method PruneUserIn(
      ms: seq<Nested<Instant>>, shardOf: User -> ShardIndex, ghost f: map<Pair, Instant>, user: User,
      now: Instant, window: nat)
    returns (ms': seq<Nested<Instant>>, pruned: nat)
    requires Flat(ms, shardOf, f)
    ensures Flat(ms', shardOf, PruneUser(f, user, now, window))
    ensures pruned + |PruneUser(f, user, now, window)| == |f|
  {
    var i, m := shardOf(user), Inner(ms, shardOf, user);
    var kept;
    kept, pruned := PruneRecent(m, now, window);
    ms' := ms[i := ms[i][user := kept]];
    PruneUserAgrees(f, user, now, window, m, kept);
    PutFlat(ms, shardOf, f, user, kept, ms', PruneUser(f, user, now, window));
    ReplaceSize(f, PruneUser(f, user, now, window), user, m, kept);
  }

  lemma PruneUserAgrees(
      f: map<Pair, Instant>, user: User, now: Instant, window: nat, m: map<IpAddr, Instant>, kept: map<IpAddr, Instant>)
    requires UserAgrees(f, user, m)
    requires forall ip :: ip in kept ==> ip in m && kept[ip] == m[ip]
    requires forall ip :: ip in m ==> (ip in kept <==> InWindow(m[ip], now, window))
    ensures SameElsewhere(f, PruneUser(f, user, now, window), user)
    ensures UserAgrees(PruneUser(f, user, now, window), user, kept)
  {
    forall p | p in f && p.user == user ensures p.ip in m && f[p] == m[p.ip] {
      assert p == Pair(p.user, p.ip);
    }
  }

  lemma PruneUsersStep(f: map<Pair, Instant>, users: set<User>, todo: set<User>, user: User, now: Instant, window: nat)
    requires user in todo && todo <= users
    ensures PruneUser(PruneUsers(f, users - todo, now, window), user, now, window)
         == PruneUsers(f, users - (todo - {user}), now, window)
  {}

  lemma PruneUsersNone(f: map<Pair, Instant>, users: set<User>, now: Instant, window: nat)
    ensures PruneUsers(f, users - users, now, window) == f
  {}

  /** Prune the users of the shards from `lo` up to but not including `hi`. */
  ghost function PruneShards(
    f: map<Pair, Instant>, shardOf: User -> ShardIndex, lo: nat, hi: nat, now: Instant, window: nat): map<Pair, Instant>
  {
    map p | p in f && (lo <= shardOf(p.user) < hi ==> InWindow(f[p], now, window)) :: f[p]
  }

  lemma UsersOfShard(
      ms: seq<Nested<Instant>>, shardOf: User -> ShardIndex, f: map<Pair, Instant>, i: nat, now: Instant, window: nat)
    requires Flat(ms, shardOf, f) && i < USER_IP_TRACKER_SHARDS
    ensures PruneUsers(f, ms[i].Keys - {}, now, window) == PruneShards(f, shardOf, i, i + 1, now, window)
  {
    forall p | p in f ensures p.user in ms[i].Keys <==> shardOf(p.user) == i {
      Lookup(ms, shardOf, f, p);
    }
  }

  /** Prune every user of shard `i`. */
  method PruneShard(
      ms: seq<Nested<Instant>>, shardOf: User -> ShardIndex, ghost f: map<Pair, Instant>, i: nat,
      now: Instant, window: nat)
    returns (ms': seq<Nested<Instant>>, pruned: nat)
    requires Flat(ms, shardOf, f) && i < USER_IP_TRACKER_SHARDS
    ensures Flat(ms', shardOf, PruneShards(f, shardOf, i, i + 1, now, window))
    ensures pruned + |PruneShards(f, shardOf, i, i + 1, now, window)| == |f|
  {
    ms', pruned := ms, 0;
    var users := ms[i].Keys;
    var todo := users;
    PruneUsersNone(f, users, now, window);
    while todo != {}
      invariant todo <= users
      invariant Flat(ms', shardOf, PruneUsers(f, users - todo, now, window))
      invariant pruned + |PruneUsers(f, users - todo, now, window)| == |f|
      decreases |todo|
    {
      var user :| user in todo;
      var n;
      ms', n := PruneUserIn(ms', shardOf, PruneUsers(f, users - todo, now, window), user, now, window);
      PruneUsersStep(f, users, todo, user, now, window);
      pruned := pruned + n;
      todo := todo - {user};
    }
    UsersOfShard(ms, shardOf, f, i, now, window);
  }

  lemma PruneShardsStep(f: map<Pair, Instant>, shardOf: User -> ShardIndex, i: nat, now: Instant, window: nat)
    ensures PruneShards(PruneShards(f, shardOf, 0, i, now, window), shardOf, i, i + 1, now, window)
         == PruneShards(f, shardOf, 0, i + 1, now, window)
  {}

  lemma PruneShardsNone(f: map<Pair, Instant>, shardOf: User -> ShardIndex, now: Instant, window: nat)
    ensures PruneShards(f, shardOf, 0, 0, now, window) == f
  {}

  lemma PruneShardsAll(f: map<Pair, Instant>, shardOf: User -> ShardIndex, now: Instant, window: nat)
    ensures PruneShards(f, shardOf, 0, USER_IP_TRACKER_SHARDS, now, window) == Prune(f, now, window)
  {}

  /** Forget a user that has nothing left; the flat table does not notice. */
  method Forget<T(!new)>(ms: seq<Nested<T>>, shardOf: User -> ShardIndex, ghost f: map<Pair, T>, user: User)
    returns (ms': seq<Nested<T>>)
    requires Flat(ms, shardOf, f) && Inner(ms, shardOf, user) == map[]
    ensures Flat(ms', shardOf, f)
  {
    var i := shardOf(user);
    ms' := ms[i := ms[i] - {user}];
    assert UserAgrees(f, user, Inner(ms, shardOf, user));
    PutFlat(ms, shardOf, f, user, map[], ms', f);
  }

  /** Drop the users of shard `i` that have neither an active nor a recent entry left. */
  method DropEmptyUsers(
      active: seq<Nested<nat>>, recent: seq<Nested<Instant>>, shardOf: User -> ShardIndex,
      ghost f: map<Pair, nat>, ghost g: map<Pair, Instant>, i: nat)
    returns (active': seq<Nested<nat>>, recent': seq<Nested<Instant>>)
    requires Flat(active, shardOf, f) && Flat(recent, shardOf, g) && i < USER_IP_TRACKER_SHARDS
    ensures Flat(active', shardOf, f) && Flat(recent', shardOf, g)
  {
    active', recent' := active, recent;
    var todo := active[i].Keys + recent[i].Keys;
    while todo != {}
      invariant Flat(active', shardOf, f) && Flat(recent', shardOf, g)
      decreases |todo|
    {
      var user :| user in todo;
      if Inner(active', shardOf, user) == map[] && Inner(recent', shardOf, user) == map[] {
        active' := Forget(active', shardOf, f, user);
        recent' := Forget(recent', shardOf, g, user);
      }
      todo := todo - {user};
    }
  }

  /** The user's map, created empty when it is missing. */
  method EntryOrDefault<T(!new)>(ms: seq<Nested<T>>, shardOf: User -> ShardIndex, ghost f: map<Pair, T>, user: User)
    returns (ms': seq<Nested<T>>)
    requires Flat(ms, shardOf, f)
    ensures Flat(ms', shardOf, f)
  {
    var i, m := shardOf(user), Inner(ms, shardOf, user);
    ms' := ms[i := ms[i][user := m]];
    assert UserAgrees(f, user, m);
    PutFlat(ms, shardOf, f, user, m, ms', f);
  }

  /** Compact shard `i`: prune what left the window, then drop users with nothing left. */
  method CompactShard(
      active: Table<nat>, recent: Table<Instant>, shardOf: User -> ShardIndex,
      ghost f: map<Pair, nat>, ghost g: map<Pair, Instant>, i: nat, now: Instant, window: nat)
    returns (active': Table<nat>, recent': Table<Instant>)
    requires ActiveOk(active, shardOf, f) && RecentOk(recent, shardOf, g) && i < USER_IP_TRACKER_SHARDS
    ensures ActiveOk(active', shardOf, f)
    ensures RecentOk(recent', shardOf, PruneShards(g, shardOf, i, i + 1, now, window))
  {
    ghost var g' := PruneShards(g, shardOf, i, i + 1, now, window);
    var shards, pruned := PruneShard(recent.shards, shardOf, g, i, now, window);
    var a, r := DropEmptyUsers(active.shards, shards, shardOf, f, g', i);
    active', recent' := Table(a, active.count), Table(r, SaturatingSub(recent.count, pruned));
  }

  method CompactShards(
      active: Table<nat>, recent: Table<Instant>, shardOf: User -> ShardIndex,
      ghost f: map<Pair, nat>, ghost g: map<Pair, Instant>, now: Instant, window: nat)
    returns (active': Table<nat>, recent': Table<Instant>)
    requires ActiveOk(active, shardOf, f) && RecentOk(recent, shardOf, g)
    ensures ActiveOk(active', shardOf, f) && RecentOk(recent', shardOf, Prune(g, now, window))
  {
    active', recent' := active, recent;
    PruneShardsNone(g, shardOf, now, window);
    for i := 0 to USER_IP_TRACKER_SHARDS
      invariant ActiveOk(active', shardOf, f)
      invariant RecentOk(recent', shardOf, PruneShards(g, shardOf, 0, i, now, window))
    {
      active', recent' :=
        CompactShard(active', recent', shardOf, f, PruneShards(g, shardOf, 0, i, now, window), i, now, window);
      PruneShardsStep(g, shardOf, i, now, window);
    }
    PruneShardsAll(g, shardOf, now, window);
  }

  // ---- Admission ----

  /** Reserve one entry unless the cap is reached. */
  method TryIncrement(count: nat, cap: nat) returns (ok: bool, count': nat)
    ensures ok <==> count < cap
    ensures count' == if ok then count + 1 else count
  {
    ok := count < cap;
    count' := if ok then count + 1 else count;
  }

  /** Write a session count whose table entry the counter `count` already covers. */
  method StoreSessions(t: Table<nat>, shardOf: User -> ShardIndex, ghost f: map<Pair, nat>, p: Pair, n: nat, count: nat)
    returns (t': Table<nat>)
    requires ActiveOk(t, shardOf, f) && 0 < n
    requires count == (if p in f then t.count else t.count + 1) <= MAX_ACTIVE_IP_ENTRIES
    ensures ActiveOk(t', shardOf, f[p := n])
  {
    var shards := InsertEntry(t.shards, shardOf, f, p, n);
    t' := Table(shards, count);
  }

  method StoreSeen(
      t: Table<Instant>, shardOf: User -> ShardIndex, ghost f: map<Pair, Instant>, p: Pair, now: Instant, count: nat)
    returns (t': Table<Instant>)
    requires RecentOk(t, shardOf, f)
    requires count == (if p in f then t.count else t.count + 1) <= MAX_RECENT_IP_ENTRIES
    ensures RecentOk(t', shardOf, f[p := now])
  {
    var shards := InsertEntry(t.shards, shardOf, f, p, now);
    t' := Table(shards, count);
  }

  /** The tables agree with a state. */
  ghost predicate TablesOk(active: Table<nat>, recent: Table<Instant>, shardOf: User -> ShardIndex, s: State) {
    ActiveOk(active, shardOf, s.active) && RecentOk(recent, shardOf, s.recent)
  }

  /** An address with a live session only needs room for its recent entry. */
  method AdmitKnown(
      active: Table<nat>, recent: Table<Instant>, shardOf: User -> ShardIndex, ghost s: State, p: Pair, now: Instant)
    returns (active': Table<nat>, recent': Table<Instant>, outcome: Outcome)
    requires TablesOk(active, recent, shardOf, s) && p in s.active
    ensures outcome == Decide(s, p.user, p.ip)
    ensures TablesOk(active', recent', shardOf, if outcome.Admitted? then Enter(s, p, now) else s)
  {
    var userActive, userRecent := Inner(active.shards, shardOf, p.user), Inner(recent.shards, shardOf, p.user);
    Lookup(active.shards, shardOf, s.active, p);
    Lookup(recent.shards, shardOf, s.recent, p);
    var recentCount := recent.count;
    if p.ip !in userRecent {
      var ok;
      ok, recentCount := TryIncrement(recent.count, MAX_RECENT_IP_ENTRIES);
      if !ok {
        return active, recent, RecentCapReached;
      }
    }
    active' := StoreSessions(active, shardOf, s.active, p, userActive[p.ip] + 1, active.count);
    recent' := StoreSeen(recent, shardOf, s.recent, p, now, recentCount);
    outcome := Admitted;
  }

  /** The reservations and insertions for an address without a live session. */
  method AdmitNew(
      active: Table<nat>, recent: Table<Instant>, shardOf: User -> ShardIndex, ghost s: State, p: Pair, now: Instant)
    returns (active': Table<nat>, recent': Table<Instant>, outcome: Outcome)
    requires TablesOk(active, recent, shardOf, s) && p !in s.active
    ensures outcome == DecideCaps(s, p)
    ensures TablesOk(active', recent', shardOf, if outcome.Admitted? then Enter(s, p, now) else s)
  {
    var userRecent := Inner(recent.shards, shardOf, p.user);
    Lookup(recent.shards, shardOf, s.recent, p);
    var ok, activeCount := TryIncrement(active.count, MAX_ACTIVE_IP_ENTRIES);
    if !ok {
      return active, recent, ActiveCapReached;
    }
    var recentCount := recent.count;
    if p.ip !in userRecent {
      ok, recentCount := TryIncrement(recent.count, MAX_RECENT_IP_ENTRIES);
      if !ok {
        return active.(count := SaturatingSub(activeCount, 1)), recent, RecentCapReached;
      }
    }
    active' := StoreSessions(active, shardOf, s.active, p, 1, activeCount);
    recent' := StoreSeen(recent, shardOf, s.recent, p, now, recentCount);
    outcome := Admitted;
  }

  /** The decision and, when the address is let in, the two entries it makes. */
  method Admit(
      active: Table<nat>, recent: Table<Instant>, shardOf: User -> ShardIndex, policy: Policy, ghost s: State,
      p: Pair, now: Instant)
    returns (active': Table<nat>, recent': Table<Instant>, outcome: Outcome)
    requires TablesOk(active, recent, shardOf, s) && policy == s.policy
    ensures outcome == Decide(s, p.user, p.ip)
    ensures TablesOk(active', recent', shardOf, if outcome.Admitted? then Enter(s, p, now) else s)
  {
    var userActive, userRecent := Inner(active.shards, shardOf, p.user), Inner(recent.shards, shardOf, p.user);
    Lookup(active.shards, shardOf, s.active, p);
    Lookup(recent.shards, shardOf, s.recent, p);
    if p.ip in userActive {
      active', recent', outcome := AdmitKnown(active, recent, shardOf, s, p, now);
      return;
    }
    UserIpsAre(s.active, p.user, userActive);
    UserIpsAre(s.recent, p.user, userRecent);
    var limit := UserLimit(policy, p.user);
    if limit.Some? && Denied(policy, limit.value, |userActive|, |userRecent|, p.ip !in userRecent) {
      return active, recent, LimitReached(|userActive|, |userRecent|, limit.value, policy.mode);
    }
    active', recent', outcome := AdmitNew(active, recent, shardOf, s, p, now);
  }
}
