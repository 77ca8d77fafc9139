// Sharded nested maps and the flat table they stand for.
module NestedMaps {
  import opened TrackerTypes
  import opened TrackerSpec

  /** Every user sits in the shard chosen for it, so no entry appears twice. */
  ghost predicate Placed<T>(ms: seq<Nested<T>>, shardOf: User -> ShardIndex) {
    && |ms| == USER_IP_TRACKER_SHARDS
    && forall i, u :: 0 <= i < |ms| && u in ms[i] ==> shardOf(u) == i
  }

  function Inner<T>(ms: seq<Nested<T>>, shardOf: User -> ShardIndex, user: User): map<IpAddr, T>
    requires |ms| == USER_IP_TRACKER_SHARDS
  {
    var m := ms[shardOf(user)];
    if user in m then m[user] else map[]
  }

  /** `m` holds exactly the entries `f` has for `user`. */
  ghost predicate UserAgrees<T>(f: map<Pair, T>, user: User, m: map<IpAddr, T>) {
    && (forall ip :: ip in m ==> Pair(user, ip) in f && f[Pair(user, ip)] == m[ip])
    && (forall p :: p in f && p.user == user ==> p.ip in m)
  }

  /** `f` is the flat table of the shards: one entry per (user, address). */
  ghost predicate Flat<T>(ms: seq<Nested<T>>, shardOf: User -> ShardIndex, f: map<Pair, T>) {
    && Placed(ms, shardOf)
    && forall u :: UserAgrees(f, u, Inner(ms, shardOf, u))
  }

  /** The entries of every other user are the same in both tables. */
  ghost predicate SameElsewhere<T(!new)>(f: map<Pair, T>, f': map<Pair, T>, user: User) {
    && (forall p :: p in f && p.user != user ==> p in f' && f'[p] == f[p])
    && (forall p :: p in f' && p.user != user ==> p in f)
  }

  /** One shard with one user's map replaced, or the user forgotten when the new map is empty. */
  ghost predicate Stores<T>(shard: Nested<T>, user: User, m: map<IpAddr, T>, shard': Nested<T>) {
    shard' == shard[user := m] || (m == map[] && shard' == shard - {user})
  }

  ghost predicate Put<T>(
      ms: seq<Nested<T>>, shardOf: User -> ShardIndex, user: User, m: map<IpAddr, T>, ms': seq<Nested<T>>)
  {
    && |ms| == |ms'| == USER_IP_TRACKER_SHARDS
    && Stores(ms[shardOf(user)], user, m, ms'[shardOf(user)])
    && ms' == ms[shardOf(user) := ms'[shardOf(user)]]
  }

  lemma PutInner<T>(ms: seq<Nested<T>>, shardOf: User -> ShardIndex, user: User, m: map<IpAddr, T>, ms': seq<Nested<T>>)
    requires Placed(ms, shardOf) && Put(ms, shardOf, user, m, ms')
    ensures Placed(ms', shardOf)
    ensures Inner(ms', shardOf, user) == m
    ensures forall u :: u != user ==> Inner(ms', shardOf, u) == Inner(ms, shardOf, u)
  {}

  lemma OthersAgree<T(!new)>(f: map<Pair, T>, f': map<Pair, T>, user: User, u: User, m: map<IpAddr, T>)
    requires SameElsewhere(f, f', user) && u != user
    requires UserAgrees(f, u, m)
    ensures UserAgrees(f', u, m)
  {}

  /** Replacing one user's inner map replaces exactly that user's flat entries. */
  lemma PutFlat<T(!new)>(
      ms: seq<Nested<T>>, shardOf: User -> ShardIndex, f: map<Pair, T>, user: User, m: map<IpAddr, T>,
      ms': seq<Nested<T>>, f': map<Pair, T>)
    requires Flat(ms, shardOf, f) && Put(ms, shardOf, user, m, ms')
    requires SameElsewhere(f, f', user) && UserAgrees(f', user, m)
    ensures Flat(ms', shardOf, f')
  {
    PutInner(ms, shardOf, user, m, ms');
    forall u ensures UserAgrees(f', u, Inner(ms', shardOf, u)) {
      if u != user {
        OthersAgree(f, f', user, u, Inner(ms, shardOf, u));
      }
    }
  }

  lemma {:induction false} TagKeys(user: User, ips: set<IpAddr>)
    ensures |set ip | ip in ips :: Pair(user, ip)| == |ips|
  {
    if ips != {} {
      var x :| x in ips;
      TagKeys(user, ips - {x});
      assert (set ip | ip in ips :: Pair(user, ip)) == (set ip | ip in ips - {x} :: Pair(user, ip)) + {Pair(user, x)};
    }
  }

  lemma SplitByUser<T>(f: map<Pair, T>, user: User)
    ensures |f| == |WithoutUser(f, user)| + |OnlyUser(f, user)|
  {
    assert f.Keys == WithoutUser(f, user).Keys + OnlyUser(f, user).Keys;
    assert WithoutUser(f, user).Keys !! OnlyUser(f, user).Keys;
  }

  lemma UserSize<T>(f: map<Pair, T>, user: User, m: map<IpAddr, T>)
    requires UserAgrees(f, user, m)
    ensures |OnlyUser(f, user)| == |m|
  {
    TagKeys(user, m.Keys);
    assert OnlyUser(f, user).Keys == set ip | ip in m.Keys :: Pair(user, ip);
  }

  lemma UserIpsAre<T>(f: map<Pair, T>, user: User, m: map<IpAddr, T>)
    requires UserAgrees(f, user, m)
    ensures UserIps(f, user) == m.Keys
  {
    forall ip | ip in m ensures ip in UserIps(f, user) {
      assert Pair(user, ip) in f;
    }
  }

  lemma SameWithout<T(!new)>(f: map<Pair, T>, f': map<Pair, T>, user: User)
    requires SameElsewhere(f, f', user)
    ensures WithoutUser(f, user) == WithoutUser(f', user)
  {}

  /** Replacing one user's entries changes the size by the difference of that user's map sizes. */
  lemma ReplaceSize<T(!new)>(f: map<Pair, T>, f': map<Pair, T>, user: User, m: map<IpAddr, T>, m': map<IpAddr, T>)
    requires SameElsewhere(f, f', user)
    requires UserAgrees(f, user, m) && UserAgrees(f', user, m')
    ensures |f'| == |f| - |m| + |m'|
  {
    SplitByUser(f, user);
    SplitByUser(f', user);
    SameWithout(f, f', user);
    UserSize(f, user, m);
    UserSize(f', user, m');
  }
}
