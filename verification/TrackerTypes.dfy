// Shared vocabulary of the per-user IP tracker: users, addresses, clocks and constants.
module TrackerTypes {
  type User = string

  datatype IpAddr = V4(bits: nat) | V6(bits: nat)

  datatype Pair = Pair(user: User, ip: IpAddr)

  /** Nanoseconds on the monotone clock. */
  type Instant = nat

  /** Per-user maps: the outer key is the user, the inner one the address. */
  type Nested<T> = map<User, map<IpAddr, T>>

  datatype Mode = ActiveWindow | TimeWindow | Combined

  const CLEANUP_DRAIN_BATCH_LIMIT: nat := 1024
  const MAX_ACTIVE_IP_ENTRIES: nat := 131_072
  const MAX_RECENT_IP_ENTRIES: nat := 262_144
  const USER_IP_TRACKER_SHARDS: nat := 64
  const COMPACT_INTERVAL_SECS: nat := 60
  const NANOS_PER_SEC: nat := 1_000_000_000

  /** `shard_idx` is any function from users to shard numbers. */
  type ShardIndex = i: nat | i < USER_IP_TRACKER_SHARDS
}
