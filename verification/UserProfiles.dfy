// What a mutation means for one user, read off the tables.
module UserProfiles {
  import opened Basics
  import opened TrackerTypes
  import opened ConfigSave
  import opened AccessUsers
  import opened AccessEdits

  /** One user as the rest of the program sees them: enabled unless switched off, unlimited rates as zero. */
  datatype Profile = Profile(
    secret: Option<string>,
    enabled: bool,
    adTag: Option<string>,
    maxTcpConns: Option<nat>,
    expiration: Option<int>,
    dataQuota: Option<nat>,
    rateUp: nat,
    rateDown: nat,
    maxUniqueIps: Option<nat>)

  function Get<T>(m: map<User, T>, u: User): Option<T> {
    if u in m then Some(m[u]) else None
  }

  function ProfileOf(a: Access, u: User): Profile {
    Profile(
      Get(a.users, u),
      u in a.enabled ==> a.enabled[u],
      Get(a.adTags, u),
      Get(a.maxTcpConns, u),
      Get(a.expirations, u),
      Get(a.dataQuota, u),
      if u in a.rateLimits then a.rateLimits[u].up else 0,
      if u in a.rateLimits then a.rateLimits[u].down else 0,
      Get(a.maxUniqueIps, u))
  }

  /** A user who is not configured. */
  const NOBODY := Profile(None, true, None, None, None, None, 0, 0, None)

  /** JSON Merge Patch of one member (RFC 7396): absent keeps it, null removes it, a value replaces it. */
  function Merge<T>(target: Option<T>, p: Patch<T>): Option<T> {
    match p
    case Unchanged => target
    case Remove => None
    case Set(v) => Some(v)
  }

  function MergeProfile(env: Env, x: Profile, p: PatchRequest): Profile {
    x.(secret := if p.secret.Some? then p.secret else x.secret,
       enabled := Merge(Some(x.enabled), p.enabled) != Some(false),
       adTag := Merge(x.adTag, p.adTag),
       maxTcpConns := Merge(x.maxTcpConns, p.maxTcpConns),
       expiration := Merge(x.expiration, PatchTime(env, p.expiration)),
       dataQuota := Merge(x.dataQuota, p.dataQuota),
       rateUp := OrZero(Merge(Some(x.rateUp), p.rateUp)),
       rateDown := OrZero(Merge(Some(x.rateDown), p.rateDown)),
       maxUniqueIps := Merge(x.maxUniqueIps, p.maxUniqueIps))
  }

  function Requested(env: Env, r: CreateRequest, generated: Secret): Profile {
    Profile(Some(if r.secret.Some? then r.secret.value else generated), r.enabled != Some(false),
            r.adTag, r.maxTcpConns,
            OptionTime(env, r.expiration), r.dataQuota, OrZero(r.rateUp), OrZero(r.rateDown), r.maxUniqueIps)
  }

  /** The profile a mutation asks for. */
  function Wanted(env: Env, x: Profile, op: Op): Profile {
    match op
    case Create(r, generated) => Requested(env, r, generated)
    case PatchUser(_, p) => MergeProfile(env, x, p)
    case Rotate(_, secret, generated) => x.(secret := Some(if secret.Some? then secret.value else generated))
    case SetEnabled(_, on) => x.(enabled := on)
    case Delete(_) => NOBODY
  }

  /** No rows are left behind for a user who is not configured. */
  lemma NobodyThere(a: Access, u: User)
    requires Keyed(a) && u !in a.users
    ensures u !in a.enabled && u !in a.adTags && u !in a.maxTcpConns && u !in a.expirations
    ensures u !in a.dataQuota && u !in a.rateLimits && u !in a.maxUniqueIps
    ensures ProfileOf(a, u) == NOBODY
  {
    assert u !in KeysOf(RowsOf(a, UserEnabled));
    assert u !in KeysOf(RowsOf(a, UserAdTags));
    assert u !in KeysOf(RowsOf(a, UserMaxTcpConns));
    assert u !in KeysOf(RowsOf(a, UserExpirations));
    assert u !in KeysOf(RowsOf(a, UserDataQuota));
    assert u !in KeysOf(RowsOf(a, UserRateLimits));
    assert u !in KeysOf(RowsOf(a, UserMaxUniqueIps));
  }

  lemma PatchedProfile(env: Env, a: Access, u: User, p: PatchRequest)
    ensures ProfileOf(PatchedAccess(env, a, u, p), u) == MergeProfile(env, ProfileOf(a, u), p)
  {}

  lemma PatchedOthers(env: Env, a: Access, u: User, p: PatchRequest, other: User)
    requires u != other
    ensures ProfileOf(PatchedAccess(env, a, u, p), other) == ProfileOf(a, other)
  {}

  lemma CreatedOthers(env: Env, a: Access, r: CreateRequest, generated: Secret, other: User)
    requires r.username != other
    ensures ProfileOf(Created(env, a, r, generated), other) == ProfileOf(a, other)
  {}

  /** A mutation leaves every other user alone. */
  lemma EditOthers(env: Env, op: Op, a: Access, other: User)
    requires Edit(env, op, a).Change? && other != UserOf(op)
    ensures ProfileOf(Edit(env, op, a).access, other) == ProfileOf(a, other)
  {
    match op
    case Create(r, generated) => CreatedOthers(env, a, r, generated, other);
    case PatchUser(u, p) => PatchedOthers(env, a, u, p, other);
    case _ =>
  }

  lemma CreatedProfile(env: Env, a: Access, r: CreateRequest, generated: Secret)
    requires Keyed(a) && r.username !in a.users
    ensures ProfileOf(Created(env, a, r, generated), r.username) == Requested(env, r, generated)
  {
    NobodyThere(a, r.username);
  }

  /** A mutation gives its user exactly the profile asked for. */
  lemma EditProfile(env: Env, op: Op, a: Access)
    requires Keyed(a) && Edit(env, op, a).Change?
    ensures var b := Edit(env, op, a).access;
      ProfileOf(b, UserOf(op)) == Wanted(env, ProfileOf(a, UserOf(op)), op)
  {
    match op
    case Create(r, generated) => CreatedProfile(env, a, r, generated);
    case PatchUser(u, p) => PatchedProfile(env, a, u, p);
    case _ =>
  }

  lemma RowsRestored(env: Env, a: Access, r: CreateRequest, generated: Secret, section: AccessSection)
    requires r.username !in a.users && r.username !in KeysOf(RowsOf(a, section))
    ensures RowsOf(Deleted(Created(env, a, r, generated), r.username), section) == RowsOf(a, section)
  {}

  /** Creating a user and deleting them again restores every table. */
  lemma DeleteUndoesCreate(env: Env, a: Access, r: CreateRequest, generated: Secret)
    requires Keyed(a) && r.username !in a.users
    ensures Deleted(Created(env, a, r, generated), r.username) == a
  {
    NobodyThere(a, r.username);
    var u, b := r.username, Created(env, a, r, generated);
    forall section ensures RowsOf(Deleted(b, u), section) == RowsOf(a, section) {
      RowsRestored(env, a, r, generated, section);
    }
    SameRows(Deleted(b, u), a);
  }
}
