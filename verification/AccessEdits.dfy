// What the mutations do to the tables, all of them together.
module AccessEdits {
  import opened Basics
  import opened TrackerTypes
  import opened ConfigSave
  import opened AccessUsers

  /** There is a user, and every row belongs to one. */
  ghost predicate Keyed(a: Access) {
    && |a.users| >= 1
    && forall section: AccessSection :: KeysOf(RowsOf(a, section)) <= a.users.Keys
  }

  lemma RemoveOne<T>(m: map<User, T>, u: User)
    requires u in m
    ensures |m - {u}| == |m| - 1
  {
    assert (m - {u}).Keys == m.Keys - {u};
  }

  lemma DeleteKeys(a: Access, u: User, section: AccessSection)
    ensures KeysOf(RowsOf(Deleted(a, u), section)) == KeysOf(RowsOf(a, section)) - {u}
  {}

  /** The other edits add rows for their own user only. */
  lemma EditKeys(env: Env, op: Op, a: Access, section: AccessSection)
    requires Edit(env, op, a).Change? && !op.Delete?
    ensures KeysOf(RowsOf(Edit(env, op, a).access, section)) <= KeysOf(RowsOf(a, section)) + {UserOf(op)}
  {
    match op
    case PatchUser(u, p) => PatchedKeys(env, u, p, a, section);
    case _ =>
  }

  lemma PatchedKeys(env: Env, u: User, p: PatchRequest, a: Access, section: AccessSection)
    ensures KeysOf(RowsOf(PatchedAccess(env, a, u, p), section)) <= KeysOf(RowsOf(a, section)) + {u}
  {}

  lemma EditUsers(env: Env, op: Op, a: Access)
    requires Edit(env, op, a).Change?
    ensures Edit(env, op, a).access.users.Keys
      == if op.Delete? then a.users.Keys - {op.user} else a.users.Keys + {UserOf(op)}
  {}

  lemma EditKeepsKeyed(env: Env, op: Op, a: Access)
    requires Keyed(a) && Edit(env, op, a).Change?
    ensures Keyed(Edit(env, op, a).access)
  {
    var b := Edit(env, op, a).access;
    EditUsers(env, op, a);
    forall section ensures KeysOf(RowsOf(b, section)) <= b.users.Keys {
      assert KeysOf(RowsOf(a, section)) <= a.users.Keys;
      if op.Delete? {
        DeleteKeys(a, op.user, section);
      } else {
        EditKeys(env, op, a, section);
      }
    }
    if op.Delete? {
      RemoveOne(a.users, op.user);
    } else {
      assert UserOf(op) in b.users.Keys;
    }
  }

  /** Only users who are switched off have a row that says so. */
  predicate OnlyDisabled(a: Access) {
    forall u :: u in a.enabled ==> !a.enabled[u]
  }

  /** Every mutation keeps it so, and leaves its own user without a row that says nothing, whatever there was before. */
  lemma EditDisables(env: Env, op: Op, a: Access)
    requires Edit(env, op, a).Change?
    ensures var b := Edit(env, op, a).access;
      && (OnlyDisabled(a) ==> OnlyDisabled(b))
      && (op.SetEnabled? || (op.PatchUser? && !op.patch.enabled.Unchanged?) ==>
            UserOf(op) in b.enabled ==> !b.enabled[UserOf(op)])
  {}

  /** An edit names every section it changes. */
  lemma EditTouchesChanges(env: Env, op: Op, a: Access, section: AccessSection)
    requires Edit(env, op, a).Change?
    requires RowsOf(Edit(env, op, a).access, section) != RowsOf(a, section)
    ensures section in Edit(env, op, a).touched
  {
    assert section in AllSections();
  }

  lemma EditLimit(env: Env, op: Op, a: Access)
    requires Edit(env, op, a).Change?
    ensures Edit(env, op, a).access.maxUniqueIps == Patched(a.maxUniqueIps, UserOf(op), Edit(env, op, a).limit)
  {}

  /** A mutation that goes through leaves a user, whatever the tables were before. */
  lemma EditLeavesUser(env: Env, op: Op, a: Access)
    requires Edit(env, op, a).Change?
    ensures Edit(env, op, a).access.users != map[]
  {
    EditUsers(env, op, a);
    if op.Delete? {
      RemoveOne(a.users, op.user);
    } else {
      assert UserOf(op) in Edit(env, op, a).access.users;
    }
  }

  lemma SameRows(a: Access, b: Access)
    requires forall section :: RowsOf(a, section) == RowsOf(b, section)
    ensures a == b
  {
    assert RowsOf(a, Users) == RowsOf(b, Users);
    assert RowsOf(a, UserEnabled) == RowsOf(b, UserEnabled);
    assert RowsOf(a, UserAdTags) == RowsOf(b, UserAdTags);
    assert RowsOf(a, UserMaxTcpConns) == RowsOf(b, UserMaxTcpConns);
    assert RowsOf(a, UserExpirations) == RowsOf(b, UserExpirations);
    assert RowsOf(a, UserDataQuota) == RowsOf(b, UserDataQuota);
    assert RowsOf(a, UserRateLimits) == RowsOf(b, UserRateLimits);
    assert RowsOf(a, UserMaxUniqueIps) == RowsOf(b, UserMaxUniqueIps);
  }

  // ---- Patches ----

  /** The later patch, where it says something. */
  function Then<T>(p: Patch<T>, q: Patch<T>): Patch<T> {
    if q.Unchanged? then p else q
  }

  function ThenAll(p: PatchRequest, q: PatchRequest): PatchRequest {
    PatchRequest(if q.secret.Some? then q.secret else p.secret,
                 Then(p.adTag, q.adTag), Then(p.maxTcpConns, q.maxTcpConns),
                 Then(p.expiration, q.expiration), Then(p.dataQuota, q.dataQuota), Then(p.rateUp, q.rateUp),
                 Then(p.rateDown, q.rateDown), Then(p.maxUniqueIps, q.maxUniqueIps), Then(p.enabled, q.enabled))
  }

  lemma PatchedTwice<T>(m: map<User, T>, u: User, p: Patch<T>, q: Patch<T>)
    ensures Patched(Patched(m, u, p), u, q) == Patched(m, u, Then(p, q))
  {}

  lemma PutTwice<T>(m: map<User, T>, u: User, p: Option<T>, q: Option<T>)
    ensures Put(Put(m, u, p), u, q) == Put(m, u, if q.Some? then q else p)
  {}

  lemma EnabledTwice(m: map<User, bool>, u: User, p: Patch<bool>, q: Patch<bool>)
    ensures EnabledPatched(EnabledPatched(m, u, p), u, q) == EnabledPatched(m, u, Then(p, q))
  {}

  lemma RateTwice(
      m: map<User, RateLimit>, u: User, up: Patch<nat>, down: Patch<nat>, up2: Patch<nat>, down2: Patch<nat>)
    ensures RatePatched(RatePatched(m, u, up, down), u, up2, down2)
      == RatePatched(m, u, Then(up, up2), Then(down, down2))
  {}

  lemma TimeTwice(env: Env, p: Patch<string>, q: Patch<string>)
    ensures PatchTime(env, Then(p, q)) == Then(PatchTime(env, p), PatchTime(env, q))
  {}

  /** One patch after another is the patch that takes each field from the later one that sets it. */
  lemma PatchesCompose(env: Env, a: Access, u: User, p: PatchRequest, q: PatchRequest)
    ensures PatchedAccess(env, PatchedAccess(env, a, u, p), u, q) == PatchedAccess(env, a, u, ThenAll(p, q))
  {
    PutTwice(a.users, u, p.secret, q.secret);
    EnabledTwice(a.enabled, u, p.enabled, q.enabled);
    PatchedTwice(a.adTags, u, p.adTag, q.adTag);
    PatchedTwice(a.maxTcpConns, u, p.maxTcpConns, q.maxTcpConns);
    PatchedTwice(a.expirations, u, PatchTime(env, p.expiration), PatchTime(env, q.expiration));
    TimeTwice(env, p.expiration, q.expiration);
    PatchedTwice(a.dataQuota, u, p.dataQuota, q.dataQuota);
    RateTwice(a.rateLimits, u, p.rateUp, p.rateDown, q.rateUp, q.rateDown);
    PatchedTwice(a.maxUniqueIps, u, p.maxUniqueIps, q.maxUniqueIps);
  }

  /** Patching again with the same patch changes nothing. */
  lemma PatchTwiceIsOnce(env: Env, a: Access, u: User, p: PatchRequest)
    ensures PatchedAccess(env, PatchedAccess(env, a, u, p), u, p) == PatchedAccess(env, a, u, p)
  {
    PatchesCompose(env, a, u, p, p);
    assert ThenAll(p, p) == p;
  }
}
