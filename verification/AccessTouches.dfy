// Which sections a mutation writes: those it can change, and no more.
module AccessTouches {
  import opened Basics
  import opened TrackerTypes
  import opened ConfigSave
  import opened AccessUsers
  import opened AccessEdits

  /** A number other than the one set. */
  function OtherNumber(p: Patch<nat>): nat {
    if p.Set? then p.value + 1 else 1
  }

  function OtherText(p: Patch<string>): string {
    if p.Set? then p.value + "x" else ""
  }

  function OtherTime(p: Patch<int>): int {
    if p.Set? then p.value + 1 else 0
  }

  /** Tables in which every setting of the user differs from what the patch asks for. */
  function Contrary(env: Env, u: User, p: PatchRequest): Access {
    Access(
      map[u := if p.secret.Some? then p.secret.value + "x" else ""],
      if p.enabled == Set(false) then map[] else map[u := false],
      map[u := OtherText(p.adTag)],
      map[u := OtherNumber(p.maxTcpConns)],
      map[u := OtherTime(PatchTime(env, p.expiration))],
      map[u := OtherNumber(p.dataQuota)],
      map[u := RateLimit(OtherNumber(p.rateUp), OtherNumber(p.rateDown))],
      map[u := OtherNumber(p.maxUniqueIps)])
  }

  lemma PatchedDiffers<T>(m: map<User, T>, u: User, p: Patch<T>)
    requires u in m && !p.Unchanged? && (p.Set? ==> p.value != m[u])
    ensures Patched(m, u, p) != m
  {
    if p.Set? {
      assert Patched(m, u, p)[u] != m[u];
    } else {
      assert u !in Patched(m, u, p);
    }
  }

  lemma TextDiffers(m: map<User, string>, u: User, s: string)
    requires u in m && m[u] == s + "x"
    ensures m[u := s] != m
  {
    assert |m[u := s][u]| != |m[u]|;
  }

  lemma RateDiffers(m: map<User, RateLimit>, u: User, up: Patch<nat>, down: Patch<nat>)
    requires u in m && m[u] == RateLimit(OtherNumber(up), OtherNumber(down)) && !(up.Unchanged? && down.Unchanged?)
    ensures RatePatched(m, u, up, down) != m
  {
    var next := RatePatched(m, u, up, down);
    assert u !in next || next[u] != m[u];
  }

  lemma EnabledDiffers(u: User, p: Patch<bool>)
    requires !p.Unchanged?
    ensures var m := if p == Set(false) then map[] else map[u := false];
      EnabledPatched(m, u, p) != m
  {
    var m: map<User, bool> := if p == Set(false) then map[] else map[u := false];
    assert u in EnabledPatched(m, u, p) <==> u !in m;
  }

  /** Which sections are listed, as eight flags. */
  datatype Mentions = Mentions(
    users: bool, tags: bool, conns: bool, times: bool, quotas: bool, rates: bool, ips: bool, enabled: bool)

  function Listed(f: Mentions): seq<AccessSection> {
    When(f.users, Users) + When(f.tags, UserAdTags) + When(f.conns, UserMaxTcpConns) + When(f.times, UserExpirations)
    + When(f.quotas, UserDataQuota) + When(f.rates, UserRateLimits) + When(f.ips, UserMaxUniqueIps)
    + When(f.enabled, UserEnabled)
  }

  predicate Flagged(f: Mentions, section: AccessSection) {
    match section
    case Users => f.users
    case UserEnabled => f.enabled
    case UserAdTags => f.tags
    case UserMaxTcpConns => f.conns
    case UserExpirations => f.times
    case UserDataQuota => f.quotas
    case UserRateLimits => f.rates
    case UserMaxUniqueIps => f.ips
  }

  lemma OneMoreSection(front: seq<AccessSection>, b: bool, last: AccessSection, section: AccessSection)
    ensures section in front + When(b, last) <==> section in front || (b && section == last)
  {}

  lemma ListedIff(f: Mentions, section: AccessSection)
    ensures section in Listed(f) <==> Flagged(f, section)
  {
    var tags := When(f.users, Users) + When(f.tags, UserAdTags);
    var conns := tags + When(f.conns, UserMaxTcpConns);
    var times := conns + When(f.times, UserExpirations);
    var quotas := times + When(f.quotas, UserDataQuota);
    var rates := quotas + When(f.rates, UserRateLimits);
    var ips := rates + When(f.ips, UserMaxUniqueIps);
    OneMoreSection(When(f.users, Users), f.tags, UserAdTags, section);
    OneMoreSection(tags, f.conns, UserMaxTcpConns, section);
    OneMoreSection(conns, f.times, UserExpirations, section);
    OneMoreSection(times, f.quotas, UserDataQuota, section);
    OneMoreSection(quotas, f.rates, UserRateLimits, section);
    OneMoreSection(rates, f.ips, UserMaxUniqueIps, section);
    OneMoreSection(ips, f.enabled, UserEnabled, section);
  }

  function PatchFlags(p: PatchRequest): Mentions {
    Mentions(p.secret.Some?, !p.adTag.Unchanged?, !p.maxTcpConns.Unchanged?, !p.expiration.Unchanged?,
          !p.dataQuota.Unchanged?, !p.rateUp.Unchanged? || !p.rateDown.Unchanged?, !p.maxUniqueIps.Unchanged?,
          !p.enabled.Unchanged?)
  }

  lemma PatchMentions(p: PatchRequest, section: AccessSection)
    ensures section in PatchTouches(p) <==> Flagged(PatchFlags(p), section)
  {
    ListedIff(PatchFlags(p), section);
  }

  function CreateFlags(r: CreateRequest): Mentions {
    Mentions(true, r.adTag.Some?, r.maxTcpConns.Some?, r.expiration.Some?, r.dataQuota.Some?,
          r.rateUp.Some? || r.rateDown.Some?, r.maxUniqueIps.Some?, r.enabled == Some(false))
  }

  lemma CreateMentions(r: CreateRequest, section: AccessSection)
    ensures section in CreateTouches(r) <==> Flagged(CreateFlags(r), section)
  {
    ListedIff(CreateFlags(r), section);
  }

  /** Every section a patch writes would be changed by it in some tables. */
  lemma PatchWritesNoMore(env: Env, u: User, p: PatchRequest, section: AccessSection)
    requires section in PatchTouches(p)
    ensures RowsOf(PatchedAccess(env, Contrary(env, u, p), u, p), section) != RowsOf(Contrary(env, u, p), section)
  {
    var a := Contrary(env, u, p);
    PatchMentions(p, section);
    match section
    case Users => TextDiffers(a.users, u, p.secret.value);
    case UserEnabled => EnabledDiffers(u, p.enabled);
    case UserAdTags => TagDiffers(a.adTags, u, p.adTag);
    case UserMaxTcpConns => PatchedDiffers(a.maxTcpConns, u, p.maxTcpConns);
    case UserExpirations => PatchedDiffers(a.expirations, u, PatchTime(env, p.expiration));
    case UserDataQuota => PatchedDiffers(a.dataQuota, u, p.dataQuota);
    case UserRateLimits => RateDiffers(a.rateLimits, u, p.rateUp, p.rateDown);
    case UserMaxUniqueIps => PatchedDiffers(a.maxUniqueIps, u, p.maxUniqueIps);
  }

  lemma TagDiffers(m: map<User, string>, u: User, p: Patch<string>)
    requires u in m && m[u] == OtherText(p) && !p.Unchanged?
    ensures Patched(m, u, p) != m
  {
    if p.Set? {
      TextDiffers(m, u, p.value);
    } else {
      PatchedDiffers(m, u, p);
    }
  }

  const NO_USERS := Access(map[], map[], map[], map[], map[], map[], map[], map[])

  /** Every section a create writes gets a row. */
  lemma CreateWritesNoMore(env: Env, r: CreateRequest, generated: Secret, section: AccessSection)
    requires section in CreateTouches(r)
    ensures r.username in KeysOf(RowsOf(Created(env, NO_USERS, r, generated), section))
    ensures r.username !in KeysOf(RowsOf(NO_USERS, section))
  {
    CreateMentions(r, section);
  }

  /** Tables that the mutation changes in this section. */
  ghost predicate Changes(env: Env, op: Op, a: Access, section: AccessSection) {
    Edit(env, op, a).Change? && RowsOf(Edit(env, op, a).access, section) != RowsOf(a, section)
  }

  /** The sections to write do not depend on the tables. */
  function Touches(op: Op): seq<AccessSection> {
    match op
    case Create(r, _) => CreateTouches(r)
    case PatchUser(_, p) => PatchTouches(p)
    case SetEnabled(_, _) => [UserEnabled]
    case _ => AllSections()
  }

  lemma TouchedIs(env: Env, op: Op, a: Access)
    requires Edit(env, op, a).Change?
    ensures Edit(env, op, a).touched == Touches(op)
  {}

  lemma CanChange(env: Env, op: Op, section: AccessSection) returns (a: Access)
    requires section in Touches(op) && !op.Rotate? && !op.Delete?
    ensures Changes(env, op, a, section)
  {
    match op
    case Create(r, generated) =>
      a := NO_USERS;
      CreateWritesNoMore(env, r, generated, section);
    case PatchUser(u, p) =>
      a := Contrary(env, u, p);
      PatchWritesNoMore(env, u, p, section);
    case SetEnabled(u, on) =>
      a := NO_USERS.(users := map[u := ""], enabled := if on then map[u := false] else map[]);
      assert u in Edit(env, op, a).access.enabled <==> u !in a.enabled;
  }

  /** Creating, patching and switching write exactly the sections that the request changes in some tables. */
  lemma TouchesExactly(env: Env, op: Op, section: AccessSection)
    requires !op.Rotate? && !op.Delete?
    ensures section in Touches(op) <==> exists a :: Changes(env, op, a, section)
  {
    if section in Touches(op) {
      var a := CanChange(env, op, section);
    }
    if a :| Changes(env, op, a, section) {
      EditTouchesChanges(env, op, a, section);
      TouchedIs(env, op, a);
    }
  }
}
