// The user mutations of the API: what loading the file gives, what each mutation does to the eight access tables,
// and which of them it writes.
module AccessUsers {
  import opened Basics
  import opened TrackerTypes
  import opened TomlTables
  import opened TomlBlocks
  import opened ConfigSave
  import TrackerSpec

  /** A number in a request, 64 bits wide. */
  type Count = n: nat | n <= 0xFFFF_FFFF_FFFF_FFFF

  /** A field of a merge patch: left out, null, or a value. */
  datatype Patch<+T> = Unchanged | Remove | Set(value: T)

  datatype RateLimit = RateLimit(up: nat, down: nat)

  datatype Access = Access(
    users: map<User, string>,
    enabled: map<User, bool>,
    adTags: map<User, string>,
    maxTcpConns: map<User, nat>,
    expirations: map<User, int>,
    dataQuota: map<User, nat>,
    rateLimits: map<User, RateLimit>,
    maxUniqueIps: map<User, nat>)

  datatype Rows =
    | Texts(texts: map<User, string>)
    | Flags(flags: map<User, bool>)
    | Numbers(numbers: map<User, nat>)
    | Times(times: map<User, int>)
    | Rates(rates: map<User, RateLimit>)

  function RowsOf(a: Access, section: AccessSection): Rows {
    match section
    case Users => Texts(a.users)
    case UserEnabled => Flags(a.enabled)
    case UserAdTags => Texts(a.adTags)
    case UserMaxTcpConns => Numbers(a.maxTcpConns)
    case UserExpirations => Times(a.expirations)
    case UserDataQuota => Numbers(a.dataQuota)
    case UserRateLimits => Rates(a.rateLimits)
    case UserMaxUniqueIps => Numbers(a.maxUniqueIps)
  }

  function KeysOf(rows: Rows): set<User> {
    match rows
    case Texts(m) => m.Keys
    case Flags(m) => m.Keys
    case Numbers(m) => m.Keys
    case Times(m) => m.Keys
    case Rates(m) => m.Keys
  }

  // ---- Names and secrets ----

  const DEFAULT_ACCESS_USER := "default"
  const DEFAULT_ACCESS_SECRET := "00000000000000000000000000000000"
  const MAX_USERNAME_LEN := 64

  predicate IsHexDigit(c: char) {
    '0' <= c <= '9' || 'a' <= c <= 'f' || 'A' <= c <= 'F'
  }

  predicate IsValidSecret(s: string) {
    |s| == 32 && forall c :: c in s ==> IsHexDigit(c)
  }

  /** What the generator returns: sixteen bytes in hexadecimal. */
  type Secret = s: string | IsValidSecret(s) witness DEFAULT_ACCESS_SECRET

  predicate IsNameChar(c: char) {
    '0' <= c <= '9' || 'a' <= c <= 'z' || 'A' <= c <= 'Z' || c == '_' || c == '-' || c == '.'
  }

  predicate IsValidUsername(s: string) {
    0 < |s| <= MAX_USERNAME_LEN && forall c :: c in s ==> IsNameChar(c)
  }

  // ---- Requests ----

  datatype CreateRequest = CreateRequest(
    username: User,
    secret: Option<string>,
    adTag: Option<string>,
    maxTcpConns: Option<Count>,
    expiration: Option<string>,
    dataQuota: Option<Count>,
    rateUp: Option<Count>,
    rateDown: Option<Count>,
    maxUniqueIps: Option<Count>,
    enabled: Option<bool>)

  datatype PatchRequest = PatchRequest(
    secret: Option<string>,
    adTag: Patch<string>,
    maxTcpConns: Patch<Count>,
    expiration: Patch<string>,
    dataQuota: Patch<Count>,
    rateUp: Patch<Count>,
    rateDown: Patch<Count>,
    maxUniqueIps: Patch<Count>,
    enabled: Patch<bool>)

  /** A mutation; `generated` is the secret the generator would give if the request has none. */
  datatype Op =
    | Create(request: CreateRequest, generated: Secret)
    | PatchUser(user: User, patch: PatchRequest)
    | Rotate(user: User, secret: Option<string>, generated: Secret)
    | SetEnabled(user: User, enabled: bool)
    | Delete(user: User)

  datatype Error = BadRequest | RevisionConflict | UserExists | NotFound | LastUserForbidden | Internal

  /**
   * What the API calls and this model leaves open: the TOML writer, which blocks of a file have a say in what a table
   * of the loader holds, the TOML reader of such blocks, date parsing, validation, and the hash of the file.
   */
  datatype Env = Env(
    body: Rows -> Result<string>,
    defines: (string, string) -> bool,
    read: (string, seq<string>) -> Option<Rows>,
    parseTime: string -> Option<int>,
    validate: Access -> bool,
    revision: string -> string)

  // ---- Loading ----

  /** The loader takes the line for the name of a file to put in its place. */
  predicate IsInclude(line: string) {
    var trimmed := Trim(line);
    "include" <= trimmed && var rest := Trim(trimmed[|"include"|..]); rest != "" && rest[0] == '='
  }

  predicate HasInclude(text: string) {
    exists line :: line in Lines(text) && IsInclude(line)
  }

  /** The tables the loader fills, by the header under which TOML finds each. */
  function FieldRows(a: Access, header: string): Option<Rows> {
    if header == "access.users" then Some(Texts(a.users))
    else if header == "access.user_enabled" then Some(Flags(a.enabled))
    else if header == "access.user_ad_tags" then Some(Texts(a.adTags))
    else if header == "access.user_max_tcp_conns" then Some(Numbers(a.maxTcpConns))
    else if header == "access.user_expirations" then Some(Times(a.expirations))
    else if header == "access.user_data_quota" then Some(Numbers(a.dataQuota))
    else if header == "access.user_rate_limits" then Some(Rates(a.rateLimits))
    else if header == "access.user_max_unique_ips" then Some(Numbers(a.maxUniqueIps))
    else None
  }

  /** What the tables hold when nothing in the file says so. */
  function DefaultTables(): Access {
    Access(map[DEFAULT_ACCESS_USER := DEFAULT_ACCESS_SECRET], map[], map[], map[], map[], map[], map[], map[])
  }

  /** The blocks with a say in a table: the one under its header, and whatever else TOML allows to the same effect. */
  function Defining(env: Env, disk: string, header: string): seq<string> {
    Select(Blocks(Lines(disk)), block => env.defines(header, block))
  }

  /** The rows these blocks give; there are none to be had when one of them names a file to include. */
  function Reading(env: Env, header: string, blocks: seq<string>): Option<Rows> {
    if blocks == [] then FieldRows(DefaultTables(), header)
    else if exists block :: block in blocks && HasInclude(block) then None
    else env.read(header, blocks)
  }

  function ReadTable(env: Env, disk: string, header: string): Option<Rows> {
    Reading(env, header, Defining(env, disk, header))
  }

  /** The eight tables, if every one could be read and has rows of its kind. */
  function Gather(read: string -> Option<Rows>): Option<Access> {
    var users, enabled := read("access.users"), read("access.user_enabled");
    var adTags, conns := read("access.user_ad_tags"), read("access.user_max_tcp_conns");
    var expirations, quota := read("access.user_expirations"), read("access.user_data_quota");
    var rates, ips := read("access.user_rate_limits"), read("access.user_max_unique_ips");
    if && users.Some? && users.value.Texts? && enabled.Some? && enabled.value.Flags?
       && adTags.Some? && adTags.value.Texts? && conns.Some? && conns.value.Numbers?
       && expirations.Some? && expirations.value.Times? && quota.Some? && quota.value.Numbers?
       && rates.Some? && rates.value.Rates? && ips.Some? && ips.value.Numbers?
    then Some(Access(users.value.texts, enabled.value.flags, adTags.value.texts, conns.value.numbers,
                     expirations.value.times, quota.value.numbers, rates.value.rates, ips.value.numbers))
    else None
  }

  function Assembled(env: Env, disk: string): Option<Access> {
    Gather(header => ReadTable(env, disk, header))
  }

  predicate SecretsOk(a: Access) {
    forall u :: u in a.users ==> IsValidSecret(a.users[u])
  }

  /** Every rate row limits at least one direction. */
  predicate RatesOk(a: Access) {
    forall u :: u in a.rateLimits ==> a.rateLimits[u] != RateLimit(0, 0)
  }

  /** The tables of the file, if the loader accepts them. */
  function Load(env: Env, disk: string): Option<Access> {
    var a := Assembled(env, disk);
    if a.Some? && RatesOk(a.value) && SecretsOk(a.value) then a else None
  }

  /** The checks a request has to pass before the file is looked at. */
  predicate Acceptable(env: Env, op: Op) {
    match op
    case Create(r, _) =>
      && IsValidUsername(r.username)
      && (r.secret.Some? ==> IsValidSecret(r.secret.value))
      && (r.adTag.Some? ==> IsValidSecret(r.adTag.value))
      && (r.expiration.Some? ==> env.parseTime(r.expiration.value).Some?)
    case PatchUser(_, p) =>
      && (p.secret.Some? ==> IsValidSecret(p.secret.value))
      && (p.adTag.Set? ==> IsValidSecret(p.adTag.value))
      && (p.expiration.Set? ==> env.parseTime(p.expiration.value).Some?)
    case Rotate(_, secret, generated) => IsValidSecret(if secret.Some? then secret.value else generated)
    case SetEnabled(_, _) => true
    case Delete(_) => true
  }

  // ---- Edits ----

  function Put<T>(m: map<User, T>, u: User, v: Option<T>): map<User, T> {
    if v.Some? then m[u := v.value] else m
  }

  function Patched<T>(m: map<User, T>, u: User, p: Patch<T>): map<User, T> {
    match p
    case Unchanged => m
    case Remove => m - {u}
    case Set(v) => m[u := v]
  }

  function OrZero(v: Option<nat>): nat {
    if v.Some? then v.value else 0
  }

  /** The parsed form of an acceptable expiration. */
  function Time(env: Env, text: string): int {
    var t := env.parseTime(text);
    if t.Some? then t.value else 0
  }

  function OptionTime(env: Env, text: Option<string>): Option<int> {
    if text.Some? then Some(Time(env, text.value)) else None
  }

  function PatchTime(env: Env, text: Patch<string>): Patch<int> {
    match text
    case Unchanged => Unchanged
    case Remove => Remove
    case Set(s) => Set(Time(env, s))
  }

  function NumberPatched(n: nat, p: Patch<nat>): nat {
    match p
    case Unchanged => n
    case Remove => 0
    case Set(v) => v
  }

  /** Both directions share one row, which goes away when both are zero. */
  function RatePatched(m: map<User, RateLimit>, u: User, up: Patch<nat>, down: Patch<nat>): map<User, RateLimit> {
    if up.Unchanged? && down.Unchanged? then m else
      var current := if u in m then m[u] else RateLimit(0, 0);
      var next := RateLimit(NumberPatched(current.up, up), NumberPatched(current.down, down));
      if next == RateLimit(0, 0) then m - {u} else m[u := next]
  }

  /** Only disabled users have a row. */
  function EnabledPatched(m: map<User, bool>, u: User, p: Patch<bool>): map<User, bool> {
    match p
    case Unchanged => m
    case Remove => m - {u}
    case Set(on) => if on then m - {u} else m[u := false]
  }

  /** The rate row of a new user: both directions as soon as one is given. */
  function RequestedRate(r: CreateRequest): Option<RateLimit> {
    if r.rateUp.Some? || r.rateDown.Some? then Some(RateLimit(OrZero(r.rateUp), OrZero(r.rateDown))) else None
  }

  function Created(env: Env, a: Access, r: CreateRequest, generated: Secret): Access {
    var u := r.username;
    Access(
      a.users[u := if r.secret.Some? then r.secret.value else generated],
      Put(a.enabled, u, if r.enabled == Some(false) then Some(false) else None),
      Put(a.adTags, u, r.adTag),
      Put(a.maxTcpConns, u, r.maxTcpConns),
      Put(a.expirations, u, OptionTime(env, r.expiration)),
      Put(a.dataQuota, u, r.dataQuota),
      Put(a.rateLimits, u, RequestedRate(r)),
      Put(a.maxUniqueIps, u, r.maxUniqueIps))
  }

  function PatchedAccess(env: Env, a: Access, u: User, p: PatchRequest): Access {
    Access(
      Put(a.users, u, p.secret),
      EnabledPatched(a.enabled, u, p.enabled),
      Patched(a.adTags, u, p.adTag),
      Patched(a.maxTcpConns, u, p.maxTcpConns),
      Patched(a.expirations, u, PatchTime(env, p.expiration)),
      Patched(a.dataQuota, u, p.dataQuota),
      RatePatched(a.rateLimits, u, p.rateUp, p.rateDown),
      Patched(a.maxUniqueIps, u, p.maxUniqueIps))
  }

  function Deleted(a: Access, u: User): Access {
    Access(a.users - {u}, a.enabled - {u}, a.adTags - {u}, a.maxTcpConns - {u}, a.expirations - {u},
           a.dataQuota - {u}, a.rateLimits - {u}, a.maxUniqueIps - {u})
  }

  function When(b: bool, section: AccessSection): seq<AccessSection> {
    if b then [section] else []
  }

  function AllSections(): seq<AccessSection> {
    [Users, UserEnabled, UserAdTags, UserMaxTcpConns, UserExpirations, UserDataQuota, UserRateLimits, UserMaxUniqueIps]
  }

  function CreateTouches(r: CreateRequest): seq<AccessSection> {
    [Users] + When(r.adTag.Some?, UserAdTags) + When(r.maxTcpConns.Some?, UserMaxTcpConns)
    + When(r.expiration.Some?, UserExpirations) + When(r.dataQuota.Some?, UserDataQuota)
    + When(r.rateUp.Some? || r.rateDown.Some?, UserRateLimits)
    + When(r.maxUniqueIps.Some?, UserMaxUniqueIps) + When(r.enabled == Some(false), UserEnabled)
  }

  function PatchTouches(p: PatchRequest): seq<AccessSection> {
    When(p.secret.Some?, Users) + When(!p.adTag.Unchanged?, UserAdTags)
    + When(!p.maxTcpConns.Unchanged?, UserMaxTcpConns) + When(!p.expiration.Unchanged?, UserExpirations)
    + When(!p.dataQuota.Unchanged?, UserDataQuota)
    + When(!p.rateUp.Unchanged? || !p.rateDown.Unchanged?, UserRateLimits)
    + When(!p.maxUniqueIps.Unchanged?, UserMaxUniqueIps) + When(!p.enabled.Unchanged?, UserEnabled)
  }

  /** An edit: the new tables, the sections to write, and what becomes of the tracker's limit for the user. */
  datatype Change = Refused(error: Error) | Change(access: Access, touched: seq<AccessSection>, limit: Patch<nat>)

  function OptionPatch(v: Option<nat>): Patch<nat> {
    if v.Some? then Set(v.value) else Unchanged
  }

  function UserOf(op: Op): User {
    if op.Create? then op.request.username else op.user
  }

  function Edit(env: Env, op: Op, a: Access): Change {
    match op
    case Create(r, generated) =>
      if r.username in a.users then Refused(UserExists)
      else Change(Created(env, a, r, generated), CreateTouches(r), OptionPatch(r.maxUniqueIps))
    case PatchUser(u, p) =>
      if u !in a.users then Refused(NotFound)
      else Change(PatchedAccess(env, a, u, p), PatchTouches(p), p.maxUniqueIps)
    case Rotate(u, secret, generated) =>
      if u !in a.users then Refused(NotFound)
      else Change(a.(users := a.users[u := if secret.Some? then secret.value else generated]), AllSections(), Unchanged)
    case SetEnabled(u, on) =>
      if u !in a.users then Refused(NotFound)
      else Change(a.(enabled := if on then a.enabled - {u} else a.enabled[u := false]), [UserEnabled], Unchanged)
    case Delete(u) =>
      if u !in a.users then Refused(NotFound)
      else if |a.users| <= 1 then Refused(LastUserForbidden)
      else Change(Deleted(a, u), AllSections(), Remove)
  }

  // ---- Calls ----

  /** The text of the configuration file and the tracker. */
  datatype State = State(disk: string, tracker: TrackerSpec.State)

  function ConfigOf(env: Env, a: Access): Config {
    Config(section => env.body(RowsOf(a, section)), section => KeysOf(RowsOf(a, section)) == {})
  }

  /** A call: the mutation, the revision its caller expects, and whether the file can be read and written. */
  datatype Call = Call(op: Op, expected: Option<string>, readable: bool, writable: bool)

  datatype Reply = Done | Failed(error: Error)

  /** The tracker learns the user's new limit, and forgets the addresses of a user who is gone. */
  function Tracked(t: TrackerSpec.State, u: User, limit: Patch<nat>, gone: bool): TrackerSpec.State {
    var t1 := match limit
      case Unchanged => t
      case Remove => TrackerSpec.RemoveUserLimit(t, u)
      case Set(n) => TrackerSpec.SetUserLimit(t, u, n);
    if gone then TrackerSpec.ClearUserIps(t1, u) else t1
  }

  /** The end of every mutation: validate, write, tell the tracker. */
  function Committed(env: Env, s: State, c: Change, u: User, gone: bool, writable: bool): (State, Reply)
    requires c.Change?
  {
    if !env.validate(c.access) then (s, Failed(BadRequest))
    else match Save(s.disk, ConfigOf(env, c.access), c.touched, [])
      case Err(_) => (s, Failed(Internal))
      case Ok(text) =>
        if c.touched != [] && !writable then (s, Failed(Internal))
        else (State(text, Tracked(s.tracker, u, c.limit, gone)), Done)
  }

  /** A mutation of the tables that were loaded. */
  function Applied(env: Env, s: State, call: Call, a: Access): (State, Reply) {
    match Edit(env, call.op, a)
    case Refused(e) => (s, Failed(e))
    case Change(access, touched, limit) =>
      Committed(env, s, Change(access, touched, limit), UserOf(call.op), call.op.Delete?, call.writable)
  }

  function Step(env: Env, s: State, call: Call): (State, Reply) {
    if !Acceptable(env, call.op) then (s, Failed(BadRequest))
    else if !call.readable || Load(env, s.disk).None? then (s, Failed(Internal))
    else if call.expected.Some? && call.expected.value != env.revision(s.disk) then (s, Failed(RevisionConflict))
    else Applied(env, s, call, Load(env, s.disk).value)
  }

  /** The state after the calls, made one after another. */
  function After(env: Env, s: State, calls: seq<Call>): State
    decreases |calls|
  {
    if calls == [] then s else Step(env, After(env, s, calls[..|calls| - 1]), calls[|calls| - 1]).0
  }
}
