// The mutations as the API runs them: load, check, edit row by row, write the touched sections, tell the tracker.
module UserStore {
  import opened Basics
  import opened TrackerTypes
  import opened ConfigSave
  import opened AccessUsers
  import opened Tracker

  // ---- Row by row ----

  method InsertRow<T>(rows: map<User, T>, u: User, value: Option<T>) returns (r: map<User, T>)
    ensures r == Put(rows, u, value)
  {
    r := rows;
    if value.Some? {
      r := r[u := value.value];
    }
  }

  method PatchRow<T>(rows: map<User, T>, u: User, p: Patch<T>) returns (r: map<User, T>)
    ensures r == Patched(rows, u, p)
  {
    r := rows;
    match p {
      case Unchanged =>
      case Remove => r := r - {u};
      case Set(value) => r := r[u := value];
    }
  }

  /** One number of the rate row. */
  method PatchNumber(n: nat, p: Patch<nat>) returns (r: nat)
    ensures r == NumberPatched(n, p)
  {
    r := n;
    match p {
      case Unchanged =>
      case Remove => r := 0;
      case Set(value) => r := value;
    }
  }

  method PatchRate(rows: map<User, RateLimit>, u: User, up: Patch<nat>, down: Patch<nat>)
    returns (r: map<User, RateLimit>)
    ensures r == RatePatched(rows, u, up, down)
  {
    r := rows;
    if !up.Unchanged? || !down.Unchanged? {
      var limit := RateLimit(0, 0);
      if u in r {
        limit := r[u];
      }
      var upBps := PatchNumber(limit.up, up);
      var downBps := PatchNumber(limit.down, down);
      if upBps == 0 && downBps == 0 {
        r := r - {u};
      } else {
        r := r[u := RateLimit(upBps, downBps)];
      }
    }
  }

  method PatchEnabled(rows: map<User, bool>, u: User, p: Patch<bool>) returns (r: map<User, bool>)
    ensures r == EnabledPatched(rows, u, p)
  {
    r := rows;
    match p {
      case Unchanged =>
      case Remove => r := r - {u};
      case Set(on) =>
        if on {
          r := r - {u};
        } else {
          r := r[u := false];
        }
    }
  }

  method Push(touched: seq<AccessSection>, touches: bool, section: AccessSection) returns (r: seq<AccessSection>)
    ensures r == touched + When(touches, section)
  {
    r := touched;
    if touches {
      r := r + [section];
    }
  }

  /** The rows of a new user, only for what the request gives. */
  method InsertUser(env: Env, loaded: Access, r: CreateRequest, generated: Secret) returns (cfg: Access)
    ensures cfg == Created(env, loaded, r, generated)
  {
    cfg := loaded;
    var u := r.username;
    var secret := if r.secret.Some? then r.secret.value else generated;
    var users := InsertRow(cfg.users, u, Some(secret));
    cfg := cfg.(users := users);
    var adTags := InsertRow(cfg.adTags, u, r.adTag);
    cfg := cfg.(adTags := adTags);
    var conns := InsertRow(cfg.maxTcpConns, u, r.maxTcpConns);
    cfg := cfg.(maxTcpConns := conns);
    var expirations := InsertRow(cfg.expirations, u, OptionTime(env, r.expiration));
    cfg := cfg.(expirations := expirations);
    var quota := InsertRow(cfg.dataQuota, u, r.dataQuota);
    cfg := cfg.(dataQuota := quota);
    var rates := InsertRow(cfg.rateLimits, u, RequestedRate(r));
    cfg := cfg.(rateLimits := rates);
    var ips := InsertRow(cfg.maxUniqueIps, u, r.maxUniqueIps);
    cfg := cfg.(maxUniqueIps := ips);
    var enabled := InsertRow(cfg.enabled, u, if r.enabled == Some(false) then Some(false) else None);
    cfg := cfg.(enabled := enabled);
  }

  method SectionsOfCreate(r: CreateRequest) returns (touched: seq<AccessSection>)
    ensures touched == CreateTouches(r)
  {
    touched := [Users];
    touched := Push(touched, r.adTag.Some?, UserAdTags);
    touched := Push(touched, r.maxTcpConns.Some?, UserMaxTcpConns);
    touched := Push(touched, r.expiration.Some?, UserExpirations);
    touched := Push(touched, r.dataQuota.Some?, UserDataQuota);
    touched := Push(touched, r.rateUp.Some? || r.rateDown.Some?, UserRateLimits);
    touched := Push(touched, r.maxUniqueIps.Some?, UserMaxUniqueIps);
    touched := Push(touched, r.enabled == Some(false), UserEnabled);
  }

  method PatchTables(env: Env, loaded: Access, u: User, p: PatchRequest) returns (cfg: Access)
    ensures cfg == PatchedAccess(env, loaded, u, p)
  {
    cfg := loaded;
    var users := InsertRow(cfg.users, u, p.secret);
    cfg := cfg.(users := users);
    var adTags := PatchRow(cfg.adTags, u, p.adTag);
    cfg := cfg.(adTags := adTags);
    var conns := PatchRow(cfg.maxTcpConns, u, p.maxTcpConns);
    cfg := cfg.(maxTcpConns := conns);
    var expirations := PatchRow(cfg.expirations, u, PatchTime(env, p.expiration));
    cfg := cfg.(expirations := expirations);
    var quota := PatchRow(cfg.dataQuota, u, p.dataQuota);
    cfg := cfg.(dataQuota := quota);
    var rates := PatchRate(cfg.rateLimits, u, p.rateUp, p.rateDown);
    cfg := cfg.(rateLimits := rates);
    var ips := PatchRow(cfg.maxUniqueIps, u, p.maxUniqueIps);
    cfg := cfg.(maxUniqueIps := ips);
    var enabled := PatchEnabled(cfg.enabled, u, p.enabled);
    cfg := cfg.(enabled := enabled);
  }

  method SectionsOfPatch(p: PatchRequest) returns (touched: seq<AccessSection>)
    ensures touched == PatchTouches(p)
  {
    touched := Push([], p.secret.Some?, Users);
    assert touched == When(p.secret.Some?, Users);
    touched := Push(touched, !p.adTag.Unchanged?, UserAdTags);
    touched := Push(touched, !p.maxTcpConns.Unchanged?, UserMaxTcpConns);
    touched := Push(touched, !p.expiration.Unchanged?, UserExpirations);
    touched := Push(touched, !p.dataQuota.Unchanged?, UserDataQuota);
    touched := Push(touched, !p.rateUp.Unchanged? || !p.rateDown.Unchanged?, UserRateLimits);
    touched := Push(touched, !p.maxUniqueIps.Unchanged?, UserMaxUniqueIps);
    touched := Push(touched, !p.enabled.Unchanged?, UserEnabled);
  }

  // ---- The calls ----

  class UserStore {
    const env: Env
    var disk: string
    const tracker: UserIpTracker

    ghost predicate Valid()
      reads this, tracker
    {
      tracker.Valid()
    }

    ghost function Now(): State
      reads this, tracker
    {
      State(disk, tracker.state)
    }

    constructor (env: Env, disk: string, tracker: UserIpTracker)
      requires tracker.Valid()
      ensures Valid() && this.env == env && this.tracker == tracker && Now() == State(disk, tracker.state)
    {
      this.env := env;
      this.disk := disk;
      this.tracker := tracker;
    }

    /** Validates and writes the touched sections; the tracker is not touched yet. */
    method Persist(cfg: Access, touched: seq<AccessSection>, writable: bool) returns (reply: Reply)
      requires Valid()
      modifies this`disk
      ensures (disk, reply)
        == if !env.validate(cfg) then (old(disk), Failed(BadRequest))
           else match Save(old(disk), ConfigOf(env, cfg), touched, [])
             case Err(_) => (old(disk), Failed(Internal))
             case Ok(text) =>
               if touched != [] && !writable then (old(disk), Failed(Internal)) else (text, Done)
    {
      if !env.validate(cfg) {
        return Failed(BadRequest);
      }
      if touched != [] {
        var saved := SaveAccessSections(disk, ConfigOf(env, cfg), touched);
        if saved.Err? || !writable {
          return Failed(Internal);
        }
        disk := saved.value;
      }
      return Done;
    }

    method UpdateLimit(user: User, limit: Patch<nat>)
      requires Valid()
      modifies tracker
      ensures Valid() && tracker.state == Tracked(old(tracker.state), user, limit, false)
    {
      match limit {
        case Unchanged =>
        case Remove => tracker.RemoveUserLimit(user);
        case Set(n) => tracker.SetUserLimit(user, n);
      }
    }

    /** The end of every mutation; a user who is gone is also forgotten by the tracker. */
    method Commit(cfg: Access, touched: seq<AccessSection>, user: User, limit: Patch<nat>, gone: bool, writable: bool)
      returns (reply: Reply)
      requires Valid()
      modifies this`disk, tracker
      ensures Valid()
      ensures (Now(), reply) == Committed(env, old(Now()), Change(cfg, touched, limit), user, gone, writable)
    {
      reply := Persist(cfg, touched, writable);
      if reply.Done? {
        UpdateLimit(user, limit);
        if gone {
          tracker.ClearUserIps(user);
        }
      }
    }

    /** What every mutation does between taking the lock and looking at the tables. */
    method Open(ghost op: Op, expected: Option<string>, readable: bool, ghost writable: bool)
      returns (reply: Reply, cfg: Option<Access>)
      requires Acceptable(env, op)
      ensures var call := Call(op, expected, readable, writable);
        if reply.Done? then cfg.Some? && Step(env, Now(), call) == Applied(env, Now(), call, cfg.value)
        else Step(env, Now(), call) == (Now(), reply)
    {
      cfg := if readable then Load(env, disk) else None;
      if cfg.None? {
        return Failed(Internal), cfg;
      }
      if expected.Some? && env.revision(disk) != expected.value {
        return Failed(RevisionConflict), cfg;
      }
      return Done, cfg;
    }

    method CreateUser(r: CreateRequest, generated: Secret, expected: Option<string>, readable: bool, writable: bool)
      returns (reply: Reply)
      requires Valid()
      modifies this`disk, tracker
      ensures Valid()
      ensures (Now(), reply) == Step(env, old(Now()), Call(Create(r, generated), expected, readable, writable))
    {
      if !Acceptable(env, Create(r, generated)) {
        return Failed(BadRequest);
      }
      var loaded;
      reply, loaded := Open(Create(r, generated), expected, readable, writable);
      if reply.Failed? {
        return;
      }
      if r.username in loaded.value.users {
        return Failed(UserExists);
      }
      var cfg := InsertUser(env, loaded.value, r, generated);
      var touched := SectionsOfCreate(r);
      reply := Commit(cfg, touched, r.username, OptionPatch(r.maxUniqueIps), false, writable);
    }

    method PatchUser(user: User, p: PatchRequest, expected: Option<string>, readable: bool, writable: bool)
      returns (reply: Reply)
      requires Valid()
      modifies this`disk, tracker
      ensures Valid()
      ensures (Now(), reply) == Step(env, old(Now()), Call(Op.PatchUser(user, p), expected, readable, writable))
    {
      if !Acceptable(env, Op.PatchUser(user, p)) {
        return Failed(BadRequest);
      }
      var loaded;
      reply, loaded := Open(Op.PatchUser(user, p), expected, readable, writable);
      if reply.Failed? {
        return;
      }
      if user !in loaded.value.users {
        return Failed(NotFound);
      }
      var cfg := PatchTables(env, loaded.value, user, p);
      var touched := SectionsOfPatch(p);
      reply := Commit(cfg, touched, user, p.maxUniqueIps, false, writable);
    }

    method RotateSecret(
        user: User, secret: Option<string>, generated: Secret, expected: Option<string>, readable: bool, writable: bool)
      returns (reply: Reply)
      requires Valid()
      modifies this`disk, tracker
      ensures Valid()
      ensures (Now(), reply)
        == Step(env, old(Now()), Call(Rotate(user, secret, generated), expected, readable, writable))
    {
      var chosen := if secret.Some? then secret.value else generated;
      if !IsValidSecret(chosen) {
        return Failed(BadRequest);
      }
      var loaded;
      reply, loaded := Open(Rotate(user, secret, generated), expected, readable, writable);
      if reply.Failed? {
        return;
      }
      var cfg := loaded.value;
      if user !in cfg.users {
        return Failed(NotFound);
      }
      cfg := cfg.(users := cfg.users[user := chosen]);
      reply := Commit(cfg, AllSections(), user, Unchanged, false, writable);
    }

    method SetUserEnabled(user: User, on: bool, expected: Option<string>, readable: bool, writable: bool)
      returns (reply: Reply)
      requires Valid()
      modifies this`disk, tracker
      ensures Valid()
      ensures (Now(), reply) == Step(env, old(Now()), Call(SetEnabled(user, on), expected, readable, writable))
    {
      var loaded;
      reply, loaded := Open(SetEnabled(user, on), expected, readable, writable);
      if reply.Failed? {
        return;
      }
      var cfg := loaded.value;
      if user !in cfg.users {
        return Failed(NotFound);
      }
      if on {
        cfg := cfg.(enabled := cfg.enabled - {user});
      } else {
        cfg := cfg.(enabled := cfg.enabled[user := false]);
      }
      reply := Commit(cfg, [UserEnabled], user, Unchanged, false, writable);
    }

    method DeleteUser(user: User, expected: Option<string>, readable: bool, writable: bool) returns (reply: Reply)
      requires Valid()
      modifies this`disk, tracker
      ensures Valid()
      ensures (Now(), reply) == Step(env, old(Now()), Call(Delete(user), expected, readable, writable))
    {
      var loaded;
      reply, loaded := Open(Delete(user), expected, readable, writable);
      if reply.Failed? {
        return;
      }
      var cfg := loaded.value;
      if user !in cfg.users {
        return Failed(NotFound);
      }
      if |cfg.users| <= 1 {
        return Failed(LastUserForbidden);
      }
      cfg := cfg.(users := cfg.users - {user}, enabled := cfg.enabled - {user}, adTags := cfg.adTags - {user},
                  maxTcpConns := cfg.maxTcpConns - {user}, expirations := cfg.expirations - {user},
                  dataQuota := cfg.dataQuota - {user}, rateLimits := cfg.rateLimits - {user},
                  maxUniqueIps := cfg.maxUniqueIps - {user});
      reply := Commit(cfg, AllSections(), user, Remove, true, writable);
    }
  }
}
