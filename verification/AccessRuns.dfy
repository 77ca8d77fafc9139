// Sequences of user mutations: tables, file and tracker stay in step, exactly as long as no harmful call goes through.
module AccessRuns {
  import opened Basics
  import opened TrackerTypes
  import opened ConfigSave
  import opened AccessUsers
  import opened AccessEdits
  import opened AccessFiles
  import opened AccessSaves

  // ---- Which edits the loader accepts ----

  /** A rate is given, but none that limits anything. */
  predicate ZeroRates(r: CreateRequest) {
    (r.rateUp.Some? || r.rateDown.Some?) && OrZero(r.rateUp) == 0 && OrZero(r.rateDown) == 0
  }

  predicate IsBig(n: Option<Count>) {
    n.Some? && n.value > I64_MAX
  }

  predicate SetsBig(p: Patch<Count>) {
    p.Set? && p.value > I64_MAX
  }

  /** The request gives a number that fits its 64 bits but not those of a TOML value. */
  predicate TooBig(op: Op) {
    match op
    case Create(r, _) =>
      IsBig(r.maxTcpConns) || IsBig(r.dataQuota) || IsBig(r.rateUp) || IsBig(r.rateDown) || IsBig(r.maxUniqueIps)
    case PatchUser(_, p) =>
      || SetsBig(p.maxTcpConns) || SetsBig(p.dataQuota) || SetsBig(p.rateUp) || SetsBig(p.rateDown)
      || SetsBig(p.maxUniqueIps)
    case _ => false
  }

  /** A request that makes the file unloadable if it goes through. */
  predicate Harmful(op: Op) {
    TooBig(op) || (op.Create? && (op.request.username == INCLUDE || ZeroRates(op.request)))
  }

  /** Only a new user can bring in a rate row without a limit; a patch removes such a row. */
  lemma EditRates(env: Env, op: Op, a: Access)
    requires RatesOk(a) && Edit(env, op, a).Change?
    ensures RatesOk(Edit(env, op, a).access) <==> !(op.Create? && ZeroRates(op.request))
  {
    if op.Create? && ZeroRates(op.request) {
      assert Edit(env, op, a).access.rateLimits[op.request.username] == RateLimit(0, 0);
    }
  }

  lemma EditSecrets(env: Env, op: Op, a: Access)
    requires SecretsOk(a) && Acceptable(env, op) && Edit(env, op, a).Change?
    ensures SecretsOk(Edit(env, op, a).access)
  {}

  lemma EditInRange(env: Env, op: Op, a: Access, section: AccessSection)
    requires InRange(RowsOf(a, section)) && !TooBig(op) && Edit(env, op, a).Change?
    ensures InRange(RowsOf(Edit(env, op, a).access, section))
  {
    match op
    case Create(r, generated) => CreatedInRange(env, r, generated, a, section);
    case PatchUser(u, p) => PatchedInRange(env, u, p, a, section);
    case _ =>
  }

  lemma CreatedInRange(env: Env, r: CreateRequest, generated: Secret, a: Access, section: AccessSection)
    requires InRange(RowsOf(a, section)) && !TooBig(Create(r, generated))
    ensures InRange(RowsOf(Created(env, a, r, generated), section))
  {}

  lemma PatchedInRange(env: Env, u: User, p: PatchRequest, a: Access, section: AccessSection)
    requires InRange(RowsOf(a, section)) && !TooBig(PatchUser(u, p))
    ensures InRange(RowsOf(PatchedAccess(env, a, u, p), section))
  {}

  lemma CreatedBig(env: Env, r: CreateRequest, generated: Secret, a: Access) returns (section: AccessSection)
    requires TooBig(Create(r, generated))
    ensures section in CreateTouches(r) && !InRange(RowsOf(Created(env, a, r, generated), section))
  {
    section := if IsBig(r.maxTcpConns) then UserMaxTcpConns else if IsBig(r.dataQuota) then UserDataQuota
      else if IsBig(r.maxUniqueIps) then UserMaxUniqueIps else UserRateLimits;
    assert r.username in KeysOf(RowsOf(Created(env, a, r, generated), section));
  }

  lemma RateIsBig(m: map<User, RateLimit>, u: User, up: Patch<Count>, down: Patch<Count>)
    ensures SetsBig(up) || SetsBig(down) ==> !InRange(Rates(RatePatched(m, u, up, down)))
  {
    if SetsBig(up) || SetsBig(down) {
      assert u in RatePatched(m, u, up, down);
    }
  }

  lemma PatchedBig(env: Env, u: User, p: PatchRequest, a: Access) returns (section: AccessSection)
    requires TooBig(PatchUser(u, p))
    ensures section in PatchTouches(p) && !InRange(RowsOf(PatchedAccess(env, a, u, p), section))
  {
    RateIsBig(a.rateLimits, u, p.rateUp, p.rateDown);
    section := if SetsBig(p.maxTcpConns) then UserMaxTcpConns else if SetsBig(p.dataQuota) then UserDataQuota
      else if SetsBig(p.maxUniqueIps) then UserMaxUniqueIps else UserRateLimits;
    assert section != UserRateLimits ==> u in KeysOf(RowsOf(PatchedAccess(env, a, u, p), section));
  }

  /** A number that is too big ends up in a row of a section that is written. */
  lemma BigIsWritten(env: Env, op: Op, a: Access)
    requires TooBig(op) && Edit(env, op, a).Change?
    ensures var c := Edit(env, op, a);
      !AllReadable(c.access, c.touched)
  {
    var section;
    if op.Create? {
      section := CreatedBig(env, op.request, op.generated, a);
    } else {
      section := PatchedBig(env, op.user, op.patch, a);
    }
    assert !Readable(RowsOf(Edit(env, op, a).access, section));
  }

  /** A name whose rows can be read back in every section. */
  predicate SafeName(u: User) {
    u != INCLUDE && !HasEqualsSign(u)
  }

  ghost predicate SafeNames(a: Access) {
    forall section, u :: u in KeysOf(RowsOf(a, section)) ==> SafeName(u)
  }

  lemma ValidIsSafe(u: User)
    requires IsValidUsername(u) && u != INCLUDE
    ensures SafeName(u)
  {
    forall i: nat | i < |u| ensures !EqualsSignAt(u, i) {
      assert u[i] in u;
      if i + 3 <= |u| {
        assert u[i..i + 3][0] == u[i] != ' ';
      }
    }
  }

  /** Only a new user can bring in an unsafe name. */
  lemma EditNames(env: Env, op: Op, a: Access)
    requires SafeNames(a) && Acceptable(env, op) && Edit(env, op, a).Change?
    requires !(op.Create? && op.request.username == INCLUDE)
    ensures SafeNames(Edit(env, op, a).access)
  {
    var b := Edit(env, op, a).access;
    if op.Create? {
      ValidIsSafe(UserOf(op));
    } else {
      assert UserOf(op) in KeysOf(RowsOf(a, Users));
    }
    forall section, u | u in KeysOf(RowsOf(b, section)) ensures SafeName(u) {
      if op.Delete? {
        DeleteKeys(a, op.user, section);
      } else {
        EditKeys(env, op, a, section);
      }
      assert u in KeysOf(RowsOf(a, section)) || u == UserOf(op);
    }
  }

  lemma SafeIsReadable(a: Access, section: AccessSection)
    requires SafeNames(a) && InRange(RowsOf(a, section))
    ensures Readable(RowsOf(a, section))
  {
    var rows := RowsOf(a, section);
    forall u | u in KeysOf(rows) ensures SafeName(u) {}
  }

  /** From tables with safe names, whether an edit can be read back is a matter of the request alone. */
  lemma EditReadable(env: Env, op: Op, a: Access)
    requires SafeNames(a) && (forall section :: InRange(RowsOf(a, section)))
    requires Acceptable(env, op) && Edit(env, op, a).Change?
    ensures var c := Edit(env, op, a);
      AllReadable(c.access, c.touched) <==> !TooBig(op) && !(op.Create? && op.request.username == INCLUDE)
  {
    var c := Edit(env, op, a);
    if TooBig(op) {
      BigIsWritten(env, op, a);
    } else if op.Create? && op.request.username == INCLUDE {
      assert Users in c.touched && INCLUDE in KeysOf(RowsOf(c.access, Users));
    } else {
      EditNames(env, op, a);
      forall section ensures Readable(RowsOf(c.access, section)) {
        EditInRange(env, op, a, section);
        SafeIsReadable(c.access, section);
      }
    }
  }

  // ---- One call ----

  /** What a call that went through did: the edited tables were saved. */
  lemma DoneSaves(env: Env, s: State, call: Call)
    requires Step(env, s, call).1.Done?
    ensures Load(env, s.disk).Some?
    ensures var a := Load(env, s.disk).value;
      var c := Edit(env, call.op, a);
      && c.Change? && Plain(env, c.access) && c.access.users != map[] && Reads(env, s.disk, a)
      && Save(s.disk, ConfigOf(env, c.access), c.touched, []) == Ok(Step(env, s, call).0.disk)
      && (forall section :: RowsOf(a, section) != RowsOf(c.access, section) ==> section in c.touched)
  {
    var a := Load(env, s.disk).value;
    LoadsIff(env, s.disk, a);
    EditSecrets(env, call.op, a);
    EditLeavesUser(env, call.op, a);
    forall section | RowsOf(a, section) != RowsOf(Edit(env, call.op, a).access, section)
      ensures section in Edit(env, call.op, a).touched
    {
      EditTouchesChanges(env, call.op, a, section);
    }
  }

  /** Whatever the file looks like, a caller can tell whether it will load as the edited tables. */
  lemma StepLoadsIff(env: Env, s: State, call: Call)
    requires Faithful(env) && Step(env, s, call).1.Done?
    ensures Load(env, s.disk).Some?
    ensures var a := Load(env, s.disk).value;
      var c := Edit(env, call.op, a);
      && c.Change?
      && (Load(env, Step(env, s, call).0.disk) == Some(c.access)
          <==> && !(call.op.Create? && ZeroRates(call.op.request))
               && forall section :: section in c.touched ==> Lands(env, s.disk, a, c.access, section))
  {
    DoneSaves(env, s, call);
    var a := Load(env, s.disk).value;
    var c := Edit(env, call.op, a);
    EditRates(env, call.op, a);
    SavedIff(env, s.disk, a, c.access, c.touched);
  }

  /** A clean file loads as the edited tables or not at all, and stays clean. */
  lemma StepLoads(env: Env, s: State, call: Call)
    requires Faithful(env) && Clean(env, s.disk) && Step(env, s, call).1.Done?
    ensures Load(env, s.disk).Some? && Clean(env, Step(env, s, call).0.disk)
    ensures var c := Edit(env, call.op, Load(env, s.disk).value);
      && c.Change?
      && Load(env, Step(env, s, call).0.disk)
         == if !(call.op.Create? && ZeroRates(call.op.request)) && AllReadable(c.access, c.touched)
            then Some(c.access) else None
  {
    DoneSaves(env, s, call);
    var a := Load(env, s.disk).value;
    var c := Edit(env, call.op, a);
    EditRates(env, call.op, a);
    SavedLoads(env, s.disk, a, c.access, c.touched);
    StaysClean(env, s.disk, c.access, c.touched);
  }

  /** Nothing can be changed any more through the API once the file does not load. */
  lemma Stuck(env: Env, s: State, call: Call)
    requires Load(env, s.disk).None?
    ensures Step(env, s, call).0 == s && Step(env, s, call).1.Failed?
  {}

  lemma FailedStep(env: Env, s: State, call: Call)
    requires Step(env, s, call).1.Failed?
    ensures Step(env, s, call).0 == s
  {}

  lemma StepClean(env: Env, s: State, call: Call)
    requires Faithful(env) && Clean(env, s.disk)
    ensures Clean(env, Step(env, s, call).0.disk)
  {
    if Step(env, s, call).1.Done? {
      StepLoads(env, s, call);
    } else {
      FailedStep(env, s, call);
    }
  }

  /** The tracker has the limits of the file. */
  predicate LimitsAgree(env: Env, s: State) {
    Load(env, s.disk).Some? ==> s.tracker.policy.maxIps == Load(env, s.disk).value.maxUniqueIps
  }

  lemma TrackedLimits(t: State, u: User, limit: Patch<nat>, gone: bool)
    ensures Tracked(t.tracker, u, limit, gone).policy.maxIps == Patched(t.tracker.policy.maxIps, u, limit)
  {}

  lemma StepAgrees(env: Env, s: State, call: Call)
    requires Faithful(env) && Clean(env, s.disk) && LimitsAgree(env, s)
    ensures LimitsAgree(env, Step(env, s, call).0)
  {
    if Step(env, s, call).1.Done? {
      StepLoads(env, s, call);
      var c := Edit(env, call.op, Load(env, s.disk).value);
      EditLimit(env, call.op, Load(env, s.disk).value);
      TrackedLimits(s, UserOf(call.op), c.limit, call.op.Delete?);
    }
  }

  /** After a deletion the tracker knows no address of the user. */
  lemma DeletedIsForgotten(env: Env, s: State, call: Call, p: Pair)
    requires Step(env, s, call).1.Done? && call.op.Delete? && p.user == call.op.user
    ensures var t := Step(env, s, call).0.tracker; p !in t.active && p !in t.recent
  {}

  /** The call is harmful and goes through. */
  predicate Harms(env: Env, s: State, call: Call) {
    Harmful(call.op) && Step(env, s, call).1.Done?
  }

  /** A clean file that loads, without a name that could not be written back. */
  ghost predicate InOrder(env: Env, disk: string) {
    Clean(env, disk) && Load(env, disk).Some? && SafeNames(Load(env, disk).value)
  }

  lemma HarmlessStep(env: Env, s: State, call: Call)
    requires Faithful(env) && InOrder(env, s.disk) && Step(env, s, call).1.Done? && !Harmful(call.op)
    ensures var c := Edit(env, call.op, Load(env, s.disk).value);
      c.Change? && Load(env, Step(env, s, call).0.disk) == Some(c.access) && SafeNames(c.access)
  {
    var a := Load(env, s.disk).value;
    StepLoads(env, s, call);
    forall section ensures InRange(RowsOf(a, section)) {
      LoadedInRange(env, s.disk, section);
    }
    EditReadable(env, call.op, a);
    EditNames(env, call.op, a);
  }

  lemma HarmfulStep(env: Env, s: State, call: Call)
    requires Faithful(env) && InOrder(env, s.disk) && Harms(env, s, call)
    ensures Load(env, Step(env, s, call).0.disk) == None
  {
    var a := Load(env, s.disk).value;
    StepLoads(env, s, call);
    forall section ensures InRange(RowsOf(a, section)) {
      LoadedInRange(env, s.disk, section);
    }
    EditReadable(env, call.op, a);
  }

  /** Whether the file loads after a call is a matter of the request alone. */
  lemma StepHarm(env: Env, s: State, call: Call)
    requires Faithful(env) && InOrder(env, s.disk)
    ensures var disk := Step(env, s, call).0.disk;
      if Harms(env, s, call) then Load(env, disk).None? else InOrder(env, disk)
  {
    if Step(env, s, call).1.Failed? {
      FailedStep(env, s, call);
    } else if Harmful(call.op) {
      HarmfulStep(env, s, call);
    } else {
      HarmlessStep(env, s, call);
      StepClean(env, s, call);
    }
  }

  lemma StepKeyed(env: Env, s: State, call: Call)
    requires Faithful(env) && Clean(env, s.disk) && Load(env, s.disk).Some? && Keyed(Load(env, s.disk).value)
    ensures var t := Step(env, s, call).0;
      Load(env, t.disk).Some? ==> Keyed(Load(env, t.disk).value)
  {
    if Step(env, s, call).1.Done? {
      StepLoads(env, s, call);
      EditKeepsKeyed(env, call.op, Load(env, s.disk).value);
    }
  }

  // ---- Any calls ----

  /** None of the calls does harm. */
  predicate Harmless(env: Env, s: State, calls: seq<Call>)
    decreases |calls|
  {
    calls == [] ||
      (var n := |calls| - 1;
       Harmless(env, s, calls[..n]) && !Harms(env, After(env, s, calls[..n]), calls[n]))
  }

  lemma {:induction false} AlwaysClean(env: Env, s: State, calls: seq<Call>)
    requires Faithful(env) && Clean(env, s.disk)
    ensures Clean(env, After(env, s, calls).disk)
    decreases |calls|
  {
    if calls != [] {
      var n := |calls| - 1;
      AlwaysClean(env, s, calls[..n]);
      StepClean(env, After(env, s, calls[..n]), calls[n]);
    }
  }

  /** The file loads after the calls exactly when none of them that went through was harmful. */
  lemma {:induction false} LoadsExactly(env: Env, s: State, calls: seq<Call>)
    requires Faithful(env) && InOrder(env, s.disk)
    ensures var disk := After(env, s, calls).disk;
      if Harmless(env, s, calls) then InOrder(env, disk) else Load(env, disk).None?
    decreases |calls|
  {
    if calls != [] {
      var n := |calls| - 1;
      var t := After(env, s, calls[..n]);
      LoadsExactly(env, s, calls[..n]);
      if Load(env, t.disk).Some? {
        StepHarm(env, t, calls[n]);
      } else {
        Stuck(env, t, calls[n]);
      }
    }
  }

  /** After any calls the tracker has the limits of the file. */
  lemma {:induction false} AlwaysAgree(env: Env, s: State, calls: seq<Call>)
    requires Faithful(env) && Clean(env, s.disk) && LimitsAgree(env, s)
    ensures LimitsAgree(env, After(env, s, calls))
    decreases |calls|
  {
    if calls != [] {
      var n := |calls| - 1;
      AlwaysAgree(env, s, calls[..n]);
      AlwaysClean(env, s, calls[..n]);
      StepAgrees(env, After(env, s, calls[..n]), calls[n]);
    }
  }

  /** After any calls there is a user and every row belongs to one, if that was so at the start. */
  lemma {:induction false} AlwaysKeyed(env: Env, s: State, calls: seq<Call>)
    requires Faithful(env) && Clean(env, s.disk) && Load(env, s.disk).Some? && Keyed(Load(env, s.disk).value)
    ensures var disk := After(env, s, calls).disk;
      Load(env, disk).Some? ==> Keyed(Load(env, disk).value)
    decreases |calls|
  {
    if calls != [] {
      var n := |calls| - 1;
      var t := After(env, s, calls[..n]);
      AlwaysKeyed(env, s, calls[..n]);
      AlwaysClean(env, s, calls[..n]);
      if Load(env, t.disk).Some? {
        StepKeyed(env, t, calls[n]);
      } else {
        Stuck(env, t, calls[n]);
      }
    }
  }

  /** The tables after the calls, as the mutations that went through made them one after another. */
  ghost function Tables(env: Env, s: State, calls: seq<Call>): Option<Access>
    decreases |calls|
  {
    if calls == [] then Load(env, s.disk) else
      var n := |calls| - 1;
      var before := Tables(env, s, calls[..n]);
      if before.Some? && Step(env, After(env, s, calls[..n]), calls[n]).1.Done? &&
         Edit(env, calls[n].op, before.value).Change?
      then Some(Edit(env, calls[n].op, before.value).access)
      else before
  }

  /** As long as no harmful call goes through, loading the file gives exactly the tables the mutations made. */
  lemma {:induction false} AlwaysInStep(env: Env, s: State, calls: seq<Call>)
    requires Faithful(env) && InOrder(env, s.disk) && Harmless(env, s, calls)
    ensures Tables(env, s, calls).Some? && Load(env, After(env, s, calls).disk) == Tables(env, s, calls)
    decreases |calls|
  {
    if calls != [] {
      var n := |calls| - 1;
      AlwaysInStep(env, s, calls[..n]);
      LoadsExactly(env, s, calls[..n]);
      if Step(env, After(env, s, calls[..n]), calls[n]).1.Done? {
        HarmlessStep(env, After(env, s, calls[..n]), calls[n]);
      } else {
        FailedStep(env, After(env, s, calls[..n]), calls[n]);
      }
    }
  }
}
