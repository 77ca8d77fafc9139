// What a mutation is answered, and that no answer loses an update.
module AccessReplies {
  import opened Basics
  import opened TrackerTypes
  import opened ConfigSave
  import opened AccessUsers
  import opened AccessEdits
  import opened AccessFiles
  import opened AccessSaves
  import opened AccessRuns

  // ---- The revision ----

  /** The caller has seen another text than the one there is. */
  predicate Stale(env: Env, s: State, call: Call) {
    call.expected.Some? && call.expected.value != env.revision(s.disk)
  }

  /** A call that goes through was made without a revision or with the current one. */
  lemma DoneIsCurrent(env: Env, s: State, call: Call)
    requires Step(env, s, call).1.Done?
    ensures call.expected == None || call.expected == Some(env.revision(s.disk))
  {}

  /** A stale call on a file that loads conflicts, whatever it asks for, and changes nothing. */
  lemma StaleConflicts(env: Env, s: State, call: Call)
    requires Acceptable(env, call.op) && call.readable && Load(env, s.disk).Some? && Stale(env, s, call)
    ensures Step(env, s, call) == (s, Failed(RevisionConflict))
  {}

  ghost predicate DoneAt(env: Env, s: State, calls: seq<Call>, i: nat)
    requires i < |calls|
  {
    Step(env, After(env, s, calls[..i]), calls[i]).1.Done?
  }

  /** The text before call `i`. */
  function TextAt(env: Env, s: State, calls: seq<Call>, i: nat): string
    requires i <= |calls|
  {
    After(env, s, calls[..i]).disk
  }

  lemma ChangedIsDone(env: Env, s: State, calls: seq<Call>, i: nat)
    requires i < |calls| && TextAt(env, s, calls, i + 1) != TextAt(env, s, calls, i)
    ensures DoneAt(env, s, calls, i)
  {
    var before := After(env, s, calls[..i]);
    assert calls[..i + 1][..i] == calls[..i];
    if Step(env, before, calls[i]).1.Failed? {
      FailedStep(env, before, calls[i]);
    }
  }

  /**
   * No update is lost: of two calls that expect the same revision, made any number of calls apart, both go through only
   * if the text before the second is the one before the first again, provided the hash tells the two apart.
   */
  lemma NoLostUpdate(env: Env, s: State, calls: seq<Call>, i: nat, j: nat)
    requires i < j < |calls| && calls[i].expected.Some? && calls[i].expected == calls[j].expected
    requires var before, later := TextAt(env, s, calls, i), TextAt(env, s, calls, j);
      env.revision(before) == env.revision(later) ==> before == later
    requires DoneAt(env, s, calls, i) && DoneAt(env, s, calls, j)
    ensures TextAt(env, s, calls, i) == TextAt(env, s, calls, j)
  {
    DoneIsCurrent(env, After(env, s, calls[..i]), calls[i]);
    DoneIsCurrent(env, After(env, s, calls[..j]), calls[j]);
  }

  lemma {:induction false} LastReturn(texts: seq<string>, i: nat, j: nat) returns (k: nat)
    requires i < j < |texts| && texts[i + 1] != texts[i] == texts[j]
    ensures i < k < j && texts[k] != texts[i] == texts[k + 1]
    decreases j
  {
    k := j - 1;
    if texts[k] == texts[i] {
      k := LastReturn(texts, i, k);
    }
  }

  /** The texts before the calls, and the one after the last. */
  ghost predicate TextsOf(env: Env, s: State, calls: seq<Call>, texts: seq<string>) {
    |texts| == |calls| + 1 && forall n :: 0 <= n < |texts| ==> texts[n] == TextAt(env, s, calls, n)
  }

  /** Between two such calls some other one put the text back, if the first changed it. */
  lemma PutBack(env: Env, s: State, calls: seq<Call>, texts: seq<string>, i: nat, j: nat) returns (k: nat)
    requires TextsOf(env, s, calls, texts) && i < j < |texts| && texts[i + 1] != texts[i] == texts[j]
    ensures i < k < j && DoneAt(env, s, calls, k) && texts[k] != texts[i] == texts[k + 1]
  {
    k := LastReturn(texts, i, j);
    assert texts[k] == TextAt(env, s, calls, k) && texts[k + 1] == TextAt(env, s, calls, k + 1);
    ChangedIsDone(env, s, calls, k);
  }

  // ---- Expirations ----

  /** An expiration given in a call that goes through is a date, and it is the one that ends up in the tables. */
  lemma ExpirationIsParsed(env: Env, s: State, call: Call, text: string)
    requires Step(env, s, call).1.Done?
    requires || (call.op.Create? && call.op.request.expiration == Some(text))
             || (call.op.PatchUser? && call.op.patch.expiration == Set(text))
    ensures Load(env, s.disk).Some? && env.parseTime(text).Some?
    ensures var b := Edit(env, call.op, Load(env, s.disk).value);
      b.Change? && UserOf(call.op) in b.access.expirations
      && b.access.expirations[UserOf(call.op)] == env.parseTime(text).value
  {}

  // ---- Every answer ----

  /** The request gets as far as the tables. */
  predicate Reached(env: Env, s: State, call: Call) {
    Acceptable(env, call.op) && call.readable && Load(env, s.disk).Some? && !Stale(env, s, call)
  }

  /** The mutation is possible: a new user is new, any other one exists, and the last one is not deleted. */
  predicate Possible(op: Op, a: Access) {
    match op
    case Create(r, _) => r.username !in a.users
    case Delete(u) => u in a.users && a.users.Keys != {u}
    case _ => op.user in a.users
  }

  lemma LastUser(m: map<User, string>, u: User)
    requires u in m
    ensures |m| <= 1 <==> m.Keys == {u}
  {
    assert m.Keys == {u} + (m.Keys - {u});
  }

  lemma ChangeIff(env: Env, op: Op, a: Access)
    ensures Edit(env, op, a).Change? <==> Possible(op, a)
  {
    if op.Delete? && op.user in a.users {
      LastUser(a.users, op.user);
    }
  }

  /** A section that has to be written cannot be. */
  ghost predicate Unwritable(env: Env, disk: string, c: Change)
    requires c.Change?
  {
    exists section :: section in c.touched && !Skipped(disk, ConfigOf(env, c.access), section)
      && env.body(RowsOf(c.access, section)).Err?
  }

  /** The tables as edited are valid and the file can be written. */
  ghost predicate Committable(env: Env, s: State, call: Call, c: Change)
    requires c.Change?
  {
    env.validate(c.access) && !Unwritable(env, s.disk, c) && (c.touched == [] || call.writable)
  }

  lemma CommittedIff(env: Env, s: State, call: Call, c: Change)
    requires Faithful(env) && c.Change? && SecretsOk(c.access)
    ensures Committed(env, s, c, UserOf(call.op), call.op.Delete?, call.writable).1.Done?
      <==> Committable(env, s, call, c)
    ensures Committed(env, s, c, UserOf(call.op), call.op.Delete?, call.writable).1
      in {Done, Failed(BadRequest), Failed(Internal)}
    ensures Committed(env, s, c, UserOf(call.op), call.op.Delete?, call.writable).1 == Failed(BadRequest)
      <==> !env.validate(c.access)
  {
    if env.validate(c.access) {
      PlainRenders(env, c.access);
      SaveFailsIff(s.disk, ConfigOf(env, c.access), c.touched, []);
    }
  }

  lemma ReachedCommits(env: Env, s: State, call: Call)
    requires Faithful(env) && Reached(env, s, call) && Edit(env, call.op, Load(env, s.disk).value).Change?
    ensures var c := Edit(env, call.op, Load(env, s.disk).value);
      var reply := Step(env, s, call).1;
      && (reply.Done? <==> Committable(env, s, call, c))
      && reply in {Done, Failed(BadRequest), Failed(Internal)}
      && (reply == Failed(BadRequest) <==> !env.validate(c.access))
  {
    var a := Load(env, s.disk).value;
    LoadsIff(env, s.disk, a);
    EditSecrets(env, call.op, a);
    CommittedIff(env, s, call, Edit(env, call.op, a));
  }

  /** A call goes through exactly when nothing stands in its way. */
  lemma DoneIff(env: Env, s: State, call: Call)
    requires Faithful(env)
    ensures Step(env, s, call).1.Done?
      <==> && Reached(env, s, call) && Possible(call.op, Load(env, s.disk).value)
           && Edit(env, call.op, Load(env, s.disk).value).Change?
           && Committable(env, s, call, Edit(env, call.op, Load(env, s.disk).value))
  {
    if Reached(env, s, call) {
      ChangeIff(env, call.op, Load(env, s.disk).value);
      if Possible(call.op, Load(env, s.disk).value) {
        ReachedCommits(env, s, call);
      }
    }
  }

  /** Which failure says what. */
  lemma FailuresIff(env: Env, s: State, call: Call)
    requires Faithful(env)
    ensures var reply, at := Step(env, s, call).1, Reached(env, s, call);
      && (reply == Failed(UserExists)
          <==> at && call.op.Create? && call.op.request.username in Load(env, s.disk).value.users)
      && (reply == Failed(NotFound)
          <==> at && !call.op.Create? && call.op.user !in Load(env, s.disk).value.users)
      && (reply == Failed(LastUserForbidden)
          <==> at && call.op.Delete? && Load(env, s.disk).value.users.Keys == {call.op.user})
      && (reply == Failed(RevisionConflict)
          <==> Acceptable(env, call.op) && call.readable && Load(env, s.disk).Some? && Stale(env, s, call))
  {
    if Reached(env, s, call) {
      var a := Load(env, s.disk).value;
      ChangeIff(env, call.op, a);
      if call.op.Delete? && call.op.user in a.users {
        LastUser(a.users, call.op.user);
      }
      if Possible(call.op, a) {
        ReachedCommits(env, s, call);
      }
    }
  }

  lemma UnreachedReply(env: Env, s: State, call: Call)
    requires !Reached(env, s, call)
    ensures Step(env, s, call).1
      == if !Acceptable(env, call.op) then Failed(BadRequest)
         else if !call.readable || Load(env, s.disk).None? then Failed(Internal)
         else Failed(RevisionConflict)
  {}

  lemma RefusedError(env: Env, op: Op, a: Access)
    requires Edit(env, op, a).Refused?
    ensures Edit(env, op, a).error in {UserExists, NotFound, LastUserForbidden}
  {}

  lemma RefusedReply(env: Env, s: State, call: Call)
    requires Reached(env, s, call) && Edit(env, call.op, Load(env, s.disk).value).Refused?
    ensures Step(env, s, call).1 in {Failed(UserExists), Failed(NotFound), Failed(LastUserForbidden)}
  {
    RefusedError(env, call.op, Load(env, s.disk).value);
  }

  /** The change a call gets as far as validating. */
  function Planned(env: Env, s: State, call: Call): Option<Change> {
    if Reached(env, s, call) && Edit(env, call.op, Load(env, s.disk).value).Change?
    then Some(Edit(env, call.op, Load(env, s.disk).value)) else None
  }

  /** What a call is answered that gets that far, and what one that does not. */
  lemma PlannedReply(env: Env, s: State, call: Call, plan: Option<Change>, reply: Reply)
    requires Faithful(env) && plan == Planned(env, s, call) && reply == Step(env, s, call).1
    ensures plan.Some? ==> plan.value.Change? && Acceptable(env, call.op) && call.readable && Load(env, s.disk).Some?
    ensures plan.Some? ==>
      && reply in {Done, Failed(BadRequest), Failed(Internal)}
      && (reply.Done? <==> Committable(env, s, call, plan.value))
      && (reply == Failed(BadRequest) <==> !env.validate(plan.value.access))
    ensures plan.None? ==>
      && (reply == Failed(BadRequest) <==> !Acceptable(env, call.op))
      && (reply == Failed(Internal) <==> Acceptable(env, call.op) && (!call.readable || Load(env, s.disk).None?))
  {
    if plan.Some? {
      ReachedCommits(env, s, call);
    } else if Reached(env, s, call) {
      RefusedReply(env, s, call);
    } else {
      UnreachedReply(env, s, call);
    }
  }

  /** A bad request is one that was not acceptable, or one whose tables are not valid. */
  lemma BadRequestIff(env: Env, s: State, call: Call)
    requires Faithful(env)
    ensures var plan := Planned(env, s, call);
      && (plan.Some? ==> plan.value.Change?)
      && (Step(env, s, call).1 == Failed(BadRequest)
          <==> !Acceptable(env, call.op) || (plan.Some? && !env.validate(plan.value.access)))
  {
    PlannedReply(env, s, call, Planned(env, s, call), Step(env, s, call).1);
  }

  /** An internal error is a file that cannot be read, does not load, or cannot be written. */
  lemma InternalIff(env: Env, s: State, call: Call)
    requires Faithful(env)
    ensures var plan := Planned(env, s, call);
      && (plan.Some? ==> plan.value.Change?)
      && (Step(env, s, call).1 == Failed(Internal)
          <==> || (Acceptable(env, call.op) && (!call.readable || Load(env, s.disk).None?))
               || (plan.Some? && env.validate(plan.value.access) && !Committable(env, s, call, plan.value)))
  {
    PlannedReply(env, s, call, Planned(env, s, call), Step(env, s, call).1);
  }
}
