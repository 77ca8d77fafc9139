// Requests the API accepts and files it edits that end in a file it cannot load.
module AccessFailures {
  import opened Basics
  import opened TrackerTypes
  import opened TomlTables
  import opened TomlBlocks
  import opened TomlEdits
  import opened ConfigSave
  import opened AccessUsers
  import opened AccessEdits
  import opened AccessFiles
  import opened AccessSaves
  import opened AccessRuns

  /** Nothing but the request itself stands in the way of the call. */
  ghost predicate Unhindered(env: Env, s: State, call: Call) {
    && call.readable && call.writable && call.expected.None?
    && Load(env, s.disk).Some?
    && var c := Edit(env, call.op, Load(env, s.disk).value);
       c.Change? && env.validate(c.access) && forall section :: env.body(RowsOf(c.access, section)).Ok?
  }

  lemma UnhinderedIsDone(env: Env, s: State, call: Call)
    requires Faithful(env) && Acceptable(env, call.op) && Unhindered(env, s, call)
    ensures Step(env, s, call).1.Done?
  {
    var c := Edit(env, call.op, Load(env, s.disk).value);
    LoadsIff(env, s.disk, Load(env, s.disk).value);
    EditSecrets(env, call.op, Load(env, s.disk).value);
    PlainRenders(env, c.access);
    SaveFailsIff(s.disk, ConfigOf(env, c.access), c.touched, []);
  }

  /** The call goes through, and after it no call does. */
  predicate Breaks(env: Env, s: State, call: Call, later: Call) {
    var (s', reply) := Step(env, s, call);
    reply == Done && Load(env, s'.disk) == None && Step(env, s', later).1.Failed?
  }

  lemma UnreadableBreaks(env: Env, s: State, call: Call, later: Call)
    requires Faithful(env) && Acceptable(env, call.op) && Unhindered(env, s, call)
    requires var c := Edit(env, call.op, Load(env, s.disk).value); !AllReadable(c.access, c.touched)
    ensures Breaks(env, s, call, later)
  {
    UnhinderedIsDone(env, s, call);
    DoneSaves(env, s, call);
    var c := Edit(env, call.op, Load(env, s.disk).value);
    UnreadableSaved(env, s.disk, c.access, c.touched);
  }

  function PlainRequest(username: User): CreateRequest {
    CreateRequest(username, None, None, None, None, None, None, None, None, None)
  }

  function PlainPatch(): PatchRequest {
    PatchRequest(None, Unchanged, Unchanged, Unchanged, Unchanged, Unchanged, Unchanged, Unchanged, Unchanged)
  }

  // ---- Requests ----

  /** Creating a user with an upload limit of zero and no other. */
  lemma ZeroRateBreaks(env: Env, s: State, call: Call, username: User, generated: Secret, later: Call)
    requires Faithful(env) && Clean(env, s.disk) && IsValidUsername(username)
    requires call.op == Create(PlainRequest(username).(rateUp := Some(0)), generated) && Unhindered(env, s, call)
    ensures Breaks(env, s, call, later)
  {
    UnhinderedIsDone(env, s, call);
    StepLoads(env, s, call);
  }

  lemma IncludeIsAcceptable(env: Env, generated: Secret)
    ensures Acceptable(env, Create(PlainRequest(INCLUDE), generated))
  {}

  /** Creating a user named `include`, a name the API accepts. */
  lemma IncludeUserBreaks(env: Env, s: State, call: Call, generated: Secret, later: Call)
    requires Faithful(env) && call.op == Create(PlainRequest(INCLUDE), generated) && Unhindered(env, s, call)
    ensures Breaks(env, s, call, later)
  {
    IncludeIsAcceptable(env, generated);
    var c := Edit(env, call.op, Load(env, s.disk).value);
    assert Users in c.touched && INCLUDE in KeysOf(RowsOf(c.access, Users));
    UnreadableBreaks(env, s, call, later);
  }

  /** Creating a user with an upload limit of 2^63, which the request's type holds and a TOML value does not. */
  lemma BigRateBreaks(env: Env, s: State, call: Call, username: User, generated: Secret, later: Call)
    requires Faithful(env) && IsValidUsername(username)
    requires call.op == Create(PlainRequest(username).(rateUp := Some(I64_MAX + 1)), generated)
    requires Unhindered(env, s, call)
    ensures Breaks(env, s, call, later)
  {
    BigIsWritten(env, call.op, Load(env, s.disk).value);
    UnreadableBreaks(env, s, call, later);
  }

  /** Patching a user to have it. */
  lemma BigPatchBreaks(env: Env, s: State, call: Call, username: User, later: Call)
    requires Faithful(env)
    requires call.op == PatchUser(username, PlainPatch().(rateUp := Set(I64_MAX + 1))) && Unhindered(env, s, call)
    ensures Breaks(env, s, call, later)
  {
    BigIsWritten(env, call.op, Load(env, s.disk).value);
    UnreadableBreaks(env, s, call, later);
  }

  // ---- Files ----

  lemma CreateWritesUsers(env: Env, op: Op, a: Access)
    requires op.Create? && Edit(env, op, a).Change?
    ensures Users in Edit(env, op, a).touched && KeysOf(RowsOf(Edit(env, op, a).access, Users)) != {}
  {
    assert op.request.username in Edit(env, op, a).access.users;
  }

  /** Creating any user in a file where the users are not, or not only, under the header the API looks for. */
  lemma StrayUsersBreak(env: Env, s: State, call: Call, later: Call)
    requires Faithful(env) && call.op.Create? && Acceptable(env, call.op) && Unhindered(env, s, call)
    requires !Lone(env, s.disk, Users)
    ensures Breaks(env, s, call, later)
  {
    UnhinderedIsDone(env, s, call);
    DoneSaves(env, s, call);
    var c := Edit(env, call.op, Load(env, s.disk).value);
    CreateWritesUsers(env, call.op, Load(env, s.disk).value);
    StraySaved(env, s.disk, c.access, c.touched, Users);
  }

  const COMMENTED := "[access.users] # staff"

  lemma CommentedIsNoTarget()
    ensures IsHeader(COMMENTED + "\n") && !IsTarget(COMMENTED + "\n", TableName(Users))
  {
    NewlineIsTrimmed(COMMENTED);
    assert Trim(COMMENTED) == COMMENTED;
    assert |Target(TableName(Users))| < |COMMENTED|;
  }

  lemma CommentedLines(rows: string)
    requires NoHeaders(rows)
    ensures var lines := Lines(COMMENTED + "\n" + rows);
      && lines != []
      && (forall j :: 0 <= j < |lines| ==> !IsTarget(lines[j], TableName(Users)))
      && (forall j :: 1 <= j < |lines| ==> !IsHeader(lines[j]))
  {
    OneLine(COMMENTED);
    LinesSplit(COMMENTED + "\n", rows);
    CommentedIsNoTarget();
    var lines := Lines(COMMENTED + "\n" + rows);
    forall j | 1 <= j < |lines| ensures !IsHeader(lines[j]) && !IsTarget(lines[j], TableName(Users)) {
      assert lines[j] == Lines(rows)[j - 1];
    }
  }

  /** Such a file: TOML takes a header with a comment after it, and the API does not see it. */
  lemma CommentedIsStray(env: Env, rows: string)
    requires NoHeaders(rows) && env.defines("access.users", COMMENTED + "\n" + rows)
    ensures !Lone(env, COMMENTED + "\n" + rows, Users)
  {
    var disk := COMMENTED + "\n" + rows;
    var lines := Lines(disk);
    CommentedLines(rows);
    FindIs(lines, TableName(Users), |lines|);
    NextHeaderIs(lines, 1, |lines|);
    ConcatLines(disk);
    assert lines[..|lines|] == lines && lines[|lines|..] == [];
    assert Blocks(lines) == [disk];
    SelectOne(disk, block => env.defines("access.users", block));
  }

  /** Creating any user in it. */
  lemma CommentedHeaderBreaks(env: Env, s: State, call: Call, rows: string, later: Call)
    requires Faithful(env) && call.op.Create? && Acceptable(env, call.op) && Unhindered(env, s, call)
    requires s.disk == COMMENTED + "\n" + rows && NoHeaders(rows) && env.defines("access.users", s.disk)
    ensures Breaks(env, s, call, later)
  {
    CommentedIsStray(env, rows);
    StrayUsersBreak(env, s, call, later);
  }
}
