// The assumptions about TOML can be met, by a reader and a writer that know one table only.
module AccessExample {
  import opened Basics
  import opened TrackerTypes
  import opened TomlTables
  import opened TomlBlocks
  import opened TomlEdits
  import opened ConfigSave
  import opened AccessUsers
  import opened AccessFiles
  import opened AccessSaves
  import opened AccessRuns
  import opened AccessFailures

  const NAME := "a"

  function KnownUsers(): map<User, string> {
    map[DEFAULT_ACCESS_USER := DEFAULT_ACCESS_SECRET, NAME := DEFAULT_ACCESS_SECRET]
  }

  predicate StartsTable(header: string, text: string) {
    text != "" && IsTarget(Lines(text)[0], header)
  }

  /** The two tables of texts. */
  predicate KnownIn(header: string) {
    header == "access.users" || header == "access.user_ad_tags"
  }

  function SmallEnv(): Env {
    Env(rows => if rows == Texts(KnownUsers()) then Ok("a\n") else Err(""),
        (header, text) => StartsTable(header, text),
        (header, blocks) => if |blocks| == 1 && KnownIn(header) then Some(Texts(KnownUsers())) else None,
        text => None, a => true, text => text)
  }

  lemma FirstLineKept(text: string)
    requires text != ""
    ensures Lines(text + "\n") != [] && Trim(Lines(text + "\n")[0]) == Trim(Lines(text)[0])
  {
    if Closed(text) {
      LinesSplit(text, "\n");
    } else {
      UnclosedLines(text);
      NewlineIsTrimmed(Lines(text)[0]);
    }
  }

  lemma StartsTableNewline(header: string, text: string)
    ensures StartsTable(header, text + "\n") == StartsTable(header, text)
  {
    if text == "" {
      NewlineAlone();
      assert text + "\n" == "\n";
    } else {
      FirstLineKept(text);
    }
  }

  lemma SmallOwns(header: string, text: string)
    requires Exact(header, text)
    ensures Owns(SmallEnv(), header, text)
  {
    forall t ensures StartsTable(t, text) <==> t == header {
      if t != header && StartsTable(t, text) {
        TargetNames(Lines(text)[0], t, header);
      }
    }
  }

  lemma SmallRow()
    ensures NoHeaders("a\n") && !HasInclude("a\n")
  {
    assert "a\n" == "a" + "\n";
    OneLine("a");
    NewlineIsTrimmed("a");
    assert Trim("a") == "a";
  }

  lemma SmallReadsBack(a: Access, header: string)
    requires IsField(header) && SmallEnv().body(FieldRows(a, header).value).Ok?
    ensures RowsReadBack(SmallEnv(), header, FieldRows(a, header).value)
  {
    SmallRow();
    assert DEFAULT_ACCESS_USER[0] == 'd' && INCLUDE[0] == 'i' && |NAME| < |INCLUDE|;
    assert FieldRows(a, header) == Some(Texts(KnownUsers()));
    assert KnownIn(header);
  }

  lemma SmallIsFaithful()
    ensures Faithful(SmallEnv())
  {
    var env := SmallEnv();
    forall header, text | IsField(header) && Exact(header, text) ensures Owns(env, header, text) {
      SmallOwns(header, text);
    }
    forall header, text ensures env.defines(header, text + "\n") == env.defines(header, text) {
      StartsTableNewline(header, text);
    }
    forall a, header | Plain(env, a) && IsField(header) && env.body(FieldRows(a, header).value).Ok?
      ensures RowsReadBack(env, header, FieldRows(a, header).value)
    {
      SmallReadsBack(a, header);
    }
  }

  lemma EmptyFileReads(env: Env)
    ensures Reads(env, "", DefaultTables()) && Clean(env, "")
  {
    forall section ensures ReadSection(env, "", section) == Some(RowsOf(DefaultTables(), section)) {
      SectionIsField(DefaultTables(), section);
    }
  }

  lemma DefaultIsSafe()
    ensures SafeNames(DefaultTables())
  {
    ValidIsSafe(DEFAULT_ACCESS_USER);
  }

  /** The empty file is where a run may start. */
  lemma EmptyFileInOrder(env: Env)
    ensures InOrder(env, "") && Load(env, "") == Some(DefaultTables())
  {
    EmptyFileReads(env);
    LoadsIff(env, "", DefaultTables());
    DefaultIsSafe();
  }

  function SmallCall(): Call {
    Call(Create(PlainRequest(NAME), DEFAULT_ACCESS_SECRET), None, true, true)
  }

  lemma SmallEdit()
    ensures Edit(SmallEnv(), SmallCall().op, DefaultTables())
      == Change(DefaultTables().(users := KnownUsers()), [Users], Unchanged)
  {
    assert Edit(SmallEnv(), SmallCall().op, DefaultTables()).access.users == KnownUsers();
  }

  lemma SmallSave()
    ensures Save("", ConfigOf(SmallEnv(), DefaultTables().(users := KnownUsers())), [Users], []).Ok?
  {}

  lemma SavedIsDone(env: Env, s: State, call: Call, a: Access, c: Change)
    requires Acceptable(env, call.op) && call.readable && call.writable && call.expected.None?
    requires Load(env, s.disk) == Some(a) && Edit(env, call.op, a) == c && c.Change?
    requires env.validate(c.access) && Save(s.disk, ConfigOf(env, c.access), c.touched, []).Ok?
    ensures Step(env, s, call).1 == Done
  {}

  lemma SmallDone(s: State)
    requires s.disk == ""
    ensures Step(SmallEnv(), s, SmallCall()).1 == Done
  {
    EmptyFileInOrder(SmallEnv());
    SmallEdit();
    SmallSave();
    SavedIsDone(SmallEnv(), s, SmallCall(), DefaultTables(), Edit(SmallEnv(), SmallCall().op, DefaultTables()));
  }

  /** A user is created in the empty file, and the file loads as the default user and the new one. */
  lemma CreatedInEmptyFile(s: State)
    requires s.disk == ""
    ensures Step(SmallEnv(), s, SmallCall()).1 == Done
    ensures Load(SmallEnv(), Step(SmallEnv(), s, SmallCall()).0.disk) == Some(DefaultTables().(users := KnownUsers()))
  {
    SmallDone(s);
    SmallIsFaithful();
    EmptyFileInOrder(SmallEnv());
    SmallEdit();
    HarmlessStep(SmallEnv(), s, SmallCall());
  }
}
