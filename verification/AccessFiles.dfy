// What loading a file gives, and what is assumed of TOML.
module AccessFiles {
  import opened Basics
  import opened TomlTables
  import opened TomlBlocks
  import opened TomlEdits
  import opened TomlTexts
  import opened ConfigSave
  import opened AccessUsers
  import opened AccessEdits

  // ---- Reading tables ----

  /** What the loader finds under the header the API writes a section under. */
  function ReadSection(env: Env, disk: string, section: AccessSection): Option<Rows> {
    ReadTable(env, disk, TableName(section))
  }

  /** The file gives the rows of these tables, section by section. */
  ghost predicate Reads(env: Env, disk: string, a: Access) {
    forall section :: ReadSection(env, disk, section) == Some(RowsOf(a, section))
  }

  lemma EarlyFields(a: Access, section: AccessSection)
    requires section in {Users, UserEnabled, UserAdTags, UserMaxTcpConns}
    ensures FieldRows(a, TableName(section)) == Some(RowsOf(a, section))
  {
    assert TableName(Users) == "access.users" && TableName(UserEnabled) == "access.user_enabled";
    assert TableName(UserAdTags) == "access.user_ad_tags";
    forall other | other != section ensures TableName(other) != TableName(section) {
      NamesDiffer(other, section);
    }
  }

  lemma LateFields(a: Access, section: AccessSection)
    requires section !in {Users, UserEnabled, UserAdTags, UserMaxTcpConns}
    ensures FieldRows(a, TableName(section)) == Some(RowsOf(a, section))
  {
    assert TableName(Users) == "access.users" && TableName(UserEnabled) == "access.user_enabled";
    assert TableName(UserAdTags) == "access.user_ad_tags";
    assert TableName(UserMaxTcpConns) == "access.user_max_tcp_conns";
    assert TableName(UserExpirations) == "access.user_expirations";
    assert TableName(UserDataQuota) == "access.user_data_quota";
    assert TableName(UserRateLimits) == "access.user_rate_limits";
    forall other | other != section ensures TableName(other) != TableName(section) {
      NamesDiffer(other, section);
    }
  }

  /** The API writes every section under the header from which the loader fills the same table. */
  lemma SectionIsField(a: Access, section: AccessSection)
    ensures FieldRows(a, TableName(section)) == Some(RowsOf(a, section))
  {
    if section in {Users, UserEnabled, UserAdTags, UserMaxTcpConns} {
      EarlyFields(a, section);
    } else {
      LateFields(a, section);
    }
  }

  /** And there is a section for every table. */
  lemma FieldHasSection(a: Access, header: string) returns (section: AccessSection)
    requires FieldRows(a, header).Some?
    ensures header == TableName(section)
  {
    section := if header == "access.users" then Users
      else if header == "access.user_enabled" then UserEnabled
      else if header == "access.user_ad_tags" then UserAdTags
      else if header == "access.user_max_tcp_conns" then UserMaxTcpConns
      else if header == "access.user_expirations" then UserExpirations
      else if header == "access.user_data_quota" then UserDataQuota
      else if header == "access.user_rate_limits" then UserRateLimits
      else UserMaxUniqueIps;
  }

  lemma GatheredFrom(read: string -> Option<Rows>, section: AccessSection)
    requires Gather(read).Some?
    ensures read(TableName(section)) == Some(RowsOf(Gather(read).value, section))
  {}

  lemma GathersAll(read: string -> Option<Rows>, a: Access)
    requires forall section :: read(TableName(section)) == Some(RowsOf(a, section))
    ensures Gather(read).Some?
  {
    assert read(TableName(Users)) == Some(RowsOf(a, Users));
    assert read(TableName(UserEnabled)) == Some(RowsOf(a, UserEnabled));
    assert read(TableName(UserAdTags)) == Some(RowsOf(a, UserAdTags));
    assert read(TableName(UserMaxTcpConns)) == Some(RowsOf(a, UserMaxTcpConns));
    assert read(TableName(UserExpirations)) == Some(RowsOf(a, UserExpirations));
    assert read(TableName(UserDataQuota)) == Some(RowsOf(a, UserDataQuota));
    assert read(TableName(UserRateLimits)) == Some(RowsOf(a, UserRateLimits));
    assert read(TableName(UserMaxUniqueIps)) == Some(RowsOf(a, UserMaxUniqueIps));
  }

  lemma GatherIff(read: string -> Option<Rows>, a: Access)
    ensures Gather(read) == Some(a) <==> forall section :: read(TableName(section)) == Some(RowsOf(a, section))
  {
    if Gather(read).Some? {
      forall section ensures read(TableName(section)) == Some(RowsOf(Gather(read).value, section)) {
        GatheredFrom(read, section);
      }
    }
    if forall section :: read(TableName(section)) == Some(RowsOf(a, section)) {
      GathersAll(read, a);
      SameRows(Gather(read).value, a);
    }
  }

  lemma AssembledIff(env: Env, disk: string, a: Access)
    ensures Assembled(env, disk) == Some(a) <==> Reads(env, disk, a)
  {
    var read := (header: string) => ReadTable(env, disk, header);
    GatherIff(read, a);
    forall section ensures read(TableName(section)) == ReadSection(env, disk, section) {}
  }

  /** A file loads as these tables exactly when it gives their rows and the loader accepts them. */
  lemma LoadsIff(env: Env, disk: string, a: Access)
    ensures Load(env, disk) == Some(a) <==> Reads(env, disk, a) && RatesOk(a) && SecretsOk(a)
  {
    AssembledIff(env, disk, a);
  }

  // ---- Include lines ----

  lemma IncludeByTrim(line: string, other: string)
    requires Trim(line) == Trim(other)
    ensures IsInclude(line) == IsInclude(other)
  {}

  /** The line, trimmed, is the word, white space, an equals sign and anything. */
  predicate IncludeForm(trimmed: string, gap: string, rest: string) {
    AllBlank(gap) && trimmed == "include" + gap + "=" + rest
  }

  /** Such lines and no others are taken for the name of a file. */
  lemma IncludeIff(line: string)
    ensures IsInclude(line) <==> exists gap, rest :: IncludeForm(Trim(line), gap, rest)
  {
    if IsInclude(line) {
      var tail := Trim(line)[|"include"|..];
      var front, back := TrimIs(tail);
      assert Trim(tail) == "=" + Trim(tail)[1..];
      assert Trim(line) == "include" + tail;
      assert "include" + front + "=" + (Trim(tail)[1..] + back) == "include" + (front + Trim(tail) + back);
      assert IncludeForm(Trim(line), front, Trim(tail)[1..] + back);
    }
    if gap, rest :| IncludeForm(Trim(line), gap, rest) {
      FormIsInclude(line, gap, rest);
    }
  }

  lemma FormIsInclude(line: string, gap: string, rest: string)
    requires IncludeForm(Trim(line), gap, rest)
    ensures IsInclude(line)
  {
    var trimmed := Trim(line);
    assert trimmed[..|"include"|] == "include";
    assert trimmed[|"include"|..] == gap + ("=" + rest);
    TrimAfterBlank(gap, "=" + rest);
  }

  lemma BlankIsNoInclude()
    ensures !IsInclude("\n")
  {
    assert "" + "\n" == "\n";
    NewlineIsTrimmed("");
  }

  lemma HeaderIsNoInclude(name: string)
    ensures !IsInclude(Target(name) + "\n")
  {
    HeaderLine(name);
    assert Target(name)[0] == '[' && "include"[0] == 'i';
  }

  /** A newline at the end makes no include line and hides none. */
  lemma IncludeNewline(text: string)
    ensures HasInclude(text + "\n") <==> HasInclude(text)
  {
    if Closed(text) {
      NewlineAlone();
      LinesSplit(text, "\n");
      BlankIsNoInclude();
    } else {
      UnclosedLines(text);
      LastLineInclude(Lines(text));
    }
  }

  lemma LastLineInclude(lines: seq<string>)
    requires lines != []
    ensures var k := |lines| - 1;
      (exists line :: line in lines[k := lines[k] + "\n"] && IsInclude(line))
      <==> exists line :: line in lines && IsInclude(line)
  {
    var k := |lines| - 1;
    var edited := lines[k := lines[k] + "\n"];
    NewlineIsTrimmed(lines[k]);
    IncludeByTrim(lines[k], lines[k] + "\n");
    assert forall j :: 0 <= j < |lines| ==> IsInclude(edited[j]) == IsInclude(lines[j]);
    if j :| 0 <= j < |lines| && IsInclude(lines[j]) {
      assert edited[j] in edited;
    }
    if j :| 0 <= j < |lines| && IsInclude(edited[j]) {
      assert lines[j] in lines;
    }
  }

  /** A rendered table has an include line exactly when its rows have one. */
  lemma IncludeWithHeader(name: string, rows: string)
    requires '\n' !in name
    ensures HasInclude(WithHeader(name, rows)) <==> HasInclude(rows)
  {
    var header := Target(name) + "\n";
    OneLine(Target(name));
    HeaderIsNoInclude(name);
    IncludeNewline(rows);
    Assoc(header, rows, "\n");
    IncludeAfter(header, rows);
    IncludeAfter(header, rows + "\n");
  }

  lemma IncludeAfter(header: string, rows: string)
    requires EndsWithNewline(header) && Lines(header) == [header] && !IsInclude(header)
    ensures HasInclude(header + rows) <==> HasInclude(rows)
  {
    LinesSplit(header, rows);
    assert forall line :: line in Lines(header + rows) <==> line == header || line in Lines(rows);
  }

  // ---- Reading what was written ----

  /** The name that makes a row of any section an include line. */
  const INCLUDE := "include"

  /** The largest number the loader's TOML values hold. */
  const I64_MAX := 0x7FFF_FFFF_FFFF_FFFF

  predicate InRange(rows: Rows) {
    match rows
    case Numbers(m) => forall u :: u in m ==> m[u] <= I64_MAX
    case Rates(m) => forall u :: u in m ==> m[u].up <= I64_MAX && m[u].down <= I64_MAX
    case _ => true
  }

  predicate EqualsSignAt(name: string, i: nat) {
    i + 3 <= |name| && name[i..i + 3] == " = "
  }

  /** The rate writer takes the key of a row up to the first of these, even inside its quotes. */
  predicate HasEqualsSign(name: string) {
    exists i :: 0 <= i < |name| && EqualsSignAt(name, i)
  }

  /** Rows whose text is TOML that the loader's values can hold. */
  predicate Parses(rows: Rows) {
    InRange(rows) && (rows.Rates? ==> forall u :: u in rows.rates ==> !HasEqualsSign(u))
  }

  predicate Readable(rows: Rows) {
    INCLUDE !in KeysOf(rows) && Parses(rows)
  }

  /** Tables a mutation may write: validation passed and every secret has the right form. */
  ghost predicate Plain(env: Env, a: Access) {
    env.validate(a) && SecretsOk(a)
  }

  /** What is assumed of TOML. */
  ghost predicate Faithful(env: Env) {
    && (forall header, text | IsField(header) && Exact(header, text) :: Owns(env, header, text))
    && (forall header, text :: env.defines(header, text + "\n") == env.defines(header, text))
    && (forall header, front, last ::
          env.read(header, front + [last + "\n"]) == env.read(header, front + [last]))
    && (forall header, blocks ::
          env.read(header, blocks).Some? ==> InRange(env.read(header, blocks).value))
    && (forall a, header | Plain(env, a) && IsField(header) && env.body(FieldRows(a, header).value).Ok? ::
          RowsReadBack(env, header, FieldRows(a, header).value))
  }

  /** The header of a table of the loader. */
  predicate IsField(header: string)
    ensures IsField(header) ==> forall a :: FieldRows(a, header).Some?
  {
    FieldRows(DefaultTables(), header).Some?
  }

  /** The table under a header is about what this header stands for and nothing else. */
  ghost predicate Owns(env: Env, header: string, text: string) {
    forall t | IsField(t) :: env.defines(t, text) <==> t == header
  }

  /** One of the blocks is the header in brackets on a line of its own and then the rows, or that and a newline. */
  predicate Carries(blocks: seq<string>, header: string, rows: string) {
    var table := "[" + header + "]\n" + rows;
    table in blocks || table + "\n" in blocks
  }

  /** Rows are written without table headers, and as an include line exactly for the key `include`. */
  ghost predicate RowsReadBack(env: Env, header: string, rows: Rows)
    requires env.body(rows).Ok?
  {
    var text := env.body(rows).value;
    && NoHeaders(text)
    && (HasInclude(text) <==> INCLUDE in KeysOf(rows))
    && (INCLUDE !in KeysOf(rows) ==>
          forall blocks :: Carries(blocks, header, text) ==> ReadsBeside(env, header, rows, blocks))
  }

  /**
   * Blocks with the written table among them: its rows if it is the only one and its rows parse. Any other block about
   * the same table clashes with it, except that sub-tables may add rates.
   */
  ghost predicate ReadsBeside(env: Env, header: string, rows: Rows, blocks: seq<string>) {
    if !Parses(rows) || (|blocks| > 1 && !rows.Rates?) then env.read(header, blocks) == None
    else env.read(header, blocks) == Some(rows) <==> |blocks| == 1
  }

  /** A rendered section is such a block. */
  lemma RenderedCarries(blocks: seq<string>, header: string, rows: string)
    requires WithHeader(header, rows) in blocks
    ensures Carries(blocks, header, rows)
  {
    assert Target(header) + "\n" + rows == "[" + header + "]\n" + rows;
  }

  lemma SectionReadsBack(env: Env, a: Access, section: AccessSection)
    requires Faithful(env) && Plain(env, a) && env.body(RowsOf(a, section)).Ok?
    ensures RowsReadBack(env, TableName(section), RowsOf(a, section))
  {
    SectionIsField(a, section);
    SectionIsField(DefaultTables(), section);
    assert IsField(TableName(section));
  }

  lemma PlainRenders(env: Env, a: Access)
    requires Faithful(env) && Plain(env, a)
    ensures Renders(ConfigOf(env, a))
  {
    forall s | ConfigOf(env, a).body(s).Ok? ensures NoHeaders(ConfigOf(env, a).body(s).value) {
      SectionReadsBack(env, a, s);
    }
  }

  lemma DefaultInRange(header: string)
    ensures FieldRows(DefaultTables(), header).Some? ==> InRange(FieldRows(DefaultTables(), header).value)
  {}

  lemma ReadInRange(env: Env, header: string, blocks: seq<string>)
    requires Faithful(env)
    ensures Reading(env, header, blocks).Some? ==> InRange(Reading(env, header, blocks).value)
  {
    DefaultInRange(header);
  }

  /** The tables of a file that loads hold no number the loader cannot. */
  lemma LoadedInRange(env: Env, disk: string, section: AccessSection)
    requires Faithful(env) && Load(env, disk).Some?
    ensures InRange(RowsOf(Load(env, disk).value, section))
  {
    LoadsIff(env, disk, Load(env, disk).value);
    assert ReadSection(env, disk, section) == Some(RowsOf(Load(env, disk).value, section));
    ReadInRange(env, TableName(section), Defining(env, disk, TableName(section)));
  }

  lemma EmptyIsDefault(a: Access, section: AccessSection)
    requires KeysOf(RowsOf(a, section)) == {} && section != Users
    ensures Some(RowsOf(a, section)) == FieldRows(DefaultTables(), TableName(section))
  {
    SectionIsField(DefaultTables(), section);
  }

  /** What a section reads as once it was written, alone or beside other blocks. */
  ghost predicate ReadsWritten(r: Option<Rows>, rows: Rows, alone: bool) {
    && (r == Some(rows) <==> alone && Readable(rows))
    && (!Readable(rows) || (!alone && !rows.Rates?) ==> r == None)
  }

  /** What blocks with the written table among them give. */
  lemma WrittenReads(env: Env, a: Access, section: AccessSection, blocks: seq<string>)
    requires Faithful(env) && Plain(env, a) && env.body(RowsOf(a, section)).Ok?
    requires WithHeader(TableName(section), env.body(RowsOf(a, section)).value) in blocks
    ensures ReadsWritten(Reading(env, TableName(section), blocks), RowsOf(a, section), |blocks| == 1)
  {
    var rows := RowsOf(a, section);
    SectionReadsBack(env, a, section);
    assert '\n' !in TableName(section);
    CarriedReads(env, TableName(section), rows, blocks);
  }

  lemma CarriedReads(env: Env, header: string, rows: Rows, blocks: seq<string>)
    requires '\n' !in header && env.body(rows).Ok? && RowsReadBack(env, header, rows)
    requires WithHeader(header, env.body(rows).value) in blocks
    ensures ReadsWritten(Reading(env, header, blocks), rows, |blocks| == 1)
  {
    var text := env.body(rows).value;
    var table := WithHeader(header, text);
    IncludeWithHeader(header, text);
    if INCLUDE in KeysOf(rows) {
      assert HasInclude(table);
    } else {
      RenderedCarries(blocks, header, text);
      assert ReadsBeside(env, header, rows, blocks);
      assert |blocks| == 1 ==> forall block :: block in blocks ==> block == table;
    }
  }

  /** A newline after the last block does not matter. */
  lemma PaddedReads(env: Env, header: string, blocks: seq<string>)
    requires Faithful(env) && blocks != []
    ensures Reading(env, header, PadLast(blocks, "\n")) == Reading(env, header, blocks)
  {
    var k := |blocks| - 1;
    var padded := PadLast(blocks, "\n");
    assert blocks == blocks[..k] + [blocks[k]] && padded == blocks[..k] + [blocks[k] + "\n"];
    assert env.read(header, blocks[..k] + [blocks[k] + "\n"]) == env.read(header, blocks[..k] + [blocks[k]]);
    IncludeNewline(blocks[k]);
    SameIncludes(blocks, padded);
  }

  lemma SameIncludes(blocks: seq<string>, others: seq<string>)
    requires |blocks| == |others|
    requires forall j :: 0 <= j < |blocks| ==> HasInclude(blocks[j]) == HasInclude(others[j])
    ensures (exists block :: block in blocks && HasInclude(block))
      <==> exists block :: block in others && HasInclude(block)
  {
    if j :| 0 <= j < |blocks| && HasInclude(blocks[j]) {
      assert others[j] in others;
    }
    if j :| 0 <= j < |others| && HasInclude(others[j]) {
      assert blocks[j] in blocks;
    }
  }

  /** A table that cannot be read makes the file unloadable. */
  lemma Unreadable(env: Env, disk: string, section: AccessSection)
    requires ReadSection(env, disk, section) == None
    ensures Load(env, disk) == None
  {
    if Assembled(env, disk).Some? {
      AssembledIff(env, disk, Assembled(env, disk).value);
    }
  }
}
