// Under which header of the file the rows of each table of the configuration end up.
module AccessHeaders {
  import opened Basics
  import opened TomlTables
  import opened TomlBlocks
  import opened ConfigSave
  import opened AccessUsers
  import opened AccessEdits
  import opened AccessFiles
  import opened AccessSaves
  import opened AccessRuns

  /** The header in brackets on a line of its own, then the rows, then newlines at most. */
  predicate IsTable(text: string, header: string, rows: string) {
    var table := "[" + header + "]\n" + rows;
    text == table || text == table + "\n" || text == table + "\n\n"
  }

  /** The file has these rows under the header; no rows at all may also mean no table. */
  predicate Holds(env: Env, disk: string, header: string, rows: Rows) {
    match Locate(disk, header)
    case Absent => KeysOf(rows) == {}
    case Found(text, _) => env.body(rows).Ok? && IsTable(text, header, env.body(rows).value)
  }

  lemma ShownIsTable(header: string, rows: string, text: string)
    requires text == WithHeader(header, rows) || text == WithHeader(header, rows) + "\n"
    ensures IsTable(text, header, rows)
  {
    var table := "[" + header + "]\n" + rows;
    assert Target(header) + "\n" + rows == table;
    assert table + "\n" + "\n" == table + "\n\n";
  }

  lemma SectionHolds(env: Env, disk: string, b: Access, touched: seq<AccessSection>, section: AccessSection)
    requires Faithful(env) && Plain(env, b) && Save(disk, ConfigOf(env, b), touched, []).Ok? && section in touched
    ensures Holds(env, Save(disk, ConfigOf(env, b), touched, []).value, TableName(section), RowsOf(b, section))
  {
    var cfg := ConfigOf(env, b);
    var after := Save(disk, cfg, touched, []).value;
    PlainRenders(env, b);
    SaveShows(disk, cfg, touched, [], section);
    match Locate(after, TableName(section))
    case Absent =>
    case Found(text, _) => ShownIsTable(TableName(section), env.body(RowsOf(b, section)).value, text);
  }

  lemma ChangedSection(a: Access, b: Access, header: string) returns (section: AccessSection)
    requires FieldRows(a, header) != FieldRows(b, header)
    ensures header == TableName(section) && FieldRows(b, header) == Some(RowsOf(b, section))
    ensures RowsOf(a, section) != RowsOf(b, section)
  {
    section := FieldHasSection(b, header);
    SectionIsField(a, section);
    SectionIsField(b, section);
  }

  /** Every table of the configuration that a save changes is, afterwards, under the header the loader fills it from. */
  lemma FieldIsSaved(env: Env, disk: string, a: Access, b: Access, touched: seq<AccessSection>, header: string)
    requires Faithful(env) && Plain(env, b) && Save(disk, ConfigOf(env, b), touched, []).Ok?
    requires forall section :: RowsOf(a, section) != RowsOf(b, section) ==> section in touched
    requires FieldRows(a, header) != FieldRows(b, header)
    ensures FieldRows(b, header).Some?
    ensures Holds(env, Save(disk, ConfigOf(env, b), touched, []).value, header, FieldRows(b, header).value)
  {
    var section := ChangedSection(a, b, header);
    SectionHolds(env, disk, b, touched, section);
  }

  /** A call that goes through leaves the rows of every table it changes under that table's own header. */
  lemma CallWritesFields(env: Env, s: State, call: Call, header: string)
    requires Faithful(env) && Step(env, s, call).1.Done?
    ensures Load(env, s.disk).Some? && Edit(env, call.op, Load(env, s.disk).value).Change?
    ensures var a := Load(env, s.disk).value;
      var b := Edit(env, call.op, a).access;
      FieldRows(a, header) != FieldRows(b, header) ==>
        && FieldRows(b, header).Some?
        && Holds(env, Step(env, s, call).0.disk, header, FieldRows(b, header).value)
  {
    DoneSaves(env, s, call);
    var a := Load(env, s.disk).value;
    var c := Edit(env, call.op, a);
    if FieldRows(a, header) != FieldRows(c.access, header) {
      FieldIsSaved(env, s.disk, a, c.access, c.touched, header);
    }
  }

  lemma QuotaField(a: Access)
    ensures FieldRows(a, "access.user_data_quota") == Some(Numbers(a.dataQuota))
  {
    SectionIsField(a, UserDataQuota);
  }

  /** A quota given in a patch stands in the row of its user under `[access.user_data_quota]`. */
  lemma QuotaIsWritten(env: Env, s: State, call: Call, quota: Count)
    requires Faithful(env) && Step(env, s, call).1.Done?
    requires call.op.PatchUser? && call.op.patch.dataQuota == Set(quota)
    ensures Load(env, s.disk).Some?
    ensures var quotas := Load(env, s.disk).value.dataQuota;
      quotas != quotas[call.op.user := quota] ==>
        Holds(env, Step(env, s, call).0.disk, "access.user_data_quota", Numbers(quotas[call.op.user := quota]))
  {
    CallWritesFields(env, s, call, "access.user_data_quota");
    var a := Load(env, s.disk).value;
    QuotaField(a);
    QuotaField(Edit(env, call.op, a).access);
  }
}
