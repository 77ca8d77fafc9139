// What loading gives after a save.
module AccessSaves {
  import opened Basics
  import opened TomlTables
  import opened TomlBlocks
  import opened TomlEdits
  import opened ConfigSave
  import opened AccessUsers
  import opened AccessEdits
  import opened AccessFiles

  /** Nothing but the table the API finds has a say in what the section holds. */
  predicate Lone(env: Env, disk: string, section: AccessSection) {
    |Defining(env, disk, TableName(section))| == if Locate(disk, TableName(section)).Found? then 1 else 0
  }

  /** So for every section: no header with a comment or quotes, no dotted keys, no sub-tables, no table twice. */
  ghost predicate Clean(env: Env, disk: string) {
    forall section :: Lone(env, disk, section)
  }

  // ---- One table written ----

  lemma NewlineReads(env: Env, text: string, section: AccessSection)
    requires Faithful(env) && text != ""
    ensures |Defining(env, text + "\n", TableName(section))| == |Defining(env, text, TableName(section))|
    ensures ReadSection(env, text + "\n", section) == ReadSection(env, text, section)
  {
    var chosen := (block: string) => env.defines(TableName(section), block);
    var blocks := Blocks(Lines(text));
    AddedNewlineBlocks(text);
    var last := blocks[|blocks| - 1];
    assert env.defines(TableName(section), last + "\n") == env.defines(TableName(section), last);
    SelectPadded(blocks, "\n", chosen);
    if chosen(blocks[|blocks| - 1]) {
      PaddedReads(env, TableName(section), Select(blocks, chosen));
    }
  }

  lemma SeparatedReads(env: Env, disk: string, section: AccessSection)
    requires Faithful(env)
    ensures |Defining(env, Separated(disk), TableName(section))| == |Defining(env, disk, TableName(section))|
    ensures ReadSection(env, Separated(disk), section) == ReadSection(env, disk, section)
  {
    if disk != "" {
      NewlineReads(env, disk, section);
      NewlineReads(env, disk + "\n", section);
    }
  }

  /** A table under the header of a section has a say in that section and in no other. */
  lemma SectionOwns(env: Env, written: AccessSection, table: string, section: AccessSection)
    requires Faithful(env) && Exact(TableName(written), table)
    ensures env.defines(TableName(section), table) <==> section == written
  {
    SectionIsField(DefaultTables(), written);
    SectionIsField(DefaultTables(), section);
    assert Owns(env, TableName(written), table);
    if section != written {
      NamesDiffer(section, written);
    }
  }

  lemma ReplacedDefining(env: Env, disk: string, written: AccessSection, table: string, section: AccessSection)
    requires Faithful(env) && WellFormed(TableName(written), table) && Locate(disk, TableName(written)).Found?
    ensures var before := Defining(env, disk, TableName(section));
      var after := Defining(env, Upsert(disk, TableName(written), table), TableName(section));
      if section == written then |after| == |before| && before != [] && table in after else after == before
  {
    var name := TableName(written);
    var chosen := (block: string) => env.defines(TableName(section), block);
    var front, back := BlocksBefore(disk, name), BlocksAfter(disk, name);
    var found := Locate(disk, name).text;
    LocatedBlocks(disk, name);
    ReplacedBlocks(disk, name, table);
    LocatedExact(disk, name);
    SectionOwns(env, written, table, section);
    SectionOwns(env, written, found, section);
    SelectAround(front, found, back, chosen);
    SelectAround(front, table, back, chosen);
  }

  lemma AppendedDefining(env: Env, disk: string, written: AccessSection, table: string, section: AccessSection)
    requires Faithful(env) && WellFormed(TableName(written), table) && Locate(disk, TableName(written)).Absent?
    ensures var before := Defining(env, Separated(disk), TableName(section));
      Defining(env, Upsert(disk, TableName(written), table), TableName(section))
      == if section == written then before + [table] else before
  {
    var chosen := (block: string) => env.defines(TableName(section), block);
    AppendedBlocks(disk, TableName(written), table);
    SectionOwns(env, written, table, section);
    SelectSplit(Blocks(Lines(Separated(disk))), [table], chosen);
    SelectOne(table, chosen);
  }

  /** Writing one section does not change what another one reads as. */
  lemma UpsertReadsOther(env: Env, disk: string, written: AccessSection, table: string, section: AccessSection)
    requires Faithful(env) && WellFormed(TableName(written), table) && section != written
    ensures var after := Upsert(disk, TableName(written), table);
      && ReadSection(env, after, section) == ReadSection(env, disk, section)
      && |Defining(env, after, TableName(section))| == |Defining(env, disk, TableName(section))|
  {
    if Locate(disk, TableName(written)).Found? {
      ReplacedDefining(env, disk, written, table, section);
    } else {
      AppendedDefining(env, disk, written, table, section);
      SeparatedReads(env, disk, section);
    }
  }

  lemma UpsertFindsOther(disk: string, written: AccessSection, table: string, section: AccessSection)
    requires WellFormed(TableName(written), table) && section != written
    ensures Locate(Upsert(disk, TableName(written), table), TableName(section)).Found?
      == Locate(disk, TableName(section)).Found?
  {
    NamesDiffer(section, written);
    UpsertKeeps(disk, TableName(written), table, TableName(section));
  }

  /** The table written is one of the blocks its section is read from, in place of the one found or beside all. */
  lemma UpsertReadsOwn(env: Env, disk: string, section: AccessSection, table: string)
    requires Faithful(env) && WellFormed(TableName(section), table)
    ensures var after := Upsert(disk, TableName(section), table);
      && table in Defining(env, after, TableName(section))
      && Locate(after, TableName(section)).Found?
      && (|Defining(env, after, TableName(section))| == 1 <==> Lone(env, disk, section))
  {
    UpsertLocates(disk, TableName(section), table);
    if Locate(disk, TableName(section)).Found? {
      ReplacedDefining(env, disk, section, table, section);
    } else {
      AppendedDefining(env, disk, section, table, section);
      SeparatedReads(env, disk, section);
    }
  }

  lemma UpsertLone(env: Env, disk: string, written: AccessSection, table: string, section: AccessSection)
    requires Faithful(env) && WellFormed(TableName(written), table)
    ensures Lone(env, Upsert(disk, TableName(written), table), section) == Lone(env, disk, section)
  {
    if section == written {
      UpsertReadsOwn(env, disk, section, table);
    } else {
      UpsertReadsOther(env, disk, written, table, section);
      UpsertFindsOther(disk, written, table, section);
    }
  }

  // ---- A whole save ----

  /** Sections that are not asked for read as before, and stay as alone as they were. */
  lemma {:induction false} SaveReadsOthers(env: Env, disk: string, cfg: Config, sections: seq<AccessSection>,
                                           applied: seq<AccessSection>, section: AccessSection)
    requires Faithful(env) && Renders(cfg) && Save(disk, cfg, sections, applied).Ok?
    requires section !in sections || section in applied
    ensures ReadSection(env, Save(disk, cfg, sections, applied).value, section) == ReadSection(env, disk, section)
    decreases |sections|
  {
    if sections != [] {
      var first, rest := sections[0], sections[1..];
      if first in applied {
        SaveReadsOthers(env, disk, cfg, rest, applied, section);
      } else if Skipped(disk, cfg, first) {
        SaveReadsOthers(env, disk, cfg, rest, applied + [first], section);
      } else {
        var table := cfg.Render(first).value;
        SectionWellFormed(cfg, first);
        UpsertReadsOther(env, disk, first, table, section);
        SaveReadsOthers(env, Upsert(disk, TableName(first), table), cfg, rest, applied + [first], section);
      }
    }
  }

  lemma {:induction false} SaveLone(env: Env, disk: string, cfg: Config, sections: seq<AccessSection>,
                                    applied: seq<AccessSection>, section: AccessSection)
    requires Faithful(env) && Renders(cfg) && Save(disk, cfg, sections, applied).Ok?
    ensures Lone(env, Save(disk, cfg, sections, applied).value, section) == Lone(env, disk, section)
    decreases |sections|
  {
    if sections != [] {
      var first, rest := sections[0], sections[1..];
      if first in applied {
        SaveLone(env, disk, cfg, rest, applied, section);
      } else if Skipped(disk, cfg, first) {
        SaveLone(env, disk, cfg, rest, applied + [first], section);
      } else {
        var table := cfg.Render(first).value;
        SectionWellFormed(cfg, first);
        UpsertLone(env, disk, first, table, section);
        SaveLone(env, Upsert(disk, TableName(first), table), cfg, rest, applied + [first], section);
      }
    }
  }

  lemma WrittenSection(env: Env, disk: string, b: Access, section: AccessSection)
    requires Faithful(env) && Plain(env, b) && env.body(RowsOf(b, section)).Ok?
    ensures var table := WithHeader(TableName(section), env.body(RowsOf(b, section)).value);
      ReadsWritten(ReadSection(env, Upsert(disk, TableName(section), table), section), RowsOf(b, section),
                   Lone(env, disk, section))
  {
    PlainRenders(env, b);
    SectionWellFormed(ConfigOf(env, b), section);
    var table := ConfigOf(env, b).Render(section).value;
    UpsertReadsOwn(env, disk, section, table);
    WrittenReads(env, b, section, Defining(env, Upsert(disk, TableName(section), table), TableName(section)));
  }

  /** A section asked for: nothing happens to it, or its table is written. */
  ghost predicate Outcome(env: Env, disk: string, b: Access, section: AccessSection, after: string) {
    if Skipped(disk, ConfigOf(env, b), section)
    then ReadSection(env, after, section) == ReadSection(env, disk, section)
    else ReadsWritten(ReadSection(env, after, section), RowsOf(b, section), Lone(env, disk, section))
  }

  /** One section of the file after a save, whatever the order and the repetitions. */
  lemma {:induction false} SavedSection(env: Env, disk: string, b: Access, sections: seq<AccessSection>,
                                        applied: seq<AccessSection>, section: AccessSection)
    requires Faithful(env) && Plain(env, b) && Save(disk, ConfigOf(env, b), sections, applied).Ok?
    requires section in sections && section !in applied
    ensures Outcome(env, disk, b, section, Save(disk, ConfigOf(env, b), sections, applied).value)
    decreases |sections|
  {
    var cfg := ConfigOf(env, b);
    var first, rest := sections[0], sections[1..];
    PlainRenders(env, b);
    if first in applied {
      SavedSection(env, disk, b, rest, applied, section);
    } else if Skipped(disk, cfg, first) {
      if first == section {
        SaveReadsOthers(env, disk, cfg, rest, applied + [first], section);
      } else {
        SavedSection(env, disk, b, rest, applied + [first], section);
      }
    } else {
      var table := cfg.Render(first).value;
      var next := Upsert(disk, TableName(first), table);
      SectionWellFormed(cfg, first);
      if first == section {
        WrittenSection(env, disk, b, section);
        SaveReadsOthers(env, next, cfg, rest, applied + [first], section);
      } else {
        UpsertReadsOther(env, disk, first, table, section);
        UpsertFindsOther(disk, first, table, section);
        UpsertLone(env, disk, first, table, section);
        SavedSection(env, next, b, rest, applied + [first], section);
      }
    }
  }

  /**
   * Saving makes the section read as the new rows: there is nothing to write and nothing to change, or the table is
   * written into a file where it is alone, and its rows can be read.
   */
  predicate Lands(env: Env, disk: string, a: Access, b: Access, section: AccessSection) {
    if Skipped(disk, ConfigOf(env, b), section) then RowsOf(a, section) == RowsOf(b, section)
    else Lone(env, disk, section) && Readable(RowsOf(b, section))
  }

  /**
   * Writing the changed sections is enough exactly when each of them lands and every rate row limits a direction: then
   * the file loads as the whole new configuration.
   */
  lemma SavedIff(env: Env, disk: string, a: Access, b: Access, touched: seq<AccessSection>)
    requires Faithful(env) && Reads(env, disk, a) && Plain(env, b)
    requires Save(disk, ConfigOf(env, b), touched, []).Ok?
    requires forall section :: RowsOf(a, section) != RowsOf(b, section) ==> section in touched
    ensures Load(env, Save(disk, ConfigOf(env, b), touched, []).value) == Some(b)
      <==> RatesOk(b) && forall section :: section in touched ==> Lands(env, disk, a, b, section)
  {
    var after := Save(disk, ConfigOf(env, b), touched, []).value;
    LoadsIff(env, after, b);
    forall section ensures ReadSection(env, after, section) == Some(RowsOf(b, section))
      <==> (section in touched ==> Lands(env, disk, a, b, section))
    {
      if section in touched {
        SavedSection(env, disk, b, touched, [], section);
      } else {
        PlainRenders(env, b);
        SaveReadsOthers(env, disk, ConfigOf(env, b), touched, [], section);
      }
    }
  }

  lemma SkippedRows(env: Env, disk: string, a: Access, b: Access, section: AccessSection)
    requires Reads(env, disk, a) && Lone(env, disk, section) && b.users != map[]
    requires Skipped(disk, ConfigOf(env, b), section)
    ensures RowsOf(a, section) == RowsOf(b, section) && Readable(RowsOf(b, section))
  {
    assert KeysOf(RowsOf(b, section)) == {};
    EmptyIsDefault(b, section);
    assert ReadSection(env, disk, section) == Some(RowsOf(a, section));
  }

  lemma CleanLands(env: Env, disk: string, a: Access, b: Access, section: AccessSection)
    requires Reads(env, disk, a) && Clean(env, disk) && b.users != map[]
    ensures Lands(env, disk, a, b, section) <==> Readable(RowsOf(b, section))
  {
    assert Lone(env, disk, section);
    if Skipped(disk, ConfigOf(env, b), section) {
      SkippedRows(env, disk, a, b, section);
    }
  }

  /** The sections to be written can all be read back. */
  predicate AllReadable(b: Access, touched: seq<AccessSection>) {
    forall section :: section in touched ==> Readable(RowsOf(b, section))
  }

  lemma CleanReads(env: Env, disk: string, a: Access, b: Access, touched: seq<AccessSection>)
    requires Faithful(env) && Reads(env, disk, a) && Clean(env, disk) && Plain(env, b) && b.users != map[]
    requires Save(disk, ConfigOf(env, b), touched, []).Ok? && AllReadable(b, touched)
    requires forall section :: RowsOf(a, section) != RowsOf(b, section) ==> section in touched
    ensures Reads(env, Save(disk, ConfigOf(env, b), touched, []).value, b)
  {
    var after := Save(disk, ConfigOf(env, b), touched, []).value;
    forall section ensures ReadSection(env, after, section) == Some(RowsOf(b, section)) {
      CleanLands(env, disk, a, b, section);
      if section in touched {
        SavedSection(env, disk, b, touched, [], section);
      } else {
        PlainRenders(env, b);
        SaveReadsOthers(env, disk, ConfigOf(env, b), touched, [], section);
      }
    }
  }

  lemma NotSkipped(env: Env, disk: string, b: Access, section: AccessSection)
    requires !Readable(RowsOf(b, section))
    ensures !Skipped(disk, ConfigOf(env, b), section)
  {
    assert KeysOf(RowsOf(b, section)) != {};
  }

  /** One section that cannot be read back makes the file unloadable, whatever else is in it. */
  lemma UnreadableSaved(env: Env, disk: string, b: Access, touched: seq<AccessSection>)
    requires Faithful(env) && Plain(env, b) && Save(disk, ConfigOf(env, b), touched, []).Ok?
    requires !AllReadable(b, touched)
    ensures Load(env, Save(disk, ConfigOf(env, b), touched, []).value) == None
  {
    var section :| section in touched && !Readable(RowsOf(b, section));
    NotSkipped(env, disk, b, section);
    SavedSection(env, disk, b, touched, [], section);
    Unreadable(env, Save(disk, ConfigOf(env, b), touched, []).value, section);
  }

  /** So does a table written where something else, unseen by the API, speaks for its section. */
  lemma StraySaved(env: Env, disk: string, b: Access, touched: seq<AccessSection>, section: AccessSection)
    requires Faithful(env) && Plain(env, b) && Save(disk, ConfigOf(env, b), touched, []).Ok?
    requires section in touched && section != UserRateLimits && KeysOf(RowsOf(b, section)) != {}
    requires !Lone(env, disk, section)
    ensures Load(env, Save(disk, ConfigOf(env, b), touched, []).value) == None
  {
    SavedSection(env, disk, b, touched, [], section);
    Unreadable(env, Save(disk, ConfigOf(env, b), touched, []).value, section);
  }

  /** In a clean file a save leaves the new configuration or a file that does not load. */
  lemma SavedLoads(env: Env, disk: string, a: Access, b: Access, touched: seq<AccessSection>)
    requires Faithful(env) && Reads(env, disk, a) && Clean(env, disk) && Plain(env, b) && b.users != map[]
    requires Save(disk, ConfigOf(env, b), touched, []).Ok?
    requires forall section :: RowsOf(a, section) != RowsOf(b, section) ==> section in touched
    ensures Load(env, Save(disk, ConfigOf(env, b), touched, []).value)
      == if RatesOk(b) && AllReadable(b, touched) then Some(b) else None
  {
    if AllReadable(b, touched) {
      CleanReads(env, disk, a, b, touched);
      AssembledIff(env, Save(disk, ConfigOf(env, b), touched, []).value, b);
    } else {
      UnreadableSaved(env, disk, b, touched);
    }
  }

  lemma StaysClean(env: Env, disk: string, b: Access, touched: seq<AccessSection>)
    requires Faithful(env) && Clean(env, disk) && Plain(env, b) && Save(disk, ConfigOf(env, b), touched, []).Ok?
    ensures Clean(env, Save(disk, ConfigOf(env, b), touched, []).value)
  {
    PlainRenders(env, b);
    forall section ensures Lone(env, Save(disk, ConfigOf(env, b), touched, []).value, section) {
      assert Lone(env, disk, section);
      SaveLone(env, disk, ConfigOf(env, b), touched, [], section);
    }
  }
}
