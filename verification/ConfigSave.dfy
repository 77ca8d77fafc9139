// Saving access sections: the loop that writes the requested tables into the file, one by one.
module ConfigSave {
  import opened Basics
  import opened TomlTables
  import opened TomlEdits

  datatype AccessSection =
    | Users
    | UserEnabled
    | UserAdTags
    | UserMaxTcpConns
    | UserExpirations
    | UserDataQuota
    | UserRateLimits
    | UserMaxUniqueIps

  function TableName(section: AccessSection): string {
    match section
    case Users => "access.users"
    case UserEnabled => "access.user_enabled"
    case UserAdTags => "access.user_ad_tags"
    case UserMaxTcpConns => "access.user_max_tcp_conns"
    case UserExpirations => "access.user_expirations"
    case UserDataQuota => "access.user_data_quota"
    case UserRateLimits => "access.user_rate_limits"
    case UserMaxUniqueIps => "access.user_max_unique_ips"
  }

  /** Length and one letter tell the names apart. */
  function Mark(name: string): (nat, char) {
    (|name|, if |name| > 12 then name[12] else ' ')
  }

  function MarkOf(section: AccessSection): (r: (nat, char))
    ensures r == Mark(TableName(section))
  {
    match section
    case Users => (12, ' ')
    case UserEnabled => (19, 'e')
    case UserAdTags => (19, 'a')
    case UserMaxTcpConns => (25, 'm')
    case UserExpirations => (23, 'e')
    case UserDataQuota => (22, 'd')
    case UserRateLimits => (23, 'r')
    case UserMaxUniqueIps => (26, 'm')
  }

  lemma NamesDiffer(a: AccessSection, b: AccessSection)
    requires a != b
    ensures TableName(a) != TableName(b)
  {
    assert MarkOf(a) != MarkOf(b);
  }

  datatype Result<+T> = Ok(value: T) | Err(message: string)

  /** A configuration as far as a save looks at it: the rows of each section as text, and which have no rows. */
  datatype Config = Config(body: AccessSection -> Result<string>, empty: AccessSection -> bool) {
    function Render(section: AccessSection): Result<string> {
      match body(section)
      case Err(e) => Err(e)
      case Ok(rows) => Ok(WithHeader(TableName(section), rows))
    }
  }

  /** The header line, the rows, and a newline at the end if the rows have none. */
  function WithHeader(name: string, rows: string): string {
    var out := Target(name) + "\n" + rows;
    if EndsWithNewline(out) then out else out + "\n"
  }

  predicate NoHeaders(text: string) {
    forall line :: line in Lines(text) ==> !IsHeader(line)
  }

  /** No row looks like the header of a table. */
  ghost predicate Renders(cfg: Config) {
    forall s :: cfg.body(s).Ok? ==> NoHeaders(cfg.body(s).value)
  }

  lemma {:induction false} OneLine(text: string)
    requires '\n' !in text
    ensures FirstLine(text + "\n") == |text| + 1 && Lines(text + "\n") == [text + "\n"]
  {
    if text != "" {
      OneLine(text[1..]);
      assert (text + "\n")[1..] == text[1..] + "\n";
    }
    assert (text + "\n")[..|text| + 1] == text + "\n" && (text + "\n")[|text| + 1..] == "";
  }

  lemma HeaderLine(name: string)
    ensures IsTarget(Target(name) + "\n", name)
  {
    NewlineIsTrimmed(Target(name));
  }

  lemma NewlineSameKinds(text: string)
    requires !EndsWithNewline(text)
    ensures NoHeaders(text + "\n") <==> NoHeaders(text)
  {
    if text == "" {
      NewlineAlone();
      assert text + "\n" == "\n";
    } else {
      UnclosedLines(text);
      var lines := Lines(text);
      var k := |lines| - 1;
      NewlineIsTrimmed(lines[k]);
      var edited := lines[k := lines[k] + "\n"];
      assert forall j :: 0 <= j < |lines| ==> IsHeader(lines[j]) == IsHeader(edited[j]);
    }
  }

  lemma HeaderAndRows(name: string, rows: string)
    requires '\n' !in name && EndsWithNewline(Target(name) + "\n" + rows)
    ensures WellFormed(name, Target(name) + "\n" + rows) <==> NoHeaders(rows)
  {
    var header := Target(name) + "\n";
    OneLine(Target(name));
    HeaderLine(name);
    LinesSplit(header, rows);
    AfterFirst(header, Lines(rows));
  }

  /** A rendered section is a well-formed table exactly when none of its rows is a header. */
  lemma RenderedWellFormed(name: string, rows: string)
    requires '\n' !in name
    ensures WellFormed(name, WithHeader(name, rows)) <==> NoHeaders(rows)
  {
    var header := Target(name) + "\n";
    if EndsWithNewline(header + rows) {
      HeaderAndRows(name, rows);
    } else {
      Assoc(header, rows, "\n");
      HeaderAndRows(name, rows + "\n");
      NewlineSameKinds(rows);
    }
  }

  lemma AfterFirst(first: string, rest: seq<string>)
    ensures (forall j :: 1 <= j < |[first] + rest| ==> !IsHeader(([first] + rest)[j]))
      <==> forall line :: line in rest ==> !IsHeader(line)
  {
    var all := [first] + rest;
    assert forall j :: 0 <= j < |rest| ==> rest[j] == all[j + 1];
  }

  lemma SectionWellFormed(cfg: Config, section: AccessSection)
    requires Renders(cfg) && cfg.Render(section).Ok?
    ensures WellFormed(TableName(section), cfg.Render(section).value)
  {
    assert '\n' !in TableName(section);
    RenderedWellFormed(TableName(section), cfg.body(section).value);
  }

  /** A section without a table in the file and without rows is not written. */
  predicate Skipped(content: string, cfg: Config, section: AccessSection) {
    Locate(content, TableName(section)).Absent? && cfg.empty(section)
  }

  function Save(content: string, cfg: Config, sections: seq<AccessSection>, applied: seq<AccessSection>): Result<string>
    decreases |sections|
  {
    if sections == [] then Ok(content) else
      var section, rest := sections[0], sections[1..];
      if section in applied then Save(content, cfg, rest, applied)
      else if Skipped(content, cfg, section) then Save(content, cfg, rest, applied + [section])
      else match cfg.Render(section)
        case Err(e) => Err(e)
        case Ok(table) => Save(Upsert(content, TableName(section), table), cfg, rest, applied + [section])
  }

  // ---- What a save leaves alone ----

  /** As it was, or padded with blank lines because a table was appended after it. */
  predicate Kept(before: Located, after: Located) {
    || after == before
    || (&& before.Found? && before.last && after.Found? && !after.last
        && after.text in {before.text + "\n", before.text + "\n\n"}
        && (EndsWithNewline(before.text) ==> after.text == before.text + "\n"))
  }

  lemma KeptTwice(a: Located, b: Located, c: Located)
    requires Kept(a, b) && Kept(b, c)
    ensures Kept(a, c)
  {}

  /** The last table's text is the end of the file. */
  lemma LastIsSuffix(source: string, name: string)
    requires Locate(source, name).Found? && Locate(source, name).last
    ensures var text := Locate(source, name).text;
      |text| <= |source| && source[|source| - |text|..] == text && text != ""
  {
    var lines := Lines(source);
    var a := Find(lines, name);
    OffsetOfLine(source, a);
    assert lines[a..] == lines[a..|lines|];
    TargetNotEmpty(lines[a], name);
    assert Concat(lines[a..]) == lines[a] + Concat(lines[a..][1..]);
  }

  lemma TargetNotEmpty(line: string, name: string)
    requires IsTarget(line, name)
    ensures line != ""
  {}

  lemma UpsertKeeps(source: string, name: string, table: string, other: string)
    requires WellFormed(name, table) && name != other
    ensures Kept(Locate(source, other), Locate(Upsert(source, name, table), other))
  {
    UpsertKeepsOthers(source, name, table, other);
    var before := Locate(source, other);
    if before.Found? && before.last {
      LastIsSuffix(source, other);
    }
  }

  /** Tables that are not asked for keep their text. */
  lemma {:induction false} SaveKeepsOthers(content: string, cfg: Config, sections: seq<AccessSection>,
                                           applied: seq<AccessSection>, other: string)
    requires Renders(cfg) && Save(content, cfg, sections, applied).Ok?
    requires forall s :: s in sections && s !in applied ==> TableName(s) != other
    ensures Kept(Locate(content, other), Locate(Save(content, cfg, sections, applied).value, other))
    decreases |sections|
  {
    if sections != [] {
      var section, rest := sections[0], sections[1..];
      if section in applied {
        SaveKeepsOthers(content, cfg, rest, applied, other);
      } else if Skipped(content, cfg, section) {
        SaveKeepsOthers(content, cfg, rest, applied + [section], other);
      } else {
        var next := Upsert(content, TableName(section), cfg.Render(section).value);
        SectionWellFormed(cfg, section);
        UpsertKeeps(content, TableName(section), cfg.Render(section).value, other);
        SaveKeepsOthers(next, cfg, rest, applied + [section], other);
        KeptTwice(Locate(content, other), Locate(next, other),
          Locate(Save(next, cfg, rest, applied + [section]).value, other));
      }
    }
  }

  // ---- What a save writes ----

  /** The file shows the section: its rendering, possibly with one blank line after it, or nothing if it has no rows. */
  predicate Shows(content: string, cfg: Config, section: AccessSection) {
    match Locate(content, TableName(section))
    case Absent => cfg.empty(section)
    case Found(text, last) =>
      var r := cfg.Render(section);
      r.Ok? && (text == r.value || (!last && text == r.value + "\n"))
  }

  lemma KeptShows(before: string, after: string, cfg: Config, section: AccessSection)
    requires Renders(cfg) && Shows(before, cfg, section)
    requires Kept(Locate(before, TableName(section)), Locate(after, TableName(section)))
    ensures Shows(after, cfg, section)
  {
    if cfg.Render(section).Ok? {
      SectionWellFormed(cfg, section);
    }
  }

  lemma WrittenShows(content: string, cfg: Config, section: AccessSection)
    requires Renders(cfg) && cfg.Render(section).Ok?
    ensures Shows(Upsert(content, TableName(section), cfg.Render(section).value), cfg, section)
  {
    SectionWellFormed(cfg, section);
    UpsertLocates(content, TableName(section), cfg.Render(section).value);
  }

  lemma SavedKeeps(
      content: string, cfg: Config, sections: seq<AccessSection>, applied: seq<AccessSection>, section: AccessSection)
    requires Renders(cfg) && Save(content, cfg, sections, applied).Ok? && section in applied
    ensures Kept(Locate(content, TableName(section)),
                 Locate(Save(content, cfg, sections, applied).value, TableName(section)))
  {
    forall s | s in sections && s !in applied ensures TableName(s) != TableName(section) {
      NamesDiffer(s, section);
    }
    SaveKeepsOthers(content, cfg, sections, applied, TableName(section));
  }

  /** Whatever the order and the repetitions, every section asked for is shown by the result. */
  lemma {:induction false} SaveShows(content: string, cfg: Config, sections: seq<AccessSection>,
                                     applied: seq<AccessSection>, section: AccessSection)
    requires Renders(cfg) && Save(content, cfg, sections, applied).Ok?
    requires section in sections && section !in applied
    ensures Shows(Save(content, cfg, sections, applied).value, cfg, section)
    decreases |sections|
  {
    var first, rest := sections[0], sections[1..];
    if first in applied {
      SaveShows(content, cfg, rest, applied, section);
    } else {
      var next := if Skipped(content, cfg, first) then content
        else Upsert(content, TableName(first), cfg.Render(first).value);
      if first == section {
        if !Skipped(content, cfg, first) {
          WrittenShows(content, cfg, first);
        }
        SavedKeeps(next, cfg, rest, applied + [first], section);
        KeptShows(next, Save(next, cfg, rest, applied + [first]).value, cfg, section);
      } else {
        SaveShows(next, cfg, rest, applied + [first], section);
      }
    }
  }

  /** A save fails exactly when a section that has to be written does not render. */
  lemma {:induction false} SaveFailsIff(
      content: string, cfg: Config, sections: seq<AccessSection>, applied: seq<AccessSection>)
    requires Renders(cfg)
    ensures Save(content, cfg, sections, applied).Err?
      <==> exists s :: s in sections && s !in applied && !Skipped(content, cfg, s) && cfg.Render(s).Err?
    decreases |sections|
  {
    if sections != [] {
      var first, rest := sections[0], sections[1..];
      if first in applied {
        SaveFailsIff(content, cfg, rest, applied);
      } else if Skipped(content, cfg, first) {
        SaveFailsIff(content, cfg, rest, applied + [first]);
      } else if cfg.Render(first).Ok? {
        var next := Upsert(content, TableName(first), cfg.Render(first).value);
        SaveFailsIff(next, cfg, rest, applied + [first]);
        SectionWellFormed(cfg, first);
        forall s | s != first ensures Skipped(next, cfg, s) == Skipped(content, cfg, s) {
          NamesDiffer(first, s);
          UpsertKeeps(content, TableName(first), cfg.Render(first).value, TableName(s));
        }
      }
    }
  }

  lemma WrittenFinds(content: string, cfg: Config, first: AccessSection, section: AccessSection)
    requires Renders(cfg) && cfg.Render(first).Ok?
    ensures var next := Upsert(content, TableName(first), cfg.Render(first).value);
      Locate(next, TableName(section)).Found? <==> section == first || Locate(content, TableName(section)).Found?
  {
    SectionWellFormed(cfg, first);
    if section == first {
      UpsertLocates(content, TableName(first), cfg.Render(first).value);
    } else {
      NamesDiffer(first, section);
      UpsertKeeps(content, TableName(first), cfg.Render(first).value, TableName(section));
    }
  }

  /** After a save a section has a table exactly when it had one before, or was asked for and has rows. */
  lemma {:induction false} SaveFinds(content: string, cfg: Config, sections: seq<AccessSection>,
                                     applied: seq<AccessSection>, section: AccessSection)
    requires Renders(cfg) && Save(content, cfg, sections, applied).Ok?
    ensures Locate(Save(content, cfg, sections, applied).value, TableName(section)).Found?
      <==> || Locate(content, TableName(section)).Found?
           || (section in sections && section !in applied && !cfg.empty(section))
    decreases |sections|
  {
    if sections != [] {
      var first, rest := sections[0], sections[1..];
      if first in applied {
        SaveFinds(content, cfg, rest, applied, section);
      } else if Skipped(content, cfg, first) {
        SaveFinds(content, cfg, rest, applied + [first], section);
      } else {
        var next := Upsert(content, TableName(first), cfg.Render(first).value);
        WrittenFinds(content, cfg, first, section);
        SaveFinds(next, cfg, rest, applied + [first], section);
      }
    }
  }

  /** The loop of the save, on the text of the file. */
  method SaveAccessSections(content: string, cfg: Config, sections: seq<AccessSection>) returns (r: Result<string>)
    ensures r == Save(content, cfg, sections, [])
  {
    var text := content;
    var applied := [];
    for i := 0 to |sections|
      invariant Save(text, cfg, sections[i..], applied) == Save(content, cfg, sections, [])
    {
      var section := sections[i];
      assert sections[i..][1..] == sections[i + 1..];
      if section in applied {
        continue;
      }
      var bounds := FindTomlTableBounds(text, TableName(section));
      if bounds.None? && cfg.empty(section) {
        applied := applied + [section];
        continue;
      }
      var rendered := cfg.Render(section);
      if rendered.Err? {
        return Err(rendered.message);
      }
      text := UpsertTomlTable(text, TableName(section), rendered.value);
      applied := applied + [section];
    }
    return Ok(text);
  }
}
