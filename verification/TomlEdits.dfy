// What editing one table does to the text: to that table and to every other one.
module TomlEdits {
  import opened Basics
  import opened TomlTables

  // ---- Lines of the edited text ----

  lemma ReplacedLines(source: string, name: string, table: string)
    requires EndsWithNewline(table) && Find(Lines(source), name) < |Lines(source)|
    ensures var lines := Lines(source);
      var a := Find(lines, name);
      Lines(Upsert(source, name, table)) == lines[..a] + Lines(table) + lines[NextHeader(lines, a + 1)..]
  {
    UpsertIsSplice(source, name, table);
    var a := Find(Lines(source), name);
    SplicedLines(source, a, NextHeader(Lines(source), a + 1), table);
  }

  lemma UpsertIsSplice(source: string, name: string, table: string)
    requires Find(Lines(source), name) < |Lines(source)|
    ensures var a := Find(Lines(source), name);
      Upsert(source, name, table) == Spliced(source, a, NextHeader(Lines(source), a + 1), table)
  {}

  lemma SplicedLines(source: string, a: nat, b: nat, table: string)
    requires a < b <= |Lines(source)| && EndsWithNewline(table)
    ensures var lines := Lines(source);
      Lines(Spliced(source, a, b, table)) == lines[..a] + Lines(table) + lines[b..]
  {
    PrefixLines(source, a);
    SuffixLines(source, b);
    JoinedLines(Concat(Lines(source)[..a]), table, Concat(Lines(source)[b..]));
  }

  lemma JoinedLines(front: string, table: string, back: string)
    requires Closed(front) && EndsWithNewline(table)
    ensures Lines(front + table + back) == Lines(front) + Lines(table) + Lines(back)
  {
    LinesSplit(front, table);
    ClosedConcat2(front, table);
    LinesSplit(front + table, back);
  }

  lemma ClosedConcat2(s: string, t: string)
    requires EndsWithNewline(t)
    ensures EndsWithNewline(s + t)
  {}

  lemma AppendedLines(source: string, table: string)
    ensures Closed(Separated(source))
    ensures Lines(Separated(source) + table) == Lines(Separated(source)) + Lines(table)
  {
    LinesSplit(Separated(source), table);
  }

  // ---- Adding a newline at the end ----

  /** The text of the last table grows; nothing else does. */
  function Extended(l: Located, padding: string): Located {
    if l.Found? && l.last then l.(text := l.text + padding) else l
  }

  lemma NewlineAlone()
    ensures Lines("\n") == ["\n"]
    ensures forall name :: !IsTarget("\n", name)
    ensures !IsHeader("\n")
  {
    assert FirstLine("\n") == 1;
    assert "\n"[..1] == "\n" && "\n"[1..] == "";
    assert "" + "\n" == "\n";
    NewlineIsTrimmed("");
  }

  lemma BlankLine(lines: seq<string>, name: string)
    ensures LocateIn(lines + ["\n"], name) == Extended(LocateIn(lines, name), "\n")
  {
    BlankFind(lines, name);
    var a := Find(lines, name);
    if a < |lines| {
      BlankAfter(lines, a + 1);
      BlankSlice(lines, a, NextHeader(lines, a + 1));
    }
  }

  lemma BlankFind(lines: seq<string>, name: string)
    ensures var a := Find(lines, name);
      Find(lines + ["\n"], name) == if a < |lines| then a else a + 1
  {
    NewlineAlone();
    var a := Find(lines, name);
    FindIs(lines + ["\n"], name, if a < |lines| then a else a + 1);
  }

  lemma BlankAfter(lines: seq<string>, from: nat)
    requires from <= |lines|
    ensures var b := NextHeader(lines, from);
      NextHeader(lines + ["\n"], from) == if b < |lines| then b else b + 1
  {
    NewlineAlone();
    var b := NextHeader(lines, from);
    NextHeaderIs(lines + ["\n"], from, if b < |lines| then b else b + 1);
  }

  lemma BlankSlice(lines: seq<string>, a: nat, b: nat)
    requires a < b <= |lines|
    ensures b < |lines| ==> Concat((lines + ["\n"])[a..b]) == Concat(lines[a..b])
    ensures b == |lines| ==> Concat((lines + ["\n"])[a..b + 1]) == Concat(lines[a..b]) + "\n"
  {
    if b < |lines| {
      assert (lines + ["\n"])[a..b] == lines[a..b];
    } else {
      assert (lines + ["\n"])[a..b + 1] == lines[a..b] + ["\n"];
      ConcatSplit(lines[a..b], ["\n"]);
      ConcatOne("\n");
    }
  }

  lemma ConcatOne(line: string)
    ensures Concat([line]) == line
  {
    assert [line][1..] == [];
    assert line + "" == line;
  }

  /** The unfinished last line is finished. */
  lemma FinishedLine(lines: seq<string>, name: string)
    requires lines != []
    ensures var k := |lines| - 1;
      LocateIn(lines[k := lines[k] + "\n"], name) == Extended(LocateIn(lines, name), "\n")
  {
    var k := |lines| - 1;
    var edited := lines[k := lines[k] + "\n"];
    SameKinds(lines, edited, name) by {
      NewlineIsTrimmed(lines[k]);
    }
    var a := Find(lines, name);
    if a < |lines| {
      FinishedSlice(lines, a, NextHeader(lines, a + 1));
    }
  }

  /** Where tables start and end depends on the trimmed lines only. */
  lemma SameKinds(lines: seq<string>, edited: seq<string>, name: string)
    requires |lines| == |edited|
    requires forall j :: 0 <= j < |lines| ==> Trim(edited[j]) == Trim(lines[j])
    ensures Find(edited, name) == Find(lines, name)
    ensures var a := Find(lines, name);
      a < |lines| ==> NextHeader(edited, a + 1) == NextHeader(lines, a + 1)
  {
    var a := Find(lines, name);
    FindIs(edited, name, a);
    if a < |lines| {
      NextHeaderIs(edited, a + 1, NextHeader(lines, a + 1));
    }
  }

  lemma FinishedSlice(lines: seq<string>, a: nat, b: nat)
    requires a < b <= |lines|
    ensures var k := |lines| - 1;
      Concat(lines[k := lines[k] + "\n"][a..b]) == Concat(lines[a..b]) + if b == |lines| then "\n" else ""
  {
    var k := |lines| - 1;
    var edited := lines[k := lines[k] + "\n"];
    if b < |lines| {
      assert edited[a..b] == lines[a..b];
    } else {
      assert edited[a..b] == lines[a..k] + [lines[k] + "\n"];
      assert lines[a..b] == lines[a..k] + [lines[k]];
      ConcatSplit(lines[a..k], [lines[k] + "\n"]);
      ConcatSplit(lines[a..k], [lines[k]]);
      ConcatOne(lines[k]);
      ConcatOne(lines[k] + "\n");
      Assoc(Concat(lines[a..k]), lines[k], "\n");
    }
  }

  lemma {:induction false} UnclosedLines(s: string)
    requires !Closed(s)
    ensures var lines := Lines(s);
      lines != [] && Lines(s + "\n") == lines[|lines| - 1 := lines[|lines| - 1] + "\n"]
    decreases |s|
  {
    var n := FirstLine(s);
    UnclosedFirst(s);
    var lines := Lines(s);
    if n == |s| {
      assert s[..n] == s && s[n..] == "";
      assert (s + "\n")[..n + 1] == s + "\n" && (s + "\n")[n + 1..] == "";
      assert Lines(s + "\n") == [s + "\n"];
    } else {
      assert (s + "\n")[..n] == s[..n] && (s + "\n")[n..] == s[n..] + "\n";
      UnclosedLines(s[n..]);
    }
  }

  /** A line that is not finished goes on up to the added newline. */
  lemma {:induction false} UnclosedFirst(s: string)
    requires !Closed(s)
    ensures FirstLine(s + "\n") == if FirstLine(s) == |s| then |s| + 1 else FirstLine(s)
    ensures FirstLine(s) < |s| ==> !Closed(s[FirstLine(s)..])
    decreases |s|
  {
    if s[0] != '\n' {
      if |s| == 1 {
        assert (s + "\n")[1..] == "\n";
      } else {
        assert (s + "\n")[1..] == s[1..] + "\n";
        UnclosedFirst(s[1..]);
        assert s[1..][FirstLine(s[1..])..] == s[FirstLine(s)..];
      }
    }
  }

  lemma AddedNewline(s: string, name: string)
    ensures Locate(s + "\n", name) == Extended(Locate(s, name), "\n")
  {
    if Closed(s) {
      NewlineAlone();
      LinesSplit(s, "\n");
      BlankLine(Lines(s), name);
    } else {
      UnclosedLines(s);
      FinishedLine(Lines(s), name);
    }
  }

  /** The newlines an append puts before the new table. */
  function Padding(source: string): string {
    if source == "" then "" else if EndsWithNewline(source) then "\n" else "\n\n"
  }

  lemma SeparatedLocates(source: string, name: string)
    ensures Locate(Separated(source), name) == Extended(Locate(source, name), Padding(source))
  {
    if source != "" {
      AddedNewline(source, name);
      AddedNewline(source + "\n", name);
      var l := Locate(source, name);
      assert l.Found? ==> l.text + "\n" + "\n" == l.text + "\n\n";
    }
  }

  // ---- Locating after an upsert ----

  /** The replacement is what is located, and it stands last exactly when it replaced the last table or was appended. */
  lemma UpsertLocates(source: string, name: string, table: string)
    requires WellFormed(name, table)
    ensures var before := Locate(source, name);
      Locate(Upsert(source, name, table), name) == Found(table, before.Absent? || before.last)
  {
    var lines := Lines(source);
    ConcatLines(table);
    if Find(lines, name) < |lines| {
      ReplacedLines(source, name, table);
      ReplacedIsFound(lines, name, Lines(table));
    } else {
      AppendLocates(source, name, table);
    }
  }

  lemma AppendLocates(source: string, name: string, table: string)
    requires WellFormed(name, table) && Locate(source, name).Absent?
    ensures Locate(Separated(source) + table, name) == Found(table, true)
  {
    ConcatLines(table);
    AppendedLines(source, table);
    SeparatedLocates(source, name);
    AppendedIsFound(Lines(Separated(source)), name, Lines(table));
  }

  /** Replacing a table leaves every other one as it was; appending only pads the last one. */
  lemma UpsertKeepsOthers(source: string, name: string, table: string, other: string)
    requires WellFormed(name, table) && name != other
    ensures var before := Locate(source, other);
      Locate(Upsert(source, name, table), other)
      == if Locate(source, name).Found? then before else NotLast(Extended(before, Padding(source)))
  {
    if Locate(source, name).Found? {
      ReplaceKeepsOthers(source, name, table, other);
    } else {
      AppendKeepsOthers(source, name, table, other);
    }
  }

  lemma ReplaceKeepsOthers(source: string, name: string, table: string, other: string)
    requires WellFormed(name, table) && name != other && Find(Lines(source), name) < |Lines(source)|
    ensures Locate(Upsert(source, name, table), other) == Locate(source, other)
  {
    ReplacedLines(source, name, table);
    ReplacedElsewhere(Lines(source), name, Lines(table), other);
  }

  lemma AppendKeepsOthers(source: string, name: string, table: string, other: string)
    requires WellFormed(name, table) && name != other
    ensures Locate(Separated(source) + table, other) == NotLast(Extended(Locate(source, other), Padding(source)))
  {
    AppendedLines(source, table);
    SeparatedLocates(source, other);
    AppendedElsewhere(Lines(Separated(source)), name, Lines(table), other);
  }

  // ---- The last write wins ----

  /** The text before and after a well-formed table does not depend on the table. */
  lemma UpsertAround(source: string, name: string, first: string, second: string, front: seq<string>, back: seq<string>)
    requires WellFormed(name, first)
    requires Lines(source) == front + Lines(first) + back
    requires forall j :: 0 <= j < |front| ==> !IsTarget(front[j], name)
    requires back != [] ==> IsHeader(back[0])
    ensures Upsert(source, name, second) == Concat(front) + second + Concat(back)
  {
    PlacedBetween(front, Lines(first), back, name, Lines(source));
    Around(front, Lines(first), back);
  }

  /** A second upsert gives what it would have given alone; in particular an upsert done twice is done once. */
  lemma UpsertOverwrites(source: string, name: string, first: string, second: string)
    requires WellFormed(name, first)
    ensures Upsert(Upsert(source, name, first), name, second) == Upsert(source, name, second)
  {
    if Locate(source, name).Found? {
      ReplacedTwice(source, name, first, second);
    } else {
      AppendedTwice(source, name, first, second);
    }
  }

  lemma ReplacedTwice(source: string, name: string, first: string, second: string)
    requires WellFormed(name, first) && Find(Lines(source), name) < |Lines(source)|
    ensures Upsert(Upsert(source, name, first), name, second) == Upsert(source, name, second)
  {
    var lines := Lines(source);
    var a := Find(lines, name);
    ReplacedLines(source, name, first);
    UpsertAround(Upsert(source, name, first), name, first, second, lines[..a], lines[NextHeader(lines, a + 1)..]);
  }

  lemma AppendedTwice(source: string, name: string, first: string, second: string)
    requires WellFormed(name, first) && Locate(source, name).Absent?
    ensures Upsert(Separated(source) + first, name, second) == Separated(source) + second
  {
    var front := Lines(Separated(source));
    AppendedLines(source, first);
    SeparatedLocates(source, name);
    assert front + Lines(first) + [] == front + Lines(first);
    UpsertAround(Separated(source) + first, name, first, second, front, []);
    ConcatLines(Separated(source));
    assert Concat(front) + second + "" == Concat(front) + second;
  }

  // ---- The loops of the source ----

  /** Offsets in the text and numbers of lines describe the same places. */
  lemma OffsetOfLine(source: string, k: nat)
    requires k <= |Lines(source)|
    ensures var offset := |Concat(Lines(source)[..k])|;
      && offset <= |source|
      && source[..offset] == Concat(Lines(source)[..k])
      && source[offset..] == Concat(Lines(source)[k..])
  {
    var lines := Lines(source);
    ConcatLines(source);
    ConcatSplit(lines[..k], lines[k..]);
    assert lines[..k] + lines[k..] == lines;
  }

  lemma NextOffset(lines: seq<string>, i: nat)
    requires i < |lines|
    ensures |Concat(lines[..i + 1])| == |Concat(lines[..i])| + |lines[i]|
  {
    assert lines[..i + 1] == lines[..i] + [lines[i]];
    ConcatSplit(lines[..i], [lines[i]]);
    ConcatOne(lines[i]);
  }

  /** What the scan knows after `i` lines without having seen the end of the table. */
  ghost predicate Scanned(lines: seq<string>, name: string, i: nat, offset: nat, start: Option<nat>) {
    && i <= |lines|
    && offset == |Concat(lines[..i])|
    && var a := Find(lines, name);
      if i <= a then start == None
      else start == Some(|Concat(lines[..a])|) && i <= NextHeader(lines, a + 1)
  }

  lemma ScanOn(lines: seq<string>, name: string, i: nat, offset: nat, start: Option<nat>)
    requires Scanned(lines, name, i, offset, start) && i < |lines|
    requires start.Some? ==> !IsHeader(lines[i])
    ensures var next := if start.None? && IsTarget(lines[i], name) then Some(offset) else start;
      Scanned(lines, name, i + 1, offset + |lines[i]|, next)
  {
    NextOffset(lines, i);
  }

  method FindTomlTableBounds(source: string, name: string) returns (bounds: Option<(nat, nat)>)
    ensures bounds == Bounds(source, name)
  {
    var target := Target(name);
    var offset: nat := 0;
    var start: Option<nat> := None;
    var lines := Lines(source);
    for i := 0 to |lines|
      invariant Scanned(lines, name, i, offset, start)
    {
      var trimmed := Trim(lines[i]);
      if start.Some? && trimmed != "" && trimmed[0] == '[' {
        return Some((start.value, offset));
      }
      ScanOn(lines, name, i, offset, start);
      if start.None? && trimmed == target {
        start := Some(offset);
      }
      offset := offset + |lines[i]|;
    }
    assert lines[..|lines|] == lines;
    ConcatLines(source);
    return if start.Some? then Some((start.value, |source|)) else None;
  }

  method UpsertTomlTable(source: string, name: string, replacement: string) returns (out: string)
    ensures out == Upsert(source, name, replacement)
  {
    var bounds := FindTomlTableBounds(source, name);
    if bounds.Some? {
      var lines := Lines(source);
      ghost var a := Find(lines, name);
      OffsetOfLine(source, a);
      OffsetOfLine(source, NextHeader(lines, a + 1));
      out := source[..bounds.value.0] + replacement + source[bounds.value.1..];
    } else {
      out := source;
      if out != "" && out[|out| - 1] != '\n' {
        out := out + "\n";
      }
      if out != "" {
        out := out + "\n";
      }
      out := out + replacement;
    }
  }
}
