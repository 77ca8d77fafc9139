// A file as blocks: what stands before the first header, then every header with the lines up to the next one.
module TomlBlocks {
  import opened TomlTables
  import opened TomlEdits

  function Blocks(lines: seq<string>): seq<string>
    decreases |lines|
  {
    if lines == [] then [] else
      var b := NextHeader(lines, 1);
      [Concat(lines[..b])] + Blocks(lines[b..])
  }

  /** The text is one table, under exactly this header. */
  predicate Exact(name: string, text: string) {
    TableLines(name, Lines(text))
  }

  lemma FirstBlock(x: seq<string>, y: seq<string>)
    requires x != [] && (y == [] || IsHeader(y[0]))
    ensures NextHeader(x + y, 1) == NextHeader(x, 1)
  {
    var b := NextHeader(x, 1);
    IndexAfter(x, y);
    NextHeaderIs(x + y, 1, b);
  }

  /** Text that starts with a header adds its own blocks. */
  lemma {:induction false} BlocksSplit(x: seq<string>, y: seq<string>)
    requires y == [] || IsHeader(y[0])
    ensures Blocks(x + y) == Blocks(x) + Blocks(y)
    decreases |x|
  {
    if x == [] {
      assert x + y == y;
    } else {
      var b := NextHeader(x, 1);
      FirstBlock(x, y);
      CutAt(x, y, b);
      BlocksSplit(x[b..], y);
      Assoc([Concat(x[..b])], Blocks(x[b..]), Blocks(y));
    }
  }

  lemma OneBlock(name: string, table: seq<string>)
    requires TableLines(name, table)
    ensures Blocks(table) == [Concat(table)]
  {
    NextHeaderIs(table, 1, |table|);
    assert table[..|table|] == table && table[|table|..] == [];
  }

  /** Blocks around a table. */
  lemma BlocksAround(front: seq<string>, name: string, table: seq<string>, back: seq<string>)
    requires TableLines(name, table) && (back == [] || IsHeader(back[0]))
    ensures Blocks(front + table + back) == Blocks(front) + [Concat(table)] + Blocks(back)
  {
    TargetIsHeader(table[0], name);
    BlocksSplit(front + table, back);
    BlocksSplit(front, table);
    OneBlock(name, table);
  }

  // ---- A newline at the end ----

  function PadLast(blocks: seq<string>, padding: string): seq<string>
    requires blocks != []
  {
    blocks[|blocks| - 1 := blocks[|blocks| - 1] + padding]
  }

  lemma PadAfter(first: seq<string>, rest: seq<string>, padding: string)
    requires rest != []
    ensures PadLast(first + rest, padding) == first + PadLast(rest, padding)
  {}

  /** The same header lines, and a newline more at the end. */
  predicate OneNewline(lines: seq<string>, more: seq<string>) {
    lines != [] && (more == lines + ["\n"] || more == lines[|lines| - 1 := lines[|lines| - 1] + "\n"])
  }

  lemma NewlineKeepsHeader(lines: seq<string>, more: seq<string>)
    requires OneNewline(lines, more)
    ensures var b := NextHeader(lines, 1);
      NextHeader(more, 1) == if b < |lines| then b else |more|
  {
    NewlineAlone();
    NewlineIsTrimmed(lines[|lines| - 1]);
    var b := NextHeader(lines, 1);
    assert forall j :: 0 <= j < |lines| ==> IsHeader(more[j]) == IsHeader(lines[j]);
    NextHeaderIs(more, 1, if b < |lines| then b else |more|);
  }

  lemma NewlineSplits(lines: seq<string>, more: seq<string>, b: nat)
    requires OneNewline(lines, more) && b < |lines|
    ensures OneNewline(lines[b..], more[b..]) && more[..b] == lines[..b]
  {
    if more == lines + ["\n"] {
      assert more[b..] == lines[b..] + ["\n"];
    } else {
      var k := |lines| - 1;
      assert more[b..] == lines[b..][k - b := lines[k] + "\n"];
    }
  }

  lemma NewlineConcat(lines: seq<string>, more: seq<string>)
    requires OneNewline(lines, more)
    ensures Concat(more) == Concat(lines) + "\n"
  {
    if more == lines + ["\n"] {
      ConcatSplit(lines, ["\n"]);
      ConcatOne("\n");
    } else {
      FinishedSlice(lines, 0, |lines|);
      assert lines[0..|lines|] == lines && more[0..|lines|] == more;
    }
  }

  lemma {:induction false} NewlineBlocks(lines: seq<string>, more: seq<string>)
    requires OneNewline(lines, more)
    ensures Blocks(lines) != [] && Blocks(more) == PadLast(Blocks(lines), "\n")
    decreases |lines|
  {
    var b := NextHeader(lines, 1);
    NewlineKeepsHeader(lines, more);
    if b < |lines| {
      NewlineSplits(lines, more, b);
      NewlineBlocks(lines[b..], more[b..]);
      PadAfter([Concat(lines[..b])], Blocks(lines[b..]), "\n");
    } else {
      NewlineConcat(lines, more);
      assert lines[..b] == lines && more[..|more|] == more;
      assert lines[b..] == [] && more[|more|..] == [];
    }
  }

  lemma AddedNewlineBlocks(text: string)
    requires text != ""
    ensures Blocks(Lines(text)) != []
    ensures Blocks(Lines(text + "\n")) == PadLast(Blocks(Lines(text)), "\n")
  {
    if Closed(text) {
      NewlineAlone();
      LinesSplit(text, "\n");
    } else {
      UnclosedLines(text);
    }
    NewlineBlocks(Lines(text), Lines(text + "\n"));
  }

  // ---- Blocks of the edited text ----

  lemma SliceLines(source: string, a: nat, b: nat)
    requires a <= b <= |Lines(source)|
    ensures Lines(Concat(Lines(source)[a..b])) == Lines(source)[a..b]
  {
    PrefixLines(source, b);
    SuffixLines(Concat(Lines(source)[..b]), a);
    assert Lines(source)[..b][a..] == Lines(source)[a..b];
  }

  /** A located table is a block of its own, under exactly its header. */
  lemma LocatedExact(source: string, name: string)
    requires Locate(source, name).Found?
    ensures Exact(name, Locate(source, name).text)
  {
    var lines := Lines(source);
    var a := Find(lines, name);
    SliceLines(source, a, NextHeader(lines, a + 1));
  }

  /** The blocks before and after the located table. */
  function BlocksBefore(source: string, name: string): seq<string> {
    Blocks(Lines(source)[..Find(Lines(source), name)])
  }

  function BlocksAfter(source: string, name: string): seq<string>
    requires Locate(source, name).Found?
  {
    Blocks(Lines(source)[NextHeader(Lines(source), Find(Lines(source), name) + 1)..])
  }

  lemma ThreeParts<T>(all: seq<T>, a: nat, b: nat)
    requires a <= b <= |all|
    ensures all == all[..a] + all[a..b] + all[b..]
  {}

  lemma LocatedBlocks(source: string, name: string)
    requires Locate(source, name).Found?
    ensures Blocks(Lines(source))
      == BlocksBefore(source, name) + [Locate(source, name).text] + BlocksAfter(source, name)
  {
    var lines := Lines(source);
    var a := Find(lines, name);
    var b := NextHeader(lines, a + 1);
    ThreeParts(lines, a, b);
    BlocksAround(lines[..a], name, lines[a..b], lines[b..]);
  }

  lemma ReplacedBlocks(source: string, name: string, table: string)
    requires WellFormed(name, table) && Locate(source, name).Found?
    ensures Blocks(Lines(Upsert(source, name, table)))
      == BlocksBefore(source, name) + [table] + BlocksAfter(source, name)
  {
    var lines := Lines(source);
    var a := Find(lines, name);
    ReplacedLines(source, name, table);
    BlocksAround(lines[..a], name, Lines(table), lines[NextHeader(lines, a + 1)..]);
    ConcatLines(table);
  }

  lemma AppendedBlocks(source: string, name: string, table: string)
    requires WellFormed(name, table)
    ensures Blocks(Lines(Separated(source) + table)) == Blocks(Lines(Separated(source))) + [table]
  {
    AppendedLines(source, table);
    var front := Lines(Separated(source));
    BlocksAround(front, name, Lines(table), []);
    assert front + Lines(table) + [] == front + Lines(table);
    ConcatLines(table);
  }

  // ---- Choosing blocks ----

  function Select(blocks: seq<string>, chosen: string -> bool): seq<string> {
    if blocks == [] then [] else
      (if chosen(blocks[0]) then [blocks[0]] else []) + Select(blocks[1..], chosen)
  }

  lemma {:induction false} SelectSplit(x: seq<string>, y: seq<string>, chosen: string -> bool)
    ensures Select(x + y, chosen) == Select(x, chosen) + Select(y, chosen)
  {
    if x == [] {
      assert x + y == y;
    } else {
      var first := if chosen(x[0]) then [x[0]] else [];
      SelectSplit(x[1..], y, chosen);
      CutAt(x, y, 1);
      Assoc(first, Select(x[1..], chosen), Select(y, chosen));
    }
  }

  lemma SelectOne(block: string, chosen: string -> bool)
    ensures Select([block], chosen) == if chosen(block) then [block] else []
  {}

  lemma SelectAround(front: seq<string>, block: string, back: seq<string>, chosen: string -> bool)
    ensures Select(front + [block] + back, chosen)
      == Select(front, chosen) + (if chosen(block) then [block] else []) + Select(back, chosen)
  {
    SelectSplit(front + [block], back, chosen);
    SelectSplit(front, [block], chosen);
    SelectOne(block, chosen);
  }

  /** Padding the last block shows only in the choice, and only if the last block is chosen. */
  lemma SelectPadded(blocks: seq<string>, padding: string, chosen: string -> bool)
    requires blocks != [] && chosen(blocks[|blocks| - 1] + padding) == chosen(blocks[|blocks| - 1])
    ensures var before, after := Select(blocks, chosen), Select(PadLast(blocks, padding), chosen);
      if chosen(blocks[|blocks| - 1]) then before != [] && after == PadLast(before, padding) else after == before
  {
    var k := |blocks| - 1;
    var front := blocks[..k];
    assert blocks == front + [blocks[k]] && PadLast(blocks, padding) == front + [blocks[k] + padding];
    SelectSplit(front, [blocks[k]], chosen);
    SelectSplit(front, [blocks[k] + padding], chosen);
    SelectOne(blocks[k], chosen);
    SelectOne(blocks[k] + padding, chosen);
  }
}
