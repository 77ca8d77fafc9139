// Editing a TOML file by line: finding one table, replacing it or appending it.
module TomlTables {
  import opened Basics

  // ---- Lines ----

  /** Length of the first line, its newline included. */
  function FirstLine(s: string): (n: nat)
    requires s != ""
    ensures 0 < n <= |s|
  {
    if s[0] == '\n' || |s| == 1 then 1 else 1 + FirstLine(s[1..])
  }

  /** `split_inclusive('\n')`: every line keeps its newline, the last one may have none. */
  function Lines(s: string): seq<string>
    decreases |s|
  {
    if s == "" then [] else [s[..FirstLine(s)]] + Lines(s[FirstLine(s)..])
  }

  function Concat(lines: seq<string>): string {
    if lines == [] then "" else lines[0] + Concat(lines[1..])
  }

  predicate EndsWithNewline(s: string) {
    s != "" && s[|s| - 1] == '\n'
  }

  /** Text after which a new line starts. */
  predicate Closed(s: string) {
    s == "" || EndsWithNewline(s)
  }

  /** Unicode `White_Space`. */
  predicate IsWhitespace(c: char) {
    var x := c as int;
    || 0x9 <= x <= 0xD || x == 0x20 || x == 0x85 || x == 0xA0 || x == 0x1680 || 0x2000 <= x <= 0x200A
    || x == 0x2028 || x == 0x2029 || x == 0x202F || x == 0x205F || x == 0x3000
  }

  function TrimStart(s: string): string {
    if s != "" && IsWhitespace(s[0]) then TrimStart(s[1..]) else s
  }

  function TrimEnd(s: string): string {
    if s != "" && IsWhitespace(s[|s| - 1]) then TrimEnd(s[..|s| - 1]) else s
  }

  function Trim(s: string): string {
    TrimStart(TrimEnd(s))
  }

  function Target(name: string): string {
    "[" + name + "]"
  }

  predicate IsTarget(line: string, name: string) {
    Trim(line) == Target(name)
  }

  predicate IsHeader(line: string) {
    Trim(line) != "" && Trim(line)[0] == '['
  }

  lemma TargetIsHeader(line: string, name: string)
    requires IsTarget(line, name)
    ensures IsHeader(line)
  {}

  lemma TargetNames(line: string, name: string, other: string)
    requires IsTarget(line, name) && IsTarget(line, other)
    ensures name == other
  {
    assert name == Target(name)[1..|name| + 1];
    assert other == Target(other)[1..|other| + 1];
  }

  /** A newline at the end of a line does not change what kind of line it is. */
  lemma NewlineIsTrimmed(line: string)
    ensures Trim(line + "\n") == Trim(line)
  {
    assert (line + "\n")[..|line|] == line;
  }

  lemma Assoc<T>(a: seq<T>, b: seq<T>, c: seq<T>)
    ensures a + (b + c) == (a + b) + c
  {}

  lemma IndexAfter<T>(front: seq<T>, tail: seq<T>)
    ensures forall j :: 0 <= j < |front| ==> (front + tail)[j] == front[j]
    ensures forall j :: |front| <= j < |front| + |tail| ==> (front + tail)[j] == tail[j - |front|]
  {}

  lemma {:induction false} ConcatLines(s: string)
    ensures Concat(Lines(s)) == s
    decreases |s|
  {
    if s != "" {
      ConcatLines(s[FirstLine(s)..]);
      assert s == s[..FirstLine(s)] + s[FirstLine(s)..];
    }
  }

  lemma {:induction false} ConcatSplit(a: seq<string>, b: seq<string>)
    ensures Concat(a + b) == Concat(a) + Concat(b)
  {
    if a == [] {
      assert a + b == b;
    } else {
      ConcatSplit(a[1..], b);
      assert (a + b)[1..] == a[1..] + b;
      Assoc(a[0], Concat(a[1..]), Concat(b));
    }
  }

  lemma {:induction false} FirstLineOfClosed(s: string, t: string)
    requires EndsWithNewline(s)
    ensures FirstLine(s + t) == FirstLine(s)
    ensures Closed(s[FirstLine(s)..])
    decreases |s|
  {
    if s[0] != '\n' && |s| > 1 {
      assert (s + t)[1..] == s[1..] + t;
      FirstLineOfClosed(s[1..], t);
      assert s[1..][FirstLine(s[1..])..] == s[FirstLine(s)..];
    }
  }

  /** Text that ends a line can be split off before the rest is read. */
  lemma {:induction false} LinesSplit(s: string, t: string)
    requires Closed(s)
    ensures Lines(s + t) == Lines(s) + Lines(t)
    decreases |s|
  {
    if s == "" {
      assert s + t == t;
    } else {
      var n := FirstLine(s);
      FirstLineOfClosed(s, t);
      LinesSplit(s[n..], t);
      CutAt(s, t, n);
      calc {
        Lines(s + t);
        [s[..n]] + Lines(s[n..] + t);
        [s[..n]] + (Lines(s[n..]) + Lines(t));
        { Assoc([s[..n]], Lines(s[n..]), Lines(t)); }
        [s[..n]] + Lines(s[n..]) + Lines(t);
      }
    }
  }

  lemma CutAt<T>(s: seq<T>, t: seq<T>, n: nat)
    requires n <= |s|
    ensures (s + t)[..n] == s[..n] && (s + t)[n..] == s[n..] + t
  {}

  lemma {:induction false} FirstLineAlone(s: string)
    requires s != ""
    ensures Lines(s[..FirstLine(s)]) == [s[..FirstLine(s)]]
    ensures FirstLine(s) < |s| ==> EndsWithNewline(s[..FirstLine(s)])
    decreases |s|
  {
    FirstLineOf(s);
    var f := s[..FirstLine(s)];
    assert f[FirstLine(f)..] == "" && f[..FirstLine(f)] == f;
  }

  lemma {:induction false} FirstLineOf(s: string)
    requires s != ""
    ensures FirstLine(s[..FirstLine(s)]) == FirstLine(s)
    ensures FirstLine(s) < |s| ==> s[FirstLine(s) - 1] == '\n'
    decreases |s|
  {
    if s[0] != '\n' && |s| > 1 {
      FirstLineOf(s[1..]);
      assert s[..FirstLine(s)][1..] == s[1..][..FirstLine(s[1..])];
    }
  }

  /** The first `k` lines of a text end a line, unless they are all of it. */
  lemma {:induction false} PrefixLines(s: string, k: nat)
    requires k <= |Lines(s)|
    ensures Lines(Concat(Lines(s)[..k])) == Lines(s)[..k]
    ensures k < |Lines(s)| ==> Closed(Concat(Lines(s)[..k]))
    decreases |s|
  {
    if k > 0 {
      var n := FirstLine(s);
      var first, rest := s[..n], Lines(s[n..])[..k - 1];
      assert Lines(s)[..k] == [first] + rest;
      assert Lines(s)[..k][0] == first && Lines(s)[..k][1..] == rest;
      PrefixLines(s[n..], k - 1);
      FirstLineAlone(s);
      if n < |s| {
        LinesSplit(first, Concat(rest));
        ClosedConcat(first, Concat(rest));
      } else {
        assert s[n..] == "" && rest == [];
        assert first + Concat(rest) == first;
      }
    }
  }

  lemma ClosedConcat(s: string, t: string)
    requires EndsWithNewline(s)
    ensures Closed(t) ==> Closed(s + t)
  {}

  lemma {:induction false} SuffixLines(s: string, k: nat)
    requires k <= |Lines(s)|
    ensures Lines(Concat(Lines(s)[k..])) == Lines(s)[k..]
    decreases |s|
  {
    if k == 0 {
      ConcatLines(s);
      assert Lines(s)[0..] == Lines(s);
    } else {
      SuffixLines(s[FirstLine(s)..], k - 1);
      assert Lines(s)[k..] == Lines(s[FirstLine(s)..])[k - 1..];
    }
  }

  // ---- Locating a table ----

  /** The first header line of the table, or the number of lines. */
  function Find(lines: seq<string>, name: string): (a: nat)
    ensures a <= |lines|
    ensures forall j :: 0 <= j < a ==> !IsTarget(lines[j], name)
    ensures a < |lines| ==> IsTarget(lines[a], name)
  {
    if lines == [] || IsTarget(lines[0], name) then 0 else 1 + Find(lines[1..], name)
  }

  /** The first header line from `from` on, or the number of lines. */
  function NextHeader(lines: seq<string>, from: nat): (b: nat)
    requires from <= |lines|
    ensures from <= b <= |lines|
    ensures forall j :: from <= j < b ==> !IsHeader(lines[j])
    ensures b < |lines| ==> IsHeader(lines[b])
    decreases |lines| - from
  {
    if from == |lines| || IsHeader(lines[from]) then from else NextHeader(lines, from + 1)
  }

  /** Where a table is: its text, and whether it is the last one in the file. */
  datatype Located = Absent | Found(text: string, last: bool)

  function LocateIn(lines: seq<string>, name: string): Located {
    var a := Find(lines, name);
    if a == |lines| then Absent else
      var b := NextHeader(lines, a + 1);
      Found(Concat(lines[a..b]), b == |lines|)
  }

  function Locate(source: string, name: string): Located {
    LocateIn(Lines(source), name)
  }

  /** What the source returns: byte offsets of the table. */
  function Bounds(source: string, name: string): Option<(nat, nat)> {
    var lines := Lines(source);
    var a := Find(lines, name);
    if a == |lines| then None else
      Some((|Concat(lines[..a])|, |Concat(lines[..NextHeader(lines, a + 1)])|))
  }

  lemma FindIs(lines: seq<string>, name: string, a: nat)
    requires a <= |lines|
    requires forall j :: 0 <= j < a ==> !IsTarget(lines[j], name)
    requires a < |lines| ==> IsTarget(lines[a], name)
    ensures Find(lines, name) == a
  {}

  lemma NextHeaderIs(lines: seq<string>, from: nat, b: nat)
    requires from <= b <= |lines|
    requires forall j :: from <= j < b ==> !IsHeader(lines[j])
    requires b < |lines| ==> IsHeader(lines[b])
    ensures NextHeader(lines, from) == b
  {}

  // ---- Replacing or appending a table ----

  /** A rendered table: its header first, no other header, and a final newline. */
  predicate WellFormed(name: string, table: string) {
    var lines := Lines(table);
    && lines != [] && IsTarget(lines[0], name)
    && (forall j :: 1 <= j < |lines| ==> !IsHeader(lines[j]))
    && EndsWithNewline(table)
  }

  /** The text with a blank line after it, ready for another table. */
  function Separated(source: string): string {
    var closed := if source != "" && !EndsWithNewline(source) then source + "\n" else source;
    if closed != "" then closed + "\n" else closed
  }

  /** The text with lines `a` up to `b` replaced. */
  function Spliced(source: string, a: nat, b: nat, table: string): string
    requires a <= b <= |Lines(source)|
  {
    Concat(Lines(source)[..a]) + table + Concat(Lines(source)[b..])
  }

  /** The text with the table put at line `a`, over the table there or else at the end. */
  function PlacedAtLine(source: string, a: nat, table: string): string {
    if a < |Lines(source)| then Spliced(source, a, NextHeader(Lines(source), a + 1), table)
    else Separated(source) + table
  }

  function Upsert(source: string, name: string, table: string): string {
    PlacedAtLine(source, Find(Lines(source), name), table)
  }

  // ---- Replacing, line by line ----

  predicate TableLines(name: string, table: seq<string>) {
    && table != [] && IsTarget(table[0], name)
    && forall j :: 1 <= j < |table| ==> !IsHeader(table[j])
  }

  /** A table lies where its first header is, up to the next header. */
  lemma PlacedAt(lines: seq<string>, name: string, c: nat, d: nat)
    requires c < d <= |lines|
    requires forall j :: 0 <= j < c ==> !IsTarget(lines[j], name)
    requires IsTarget(lines[c], name)
    requires forall j :: c < j < d ==> !IsHeader(lines[j])
    requires d < |lines| ==> IsHeader(lines[d])
    ensures Find(lines, name) == c && NextHeader(lines, c + 1) == d
    ensures LocateIn(lines, name) == Found(Concat(lines[c..d]), d == |lines|)
  {
    FindIs(lines, name, c);
    NextHeaderIs(lines, c + 1, d);
  }

  lemma Around<T>(front: seq<T>, table: seq<T>, back: seq<T>)
    ensures var all := front + table + back;
      && |all| == |front| + |table| + |back|
      && all[..|front|] == front && all[|front|..|front| + |table|] == table && all[|front| + |table|..] == back
      && (forall j :: 0 <= j < |front| ==> all[j] == front[j])
      && (forall j :: |front| <= j < |front| + |table| ==> all[j] == table[j - |front|])
      && (back != [] ==> all[|front| + |table|] == back[0])
  {}

  lemma PlacedBetween(front: seq<string>, table: seq<string>, back: seq<string>, name: string, all: seq<string>)
    requires TableLines(name, table) && all == front + table + back
    requires forall j :: 0 <= j < |front| ==> !IsTarget(front[j], name)
    requires back != [] ==> IsHeader(back[0])
    ensures Find(all, name) == |front| && NextHeader(all, |front| + 1) == |front| + |table|
    ensures LocateIn(all, name) == Found(Concat(table), back == [])
  {
    Around(front, table, back);
    PlacedAt(all, name, |front|, |front| + |table|);
  }

  lemma ReplacedIsFound(lines: seq<string>, name: string, table: seq<string>)
    requires TableLines(name, table) && Find(lines, name) < |lines|
    ensures var a := Find(lines, name);
      var b := NextHeader(lines, a + 1);
      LocateIn(lines[..a] + table + lines[b..], name) == Found(Concat(table), b == |lines|)
  {
    var a := Find(lines, name);
    var b := NextHeader(lines, a + 1);
    PlacedBetween(lines[..a], table, lines[b..], name, lines[..a] + table + lines[b..]);
  }

  lemma SameSlice<T>(all: seq<T>, moved: seq<T>, c0: nat, d0: nat, c: nat, d: nat)
    requires c0 < d0 <= |all| && c < d <= |moved| && moved[c..d] == all[c0..d0]
    ensures d - c == d0 - c0
    ensures forall j :: c <= j < d ==> moved[j] == all[j - c + c0]
  {
    forall j | c <= j < d ensures moved[j] == all[j - c + c0] {
      assert moved[j] == moved[c..d][j - c] && all[j - c + c0] == all[c0..d0][j - c];
    }
  }

  /** The same lines of the table, at another place, between the same kind of neighbours. */
  lemma LocatedAgain(lines: seq<string>, edited: seq<string>, other: string, c: nat, d: nat)
    requires Find(lines, other) < |lines| && c < d <= |edited|
    requires var c0 := Find(lines, other); edited[c..d] == lines[c0..NextHeader(lines, c0 + 1)]
    requires forall j :: 0 <= j < c ==> !IsTarget(edited[j], other)
    requires d < |edited| ==> IsHeader(edited[d])
    requires d == |edited| <==> NextHeader(lines, Find(lines, other) + 1) == |lines|
    ensures LocateIn(edited, other) == LocateIn(lines, other)
  {
    var c0 := Find(lines, other);
    var d0 := NextHeader(lines, c0 + 1);
    SameSlice(lines, edited, c0, d0, c, d);
    PlacedAt(edited, other, c, d);
  }

  /** Text that starts with the same lines up to the end of a table has the table. */
  lemma KeptFront(lines: seq<string>, back: seq<string>, k: nat, other: string)
    requires Find(lines, other) < k < |lines| && IsHeader(lines[k])
    requires back != [] && IsHeader(back[0])
    ensures LocateIn(lines[..k] + back, other) == LocateIn(lines, other)
  {
    var c := Find(lines, other);
    var d := NextHeader(lines, c + 1);
    assert d <= k;
    FrontSlice(lines, back, k, c, d);
    LocatedAgain(lines, lines[..k] + back, other, c, d);
  }

  lemma FrontSlice<T>(all: seq<T>, back: seq<T>, k: nat, lo: nat, hi: nat)
    requires lo < hi <= k < |all| && back != []
    ensures (all[..k] + back)[lo..hi] == all[lo..hi]
    ensures (all[..k] + back)[hi] == if hi < k then all[hi] else back[0]
    ensures forall j :: 0 <= j < hi ==> (all[..k] + back)[j] == all[j]
  {}

  lemma FirstOf<T>(a: seq<T>, b: seq<T>)
    requires a != []
    ensures a + b != [] && (a + b)[0] == a[0]
  {}

  /** A table before the replaced one ends at the latest at the replaced one's header, which stays a header. */
  lemma ReplacedAfter(lines: seq<string>, name: string, table: seq<string>, other: string)
    requires TableLines(name, table) && Find(lines, other) < Find(lines, name) < |lines|
    ensures var a := Find(lines, name);
      var b := NextHeader(lines, a + 1);
      LocateIn(lines[..a] + table + lines[b..], other) == LocateIn(lines, other)
  {
    var a := Find(lines, name);
    var rest := lines[NextHeader(lines, a + 1)..];
    TargetIsHeader(lines[a], name);
    TargetIsHeader(table[0], name);
    FirstOf(table, rest);
    KeptFront(lines, table + rest, a, other);
    Assoc(lines[..a], table, rest);
  }

  lemma NotInside(lines: seq<string>, name: string, other: string, j: nat)
    requires name != other && Find(lines, name) < |lines|
    requires Find(lines, name) <= j < NextHeader(lines, Find(lines, name) + 1)
    ensures !IsTarget(lines[j], other)
  {
    if IsTarget(lines[j], other) {
      TargetIsHeader(lines[j], other);
      TargetNames(lines[j], name, other);
    }
  }

  lemma NoTargetBefore(lines: seq<string>, name: string, table: seq<string>, other: string, j: nat)
    requires TableLines(name, table) && name != other && Find(lines, name) < |lines|
      && Find(lines, name) <= Find(lines, other)
    requires j < Find(lines, name) + |table|
    ensures !IsTarget((lines[..Find(lines, name)] + table)[j], other)
  {
    var a := Find(lines, name);
    if j < a {
      assert !IsTarget(lines[j], other);
    } else {
      NotTableOf(table, name, other, j - a);
    }
  }

  /** A table after the replaced one comes after all of it. */
  lemma OtherComesAfter(lines: seq<string>, name: string, other: string)
    requires name != other && Find(lines, name) < |lines| && Find(lines, name) <= Find(lines, other)
    ensures NextHeader(lines, Find(lines, name) + 1) <= Find(lines, other)
  {
    var a, c := Find(lines, name), Find(lines, other);
    if c < NextHeader(lines, a + 1) {
      NotInside(lines, name, other, c);
    }
  }

  lemma FrontHasNone(lines: seq<string>, name: string, table: seq<string>, other: string)
    requires TableLines(name, table) && name != other && Find(lines, name) < |lines|
      && Find(lines, name) <= Find(lines, other)
    ensures var front := lines[..Find(lines, name)] + table;
      forall j :: 0 <= j < |front| ==> !IsTarget(front[j], other)
  {
    var front := lines[..Find(lines, name)] + table;
    forall j | 0 <= j < |front| ensures !IsTarget(front[j], other) {
      NoTargetBefore(lines, name, table, other, j);
    }
  }

  lemma DropFront(lines: seq<string>, b: nat, other: string)
    requires b <= Find(lines, other)
    ensures LocateIn(lines[b..], other) == LocateIn(lines, other)
  {
    SameTail(lines[b..], lines, b, other);
  }

  /** A table after the replaced one, or none at all, is only moved. */
  lemma ReplacedBefore(lines: seq<string>, name: string, table: seq<string>, other: string)
    requires TableLines(name, table) && name != other && Find(lines, name) < |lines|
      && Find(lines, name) <= Find(lines, other)
    ensures var a := Find(lines, name);
      var b := NextHeader(lines, a + 1);
      LocateIn(lines[..a] + table + lines[b..], other) == LocateIn(lines, other)
  {
    var a := Find(lines, name);
    var b := NextHeader(lines, a + 1);
    OtherComesAfter(lines, name, other);
    FrontHasNone(lines, name, table, other);
    Prefixed(lines[..a] + table, lines[b..], other);
    DropFront(lines, b, other);
  }

  /** What comes before a table does not matter as long as it does not contain the table's header. */
  lemma Prefixed(front: seq<string>, tail: seq<string>, other: string)
    requires forall j :: 0 <= j < |front| ==> !IsTarget(front[j], other)
    ensures LocateIn(front + tail, other) == LocateIn(tail, other)
  {
    IndexAfter(front, tail);
    SameTail(tail, front + tail, |front|, other);
  }

  lemma SameTail(tail: seq<string>, all: seq<string>, k: nat, other: string)
    requires |all| == k + |tail|
    requires forall j :: 0 <= j < k ==> !IsTarget(all[j], other)
    requires forall j :: k <= j < |all| ==> all[j] == tail[j - k]
    ensures LocateIn(all, other) == LocateIn(tail, other)
  {
    var c := Find(tail, other);
    if c == |tail| {
      FindIs(all, other, |all|);
    } else {
      var d := NextHeader(tail, c + 1);
      EqualSlices(all, tail, k, c, d);
      PlacedAt(all, other, k + c, k + d);
    }
  }

  lemma EqualSlices<T>(all: seq<T>, tail: seq<T>, k: nat, lo: nat, hi: nat)
    requires |all| == k + |tail| && lo <= hi <= |tail|
    requires forall j :: k <= j < |all| ==> all[j] == tail[j - k]
    ensures all[k + lo..k + hi] == tail[lo..hi]
  {}

  /** Replacing a table leaves every other one as it was. */
  lemma ReplacedElsewhere(lines: seq<string>, name: string, table: seq<string>, other: string)
    requires TableLines(name, table) && name != other && Find(lines, name) < |lines|
    ensures var a := Find(lines, name);
      var b := NextHeader(lines, a + 1);
      LocateIn(lines[..a] + table + lines[b..], other) == LocateIn(lines, other)
  {
    if Find(lines, other) < Find(lines, name) {
      ReplacedAfter(lines, name, table, other);
    } else {
      ReplacedBefore(lines, name, table, other);
    }
  }

  lemma NotTableOf(table: seq<string>, name: string, other: string, j: nat)
    requires TableLines(name, table) && name != other && j < |table|
    ensures !IsTarget(table[j], other)
  {
    if IsTarget(table[j], other) {
      TargetIsHeader(table[j], other);
      TargetNames(table[0], name, other);
    }
  }

  // ---- Appending, line by line ----

  lemma AppendedIsFound(lines: seq<string>, name: string, table: seq<string>)
    requires TableLines(name, table) && Find(lines, name) == |lines|
    ensures LocateIn(lines + table, name) == Found(Concat(table), true)
  {
    var edited := lines + table;
    FindIs(edited, name, |lines|);
    NextHeaderIs(edited, |lines| + 1, |edited|);
    assert edited[|lines|..] == table;
    assert edited[|lines|..|edited|] == table;
  }

  function NotLast(l: Located): Located {
    if l.Found? then l.(last := false) else l
  }

  lemma AppendedElsewhere(lines: seq<string>, name: string, table: seq<string>, other: string)
    requires TableLines(name, table) && name != other
    ensures LocateIn(lines + table, other) == NotLast(LocateIn(lines, other))
  {
    var edited := lines + table;
    var c := Find(lines, other);
    TargetIsHeader(table[0], name);
    forall j | 0 <= j < |table| ensures !IsTarget(table[j], other) {
      NotTableOf(table, name, other, j);
    }
    if c == |lines| {
      FindIs(edited, other, |edited|);
    } else {
      var d := NextHeader(lines, c + 1);
      FindIs(edited, other, c);
      NextHeaderIs(edited, c + 1, d);
      assert edited[c..d] == lines[c..d];
    }
  }
}
