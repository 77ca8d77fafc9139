// What an upsert makes of the text, character by character.
module TomlTexts {
  import opened Basics
  import opened TomlTables
  import opened TomlEdits
  import opened TomlBlocks

  // ---- Trimming ----

  predicate AllBlank(s: string) {
    forall c :: c in s ==> IsWhitespace(c)
  }

  lemma {:induction false} TrimStartIs(s: string) returns (front: string)
    ensures s == front + TrimStart(s) && AllBlank(front)
    ensures TrimStart(s) != "" ==> !IsWhitespace(TrimStart(s)[0])
  {
    front := "";
    if s != "" && IsWhitespace(s[0]) {
      var rest := TrimStartIs(s[1..]);
      front := [s[0]] + rest;
      assert s == [s[0]] + s[1..];
    }
  }

  lemma {:induction false} TrimEndIs(s: string) returns (back: string)
    ensures s == TrimEnd(s) + back && AllBlank(back)
    ensures TrimEnd(s) != "" ==> !IsWhitespace(TrimEnd(s)[|TrimEnd(s)| - 1])
  {
    back := "";
    if s != "" && IsWhitespace(s[|s| - 1]) {
      var rest := TrimEndIs(s[..|s| - 1]);
      back := rest + [s[|s| - 1]];
      assert s == s[..|s| - 1] + [s[|s| - 1]];
    }
  }

  /** A trimmed line is the line between white space, and neither begins nor ends with any. */
  lemma TrimIs(s: string) returns (front: string, back: string)
    ensures s == front + Trim(s) + back && AllBlank(front) && AllBlank(back)
    ensures Trim(s) != "" ==> !IsWhitespace(Trim(s)[0]) && !IsWhitespace(Trim(s)[|Trim(s)| - 1])
  {
    back := TrimEndIs(s);
    front := TrimStartIs(TrimEnd(s));
  }

  lemma {:induction false} TrimStartAfterBlank(front: string, s: string)
    requires AllBlank(front) && s != "" && !IsWhitespace(s[0])
    ensures TrimStart(front + s) == s
  {
    if front == "" {
      assert front + s == s;
    } else {
      TrimStartAfterBlank(front[1..], s);
      assert (front + s)[1..] == front[1..] + s;
    }
  }

  lemma {:induction false} TrimEndKeepsFront(front: string, s: string)
    requires TrimEnd(s) != ""
    ensures TrimEnd(front + s) == front + TrimEnd(s)
    decreases |s|
  {
    if IsWhitespace(s[|s| - 1]) {
      TrimEndKeepsFront(front, s[..|s| - 1]);
      assert (front + s)[..|front + s| - 1] == front + s[..|s| - 1];
    }
  }

  /** White space before a word is trimmed, and the word stays the first thing there is. */
  lemma TrimAfterBlank(front: string, s: string)
    requires AllBlank(front) && s != "" && !IsWhitespace(s[0])
    ensures Trim(front + s) != "" && Trim(front + s)[0] == s[0]
  {
    WordStays(s);
    TrimEndKeepsFront(front, s);
    TrimStartAfterBlank(front, TrimEnd(s));
  }

  lemma {:induction false} WordStays(s: string)
    requires s != "" && !IsWhitespace(s[0])
    ensures TrimEnd(s) != "" && TrimEnd(s)[0] == s[0]
    decreases |s|
  {
    if IsWhitespace(s[|s| - 1]) {
      WordStays(s[..|s| - 1]);
    }
  }

  // ---- Upserting ----

  /** A table that is there is cut out of the text and the new one put in its place; all else stays as it is. */
  lemma ReplacedText(source: string, name: string, table: string) returns (front: string, back: string)
    requires Locate(source, name).Found?
    ensures source == front + Locate(source, name).text + back
    ensures Upsert(source, name, table) == front + table + back
    ensures Locate(front, name).Absent?
  {
    var a := Find(Lines(source), name);
    var b := NextHeader(Lines(source), a + 1);
    front, back := Concat(Lines(source)[..a]), Concat(Lines(source)[b..]);
    UpsertIsSplice(source, name, table);
    CutText(source, a, b);
    FrontHasNone(source, name);
  }

  lemma FrontHasNone(source: string, name: string)
    ensures Locate(Concat(Lines(source)[..Find(Lines(source), name)]), name).Absent?
  {
    var a := Find(Lines(source), name);
    PrefixLines(source, a);
    FindIs(Lines(source)[..a], name, a);
  }

  lemma CutText(source: string, a: nat, b: nat)
    requires a <= b <= |Lines(source)|
    ensures source == Concat(Lines(source)[..a]) + Concat(Lines(source)[a..b]) + Concat(Lines(source)[b..])
  {
    var lines := Lines(source);
    ConcatLines(source);
    ConcatSplit(lines[..a], lines[a..b]);
    ConcatSplit(lines[..a] + lines[a..b], lines[b..]);
    ThreeParts(lines, a, b);
  }

  /** A table that is not there goes to the end, after a blank line unless it is the first thing in the file. */
  lemma AppendedText(source: string, name: string, table: string)
    requires Locate(source, name).Absent?
    ensures Upsert(source, name, table)
      == source + (if source == "" then "" else if source[|source| - 1] == '\n' then "\n" else "\n\n") + table
  {
    if source != "" && source[|source| - 1] != '\n' {
      assert source + "\n" + "\n" == source + "\n\n";
    }
  }
}
