// The names and secrets the API accepts, spelled out.
module AccessNames {
  import opened AccessUsers

  const DIGITS := "0123456789"
  const LOWER := "abcdefghijklmnopqrstuvwxyz"
  const UPPER := "ABCDEFGHIJKLMNOPQRSTUVWXYZ"
  const HEX_LOWER := "abcdef"
  const HEX_UPPER := "ABCDEF"

  /** The characters that follow each other in the order of characters. */
  predicate InOrder(row: string, first: char) {
    forall i :: 0 <= i < |row| ==> row[i] as int == first as int + i
  }

  lemma InRow(row: string, first: char, c: char)
    requires InOrder(row, first)
    ensures c in row <==> first as int <= c as int < first as int + |row|
  {
    if first as int <= c as int < first as int + |row| {
      assert row[c as int - first as int] == c;
    }
  }

  lemma AllInOrder()
    ensures InOrder(DIGITS, '0') && InOrder(LOWER, 'a') && InOrder(UPPER, 'A')
    ensures InOrder(HEX_LOWER, 'a') && InOrder(HEX_UPPER, 'A')
  {}

  /** A user name is one to sixty-four letters, digits, underscores, dots and hyphens. */
  lemma ValidUsernames(s: string)
    ensures IsValidUsername(s)
      <==> 1 <= |s| <= 64 && forall c :: c in s ==> c in DIGITS || c in LOWER || c in UPPER || c in {'_', '.', '-'}
  {
    AllInOrder();
    forall c ensures IsNameChar(c) <==> c in DIGITS || c in LOWER || c in UPPER || c in {'_', '.', '-'} {
      InRow(DIGITS, '0', c);
      InRow(LOWER, 'a', c);
      InRow(UPPER, 'A', c);
    }
  }

  /** A secret is thirty-two hexadecimal digits in either case. */
  lemma ValidSecrets(s: string)
    ensures IsValidSecret(s)
      <==> |s| == 32 && forall c :: c in s ==> c in DIGITS || c in HEX_LOWER || c in HEX_UPPER
  {
    AllInOrder();
    forall c ensures IsHexDigit(c) <==> c in DIGITS || c in HEX_LOWER || c in HEX_UPPER {
      InRow(DIGITS, '0', c);
      InRow(HEX_LOWER, 'a', c);
      InRow(HEX_UPPER, 'A', c);
    }
  }
}
