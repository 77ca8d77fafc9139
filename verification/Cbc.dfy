// CBC mode over any block permutation (section 6.2 of NIST SP 800-38A), allocating and in place.
module Cbc {
  const BLOCK_SIZE := 16

  type Block = b: seq<bv8> | |b| == 16 witness [0, 0, 0, 0, 0, 0, 0, 0, 0, 0, 0, 0, 0, 0, 0, 0]

  /** The block cipher under one key. */
  datatype Cipher = Cipher(encrypt: Block -> Block, decrypt: Block -> Block)

  ghost predicate Permutation(c: Cipher) {
    forall b: Block :: c.decrypt(c.encrypt(b)) == b && c.encrypt(c.decrypt(b)) == b
  }

  datatype Result<+T> = Ok(value: T) | Misaligned(got: nat)

  predicate Aligned(s: seq<bv8>) {
    |s| % BLOCK_SIZE == 0
  }

  function BlockAt(s: seq<bv8>, i: nat): Block
    requires 16 * i + 16 <= |s|
  {
    s[16 * i..16 * i + 16]
  }

  function Xor(a: Block, b: Block): Block {
    seq(16, i requires 0 <= i < 16 => a[i] ^ b[i])
  }

  lemma XorByte(x: bv8, y: bv8)
    ensures (x ^ y) ^ y == x
  {}

  lemma XorTwice(a: Block, b: Block)
    ensures Xor(Xor(a, b), b) == a
  {
    forall i | 0 <= i < 16 ensures Xor(Xor(a, b), b)[i] == a[i] {
      XorByte(a[i], b[i]);
    }
  }

  // ---- The mode ----

  /** The ciphertext block before block `i`. */
  function Prev(iv: Block, cipher: seq<bv8>, i: nat): Block
    requires 16 * i <= |cipher|
  {
    if i == 0 then iv else BlockAt(cipher, i - 1)
  }

  /** Block `i` follows the encryption equation. */
  ghost predicate EncryptedAt(c: Cipher, iv: Block, plain: seq<bv8>, cipher: seq<bv8>, i: nat)
    requires 16 * i + 16 <= |plain| && 16 * i + 16 <= |cipher|
  {
    BlockAt(cipher, i) == c.encrypt(Xor(BlockAt(plain, i), Prev(iv, cipher, i)))
  }

  /** Block `i` follows the decryption equation. */
  ghost predicate DecryptedAt(c: Cipher, iv: Block, plain: seq<bv8>, cipher: seq<bv8>, i: nat)
    requires 16 * i + 16 <= |plain| && 16 * i + 16 <= |cipher|
  {
    BlockAt(plain, i) == Xor(c.decrypt(BlockAt(cipher, i)), Prev(iv, cipher, i))
  }

  ghost predicate EncryptedTo(c: Cipher, iv: Block, plain: seq<bv8>, cipher: seq<bv8>, n: nat) {
    && 16 * n <= |plain| && 16 * n <= |cipher|
    && forall i :: 0 <= i < n ==> EncryptedAt(c, iv, plain, cipher, i)
  }

  ghost predicate DecryptedTo(c: Cipher, iv: Block, plain: seq<bv8>, cipher: seq<bv8>, n: nat) {
    && 16 * n <= |plain| && 16 * n <= |cipher|
    && forall i :: 0 <= i < n ==> DecryptedAt(c, iv, plain, cipher, i)
  }

  ghost predicate Encrypted(c: Cipher, iv: Block, plain: seq<bv8>, cipher: seq<bv8>) {
    |plain| == |cipher| && Aligned(plain) && EncryptedTo(c, iv, plain, cipher, |plain| / 16)
  }

  ghost predicate Decrypted(c: Cipher, iv: Block, plain: seq<bv8>, cipher: seq<bv8>) {
    |plain| == |cipher| && Aligned(cipher) && DecryptedTo(c, iv, plain, cipher, |cipher| / 16)
  }

  lemma SameBlocks(a: seq<bv8>, b: seq<bv8>)
    requires |a| == |b| && Aligned(a)
    requires forall i :: 0 <= i < |a| / 16 ==> BlockAt(a, i) == BlockAt(b, i)
    ensures a == b
  {
    forall k | 0 <= k < |a| ensures a[k] == b[k] {
      var i := k / 16;
      assert BlockAt(a, i)[k - 16 * i] == BlockAt(b, i)[k - 16 * i];
    }
  }

  /** The encryption equation has one solution, so the in-place loop leaves what the allocating one returns. */
  lemma EncryptionIsUnique(c: Cipher, iv: Block, plain: seq<bv8>, first: seq<bv8>, second: seq<bv8>)
    requires Encrypted(c, iv, plain, first) && Encrypted(c, iv, plain, second)
    ensures first == second
  {
    forall i | 0 <= i < |plain| / 16 ensures BlockAt(first, i) == BlockAt(second, i) {
      BlockIsUnique(c, iv, plain, first, second, i);
    }
    SameBlocks(first, second);
  }

  lemma {:induction false} BlockIsUnique(
      c: Cipher, iv: Block, plain: seq<bv8>, first: seq<bv8>, second: seq<bv8>, i: nat)
    requires EncryptedTo(c, iv, plain, first, i + 1) && EncryptedTo(c, iv, plain, second, i + 1)
    ensures BlockAt(first, i) == BlockAt(second, i)
    decreases i
  {
    assert EncryptedAt(c, iv, plain, first, i) && EncryptedAt(c, iv, plain, second, i);
    if i > 0 {
      BlockIsUnique(c, iv, plain, first, second, i - 1);
    }
  }

  lemma DecryptionIsUnique(c: Cipher, iv: Block, cipher: seq<bv8>, first: seq<bv8>, second: seq<bv8>)
    requires Decrypted(c, iv, first, cipher) && Decrypted(c, iv, second, cipher)
    ensures first == second
  {
    forall i | 0 <= i < |cipher| / 16 ensures BlockAt(first, i) == BlockAt(second, i) {
      assert DecryptedAt(c, iv, first, cipher, i) && DecryptedAt(c, iv, second, cipher, i);
    }
    SameBlocks(first, second);
  }

  /** The two equations say the same thing. */
  lemma BlockBothWays(c: Cipher, plain: Block, prev: Block, cipher: Block)
    requires Permutation(c)
    ensures cipher == c.encrypt(Xor(plain, prev)) <==> plain == Xor(c.decrypt(cipher), prev)
  {
    XorTwice(plain, prev);
    XorTwice(c.decrypt(cipher), prev);
  }

  /** For a permutation, encrypting gives `cipher` from `plain` exactly when decrypting gives `plain` from `cipher`. */
  lemma EncryptedIffDecrypted(c: Cipher, iv: Block, plain: seq<bv8>, cipher: seq<bv8>)
    requires Permutation(c)
    ensures Encrypted(c, iv, plain, cipher) <==> Decrypted(c, iv, plain, cipher)
  {
    if |plain| == |cipher| && Aligned(plain) {
      forall i | 0 <= i < |plain| / 16
        ensures EncryptedAt(c, iv, plain, cipher, i) <==> DecryptedAt(c, iv, plain, cipher, i)
      {
        BlockBothWays(c, BlockAt(plain, i), Prev(iv, cipher, i), BlockAt(cipher, i));
      }
    }
  }

  lemma DecryptUndoesEncrypt(c: Cipher, iv: Block, plain: seq<bv8>, cipher: seq<bv8>, back: seq<bv8>)
    requires Permutation(c) && Encrypted(c, iv, plain, cipher) && Decrypted(c, iv, back, cipher)
    ensures back == plain
  {
    EncryptedIffDecrypted(c, iv, plain, cipher);
    DecryptionIsUnique(c, iv, cipher, back, plain);
  }

  lemma EncryptUndoesDecrypt(c: Cipher, iv: Block, cipher: seq<bv8>, plain: seq<bv8>, again: seq<bv8>)
    requires Permutation(c) && Decrypted(c, iv, plain, cipher) && Encrypted(c, iv, plain, again)
    ensures again == cipher
  {
    EncryptedIffDecrypted(c, iv, plain, cipher);
    EncryptionIsUnique(c, iv, plain, again, cipher);
  }

  // ---- Allocating loops ----

  method XorBlocks(a: Block, b: Block) returns (r: Block)
    ensures r == Xor(a, b)
  {
    var result := new bv8[16];
    for i := 0 to 16
      invariant forall k :: 0 <= k < i ==> result[k] == Xor(a, b)[k]
    {
      result[i] := a[i] ^ b[i];
    }
    r := result[..];
  }

  lemma AppendedBlock(done: seq<bv8>, more: Block, n: nat)
    requires |done| == 16 * n
    ensures BlockAt(done + more, n) == more
  {}

  /** Blocks already written stay what they are when more is appended. */
  lemma KeptBlock(done: seq<bv8>, more: Block, i: nat)
    requires 16 * i + 16 <= |done|
    ensures BlockAt(done + more, i) == BlockAt(done, i)
  {}

  lemma KeptPrev(iv: Block, done: seq<bv8>, more: Block, i: nat)
    requires 16 * i <= |done|
    ensures Prev(iv, done + more, i) == Prev(iv, done, i)
  {
    if i > 0 {
      KeptBlock(done, more, i - 1);
    }
  }

  lemma EncryptedMore(c: Cipher, iv: Block, plain: seq<bv8>, done: seq<bv8>, n: nat, more: Block)
    requires |done| == 16 * n && 16 * n + 16 <= |plain| && EncryptedTo(c, iv, plain, done, n)
    requires more == c.encrypt(Xor(BlockAt(plain, n), Prev(iv, done, n)))
    ensures EncryptedTo(c, iv, plain, done + more, n + 1)
  {
    forall i | 0 <= i < n + 1 ensures EncryptedAt(c, iv, plain, done + more, i) {
      KeptPrev(iv, done, more, i);
      if i < n {
        assert EncryptedAt(c, iv, plain, done, i);
        KeptBlock(done, more, i);
      } else {
        AppendedBlock(done, more, n);
      }
    }
  }

  lemma DecryptedMore(c: Cipher, iv: Block, done: seq<bv8>, cipher: seq<bv8>, n: nat, more: Block)
    requires |done| == 16 * n && 16 * n + 16 <= |cipher| && DecryptedTo(c, iv, done, cipher, n)
    requires more == Xor(c.decrypt(BlockAt(cipher, n)), Prev(iv, cipher, n))
    ensures DecryptedTo(c, iv, done + more, cipher, n + 1)
  {
    forall i | 0 <= i < n + 1 ensures DecryptedAt(c, iv, done + more, cipher, i) {
      if i < n {
        assert DecryptedAt(c, iv, done, cipher, i);
        KeptBlock(done, more, i);
      } else {
        AppendedBlock(done, more, n);
      }
    }
  }

  method Encrypt(c: Cipher, iv: Block, data: seq<bv8>) returns (r: Result<seq<bv8>>)
    ensures !Aligned(data) ==> r == Misaligned(|data|)
    ensures Aligned(data) ==> r.Ok? && Encrypted(c, iv, data, r.value)
  {
    if |data| % BLOCK_SIZE != 0 {
      return Misaligned(|data|);
    }
    if data == [] {
      return Ok([]);
    }
    var result: seq<bv8> := [];
    var prevCiphertext := iv;
    for n := 0 to |data| / 16
      invariant |result| == 16 * n && EncryptedTo(c, iv, data, result, n)
      invariant prevCiphertext == Prev(iv, result, n)
    {
      var xored := XorBlocks(data[16 * n..16 * n + 16], prevCiphertext);
      var ciphertext := c.encrypt(xored);
      EncryptedMore(c, iv, data, result, n, ciphertext);
      AppendedBlock(result, ciphertext, n);
      prevCiphertext := ciphertext;
      result := result + ciphertext;
    }
    return Ok(result);
  }

  method Decrypt(c: Cipher, iv: Block, data: seq<bv8>) returns (r: Result<seq<bv8>>)
    ensures !Aligned(data) ==> r == Misaligned(|data|)
    ensures Aligned(data) ==> r.Ok? && Decrypted(c, iv, r.value, data)
  {
    if |data| % BLOCK_SIZE != 0 {
      return Misaligned(|data|);
    }
    if data == [] {
      return Ok([]);
    }
    var result: seq<bv8> := [];
    var prevCiphertext := iv;
    for n := 0 to |data| / 16
      invariant |result| == 16 * n && DecryptedTo(c, iv, result, data, n)
      invariant prevCiphertext == Prev(iv, data, n)
    {
      var ciphertext: Block := data[16 * n..16 * n + 16];
      var plaintext := XorBlocks(c.decrypt(ciphertext), prevCiphertext);
      DecryptedMore(c, iv, result, data, n, plaintext);
      prevCiphertext := ciphertext;
      result := result + plaintext;
    }
    return Ok(result);
  }

  // ---- In place ----

  method XorInto(data: array<bv8>, at: nat, b: Block)
    requires at + 16 <= data.Length
    modifies data
    ensures data[..] == old(data[..at]) + Xor(old(data[at..at + 16]), b) + old(data[at + 16..])
  {
    for j := 0 to 16
      invariant forall k :: 0 <= k < data.Length ==>
        data[k] == if at <= k < at + j then old(data[k]) ^ b[k - at] else old(data[k])
    {
      data[at + j] := data[at + j] ^ b[j];
    }
  }

  method WriteBlock(data: array<bv8>, at: nat, b: Block)
    requires at + 16 <= data.Length
    modifies data
    ensures data[..] == old(data[..at]) + b + old(data[at + 16..])
  {
    for j := 0 to 16
      invariant forall k :: 0 <= k < data.Length ==> data[k] == if at <= k < at + j then b[k - at] else old(data[k])
    {
      data[at + j] := b[j];
    }
  }

  /** Replacing block `n` keeps what is before and after it. */
  lemma ReplacedBlock(front: seq<bv8>, b: Block, back: seq<bv8>)
    ensures (front + b + back)[..|front|] == front
    ensures (front + b + back)[|front|..|front| + 16] == b
    ensures (front + b + back)[..|front| + 16] == front + b
    ensures (front + b + back)[|front| + 16..] == back
  {}

  method EncryptInPlace(c: Cipher, iv: Block, data: array<bv8>) returns (r: Result<()>)
    modifies data
    ensures !Aligned(old(data[..])) ==> r == Misaligned(data.Length) && data[..] == old(data[..])
    ensures Aligned(old(data[..])) ==> r == Ok(()) && Encrypted(c, iv, old(data[..]), data[..])
  {
    if data.Length % BLOCK_SIZE != 0 {
      return Misaligned(data.Length);
    }
    if data.Length == 0 {
      return Ok(());
    }
    var prevCiphertext := iv;
    ghost var plain := data[..];
    var blocks := data.Length / 16;
    assert data.Length == 16 * blocks;
    for n := 0 to blocks
      invariant EncryptedTo(c, iv, plain, data[..16 * n], n)
      invariant data[16 * n..] == plain[16 * n..]
      invariant prevCiphertext == Prev(iv, data[..16 * n], n)
    {
      prevCiphertext := EncryptBlockInPlace(c, iv, data, plain, n, prevCiphertext);
    }
    assert data[..16 * blocks] == data[..];
    return Ok(());
  }

  method EncryptBlockInPlace(c: Cipher, ghost iv: Block, data: array<bv8>, ghost plain: seq<bv8>, n: nat, prev: Block)
    returns (ciphertext: Block)
    requires data.Length == |plain| && 16 * n + 16 <= data.Length
    requires EncryptedTo(c, iv, plain, data[..16 * n], n)
    requires data[16 * n..] == plain[16 * n..] && prev == Prev(iv, data[..16 * n], n)
    modifies data
    ensures EncryptedTo(c, iv, plain, data[..16 * n + 16], n + 1)
    ensures data[16 * n + 16..] == plain[16 * n + 16..]
    ensures ciphertext == Prev(iv, data[..16 * n + 16], n + 1)
  {
    var at := 16 * n;
    ghost var front, block, back := data[..at], data[at..at + 16], data[at + 16..];
    assert block == BlockAt(plain, n) && back == plain[at + 16..] by {
      TailSplit(data[..], plain, at);
    }
    XorInto(data, at, prev);
    ReplacedBlock(front, Xor(block, prev), back);
    ciphertext := c.encrypt(data[at..at + 16]);
    WriteBlock(data, at, ciphertext);
    ReplacedBlock(front, ciphertext, back);
    EncryptedMore(c, iv, plain, front, n, ciphertext);
    AppendedBlock(front, ciphertext, n);
  }

  lemma TailSplit(s: seq<bv8>, t: seq<bv8>, at: nat)
    requires |s| == |t| && at + 16 <= |s| && s[at..] == t[at..]
    ensures s[at..at + 16] == t[at..at + 16] && s[at + 16..] == t[at + 16..]
  {
    assert s[at..][..16] == s[at..at + 16] && t[at..][..16] == t[at..at + 16];
    assert s[at..][16..] == s[at + 16..] && t[at..][16..] == t[at + 16..];
  }

  method DecryptInPlace(c: Cipher, iv: Block, data: array<bv8>) returns (r: Result<()>)
    modifies data
    ensures !Aligned(old(data[..])) ==> r == Misaligned(data.Length) && data[..] == old(data[..])
    ensures Aligned(old(data[..])) ==> r == Ok(()) && Decrypted(c, iv, data[..], old(data[..]))
  {
    if data.Length % BLOCK_SIZE != 0 {
      return Misaligned(data.Length);
    }
    if data.Length == 0 {
      return Ok(());
    }
    var prevCiphertext := iv;
    ghost var cipher := data[..];
    var blocks := data.Length / 16;
    assert data.Length == 16 * blocks;
    for n := 0 to blocks
      invariant DecryptedTo(c, iv, data[..16 * n], cipher, n)
      invariant data[16 * n..] == cipher[16 * n..]
      invariant prevCiphertext == Prev(iv, cipher, n)
    {
      prevCiphertext := DecryptBlockInPlace(c, iv, data, cipher, n, prevCiphertext);
    }
    assert data[..16 * blocks] == data[..];
    return Ok(());
  }

  method DecryptBlockInPlace(c: Cipher, ghost iv: Block, data: array<bv8>, ghost cipher: seq<bv8>, n: nat, prev: Block)
    returns (current: Block)
    requires data.Length == |cipher| && 16 * n + 16 <= data.Length
    requires DecryptedTo(c, iv, data[..16 * n], cipher, n)
    requires data[16 * n..] == cipher[16 * n..] && prev == Prev(iv, cipher, n)
    modifies data
    ensures DecryptedTo(c, iv, data[..16 * n + 16], cipher, n + 1)
    ensures data[16 * n + 16..] == cipher[16 * n + 16..]
    ensures current == Prev(iv, cipher, n + 1)
  {
    var at := 16 * n;
    ghost var front, back := data[..at], data[at + 16..];
    TailSplit(data[..], cipher, at);
    current := data[at..at + 16];
    var decrypted := c.decrypt(current);
    WriteBlock(data, at, decrypted);
    ReplacedBlock(front, decrypted, back);
    XorInto(data, at, prev);
    ReplacedBlock(front, Xor(decrypted, prev), back);
    DecryptedMore(c, iv, front, cipher, n, Xor(decrypted, prev));
  }
}
