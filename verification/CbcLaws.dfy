// What makes the mode CBC: the last ciphertext block of one message part is the initialisation vector of the next.
module CbcLaws {
  import opened Cbc

  // ---- Blocks of two parts ----

  lemma FrontBlock(front: seq<bv8>, back: seq<bv8>, i: nat)
    requires 16 * i + 16 <= |front|
    ensures BlockAt(front + back, i) == BlockAt(front, i)
  {}

  lemma BackBlock(front: seq<bv8>, back: seq<bv8>, n: nat, i: nat)
    requires |front| == 16 * n && 16 * i + 16 <= |back|
    ensures BlockAt(front + back, n + i) == BlockAt(back, i)
  {}

  function LastBlock(cipher: seq<bv8>): Block
    requires |cipher| >= 16
  {
    cipher[|cipher| - 16..]
  }

  lemma FrontPrev(iv: Block, front: seq<bv8>, back: seq<bv8>, i: nat)
    requires 16 * i <= |front|
    ensures Prev(iv, front + back, i) == Prev(iv, front, i)
  {
    if i > 0 {
      FrontBlock(front, back, i - 1);
    }
  }

  lemma BackPrev(iv: Block, front: seq<bv8>, back: seq<bv8>, n: nat, i: nat)
    requires |front| == 16 * n > 0 && 16 * i <= |back|
    ensures Prev(iv, front + back, n + i) == Prev(LastBlock(front), back, i)
  {
    if i == 0 {
      FrontBlock(front, back, n - 1);
    } else {
      BackBlock(front, back, n, i - 1);
    }
  }

  // ---- Encryption ----

  /** Two parts of a message, of the same whole number of blocks in plaintext and ciphertext. */
  predicate Parts(p1: seq<bv8>, c1: seq<bv8>) {
    |p1| == |c1| > 0 && Aligned(p1)
  }

  lemma FrontEncrypted(c: Cipher, iv: Block, p1: seq<bv8>, p2: seq<bv8>, c1: seq<bv8>, c2: seq<bv8>, i: nat)
    requires Parts(p1, c1) && 16 * i + 16 <= |p1|
    ensures EncryptedAt(c, iv, p1 + p2, c1 + c2, i) <==> EncryptedAt(c, iv, p1, c1, i)
  {
    FrontBlock(p1, p2, i);
    FrontBlock(c1, c2, i);
    FrontPrev(iv, c1, c2, i);
  }

  lemma BackEncrypted(c: Cipher, iv: Block, p1: seq<bv8>, p2: seq<bv8>, c1: seq<bv8>, c2: seq<bv8>, n: nat, i: nat)
    requires Parts(p1, c1) && |p1| == 16 * n && 16 * i + 16 <= |p2| && |p2| == |c2|
    ensures EncryptedAt(c, iv, p1 + p2, c1 + c2, n + i) <==> EncryptedAt(c, LastBlock(c1), p2, c2, i)
  {
    BackBlock(p1, p2, n, i);
    BackBlock(c1, c2, n, i);
    BackPrev(iv, c1, c2, n, i);
  }

  lemma EncryptedBlocks(c: Cipher, iv: Block, plain: seq<bv8>, cipher: seq<bv8>, n: nat)
    requires |plain| == |cipher| == 16 * n
    ensures Encrypted(c, iv, plain, cipher) <==> forall i :: 0 <= i < n ==> EncryptedAt(c, iv, plain, cipher, i)
  {}

  lemma JoinEncrypted(c: Cipher, iv: Block, p1: seq<bv8>, p2: seq<bv8>, c1: seq<bv8>, c2: seq<bv8>, n: nat, m: nat)
    requires Parts(p1, c1) && |p1| == 16 * n && |p2| == |c2| == 16 * m
    requires Encrypted(c, iv, p1, c1) && Encrypted(c, LastBlock(c1), p2, c2)
    ensures Encrypted(c, iv, p1 + p2, c1 + c2)
  {
    forall i | 0 <= i < n + m ensures EncryptedAt(c, iv, p1 + p2, c1 + c2, i) {
      if i < n {
        FrontEncrypted(c, iv, p1, p2, c1, c2, i);
      } else {
        BackEncrypted(c, iv, p1, p2, c1, c2, n, i - n);
        assert EncryptedAt(c, LastBlock(c1), p2, c2, i - n);
      }
    }
    EncryptedBlocks(c, iv, p1 + p2, c1 + c2, n + m);
  }

  lemma CutEncrypted(c: Cipher, iv: Block, p1: seq<bv8>, p2: seq<bv8>, c1: seq<bv8>, c2: seq<bv8>, n: nat, m: nat)
    requires Parts(p1, c1) && |p1| == 16 * n && |p2| == |c2| == 16 * m
    requires Encrypted(c, iv, p1 + p2, c1 + c2)
    ensures Encrypted(c, iv, p1, c1) && Encrypted(c, LastBlock(c1), p2, c2)
  {
    forall i | 0 <= i < n ensures EncryptedAt(c, iv, p1, c1, i) {
      FrontEncrypted(c, iv, p1, p2, c1, c2, i);
      assert EncryptedAt(c, iv, p1 + p2, c1 + c2, i);
    }
    forall i | 0 <= i < m ensures EncryptedAt(c, LastBlock(c1), p2, c2, i) {
      BackEncrypted(c, iv, p1, p2, c1, c2, n, i);
      assert EncryptedAt(c, iv, p1 + p2, c1 + c2, n + i);
    }
    EncryptedBlocks(c, iv, p1, c1, n);
    EncryptedBlocks(c, LastBlock(c1), p2, c2, m);
  }

  /** A message is encrypted exactly when its parts are, the second from the last ciphertext block of the first. */
  lemma EncryptedChains(c: Cipher, iv: Block, p1: seq<bv8>, p2: seq<bv8>, c1: seq<bv8>, c2: seq<bv8>)
    requires |p1| == |c1| > 0 && Aligned(p1)
    ensures Encrypted(c, iv, p1 + p2, c1 + c2)
      <==> Encrypted(c, iv, p1, c1) && Encrypted(c, c1[|c1| - 16..], p2, c2)
  {
    if |p2| == |c2| && Aligned(p2) {
      var n, m := |p1| / 16, |p2| / 16;
      if Encrypted(c, iv, p1 + p2, c1 + c2) {
        CutEncrypted(c, iv, p1, p2, c1, c2, n, m);
      } else if Encrypted(c, iv, p1, c1) && Encrypted(c, LastBlock(c1), p2, c2) {
        JoinEncrypted(c, iv, p1, p2, c1, c2, n, m);
      }
    }
  }

  // ---- Decryption ----

  lemma FrontDecrypted(c: Cipher, iv: Block, p1: seq<bv8>, p2: seq<bv8>, c1: seq<bv8>, c2: seq<bv8>, i: nat)
    requires Parts(p1, c1) && 16 * i + 16 <= |p1|
    ensures DecryptedAt(c, iv, p1 + p2, c1 + c2, i) <==> DecryptedAt(c, iv, p1, c1, i)
  {
    FrontBlock(p1, p2, i);
    FrontBlock(c1, c2, i);
    FrontPrev(iv, c1, c2, i);
  }

  lemma BackDecrypted(c: Cipher, iv: Block, p1: seq<bv8>, p2: seq<bv8>, c1: seq<bv8>, c2: seq<bv8>, n: nat, i: nat)
    requires Parts(p1, c1) && |p1| == 16 * n && 16 * i + 16 <= |p2| && |p2| == |c2|
    ensures DecryptedAt(c, iv, p1 + p2, c1 + c2, n + i) <==> DecryptedAt(c, LastBlock(c1), p2, c2, i)
  {
    BackBlock(p1, p2, n, i);
    BackBlock(c1, c2, n, i);
    BackPrev(iv, c1, c2, n, i);
  }

  lemma DecryptedBlocks(c: Cipher, iv: Block, plain: seq<bv8>, cipher: seq<bv8>, n: nat)
    requires |plain| == |cipher| == 16 * n
    ensures Decrypted(c, iv, plain, cipher) <==> forall i :: 0 <= i < n ==> DecryptedAt(c, iv, plain, cipher, i)
  {}

  lemma JoinDecrypted(c: Cipher, iv: Block, p1: seq<bv8>, p2: seq<bv8>, c1: seq<bv8>, c2: seq<bv8>, n: nat, m: nat)
    requires Parts(p1, c1) && |p1| == 16 * n && |p2| == |c2| == 16 * m
    requires Decrypted(c, iv, p1, c1) && Decrypted(c, LastBlock(c1), p2, c2)
    ensures Decrypted(c, iv, p1 + p2, c1 + c2)
  {
    forall i | 0 <= i < n + m ensures DecryptedAt(c, iv, p1 + p2, c1 + c2, i) {
      if i < n {
        FrontDecrypted(c, iv, p1, p2, c1, c2, i);
      } else {
        BackDecrypted(c, iv, p1, p2, c1, c2, n, i - n);
        assert DecryptedAt(c, LastBlock(c1), p2, c2, i - n);
      }
    }
    DecryptedBlocks(c, iv, p1 + p2, c1 + c2, n + m);
  }

  lemma CutDecrypted(c: Cipher, iv: Block, p1: seq<bv8>, p2: seq<bv8>, c1: seq<bv8>, c2: seq<bv8>, n: nat, m: nat)
    requires Parts(p1, c1) && |p1| == 16 * n && |p2| == |c2| == 16 * m
    requires Decrypted(c, iv, p1 + p2, c1 + c2)
    ensures Decrypted(c, iv, p1, c1) && Decrypted(c, LastBlock(c1), p2, c2)
  {
    forall i | 0 <= i < n ensures DecryptedAt(c, iv, p1, c1, i) {
      FrontDecrypted(c, iv, p1, p2, c1, c2, i);
      assert DecryptedAt(c, iv, p1 + p2, c1 + c2, i);
    }
    forall i | 0 <= i < m ensures DecryptedAt(c, LastBlock(c1), p2, c2, i) {
      BackDecrypted(c, iv, p1, p2, c1, c2, n, i);
      assert DecryptedAt(c, iv, p1 + p2, c1 + c2, n + i);
    }
    DecryptedBlocks(c, iv, p1, c1, n);
    DecryptedBlocks(c, LastBlock(c1), p2, c2, m);
  }

  /** The same of decryption, for any cipher. */
  lemma DecryptedChains(c: Cipher, iv: Block, p1: seq<bv8>, p2: seq<bv8>, c1: seq<bv8>, c2: seq<bv8>)
    requires |p1| == |c1| > 0 && Aligned(c1)
    ensures Decrypted(c, iv, p1 + p2, c1 + c2)
      <==> Decrypted(c, iv, p1, c1) && Decrypted(c, c1[|c1| - 16..], p2, c2)
  {
    if |p2| == |c2| && Aligned(p2) {
      var n, m := |p1| / 16, |p2| / 16;
      if Decrypted(c, iv, p1 + p2, c1 + c2) {
        CutDecrypted(c, iv, p1, p2, c1, c2, n, m);
      } else if Decrypted(c, iv, p1, c1) && Decrypted(c, LastBlock(c1), p2, c2) {
        JoinDecrypted(c, iv, p1, p2, c1, c2, n, m);
      }
    }
  }

  // ---- One block ----

  /** One block is encrypted by the cipher after the exclusive or with the initialisation vector, byte by byte. */
  lemma OneBlockEncrypted(c: Cipher, iv: Block, plain: Block, mixed: Block, cipher: Block)
    requires forall k :: 0 <= k < 16 ==> mixed[k] == plain[k] ^ iv[k]
    ensures Encrypted(c, iv, plain, cipher) <==> cipher == c.encrypt(mixed)
  {
    assert Xor(plain, iv) == mixed;
    assert BlockAt(plain, 0) == plain && BlockAt(cipher, 0) == cipher;
    assert EncryptedAt(c, iv, plain, cipher, 0) <==> cipher == c.encrypt(mixed);
    EncryptedBlocks(c, iv, plain, cipher, 1);
  }

  /** One block is decrypted by the cipher, followed by that exclusive or. */
  lemma OneBlockDecrypted(c: Cipher, iv: Block, plain: Block, cipher: Block)
    ensures Decrypted(c, iv, plain, cipher) <==> forall k :: 0 <= k < 16 ==> plain[k] == c.decrypt(cipher)[k] ^ iv[k]
  {
    assert plain == Xor(c.decrypt(cipher), iv) <==>
      forall k :: 0 <= k < 16 ==> plain[k] == c.decrypt(cipher)[k] ^ iv[k];
    assert BlockAt(plain, 0) == plain && BlockAt(cipher, 0) == cipher;
    assert DecryptedAt(c, iv, plain, cipher, 0) <==> plain == Xor(c.decrypt(cipher), iv);
    DecryptedBlocks(c, iv, plain, cipher, 1);
  }

  /** The second of two equal plaintext blocks is mixed with the first ciphertext block. */
  lemma SecondBlock(c: Cipher, iv: Block, plain: Block, first: Block, second: Block)
    requires Encrypted(c, iv, plain + plain, first + second)
    ensures second == c.encrypt(Xor(plain, first)) && first == c.encrypt(Xor(plain, iv))
  {
    EncryptedChains(c, iv, plain, plain, first, second);
    assert first[|first| - 16..] == first;
    OneBlockEncrypted(c, iv, plain, Xor(plain, iv), first);
    OneBlockEncrypted(c, first, plain, Xor(plain, first), second);
  }
}
