// The buffered byte generator: requests of any size are cut out of a stream of fixed-size chunks.
module SecureRandom {
  const CHUNK_SIZE := 512

  type Chunk = c: seq<bv8> | |c| == CHUNK_SIZE ghost witness seq(512, i => 0)

  /** What the generator and the cipher behind it produce, chunk after chunk. */
  type Chunks = nat -> Chunk

  function StreamByte(chunks: Chunks, p: nat): bv8 {
    chunks(p / CHUNK_SIZE)[p % CHUNK_SIZE]
  }

  /** `n` bytes of the concatenated chunks, from position `from` on. */
  function Slice(chunks: Chunks, from: nat, n: nat): seq<bv8> {
    seq(n, i requires 0 <= i < n => StreamByte(chunks, from + i))
  }

  lemma ByteOfChunk(chunks: Chunks, k: nat, i: nat)
    requires i < CHUNK_SIZE
    ensures StreamByte(chunks, CHUNK_SIZE * k + i) == chunks(k)[i]
  {}

  lemma SliceOfChunk(chunks: Chunks, k: nat, start: nat, n: nat)
    requires start + n <= CHUNK_SIZE
    ensures chunks(k)[start..start + n] == Slice(chunks, CHUNK_SIZE * k + start, n)
  {
    var piece, slice := chunks(k)[start..start + n], Slice(chunks, CHUNK_SIZE * k + start, n);
    forall i | 0 <= i < n ensures piece[i] == slice[i] {
      ByteOfChunk(chunks, k, start + i);
    }
  }

  lemma SliceMore(chunks: Chunks, from: nat, n: nat, m: nat)
    ensures Slice(chunks, from, n + m) == Slice(chunks, from, n) + Slice(chunks, from + n, m)
  {}

  method CopyInto(out: array<bv8>, at: nat, bytes: seq<bv8>)
    requires at + |bytes| <= out.Length
    modifies out
    ensures out[..at + |bytes|] == old(out[..at]) + bytes
  {
    for i := 0 to |bytes|
      invariant out[..at] == old(out[..at])
      invariant out[at..at + i] == bytes[..i]
    {
      out[at + i] := bytes[i];
    }
    assert out[..at + |bytes|] == out[..at] + out[at..at + |bytes|];
  }

  class SecureRandom {
    const chunks: Chunks
    /** How many chunks have been drawn. */
    var drawn: nat
    var buffer: seq<bv8>
    var bufferStart: nat

    /** Everything the calls so far have put into their callers' buffers. */
    ghost var served: seq<bv8>

    /** A used-up buffer is emptied at once; otherwise it is the chunk drawn last. */
    ghost predicate BufferOk()
      reads this
    {
      if buffer == [] then bufferStart == 0
      else drawn > 0 && buffer == chunks(drawn - 1) && 0 < bufferStart < CHUNK_SIZE
    }

    /** How many bytes have been served. */
    ghost function Position(): nat
      requires BufferOk()
      reads this
    {
      if buffer == [] then CHUNK_SIZE * drawn else CHUNK_SIZE * (drawn - 1) + bufferStart
    }

    /** The bytes served are the stream up to the position: none is left out, none comes twice. */
    ghost predicate Valid()
      reads this
    {
      BufferOk() && served == Slice(chunks, 0, Position())
    }

    constructor (chunks: Chunks)
      ensures this.chunks == chunks && Valid() && served == []
    {
      this.chunks := chunks;
      drawn := 0;
      buffer := [];
      bufferStart := 0;
      served := [];
    }

    /** One turn of the loop: draws a chunk only if there is none left, then serves what it can. */
    method Serve(wanted: nat) returns (bytes: seq<bv8>)
      requires BufferOk() && wanted > 0
      modifies `drawn, `buffer, `bufferStart
      ensures BufferOk() && 0 < |bytes| <= wanted
      ensures bytes == Slice(chunks, old(Position()), |bytes|)
      ensures Position() == old(Position()) + |bytes|
    {
      if bufferStart >= |buffer| {
        buffer := [];
        bufferStart := 0;
      }
      if buffer == [] {
        buffer := chunks(drawn);
        bufferStart := 0;
        drawn := drawn + 1;
      }
      var available := |buffer| - bufferStart;
      var take := if wanted < available then wanted else available;
      var end := bufferStart + take;
      SliceOfChunk(chunks, drawn - 1, bufferStart, take);
      bytes := buffer[bufferStart..end];
      bufferStart := end;
      if bufferStart >= |buffer| {
        buffer := [];
        bufferStart := 0;
      }
    }

    /** The loop of a request. */
    method FillLoop(out: array<bv8>)
      requires BufferOk()
      modifies `drawn, `buffer, `bufferStart, out
      ensures BufferOk() && Position() == old(Position()) + out.Length
      ensures out[..] == Slice(chunks, old(Position()), out.Length)
    {
      var written: nat := 0;
      while written < out.Length
        invariant written <= out.Length
        invariant BufferOk() && Position() == old(Position()) + written
        invariant out[..written] == Slice(chunks, old(Position()), written)
        decreases out.Length - written
      {
        var bytes := Serve(out.Length - written);
        SliceMore(chunks, old(Position()), written, |bytes|);
        CopyInto(out, written, bytes);
        written := written + |bytes|;
      }
      assert out[..out.Length] == out[..];
    }

    /** Fills the caller's buffer with the next bytes of the stream. */
    method Fill(out: array<bv8>)
      requires Valid()
      modifies this, out
      ensures Valid() && Position() == old(Position()) + out.Length
      ensures served == old(served) + out[..]
    {
      FillLoop(out);
      SliceMore(chunks, 0, old(Position()), out.Length);
      served := served + out[..];
    }
  }

  /** No chunk is drawn before it is needed: the position fixes how many there are. */
  lemma DrawnAsNeeded(g: SecureRandom)
    requires g.BufferOk()
    ensures CHUNK_SIZE * g.drawn - CHUNK_SIZE < g.Position() <= CHUNK_SIZE * g.drawn
  {}

  // ---- Any number of requests ----

  function FirstChunks(chunks: Chunks, k: nat): seq<bv8> {
    if k == 0 then [] else FirstChunks(chunks, k - 1) + chunks(k - 1)
  }

  lemma WholeChunk(chunks: Chunks, k: nat)
    ensures chunks(k) == Slice(chunks, CHUNK_SIZE * k, CHUNK_SIZE)
  {
    SliceOfChunk(chunks, k, 0, CHUNK_SIZE);
  }

  /** Positions count the bytes of the chunks written one after another. */
  lemma {:induction false} StreamIsChunks(chunks: Chunks, k: nat)
    ensures FirstChunks(chunks, k) == Slice(chunks, 0, CHUNK_SIZE * k)
  {
    if k > 0 {
      StreamIsChunks(chunks, k - 1);
      var n := CHUNK_SIZE * (k - 1);
      calc {
        FirstChunks(chunks, k);
        FirstChunks(chunks, k - 1) + chunks(k - 1);
        { WholeChunk(chunks, k - 1); }
        Slice(chunks, 0, n) + Slice(chunks, 0 + n, CHUNK_SIZE);
        { SliceMore(chunks, 0, n, CHUNK_SIZE); }
        Slice(chunks, 0, n + CHUNK_SIZE);
      }
    }
  }

  /** After any calls, whatever their sizes, what they served together is a prefix of the chunks drawn. */
  lemma ServedIsPrefix(g: SecureRandom)
    requires g.Valid()
    ensures g.served <= FirstChunks(g.chunks, g.drawn)
    ensures |FirstChunks(g.chunks, g.drawn)| == 512 * g.drawn < |g.served| + 512
  {
    var n, all := g.Position(), CHUNK_SIZE * g.drawn;
    DrawnAsNeeded(g);
    StreamIsChunks(g.chunks, g.drawn);
    SliceMore(g.chunks, 0, n, all - n);
  }
}
