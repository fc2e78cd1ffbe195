/** The promises of the stream format: round trip, truncation, sizes, decoder agreement. */
module FrameLaws {
  import opened Prelude
  import opened Frames

  const FULL_FRAME_WIRE: nat := HEADER_SIZE + MAX_FRAME_SIZE

  /** The limits the two decoders use: none, or one that admits a full chunk. */
  predicate AdmitsFullChunks(limit: Option<nat>) {
    limit.Some? ==> limit.value >= MAX_FRAME_SIZE
  }

  lemma SealedChunk(a: Aead, limit: Option<nat>, n: Nonce, chunk: Bytes)
    requires a.Valid() && AdmitsFullChunks(limit) && |chunk| <= CHUNK_PLAIN_SIZE
    ensures var f := Frame(n, a.seal(n, chunk));
      && Acceptable(a, limit, f) && PlainOf(a, f) == chunk
      && |f.Wire()| == |chunk| + 32
      && f.Size() <= MAX_FRAME_SIZE < U32_LIMIT
  {
    var f := Frame(n, a.seal(n, chunk));
    assert |a.seal(n, chunk)| == |chunk| + TAG_SIZE && a.open(n, a.seal(n, chunk)) == Some(chunk);
  }

  /** Every frame `Stream` writes opens to its chunk, fits a uint32 and the CLI's bound. */
  lemma {:induction false} FramesForGood(a: Aead, limit: Option<nat>, nonce: nat -> Nonce, k: nat, p: Bytes)
    requires a.Valid() && AdmitsFullChunks(limit)
    ensures AllAcceptable(a, limit, FramesFor(a, nonce, k, p))
    ensures Plain(a, FramesFor(a, nonce, k, p)) == p
    decreases |p|
  {
    if p == [] {
    } else {
      SealedChunk(a, limit, nonce(k), Head(p));
      FramesForGood(a, limit, nonce, k + 1, Rest(p));
      var fs := FramesFor(a, nonce, k, p);
      assert fs[1..] == FramesFor(a, nonce, k + 1, Rest(p));
      assert p == Head(p) + Rest(p);
    }
  }

  /** Both decoders return exactly the plaintext and read no byte past the marker. */
  lemma RoundTrip(a: Aead, limit: Option<nat>, nonce: nat -> Nonce, k: nat, p: Bytes, rest: Bytes)
    requires a.Valid() && AdmitsFullChunks(limit)
    ensures Decode(a, limit, Encode(a, nonce, k, p) + rest)
         == Decoded(p, |Encode(a, nonce, k, p)|, Clean)
  {
    FramesForGood(a, limit, nonce, k, p);
    DecodeComplete(a, limit, FramesFor(a, nonce, k, p), rest);
  }

  function CeilDiv(n: nat, d: nat): nat
    requires d > 0
  {
    (n + d - 1) / d
  }

  lemma {:induction false} BodyLength(a: Aead, nonce: nat -> Nonce, k: nat, p: Bytes)
    requires a.Valid()
    ensures |Body(a, nonce, k, p)| == |p| + 32 * CeilDiv(|p|, CHUNK_PLAIN_SIZE)
    decreases |p|
  {
    if p == [] {
    } else {
      SealedChunk(a, None, nonce(k), Head(p));
      BodyLength(a, nonce, k + 1, Rest(p));
      assert FramesFor(a, nonce, k, p)[1..] == FramesFor(a, nonce, k + 1, Rest(p));
    }
  }

  /** n plaintext bytes encode to n + 32 * ceil(n / 2^20) + 4 bytes. */
  lemma EncodedLength(a: Aead, nonce: nat -> Nonce, k: nat, p: Bytes)
    requires a.Valid()
    ensures |Encode(a, nonce, k, p)| == |p| + 32 * ((|p| + 1_048_575) / 1_048_576) + 4
  {
    BodyLength(a, nonce, k, p);
  }

  // ---- what follows good frames ----------------------------------------------

  /** Good frames first, then whatever the rest decodes to. */
  lemma {:induction false} DecodeAfter(a: Aead, limit: Option<nat>, fs: seq<Frame>, rest: Bytes)
    requires AllAcceptable(a, limit, fs)
    ensures var d := Decode(a, limit, rest);
      Decode(a, limit, Wire(fs) + rest) == Decoded(Plain(a, fs) + d.plain, |Wire(fs)| + d.used, d.status)
  {
    if fs == [] {
      assert Wire(fs) + rest == rest;
    } else {
      DecodeAfter(a, limit, fs[1..], rest);
      DecodeCons(a, limit, fs[0], Wire(fs[1..]) + rest);
      Assoc(fs[0].Wire(), Wire(fs[1..]), rest);
      Assoc(PlainOf(a, fs[0]), Plain(a, fs[1..]), Decode(a, limit, rest).plain);
    }
  }

  // ---- truncation ------------------------------------------------------------

  /** How many frames lie wholly inside the first k wire bytes. */
  function WholeFrames(fs: seq<Frame>, k: nat): (n: nat)
    ensures n <= |fs|
  {
    if fs == [] || k < |fs[0].Wire()| then 0
    else 1 + WholeFrames(fs[1..], k - |fs[0].Wire()|)
  }

  /** A cut inside the first frame leaves nothing to decode. */
  lemma DecodeCutFrame(a: Aead, limit: Option<nat>, f: Frame, k: nat)
    requires Acceptable(a, limit, f) && k < |f.Wire()|
    ensures Decode(a, limit, f.Wire()[..k]) == Decoded([], k, Truncated)
  {
    if k >= HEADER_SIZE {
      FirstFrameOfWire(f, []);
      assert f.Wire() + [] == f.Wire();
      assert f.Wire()[..k][..HEADER_SIZE] == f.Wire()[..HEADER_SIZE];
    }
  }

  lemma PlainCons(a: Aead, fs: seq<Frame>, n: nat)
    requires n < |fs|
    ensures Plain(a, fs[..n + 1]) == PlainOf(a, fs[0]) + Plain(a, fs[1..][..n])
  {
    assert fs[..n + 1][1..] == fs[1..][..n];
  }

  lemma PrefixAfterFrame(f: Frame, gs: seq<Frame>, s: Bytes)
    requires |f.Wire()| <= |s| && s <= f.Wire() + Wire(gs) + MARKER
    ensures s == f.Wire() + s[|f.Wire()|..]
    ensures s[|f.Wire()|..] <= Wire(gs) + MARKER
  {
    assert f.Wire() + Wire(gs) + MARKER == f.Wire() + (Wire(gs) + MARKER);
  }

  /** Any strict prefix of a stream is reported truncated, after exactly its whole frames. */
  lemma {:induction false} DecodePrefix(a: Aead, limit: Option<nat>, fs: seq<Frame>, s: Bytes)
    requires AllAcceptable(a, limit, fs)
    requires s < Wire(fs) + MARKER
    ensures Decode(a, limit, s) == Decoded(Plain(a, fs[..WholeFrames(fs, |s|)]), |s|, Truncated)
  {
    if fs == [] {
    } else if |s| < |fs[0].Wire()| {
      assert s == fs[0].Wire()[..|s|];
      DecodeCutFrame(a, limit, fs[0], |s|);
    } else {
      var t := s[|fs[0].Wire()|..];
      PrefixAfterFrame(fs[0], fs[1..], s);
      DecodePrefix(a, limit, fs[1..], t);
      DecodeCons(a, limit, fs[0], t);
      PlainCons(a, fs, WholeFrames(fs[1..], |t|));
    }
  }

  /** The plaintext of the frames that k wire bytes hold whole. */
  lemma {:induction false} WholeFramesOfStream(a: Aead, nonce: nat -> Nonce, j: nat, p: Bytes, k: nat)
    requires a.Valid()
    ensures var fs := FramesFor(a, nonce, j, p);
      && (k < |Wire(fs)| ==>
            && CHUNK_PLAIN_SIZE * (k / FULL_FRAME_WIRE) <= |p|
            && Plain(a, fs[..WholeFrames(fs, k)]) == p[..CHUNK_PLAIN_SIZE * (k / FULL_FRAME_WIRE)])
      && (k >= |Wire(fs)| ==> WholeFrames(fs, k) == |fs|)
    decreases |p|
  {
    if p == [] {
    } else {
      var fs := FramesFor(a, nonce, j, p);
      SealedChunk(a, None, nonce(j), Head(p));
      assert fs[1..] == FramesFor(a, nonce, j + 1, Rest(p));
      assert |fs[0].Wire()| == |Head(p)| + 32;
      if k >= |fs[0].Wire()| {
        var k' := k - |fs[0].Wire()|;
        WholeFramesOfStream(a, nonce, j + 1, Rest(p), k');
        if k < |Wire(fs)| {
          FullHead(p, k');
          PlainCons(a, fs, WholeFrames(fs[1..], k'));
        }
      }
    }
  }

  /** With plaintext left after the first chunk, that chunk is a full one. */
  lemma FullHead(p: Bytes, k: nat)
    requires Rest(p) != [] && CHUNK_PLAIN_SIZE * (k / FULL_FRAME_WIRE) <= |Rest(p)|
    ensures |Head(p)| == CHUNK_PLAIN_SIZE
    ensures (k + FULL_FRAME_WIRE) / FULL_FRAME_WIRE == 1 + k / FULL_FRAME_WIRE
    ensures CHUNK_PLAIN_SIZE * (1 + k / FULL_FRAME_WIRE) <= |p|
    ensures p[..CHUNK_PLAIN_SIZE * (1 + k / FULL_FRAME_WIRE)]
         == Head(p) + Rest(p)[..CHUNK_PLAIN_SIZE * (k / FULL_FRAME_WIRE)]
  {
  }

  /**
   Truncation detection: every strict prefix of an encoded stream is refused as
   truncated, after emitting exactly the plaintext of the frames it holds whole.
   */
  lemma TruncationDetected(a: Aead, limit: Option<nat>, nonce: nat -> Nonce, j: nat, p: Bytes, k: nat)
    requires a.Valid() && AdmitsFullChunks(limit)
    requires k < |Encode(a, nonce, j, p)|
    ensures var d := Decode(a, limit, Encode(a, nonce, j, p)[..k]);
      && d.status == Truncated
      && d.used == k
      && (k >= |Body(a, nonce, j, p)| ==> d.plain == p)
      && (k < |Body(a, nonce, j, p)| ==>
            && CHUNK_PLAIN_SIZE * (k / FULL_FRAME_WIRE) <= |p|
            && d.plain == p[..CHUNK_PLAIN_SIZE * (k / FULL_FRAME_WIRE)])
  {
    var fs := FramesFor(a, nonce, j, p);
    FramesForGood(a, limit, nonce, j, p);
    DecodePrefix(a, limit, fs, Encode(a, nonce, j, p)[..k]);
    WholeFramesOfStream(a, nonce, j, p, k);
    assert fs[..|fs|] == fs;
  }

  // ---- decoder agreement -------------------------------------------------------

  /** Walking the length prefixes of s up to the marker, no frame exceeds m. */
  predicate HeadersWithin(m: nat, s: Bytes)
    decreases |s|
  {
    |s| >= HEADER_SIZE ==>
      var size := ReadU32(s[..HEADER_SIZE]);
      size != 0 ==>
        size <= m && (size <= |s| - HEADER_SIZE ==> HeadersWithin(m, s[HEADER_SIZE + size..]))
  }

  /** The CLI accepts what the agent accepts, except streams with a frame over its bound. */
  lemma {:induction false} DecodersAgree(a: Aead, m: nat, s: Bytes)
    ensures var cli := Decode(a, Some(m), s); var agent := Decode(a, None, s);
      && (cli.status == Clean <==> agent.status == Clean && HeadersWithin(m, s))
      && (cli.status == Clean ==> cli == agent)
    decreases |s|
  {
    if |s| < HEADER_SIZE {
    } else {
      var size := ReadU32(s[..HEADER_SIZE]);
      if MIN_FRAME_SIZE <= size <= |s| - HEADER_SIZE {
        DecodersAgree(a, m, s[HEADER_SIZE + size..]);
      }
    }
  }

  // ---- what may be on the wire before the input has ended --------------------

  /** The frames of the chunks that x fills completely. */
  function FullFrames(a: Aead, nonce: nat -> Nonce, k: nat, x: Bytes): Bytes
    decreases |x|
  {
    if |x| < CHUNK_PLAIN_SIZE then []
    else Frame(nonce(k), a.seal(nonce(k), Head(x))).Wire() + FullFrames(a, nonce, k + 1, Rest(x))
  }

  lemma {:induction false} FullFramesMonotone(a: Aead, nonce: nat -> Nonce, k: nat, x: Bytes, y: Bytes)
    ensures FullFrames(a, nonce, k, x) <= FullFrames(a, nonce, k, x + y)
    decreases |x|
  {
    if |x| < CHUNK_PLAIN_SIZE {
    } else {
      FullFramesMonotone(a, nonce, k + 1, Rest(x), y);
      assert Head(x + y) == Head(x);
      assert Rest(x + y) == Rest(x) + y;
    }
  }

  lemma {:induction false} FullFramesBelowEncode(a: Aead, nonce: nat -> Nonce, k: nat, x: Bytes)
    ensures FullFrames(a, nonce, k, x) <= Encode(a, nonce, k, x)
    decreases |x|
  {
    if |x| < CHUNK_PLAIN_SIZE {
    } else {
      FullFramesBelowEncode(a, nonce, k + 1, Rest(x));
      var fs := FramesFor(a, nonce, k, x);
      assert fs[1..] == FramesFor(a, nonce, k + 1, Rest(x));
      assert Encode(a, nonce, k, x) == fs[0].Wire() + Encode(a, nonce, k + 1, Rest(x));
    }
  }
}
