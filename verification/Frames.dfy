/**
 The chunked AES-256-GCM stream format: what an encoded stream is, what the two
 decoders accept, and the laws that tie them together. Nothing here reads or
 writes a stream; `FrameStreams` proves the streaming loops against this module.
 */
module Frames {
  import opened Prelude
  import Positional

  type Bytes = seq<byte>

  const CHUNK_PLAIN_SIZE: nat := 0x10_0000
  const NONCE_SIZE: nat := 12
  const TAG_SIZE: nat := 16
  const HEADER_SIZE: nat := 4
  const MIN_FRAME_SIZE: nat := NONCE_SIZE + TAG_SIZE
  const MAX_FRAME_SIZE: nat := NONCE_SIZE + CHUNK_PLAIN_SIZE + TAG_SIZE
  const U32_LIMIT: nat := 0x1_0000_0000

  type Nonce = s: Bytes | |s| == 12 witness seq(12, _ => 0)

  /** An AEAD with nil additional data, as the two functions the stream uses. */
  datatype Aead = Aead(seal: (Nonce, Bytes) -> Bytes, open: (Nonce, Bytes) -> Option<Bytes>)
  {
    /** Sections 7.1 and 7.2 of NIST SP 800-38D: open inverts seal, and the tag adds 16 bytes. */
    ghost predicate Valid() {
      forall n: Nonce, p: Bytes ::
        |seal(n, p)| == |p| + TAG_SIZE && open(n, seal(n, p)) == Some(p)
    }
  }

  /** `Valid` asks for something that exists. */
  lemma SomeAeadIsValid() returns (a: Aead)
    ensures a.Valid()
  {
    var tag: Bytes := seq(TAG_SIZE, _ => 0);
    a := Aead(
      (n: Nonce, p: Bytes) => p + tag,
      (n: Nonce, c: Bytes) => if |c| >= TAG_SIZE then Some(c[..|c| - TAG_SIZE]) else None);
    forall n: Nonce, p: Bytes
      ensures |a.seal(n, p)| == |p| + TAG_SIZE && a.open(n, a.seal(n, p)) == Some(p)
    {
      assert (p + tag)[..|p|] == p;
    }
  }

  // ---- length prefix -------------------------------------------------------

  function U32(n: nat): (b: Bytes)
    ensures |b| == HEADER_SIZE
  {
    Positional.Digits(256, 4, n)
  }

  function ReadU32(b: Bytes): nat
    requires |b| == HEADER_SIZE
  {
    Positional.Value(256, b)
  }

  lemma Pow4()
    ensures Positional.Pow(256, 4) == U32_LIMIT
  {
    assert Positional.Pow(256, 1) == 256;
    assert Positional.Pow(256, 2) == 0x1_0000;
    assert Positional.Pow(256, 3) == 0x100_0000;
  }

  lemma U32RoundTrip(n: nat)
    requires n < U32_LIMIT
    ensures ReadU32(U32(n)) == n
  {
    Pow4();
    Positional.ValueOfDigits(256, 4, n);
  }

  /** The end-of-stream marker: a zero length prefix. */
  const MARKER: Bytes := [0, 0, 0, 0]

  lemma MarkerIsZero()
    ensures U32(0) == MARKER && ReadU32(MARKER) == 0
  {
    U32RoundTrip(0);
    assert Positional.Digits(256, 1, 0) == [0];
    assert Positional.Digits(256, 2, 0) == [0, 0];
    assert Positional.Digits(256, 3, 0) == [0, 0, 0];
  }

  lemma ReadU32RoundTrip(b: Bytes)
    requires |b| == HEADER_SIZE
    ensures ReadU32(b) < U32_LIMIT && U32(ReadU32(b)) == b
  {
    Pow4();
    Positional.DigitsOfValue(256, b);
  }

  // ---- frames on the wire --------------------------------------------------

  datatype Frame = Frame(nonce: Nonce, ct: Bytes)
  {
    function Size(): nat { NONCE_SIZE + |ct| }
    function Wire(): Bytes { U32(Size()) + nonce + ct }
  }

  function Wire(fs: seq<Frame>): Bytes {
    if fs == [] then [] else fs[0].Wire() + Wire(fs[1..])
  }

  function PlainOf(a: Aead, f: Frame): Bytes {
    match a.open(f.nonce, f.ct)
    case Some(p) => p
    case None => []
  }

  function Plain(a: Aead, fs: seq<Frame>): Bytes {
    if fs == [] then [] else PlainOf(a, fs[0]) + Plain(a, fs[1..])
  }

  /** Accepted by a decoder with the given frame limit (None: the agent's, Some: the CLI's). */
  predicate Acceptable(a: Aead, limit: Option<nat>, f: Frame) {
    && MIN_FRAME_SIZE <= f.Size() < U32_LIMIT
    && (limit.Some? ==> f.Size() <= limit.value)
    && a.open(f.nonce, f.ct).Some?
  }

  ghost predicate AllAcceptable(a: Aead, limit: Option<nat>, fs: seq<Frame>) {
    forall i | 0 <= i < |fs| :: Acceptable(a, limit, fs[i])
  }

  // ---- encoder -------------------------------------------------------------

  function Head(p: Bytes): Bytes { p[..Min(CHUNK_PLAIN_SIZE, |p|)] }
  function Rest(p: Bytes): Bytes { p[Min(CHUNK_PLAIN_SIZE, |p|)..] }

  /** The frames `Stream` cuts p into, the first one sealed under nonce number k. */
  function FramesFor(a: Aead, nonce: nat -> Nonce, k: nat, p: Bytes): seq<Frame>
    decreases |p|
  {
    if p == [] then []
    else [Frame(nonce(k), a.seal(nonce(k), Head(p)))] + FramesFor(a, nonce, k + 1, Rest(p))
  }

  function Body(a: Aead, nonce: nat -> Nonce, k: nat, p: Bytes): Bytes {
    Wire(FramesFor(a, nonce, k, p))
  }

  function Encode(a: Aead, nonce: nat -> Nonce, k: nat, p: Bytes): Bytes {
    Body(a, nonce, k, p) + MARKER
  }

  // ---- decoder -------------------------------------------------------------

  datatype Status = Clean | Truncated | TooSmall | TooLarge | AuthFailed

  datatype Decoded = Decoded(plain: Bytes, used: nat, status: Status)

  /** What a decoder emits, how many input bytes it takes, and how it ends, on input s. */
  function Decode(a: Aead, limit: Option<nat>, s: Bytes): (d: Decoded)
    ensures d.used <= |s|
    decreases |s|
  {
    if |s| < HEADER_SIZE then Decoded([], |s|, Truncated)
    else
      var size := ReadU32(s[..HEADER_SIZE]);
      if size == 0 then Decoded([], HEADER_SIZE, Clean)
      else if size < MIN_FRAME_SIZE then Decoded([], HEADER_SIZE, TooSmall)
      else if limit.Some? && size > limit.value then Decoded([], HEADER_SIZE, TooLarge)
      else if |s| - HEADER_SIZE < size then Decoded([], |s|, Truncated)
      else
        var f := FirstFrame(s, size);
        if a.open(f.nonce, f.ct).None? then Decoded([], HEADER_SIZE + size, AuthFailed)
        else
          var d := Decode(a, limit, s[HEADER_SIZE + size..]);
          Decoded(PlainOf(a, f) + d.plain, HEADER_SIZE + size + d.used, d.status)
  }

  function FirstFrame(s: Bytes, size: nat): Frame
    requires MIN_FRAME_SIZE <= size <= |s| - HEADER_SIZE
  {
    Frame(s[HEADER_SIZE..HEADER_SIZE + NONCE_SIZE], s[HEADER_SIZE + NONCE_SIZE..HEADER_SIZE + size])
  }

  // ---- lemmas on the wire form ----------------------------------------------

  /** A frame's own bytes are recovered by reading its length prefix. */
  lemma FirstFrameOfWire(f: Frame, rest: Bytes)
    requires MIN_FRAME_SIZE <= f.Size() < U32_LIMIT
    ensures var s := f.Wire() + rest;
      && |f.Wire()| == HEADER_SIZE + f.Size()
      && ReadU32(s[..HEADER_SIZE]) == f.Size()
      && FirstFrame(s, f.Size()) == f
      && s[HEADER_SIZE + f.Size()..] == rest
  {
    var s := f.Wire() + rest;
    U32RoundTrip(f.Size());
    assert s[..HEADER_SIZE] == U32(f.Size());
    assert s[HEADER_SIZE..HEADER_SIZE + NONCE_SIZE] == f.nonce;
    assert s[HEADER_SIZE + NONCE_SIZE..HEADER_SIZE + f.Size()] == f.ct;
  }

  lemma WireOfFirstFrame(s: Bytes, size: nat)
    requires HEADER_SIZE <= |s| && size == ReadU32(s[..HEADER_SIZE])
    requires MIN_FRAME_SIZE <= size <= |s| - HEADER_SIZE
    ensures FirstFrame(s, size).Wire() == s[..HEADER_SIZE + size]
    ensures FirstFrame(s, size).Size() == size < U32_LIMIT
  {
    ReadU32RoundTrip(s[..HEADER_SIZE]);
  }

  /** One step of `Decode` on an acceptable frame. */
  lemma DecodeCons(a: Aead, limit: Option<nat>, f: Frame, rest: Bytes)
    requires Acceptable(a, limit, f)
    ensures var d := Decode(a, limit, rest);
      Decode(a, limit, f.Wire() + rest)
        == Decoded(PlainOf(a, f) + d.plain, |f.Wire()| + d.used, d.status)
  {
    FirstFrameOfWire(f, rest);
  }

  lemma DecodeMarker(a: Aead, limit: Option<nat>, rest: Bytes)
    ensures Decode(a, limit, MARKER + rest) == Decoded([], HEADER_SIZE, Clean)
  {
    assert (MARKER + rest)[..HEADER_SIZE] == MARKER;
    MarkerIsZero();
  }

  /** Decoders accept every well-formed stream, stop at its marker and leave `rest` unread. */
  lemma {:induction false} DecodeComplete(a: Aead, limit: Option<nat>, fs: seq<Frame>, rest: Bytes)
    requires AllAcceptable(a, limit, fs)
    ensures Decode(a, limit, Wire(fs) + MARKER + rest)
         == Decoded(Plain(a, fs), |Wire(fs)| + HEADER_SIZE, Clean)
  {
    if fs == [] {
      assert Wire(fs) + MARKER + rest == MARKER + rest;
      DecodeMarker(a, limit, rest);
    } else {
      var tail := Wire(fs[1..]) + MARKER + rest;
      DecodeComplete(a, limit, fs[1..], rest);
      DecodeCons(a, limit, fs[0], tail);
      assert Wire(fs) + MARKER + rest == fs[0].Wire() + tail;
    }
  }

  lemma WirePrepend(f: Frame, gs: seq<Frame>)
    ensures Wire([f] + gs) == f.Wire() + Wire(gs)
  {
    assert ([f] + gs)[1..] == gs;
  }

  lemma PlainPrepend(a: Aead, f: Frame, gs: seq<Frame>)
    ensures Plain(a, [f] + gs) == PlainOf(a, f) + Plain(a, gs)
  {
    assert ([f] + gs)[1..] == gs;
  }

  /** And nothing else: a clean decode exhibits the frames it consumed. */
  lemma {:induction false} DecodeSound(a: Aead, limit: Option<nat>, s: Bytes) returns (fs: seq<Frame>)
    requires Decode(a, limit, s).status == Clean
    ensures AllAcceptable(a, limit, fs)
    ensures Decode(a, limit, s) == Decoded(Plain(a, fs), |Wire(fs)| + HEADER_SIZE, Clean)
    ensures s[..|Wire(fs)| + HEADER_SIZE] == Wire(fs) + MARKER
    decreases |s|
  {
    var size := ReadU32(s[..HEADER_SIZE]);
    if size == 0 {
      fs := [];
      ReadU32RoundTrip(s[..HEADER_SIZE]);
      MarkerIsZero();
    } else {
      var f, tail := FirstFrame(s, size), s[HEADER_SIZE + size..];
      var gs := DecodeSound(a, limit, tail);
      fs := [f] + gs;
      WireOfFirstFrame(s, size);
      WirePrepend(f, gs);
      PlainPrepend(a, f, gs);
      SplitWire(f, gs, s, tail);
    }
  }

  lemma SplitWire(f: Frame, gs: seq<Frame>, s: Bytes, tail: Bytes)
    requires |f.Wire()| <= |s| && f.Wire() == s[..|f.Wire()|] && tail == s[|f.Wire()|..]
    requires |Wire(gs)| + HEADER_SIZE <= |tail|
    requires tail[..|Wire(gs)| + HEADER_SIZE] == Wire(gs) + MARKER
    ensures s[..|f.Wire() + Wire(gs)| + HEADER_SIZE] == f.Wire() + Wire(gs) + MARKER
  {
    assert s == f.Wire() + tail;
    assert s[..|f.Wire() + Wire(gs)| + HEADER_SIZE] == f.Wire() + tail[..|Wire(gs)| + HEADER_SIZE];
  }
}
