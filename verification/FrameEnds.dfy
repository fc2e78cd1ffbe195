/** The format in bytes, and what each decoder reports at every way a stream can end. */
module FrameEnds {
  import opened Prelude
  import opened Positional
  import opened Frames
  import opened FrameLaws
  import opened Streams
  import opened FrameStreams

  // ---- bytes on the wire ----------------------------------------------------------------

  /** The number that four bytes write, most significant first. */
  function Number(b: seq<nat>): nat
    requires |b| == 4
  {
    b[0] * 0x100_0000 + b[1] * 0x1_0000 + b[2] * 0x100 + b[3]
  }

  lemma HeaderIsNumber(b: Bytes)
    requires |b| == 4
    ensures ReadU32(b) == Number(b)
  {
    var d: seq<nat> := b;
    assert d[..3][..2] == d[..2] && d[..2][..1] == d[..1] && d[..1][..0] == [];
    assert Value(256, d[..1]) == d[0];
    assert Value(256, d[..2]) == d[0] * 256 + d[1];
    assert Value(256, d[..3]) == (d[0] * 256 + d[1]) * 256 + d[2];
  }

  /** A frame is its length, twelve bytes of nonce, and the sealed chunk. */
  lemma FrameLayout(f: Frame)
    requires f.Size() < U32_LIMIT
    ensures var b := f.Wire();
      && |b| == 16 + |f.ct|
      && Number(b[..4]) == 12 + |f.ct| && b[4..16] == f.nonce && b[16..] == f.ct
  {
    U32RoundTrip(f.Size());
    HeaderIsNumber(U32(f.Size()));
    assert f.Wire()[..4] == U32(f.Size());
  }

  /**
   What the encoder writes first: for an empty input four zero bytes, otherwise the frame of
   its first 2^20 bytes, under the nonce drawn for it, and then the encoding of the rest.
   */
  lemma EncodingLayout(a: Aead, nonce: nat -> Nonce, k: nat, p: Bytes)
    requires a.Valid()
    ensures p == [] ==> Encode(a, nonce, k, p) == [0, 0, 0, 0]
    ensures p != [] ==>
      var n := Min(0x10_0000, |p|);
      var b := Encode(a, nonce, k, p);
      && |b| >= n + 32
      && Number(b[..4]) == n + 28 && b[4..16] == nonce(k) && b[16..n + 32] == a.seal(nonce(k), p[..n])
      && b[n + 32..] == Encode(a, nonce, k + 1, p[n..])
  {
    if p == [] {
    } else {
      var f := Frame(nonce(k), a.seal(nonce(k), Head(p)));
      EncodeStep(a, nonce, k, p);
      SealedChunk(a, None, nonce(k), Head(p));
      FrameLayout(f);
      var b, rest := Encode(a, nonce, k, p), Encode(a, nonce, k + 1, Rest(p));
      assert b == f.Wire() + rest;
      assert b[..4] == f.Wire()[..4] && b[4..16] == f.Wire()[4..16] && b[16..|f.Wire()|] == f.Wire()[16..];
    }
  }

  // ---- how a stream can end ------------------------------------------------------------------

  /** The input breaks off, or the reader fails, after fewer bytes than the header or the frame needs. */
  predicate CutShort(tail: Bytes) {
    |tail| < 4 || (28 <= Number(tail[..4]) && |tail| - 4 < Number(tail[..4]))
  }

  /** A whole frame that does not open. */
  predicate Forged(a: Aead, tail: Bytes) {
    |tail| >= 4 && 28 <= Number(tail[..4]) <= |tail| - 4
    && a.open(tail[4..16], tail[16..4 + Number(tail[..4])]).None?
  }

  lemma TailDecode(a: Aead, limit: Option<nat>, tail: Bytes)
    ensures var d := Decode(a, limit, tail);
      && (|tail| < 4 ==> d.status == Truncated && d.plain == [])
      && (|tail| >= 4 ==>
            var n := Number(tail[..4]);
            && (n == 0 ==> d.status == Clean && d.plain == [])
            && (1 <= n < 28 ==> d.status == TooSmall && d.plain == [])
            && (28 <= n && limit.Some? && n > limit.value ==> d.status == TooLarge && d.plain == [])
            && (28 <= n && (limit.Some? ==> n <= limit.value) ==>
                  && (CutShort(tail) ==> d.status == Truncated && d.plain == [])
                  && (Forged(a, tail) ==> d.status == AuthFailed && d.plain == [])))
  {
    if |tail| >= 4 {
      HeaderIsNumber(tail[..4]);
    }
  }

  /**
   The CLI on good frames followed by anything that is no good frame: it emits exactly the
   good frames, and the first four bytes of the rest decide what it reports.
   */
  lemma CliStops(a: Aead, fs: seq<Frame>, tail: Bytes, end: IoErr)
    requires AllAcceptable(a, CLI_LIMIT, fs)
    ensures var d := Decode(a, CLI_LIMIT, Wire(fs) + tail);
      var err := CliVerdict(d.status, end);
      if |tail| < 4 then
        d.plain == Plain(a, fs) && err == Some(if end.Failure? then Unread(end) else ErrTruncated)
      else
        var n := Number(tail[..4]);
        && (n == 0 ==> d.plain == Plain(a, fs) && err == None)
        && (1 <= n < 28 ==> d.plain == Plain(a, fs) && err == Some(ErrFrameTooSmall))
        && (n > 1_048_604 ==> d.plain == Plain(a, fs) && err == Some(ErrFrameTooLarge))
        && (28 <= n <= 1_048_604 && CutShort(tail) ==>
              d.plain == Plain(a, fs) && err == Some(if end.Failure? then Unread(end) else ErrTruncated))
        && (28 <= n <= 1_048_604 && Forged(a, tail) ==> d.plain == Plain(a, fs) && err == Some(ErrDecryptFailed))
  {
    DecodeAfter(a, CLI_LIMIT, fs, tail);
    TailDecode(a, CLI_LIMIT, tail);
    assert Plain(a, fs) + [] == Plain(a, fs);
  }

  // ---- the agent's decoder -----------------------------------------------------------------------

  lemma EndStep(a: Aead, end: IoErr, f: Frame, rest: Bytes)
    requires Acceptable(a, None, f)
    ensures EndOf(a, None, end, f.Wire() + rest) == EndOf(a, None, end, rest)
  {
    FirstFrameOfWire(f, rest);
  }

  lemma {:induction false} EndAfter(a: Aead, end: IoErr, fs: seq<Frame>, rest: Bytes)
    requires AllAcceptable(a, None, fs)
    ensures EndOf(a, None, end, Wire(fs) + rest) == EndOf(a, None, end, rest)
  {
    if fs == [] {
      assert Wire(fs) + rest == rest;
    } else {
      EndAfter(a, end, fs[1..], rest);
      EndStep(a, end, fs[0], Wire(fs[1..]) + rest);
      Assoc(fs[0].Wire(), Wire(fs[1..]), rest);
    }
  }

  lemma TailEnd(a: Aead, end: IoErr, tail: Bytes)
    ensures var err := AgentVerdict(EndOf(a, None, end, tail));
      if tail == [] then
        err == Some(if end == Eof then NoMarker else HeaderUnread(end))
      else if |tail| < 4 then
        err == Some(HeaderUnread(if end == Eof then UnexpectedEof else end))
      else
        var n := Number(tail[..4]);
        && (n == 0 ==> err == None)
        && (1 <= n < 28 ==> err == Some(BelowMinimum))
        && (28 <= n && |tail| - 4 < n ==>
              err == Some(BodyUnread(if |tail| > 4 && end == Eof then UnexpectedEof else end)))
        && (Forged(a, tail) ==> err == Some(OpenFailed))
  {
    if |tail| >= 4 {
      HeaderIsNumber(tail[..4]);
    }
  }

  /** The agent on good frames followed by anything that is no good frame, likewise; it has no upper bound. */
  lemma AgentStops(a: Aead, fs: seq<Frame>, tail: Bytes, end: IoErr)
    requires AllAcceptable(a, None, fs)
    ensures var err := AgentVerdict(EndOf(a, None, end, Wire(fs) + tail));
      if tail == [] then
        err == Some(if end == Eof then NoMarker else HeaderUnread(end))
      else if |tail| < 4 then
        err == Some(HeaderUnread(if end == Eof then UnexpectedEof else end))
      else
        var n := Number(tail[..4]);
        && (n == 0 ==> err == None)
        && (1 <= n < 28 ==> err == Some(BelowMinimum))
        && (28 <= n && |tail| - 4 < n ==>
              err == Some(BodyUnread(if |tail| > 4 && end == Eof then UnexpectedEof else end)))
        && (Forged(a, tail) ==> err == Some(OpenFailed))
  {
    EndAfter(a, end, fs, tail);
    TailEnd(a, end, tail);
  }
}
