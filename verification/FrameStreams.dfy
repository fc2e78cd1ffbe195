/** The streaming encoder and the two streaming decoders, proved against `Frames`. */
module FrameStreams {
  import opened Prelude
  import opened Frames
  import opened Streams

  // ---- Encryptor.Stream --------------------------------------------------------

  datatype StreamErr = NonceFailed | WriteFailed | ReadFailed(cause: IoErr)

  /** How ReadFull's end-of-input errors read to the encoder: both end the stream. */
  predicate EndsStream(e: IoErr) {
    e == Eof || e == UnexpectedEof
  }

  const ZERO_NONCE: Nonce := seq(12, _ => 0)

  /** The nonces drawn when the random source answers. */
  function Drawn(rng: nat -> Option<Nonce>): nat -> Nonce {
    k => match rng(k) case Some(n) => n case None => ZERO_NONCE
  }

  /** Encode peels one frame at a time. */
  lemma EncodeStep(a: Aead, nonce: nat -> Nonce, k: nat, p: Bytes)
    requires p != []
    ensures var f := Frame(nonce(k), a.seal(nonce(k), Head(p)));
      && Encode(a, nonce, k, p) == f.Wire() + Encode(a, nonce, k + 1, Rest(p))
      && Body(a, nonce, k, p) == f.Wire() + Body(a, nonce, k + 1, Rest(p))
  {
    assert FramesFor(a, nonce, k, p)[1..] == FramesFor(a, nonce, k + 1, Rest(p));
  }

  /** Header, nonce and ciphertext of one frame, in three writes. */
  method WriteFrame(w: Sink, f: Frame) returns (ok: bool)
    modifies w
    ensures ok ==> w.data == old(w.data) + f.Wire()
    ensures old(w.data) <= w.data <= old(w.data) + f.Wire()
    ensures old(w.budget).None? ==> ok
    ensures w.budget.None? <==> old(w.budget).None?
  {
    ghost var base := w.data;
    ok := w.Write(U32(f.Size()));
    if !ok {
      assert base + f.Wire() == base + U32(f.Size()) + f.nonce + f.ct;
      return;
    }
    ok := w.Write(f.nonce);
    if !ok {
      assert base + f.Wire() == base + U32(f.Size()) + f.nonce + f.ct;
      return;
    }
    ok := w.Write(f.ct);
    assert base + f.Wire() == base + U32(f.Size()) + f.nonce + f.ct;
  }

  /** After `done` bytes of p went out as k frames, `data` lacks exactly the rest of the encoding. */
  ghost predicate Progress(a: Aead, nonce: nat -> Nonce, base: Bytes, p: Bytes, k: nat, done: nat, data: Bytes) {
    && done <= |p|
    && base <= data
    && data + Encode(a, nonce, k, p[done..]) == base + Encode(a, nonce, 0, p)
    && data + Body(a, nonce, k, p[done..]) == base + Body(a, nonce, 0, p)
  }

  ghost function NextFrame(a: Aead, nonce: nat -> Nonce, k: nat, q: Bytes): Frame {
    Frame(nonce(k), a.seal(nonce(k), Head(q)))
  }

  lemma ProgressStep(a: Aead, nonce: nat -> Nonce, base: Bytes, p: Bytes, k: nat, done: nat, data: Bytes)
    requires Progress(a, nonce, base, p, k, done, data) && done < |p|
    ensures var q := p[done..];
      Progress(a, nonce, base, p, k + 1, done + |Head(q)|, data + NextFrame(a, nonce, k, q).Wire())
  {
    var q := p[done..];
    var x := NextFrame(a, nonce, k, q).Wire();
    EncodeStep(a, nonce, k, q);
    assert p[done + |Head(q)|..] == Rest(q);
    assert data + (x + Encode(a, nonce, k + 1, Rest(q))) == data + x + Encode(a, nonce, k + 1, Rest(q));
    assert data + (x + Body(a, nonce, k + 1, Rest(q))) == data + x + Body(a, nonce, k + 1, Rest(q));
  }

  lemma ProgressTorn(a: Aead, nonce: nat -> Nonce, base: Bytes, p: Bytes, k: nat, done: nat, data: Bytes, torn: Bytes)
    requires Progress(a, nonce, base, p, k, done, data) && done < |p|
    requires data <= torn <= data + NextFrame(a, nonce, k, p[done..]).Wire()
    ensures base <= torn <= base + Encode(a, nonce, 0, p)
  {
    ProgressStep(a, nonce, base, p, k, done, data);
  }

  lemma ProgressDone(a: Aead, nonce: nat -> Nonce, base: Bytes, p: Bytes, k: nat, data: Bytes)
    requires Progress(a, nonce, base, p, k, |p|, data)
    ensures data == base + Body(a, nonce, 0, p)
    ensures data + MARKER == base + Encode(a, nonce, 0, p)
  {
    assert p[|p|..] == [];
  }

  /** Seal and write chunk number k of p, the one that starts at `done`. */
  method StreamChunk(a: Aead, rng: nat -> Option<Nonce>, w: Sink, chunk: Bytes, k: nat,
                     ghost base: Bytes, ghost p: Bytes, ghost done: nat) returns (err: Option<StreamErr>)
    requires Progress(a, Drawn(rng), base, p, k, done, w.data) && done < |p| && chunk == Head(p[done..])
    modifies w
    ensures err.None? ==> Progress(a, Drawn(rng), base, p, k + 1, done + |chunk|, w.data)
    ensures base <= w.data <= base + Encode(a, Drawn(rng), 0, p)
    ensures w.budget.None? <==> old(w.budget).None?
    ensures err.Some? ==>
      || (err.value.WriteFailed? && old(w.budget).Some?)
      || (err.value.NonceFailed? && rng(k).None?)
  {
    var nonce := Drawn(rng);
    ghost var before := w.data;
    if rng(k).None? {
      return Some(NonceFailed);
    }
    var f := Frame(nonce(k), a.seal(nonce(k), chunk));
    var ok := WriteFrame(w, f);
    if !ok {
      ProgressTorn(a, nonce, base, p, k, done, before, w.data);
      return Some(WriteFailed);
    }
    ProgressStep(a, nonce, base, p, k, done, before);
    err := None;
  }

  lemma DropDrop(p: Bytes, i: nat, j: nat)
    requires i + j <= |p|
    ensures p[i..][j..] == p[i + j..]
  {
  }

  /** The next chunk, and what the read of it reported. */
  method ReadChunk(r: Reader, buf: array<byte>) returns (chunk: Bytes, err: Option<IoErr>)
    requires buf.Length == CHUNK_PLAIN_SIZE
    modifies r, buf
    ensures chunk == Head(old(r.Pending())) && r.Pending() == old(r.Pending())[|chunk|..]
    ensures err == ReadFullErr(|chunk|, CHUNK_PLAIN_SIZE, r.end)
  {
    var n;
    n, err := ReadFull(r, buf, CHUNK_PLAIN_SIZE);
    chunk := buf[..n];
  }

  /** A whole number of chunks in, the next one has that number. */
  lemma ChunkNumber(k: nat)
    ensures (k * CHUNK_PLAIN_SIZE) % CHUNK_PLAIN_SIZE == 0 && (k * CHUNK_PLAIN_SIZE) / CHUNK_PLAIN_SIZE == k
  {
  }

  /** The body of the loop of `Stream`: read a chunk, seal it, write it, and see how the read went. */
  method StreamRound(a: Aead, rng: nat -> Option<Nonce>, r: Reader, w: Sink, buf: array<byte>, k: nat, total: nat,
                     ghost base: Bytes, ghost p: Bytes)
    returns (total': nat, k': nat, ended: bool, err: Option<StreamErr>)
    requires buf.Length == CHUNK_PLAIN_SIZE && total == k * CHUNK_PLAIN_SIZE
    requires Progress(a, Drawn(rng), base, p, k, total, w.data) && r.Pending() == p[total..]
    modifies r, w, buf
    ensures w.budget.None? <==> old(w.budget).None?
    ensures base <= w.data <= base + Encode(a, Drawn(rng), 0, p)
    ensures err.None? ==>
      && Progress(a, Drawn(rng), base, p, k', total', w.data) && r.Pending() == p[total'..]
      && (if ended then total' == |p| && EndsStream(r.end)
          else total' == k' * CHUNK_PLAIN_SIZE && total' > total)
    ensures err.Some? && err.value.ReadFailed? ==>
      && err.value.cause == r.end && !EndsStream(r.end)
      && w.data == base + Body(a, Drawn(rng), 0, p) && total' == |p|
    ensures err == Some(WriteFailed) ==> old(w.budget).Some?
    ensures err == Some(NonceFailed) ==> total' == total < |p| && k' == k && rng(k).None?
  {
    ghost var nonce := Drawn(rng);
    total', k', ended, err := total, k, false, None;
    ProgressBelow(a, nonce, base, p, k, total, w.data);
    var chunk, readErr := ReadChunk(r, buf);
    DropDrop(p, total, |chunk|);
    if |chunk| > 0 {
      err := StreamChunk(a, rng, w, chunk, k, base, p, total);
      if err.Some? {
        return;
      }
      total', k' := total + |chunk|, k + 1;
    }
    ended := readErr == Some(Eof) || readErr == Some(UnexpectedEof);
    if readErr.Some? && !ended {
      ProgressDone(a, nonce, base, p, k', w.data);
      err := Some(ReadFailed(readErr.value));
    }
  }

  lemma ProgressBelow(a: Aead, nonce: nat -> Nonce, base: Bytes, p: Bytes, k: nat, done: nat, data: Bytes)
    requires Progress(a, nonce, base, p, k, done, data)
    ensures base <= data <= base + Encode(a, nonce, 0, p)
  {
  }

  /**
   `Encryptor.Stream`. Whatever the fragmentation, a stream that ends normally is
   written as `Encode` of all its bytes; what is written is a prefix of that in
   every case; and a read failure is reported after the bytes read so far were framed.
   */
  method Stream(a: Aead, rng: nat -> Option<Nonce>, r: Reader, w: Sink)
    returns (total: nat, err: Option<StreamErr>)
    modifies r, w
    ensures err.None? ==>
      && EndsStream(r.end)
      && w.data == old(w.data) + Encode(a, Drawn(rng), 0, old(r.Pending()))
      && total == |old(r.Pending())| && r.Pending() == []
    ensures forall k: nat :: rng(k).Some? ==> Drawn(rng)(k) == rng(k).value
    ensures old(w.data) <= w.data <= old(w.data) + Encode(a, Drawn(rng), 0, old(r.Pending()))
    ensures err.Some? && err.value.ReadFailed? ==>
      && err.value.cause == r.end && !EndsStream(r.end)
      && w.data == old(w.data) + Body(a, Drawn(rng), 0, old(r.Pending()))
      && total == |old(r.Pending())|
    ensures err == Some(WriteFailed) ==> old(w.budget).Some?
    ensures err == Some(NonceFailed) ==>
      && total < |old(r.Pending())| && total % CHUNK_PLAIN_SIZE == 0 && rng(total / CHUNK_PLAIN_SIZE).None?
  {
    var nonce := Drawn(rng);
    ghost var p, base := r.Pending(), w.data;
    var buf := new byte[CHUNK_PLAIN_SIZE];
    var k: nat := 0;
    var ended := false;
    total := 0;
    while !ended
      invariant Progress(a, nonce, base, p, k, total, w.data)
      invariant r.Pending() == p[total..]
      invariant w.budget.None? <==> old(w.budget).None?
      invariant ended ==> total == |p| && EndsStream(r.end)
      invariant !ended ==> total == k * CHUNK_PLAIN_SIZE
      decreases !ended, |p| - total
    {
      total, k, ended, err := StreamRound(a, rng, r, w, buf, k, total, base, p);
      if err.Some? {
        ChunkNumber(k);
        return;
      }
    }
    ProgressDone(a, nonce, base, p, k, w.data);
    MarkerIsZero();
    var ok := w.Write(U32(0));
    err := if ok then None else Some(WriteFailed);
  }

  // ---- the decoders ----------------------------------------------------------------

  /** Decoding q on top of `data` already emitted and `taken` bytes already read. */
  ghost function Resume(a: Aead, limit: Option<nat>, data: Bytes, taken: nat, q: Bytes): Decoded {
    var d := Decode(a, limit, q);
    Decoded(data + d.plain, taken + d.used, d.status)
  }

  /** Where one round of a decoder leaves it. */
  datatype Round =
    | More(plain: Bytes, size: nat)
    | Marker
    | Short(cause: IoErr, inBody: bool)
    | Small
    | Large
    | Unopened

  function StatusOf(round: Round): Status
    requires !round.More?
  {
    match round
    case Marker => Clean
    case Short(_, _) => Truncated
    case Small => TooSmall
    case Large => TooLarge
    case Unopened => AuthFailed
  }

  /** How often a decoder goes round its loop on input s: once a frame, and once more to end. */
  function Rounds(a: Aead, limit: Option<nat>, s: Bytes): (n: nat)
    ensures n > 0
    decreases |s|
  {
    if |s| < HEADER_SIZE then 1
    else
      var size := ReadU32(s[..HEADER_SIZE]);
      if size < MIN_FRAME_SIZE || (limit.Some? && size > limit.value) || |s| - HEADER_SIZE < size then 1
      else
        var f := FirstFrame(s, size);
        if a.open(f.nonce, f.ct).None? then 1 else 1 + Rounds(a, limit, s[HEADER_SIZE + size..])
  }

  /** The round that ends the loop on input s, read from a reader that ends in `end`. */
  function EndOf(a: Aead, limit: Option<nat>, end: IoErr, s: Bytes): (round: Round)
    ensures !round.More? && (limit.None? ==> !round.Large?)
    decreases |s|
  {
    if |s| < HEADER_SIZE then Short(ReadFullErr(|s|, HEADER_SIZE, end).value, false)
    else
      var size := ReadU32(s[..HEADER_SIZE]);
      if size == 0 then Marker
      else if size < MIN_FRAME_SIZE then Small
      else if limit.Some? && size > limit.value then Large
      else if |s| - HEADER_SIZE < size then Short(ReadFullErr(|s| - HEADER_SIZE, size, end).value, true)
      else
        var f := FirstFrame(s, size);
        if a.open(f.nonce, f.ct).None? then Unopened else EndOf(a, limit, end, s[HEADER_SIZE + size..])
  }

  /** What a round says about the input q it started from and the input `left` it leaves. */
  ghost predicate RoundFits(a: Aead, limit: Option<nat>, end: IoErr, q: Bytes, left: Bytes, round: Round) {
    if round.More? then
      && HEADER_SIZE <= |q| && round.size == ReadU32(q[..HEADER_SIZE])
      && MIN_FRAME_SIZE <= round.size <= |q| - HEADER_SIZE
      && (limit.Some? ==> round.size <= limit.value)
      && a.open(FirstFrame(q, round.size).nonce, FirstFrame(q, round.size).ct) == Some(round.plain)
      && left == q[HEADER_SIZE + round.size..]
      && EndOf(a, limit, end, q) == EndOf(a, limit, end, left)
    else
      var d := Decode(a, limit, q);
      && d.plain == [] && d.status == StatusOf(round) && Rounds(a, limit, q) == 1
      && round == EndOf(a, limit, end, q)
      && (round.Marker? ==> d.used == HEADER_SIZE <= |q| && left == q[HEADER_SIZE..])
      && (round.Short? ==> round.cause == end || (end == Eof && round.cause == UnexpectedEof))
  }

  lemma ResumeMore(a: Aead, limit: Option<nat>, end: IoErr, data: Bytes, taken: nat,
                   q: Bytes, left: Bytes, round: Round)
    requires RoundFits(a, limit, end, q, left, round) && round.More?
    ensures Resume(a, limit, data + round.plain, taken + HEADER_SIZE + round.size, left)
         == Resume(a, limit, data, taken, q)
    ensures |left| < |q|
  {
    var y := Decode(a, limit, left).plain;
    assert Decode(a, limit, q).plain == round.plain + y;
    assert data + (round.plain + y) == data + round.plain + y;
  }

  lemma RoundsFit(a: Aead, limit: Option<nat>, end: IoErr, q: Bytes, left: Bytes, round: Round)
    requires RoundFits(a, limit, end, q, left, round)
    ensures Rounds(a, limit, q) == if round.More? then 1 + Rounds(a, limit, left) else 1
  {
  }

  lemma ResumeStop(a: Aead, limit: Option<nat>, end: IoErr, data: Bytes, taken: nat,
                   q: Bytes, left: Bytes, round: Round)
    requires RoundFits(a, limit, end, q, left, round) && !round.More?
    ensures Resume(a, limit, data, taken, q) == Decoded(data, taken + Decode(a, limit, q).used, StatusOf(round))
    ensures round.Marker? ==> Decode(a, limit, q).used == HEADER_SIZE <= |q| && left == q[HEADER_SIZE..]
  {
    assert data + [] == data;
  }

  lemma BodyIsFirstFrame(q: Bytes, size: nat)
    requires HEADER_SIZE <= |q| && MIN_FRAME_SIZE <= size <= |q| - HEADER_SIZE
    ensures var body := q[HEADER_SIZE..][..size];
      FirstFrame(q, size) == Frame(body[..NONCE_SIZE], body[NONCE_SIZE..])
  {
  }

  /** The agent's round: a fresh buffer per frame, no upper bound on the frame. */
  method AgentRound(a: Aead, r: Reader, header: array<byte>) returns (round: Round)
    requires header.Length == HEADER_SIZE
    modifies r, header
    ensures RoundFits(a, None, r.end, old(r.Pending()), r.Pending(), round)
  {
    ghost var q := r.Pending();
    var n, headerErr := ReadFull(r, header, HEADER_SIZE);
    if headerErr.Some? {
      return Short(headerErr.value, false);
    }
    assert header[..] == header[..n] == q[..HEADER_SIZE];
    var size := ReadU32(header[..]);
    if size == 0 {
      return Marker;
    }
    if size < MIN_FRAME_SIZE {
      return Small;
    }
    var frame := new byte[size];
    var m, bodyErr := ReadFull(r, frame, size);
    if bodyErr.Some? {
      return Short(bodyErr.value, true);
    }
    ghost var body := q[HEADER_SIZE..][..size];
    assert frame[..] == frame[..m] == body;
    var nonce, ct := frame[..NONCE_SIZE], frame[NONCE_SIZE..];
    assert nonce == body[..NONCE_SIZE] && ct == body[NONCE_SIZE..];
    BodyIsFirstFrame(q, size);
    var pt := a.open(nonce, ct);
    round := if pt.None? then Unopened else More(pt.value, size);
  }

  /** The CLI's round: one buffer reused for every frame, and a bound checked before the body is read. */
  method CliRound(a: Aead, r: Reader, header: array<byte>, frameBuf: array<byte>) returns (round: Round)
    requires header.Length == HEADER_SIZE && frameBuf.Length == MAX_FRAME_SIZE && header != frameBuf
    modifies r, header, frameBuf
    ensures RoundFits(a, Some(MAX_FRAME_SIZE), r.end, old(r.Pending()), r.Pending(), round)
  {
    ghost var q := r.Pending();
    var n, headerErr := ReadFull(r, header, HEADER_SIZE);
    if headerErr.Some? {
      return Short(headerErr.value, false);
    }
    assert header[..] == header[..n] == q[..HEADER_SIZE];
    var size := ReadU32(header[..]);
    if size == 0 {
      return Marker;
    }
    if size < MIN_FRAME_SIZE {
      return Small;
    }
    if size > MAX_FRAME_SIZE {
      return Large;
    }
    var m, bodyErr := ReadFull(r, frameBuf, size);
    if bodyErr.Some? {
      return Short(bodyErr.value, true);
    }
    ghost var body := q[HEADER_SIZE..][..size];
    assert frameBuf[..size] == frameBuf[..m] == body;
    var nonce, ct := frameBuf[..NONCE_SIZE], frameBuf[NONCE_SIZE..size];
    assert nonce == body[..NONCE_SIZE] && ct == body[NONCE_SIZE..];
    BodyIsFirstFrame(q, size);
    var pt := a.open(nonce, ct);
    round := if pt.None? then Unopened else More(pt.value, size);
  }

  datatype AgentErr =
    | NoMarker | HeaderUnread(IoErr) | BelowMinimum | BodyUnread(IoErr) | OpenFailed | SinkFailed

  /** The agent's error for a round that ends the loop; it never sees a frame as too large. */
  function AgentVerdict(round: Round): Option<AgentErr>
    requires !round.More? && !round.Large?
  {
    match round
    case Marker => None
    case Short(cause, inBody) =>
      if inBody then Some(BodyUnread(cause))
      else if cause == Eof then Some(NoMarker)
      else Some(HeaderUnread(cause))
    case Small => Some(BelowMinimum)
    case Unopened => Some(OpenFailed)
  }

  lemma {:induction false} NeverTooLarge(a: Aead, s: Bytes)
    ensures Decode(a, None, s).status != TooLarge
    decreases |s|
  {
    if |s| < HEADER_SIZE {
    } else {
      var size := ReadU32(s[..HEADER_SIZE]);
      if MIN_FRAME_SIZE <= size <= |s| - HEADER_SIZE {
        NeverTooLarge(a, s[HEADER_SIZE + size..]);
      }
    }
  }

  /** The body of the agent's loop: read one frame, open it, write it. */
  method AgentIteration(a: Aead, r: Reader, w: Sink, header: array<byte>, ghost taken: nat, total: nat)
    returns (ghost taken': nat, total': nat, done: bool, err: Option<AgentErr>)
    requires header.Length == HEADER_SIZE
    modifies r, w, header
    ensures w.budget.None? <==> old(w.budget).None?
    ensures old(w.data) <= w.data <= old(w.data) + Decode(a, None, old(r.Pending())).plain
    ensures taken < taken'
    ensures err != Some(SinkFailed) ==> |w.data| - |old(w.data)| == total' - total
    ensures !done || err.None? ==>
      && taken' - taken <= |old(r.Pending())|
      && r.Pending() == old(r.Pending())[taken' - taken..]
    ensures !done ==>
      && err.None?
      && Resume(a, None, w.data, taken', r.Pending()) == Resume(a, None, old(w.data), taken, old(r.Pending()))
    ensures err == Some(SinkFailed) ==> old(w.budget).Some?
    ensures err != Some(SinkFailed) ==>
      if done then err == AgentVerdict(EndOf(a, None, r.end, old(r.Pending())))
      else EndOf(a, None, r.end, r.Pending()) == EndOf(a, None, r.end, old(r.Pending()))
    ensures done && err != Some(SinkFailed) ==>
      var whole := Resume(a, None, old(w.data), taken, old(r.Pending()));
      && w.data == whole.plain
      && (err.None? <==> whole.status == Clean)
      && (err == Some(BelowMinimum) <==> whole.status == TooSmall)
      && (err == Some(OpenFailed) <==> whole.status == AuthFailed)
      && (err.None? ==> taken' == whole.used)
  {
    ghost var q := r.Pending();
    var round := AgentRound(a, r, header);
    if !round.More? {
      ResumeStop(a, None, r.end, w.data, taken, q, r.Pending(), round);
      NeverTooLarge(a, q);
      return taken + HEADER_SIZE, total, true, AgentVerdict(round);
    }
    ResumeMore(a, None, r.end, w.data, taken, q, r.Pending(), round);
    var ok := w.Write(round.plain);
    taken' := taken + HEADER_SIZE + round.size;
    total' := total + |round.plain|;
    done, err := !ok, if ok then None else Some(SinkFailed);
  }

  /** `Encryptor.Decrypt`, the agent's decoder: `Decode` with no frame limit. */
  method AgentDecrypt(a: Aead, r: Reader, w: Sink) returns (total: nat, err: Option<AgentErr>)
    modifies r, w
    ensures old(w.data) <= w.data <= old(w.data) + Decode(a, None, old(r.Pending())).plain
    ensures err == Some(SinkFailed) ==> old(w.budget).Some?
    ensures err != Some(SinkFailed) ==>
      var d := Decode(a, None, old(r.Pending()));
      && w.data == old(w.data) + d.plain
      && total == |d.plain|
      && (err.None? <==> d.status == Clean)
      && (err == Some(BelowMinimum) <==> d.status == TooSmall)
      && (err == Some(OpenFailed) <==> d.status == AuthFailed)
      && (err.None? ==> r.Pending() == old(r.Pending())[d.used..])
      && err == AgentVerdict(EndOf(a, None, r.end, old(r.Pending())))
  {
    ghost var p, base := r.Pending(), w.data;
    ghost var taken := 0;
    ghost var goal := Resume(a, None, base, 0, p);
    var header := new byte[HEADER_SIZE];
    total := 0;
    while true
      invariant Resume(a, None, w.data, taken, r.Pending()) == goal
      invariant taken <= |p| && r.Pending() == p[taken..]
      invariant base <= w.data && |w.data| == |base| + total
      invariant EndOf(a, None, r.end, r.Pending()) == EndOf(a, None, r.end, p)
      invariant w.budget.None? <==> old(w.budget).None?
      decreases |p| - taken
    {
      ghost var before := taken;
      var done;
      taken, total, done, err := AgentIteration(a, r, w, header, taken, total);
      if done {
        if err.None? {
          DropDrop(p, before, taken - before);
        }
        return;
      }
      DropDrop(p, before, taken - before);
    }
  }

  datatype CliErr =
    | Cancelled | ErrTruncated | Unread(IoErr) | ErrFrameTooSmall | ErrFrameTooLarge | ErrDecryptFailed | ErrWrite

  /** The error the CLI reports for each way `Decode` can end, on a reader that ends in `end`. */
  function CliVerdict(status: Status, end: IoErr): Option<CliErr> {
    match status
    case Clean => None
    case Truncated => Some(if EndsStream(end) then ErrTruncated else Unread(end))
    case TooSmall => Some(ErrFrameTooSmall)
    case TooLarge => Some(ErrFrameTooLarge)
    case AuthFailed => Some(ErrDecryptFailed)
  }

  /** The CLI's error for a round that ends the loop. */
  function CliRoundVerdict(round: Round): Option<CliErr>
    requires !round.More?
  {
    CliVerdict(StatusOf(round), if round.Short? then round.cause else Eof)
  }

  lemma CliRoundVerdictFits(a: Aead, limit: Option<nat>, end: IoErr, q: Bytes, left: Bytes, round: Round)
    requires RoundFits(a, limit, end, q, left, round) && !round.More?
    ensures CliRoundVerdict(round) == CliVerdict(StatusOf(round), end)
  {
  }

  const CLI_LIMIT: Option<nat> := Some(MAX_FRAME_SIZE)

  /** The body of the CLI's loop: read one frame, open it, write it. */
  method CliIteration(a: Aead, r: Reader, w: Sink, header: array<byte>, frameBuf: array<byte>, processed: nat)
    returns (processed': nat, done: bool, err: Option<CliErr>)
    requires header.Length == HEADER_SIZE && frameBuf.Length == MAX_FRAME_SIZE && header != frameBuf
    modifies r, w, header, frameBuf
    ensures w.budget.None? <==> old(w.budget).None?
    ensures old(w.data) <= w.data <= old(w.data) + Decode(a, CLI_LIMIT, old(r.Pending())).plain
    ensures processed < processed'
    ensures err != Some(Cancelled)
    ensures err != Some(ErrWrite) ==>
      Rounds(a, CLI_LIMIT, old(r.Pending())) == if done then 1 else 1 + Rounds(a, CLI_LIMIT, r.Pending())
    ensures !done || err.None? ==>
      && processed' - processed <= |old(r.Pending())|
      && r.Pending() == old(r.Pending())[processed' - processed..]
    ensures !done ==>
      && err.None?
      && Resume(a, CLI_LIMIT, w.data, processed', r.Pending())
           == Resume(a, CLI_LIMIT, old(w.data), processed, old(r.Pending()))
    ensures err == Some(ErrWrite) ==> old(w.budget).Some?
    ensures done && err != Some(ErrWrite) ==>
      var whole := Resume(a, CLI_LIMIT, old(w.data), processed, old(r.Pending()));
      && w.data == whole.plain
      && err == CliVerdict(whole.status, r.end)
      && (err.None? ==> processed' == whole.used)
  {
    ghost var q := r.Pending();
    var round := CliRound(a, r, header, frameBuf);
    RoundsFit(a, CLI_LIMIT, r.end, q, r.Pending(), round);
    if !round.More? {
      ResumeStop(a, CLI_LIMIT, r.end, w.data, processed, q, r.Pending(), round);
      CliRoundVerdictFits(a, CLI_LIMIT, r.end, q, r.Pending(), round);
      return processed + HEADER_SIZE, true, CliRoundVerdict(round);
    }
    ResumeMore(a, CLI_LIMIT, r.end, w.data, processed, q, r.Pending(), round);
    var ok := w.Write(round.plain);
    processed' := processed + HEADER_SIZE + round.size;
    done, err := !ok, if ok then None else Some(ErrWrite);
  }

  /** The context is not done at any of the first n looks. */
  ghost predicate Uncancelled(cancelled: nat -> bool, n: nat) {
    forall i: nat | i < n :: !cancelled(i)
  }

  lemma CancelledWithin(cancelled: nat -> bool, i: nat, n: nat)
    requires cancelled(i) && i < n
    ensures !Uncancelled(cancelled, n)
  {
  }

  lemma NotCancelledNext(cancelled: nat -> bool, i: nat)
    requires Uncancelled(cancelled, i) && !cancelled(i)
    ensures Uncancelled(cancelled, i + 1)
  {
  }

  /**
   `decryptStream`: `Decode` limited to maxFrameSize. `cancelled(i)` is ctx.Err() at
   the top of iteration i. On success `processed` is the number of bytes taken from
   the reader, which are the bytes the TeeReader hashed.
   */
  method DecryptStream(a: Aead, cancelled: nat -> bool, r: Reader, w: Sink)
    returns (processed: nat, err: Option<CliErr>)
    modifies r, w
    ensures old(w.data) <= w.data <= old(w.data) + Decode(a, CLI_LIMIT, old(r.Pending())).plain
    ensures err == Some(ErrWrite) ==> old(w.budget).Some?
    ensures err != Some(ErrWrite) ==>
      (err == Some(Cancelled) <==> !Uncancelled(cancelled, Rounds(a, CLI_LIMIT, old(r.Pending()))))
    ensures err != Some(ErrWrite) && err != Some(Cancelled) ==>
      var d := Decode(a, CLI_LIMIT, old(r.Pending()));
      && w.data == old(w.data) + d.plain
      && err == CliVerdict(d.status, r.end)
      && (err.None? ==> processed == d.used && r.Pending() == old(r.Pending())[processed..])
  {
    ghost var p, base := r.Pending(), w.data;
    ghost var goal := Resume(a, CLI_LIMIT, base, 0, p);
    var header := new byte[HEADER_SIZE];
    var frameBuf := new byte[MAX_FRAME_SIZE];
    var i := 0;
    processed := 0;
    while true
      invariant Resume(a, CLI_LIMIT, w.data, processed, r.Pending()) == goal
      invariant processed <= |p| && r.Pending() == p[processed..]
      invariant base <= w.data
      invariant w.budget.None? <==> old(w.budget).None?
      invariant i + Rounds(a, CLI_LIMIT, r.Pending()) == Rounds(a, CLI_LIMIT, p)
      invariant Uncancelled(cancelled, i)
      decreases |p| - processed
    {
      if cancelled(i) {
        CancelledWithin(cancelled, i, Rounds(a, CLI_LIMIT, p));
        return processed, Some(Cancelled);
      }
      NotCancelledNext(cancelled, i);
      i := i + 1;
      ghost var before := processed;
      var done;
      processed, done, err := CliIteration(a, r, w, header, frameBuf, processed);
      if done {
        return;
      }
      DropDrop(p, before, processed - before);
    }
  }
}
