/** From the database to object storage and back: the two programs composed. */
module Recovery {
  import opened Prelude
  import opened Frames
  import opened FrameLaws
  import opened Streams
  import opened FrameStreams
  import opened Pipeline
  import opened PipelineTheorems

  /** zstd as a streaming encoder with an inverse. */
  datatype Compressor = Compressor(encoder: Transducer, decompress: Bytes -> Option<Bytes>)
  {
    ghost predicate Valid() {
      encoder.Valid() && forall x: Bytes :: decompress(encoder.finish(x)) == Some(x)
    }
  }

  /** The key material of one run: a cipher and the nonces it will draw. */
  datatype Key = Key(aead: Aead, nonce: nat -> Nonce)

  /** Stage 3: framing under a key, or a plain copy when the job has no DEK. */
  function Encryption(key: Option<Key>): Transducer {
    match key
    case Some(k) => Transducer(x => FullFrames(k.aead, k.nonce, 0, x), x => Encode(k.aead, k.nonce, 0, x))
    case None => Transducer(x => x, x => x)
  }

  lemma EncryptionValid(key: Option<Key>)
    ensures Encryption(key).Valid()
  {
    if key.Some? {
      var a, nonce := key.value.aead, key.value.nonce;
      forall x: Bytes, y: Bytes ensures FullFrames(a, nonce, 0, x) <= FullFrames(a, nonce, 0, x + y) {
        FullFramesMonotone(a, nonce, 0, x, y);
      }
      forall x: Bytes ensures FullFrames(a, nonce, 0, x) <= Encode(a, nonce, 0, x) {
        FullFramesBelowEncode(a, nonce, 0, x);
      }
    }
  }

  /** A run of the agent's pipeline with everything plugged in. */
  function Backup(driver: Driver, data: Bytes, ending: Option<IoErr>, writeFailure: IoErr,
                  z: Compressor, key: Option<Key>): Config
  {
    Config(driver, data, ending, writeFailure, z.encoder, Encryption(key), key.Some?)
  }

  // ---- the CLI -----------------------------------------------------------------------------

  datatype CliOutcome =
    | Restored(data: Bytes) | StreamFailed(err: CliErr) | DecompressFailed | CloseFailed | ShaMismatch

  /** What the CLI makes of a file whose reading ends in `end`, with the hash taken over the bytes it read. */
  function CliResult(z: Compressor, a: Aead, hash: Bytes -> Bytes, file: Bytes, end: IoErr,
                     expected: Option<Bytes>, skipDecompress: bool): CliOutcome
  {
    var d := Decode(a, CLI_LIMIT, file);
    if d.status != Clean then StreamFailed(CliVerdict(d.status, end).value)
    else
      var out := if skipDecompress then Some(d.plain) else z.decompress(d.plain);
      if out.None? then DecompressFailed
      else if expected.Some? && hash(file[..d.used]) != expected.value then ShaMismatch
      else Restored(out.value)
  }

  /** The output file is closed after decompression and before the hash is compared. */
  function AfterClose(o: CliOutcome, closes: bool): CliOutcome {
    if !closes && (o.Restored? || o.ShaMismatch?) then CloseFailed else o
  }

  /**
   The CLI's `Run` on a file read in arbitrary fragments, under a context that may be
   cancelled and with an output whose writes and close may fail.
   */
  method CliRun(z: Compressor, a: Aead, hash: Bytes -> Bytes, fragments: seq<Bytes>, end: IoErr, eager: bool,
                cancelled: nat -> bool, budget: Option<nat>, closes: bool,
                expected: Option<Bytes>, skipDecompress: bool) returns (o: CliOutcome)
    ensures o != StreamFailed(ErrWrite) && o != StreamFailed(Cancelled) ==>
      o == AfterClose(CliResult(z, a, hash, Concat(fragments), end, expected, skipDecompress), closes)
    ensures o == StreamFailed(ErrWrite) ==> budget.Some?
    ensures o != StreamFailed(ErrWrite) ==>
      (o == StreamFailed(Cancelled) <==> !Uncancelled(cancelled, Rounds(a, CLI_LIMIT, Concat(fragments))))
    ensures o.StreamFailed? && o.err != ErrWrite && o.err != Cancelled ==>
      Decode(a, CLI_LIMIT, Concat(fragments)).status != Clean
    ensures !o.StreamFailed? ==>
      var d := Decode(a, CLI_LIMIT, Concat(fragments));
      var plain := if skipDecompress then Some(d.plain) else z.decompress(d.plain);
      var hashFits := expected.Some? ==> expected.value == hash(Concat(fragments)[..d.used]);
      && d.status == Clean
      && (o.DecompressFailed? <==> plain.None?)
      && (o.CloseFailed? <==> plain.Some? && !closes)
      && (o.ShaMismatch? <==> plain.Some? && closes && !hashFits)
      && (o.Restored? <==> plain.Some? && closes && hashFits)
      && (o.Restored? ==> plain == Some(o.data))
  {
    var file := Concat(fragments);
    var r := new Reader(fragments, end, eager);
    var w := new Sink(budget, 0);
    var processed, err := DecryptStream(a, cancelled, r, w);
    if err.Some? {
      return StreamFailed(err.value);
    }
    assert w.data == Decode(a, CLI_LIMIT, file).plain;
    var hashed := file[..processed];
    var out := if skipDecompress then Some(w.data) else z.decompress(w.data);
    if out.None? {
      return DecompressFailed;
    }
    if !closes {
      return CloseFailed;
    }
    if expected.Some? && hash(hashed) != expected.value {
      return ShaMismatch;
    }
    o := Restored(out.value);
  }

  // ---- composition -----------------------------------------------------------------------------

  /** The CLI, given the right hash, restores what compression and framing were applied to. */
  lemma EncryptedRestores(z: Compressor, k: Key, hash: Bytes -> Bytes, data: Bytes)
    requires z.Valid() && k.aead.Valid()
    ensures var body := Encode(k.aead, k.nonce, 0, z.encoder.finish(data));
      CliResult(z, k.aead, hash, body, Eof, Some(hash(body)), false) == Restored(data)
  {
    var zipped := z.encoder.finish(data);
    var body := Encode(k.aead, k.nonce, 0, zipped);
    RoundTrip(k.aead, CLI_LIMIT, k.nonce, 0, zipped, []);
    assert body + [] == body && body[..|body|] == body;
  }

  /**
   The CLI on an object, with anything behind it: the hash in the token decides. With the
   object's own, or none, the dump comes back, or what zstd made of it when that is left
   alone; with any other the file is refused.
   */
  method RestoreObject(z: Compressor, k: Key, hash: Bytes -> Bytes, data: Bytes, rest: Bytes,
                       fragments: seq<Bytes>, end: IoErr, eager: bool,
                       expected: Option<Bytes>, skipDecompress: bool) returns (o: CliOutcome)
    requires z.Valid() && k.aead.Valid()
    requires Concat(fragments) == Encode(k.aead, k.nonce, 0, z.encoder.finish(data)) + rest
    ensures var body := Encode(k.aead, k.nonce, 0, z.encoder.finish(data));
      o == if expected.Some? && expected.value != hash(body) then ShaMismatch
           else Restored(if skipDecompress then z.encoder.finish(data) else data)
  {
    var zipped := z.encoder.finish(data);
    var body := Encode(k.aead, k.nonce, 0, zipped);
    RoundTrip(k.aead, CLI_LIMIT, k.nonce, 0, zipped, rest);
    assert (body + rest)[..|body|] == body;
    o := CliRun(z, k.aead, hash, fragments, end, eager, _ => false, None, true, expected, skipDecompress);
  }

  /**
   End-to-end recovery. In every run whose result is a BackupCompleted, the object in
   storage gives back exactly the dumped bytes: through the CLI, hash check included,
   when the job is encrypted, and by decompression alone when it is not.
   */
  lemma EndToEnd(driver: Driver, data: Bytes, ending: Option<IoErr>, writeFailure: IoErr,
                 z: Compressor, key: Option<Key>, hash: Bytes -> Bytes, run: seq<Action>, s: State)
    requires z.Valid() && (key.Some? ==> key.value.aead.Valid())
    requires Reached(Backup(driver, data, ending, writeFailure, z, key), run, s)
    requires s.ret.Some? && s.ret.value.Completed?
    ensures var body := s.ret.value.body;
      && s.put == Some(body)
      && match key
         case None => z.decompress(body) == Some(data)
         case Some(k) => CliResult(z, k.aead, hash, body, Eof, Some(hash(body)), false) == Restored(data)
  {
    var cfg := Backup(driver, data, ending, writeFailure, z, key);
    EncryptionValid(key);
    ReturnValue(cfg, run, s);
    if key.Some? {
      EncryptedRestores(z, key.value, hash, data);
    }
  }

  /** In a run of the agent's own stages a failing dump can get uploaded in just these two cases. */
  lemma FailedDumpUploadsExactlyWhen(driver: Driver, data: Bytes, ending: IoErr, writeFailure: IoErr,
                                     z: Compressor, key: Option<Key>)
    requires z.Valid() && (key.Some? ==> key.value.aead.Valid())
    ensures var cfg := Backup(driver, data, Some(ending), writeFailure, z, key);
      (exists run, s :: Reached(cfg, run, s) && s.put.Some?) <==>
        || (ending == Eof && GatePass(driver, data))
        || (ending == UnexpectedEof && driver == PgDump && |data| < 5 && key.Some?)
  {
    EncryptionValid(key);
    PartialUploadExactlyWhen(Backup(driver, data, Some(ending), writeFailure, z, key));
  }

  /** A truncated download is never restored: every strict prefix of the object is refused. */
  lemma TruncatedDownloadRefused(z: Compressor, k: Key, hash: Bytes -> Bytes, zipped: Bytes, n: nat,
                                 expected: Option<Bytes>, skip: bool)
    requires k.aead.Valid() && n < |Encode(k.aead, k.nonce, 0, zipped)|
    ensures CliResult(z, k.aead, hash, Encode(k.aead, k.nonce, 0, zipped)[..n], Eof, expected, skip)
         == StreamFailed(ErrTruncated)
  {
    TruncationDetected(k.aead, CLI_LIMIT, k.nonce, 0, zipped, n);
  }
}
