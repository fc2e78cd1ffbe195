/**
 One backup run as a step system: dump, smoke-gated compression, encryption and
 the staging/upload stage run concurrently, joined by three synchronous pipes, a
 four-slot result channel and a one-slot dump-info channel. Every statement of the
 goroutines that another goroutine can observe is a separate step.
 */
module Pipeline {
  import opened Prelude
  import opened Frames
  import opened Streams

  // ---- what a run is given ---------------------------------------------------------

  /** A streaming filter: what it may have written after reading x, and what it writes in all. */
  datatype Transducer = Transducer(emit: Bytes -> Bytes, finish: Bytes -> Bytes)
  {
    ghost predicate Valid() {
      && (forall x: Bytes, y: Bytes :: emit(x) <= emit(x + y))
      && (forall x: Bytes :: emit(x) <= finish(x))
    }
  }

  datatype Driver = PgDump | Mysqldump | OtherDriver

  /** The bytes the driver writes before it returns, how it returns, and the stages it feeds. */
  datatype Config = Config(
    driver: Driver, data: Bytes, ending: Option<IoErr>, writeFailure: IoErr,
    comp: Transducer, enc: Transducer, dek: bool)
  {
    ghost predicate Valid() { comp.Valid() && enc.Valid() }

    /** What a complete backup of the dump looks like in storage. */
    function Blob(): Bytes { enc.finish(comp.finish(data)) }
  }

  // ---- smoke check -------------------------------------------------------------------

  const PGDMP: Bytes := [80, 71, 68, 77, 80]

  const BANNERS: seq<Bytes> := [
    [45, 45, 32, 109, 121, 115, 113, 108, 32, 100, 117, 109, 112],
    [45, 45, 32, 109, 97, 114, 105, 97, 100, 98, 32, 100, 117, 109, 112],
    [45, 45, 32, 109, 121, 115, 113, 108, 100, 117, 109, 112],
    [45, 45, 32, 109, 97, 114, 105, 97, 100, 98, 45, 100, 117, 109, 112]]

  function Lower(b: byte): byte {
    if 65 <= b <= 90 then b + 32 else b
  }

  predicate HasPrefixFold(head: Bytes, banner: Bytes) {
    |banner| <= |head| && forall i | 0 <= i < |banner| :: Lower(head[i]) == banner[i]
  }

  function PeekLen(d: Driver): nat {
    match d case PgDump => 5 case Mysqldump => 32 case OtherDriver => 0
  }

  predicate HeadOk(d: Driver, head: Bytes) {
    match d
    case PgDump => PGDMP <= head
    case Mysqldump => exists i | 0 <= i < |BANNERS| :: HasPrefixFold(head, BANNERS[i])
    case OtherDriver => true
  }

  /** What Peek makes of a dump that so far reads x. */
  predicate GatePass(d: Driver, x: Bytes) {
    HeadOk(d, x[..Min(PeekLen(d), |x|)])
  }

  /** Peek errors the gate ignores before looking at what it got. */
  predicate Tolerates(d: Driver, e: IoErr) {
    match d
    case PgDump => e == Eof
    case Mysqldump => e == Eof || e == UnexpectedEof
    case OtherDriver => false
  }

  // ---- io.Pipe -------------------------------------------------------------------------

  const WRAPPED: IoErr := Failure(0)
  const CLOSED_PIPE: IoErr := Failure(1)

  /** A write in flight, and the once-only close errors of either end. */
  datatype Pipe = Pipe(inflight: Option<Bytes>, werr: Option<IoErr>, rerr: Option<IoErr>)
  {
    predicate Closed() { werr.Some? || rerr.Some? }

    function Pending(): Bytes {
      if inflight.Some? then inflight.value else []
    }

    function ReadErr(): IoErr {
      if rerr.None? && werr.Some? then werr.value else CLOSED_PIPE
    }

    function WriteErr(): IoErr {
      if werr.None? && rerr.Some? then rerr.value else CLOSED_PIPE
    }

    function CloseWrite(e: IoErr): Pipe {
      if werr.Some? then this else this.(werr := Some(e))
    }

    function CloseRead(e: IoErr): Pipe {
      if rerr.Some? then this else this.(rerr := Some(e))
    }
  }

  // ---- the three producer stages ---------------------------------------------------------

  datatype Who = Dump | Comp | Enc

  datatype Pc =
    | Gate                // peeking at the head of the dump
    | Idle                // between calls
    | Reading             // blocked in a pipe read
    | Flush               // input ended; the rest of the output is still to be written
    | Drain(err: IoErr)   // failing with err; best-effort writes may still happen
    | InfoOk | SendOk | CloseOk | DoneOk
    | CloseW(err: IoErr) | CloseR(err: IoErr) | SendErr(err: IoErr)
    | InfoErr(err: IoErr) | CloseLate(err: IoErr) | DoneErr(err: IoErr)

  datatype Worker = Worker(pc: Pc, consumed: Bytes, written: Bytes)

  /** A stage together with the pipe it reads and the pipe it writes. */
  datatype Local = Local(w: Worker, pin: Pipe, pout: Pipe)

  datatype Act =
    | BeginRead | Read(n: nat) | ReadEnd | GateCheck
    | BeginWrite(n: nat) | WriteFail
    | Finish | GiveUp
    | Fault              // the stage's own failure: zstd, or a nonce that cannot be drawn
    | SendInfo | Send
    | CloseOut | CloseIn | Exit

  function TransducerOf(cfg: Config, who: Who): Transducer {
    match who
    case Dump => Transducer(_ => cfg.data, _ => cfg.data)
    case Comp => cfg.comp
    case Enc => cfg.enc
  }

  /** Everything the stage may have handed to its output pipe by now. */
  function Limit(cfg: Config, who: Who, w: Worker): Bytes {
    match w.pc
    case Idle => TransducerOf(cfg, who).emit(w.consumed)
    case Reading => if who.Comp? then cfg.comp.emit(w.consumed) else []
    case Flush => TransducerOf(cfg, who).finish(w.consumed)
    case Drain(_) => TransducerOf(cfg, who).finish(w.consumed)
    case _ => []
  }

  /** Where a stage goes when a write fails. */
  function AfterWriteFail(cfg: Config, who: Who, l: Local): Pc {
    match who
    case Dump => CloseW(cfg.writeFailure)
    case Comp => CloseW(WRAPPED)
    case Enc =>
      if l.w.pc.Drain? then CloseW(l.w.pc.err)
      else if cfg.dek then CloseW(WRAPPED)
      else CloseW(l.pout.WriteErr())
  }

  /** Where a stage goes when a read returns error e. */
  function AfterReadEnd(cfg: Config, who: Who, w: Worker, e: IoErr): Pc {
    match who
    case Dump => w.pc
    case Comp =>
      if w.pc.Gate? then
        if !Tolerates(cfg.driver, e) then CloseW(e)
        else if HeadOk(cfg.driver, w.consumed) then Idle
        else CloseW(WRAPPED)
      else if e == Eof then Flush
      else Drain(WRAPPED)
    case Enc =>
      if e == Eof || (cfg.dek && e == UnexpectedEof) then Flush
      else if cfg.dek then Drain(WRAPPED)
      else Drain(e)
  }

  predicate LEnabled(cfg: Config, who: Who, l: Local, a: Act) {
    var pc := l.w.pc;
    var limit := Limit(cfg, who, l.w);
    match a
    case BeginRead => pc.Idle? && !who.Dump? && (who.Comp? || l.pout.inflight.None?)
    case Read(n) =>
      && !who.Dump?
      && (pc.Reading? || (pc.Gate? && |l.w.consumed| < PeekLen(cfg.driver)))
      && l.pin.inflight.Some? && n <= |l.pin.inflight.value|
      && (n == 0 ==> l.pin.inflight.value == [])
    case ReadEnd =>
      && !who.Dump?
      && (pc.Reading? || (pc.Gate? && |l.w.consumed| < PeekLen(cfg.driver)))
      && l.pin.Closed()
    case GateCheck => who.Comp? && pc.Gate? && |l.w.consumed| >= PeekLen(cfg.driver)
    case BeginWrite(n) =>
      && l.pout.inflight.None? && !l.pout.Closed()
      && 1 <= n && |l.w.written| + n <= |limit|
    case WriteFail =>
      && l.pout.Closed()
      && (pc.Idle? || pc.Flush? || pc.Drain?)
      && (l.pout.inflight.Some? || |l.w.written| < |limit|)
    case Finish => pc.Flush? && l.pout.inflight.None? && l.w.written == limit
    case Fault =>
      && (pc.Idle? || pc.Flush?) && l.pout.inflight.None?
      && (who.Comp? || (who.Enc? && cfg.dek && |l.w.written| < |limit|))
    case GiveUp => pc.Drain? && l.pout.inflight.None? && (who.Dump? ==> l.w.written == limit)
    case SendInfo => who.Dump? && (pc.InfoOk? || pc.InfoErr?)
    case Send => pc.SendOk? || pc.SendErr?
    case CloseOut => pc.CloseW?
    case CloseIn => pc.CloseR?
    case Exit => pc.CloseOk? || pc.CloseLate?
  }

  function LApply(cfg: Config, who: Who, l: Local, a: Act): Local
    requires LEnabled(cfg, who, l, a)
  {
    var w := l.w;
    match a
    case BeginRead => l.(w := w.(pc := Reading))
    case Read(n) =>
      var b := l.pin.inflight.value;
      l.(w := w.(consumed := w.consumed + b[..n], pc := if w.pc.Gate? then Gate else Idle),
         pin := l.pin.(inflight := if n == |b| then None else Some(b[n..])))
    case ReadEnd => l.(w := w.(pc := AfterReadEnd(cfg, who, w, l.pin.ReadErr())))
    case GateCheck =>
      l.(w := w.(pc := if HeadOk(cfg.driver, w.consumed[..PeekLen(cfg.driver)]) then Idle else CloseW(WRAPPED)))
    case BeginWrite(n) =>
      var limit := Limit(cfg, who, w);
      var m := |w.written|;
      l.(w := w.(written := w.written + limit[m..m + n]),
         pout := l.pout.(inflight := Some(limit[m..m + n])))
    case WriteFail =>
      l.(w := w.(pc := AfterWriteFail(cfg, who, l)), pout := l.pout.(inflight := None))
    case Finish => l.(w := w.(pc := if who.Dump? then InfoOk else SendOk))
    case Fault =>
      // a failed copy still closes the zstd encoder, which may write
      l.(w := w.(pc := if who.Comp? && w.pc.Idle? then Drain(WRAPPED) else CloseW(WRAPPED)))
    case GiveUp => l.(w := w.(pc := CloseW(w.pc.err)))
    case SendInfo => l.(w := w.(pc := if w.pc.InfoOk? then SendOk else CloseLate(w.pc.err)))
    case Send =>
      l.(w := w.(pc := if w.pc.SendOk? then CloseOk
                       else if who.Dump? then InfoErr(w.pc.err)
                       else CloseLate(w.pc.err)))
    case CloseOut =>
      l.(w := w.(pc := if who.Dump? then SendErr(w.pc.err) else CloseR(w.pc.err)),
         pout := l.pout.CloseWrite(w.pc.err))
    case CloseIn => l.(w := w.(pc := SendErr(w.pc.err)), pin := l.pin.CloseRead(w.pc.err))
    case Exit =>
      l.(w := w.(pc := if w.pc.CloseOk? then DoneOk else DoneErr(w.pc.err)),
         pout := l.pout.CloseWrite(Eof))
  }

  // ---- the whole run -------------------------------------------------------------------------

  /** What a stage reports; stages are numbered 1 to 4 in pipeline order. */
  datatype Res = Ok | Err(stage: nat, cause: IoErr)

  datatype UpPc =
    | UpStart | UpReading | UpStaged | UpPutting
    | UpFail2 | UpFail1 | UpFail0 | UpSendErr | UpSendOk
    | UpCollect(ok: bool) | UpReturned(ok: bool)

  datatype Ret = Completed(body: Bytes) | Failed(first: Res)

  datatype State = State(
    dump: Worker, p0: Pipe, comp: Worker, p1: Pipe, enc: Worker, p2: Pipe,
    up: UpPc, staged: Bytes, put: Option<Bytes>,
    results: seq<Res>, got: nat, info: Option<bool>, ret: Option<Ret>)

  datatype Action =
    | Of(who: Who, act: Act)
    | UpOpen | UpRead(n: nat) | UpReadEnd
    | UpFault        // temp file, disk, open or HTTP failure
    | PutBegin | PutOk
    | UpClose | UpSend | Collect | Return

  const FRESH: Pipe := Pipe(None, None, None)

  function Init(cfg: Config): State {
    State(
      Worker(if cfg.ending.None? then Flush else Drain(cfg.ending.value), [], []), FRESH,
      Worker(if PeekLen(cfg.driver) == 0 then Idle else Gate, [], []), FRESH,
      Worker(Idle, [], []), FRESH,
      UpStart, [], None, [], 0, None, None)
  }

  function View(s: State, who: Who): Local {
    match who
    case Dump => Local(s.dump, FRESH, s.p0)
    case Comp => Local(s.comp, s.p0, s.p1)
    case Enc => Local(s.enc, s.p1, s.p2)
  }

  function Update(s: State, who: Who, l: Local): State {
    match who
    case Dump => s.(dump := l.w, p0 := l.pout)
    case Comp => s.(comp := l.w, p0 := l.pin, p1 := l.pout)
    case Enc => s.(enc := l.w, p1 := l.pin, p2 := l.pout)
  }

  function StageNumber(who: Who): nat {
    match who case Dump => 1 case Comp => 2 case Enc => 3
  }

  /** What a stage sends on the result channel. */
  function Outcome(who: Who, w: Worker): Res {
    if w.pc.SendErr? then Err(StageNumber(who), w.pc.err) else Ok
  }

  function FirstErr(rs: seq<Res>): Option<Res> {
    if rs == [] then None else if rs[0].Err? then Some(rs[0]) else FirstErr(rs[1..])
  }

  predicate Enabled(cfg: Config, s: State, a: Action) {
    match a
    case Of(who, act) =>
      && LEnabled(cfg, who, View(s, who), act)
      && (act.Send? ==> |s.results| - s.got < 4)
      && (act.SendInfo? ==> s.info.None?)
    case UpOpen => s.up.UpStart?
    case UpRead(n) =>
      && s.up.UpReading? && s.p2.inflight.Some? && n <= |s.p2.inflight.value|
      && (n == 0 ==> s.p2.inflight.value == [])
    case UpReadEnd => s.up.UpReading? && s.p2.Closed()
    case UpFault => s.up.UpStart? || s.up.UpReading? || s.up.UpStaged? || s.up.UpPutting?
    case PutBegin => s.up.UpStaged?
    case PutOk => s.up.UpPutting?
    case UpClose => s.up.UpFail2? || s.up.UpFail1? || s.up.UpFail0?
    case UpSend => (s.up.UpSendErr? || s.up.UpSendOk?) && |s.results| - s.got < 4
    case Collect => s.up.UpCollect? && s.got < 4 && s.got < |s.results|
    case Return =>
      && s.up.UpCollect? && s.got == 4 && s.got <= |s.results|
      && (FirstErr(s.results[..s.got]).None? ==> s.info.Some?)
  }

  function Apply(cfg: Config, s: State, a: Action): State
    requires Enabled(cfg, s, a)
  {
    match a
    case Of(who, act) =>
      var l := View(s, who);
      var s' := Update(s, who, LApply(cfg, who, l, act));
      if act.Send? then s'.(results := s.results + [Outcome(who, l.w)])
      else if act.SendInfo? then s'.(info := Some(l.w.pc.InfoOk?))
      else s'
    case UpOpen => s.(up := UpReading)
    case UpRead(n) =>
      var b := s.p2.inflight.value;
      s.(staged := s.staged + b[..n], p2 := s.p2.(inflight := if n == |b| then None else Some(b[n..])))
    case UpReadEnd => s.(up := if s.p2.ReadErr() == Eof then UpStaged else UpFail2)
    case UpFault => s.(up := UpFail2)
    case PutBegin => s.(up := UpPutting, put := Some(s.staged))
    case PutOk => s.(up := UpSendOk)
    case UpClose =>
      if s.up.UpFail2? then s.(up := UpFail1, p2 := s.p2.CloseRead(WRAPPED))
      else if s.up.UpFail1? then s.(up := UpFail0, p1 := s.p1.CloseRead(WRAPPED))
      else s.(up := UpSendErr, p0 := s.p0.CloseRead(WRAPPED))
    case UpSend =>
      s.(up := UpCollect(s.up.UpSendOk?),
         results := s.results + [if s.up.UpSendOk? then Ok else Err(4, WRAPPED)])
    case Collect => s.(got := s.got + 1)
    case Return =>
      var first := FirstErr(s.results[..s.got]);
      s.(up := UpReturned(s.up.ok),
         ret := Some(if first.Some? then Failed(first.value) else Completed(s.staged)))
  }

  /** A failure that is not the driver's and not another stage's doing. */
  predicate IsFault(a: Action) {
    a.UpFault? || (a.Of? && a.act.Fault?)
  }

  predicate FaultFree(run: seq<Action>) {
    forall i | 0 <= i < |run| :: !IsFault(run[i])
  }

  /** Every stage has exited and `Run` has returned. */
  predicate Terminal(s: State) {
    && s.up.UpReturned?
    && (s.dump.pc.DoneOk? || s.dump.pc.DoneErr?)
    && (s.comp.pc.DoneOk? || s.comp.pc.DoneErr?)
    && (s.enc.pc.DoneOk? || s.enc.pc.DoneErr?)
  }

  /** A run of the system from s. */
  predicate Runs(cfg: Config, s: State, run: seq<Action>)
    decreases |run|
  {
    run == [] || (Enabled(cfg, s, run[0]) && Runs(cfg, Apply(cfg, s, run[0]), run[1..]))
  }

  function After(cfg: Config, s: State, run: seq<Action>): State
    requires Runs(cfg, s, run)
    decreases |run|
  {
    if run == [] then s else After(cfg, Apply(cfg, s, run[0]), run[1..])
  }
}
