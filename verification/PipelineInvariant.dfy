/** What every step of a backup run keeps. */
module PipelineInvariant {
  import opened Prelude
  import opened Frames
  import opened Streams
  import opened Pipeline

  // ---- per-stage facts ---------------------------------------------------------------

  /** The error a stage has closed its output pipe with, once it has. */
  function WErrOf(pc: Pc): Option<IoErr> {
    match pc
    case CloseR(e) => Some(e)
    case SendErr(e) => Some(e)
    case InfoErr(e) => Some(e)
    case CloseLate(e) => Some(e)
    case DoneErr(e) => Some(e)
    case DoneOk => Some(Eof)
    case _ => None
  }

  predicate Failing(pc: Pc) {
    pc.CloseW? || pc.CloseR? || pc.SendErr? || pc.InfoErr? || pc.CloseLate? || pc.DoneErr?
  }

  /** The stage has all its input. */
  predicate Ended(pc: Pc) {
    pc.Flush? || pc.InfoOk? || pc.SendOk? || pc.CloseOk? || pc.DoneOk?
  }

  predicate ErrSent(pc: Pc) { pc.InfoErr? || pc.CloseLate? || pc.DoneErr? }
  predicate OkSent(pc: Pc) { pc.CloseOk? || pc.DoneOk? }
  predicate Writes(pc: Pc) { pc.Idle? || pc.Reading? || pc.Flush? || pc.Drain? }

  /** A stage's output so far, and the state of the pipe end it owns. */
  ghost predicate OutInv(t: Transducer, w: Worker, pout: Pipe) {
    && (pout.inflight.Some? ==> Writes(w.pc))
    && pout.werr == WErrOf(w.pc)
    && (w.pc.Gate? ==> w.written == [])
    && (w.pc.Idle? || w.pc.Reading? ==> w.written <= t.emit(w.consumed))
    && (w.pc.Flush? || w.pc.Drain? ==> w.written <= t.finish(w.consumed))
    && (w.pc.InfoOk? || w.pc.SendOk? || OkSent(w.pc) ==> w.written == t.finish(w.consumed))
  }

  /** Between two stages nothing is lost or invented while the reader keeps its end open. */
  ghost predicate Link(written: Bytes, p: Pipe, consumed: Bytes) {
    && consumed + p.Pending() <= written
    && (p.rerr.None? ==> consumed + p.Pending() == written)
  }

  lemma LocalOutRead(cfg: Config, who: Who, l: Local, a: Act)
    requires TransducerOf(cfg, who).Valid() && LEnabled(cfg, who, l, a) && (a.Read? || a.ReadEnd? || a.Fault?)
    requires OutInv(TransducerOf(cfg, who), l.w, l.pout)
    ensures var l' := LApply(cfg, who, l, a); OutInv(TransducerOf(cfg, who), l'.w, l'.pout)
  {
    var t := TransducerOf(cfg, who);
    if a.Read? {
      assert t.emit(l.w.consumed) <= t.emit(l.w.consumed + l.pin.inflight.value[..a.n]);
    } else {
      assert t.emit(l.w.consumed) <= t.finish(l.w.consumed);
    }
  }

  lemma LocalOutWrite(cfg: Config, who: Who, l: Local, a: Act)
    requires LEnabled(cfg, who, l, a) && a.BeginWrite?
    requires OutInv(TransducerOf(cfg, who), l.w, l.pout)
    ensures var l' := LApply(cfg, who, l, a); OutInv(TransducerOf(cfg, who), l'.w, l'.pout)
  {
    var limit, m := Limit(cfg, who, l.w), |l.w.written|;
    assert l.w.written + limit[m..m + a.n] == limit[..m + a.n];
  }

  /** Every step of a stage keeps its output within what its transducer allows. */
  lemma LocalOut(cfg: Config, who: Who, l: Local, a: Act)
    requires TransducerOf(cfg, who).Valid() && LEnabled(cfg, who, l, a)
    requires OutInv(TransducerOf(cfg, who), l.w, l.pout)
    ensures var l' := LApply(cfg, who, l, a); OutInv(TransducerOf(cfg, who), l'.w, l'.pout)
  {
    match a
    case Read(_) => LocalOutRead(cfg, who, l, a);
    case ReadEnd => LocalOutRead(cfg, who, l, a);
    case Fault => LocalOutRead(cfg, who, l, a);
    case BeginWrite(_) => LocalOutWrite(cfg, who, l, a);
    case _ =>
  }

  lemma LocalLinkIn(cfg: Config, who: Who, l: Local, a: Act, written: Bytes)
    requires LEnabled(cfg, who, l, a) && Link(written, l.pin, l.w.consumed)
    ensures var l' := LApply(cfg, who, l, a); Link(written, l'.pin, l'.w.consumed)
  {
    if a.Read? {
      var l' := LApply(cfg, who, l, a);
      var b := l.pin.inflight.value;
      assert l.w.consumed + b == l.w.consumed + b[..a.n] + b[a.n..];
      assert l'.w.consumed + l'.pin.Pending() == l.w.consumed + l.pin.Pending();
    }
  }

  lemma LocalLinkOut(cfg: Config, who: Who, l: Local, a: Act, consumed: Bytes)
    requires LEnabled(cfg, who, l, a) && Link(l.w.written, l.pout, consumed)
    requires OutInv(TransducerOf(cfg, who), l.w, l.pout)
    ensures var l' := LApply(cfg, who, l, a); Link(l'.w.written, l'.pout, consumed)
  {
  }

  // ---- what each stage's progress says about the stages before it ----------------------

  ghost predicate DumpInv(cfg: Config, dump: Worker, p0: Pipe) {
    && dump.consumed == []
    && !dump.pc.Gate? && !dump.pc.Idle? && !dump.pc.Reading? && !dump.pc.CloseR?
    && (Ended(dump.pc) ==> cfg.ending.None?)
    && (dump.pc.Drain? ==> cfg.ending == Some(dump.pc.err))
    && (Failing(dump.pc) && p0.rerr.None? ==> cfg.ending == Some(dump.pc.err) && dump.written == cfg.data)
  }

  /** The gate handed a bare ErrUnexpectedEOF on, having let nothing through. */
  predicate GateLeak(cfg: Config) {
    cfg.driver.PgDump? && cfg.ending == Some(UnexpectedEof) && |cfg.data| < 5
  }

  ghost predicate CompInv(cfg: Config, dump: Worker, p0: Pipe, comp: Worker) {
    && !comp.pc.InfoOk? && !comp.pc.InfoErr?
    && (comp.pc.Idle? || comp.pc.Reading? || Ended(comp.pc) ==> GatePass(cfg.driver, comp.consumed))
    && (Ended(comp.pc) ==>
          && comp.consumed == cfg.data && p0.werr == Some(Eof)
          && (dump.pc.DoneOk? || cfg.ending == Some(Eof)))
    && (comp.pc.Drain? ==> comp.pc.err == WRAPPED)
    && (Failing(comp.pc) ==>
          && comp.pc.err != Eof
          && (comp.pc.err == UnexpectedEof ==> GateLeak(cfg) && comp.written == []))
    && (comp.pc.SendErr? || ErrSent(comp.pc) ==> p0.rerr.Some?)
  }

  ghost predicate EncInv(cfg: Config, comp: Worker, p1: Pipe, enc: Worker) {
    && !enc.pc.Gate? && !enc.pc.InfoOk? && !enc.pc.InfoErr?
    && (Ended(enc.pc) ==>
          && p1.werr.Some?
          && ((comp.pc.DoneOk? && enc.consumed == comp.written)
              || (cfg.dek && GateLeak(cfg) && enc.consumed == [] && !comp.pc.DoneOk?)))
    && (enc.pc.Drain? ==> enc.pc.err != Eof)
    && (Failing(enc.pc) ==> enc.pc.err != Eof)
    && (enc.pc.SendErr? || ErrSent(enc.pc) ==> p1.rerr.Some?)
  }

  ghost predicate UpInv(s: State) {
    && (s.p2.rerr.Some? ==> s.p2.rerr == Some(WRAPPED))
    && (s.up.UpStaged? || s.put.Some? ==> s.enc.pc.DoneOk? && s.staged == s.enc.written)
    && (s.put.Some? ==> s.put.value == s.staged)
    && (s.up.UpStart? || s.up.UpReading? || s.up.UpStaged? ==> s.put.None?)
    && (s.up.UpPutting? || s.up.UpSendOk? || UpOk(s.up) ==> s.put.Some?)
    && (s.up.UpFail1? || s.up.UpFail0? || s.up.UpSendErr? || UpErr(s.up) ==> s.p2.rerr.Some?)
    && (s.up.UpFail0? || s.up.UpSendErr? || UpErr(s.up) ==> s.p1.rerr.Some?)
    && (s.up.UpSendErr? || UpErr(s.up) ==> s.p0.rerr.Some?)
  }

  predicate UpSent(up: UpPc) { up.UpCollect? || up.UpReturned? }
  predicate UpOk(up: UpPc) { UpSent(up) && up.ok }
  predicate UpErr(up: UpPc) { UpSent(up) && !up.ok }

  function Count(b: bool): nat { if b then 1 else 0 }

  predicate Sent(pc: Pc) { ErrSent(pc) || OkSent(pc) }

  /** Each stage has reported exactly when its pc says so, and once. */
  ghost predicate Reports(dump: Pc, comp: Pc, enc: Pc, up: UpPc, results: seq<Res>) {
    && |results| == Count(Sent(dump)) + Count(Sent(comp)) + Count(Sent(enc)) + Count(UpSent(up))
    && (FirstErr(results).Some? <==> ErrSent(dump) || ErrSent(comp) || ErrSent(enc) || UpErr(up))
  }

  predicate InfoSent(pc: Pc) { pc.SendOk? || OkSent(pc) || pc.CloseLate? || pc.DoneErr? }

  ghost predicate ResInv(s: State) {
    && Reports(s.dump.pc, s.comp.pc, s.enc.pc, s.up, s.results)
    && s.got <= |s.results|
    && (s.got > 0 ==> UpSent(s.up))
    && (s.info.Some? <==> InfoSent(s.dump.pc))
    && (s.ret.Some? <==> s.up.UpReturned?)
    && (s.ret.Some? ==>
          && s.got == 4
          && s.ret.value == if FirstErr(s.results).Some? then Failed(FirstErr(s.results).value)
                            else Completed(s.staged))
  }

  /** The bytes, the pipes and the stages; the result channel is apart. */
  ghost predicate CoreInv(cfg: Config, s: State) {
    && OutInv(TransducerOf(cfg, Dump), s.dump, s.p0)
    && OutInv(cfg.comp, s.comp, s.p1)
    && OutInv(cfg.enc, s.enc, s.p2)
    && Link(s.dump.written, s.p0, s.comp.consumed)
    && Link(s.comp.written, s.p1, s.enc.consumed)
    && Link(s.enc.written, s.p2, s.staged)
    && DumpInv(cfg, s.dump, s.p0)
    && CompInv(cfg, s.dump, s.p0, s.comp)
    && EncInv(cfg, s.comp, s.p1, s.enc)
    && UpInv(s)
  }

  ghost predicate Inv(cfg: Config, s: State) { CoreInv(cfg, s) && ResInv(s) }

  lemma InitInv(cfg: Config)
    requires cfg.Valid()
    ensures Inv(cfg, Init(cfg))
  {
    var s := Init(cfg);
    assert OutInv(TransducerOf(cfg, Dump), s.dump, s.p0);
    assert ResInv(s);
  }

  // ---- gate ------------------------------------------------------------------------------

  /** A gate that passed keeps passing as the dump grows. */
  lemma GatePassMonotone(d: Driver, x: Bytes, y: Bytes)
    requires GatePass(d, x)
    ensures GatePass(d, x + y)
  {
    var hx, hy := x[..Min(PeekLen(d), |x|)], (x + y)[..Min(PeekLen(d), |x + y|)];
    assert hx <= hy;
    if d.Mysqldump? {
      var i :| 0 <= i < |BANNERS| && HasPrefixFold(hx, BANNERS[i]);
      assert HasPrefixFold(hy, BANNERS[i]);
    }
  }

  /** The verdict on a dump is that on its head: once that is in, nothing that follows changes it. */
  lemma GateLooksAtHead(d: Driver, x: Bytes, y: Bytes)
    requires |x| >= PeekLen(d)
    ensures GatePass(d, x + y) <==> GatePass(d, x)
  {
    assert (x + y)[..PeekLen(d)] == x[..PeekLen(d)];
  }

  lemma {:induction false} FirstErrAppend(rs: seq<Res>, r: Res)
    ensures FirstErr(rs + [r]) == if FirstErr(rs).Some? then FirstErr(rs) else if r.Err? then Some(r) else None
  {
    if rs == [] {
      assert rs + [r] == [r];
    } else {
      assert (rs + [r])[1..] == rs[1..] + [r];
      FirstErrAppend(rs[1..], r);
    }
  }
}
