/** Every step of every stage keeps the invariant of a backup run. */
module PipelineSteps {
  import opened Prelude
  import opened Frames
  import opened Streams
  import opened Pipeline
  import opened PipelineInvariant

  lemma DumpValid(cfg: Config)
    ensures TransducerOf(cfg, Dump).Valid()
  {
  }

  // ---- steps seen by one stage ---------------------------------------------------------

  /** What a reader may do to the pipe it reads: take bytes, and close its own end. */
  ghost predicate ReadSide(p: Pipe, p': Pipe) {
    && p'.werr == p.werr
    && (p'.inflight.Some? ==> p.inflight.Some?)
    && (p.rerr.Some? ==> p'.rerr == p.rerr)
  }

  lemma LocalReadSide(cfg: Config, who: Who, l: Local, a: Act)
    requires LEnabled(cfg, who, l, a)
    ensures ReadSide(l.pin, LApply(cfg, who, l, a).pin)
  {
  }

  /** Once a stage has closed its output, nothing a later stage relies on changes. */
  ghost predicate WriteSide(w: Worker, p: Pipe, w': Worker, p': Pipe) {
    && p'.rerr == p.rerr
    && (p.werr.Some? ==>
          p'.werr == p.werr && w'.written == w.written && (w'.pc.DoneOk? <==> w.pc.DoneOk?)
          && p'.inflight == p.inflight)
  }

  lemma LocalWriteSide(cfg: Config, who: Who, l: Local, a: Act)
    requires LEnabled(cfg, who, l, a) && OutInv(TransducerOf(cfg, who), l.w, l.pout)
    ensures var l' := LApply(cfg, who, l, a); WriteSide(l.w, l.pout, l'.w, l'.pout)
  {
  }

  lemma DumpOwn(cfg: Config, l: Local, a: Act)
    requires LEnabled(cfg, Dump, l, a) && OutInv(TransducerOf(cfg, Dump), l.w, l.pout)
    requires DumpInv(cfg, l.w, l.pout)
    ensures var l' := LApply(cfg, Dump, l, a); DumpInv(cfg, l'.w, l'.pout)
  {
  }

  /** When the dump pipe reports its writer's error, the whole dump has been read. */
  lemma DumpEnd(cfg: Config, dump: Worker, p0: Pipe, consumed: Bytes)
    requires OutInv(TransducerOf(cfg, Dump), dump, p0) && DumpInv(cfg, dump, p0)
    requires Link(dump.written, p0, consumed)
    requires p0.Closed() && p0.rerr.None?
    ensures consumed == cfg.data
    ensures dump.pc.DoneOk? || cfg.ending == p0.werr
    ensures dump.pc.DoneOk? ==> p0.werr == Some(Eof)
  {
    assert p0.Pending() == [];
    assert consumed + [] == consumed;
  }

  /** Input reaching the compressor: read bytes, an end of input, or the gate's verdict on them. */
  lemma CompReads(cfg: Config, dump: Worker, l: Local, a: Act)
    requires LEnabled(cfg, Comp, l, a) && (a.Read? || a.ReadEnd? || a.GateCheck?)
    requires CompInv(cfg, dump, l.pin, l.w) && (l.w.pc.Gate? ==> l.w.written == [])
    requires OutInv(TransducerOf(cfg, Dump), dump, l.pin) && DumpInv(cfg, dump, l.pin)
    requires Link(dump.written, l.pin, l.w.consumed)
    ensures var l' := LApply(cfg, Comp, l, a); CompInv(cfg, dump, l'.pin, l'.w)
  {
    match a
    case Read(n) =>
      if l.w.pc.Reading? {
        GatePassMonotone(cfg.driver, l.w.consumed, l.pin.inflight.value[..n]);
      }
    case ReadEnd =>
      if l.pin.rerr.None? {
        DumpEnd(cfg, dump, l.pin, l.w.consumed);
      }
      if l.w.pc.Gate? {
        assert l.w.consumed[..Min(PeekLen(cfg.driver), |l.w.consumed|)] == l.w.consumed;
      }
    case GateCheck =>
  }

  lemma CompOwn(cfg: Config, dump: Worker, l: Local, a: Act)
    requires LEnabled(cfg, Comp, l, a)
    requires CompInv(cfg, dump, l.pin, l.w) && (l.w.pc.Gate? ==> l.w.written == [])
    requires OutInv(TransducerOf(cfg, Dump), dump, l.pin) && DumpInv(cfg, dump, l.pin)
    requires Link(dump.written, l.pin, l.w.consumed)
    ensures var l' := LApply(cfg, Comp, l, a); CompInv(cfg, dump, l'.pin, l'.w)
  {
    if a.Read? || a.ReadEnd? || a.GateCheck? {
      CompReads(cfg, dump, l, a);
    } else {
      CompWrites(cfg, dump, l, a);
    }
  }

  /** The compressor's other steps touch neither what it has read nor, before it closes it, its input pipe. */
  lemma CompWrites(cfg: Config, dump: Worker, l: Local, a: Act)
    requires LEnabled(cfg, Comp, l, a) && !a.Read? && !a.ReadEnd? && !a.GateCheck?
    requires CompInv(cfg, dump, l.pin, l.w) && (l.w.pc.Gate? ==> l.w.written == [])
    ensures var l' := LApply(cfg, Comp, l, a); CompInv(cfg, dump, l'.pin, l'.w)
  {
  }

  lemma CompAfterDump(cfg: Config, dump: Worker, p0: Pipe, dump': Worker, p0': Pipe, comp: Worker)
    requires CompInv(cfg, dump, p0, comp) && WriteSide(dump, p0, dump', p0')
    ensures CompInv(cfg, dump', p0', comp)
  {
  }

  lemma EncOwn(cfg: Config, comp: Worker, p0: Pipe, dump: Worker, l: Local, a: Act)
    requires LEnabled(cfg, Enc, l, a)
    requires EncInv(cfg, comp, l.pin, l.w)
    requires OutInv(cfg.comp, comp, l.pin) && CompInv(cfg, dump, p0, comp)
    requires Link(comp.written, l.pin, l.w.consumed)
    requires l.pout.rerr.Some? ==> l.pout.rerr == Some(WRAPPED)
    ensures var l' := LApply(cfg, Enc, l, a); EncInv(cfg, comp, l'.pin, l'.w)
  {
    if a.ReadEnd? && l.pin.rerr.None? {
      assert l.pin.Pending() == [];
      assert l.w.consumed + [] == l.w.consumed;
    }
  }

  lemma EncAfterComp(cfg: Config, comp: Worker, p1: Pipe, comp': Worker, p1': Pipe, enc: Worker)
    requires EncInv(cfg, comp, p1, enc) && WriteSide(comp, p1, comp', p1')
    ensures EncInv(cfg, comp', p1', enc)
  {
  }

  // ---- steps seen by the whole run -----------------------------------------------------

  /** A stage that reports changes only the count and the worst result. */
  lemma ReportOne(dump: Pc, comp: Pc, enc: Pc, up: UpPc, results: seq<Res>, r: Res)
    requires Reports(dump, comp, enc, up, results)
    ensures FirstErr(results + [r]).Some? <==> FirstErr(results).Some? || r.Err?
    ensures |results + [r]| == |results| + 1
  {
    FirstErrAppend(results, r);
  }

  lemma StageResults(cfg: Config, s: State, who: Who, act: Act)
    requires ResInv(s) && DumpInv(cfg, s.dump, s.p0) && Enabled(cfg, s, Of(who, act))
    requires !s.comp.pc.InfoOk? && !s.comp.pc.InfoErr? && !s.enc.pc.InfoOk? && !s.enc.pc.InfoErr?
    ensures ResInv(Apply(cfg, s, Of(who, act)))
  {
    if act.Send? {
      StageSends(cfg, s, who);
    } else {
      StageQuiet(cfg, s, who, act);
    }
  }

  lemma StageSends(cfg: Config, s: State, who: Who)
    requires ResInv(s) && Enabled(cfg, s, Of(who, Send))
    ensures ResInv(Apply(cfg, s, Of(who, Send)))
  {
    var l := View(s, who);
    var pc := LApply(cfg, who, l, Send).w.pc;
    StagePc(cfg, who, l, Send);
    InfoPc(cfg, who, l, Send);
    NotReturned(s, who);
    ReportsSent(s, who, pc, Outcome(who, l.w));
    ResultsKeep(s, Apply(cfg, s, Of(who, Send)), who, pc);
  }

  lemma StageQuiet(cfg: Config, s: State, who: Who, act: Act)
    requires ResInv(s) && Enabled(cfg, s, Of(who, act)) && !act.Send?
    requires !s.comp.pc.InfoOk? && !s.comp.pc.InfoErr? && !s.enc.pc.InfoOk? && !s.enc.pc.InfoErr?
    ensures ResInv(Apply(cfg, s, Of(who, act)))
  {
    var l := View(s, who);
    var pc := LApply(cfg, who, l, act).w.pc;
    StagePc(cfg, who, l, act);
    InfoPc(cfg, who, l, act);
    ReportsKept(s, who, pc);
    ResultsKeep(s, Apply(cfg, s, Of(who, act)), who, pc);
  }

  lemma ReportsKept(s: State, who: Who, pc: Pc)
    requires Reports(s.dump.pc, s.comp.pc, s.enc.pc, s.up, s.results)
    requires Sent(pc) == Sent(View(s, who).w.pc) && ErrSent(pc) == ErrSent(View(s, who).w.pc)
    ensures Reports(PcNow(s, Dump, who, pc), PcNow(s, Comp, who, pc), PcNow(s, Enc, who, pc), s.up, s.results)
  {
  }

  lemma ReportsSent(s: State, who: Who, pc: Pc, r: Res)
    requires Reports(s.dump.pc, s.comp.pc, s.enc.pc, s.up, s.results)
    requires Sent(pc) && !Sent(View(s, who).w.pc) && (ErrSent(pc) <==> r.Err?)
    ensures Reports(PcNow(s, Dump, who, pc), PcNow(s, Comp, who, pc), PcNow(s, Enc, who, pc), s.up, s.results + [r])
  {
    ReportOne(s.dump.pc, s.comp.pc, s.enc.pc, s.up, s.results, r);
  }

  /** `Run` returns only after every stage has reported. */
  lemma NotReturned(s: State, who: Who)
    requires ResInv(s) && !Sent(View(s, who).w.pc)
    ensures s.ret.None?
  {
  }

  /** The pc of stage x once stage `who` is at pc. */
  function PcNow(s: State, x: Who, who: Who, pc: Pc): Pc {
    if x == who then pc else View(s, x).w.pc
  }

  /** The bookkeeping of results, from what a stage's step does to its pc. */
  lemma ResultsKeep(s: State, s': State, who: Who, pc: Pc)
    requires ResInv(s)
    requires s'.dump.pc == PcNow(s, Dump, who, pc)
    requires s'.comp.pc == PcNow(s, Comp, who, pc) && s'.enc.pc == PcNow(s, Enc, who, pc)
    requires s'.up == s.up && s'.got == s.got && s'.ret == s.ret && s'.staged == s.staged
    requires s.results <= s'.results && (s.ret.Some? ==> s'.results == s.results)
    requires Reports(s'.dump.pc, s'.comp.pc, s'.enc.pc, s'.up, s'.results)
    requires s'.info.Some? <==> InfoSent(s'.dump.pc)
    ensures ResInv(s')
  {
  }

  /** Only a send changes what a stage has reported, and nothing reports twice. */
  lemma StagePc(cfg: Config, who: Who, l: Local, a: Act)
    requires LEnabled(cfg, who, l, a)
    ensures var pc, pc' := l.w.pc, LApply(cfg, who, l, a).w.pc;
      && (Sent(pc') <==> Sent(pc) || a.Send?)
      && (a.Send? ==> !Sent(pc))
      && (ErrSent(pc') <==> ErrSent(pc) || (a.Send? && Outcome(who, l.w).Err?))
  {
  }

  /** What the next stage and the run see of a producer's step. */
  lemma LocalSteps(cfg: Config, who: Who, l: Local, a: Act, upstream: Bytes, downstream: Bytes)
    requires TransducerOf(cfg, who).Valid() && LEnabled(cfg, who, l, a)
    requires OutInv(TransducerOf(cfg, who), l.w, l.pout)
    requires Link(upstream, l.pin, l.w.consumed) && Link(l.w.written, l.pout, downstream)
    ensures var l' := LApply(cfg, who, l, a);
      && OutInv(TransducerOf(cfg, who), l'.w, l'.pout)
      && Link(upstream, l'.pin, l'.w.consumed) && Link(l'.w.written, l'.pout, downstream)
      && ReadSide(l.pin, l'.pin) && WriteSide(l.w, l.pout, l'.w, l'.pout)
  {
    LocalOut(cfg, who, l, a);
    LocalLinkIn(cfg, who, l, a, upstream);
    LocalLinkOut(cfg, who, l, a, downstream);
    LocalReadSide(cfg, who, l, a);
    LocalWriteSide(cfg, who, l, a);
  }

  /** Only the dump's info step changes whether its info is out. */
  lemma InfoPc(cfg: Config, who: Who, l: Local, a: Act)
    requires LEnabled(cfg, who, l, a)
    ensures var pc, pc' := l.w.pc, LApply(cfg, who, l, a).w.pc;
      who.Dump? ==> (InfoSent(pc') <==> InfoSent(pc) || a.SendInfo?)
  {
  }

  lemma DumpKeeps(cfg: Config, s: State, act: Act)
    requires cfg.Valid() && Inv(cfg, s) && Enabled(cfg, s, Of(Dump, act))
    ensures Inv(cfg, Apply(cfg, s, Of(Dump, act)))
  {
    var l := View(s, Dump);
    var l' := LApply(cfg, Dump, l, act);
    DumpValid(cfg);
    LocalOut(cfg, Dump, l, act);
    LocalLinkOut(cfg, Dump, l, act, s.comp.consumed);
    LocalWriteSide(cfg, Dump, l, act);
    DumpOwn(cfg, l, act);
    CompAfterDump(cfg, s.dump, s.p0, l'.w, l'.pout, s.comp);
    StageResults(cfg, s, Dump, act);
  }

  /** The compressor and its two pipes replaced, everything else as before. */
  lemma CompAssemble(cfg: Config, s: State, l: Local, s': State)
    requires CoreInv(cfg, s)
    requires s' == s.(comp := l.w, p0 := l.pin, p1 := l.pout, results := s'.results, info := s'.info)
    requires OutInv(cfg.comp, l.w, l.pout)
    requires Link(s.dump.written, l.pin, l.w.consumed) && Link(l.w.written, l.pout, s.enc.consumed)
    requires ReadSide(s.p0, l.pin) && WriteSide(s.comp, s.p1, l.w, l.pout)
    requires CompInv(cfg, s.dump, l.pin, l.w) && EncInv(cfg, l.w, l.pout, s.enc)
    ensures CoreInv(cfg, s')
  {
  }

  lemma CompKeeps(cfg: Config, s: State, act: Act)
    requires cfg.Valid() && Inv(cfg, s) && Enabled(cfg, s, Of(Comp, act))
    ensures Inv(cfg, Apply(cfg, s, Of(Comp, act)))
  {
    var l := View(s, Comp);
    var l' := LApply(cfg, Comp, l, act);
    LocalSteps(cfg, Comp, l, act, s.dump.written, s.enc.consumed);
    CompOwn(cfg, s.dump, l, act);
    EncAfterComp(cfg, s.comp, s.p1, l'.w, l'.pout, s.enc);
    CompAssemble(cfg, s, l', Apply(cfg, s, Of(Comp, act)));
    StageResults(cfg, s, Comp, act);
  }

  lemma EncAssemble(cfg: Config, s: State, l: Local, s': State)
    requires CoreInv(cfg, s)
    requires s' == s.(enc := l.w, p1 := l.pin, p2 := l.pout, results := s'.results, info := s'.info)
    requires OutInv(cfg.enc, l.w, l.pout)
    requires Link(s.comp.written, l.pin, l.w.consumed) && Link(l.w.written, l.pout, s.staged)
    requires ReadSide(s.p1, l.pin) && WriteSide(s.enc, s.p2, l.w, l.pout)
    requires EncInv(cfg, s.comp, l.pin, l.w)
    ensures CoreInv(cfg, s')
  {
  }

  lemma EncKeeps(cfg: Config, s: State, act: Act)
    requires cfg.Valid() && Inv(cfg, s) && Enabled(cfg, s, Of(Enc, act))
    ensures Inv(cfg, Apply(cfg, s, Of(Enc, act)))
  {
    var l := View(s, Enc);
    var l' := LApply(cfg, Enc, l, act);
    LocalSteps(cfg, Enc, l, act, s.comp.written, s.staged);
    EncOwn(cfg, s.comp, s.p0, s.dump, l, act);
    EncAssemble(cfg, s, l', Apply(cfg, s, Of(Enc, act)));
    StageResults(cfg, s, Enc, act);
  }

  lemma UpResults(cfg: Config, s: State, a: Action)
    requires ResInv(s) && Enabled(cfg, s, a) && !a.Of?
    ensures ResInv(Apply(cfg, s, a))
  {
    match a
    case UpSend => UpSends(cfg, s);
    case Return => UpReturns(cfg, s);
    case _ =>
  }

  lemma UpReturns(cfg: Config, s: State)
    requires ResInv(s) && Enabled(cfg, s, Return)
    ensures ResInv(Apply(cfg, s, Return))
  {
    assert s.results[..s.got] == s.results;
  }

  lemma UpSends(cfg: Config, s: State)
    requires ResInv(s) && Enabled(cfg, s, UpSend)
    ensures ResInv(Apply(cfg, s, UpSend))
  {
    ReportOne(s.dump.pc, s.comp.pc, s.enc.pc, s.up, s.results, if s.up.UpSendOk? then Ok else Err(4, WRAPPED));
  }

  lemma UpOwn(cfg: Config, s: State, a: Action)
    requires UpInv(s) && Enabled(cfg, s, a) && !a.Of?
    requires OutInv(cfg.enc, s.enc, s.p2) && Link(s.enc.written, s.p2, s.staged)
    requires Failing(s.enc.pc) ==> s.enc.pc.err != Eof
    ensures UpInv(Apply(cfg, s, a))
  {
    if a.UpReadEnd? {
      assert s.p2.Pending() == [] || s.p2.ReadErr() != Eof;
      assert s.staged + [] == s.staged;
    }
  }

  lemma UpPipes(cfg: Config, s: State, a: Action)
    requires Enabled(cfg, s, a) && !a.Of?
    requires Link(s.enc.written, s.p2, s.staged)
    ensures var s' := Apply(cfg, s, a);
      && ReadSide(s.p0, s'.p0) && s'.p0.inflight == s.p0.inflight
      && ReadSide(s.p1, s'.p1) && s'.p1.inflight == s.p1.inflight
      && ReadSide(s.p2, s'.p2)
      && Link(s.enc.written, s'.p2, s'.staged)
      && s'.dump == s.dump && s'.comp == s.comp && s'.enc == s.enc
  {
    if a.UpRead? {
      var b := s.p2.inflight.value;
      assert s.staged + b == s.staged + b[..a.n] + b[a.n..];
    }
  }

  lemma UpAssemble(cfg: Config, s: State, s': State)
    requires CoreInv(cfg, s) && UpInv(s')
    requires s'.dump == s.dump && s'.comp == s.comp && s'.enc == s.enc
    requires ReadSide(s.p0, s'.p0) && s'.p0.inflight == s.p0.inflight
    requires ReadSide(s.p1, s'.p1) && s'.p1.inflight == s.p1.inflight
    requires ReadSide(s.p2, s'.p2) && Link(s.enc.written, s'.p2, s'.staged)
    ensures CoreInv(cfg, s')
  {
  }

  lemma UpKeeps(cfg: Config, s: State, a: Action)
    requires cfg.Valid() && Inv(cfg, s) && Enabled(cfg, s, a) && !a.Of?
    ensures Inv(cfg, Apply(cfg, s, a))
  {
    UpResults(cfg, s, a);
    UpOwn(cfg, s, a);
    UpPipes(cfg, s, a);
    UpAssemble(cfg, s, Apply(cfg, s, a));
  }

  lemma StepKeeps(cfg: Config, s: State, a: Action)
    requires cfg.Valid() && Inv(cfg, s) && Enabled(cfg, s, a)
    ensures Inv(cfg, Apply(cfg, s, a))
  {
    match a
    case Of(who, act) =>
      match who {
        case Dump => DumpKeeps(cfg, s, act);
        case Comp => CompKeeps(cfg, s, act);
        case Enc => EncKeeps(cfg, s, act);
      }
    case _ => UpKeeps(cfg, s, a);
  }

  lemma {:induction false} RunKeeps(cfg: Config, s: State, run: seq<Action>)
    requires cfg.Valid() && Inv(cfg, s) && Runs(cfg, s, run)
    ensures Inv(cfg, After(cfg, s, run))
    decreases |run|
  {
    if run == [] {
    } else {
      StepKeeps(cfg, s, run[0]);
      RunKeeps(cfg, Apply(cfg, s, run[0]), run[1..]);
    }
  }
}
