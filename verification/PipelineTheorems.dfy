/** What a backup run uploads and returns, over every interleaving. */
module PipelineTheorems {
  import opened Prelude
  import opened Streams
  import opened Pipeline
  import opened PipelineInvariant
  import opened PipelineSteps
  import opened PipelineProgress

  ghost predicate Reached(cfg: Config, run: seq<Action>, s: State) {
    Runs(cfg, Init(cfg), run) && s == After(cfg, Init(cfg), run)
  }

  lemma ReachedInv(cfg: Config, run: seq<Action>, s: State)
    requires cfg.Valid() && Reached(cfg, run, s)
    ensures Inv(cfg, s)
  {
    InitInv(cfg);
    RunKeeps(cfg, Init(cfg), run);
  }

  /** The driver succeeds and its dump passes the smoke check. */
  predicate Healthy(cfg: Config) {
    cfg.ending.None? && GatePass(cfg.driver, cfg.data)
  }

  /**
   The failing drivers whose failure a later stage takes for a normal end: a bare
   io.EOF after a dump that passes the gate, and, with a DEK, a bare
   io.ErrUnexpectedEOF from pg_dump before it wrote its five magic bytes.
   */
  predicate Leaky(cfg: Config) {
    || (cfg.ending == Some(Eof) && GatePass(cfg.driver, cfg.data))
    || (cfg.dek && GateLeak(cfg))
  }

  lemma {:induction false} NoErrMeansAllOk(rs: seq<Res>)
    requires FirstErr(rs).None?
    ensures forall i | 0 <= i < |rs| :: rs[i] == Ok
  {
    if rs == [] {
    } else {
      NoErrMeansAllOk(rs[1..]);
      assert rs == [rs[0]] + rs[1..];
    }
  }

  lemma {:induction false} FirstErrIsFirst(rs: seq<Res>) returns (i: nat)
    requires FirstErr(rs).Some?
    ensures i < |rs| && rs[i] == FirstErr(rs).value && rs[i].Err?
    ensures forall j | 0 <= j < i :: rs[j] == Ok
  {
    if rs[0].Err? {
      return 0;
    }
    var k := FirstErrIsFirst(rs[1..]);
    i := k + 1;
    assert forall j | 0 < j < i :: rs[j] == rs[1..][j - 1];
  }

  /** Whatever reached the PUT, it came from a driver that succeeded or from a leaky one. */
  lemma StagedOrigin(cfg: Config, s: State)
    requires cfg.Valid() && Inv(cfg, s) && (s.up.UpStaged? || s.put.Some?)
    ensures Healthy(cfg) || Leaky(cfg)
    ensures !Leaky(cfg) ==>
      && s.dump.pc.DoneOk? && s.comp.pc.DoneOk? && s.enc.pc.DoneOk?
      && s.staged == cfg.Blob()
  {
  }

  /**
   No partial upload: unless the driver fails in one of the two leaky ways, a body
   staged without error means the result channel already holds exactly three nil
   results, and what is staged, and PUT, is the whole framed, compressed dump.
   */
  lemma NoPartialUpload(cfg: Config, run: seq<Action>, s: State)
    requires cfg.Valid() && Reached(cfg, run, s) && !Leaky(cfg)
    ensures s.up.UpStaged? ==> s.staged == cfg.Blob() && s.got == 0 && s.results == [Ok, Ok, Ok]
    ensures s.put.Some? ==> s.put.value == cfg.Blob() && cfg.ending.None?
  {
    ReachedInv(cfg, run, s);
    if s.up.UpStaged? || s.put.Some? {
      StagedOrigin(cfg, s);
    }
    if s.up.UpStaged? {
      NoErrMeansAllOk(s.results);
      assert |s.results| == 3;
    }
  }

  /**
   `Run` returns a BackupCompleted exactly when all four stages reported nil, and then,
   for every driver, the uploaded body is the whole backup; otherwise it returns the
   first error to arrive.
   */
  lemma ReturnValue(cfg: Config, run: seq<Action>, s: State)
    requires cfg.Valid() && Reached(cfg, run, s) && s.ret.Some?
    ensures |s.results| == 4
    ensures s.ret.value.Completed? <==> s.results == [Ok, Ok, Ok, Ok]
    ensures s.ret.value.Completed? ==> s.ret.value.body == cfg.Blob() && s.put == Some(cfg.Blob()) && Healthy(cfg)
    ensures s.ret.value.Failed? ==>
      exists i :: 0 <= i < 4 && s.results[i] == s.ret.value.first && s.results[i].Err?
        && forall j | 0 <= j < i :: s.results[j] == Ok
  {
    ReachedInv(cfg, run, s);
    if FirstErr(s.results).None? {
      NoErrMeansAllOk(s.results);
    } else {
      var i := FirstErrIsFirst(s.results);
    }
  }

  /** No stage blocks on the result channel: it never holds more than its four slots. */
  lemma ResultChannelNeverFull(cfg: Config, run: seq<Action>, s: State, who: Who)
    requires cfg.Valid() && Reached(cfg, run, s)
    ensures |s.results| <= 4
    ensures View(s, who).w.pc.SendOk? || View(s, who).w.pc.SendErr? ==> Enabled(cfg, s, Of(who, Send))
    ensures s.up.UpSendOk? || s.up.UpSendErr? ==> Enabled(cfg, s, UpSend)
  {
    ReachedInv(cfg, run, s);
  }

  /** A stage that has reported an error has closed both its neighbouring pipe ends. */
  lemma FailedStageFreesNeighbours(cfg: Config, run: seq<Action>, s: State, who: Who)
    requires cfg.Valid() && Reached(cfg, run, s) && ErrSent(View(s, who).w.pc)
    ensures View(s, who).pout.werr.Some?
    ensures !who.Dump? ==> View(s, who).pin.rerr.Some?
  {
    ReachedInv(cfg, run, s);
  }

  // ---- fault-free runs -------------------------------------------------------------------

  /** Compression has not failed, or only in the way encryption takes for an end of input. */
  ghost predicate CompClear(cfg: Config, p0: Pipe, comp: Worker) {
    if cfg.dek && GateLeak(cfg)
    then (comp.pc.Gate? && p0.rerr.None?) || (Failing(comp.pc) && comp.pc.err == UnexpectedEof)
    else p0.rerr.None? && !Failing(comp.pc) && !comp.pc.Drain?
  }

  ghost predicate EncClear(enc: Worker) {
    !Failing(enc.pc) && !enc.pc.Drain?
  }

  predicate UpClear(up: UpPc) {
    !up.UpFail2? && !up.UpFail1? && !up.UpFail0? && !up.UpSendErr? && !UpErr(up)
  }

  /** Nothing on the way to the PUT has failed. */
  ghost predicate Clear(cfg: Config, s: State) {
    && s.p1.rerr.None? && s.p2.rerr.None?
    && CompClear(cfg, s.p0, s.comp) && EncClear(s.enc) && UpClear(s.up)
  }

  lemma ClearInit(cfg: Config)
    requires Healthy(cfg) || Leaky(cfg)
    ensures Clear(cfg, Init(cfg))
  {
  }

  /** On the way to a PUT the gate never refuses a dump it should pass. */
  lemma GateHolds(cfg: Config, dump: Worker, p0: Pipe, comp: Worker)
    requires OutInv(TransducerOf(cfg, Dump), dump, p0) && DumpInv(cfg, dump, p0)
    requires Link(dump.written, p0, comp.consumed) && p0.rerr.None?
    ensures comp.consumed <= cfg.data
    ensures GatePass(cfg.driver, cfg.data) && |comp.consumed| >= PeekLen(cfg.driver) ==>
      HeadOk(cfg.driver, comp.consumed[..PeekLen(cfg.driver)])
  {
    assert dump.written <= cfg.data;
    assert comp.consumed <= comp.consumed + p0.Pending() <= cfg.data;
    if |comp.consumed| >= PeekLen(cfg.driver) {
      var n := PeekLen(cfg.driver);
      assert comp.consumed[..n] == cfg.data[..n];
    }
  }

  /** Reading and checking what the dump wrote leads to no failure. */
  lemma ClearCompReads(cfg: Config, dump: Worker, l: Local, act: Act)
    requires Healthy(cfg) || Leaky(cfg)
    requires OutInv(TransducerOf(cfg, Dump), dump, l.pin) && DumpInv(cfg, dump, l.pin)
    requires Link(dump.written, l.pin, l.w.consumed) && CompClear(cfg, l.pin, l.w)
    requires LEnabled(cfg, Comp, l, act) && (act.Read? || act.ReadEnd? || act.GateCheck?)
    ensures var l' := LApply(cfg, Comp, l, act); CompClear(cfg, l'.pin, l'.w)
  {
    if l.pin.rerr.None? {
      GateHolds(cfg, dump, l.pin, l.w);
      if l.pin.Closed() {
        DumpEnd(cfg, dump, l.pin, l.w.consumed);
      }
    }
    if act.ReadEnd? && l.w.pc.Gate? {
      assert l.w.consumed[..Min(PeekLen(cfg.driver), |l.w.consumed|)] == l.w.consumed;
    }
  }

  lemma ClearCompLocal(cfg: Config, dump: Worker, l: Local, act: Act)
    requires Healthy(cfg) || Leaky(cfg)
    requires OutInv(TransducerOf(cfg, Dump), dump, l.pin) && DumpInv(cfg, dump, l.pin)
    requires Link(dump.written, l.pin, l.w.consumed)
    requires OutInv(cfg.comp, l.w, l.pout) && CompClear(cfg, l.pin, l.w) && l.pout.rerr.None?
    requires LEnabled(cfg, Comp, l, act) && !act.Fault?
    ensures var l' := LApply(cfg, Comp, l, act); CompClear(cfg, l'.pin, l'.w) && l'.pout.rerr.None?
  {
    if act.Read? || act.ReadEnd? || act.GateCheck? {
      ClearCompReads(cfg, dump, l, act);
    }
  }

  lemma ClearEncLocal(cfg: Config, p0: Pipe, comp: Worker, l: Local, act: Act)
    requires OutInv(cfg.comp, comp, l.pin) && CompClear(cfg, p0, comp)
    requires OutInv(cfg.enc, l.w, l.pout) && EncClear(l.w) && l.pin.rerr.None? && l.pout.rerr.None?
    requires LEnabled(cfg, Enc, l, act) && !act.Fault?
    ensures var l' := LApply(cfg, Enc, l, act); EncClear(l'.w) && l'.pin.rerr.None? && l'.pout.rerr.None?
  {
  }

  lemma ClearUp(cfg: Config, s: State, a: Action)
    requires OutInv(cfg.enc, s.enc, s.p2) && Clear(cfg, s)
    requires Enabled(cfg, s, a) && !a.Of? && !IsFault(a)
    ensures Clear(cfg, Apply(cfg, s, a))
  {
  }

  lemma ClearKeeps(cfg: Config, s: State, a: Action)
    requires cfg.Valid() && Inv(cfg, s) && Clear(cfg, s) && (Healthy(cfg) || Leaky(cfg))
    requires Enabled(cfg, s, a) && !IsFault(a)
    ensures Clear(cfg, Apply(cfg, s, a))
  {
    match a
    case Of(who, act) =>
      match who {
        case Dump => LocalWriteSide(cfg, Dump, View(s, Dump), act);
        case Comp => ClearCompLocal(cfg, s.dump, View(s, Comp), act);
        case Enc => ClearEncLocal(cfg, s.p0, s.comp, View(s, Enc), act);
      }
    case _ => ClearUp(cfg, s, a);
  }

  lemma FaultFreeTail(run: seq<Action>)
    requires FaultFree(run) && run != []
    ensures !IsFault(run[0]) && FaultFree(run[1..])
  {
  }

  /** A run on its way to the PUT: everything so far is in order. */
  ghost predicate OnTrack(cfg: Config, s: State) { Inv(cfg, s) && Clear(cfg, s) }

  lemma {:induction false} ClearRun(cfg: Config, s: State, run: seq<Action>)
    requires cfg.Valid() && OnTrack(cfg, s) && (Healthy(cfg) || Leaky(cfg))
    requires Runs(cfg, s, run) && FaultFree(run)
    ensures OnTrack(cfg, After(cfg, s, run))
    decreases |run|
  {
    if run == [] {
    } else {
      FaultFreeTail(run);
      StepKeeps(cfg, s, run[0]);
      ClearKeeps(cfg, s, run[0]);
      ClearRun(cfg, Apply(cfg, s, run[0]), run[1..]);
    }
  }

  /** Every finished fault-free run of such a driver has uploaded; a healthy one has completed. */
  lemma FaultFreeOutcome(cfg: Config, run: seq<Action>, s: State)
    requires cfg.Valid() && (Healthy(cfg) || Leaky(cfg))
    requires Reached(cfg, run, s) && Terminal(s) && FaultFree(run)
    ensures s.put.Some?
    ensures Healthy(cfg) ==> s.ret == Some(Completed(cfg.Blob()))
    ensures Leaky(cfg) ==> s.ret.Some? && s.ret.value.Failed?
  {
    InitInv(cfg);
    ClearInit(cfg);
    ClearRun(cfg, Init(cfg), run);
    StagedOrigin(cfg, s);
  }

  /** Exactly which drivers can get anything uploaded. */
  lemma UploadsExactlyWhen(cfg: Config)
    requires cfg.Valid()
    ensures (exists run, s :: Reached(cfg, run, s) && s.put.Some?) <==> Healthy(cfg) || Leaky(cfg)
  {
    forall run, s | Reached(cfg, run, s) && s.put.Some?
      ensures Healthy(cfg) || Leaky(cfg)
    {
      ReachedInv(cfg, run, s);
      StagedOrigin(cfg, s);
    }
    if Healthy(cfg) || Leaky(cfg) {
      InitInv(cfg);
      var run := Finishes(cfg, Init(cfg));
      var s := After(cfg, Init(cfg), run);
      FaultFreeOutcome(cfg, run, s);
      assert Reached(cfg, run, s) && s.put.Some?;
    }
  }

  /** The partial-upload guarantee fails for exactly the leaky drivers. */
  lemma PartialUploadExactlyWhen(cfg: Config)
    requires cfg.Valid() && cfg.ending.Some?
    ensures (exists run, s :: Reached(cfg, run, s) && s.put.Some?) <==> Leaky(cfg)
  {
    UploadsExactlyWhen(cfg);
  }

  /** A backup can complete exactly when the driver succeeds and the gate passes. */
  lemma CompletesExactlyWhen(cfg: Config)
    requires cfg.Valid()
    ensures (exists run, s :: Reached(cfg, run, s) && s.ret == Some(Completed(cfg.Blob()))) <==> Healthy(cfg)
  {
    forall run, s | Reached(cfg, run, s) && s.ret == Some(Completed(cfg.Blob()))
      ensures Healthy(cfg)
    {
      ReturnValue(cfg, run, s);
    }
    if Healthy(cfg) {
      InitInv(cfg);
      var run := Finishes(cfg, Init(cfg));
      var s := After(cfg, Init(cfg), run);
      FaultFreeOutcome(cfg, run, s);
      assert Reached(cfg, run, s) && s.ret == Some(Completed(cfg.Blob()));
    }
  }
}
