/** Whose error a failed backup reports: the first to arrive, which need not be the one that failed first. */
module PipelineBlame {
  import opened Prelude
  import opened Streams
  import opened Pipeline
  import opened PipelineInvariant
  import opened PipelineSteps
  import opened PipelineProgress
  import opened PipelineTheorems

  /** The dump's own error, as `Run` reports it. */
  function DumpError(e: IoErr): Ret { Failed(Err(1, e)) }

  /** Driver endings that a later stage takes for a normal end of the whole dump. */
  predicate EndsUnnoticed(cfg: Config) {
    cfg.ending == Some(Eof) && GatePass(cfg.driver, cfg.data)
  }

  // ---- results only grow ---------------------------------------------------------------------------

  lemma {:induction false} ResultsGrow(cfg: Config, s: State, run: seq<Action>)
    requires Runs(cfg, s, run)
    ensures s.results <= After(cfg, s, run).results
    decreases |run|
  {
    if run == [] {
    } else {
      ResultsGrow(cfg, Apply(cfg, s, run[0]), run[1..]);
    }
  }

  /** The first error stays the first. */
  lemma {:induction false} FirstErrStays(rs: seq<Res>, rs': seq<Res>)
    requires rs <= rs' && FirstErr(rs).Some?
    ensures FirstErr(rs') == FirstErr(rs)
  {
    if rs[0].Err? {
    } else {
      FirstErrStays(rs[1..], rs'[1..]);
    }
  }

  lemma {:induction false} RunsAppend(cfg: Config, s: State, a: seq<Action>, b: seq<Action>)
    requires Runs(cfg, s, a) && Runs(cfg, After(cfg, s, a), b)
    ensures Runs(cfg, s, a + b) && After(cfg, s, a + b) == After(cfg, After(cfg, s, a), b)
    decreases |a|
  {
    if a == [] {
      assert a + b == b;
    } else {
      RunsAppend(cfg, Apply(cfg, s, a[0]), a[1..], b);
      assert (a + b)[1..] == a[1..] + b;
    }
  }

  // ---- where an error result comes from --------------------------------------------------------------

  /** Error results carry the stage that failed and what it failed with. */
  predicate Blames(s: State, r: Res) {
    r.Err? ==>
      || (r.stage == 1 && ErrSent(s.dump.pc) && r.cause == s.dump.pc.err)
      || (r.stage == 2 && ErrSent(s.comp.pc))
      || (r.stage == 3 && ErrSent(s.enc.pc))
      || (r.stage == 4 && UpErr(s.up))
  }

  predicate AllBlame(s: State) {
    forall i | 0 <= i < |s.results| :: Blames(s, s.results[i])
  }

  lemma BlameLocal(cfg: Config, who: Who, l: Local, a: Act)
    requires LEnabled(cfg, who, l, a)
    ensures var pc, pc' := l.w.pc, LApply(cfg, who, l, a).w.pc;
      && (ErrSent(pc) ==> ErrSent(pc') && pc'.err == pc.err)
      && (a.Send? && Outcome(who, l.w).Err? ==> ErrSent(pc') && pc'.err == Outcome(who, l.w).cause)
  {
  }

  lemma BlameStage(cfg: Config, s: State, who: Who, act: Act)
    requires AllBlame(s) && Enabled(cfg, s, Of(who, act))
    ensures AllBlame(Apply(cfg, s, Of(who, act)))
  {
    var s' := Apply(cfg, s, Of(who, act));
    BlameLocal(cfg, who, View(s, who), act);
    assert s.results <= s'.results;
    forall i | 0 <= i < |s'.results| ensures Blames(s', s'.results[i]) {
      if i < |s.results| {
        assert s'.results[i] == s.results[i] && Blames(s, s.results[i]);
      }
    }
  }

  lemma BlameUp(cfg: Config, s: State, a: Action)
    requires AllBlame(s) && Enabled(cfg, s, a) && !a.Of?
    ensures AllBlame(Apply(cfg, s, a))
  {
    var s' := Apply(cfg, s, a);
    assert s.results <= s'.results;
    forall i | 0 <= i < |s'.results| ensures Blames(s', s'.results[i]) {
      if i < |s.results| {
        assert s'.results[i] == s.results[i] && Blames(s, s.results[i]);
      }
    }
  }

  lemma {:induction false} BlameRun(cfg: Config, s: State, run: seq<Action>)
    requires AllBlame(s) && Runs(cfg, s, run)
    ensures AllBlame(After(cfg, s, run))
    decreases |run|
  {
    if run == [] {
    } else {
      var a := run[0];
      match a {
        case Of(who, act) => BlameStage(cfg, s, who, act);
        case _ => BlameUp(cfg, s, a);
      }
      BlameRun(cfg, Apply(cfg, s, a), run[1..]);
    }
  }

  /** A fault-free run over an unnoticed failure has nothing else to report. */
  lemma UnnoticedBlamesDump(cfg: Config, run: seq<Action>, s: State)
    requires cfg.Valid() && EndsUnnoticed(cfg)
    requires Reached(cfg, run, s) && Terminal(s) && FaultFree(run)
    ensures s.ret == Some(DumpError(Eof))
  {
    InitInv(cfg);
    ClearInit(cfg);
    ClearRun(cfg, Init(cfg), run);
    BlameRun(cfg, Init(cfg), run);
    ReturnValue(cfg, run, s);
    FaultFreeOutcome(cfg, run, s);
    OnlyDumpFailed(cfg, s);
  }

  lemma OnlyDumpFailed(cfg: Config, s: State)
    requires EndsUnnoticed(cfg) && Inv(cfg, s) && Clear(cfg, s) && AllBlame(s)
    ensures forall i | 0 <= i < |s.results| && s.results[i].Err? :: s.results[i] == Err(1, Eof)
  {
    forall i | 0 <= i < |s.results| && s.results[i].Err? ensures s.results[i] == Err(1, Eof) {
      assert Blames(s, s.results[i]);
    }
  }

  // ---- a race that the dump loses ----------------------------------------------------------------------

  /** The dump has not reported yet. */
  predicate DumpSilent(s: State) { !Sent(s.dump.pc) }

  /** A step that is neither a fault nor the dump's report. */
  predicate Quietly(a: Action) { !IsFault(a) && a != Of(Dump, Send) }

  /** The other stages cannot all be blocked before the compressor has reported. */
  lemma SomeOtherCan(cfg: Config, s: State)
    requires Inv(cfg, s) && cfg.ending.Some? && !EndsUnnoticed(cfg)
    requires DumpSilent(s) && !ErrSent(s.comp.pc)
    ensures (NextOf(cfg, Dump, View(s, Dump)).Can? && NextOf(cfg, Dump, View(s, Dump)).act != Send)
         || NextOf(cfg, Comp, View(s, Comp)).Can? || NextOf(cfg, Enc, View(s, Enc)).Can? || UpNext(s).Some?
  {
    NextOfEnabled(cfg, Dump, View(s, Dump));
    NextOfEnabled(cfg, Comp, View(s, Comp));
    NextOfEnabled(cfg, Enc, View(s, Enc));
  }

  /**
   While the dump keeps its report back, the others get as far as reporting that the
   compressor has failed: if the failure cannot pass for a normal end, it notices.
   */
  lemma QuietStep(cfg: Config, s: State) returns (a: Action)
    requires Inv(cfg, s) && cfg.ending.Some? && !EndsUnnoticed(cfg)
    requires DumpSilent(s) && !ErrSent(s.comp.pc)
    ensures Enabled(cfg, s, a) && Quietly(a)
  {
    SomeOtherCan(cfg, s);
    if who: Who :| NextOf(cfg, who, View(s, who)).Can? && (who.Dump? ==> NextOf(cfg, who, View(s, who)).act != Send) {
      StageCan(cfg, s, who);
      a := Of(who, NextOf(cfg, who, View(s, who)).act);
    } else {
      UpNextEnabled(cfg, s);
      a := UpNext(s).value;
    }
  }

  /** From the start to a failure report that is not the dump's. */
  lemma {:induction false} RaceFrom(cfg: Config, s: State, r: Rank) returns (run: seq<Action>)
    requires cfg.Valid() && Inv(cfg, s) && cfg.ending.Some? && !EndsUnnoticed(cfg) && DumpSilent(s)
    requires r == RankOf(cfg, s)
    ensures Runs(cfg, s, run) && FaultFree(run)
    ensures Inv(cfg, After(cfg, s, run)) && DumpSilent(After(cfg, s, run)) && ErrSent(After(cfg, s, run).comp.pc)
    decreases r.a, r.b, r.c, r.d, r.e, r.f, r.g, r.h, r.i, r.j
  {
    if ErrSent(s.comp.pc) {
      run := [];
    } else {
      var a := QuietStep(cfg, s);
      StepKeeps(cfg, s, a);
      StepDescends(cfg, s, a);
      SilentKeep(cfg, s, a);
      var s' := Apply(cfg, s, a);
      var rest := RaceFrom(cfg, s', RankOf(cfg, s'));
      run := [a] + rest;
      RunCons(cfg, s, a, rest);
    }
  }

  lemma SilentKeep(cfg: Config, s: State, a: Action)
    requires Enabled(cfg, s, a) && Quietly(a) && DumpSilent(s)
    ensures DumpSilent(Apply(cfg, s, a))
  {
    if a.Of? {
      StagePc(cfg, a.who, View(s, a.who), a.act);
    }
  }

  /** A failing driver whose failure is noticed can have another stage's error reported for it. */
  lemma BlameElsewhere(cfg: Config) returns (run: seq<Action>, s: State)
    requires cfg.Valid() && cfg.ending.Some? && !EndsUnnoticed(cfg)
    ensures Reached(cfg, run, s) && Terminal(s) && FaultFree(run)
    ensures s.ret.Some? && s.ret.value.Failed? && s.ret.value.first.Err? && s.ret.value.first.stage != 1
  {
    InitInv(cfg);
    var race := RaceFrom(cfg, Init(cfg), RankOf(cfg, Init(cfg)));
    var mid := After(cfg, Init(cfg), race);
    BlameRun(cfg, Init(cfg), race);
    var first := NotTheDump(mid);
    var rest;
    rest, s := FirstErrReturned(cfg, mid);
    RunsAppend(cfg, Init(cfg), race, rest);
    FaultFreeAppend(race, rest);
    run := race + rest;
  }

  /** Once an error has been reported, the rest of the run returns the first one. */
  lemma FirstErrReturned(cfg: Config, s: State) returns (run: seq<Action>, s': State)
    requires cfg.Valid() && Inv(cfg, s) && FirstErr(s.results).Some?
    ensures Runs(cfg, s, run) && FaultFree(run) && s' == After(cfg, s, run) && Terminal(s')
    ensures s'.ret == Some(Failed(FirstErr(s.results).value))
  {
    run := Finishes(cfg, s);
    s' := After(cfg, s, run);
    ResultsGrow(cfg, s, run);
    FirstErrStays(s.results, s'.results);
    RunKeeps(cfg, s, run);
  }

  lemma FaultFreeAppend(a: seq<Action>, b: seq<Action>)
    requires FaultFree(a) && FaultFree(b)
    ensures FaultFree(a + b)
  {
    forall i | 0 <= i < |a + b| ensures !IsFault((a + b)[i]) {
      assert (a + b)[i] == if i < |a| then a[i] else b[i - |a|];
    }
  }

  lemma NotTheDump(s: State) returns (first: Res)
    requires AllBlame(s) && ResInv(s) && DumpSilent(s) && ErrSent(s.comp.pc)
    ensures FirstErr(s.results) == Some(first) && first.Err? && first.stage != 1
  {
    var i := FirstErrIsFirst(s.results);
    first := s.results[i];
    assert Blames(s, first);
  }

  /**
   Whether a failed dump is what `Run` reports: of a failing driver, every fault-free run
   returns its own error exactly when no other stage can notice the failure.
   */
  lemma BlamesDumpExactlyWhen(cfg: Config)
    requires cfg.Valid() && cfg.ending.Some?
    ensures (forall run, s | Reached(cfg, run, s) && Terminal(s) && FaultFree(run) ::
               s.ret == Some(DumpError(cfg.ending.value)))
            <==> EndsUnnoticed(cfg)
  {
    if EndsUnnoticed(cfg) {
      forall run, s | Reached(cfg, run, s) && Terminal(s) && FaultFree(run)
        ensures s.ret == Some(DumpError(cfg.ending.value))
      {
        UnnoticedBlamesDump(cfg, run, s);
      }
    } else {
      var run, s := BlameElsewhere(cfg);
      assert Reached(cfg, run, s) && Terminal(s) && FaultFree(run);
    }
  }
}
