/** No backup run can block short of its end, and none can go on for ever. */
module PipelineProgress {
  import opened Prelude
  import opened Pipeline
  import opened PipelineInvariant
  import opened PipelineSteps

  // ---- deadlock freedom -----------------------------------------------------------------

  /** What a stage can do next, or what keeps it from doing anything. */
  datatype Next = Can(act: Act) | AwaitsBytes | AwaitsReader | Over

  function NextRead(l: Local): Next {
    if l.pin.inflight.Some? then Can(Read(|l.pin.inflight.value|))
    else if l.pin.Closed() then Can(ReadEnd)
    else AwaitsBytes
  }

  /** With `otherwise` to do once everything up to the limit is written. */
  function NextWrite(cfg: Config, who: Who, l: Local, otherwise: Act): Next {
    var left := |Limit(cfg, who, l.w)| - |l.w.written|;
    if l.pout.inflight.Some? then
      if l.pout.Closed() then Can(WriteFail) else AwaitsReader
    else if left <= 0 then Can(otherwise)
    else if l.pout.Closed() then Can(WriteFail)
    else Can(BeginWrite(left))
  }

  function NextOf(cfg: Config, who: Who, l: Local): Next {
    match l.w.pc
    case Gate => if |l.w.consumed| >= PeekLen(cfg.driver) then Can(GateCheck) else NextRead(l)
    case Idle => if l.pout.inflight.Some? then NextWrite(cfg, who, l, BeginRead) else Can(BeginRead)
    case Reading => NextRead(l)
    case Flush => NextWrite(cfg, who, l, Finish)
    case Drain(_) => NextWrite(cfg, who, l, GiveUp)
    case InfoOk => Can(SendInfo)
    case SendOk => Can(Send)
    case CloseOk => Can(Exit)
    case CloseW(_) => Can(CloseOut)
    case CloseR(_) => Can(CloseIn)
    case SendErr(_) => Can(Send)
    case InfoErr(_) => Can(SendInfo)
    case CloseLate(_) => Can(Exit)
    case DoneOk => Over
    case DoneErr(_) => Over
  }

  /** The pcs a stage can have: the dump reads nothing, the others have no info to send. */
  predicate PcFits(who: Who, pc: Pc) {
    if who.Dump? then !pc.Gate? && !pc.Idle? && !pc.Reading? && !pc.CloseR?
    else !pc.InfoOk? && !pc.InfoErr? && (who.Enc? ==> !pc.Gate?)
  }

  lemma NextOfEnabled(cfg: Config, who: Who, l: Local)
    requires PcFits(who, l.w.pc) && OutInv(TransducerOf(cfg, who), l.w, l.pout)
    ensures var n := NextOf(cfg, who, l);
      && (n.Can? ==> LEnabled(cfg, who, l, n.act) && !n.act.Fault?)
      && (n.AwaitsBytes? ==> !l.pin.Closed() && l.pin.inflight.None?)
      && (n.AwaitsReader? ==> !l.pout.Closed() && l.pout.inflight.Some?)
      && (n.Over? <==> l.w.pc.DoneOk? || l.w.pc.DoneErr?)
  {
  }

  /** A stage that can act can act in the run: the channels never refuse it. */
  lemma ChannelsHaveRoom(cfg: Config, s: State, who: Who, act: Act)
    requires ResInv(s) && LEnabled(cfg, who, View(s, who), act)
    ensures Enabled(cfg, s, Of(who, act))
  {
  }

  function UpNext(s: State): Option<Action> {
    match s.up
    case UpStart => Some(UpOpen)
    case UpReading =>
      if s.p2.inflight.Some? then Some(UpRead(|s.p2.inflight.value|))
      else if s.p2.Closed() then Some(UpReadEnd)
      else None
    case UpStaged => Some(PutBegin)
    case UpPutting => Some(PutOk)
    case UpFail2 => Some(UpClose)
    case UpFail1 => Some(UpClose)
    case UpFail0 => Some(UpClose)
    case UpSendErr => Some(UpSend)
    case UpSendOk => Some(UpSend)
    case UpCollect(_) => if s.got >= 4 then Some(Return) else if s.got < |s.results| then Some(Collect) else None
    case UpReturned(_) => None
  }

  lemma UpNextEnabled(cfg: Config, s: State)
    requires ResInv(s) && UpNext(s).Some?
    ensures Enabled(cfg, s, UpNext(s).value)
  {
    if s.up.UpCollect? && s.got >= 4 {
      assert s.got == 4 == |s.results| && s.results[..s.got] == s.results;
    }
  }

  /** If no producer can act and the upload stage cannot either, the run is over. */
  lemma AllBlockedIsTerminal(cfg: Config, s: State)
    requires Inv(cfg, s)
    requires !NextOf(cfg, Dump, View(s, Dump)).Can? && !NextOf(cfg, Comp, View(s, Comp)).Can?
    requires !NextOf(cfg, Enc, View(s, Enc)).Can? && UpNext(s).None?
    ensures Terminal(s)
  {
    NextOfEnabled(cfg, Dump, View(s, Dump));
    NextOfEnabled(cfg, Comp, View(s, Comp));
    NextOfEnabled(cfg, Enc, View(s, Enc));
    assert !NextOf(cfg, Enc, View(s, Enc)).AwaitsReader?;
    assert !NextOf(cfg, Comp, View(s, Comp)).AwaitsReader?;
    assert !NextOf(cfg, Dump, View(s, Dump)).AwaitsReader?;
    assert NextOf(cfg, Dump, View(s, Dump)).Over?;
    assert NextOf(cfg, Comp, View(s, Comp)).Over?;
    assert NextOf(cfg, Enc, View(s, Enc)).Over?;
  }

  /** A stage that can act on its own can act in the run, without a fault. */
  lemma StageCan(cfg: Config, s: State, who: Who)
    requires Inv(cfg, s) && NextOf(cfg, who, View(s, who)).Can?
    ensures var a := Of(who, NextOf(cfg, who, View(s, who)).act); Enabled(cfg, s, a) && !IsFault(a)
  {
    NextOfEnabled(cfg, who, View(s, who));
    ChannelsHaveRoom(cfg, s, who, NextOf(cfg, who, View(s, who)).act);
  }

  /**
   Deadlock freedom: a run that is not over has a step that needs no fault. The
   reason is that every failing stage closes both its neighbouring pipe ends.
   */
  lemma SomeStep(cfg: Config, s: State) returns (a: Action)
    requires Inv(cfg, s) && !Terminal(s)
    ensures Enabled(cfg, s, a) && !IsFault(a)
  {
    if who: Who :| NextOf(cfg, who, View(s, who)).Can? {
      StageCan(cfg, s, who);
      a := Of(who, NextOf(cfg, who, View(s, who)).act);
    } else if UpNext(s).Some? {
      UpNextEnabled(cfg, s);
      a := UpNext(s).value;
    } else {
      AllBlockedIsTerminal(cfg, s);
      assert false;
    }
  }

  // ---- termination ------------------------------------------------------------------------

  function Phase(pc: Pc): nat {
    match pc
    case Gate => 14
    case Idle => 13
    case Reading => 13
    case Flush => 12
    case Drain(_) => 12
    case InfoOk => 11
    case SendOk => 10
    case CloseW(_) => 9
    case CloseR(_) => 8
    case SendErr(_) => 7
    case InfoErr(_) => 6
    case CloseOk => 5
    case CloseLate(_) => 5
    case DoneOk => 0
    case DoneErr(_) => 0
  }

  function Monus(a: nat, b: nat): nat { if a < b then 0 else a - b }

  /** Output still to be handed over in the current phase. */
  function Left(cfg: Config, who: Who, w: Worker): nat {
    match w.pc
    case Idle => 2 * Monus(|TransducerOf(cfg, who).emit(w.consumed)|, |w.written|) + 1
    case Reading => 2 * Monus(|TransducerOf(cfg, who).emit(w.consumed)|, |w.written|)
    case Flush => Monus(|TransducerOf(cfg, who).finish(w.consumed)|, |w.written|)
    case Drain(_) => Monus(|TransducerOf(cfg, who).finish(w.consumed)|, |w.written|)
    case _ => 0
  }

  function Unread(p: Pipe): nat { if p.inflight.Some? then 1 + |p.inflight.value| else 0 }

  function UpPhase(up: UpPc, got: nat): nat {
    match up
    case UpStart => 20
    case UpReading => 19
    case UpStaged => 18
    case UpPutting => 17
    case UpFail2 => 16
    case UpFail1 => 15
    case UpFail0 => 14
    case UpSendErr => 13
    case UpSendOk => 13
    case UpCollect(_) => 1 + Monus(4, got)
    case UpReturned(_) => 0
  }

  /** Work left, upstream first; compared lexicographically. */
  datatype Rank = Rank(a: nat, b: nat, c: nat, d: nat, e: nat, f: nat, g: nat, h: nat, i: nat, j: nat)
  {
    predicate Below(r: Rank) {
      a < r.a || (a == r.a && (b < r.b || (b == r.b && (c < r.c || (c == r.c &&
      (d < r.d || (d == r.d && (e < r.e || (e == r.e && (f < r.f || (f == r.f &&
      (g < r.g || (g == r.g && (h < r.h || (h == r.h && (i < r.i || (i == r.i &&
      j < r.j)))))))))))))))))
    }
  }

  function RankOf(cfg: Config, s: State): Rank {
    Rank(Phase(s.dump.pc), Left(cfg, Dump, s.dump), Unread(s.p0),
         Phase(s.comp.pc), Left(cfg, Comp, s.comp), Unread(s.p1),
         Phase(s.enc.pc), Left(cfg, Enc, s.enc), Unread(s.p2),
         UpPhase(s.up, s.got))
  }

  /** A stage's step uses up its own work, except that a read uses up the pipe's. */
  lemma LocalRank(cfg: Config, who: Who, l: Local, act: Act)
    requires LEnabled(cfg, who, l, act)
    ensures var l' := LApply(cfg, who, l, act);
      if act.Read? then Unread(l'.pin) < Unread(l.pin)
      else
        && Unread(l'.pin) == Unread(l.pin)
        && (Phase(l'.w.pc) < Phase(l.w.pc)
            || (Phase(l'.w.pc) == Phase(l.w.pc) && Left(cfg, who, l'.w) < Left(cfg, who, l.w)))
  {
  }

  lemma UpDescends(cfg: Config, s: State, a: Action)
    requires Enabled(cfg, s, a) && !a.Of?
    ensures var s' := Apply(cfg, s, a);
      && s'.dump == s.dump && s'.comp == s.comp && s'.enc == s.enc
      && Unread(s'.p0) == Unread(s.p0) && Unread(s'.p1) == Unread(s.p1)
      && (Unread(s'.p2) < Unread(s.p2)
          || (Unread(s'.p2) == Unread(s.p2) && UpPhase(s'.up, s'.got) < UpPhase(s.up, s.got)))
  {
  }

  lemma StepDescends(cfg: Config, s: State, a: Action)
    requires Enabled(cfg, s, a)
    ensures RankOf(cfg, Apply(cfg, s, a)).Below(RankOf(cfg, s))
  {
    match a
    case Of(who, act) =>
      LocalRank(cfg, who, View(s, who), act);
      var s' := Apply(cfg, s, a);
      match who {
        case Dump => assert s'.dump == LApply(cfg, who, View(s, who), act).w;
        case Comp => assert s'.dump == s.dump && s'.p0 == LApply(cfg, who, View(s, who), act).pin;
        case Enc => assert s'.dump == s.dump && s'.p0 == s.p0 && s'.comp == s.comp
                        && s'.p1 == LApply(cfg, who, View(s, who), act).pin;
      }
    case _ => UpDescends(cfg, s, a);
  }

  /** Termination: no infinite sequence of states is a run. */
  lemma {:induction false} NoInfiniteRun(cfg: Config, state: nat -> State, action: nat -> Action, n: nat)
    ensures exists m: nat ::
      m >= n && !(Enabled(cfg, state(m), action(m)) && state(m + 1) == Apply(cfg, state(m), action(m)))
  {
    NoInfiniteRunBelow(cfg, state, action, n, RankOf(cfg, state(n)));
  }

  lemma {:induction false} NoInfiniteRunBelow(cfg: Config, state: nat -> State, action: nat -> Action, n: nat, r: Rank)
    requires r == RankOf(cfg, state(n))
    ensures exists m: nat ::
      m >= n && !(Enabled(cfg, state(m), action(m)) && state(m + 1) == Apply(cfg, state(m), action(m)))
    decreases r.a, r.b, r.c, r.d, r.e, r.f, r.g, r.h, r.i, r.j
  {
    if !(Enabled(cfg, state(n), action(n)) && state(n + 1) == Apply(cfg, state(n), action(n))) {
    } else {
      StepDescends(cfg, state(n), action(n));
      NoInfiniteRunBelow(cfg, state, action, n + 1, RankOf(cfg, state(n + 1)));
    }
  }

  /** One fault-free step towards the end of a run. */
  lemma FaultFreeStep(cfg: Config, s: State) returns (a: Action)
    requires cfg.Valid() && Inv(cfg, s) && !Terminal(s)
    ensures Enabled(cfg, s, a) && !IsFault(a)
    ensures Inv(cfg, Apply(cfg, s, a)) && RankOf(cfg, Apply(cfg, s, a)).Below(RankOf(cfg, s))
  {
    a := SomeStep(cfg, s);
    StepKeeps(cfg, s, a);
    StepDescends(cfg, s, a);
  }

  /** From any state a run can be finished without a further fault. */
  lemma {:induction false} Finishes(cfg: Config, s: State) returns (run: seq<Action>)
    requires cfg.Valid() && Inv(cfg, s)
    ensures Runs(cfg, s, run) && Terminal(After(cfg, s, run)) && FaultFree(run)
  {
    run := FinishesBelow(cfg, s, RankOf(cfg, s));
  }

  lemma {:induction false} FinishesBelow(cfg: Config, s: State, r: Rank) returns (run: seq<Action>)
    requires cfg.Valid() && Inv(cfg, s) && r == RankOf(cfg, s)
    ensures Runs(cfg, s, run) && Terminal(After(cfg, s, run)) && FaultFree(run)
    decreases r.a, r.b, r.c, r.d, r.e, r.f, r.g, r.h, r.i, r.j
  {
    if Terminal(s) {
      return [];
    }
    var a := FaultFreeStep(cfg, s);
    var s' := Apply(cfg, s, a);
    var rest := FinishesBelow(cfg, s', RankOf(cfg, s'));
    run := [a] + rest;
    RunCons(cfg, s, a, rest);
  }

  lemma RunCons(cfg: Config, s: State, a: Action, rest: seq<Action>)
    requires Enabled(cfg, s, a) && Runs(cfg, Apply(cfg, s, a), rest)
    ensures Runs(cfg, s, [a] + rest) && After(cfg, s, [a] + rest) == After(cfg, Apply(cfg, s, a), rest)
    ensures !IsFault(a) && FaultFree(rest) ==> FaultFree([a] + rest)
  {
    assert ([a] + rest)[1..] == rest;
    assert forall i | 0 < i < |[a] + rest| :: ([a] + rest)[i] == rest[i - 1];
  }
}
