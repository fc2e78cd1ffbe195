/**
 How a connection ends: the three loops that `runOnce` starts, the channel they report on,
 and the cancel, close and receive by which it waits for all of them.
 */
module Teardown {

  const LOOPS: nat := 3  // reading, writing, heartbeats; the error channel has as many slots

  datatype LoopPc = Looping | Ending | Ended

  datatype MainPc = AwaitFirst | Cancelling | ClosingSocket | AwaitRest | Returned(first: nat)

  /** `order` lists the loops whose error is on the channel or has been on it; `got` of them were received. */
  datatype State = State(loops: seq<LoopPc>, main: MainPc, cancelled: bool, closed: bool, order: seq<nat>, got: nat)

  datatype Action =
    | Iterate(i: nat)   // a frame read, a frame written, a heartbeat
    | Fail(i: nat)      // a loop ends by itself
    | Notice(i: nat)    // or because the context is done or the socket closed
    | Report(i: nat)
    | Receive | Cancel | CloseSocket | Return
    | Shutdown          // the process's own context

  const INIT: State := State([Looping, Looping, Looping], AwaitFirst, false, false, [], 0)

  predicate Enabled(s: State, a: Action) {
    match a
    case Iterate(i) => i < |s.loops| && s.loops[i].Looping?
    case Fail(i) => i < |s.loops| && s.loops[i].Looping?
    case Notice(i) => i < |s.loops| && s.loops[i].Looping? && (s.cancelled || s.closed)
    case Report(i) => i < |s.loops| && s.loops[i].Ending? && |s.order| - s.got < LOOPS
    case Receive => s.got < |s.order| && (s.main.AwaitFirst? || (s.main.AwaitRest? && s.got < LOOPS))
    case Cancel => s.main.Cancelling?
    case CloseSocket => s.main.ClosingSocket?
    case Return => s.main.AwaitRest? && s.got == LOOPS && s.order != []
    case Shutdown => !s.cancelled
  }

  function Apply(s: State, a: Action): State
    requires Enabled(s, a)
  {
    match a
    case Iterate(i) => s
    case Fail(i) => s.(loops := s.loops[i := Ending])
    case Notice(i) => s.(loops := s.loops[i := Ending])
    case Report(i) => s.(loops := s.loops[i := Ended], order := s.order + [i])
    case Receive => s.(got := s.got + 1, main := if s.main.AwaitFirst? then Cancelling else s.main)
    case Cancel => s.(cancelled := true, main := ClosingSocket)
    case CloseSocket => s.(closed := true, main := AwaitRest)
    case Return => s.(main := Returned(s.order[0]))
    case Shutdown => s.(cancelled := true)
  }

  predicate Runs(s: State, run: seq<Action>)
    decreases |run|
  {
    run == [] || (Enabled(s, run[0]) && Runs(Apply(s, run[0]), run[1..]))
  }

  function After(s: State, run: seq<Action>): State
    requires Runs(s, run)
    decreases |run|
  {
    if run == [] then s else After(Apply(s, run[0]), run[1..])
  }

  // ---- what every step keeps ---------------------------------------------------------------------

  function One(b: bool): nat { if b then 1 else 0 }

  /** Loops that have reported. */
  function Reported(loops: seq<LoopPc>): nat
    requires |loops| == LOOPS
  {
    One(loops[0].Ended?) + One(loops[1].Ended?) + One(loops[2].Ended?)
  }

  /** Steps a loop has left, traffic aside. */
  function LoopWork(pc: LoopPc): nat {
    match pc case Looping => 2 case Ending => 1 case Ended => 0
  }

  function LoopsWork(loops: seq<LoopPc>): nat
    requires |loops| == LOOPS
  {
    LoopWork(loops[0]) + LoopWork(loops[1]) + LoopWork(loops[2])
  }

  ghost predicate Inv(s: State) {
    && |s.loops| == LOOPS && |s.order| == Reported(s.loops) && s.got <= |s.order|
    && (s.main.AwaitFirst? <==> s.got == 0)
    && (s.main.Cancelling? || s.main.ClosingSocket? ==> s.got == 1)
    && (s.main.ClosingSocket? ==> s.cancelled)
    && (s.main.AwaitRest? || s.main.Returned? ==> s.cancelled && s.closed)
    && (s.main.Returned? ==> s.got == LOOPS && s.main.first == s.order[0])
  }

  lemma StepKeeps(s: State, a: Action)
    requires Inv(s) && Enabled(s, a)
    ensures Inv(Apply(s, a))
  {
    match a
    case Fail(i) => LoopMoves(s.loops, i, Ending);
    case Notice(i) => LoopMoves(s.loops, i, Ending);
    case Report(i) => LoopMoves(s.loops, i, Ended);
    case _ =>
  }

  /** One loop moves: what it has reported and what it still has to do. */
  lemma LoopMoves(loops: seq<LoopPc>, i: nat, pc: LoopPc)
    requires |loops| == LOOPS && i < LOOPS
    ensures Reported(loops[i := pc]) + One(loops[i].Ended?) == Reported(loops) + One(pc.Ended?)
    ensures LoopsWork(loops[i := pc]) + LoopWork(loops[i]) == LoopsWork(loops) + LoopWork(pc)
  {
    assert i == 0 || i == 1 || i == 2;
  }

  lemma {:induction false} RunKeeps(s: State, run: seq<Action>)
    requires Inv(s) && Runs(s, run)
    ensures Inv(After(s, run))
    decreases |run|
  {
    if run == [] {
    } else {
      StepKeeps(s, run[0]);
      RunKeeps(Apply(s, run[0]), run[1..]);
    }
  }

  /**
   When `runOnce` returns, with the error that was first on the channel, all three loops have
   ended: none outlives the connection. And no loop ever waits to report.
   */
  lemma NoLoopOutlives(run: seq<Action>, s: State)
    requires Runs(INIT, run) && s == After(INIT, run)
    ensures s.main.Returned? ==>
      s.loops == [Ended, Ended, Ended] && s.order != [] && s.main.first == s.order[0]
    ensures forall i | 0 <= i < |s.loops| && s.loops[i].Ending? :: Enabled(s, Report(i))
  {
    RunKeeps(INIT, run);
  }

  // ---- the end comes -----------------------------------------------------------------------------

  /** Some loop has ended, or the process is being shut down. */
  predicate Stopping(s: State) {
    s.cancelled || exists i :: 0 <= i < |s.loops| && !s.loops[i].Looping?
  }

  /** Steps that need neither traffic nor a further failure. */
  predicate Winds(a: Action) { !a.Iterate? && !a.Fail? && !a.Shutdown? }

  function MainWork(main: MainPc): nat {
    match main
    case AwaitFirst => 4
    case Cancelling => 3
    case ClosingSocket => 2
    case AwaitRest => 1
    case Returned(_) => 0
  }

  /** Steps left, traffic aside. */
  function Work(s: State): nat
    requires Inv(s)
  {
    LoopsWork(s.loops) + MainWork(s.main) + (LOOPS - s.got) + One(!s.cancelled)
  }

  lemma WorkFalls(s: State, a: Action)
    requires Inv(s) && Enabled(s, a)
    ensures Inv(Apply(s, a))
    ensures if a.Iterate? then Work(Apply(s, a)) == Work(s) else Work(Apply(s, a)) < Work(s)
  {
    StepKeeps(s, a);
    match a
    case Fail(i) => LoopMoves(s.loops, i, Ending);
    case Notice(i) => LoopMoves(s.loops, i, Ending);
    case Report(i) => LoopMoves(s.loops, i, Ended);
    case _ =>
  }

  function Traffic(run: seq<Action>): nat {
    if run == [] then 0 else One(run[0].Iterate?) + Traffic(run[1..])
  }

  /** Traffic aside, every run of a connection has at most fourteen steps. */
  lemma {:induction false} FewSteps(s: State, run: seq<Action>)
    requires Inv(s) && Runs(s, run)
    ensures |run| - Traffic(run) <= Work(s)
    decreases |run|
  {
    if run == [] {
    } else {
      WorkFalls(s, run[0]);
      FewSteps(Apply(s, run[0]), run[1..]);
    }
  }

  lemma FewStepsInAll(run: seq<Action>)
    requires Runs(INIT, run)
    ensures |run| - Traffic(run) <= 14
  {
    FewSteps(INIT, run);
  }

  /** Once a loop has ended, something other than traffic and failures can happen until `runOnce` returns. */
  lemma SomeStep(s: State) returns (a: Action)
    requires Inv(s) && Stopping(s) && !s.main.Returned?
    ensures Enabled(s, a) && Winds(a) && Stopping(Apply(s, a))
  {
    if i :| 0 <= i < |s.loops| && s.loops[i].Ending? {
      a := Report(i);
      assert !Apply(s, a).loops[i].Looping?;
    } else if i :| 0 <= i < |s.loops| && s.loops[i].Looping? && s.cancelled {
      a := Notice(i);
    } else {
      a := MainStep(s);
    }
  }

  /** With no loop left to move, the waiting side can. */
  lemma MainStep(s: State) returns (a: Action)
    requires Inv(s) && Stopping(s) && !s.main.Returned?
    requires forall i | 0 <= i < |s.loops| :: !s.loops[i].Ending? && (s.cancelled ==> !s.loops[i].Looping?)
    ensures Enabled(s, a) && Winds(a) && Stopping(Apply(s, a))
  {
    match s.main
    case AwaitFirst => a := Receive;
    case Cancelling => a := Cancel;
    case ClosingSocket => a := CloseSocket;
    case AwaitRest => a := if s.got < LOOPS then Receive else Return;
  }

  /** Tear-down: from any moment after a loop has ended, without traffic or failures, `runOnce` returns. */
  lemma {:induction false} Finishes(s: State) returns (run: seq<Action>)
    requires Inv(s) && Stopping(s)
    ensures Runs(s, run) && After(s, run).main.Returned?
    ensures forall i | 0 <= i < |run| :: Winds(run[i])
    decreases Work(s)
  {
    if s.main.Returned? {
      run := [];
    } else {
      var a := SomeStep(s);
      WorkFalls(s, a);
      var rest := Finishes(Apply(s, a));
      run := [a] + rest;
      assert run[1..] == rest;
    }
  }
}
