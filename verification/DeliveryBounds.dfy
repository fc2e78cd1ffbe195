/** The protocol's bounds are exact: runs that lose 65 envelopes, and runs that overload a replay. */
module DeliveryBounds {
  import opened Prelude
  import opened Delivery
  import opened DeliveryTheorems
  import opened DeliveryCalls
  import opened DeliveryReplay

  /** A client that accepts envelopes for whoever is there to take them. */
  lemma {:induction false} SendMany(run: seq<Action>, s: State, n: nat) returns (run': seq<Action>, s': State)
    requires Reached(run, s) && (Live(s) ==> |Cur(s).buf| + n <= CHANNEL_SLOTS)
    ensures Reached(run', s') && s'.registered == s.registered
    ensures if Live(s) then
              Live(s') && |s'.conns| == |s.conns| && |Cur(s').buf| == |Cur(s).buf| + n
              && Cur(s') == Cur(s).(buf := Cur(s').buf)
            else
              s'.conns == s.conns && |s'.disk| == |s.disk| + n
    decreases n
  {
    if n == 0 {
      return run, s;
    }
    var sent := SendCall(run, s, []);
    var env := Env(s.nextId, s.lastNum + 1, []);
    if !Live(s) {
      PutNew(run, s, env.Key(), env);
    }
    run', s' := SendMany(sent, Sent(s, []), n - 1);
  }

  lemma FirstConnection() returns (run: seq<Action>, s: State)
    ensures Reached(run, s) && s.conns == [Conn(Pumping, [], None, None)]
  {
    ConnectCall([], INIT);
    var s0 := Published(Registered(INIT));
    run := ReplayCall([] + [Register] + [Open], s0, 0);
    assert s0.conns == [Conn(Opened, [], None, None)] && ValuesOf(s0.disk[..0]) == [];
    s := Replayed(s0, 0);
    assert s.conns[0].buf == [];
  }

  lemma Step(run: seq<Action>, s: State, a: Action) returns (run': seq<Action>, s': State)
    requires Reached(run, s) && Enabled(s, a)
    ensures run' == run + [a] && s' == Apply(s, a) && Reached(run', s')
  {
    Extend(run, s, a);
    run', s' := run + [a], Apply(s, a);
  }

  /** The bound is exact: some run loses 65 envelopes, all accepted by Send, with one connection. */
  lemma DropBoundReached() returns (run: seq<Action>, s: State)
    ensures Reached(run, s)
    ensures |s.conns| == 1 && s.conns[0].phase.Dead? && |s.conns[0].buf| == 64 && s.conns[0].lost.Some?
  {
    run, s := FirstConnection();
    run, s := SendMany(run, s, 1);
    run, s := Step(run, s, Take);
    run, s := SendMany(run, s, CHANNEL_SLOTS);
    run, s := Step(run, s, WriteFail);
    run, s := Step(run, s, Unpublish);
  }

  /** An overloaded replay is reachable: send 65 envelopes while disconnected, then connect. */
  lemma OverloadReached() returns (run: seq<Action>, s: State)
    ensures Reached(run, s) && InReplay(s) && Load(s) > 64
  {
    run, s := SendMany([], INIT, CHANNEL_SLOTS + 1);
    ConnectCall(run, s);
    run, s := run + [Register] + [Open], Published(Registered(s));
    run, s := Step(run, s, Pop);
  }

  /** So from a start with an empty queue the client can come to write nothing until it is shut down. */
  lemma WedgeReached() returns (run: seq<Action>, s: State)
    ensures Reached(run, s)
    ensures forall more: seq<Action> :: Runs(s, more) && NoShutdown(more) ==>
      After(s, more).wire == s.wire && InReplay(After(s, more)) && !Enabled(After(s, more), ReplayPush)
  {
    run, s := OverloadReached();
    ReachedInv(run, s);
    var fill := OverloadFillsUp(s);
    RunsAppend(INIT, run, fill);
    run, s := run + fill, After(s, fill);
    ReachedInv(run, s);
    forall more: seq<Action> | Runs(s, more) && NoShutdown(more)
      ensures After(s, more).wire == s.wire && InReplay(After(s, more)) && !Enabled(After(s, more), ReplayPush)
    {
      StuckReplay(s, more);
    }
  }
}
