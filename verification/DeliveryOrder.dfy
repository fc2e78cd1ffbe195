/** The writer keeps the channel's order, whoever fills the channel meanwhile. */
module DeliveryOrder {
  import opened Delivery
  import opened DeliveryTheorems

  function Ids(es: seq<Env>): seq<nat> { seq(|es|, i requires 0 <= i < |es| => es[i].id) }

  function InHand(c: Conn): seq<Env> { if c.hand.Some? then [c.hand.value] else [] }

  /** Everything written so far, then what the writer holds, then what waits in the channel. */
  function Line(s: State): seq<nat>
    requires Live(s)
  {
    Ids(s.wire + InHand(Cur(s)) + Cur(s).buf)
  }

  /** What a step puts at the end of the live channel. */
  function Arrival(s: State, a: Action): seq<nat>
    requires Enabled(s, a)
  {
    if a.SendPush? && s.senders[a.i].pc.out.value == |s.conns| - 1 then [s.senders[a.i].env.id]
    else if a.Heartbeat? then [s.nextId]
    else []
  }

  function Arrivals(s: State, run: seq<Action>): seq<nat>
    requires Runs(s, run)
    decreases |run|
  {
    if run == [] then [] else Arrival(s, run[0]) + Arrivals(Apply(s, run[0]), run[1..])
  }

  predicate KeepsWriting(run: seq<Action>) {
    forall i | 0 <= i < |run| :: !run[i].WriteFail? && !run[i].Stop?
  }

  lemma KeepsWritingTail(run: seq<Action>)
    requires run != [] && KeepsWriting(run)
    ensures !run[0].WriteFail? && !run[0].Stop? && KeepsWriting(run[1..])
  {
  }

  lemma LineStep(s: State, a: Action)
    requires Live(s) && Cur(s).phase.Pumping? && Enabled(s, a) && !a.WriteFail? && !a.Stop?
    ensures var s' := Apply(s, a); Live(s') && Cur(s').phase.Pumping? && |s'.conns| == |s.conns|
    ensures Line(Apply(s, a)) == Line(s) + Arrival(s, a)
  {
    var s' := Apply(s, a);
    assert |s'.conns| == |s.conns|;
    match a
    case Take => LineTake(s);
    case SendPush(i) => LinePush(s, i);
    case _ =>
  }

  lemma LineTake(s: State)
    requires Live(s) && Enabled(s, Take)
    ensures Live(Apply(s, Take)) && Line(Apply(s, Take)) == Line(s)
  {
    var buf, e := Cur(s).buf, Stamp(s, Cur(s).buf[0]);
    assert Cur(Apply(s, Take)).buf == buf[1..] && InHand(Cur(Apply(s, Take))) == [e];
    assert buf == [buf[0]] + buf[1..];
    assert Ids(s.wire + [e] + buf[1..]) == Ids(s.wire + [buf[0]] + buf[1..]);
    assert s.wire + [buf[0]] + buf[1..] == s.wire + [] + buf;
  }

  lemma LinePush(s: State, i: nat)
    requires Live(s) && Cur(s).phase.Pumping? && Enabled(s, SendPush(i))
    ensures var s' := Apply(s, SendPush(i));
      && Live(s') && Cur(s').phase.Pumping? && |s'.conns| == |s.conns|
      && Line(s') == Line(s) + Arrival(s, SendPush(i))
  {
    var s' := Apply(s, SendPush(i));
    if s.senders[i].pc.out.value == |s.conns| - 1 {
      assert Cur(s').buf == Cur(s).buf + [s.senders[i].env] && InHand(Cur(s')) == InHand(Cur(s));
    } else {
      assert Cur(s') == Cur(s);
    }
  }

  /**
   First in, first out: while the writer is not stopped, the wire, the hand and the channel
   together are what they were, followed by exactly what came into the channel, in order.
   */
  lemma {:induction false} WriterKeepsOrder(s: State, run: seq<Action>)
    requires Live(s) && Cur(s).phase.Pumping? && Runs(s, run) && KeepsWriting(run)
    ensures var s' := After(s, run);
      && Live(s') && Cur(s').phase.Pumping? && |s'.conns| == |s.conns|
      && Line(s') == Line(s) + Arrivals(s, run)
    decreases |run|
  {
    if run == [] {
    } else {
      var s1 := Apply(s, run[0]);
      KeepsWritingTail(run);
      LineStep(s, run[0]);
      WriterKeepsOrder(s1, run[1..]);
      assert Line(s) + Arrival(s, run[0]) + Arrivals(s1, run[1..]) == Line(s) + Arrivals(s, run);
    }
  }

  /** And a connection that fails has written a prefix of it: what it loses comes after all it wrote. */
  lemma LossIsTail(s: State, run: seq<Action>)
    requires Live(s) && Cur(s).phase.Pumping? && Runs(s, run + [WriteFail]) && KeepsWriting(run)
    ensures Runs(s, run)
    ensures var s' := After(s, run + [WriteFail]);
      && Live(s') && Cur(s').phase.Closing? && Cur(s').lost.Some?
      && Ids(s'.wire) + Ids([Cur(s').lost.value]) + Ids(Cur(s').buf) == Line(s) + Arrivals(s, run)
  {
    RunsSplit(s, run, [WriteFail]);
    WriterKeepsOrder(s, run);
    var s1 := After(s, run);
    assert After(s1, [WriteFail]) == After(Apply(s1, WriteFail), []);
  }
}
