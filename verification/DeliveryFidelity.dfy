/** An envelope reaches the wire as Send left it: same number, same correlation id. */
module DeliveryFidelity {
  import opened Prelude
  import opened Bucket
  import opened Delivery
  import opened DeliveryInvariant
  import opened DeliverySteps
  import opened DeliveryTheorems

  /** Either exactly what Send accepted, or a register or heartbeat, which no Send has to do with. */
  ghost predicate Known(s: State, e: Env) {
    e in s.sent || (e.corr == [] && e.id < s.nextId && forall j | 0 <= j < |s.sent| :: s.sent[j].id != e.id)
  }

  ghost predicate AllKnown(s: State, es: seq<Env>) {
    forall i | 0 <= i < |es| :: Known(s, es[i])
  }

  ghost predicate ConnKnown(s: State, c: Conn) {
    AllKnown(s, c.buf) && (c.hand.Some? ==> Known(s, c.hand.value))
  }

  ghost predicate Faithful(s: State) {
    AllKnown(s, s.wire) && forall i | 0 <= i < |s.conns| :: ConnKnown(s, s.conns[i])
  }

  lemma KnownKeep(s: State, a: Action, e: Env)
    requires SentInv(s) && Enabled(s, a) && Known(s, e)
    ensures Known(Apply(s, a), e)
  {
    var s' := Apply(s, a);
    if e in s.sent {
      var i :| 0 <= i < |s.sent| && s.sent[i] == e;
      assert s'.sent[i] == e;
    } else {
      assert forall j | 0 <= j < |s.sent| :: s'.sent[j] == s.sent[j];
    }
  }

  lemma AllKnownKeep(s: State, a: Action, es: seq<Env>)
    requires SentInv(s) && Enabled(s, a) && AllKnown(s, es)
    ensures AllKnown(Apply(s, a), es)
  {
    forall i | 0 <= i < |es| ensures Known(Apply(s, a), es[i]) {
      KnownKeep(s, a, es[i]);
    }
  }

  lemma ConnKnownKeep(s: State, a: Action, c: Conn)
    requires SentInv(s) && Enabled(s, a) && ConnKnown(s, c)
    ensures ConnKnown(Apply(s, a), c)
  {
    AllKnownKeep(s, a, c.buf);
    if c.hand.Some? {
      KnownKeep(s, a, c.hand.value);
    }
  }

  /** The writer's stamp leaves what Send accepted alone. */
  lemma StampKnown(s: State, e: Env)
    requires SentInv(s) && Known(s, e)
    ensures Known(s, Stamp(s, e))
  {
    if e in s.sent {
      var i :| 0 <= i < |s.sent| && s.sent[i] == e;
    }
  }

  /** The one envelope that a step adds to a channel or the wire. */
  function Added(s: State, a: Action): Option<Env>
    requires Enabled(s, a)
  {
    match a
    case SendPush(i) => Some(s.senders[i].env)
    case ReplayPush => Some(Cur(s).phase.jobs[0])
    case Heartbeat => Some(Env(s.nextId, 0, []))
    case Register => Some(Env(s.nextId, s.lastNum + 1, []))
    case Take => Some(Stamp(s, Cur(s).buf[0]))
    case WriteOk => Cur(s).hand
    case _ => None
  }

  lemma AddedKnown(s: State, a: Action)
    requires Inv(s) && Faithful(s) && Enabled(s, a) && Added(s, a).Some?
    ensures Known(Apply(s, a), Added(s, a).value)
  {
    match a
    case ReplayPush =>
      var e := Cur(s).phase.jobs[0];
      assert Unacked(s)[0] == e;
      var i := GetIsEntry(s.disk, e.Key());
    case Take =>
      assert ConnKnown(s, Cur(s));
      StampKnown(s, Cur(s).buf[0]);
      KnownKeep(s, a, Stamp(s, Cur(s).buf[0]));
    case WriteOk =>
      assert ConnKnown(s, Cur(s));
      KnownKeep(s, a, Cur(s).hand.value);
    case _ =>
  }

  /** A connection after a step: as before, or with the added envelope in its channel or its hand. */
  lemma ConnSource(s: State, a: Action, i: nat)
    requires Enabled(s, a) && i < |Apply(s, a).conns|
    ensures var c := Apply(s, a).conns[i];
      && (forall k | 0 <= k < |c.buf| :: (i < |s.conns| && c.buf[k] in s.conns[i].buf) || Some(c.buf[k]) == Added(s, a))
      && (c.hand.Some? ==> (i < |s.conns| && c.hand == s.conns[i].hand) || c.hand == Added(s, a))
  {
  }

  lemma FaithfulConn(s: State, a: Action, i: nat)
    requires Inv(s) && Faithful(s) && Enabled(s, a) && i < |Apply(s, a).conns|
    ensures ConnKnown(Apply(s, a), Apply(s, a).conns[i])
  {
    var s' := Apply(s, a);
    var c := s'.conns[i];
    ConnSource(s, a, i);
    if Added(s, a).Some? {
      AddedKnown(s, a);
    }
    if i < |s.conns| {
      assert ConnKnown(s, s.conns[i]);
      ConnKnownKeep(s, a, s.conns[i]);
    }
    forall k | 0 <= k < |c.buf| ensures Known(s', c.buf[k]) {
      if i < |s.conns| && c.buf[k] in s.conns[i].buf {
        var j :| 0 <= j < |s.conns[i].buf| && s.conns[i].buf[j] == c.buf[k];
      }
    }
  }

  lemma FaithfulStep(s: State, a: Action)
    requires Inv(s) && Faithful(s) && Enabled(s, a)
    ensures Faithful(Apply(s, a))
  {
    var s' := Apply(s, a);
    AllKnownKeep(s, a, s.wire);
    if s'.wire != s.wire {
      AddedKnown(s, a);
      assert s'.wire == s.wire + [Added(s, a).value];
    }
    forall i | 0 <= i < |s'.conns| ensures ConnKnown(s', s'.conns[i]) {
      FaithfulConn(s, a, i);
    }
  }

  lemma {:induction false} FaithfulRun(s: State, run: seq<Action>)
    requires Inv(s) && Faithful(s) && Runs(s, run)
    ensures Faithful(After(s, run))
    decreases |run|
  {
    if run == [] {
    } else {
      StepKeeps(s, run[0]);
      FaithfulStep(s, run[0]);
      FaithfulRun(Apply(s, run[0]), run[1..]);
    }
  }

  /**
   What is written is what was sent: a frame on the wire that stems from Send carries the
   number and the correlation id it had when Send returned, by whatever way it went.
   */
  lemma WrittenAsSent(run: seq<Action>, s: State, i: nat, j: nat)
    requires Reached(run, s) && i < |s.wire| && j < |s.sent| && s.wire[i].id == s.sent[j].id
    ensures s.wire[i] == s.sent[j]
  {
    InitInv();
    ReachedInv(run, s);
    FaithfulRun(INIT, run);
    assert Known(s, s.wire[i]);
    if s.wire[i] in s.sent {
      var k :| 0 <= k < |s.sent| && s.sent[k] == s.wire[i];
    }
  }
}
