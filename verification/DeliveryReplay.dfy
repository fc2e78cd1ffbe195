/** What replayQueue does in every interleaving with senders, and when it cannot finish. */
module DeliveryReplay {
  import opened Prelude
  import opened Bucket
  import opened Delivery
  import opened DeliveryLedger
  import opened DeliveryInvariant
  import opened DeliverySteps
  import opened DeliveryTheorems
  import opened DeliveryCalls

  /** Envelopes in the channel plus popped ones still to be moved there. */
  function Load(s: State): nat
    requires InReplay(s)
  {
    |Cur(s).buf| + |Cur(s).phase.jobs|
  }

  /** Steps that replayQueue itself still has to take before it can return. */
  function Remaining(s: State): nat
    requires InReplay(s)
  {
    2 * |Cur(s).phase.jobs| + One(Cur(s).phase.acking.Some?)
  }

  predicate OwnStep(a: Action) { a.ReplayPush? || a.ReplayAck? }

  function OwnSteps(run: seq<Action>): nat {
    if run == [] then 0 else One(OwnStep(run[0])) + OwnSteps(run[1..])
  }

  /** No cancellation, and the replay has not returned. */
  predicate StaysIn(run: seq<Action>) {
    forall i | 0 <= i < |run| :: !run[i].Shutdown? && !run[i].ReplayDone?
  }

  predicate NoShutdown(run: seq<Action>) {
    forall i | 0 <= i < |run| :: !run[i].Shutdown?
  }

  /** Envelopes that senders put straight into the channel being replayed to. */
  function DirectPush(s: State, a: Action): seq<Env>
    requires Enabled(s, a)
  {
    if a.SendPush? && s.senders[a.i].pc.out.value == |s.conns| - 1 then [s.senders[a.i].env] else []
  }

  function DirectPushes(s: State, run: seq<Action>): seq<Env>
    requires Runs(s, run)
    decreases |run|
  {
    if run == [] then [] else DirectPush(s, run[0]) + DirectPushes(Apply(s, run[0]), run[1..])
  }

  /** zs is xs and ys interleaved, each in its own order. */
  predicate Shuffle<T(==)>(xs: seq<T>, ys: seq<T>, zs: seq<T>)
    decreases |zs|
  {
    if zs == [] then xs == [] && ys == []
    else
      || (xs != [] && xs[0] == zs[0] && Shuffle(xs[1..], ys, zs[1..]))
      || (ys != [] && ys[0] == zs[0] && Shuffle(xs, ys[1..], zs[1..]))
  }

  lemma {:induction false} ShuffleHolds<T>(xs: seq<T>, ys: seq<T>, zs: seq<T>, x: T)
    requires Shuffle(xs, ys, zs) && x in xs
    ensures x in zs
    decreases |zs|
  {
    if xs != [] && xs[0] == zs[0] && Shuffle(xs[1..], ys, zs[1..]) {
      if x != xs[0] {
        ShuffleHolds(xs[1..], ys, zs[1..], x);
      }
    } else {
      ShuffleHolds(xs, ys[1..], zs[1..], x);
    }
  }

  /** What one step does to the channel, the jobs and the work left. */
  lemma ReplayStep(s: State, a: Action)
    requires InReplay(s) && Enabled(s, a) && !a.Shutdown? && !a.ReplayDone?
    ensures var s' := Apply(s, a);
      && InReplay(s') && |s'.conns| == |s.conns| && s'.wire == s.wire
      && One(OwnStep(a)) + Remaining(s') == Remaining(s)
      && (if a.ReplayPush? then
            Cur(s').phase.jobs == Cur(s).phase.jobs[1..] && Cur(s').buf == Cur(s).buf + [Cur(s).phase.jobs[0]]
          else
            Cur(s').phase.jobs == Cur(s).phase.jobs && Cur(s').buf == Cur(s).buf + DirectPush(s, a))
  {
    var s' := Apply(s, a);
    assert |s'.conns| == |s.conns|;
  }

  lemma StaysInTail(run: seq<Action>)
    requires run != [] && StaysIn(run)
    ensures !run[0].Shutdown? && !run[0].ReplayDone? && StaysIn(run[1..])
  {
  }

  /**
   Between two moments of a replay: jobs left the front of the list, and those and what
   senders pushed meanwhile are behind what the channel held, each in order.
   */
  predicate Advanced(jobs: seq<Env>, jobs': seq<Env>, buf: seq<Env>, buf': seq<Env>, pushes: seq<Env>) {
    && |jobs'| <= |jobs| && jobs[|jobs| - |jobs'|..] == jobs'
    && |buf| <= |buf'| && buf'[..|buf|] == buf
    && Shuffle(jobs[..|jobs| - |jobs'|], pushes, buf'[|buf|..])
  }

  lemma NotAdvanced(jobs: seq<Env>, buf: seq<Env>)
    ensures Advanced(jobs, jobs, buf, buf, [])
  {
    assert jobs[..0] == [] && jobs[0..] == jobs && buf[|buf|..] == [] && buf[..|buf|] == buf;
  }

  lemma AdvancedPush(jobs: seq<Env>, jobs': seq<Env>, buf: seq<Env>, e: Env, buf': seq<Env>, pushes: seq<Env>)
    requires Advanced(jobs, jobs', buf + [e], buf', pushes)
    ensures Advanced(jobs, jobs', buf, buf', [e] + pushes)
  {
    assert buf'[..|buf|] == (buf + [e])[..|buf|] == buf;
    assert buf'[|buf|..][0] == buf'[..|buf| + 1][|buf|] == e;
    assert ([e] + pushes)[1..] == pushes && buf'[|buf|..][1..] == buf'[|buf| + 1..];
  }

  lemma AdvancedMove(jobs: seq<Env>, jobs': seq<Env>, buf: seq<Env>, buf': seq<Env>, pushes: seq<Env>)
    requires jobs != [] && Advanced(jobs[1..], jobs', buf + [jobs[0]], buf', pushes)
    ensures Advanced(jobs, jobs', buf, buf', pushes)
  {
    var m := |jobs| - |jobs'|;
    assert jobs[1..][m - 1..] == jobs[m..] && jobs[..m][1..] == jobs[1..][..m - 1];
    assert buf'[..|buf|] == (buf + [jobs[0]])[..|buf|] == buf;
    assert buf'[|buf|..][0] == buf'[..|buf| + 1][|buf|] == jobs[0];
    assert buf'[|buf|..][1..] == buf'[|buf| + 1..];
  }

  lemma AdvancedStep(s: State, a: Action, jobs': seq<Env>, buf': seq<Env>, pushes: seq<Env>)
    requires InReplay(s) && Enabled(s, a) && !a.Shutdown? && !a.ReplayDone?
    requires InReplay(Apply(s, a))
    requires Advanced(Cur(Apply(s, a)).phase.jobs, jobs', Cur(Apply(s, a)).buf, buf', pushes)
    ensures Advanced(Cur(s).phase.jobs, jobs', Cur(s).buf, buf', DirectPush(s, a) + pushes)
  {
    ReplayStep(s, a);
    var jobs, buf, push := Cur(s).phase.jobs, Cur(s).buf, DirectPush(s, a);
    if a.ReplayPush? {
      AdvancedMove(jobs, jobs', buf, buf', pushes);
      assert push + pushes == pushes;
    } else if push == [] {
      assert buf + push == buf && push + pushes == pushes;
    } else {
      AdvancedPush(jobs, jobs', buf, push[0], buf', pushes);
    }
  }

  /**
   Replay in any interleaving: as long as it lasts nothing is written; what it has
   taken off its jobs and what senders pushed meanwhile are in the channel, each in
   order, behind what was there; and every step of its own is one of a fixed number.
   */
  lemma {:induction false} ReplayTally(s: State, run: seq<Action>)
    requires InReplay(s) && Runs(s, run) && StaysIn(run)
    ensures var s' := After(s, run);
      && InReplay(s') && |s'.conns| == |s.conns| && s'.wire == s.wire
      && OwnSteps(run) + Remaining(s') == Remaining(s)
      && Advanced(Cur(s).phase.jobs, Cur(s').phase.jobs, Cur(s).buf, Cur(s').buf, DirectPushes(s, run))
    decreases |run|
  {
    if run == [] {
      NotAdvanced(Cur(s).phase.jobs, Cur(s).buf);
    } else {
      var s1 := Apply(s, run[0]);
      StaysInTail(run);
      ReplayStep(s, run[0]);
      ReplayTally(s1, run[1..]);
      var s' := After(s1, run[1..]);
      AdvancedStep(s, run[0], Cur(s').phase.jobs, Cur(s').buf, DirectPushes(s1, run[1..]));
    }
  }

  lemma {:induction false} ShuffleLength<T>(xs: seq<T>, ys: seq<T>, zs: seq<T>)
    requires Shuffle(xs, ys, zs)
    ensures |zs| == |xs| + |ys|
    decreases |zs|
  {
    if zs == [] {
    } else {
      if xs != [] && xs[0] == zs[0] && Shuffle(xs[1..], ys, zs[1..]) {
        ShuffleLength(xs[1..], ys, zs[1..]);
      } else {
        ShuffleLength(xs, ys[1..], zs[1..]);
      }
    }
  }

  /**
   Progress in any interleaving: while jobs and direct sends fit the channel, replayQueue
   is never blocked, so it returns after exactly `Remaining(s)` steps of its own.
   */
  lemma FittingReplayNeverBlocks(s: State, run: seq<Action>)
    requires InReplay(s) && Runs(s, run) && StaysIn(run)
    requires Load(s) + |DirectPushes(s, run)| <= CHANNEL_SLOTS
    ensures var s' := After(s, run);
      && InReplay(s')
      && (Remaining(s') > 0 ==> Enabled(s', ReplayPush) || Enabled(s', ReplayAck))
      && (Remaining(s') == 0 ==> Enabled(s', ReplayDone))
      && OwnSteps(run) + Remaining(s') == Remaining(s)
  {
    ReplayTally(s, run);
    var s' := After(s, run);
    AdvancedLength(Cur(s).phase.jobs, Cur(s').phase.jobs, Cur(s).buf, Cur(s').buf, DirectPushes(s, run));
    RoomMeansProgress(s');
  }

  lemma AdvancedLength(jobs: seq<Env>, jobs': seq<Env>, buf: seq<Env>, buf': seq<Env>, pushes: seq<Env>)
    requires Advanced(jobs, jobs', buf, buf', pushes)
    ensures |buf'| + |jobs'| == |buf| + |jobs| + |pushes|
  {
    ShuffleLength(jobs[..|jobs| - |jobs'|], pushes, buf'[|buf|..]);
  }

  lemma RoomMeansProgress(s: State)
    requires InReplay(s) && Load(s) <= CHANNEL_SLOTS
    ensures Remaining(s) > 0 ==> Enabled(s, ReplayPush) || Enabled(s, ReplayAck)
    ensures Remaining(s) == 0 ==> Enabled(s, ReplayDone)
  {
  }

  // ---- where a finished replay leaves the envelopes ----------------------------------------------

  lemma {:induction false} SentGrows(s: State, run: seq<Action>)
    requires Runs(s, run)
    ensures s.sent <= After(s, run).sent
    decreases |run|
  {
    if run == [] {
    } else {
      SentGrows(Apply(s, run[0]), run[1..]);
    }
  }

  lemma {:induction false} ConnsHold(f: Weight, cs: seq<Conn>, i: nat)
    requires i < |cs|
    ensures OfConns(f, cs) >= OfConn(f, cs[i])
  {
    if i == 0 {
    } else {
      ConnsHold(f, cs[1..], i - 1);
    }
  }

  lemma {:induction false} EntryCounts(f: Weight, b: seq<Entry<Env>>, i: nat)
    requires i < |b|
    ensures OfDisk(f, b) >= f(b[i].value)
  {
    if i == 0 {
    } else {
      EntryCounts(f, b[1..], i - 1);
    }
  }

  /** What a pumping connection holds is not on disk as well. */
  lemma NotOnDisk(s: State, e: Env)
    requires Inv(s) && Live(s) && !Cur(s).phase.Replaying? && e in Cur(s).buf && e in s.sent
    ensures Get(s.disk, e.Key()).None?
  {
    var f := HasId(e.id);
    assert Shadow(f, s) == 0;
    assert Total(f, s) <= 1;
    if Get(s.disk, e.Key()).Some? {
      var i := GetIsEntry(s.disk, e.Key());
      SameKeySameEnvelope(s, s.disk[i].value, e);
      EntryCounts(f, s.disk, i);
      var j :| 0 <= j < |Cur(s).buf| && Cur(s).buf[j] == e;
      CountsOne(f, Cur(s).buf, j);
      ConnsHold(f, s.conns, |s.conns| - 1);
      assert false;
    }
  }

  /**
   Every replay that returns, in whatever interleaving, has moved everything: all popped
   envelopes not yet acked are in the channel, the unmoved ones in order, and off the disk.
   */
  lemma ReplayDelivers(s: State, run: seq<Action>)
    requires Inv(s) && InReplay(s) && StaysIn(run) && Runs(s, run + [ReplayDone])
    ensures Runs(s, run)
    ensures var s' := After(s, run + [ReplayDone]);
      && Live(s') && |s'.conns| == |s.conns| && s'.wire == s.wire && Cur(s').phase.Pumping?
      && Advanced(Cur(s).phase.jobs, [], Cur(s).buf, Cur(s').buf, DirectPushes(s, run))
      && forall i | 0 <= i < |Unacked(s)| ::
           Unacked(s)[i] in Cur(s').buf && Get(s'.disk, Unacked(s)[i].Key()).None?
  {
    ReplayMoves(s, run);
    var s' := After(s, run + [ReplayDone]);
    RunKeeps(s, run + [ReplayDone]);
    SentGrows(s, run + [ReplayDone]);
    forall i | 0 <= i < |Unacked(s)|
      ensures Unacked(s)[i] in Cur(s').buf && Get(s'.disk, Unacked(s)[i].Key()).None?
    {
      UnackedArrives(s, s', DirectPushes(s, run), Unacked(s)[i]);
    }
  }

  lemma ReplayMoves(s: State, run: seq<Action>)
    requires InReplay(s) && StaysIn(run) && Runs(s, run + [ReplayDone])
    ensures Runs(s, run)
    ensures var s' := After(s, run + [ReplayDone]);
      && Live(s') && |s'.conns| == |s.conns| && s'.wire == s.wire && Cur(s').phase.Pumping?
      && Advanced(Cur(s).phase.jobs, [], Cur(s).buf, Cur(s').buf, DirectPushes(s, run))
  {
    RunsSplit(s, run, [ReplayDone]);
    var s1 := After(s, run);
    assert After(s1, [ReplayDone]) == After(Apply(s1, ReplayDone), []);
    ReplayTally(s, run);
  }

  /** At the end of a replay the channel holds what it held and all the jobs. */
  lemma AdvancedHolds(jobs: seq<Env>, buf: seq<Env>, buf': seq<Env>, pushes: seq<Env>, e: Env)
    requires Advanced(jobs, [], buf, buf', pushes) && (e in jobs || e in buf)
    ensures e in buf'
  {
    assert jobs[..|jobs|] == jobs;
    if e in jobs {
      ShuffleHolds(jobs, pushes, buf'[|buf|..], e);
      assert e in buf'[|buf|..];
    } else {
      assert e in buf'[..|buf|];
    }
  }

  lemma UnackedIsSent(s: State, e: Env)
    requires Inv(s) && InReplay(s) && e in Unacked(s)
    ensures e in s.sent && (e in Cur(s).phase.jobs || e in Cur(s).buf)
  {
    var i :| 0 <= i < |Unacked(s)| && Unacked(s)[i] == e;
    var j := GetIsEntry(s.disk, e.Key());
  }

  lemma UnackedArrives(s: State, s': State, pushes: seq<Env>, e: Env)
    requires Inv(s) && InReplay(s) && e in Unacked(s)
    requires Inv(s') && Live(s') && Cur(s').phase.Pumping? && s.sent <= s'.sent
    requires Advanced(Cur(s).phase.jobs, [], Cur(s).buf, Cur(s').buf, pushes)
    ensures e in Cur(s').buf && Get(s'.disk, e.Key()).None?
  {
    UnackedIsSent(s, e);
    AdvancedHolds(Cur(s).phase.jobs, Cur(s).buf, Cur(s').buf, pushes, e);
    NotOnDisk(s', e);
  }

  // ---- when it can return at all -------------------------------------------------------------------

  /** A replay that fits can return, with its own steps alone. */
  lemma {:induction false} FittingReplayFinishes(s: State) returns (run: seq<Action>)
    requires InReplay(s) && Load(s) <= CHANNEL_SLOTS
    ensures StaysIn(run) && Runs(s, run + [ReplayDone])
    decreases Remaining(s)
  {
    if Remaining(s) == 0 {
      run := [];
      assert [] + [ReplayDone] == [ReplayDone] && [ReplayDone][1..] == [];
      return;
    }
    var a := if Cur(s).phase.acking.Some? then ReplayAck else ReplayPush;
    ReplayStep(s, a);
    var rest := FittingReplayFinishes(Apply(s, a));
    run := [a] + rest;
    assert (run + [ReplayDone])[1..] == rest + [ReplayDone];
    assert forall i | 0 < i < |run| :: run[i] == rest[i - 1];
  }

  /**
   An overloaded replay never returns: until the process shuts down nothing is written,
   it still has envelopes to move, all of them on disk, and it is blocked exactly when
   the channel is full.
   */
  lemma {:induction false} OverloadedReplayWedges(s: State, run: seq<Action>)
    requires Inv(s) && InReplay(s) && Load(s) > CHANNEL_SLOTS
    requires Runs(s, run) && NoShutdown(run)
    ensures StaysIn(run)
    ensures var s' := After(s, run);
      && InReplay(s') && Load(s') > CHANNEL_SLOTS && |s'.conns| == |s.conns|
      && s'.wire == s.wire
      && Cur(s').phase.jobs != []
      && (forall i | 0 <= i < |Cur(s').phase.jobs| ::
            Get(s'.disk, Cur(s').phase.jobs[i].Key()) == Some(Cur(s').phase.jobs[i]))
      && (!Enabled(s', ReplayPush) && !Enabled(s', ReplayAck) <==>
            |Cur(s').buf| == CHANNEL_SLOTS && Cur(s').phase.acking.None?)
    decreases |run|
  {
    assert ConnOk(Cur(s));
    if run == [] {
      JobsOnDisk(s);
    } else {
      ReplayStep(s, run[0]);
      StepKeeps(s, run[0]);
      OverloadedReplayWedges(Apply(s, run[0]), run[1..]);
      assert forall i | 0 < i < |run| :: run[i] == run[1..][i - 1];
    }
  }

  lemma JobsOnDisk(s: State)
    requires Inv(s) && InReplay(s)
    ensures forall i | 0 <= i < |Cur(s).phase.jobs| ::
      Get(s.disk, Cur(s).phase.jobs[i].Key()) == Some(Cur(s).phase.jobs[i])
  {
    var jobs, skip := Cur(s).phase.jobs, |Unacked(s)| - |Cur(s).phase.jobs|;
    forall i | 0 <= i < |jobs| ensures Get(s.disk, jobs[i].Key()) == Some(jobs[i]) {
      assert jobs[i] == Unacked(s)[skip + i];
    }
  }

  /** And in the end it does block: its own steps alone fill the channel. */
  lemma {:induction false} OverloadFillsUp(s: State) returns (run: seq<Action>)
    requires Inv(s) && InReplay(s) && Load(s) > CHANNEL_SLOTS
    ensures Runs(s, run) && StaysIn(run)
    ensures var s' := After(s, run);
      InReplay(s') && |Cur(s').buf| == CHANNEL_SLOTS && Cur(s').phase.acking.None? && Cur(s').phase.jobs != []
    decreases Remaining(s)
  {
    assert ConnOk(Cur(s));
    if |Cur(s).buf| == CHANNEL_SLOTS && Cur(s).phase.acking.None? {
      return [];
    }
    var a := if Cur(s).phase.acking.Some? then ReplayAck else ReplayPush;
    ReplayStep(s, a);
    StepKeeps(s, a);
    var rest := OverloadFillsUp(Apply(s, a));
    run := [a] + rest;
    assert run[1..] == rest;
    assert forall i | 0 < i < |run| :: run[i] == rest[i - 1];
  }

  /** Once blocked it stays blocked: nothing is moved or written, whatever else happens. */
  lemma {:induction false} StuckReplay(s: State, run: seq<Action>)
    requires InReplay(s) && |Cur(s).buf| >= CHANNEL_SLOTS && Cur(s).phase.acking.None? && Cur(s).phase.jobs != []
    requires Runs(s, run) && NoShutdown(run)
    ensures var s' := After(s, run);
      && |s'.conns| == |s.conns| && Live(s') && Cur(s') == Cur(s) && s'.wire == s.wire
      && InReplay(s') && !Enabled(s', ReplayPush)
    decreases |run|
  {
    if run == [] {
    } else {
      var s1 := Apply(s, run[0]);
      assert |s1.conns| == |s.conns| && Cur(s1) == Cur(s) && s1.wire == s.wire;
      assert forall i | 0 <= i < |run[1..]| :: run[1..][i] == run[i + 1];
      StuckReplay(s1, run[1..]);
    }
  }

  /** Replay can end by itself exactly when what was popped fits beside what the channel holds. */
  lemma ReplayFinishesExactlyWhen(s: State)
    requires Inv(s) && InReplay(s)
    ensures (exists run :: Runs(s, run) && NoShutdown(run) && !InReplay(After(s, run))) <==> Load(s) <= 64
  {
    if Load(s) <= CHANNEL_SLOTS {
      var run := FittingReplayFinishes(s);
      ReplayDelivers(s, run);
      var whole := run + [ReplayDone];
      assert Runs(s, whole) && NoShutdown(whole) && !InReplay(After(s, whole));
    } else {
      forall run | Runs(s, run) && NoShutdown(run)
        ensures InReplay(After(s, run))
      {
        OverloadedReplayWedges(s, run);
      }
    }
  }
}
