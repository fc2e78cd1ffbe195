/**
 What the client's calls do to the protocol when nothing comes between their steps: each
 is a run, and its outcome is a state given outright.
 */
module DeliveryCalls {
  import opened Prelude
  import opened Frames
  import opened Bucket
  import opened Delivery
  import opened DeliveryInvariant
  import opened DeliveryTheorems
  import opened QueueKeys

  predicate Room(s: State) { Live(s) && |Cur(s).buf| < CHANNEL_SLOTS }

  /** The state after a Send that nothing interrupts. */
  function Sent(s: State, corr: Bytes): State {
    var env := Env(s.nextId, s.lastNum + 1, corr);
    var t := s.(lastNum := s.lastNum + 1, nextId := s.nextId + 1, sent := s.sent + [env]);
    if Room(s) then SetCur(t, Cur(s).(buf := Cur(s).buf + [env]))
    else t.(disk := Put(s.disk, env.Key(), env))
  }

  /** Send up to where it has looked at the channel; its key is free on disk. */
  lemma SendBegin(run: seq<Action>, s: State, corr: Bytes)
    requires Reached(run, s) && FreshCorrelation(s, corr)
    ensures var env := Env(s.nextId, s.lastNum + 1, corr);
      && Reached(run + [SendStart(corr)] + [SendPick(|s.senders|)],
                 s.(lastNum := s.lastNum + 1, nextId := s.nextId + 1, sent := s.sent + [env],
                    senders := s.senders + [Sender(env, Picked(if Live(s) then Some(|s.conns| - 1) else None))]))
      && Get(s.disk, env.Key()).None?
  {
    var i, s1 := |s.senders|, Apply(s, SendStart(corr));
    Extend(run, s, SendStart(corr));
    ReachedInv(run + [SendStart(corr)], s1);
    QueueKeyFree(s1, i);
    Extend(run + [SendStart(corr)], s1, SendPick(i));
  }

  /** The key on disk: the correlation id, or "seq-" and the number in decimal. */
  lemma FiledUnder(run: seq<Action>, s: State, corr: Bytes)
    requires Reached(run, s)
    ensures var env := Env(s.nextId, s.lastNum + 1, corr);
      && (corr != [] ==> env.Key() == corr)
      && (corr == [] ==> env.Key() == [115, 101, 113, 45] + DecimalText(env.num))
      && Get(Put(s.disk, env.Key(), env), env.Key()) == Some(env)
  {
    var env := Env(s.nextId, s.lastNum + 1, corr);
    ReachedInv(run, s);
    GetPut(s.disk, env.Key(), env, env.Key());
  }

  lemma SendCall(run: seq<Action>, s: State, corr: Bytes) returns (run': seq<Action>)
    requires Reached(run, s) && FreshCorrelation(s, corr)
    ensures Reached(run', Sent(s, corr)) && run <= run'
    ensures Get(s.disk, Env(s.nextId, s.lastNum + 1, corr).Key()).None?
    ensures var env := Env(s.nextId, s.lastNum + 1, corr);
      !Room(s) ==>
        && (corr != [] ==> Get(Sent(s, corr).disk, corr) == Some(env))
        && (corr == [] ==> Get(Sent(s, corr).disk, [115, 101, 113, 45] + DecimalText(env.num)) == Some(env))
  {
    FiledUnder(run, s, corr);
    var i, env := |s.senders|, Env(s.nextId, s.lastNum + 1, corr);
    SendBegin(run, s, corr);
    var begun := run + [SendStart(corr)] + [SendPick(i)];
    var s1 := s.(lastNum := s.lastNum + 1, nextId := s.nextId + 1, sent := s.sent + [env],
                 senders := s.senders + [Sender(env, Picked(if Live(s) then Some(|s.conns| - 1) else None))]);
    assert Remove(s1.senders, i) == s.senders;
    if Room(s) {
      Extend(begun, s1, SendPush(i));
      run' := begun + [SendPush(i)];
    } else {
      SpillCall(begun, s1, i);
      run' := begun + [SendSpill(i)] + [SendQueue(i)];
    }
  }

  /** A sender that found no room puts its envelope on disk and returns. */
  lemma SpillCall(run: seq<Action>, s: State, i: nat)
    requires Reached(run, s) && Enabled(s, SendSpill(i))
    ensures Reached(run + [SendSpill(i)] + [SendQueue(i)],
                    s.(disk := Put(s.disk, s.senders[i].env.Key(), s.senders[i].env), senders := Remove(s.senders, i)))
  {
    var s1 := Apply(s, SendSpill(i));
    Extend(run, s, SendSpill(i));
    Extend(run + [SendSpill(i)], s1, SendQueue(i));
    assert Remove(s1.senders, i) == Remove(s.senders, i);
  }

  /** The state after the register frame has been written. */
  function Registered(s: State): State {
    s.(lastNum := s.lastNum + 1, nextId := s.nextId + 1, wire := s.wire + [Env(s.nextId, s.lastNum + 1, [])],
       registered := true)
  }

  /** The state after the register frame could not be written: its number is gone. */
  function Unregistered(s: State): State {
    s.(lastNum := s.lastNum + 1, registered := false)
  }

  lemma RegisterCall(run: seq<Action>, s: State)
    requires Reached(run, s) && !Live(s)
    ensures Reached(run + [Register], Registered(s)) && Reached(run + [RegisterFail], Unregistered(s))
  {
    Extend(run, s, Register);
    Extend(run, s, RegisterFail);
  }

  /** The state after the publication of a new channel. */
  function Published(s: State): State {
    s.(conns := s.conns + [Conn(Opened, [], None, None)], registered := false)
  }

  lemma ConnectCall(run: seq<Action>, s: State)
    requires Reached(run, s) && !Live(s)
    ensures Reached(run + [Register] + [Open], Published(Registered(s)))
  {
    RegisterCall(run, s);
    Extend(run + [Register], Registered(s), Open);
  }

  /** The state in which a fetched batch is about to be replayed. */
  function Popped(s: State): State
    requires Live(s)
  {
    SetCur(s, Cur(s).(phase := Replaying(ValuesOf(s.disk[..Min(REPLAY_BATCH, |s.disk|)]), None)))
  }

  /** m envelopes moved from the front of the queue to the channel and acked. */
  function Moved(s: State, m: nat): State
    requires InReplay(s) && m <= |Cur(s).phase.jobs| && m <= |s.disk|
  {
    var jobs := Cur(s).phase.jobs;
    SetCur(s, Cur(s).(buf := Cur(s).buf + jobs[..m], phase := Replaying(jobs[m..], None))).(disk := s.disk[m..])
  }

  /** Every entry is filed under its envelope's own key. */
  lemma FiledUnderKey(run: seq<Action>, s: State)
    requires Reached(run, s)
    ensures forall i | 0 <= i < |s.disk| :: s.disk[i].key == s.disk[i].value.Key()
  {
    ReachedInv(run, s);
  }

  lemma MoveOne(run: seq<Action>, s: State)
    requires Reached(run, s) && InReplay(s) && Cur(s).phase.acking.None? && |Cur(s).buf| < CHANNEL_SLOTS
    requires s.disk != [] && Cur(s).phase.jobs != [] && Cur(s).phase.jobs[0] == s.disk[0].value
    ensures Reached(run + [ReplayPush] + [ReplayAck], Moved(s, 1))
  {
    var s1 := Apply(s, ReplayPush);
    FiledUnderKey(run, s);
    Extend(run, s, ReplayPush);
    Extend(run + [ReplayPush], s1, ReplayAck);
    assert Cur(s).phase.jobs[..1] == [Cur(s).phase.jobs[0]];
    assert Delete(s.disk, s.disk[0].key) == s.disk[1..];
    assert Apply(s1, ReplayAck).conns == Moved(s, 1).conns;
  }

  lemma MovedMore(s: State, m: nat)
    requires InReplay(s) && 0 < m <= |Cur(s).phase.jobs| && m <= |s.disk|
    ensures Moved(Moved(s, 1), m - 1) == Moved(s, m)
  {
    var jobs := Cur(s).phase.jobs;
    assert jobs[1..][m - 1..] == jobs[m..] && s.disk[1..][m - 1..] == s.disk[m..];
    assert jobs[..1] + jobs[1..][..m - 1] == jobs[..m];
    assert Cur(s).buf + jobs[..1] + jobs[1..][..m - 1] == Cur(s).buf + jobs[..m];
    assert Moved(Moved(s, 1), m - 1).conns == Moved(s, m).conns;
  }

  lemma {:induction false} MoveMany(run: seq<Action>, s: State, m: nat) returns (run': seq<Action>)
    requires Reached(run, s) && InReplay(s) && Cur(s).phase.acking.None?
    requires m <= |Cur(s).phase.jobs| <= |s.disk| && |Cur(s).buf| + m <= CHANNEL_SLOTS
    requires forall i | 0 <= i < |Cur(s).phase.jobs| :: Cur(s).phase.jobs[i] == s.disk[i].value
    ensures Reached(run', Moved(s, m)) && run <= run'
    decreases m
  {
    if m == 0 {
      assert Cur(s).buf + Cur(s).phase.jobs[..0] == Cur(s).buf && Cur(s).phase.jobs[0..] == Cur(s).phase.jobs;
      assert Moved(s, 0).conns == s.conns;
      return run;
    }
    MoveOne(run, s);
    MovedMore(s, m);
    run' := MoveMany(run + [ReplayPush] + [ReplayAck], Moved(s, 1), m - 1);
  }

  /** The state after a replay that moves m envelopes and leaves the rest to a later connection. */
  function Replayed(s: State, m: nat): State
    requires Live(s) && m <= Min(REPLAY_BATCH, |s.disk|)
  {
    SetCur(s, Cur(s).(buf := Cur(s).buf + ValuesOf(s.disk[..m]), phase := Pumping)).(disk := s.disk[m..])
  }

  lemma ReplayCall(run: seq<Action>, s: State, m: nat) returns (run': seq<Action>)
    requires Reached(run, s) && Live(s) && Cur(s).phase.Opened?
    requires m <= Min(REPLAY_BATCH, |s.disk|) && |Cur(s).buf| + m <= CHANNEL_SLOTS
    ensures Reached(run', Replayed(s, m)) && run <= run'
  {
    var s1 := Popped(s);
    var jobs := Cur(s1).phase.jobs;
    Extend(run, s, Pop);
    var moved := MoveMany(run + [Pop], s1, m);
    var s2 := Moved(s1, m);
    assert jobs[..m] == ValuesOf(s.disk[..m]);
    var last := if m == |jobs| then ReplayDone else Shutdown;
    Extend(moved, s2, last);
    assert Apply(s2, last).conns == Replayed(s, m).conns;
    run' := moved + [last];
  }

  /** What the writer puts on the wire for the given envelopes, numbering from n on. */
  function Numbered(n: nat, es: seq<Env>): seq<Env>
    decreases |es|
  {
    if es == [] then [] else
      var rest, e := Numbered(n, es[..|es| - 1]), es[|es| - 1];
      rest + [if e.num == 0 then e.(num := Unnumbered(es[..|es| - 1]) + n + 1) else e]
  }

  /** How many of them get their number from the writer. */
  function Unnumbered(es: seq<Env>): nat
    decreases |es|
  {
    if es == [] then 0 else Unnumbered(es[..|es| - 1]) + One(es[|es| - 1].num == 0)
  }

  lemma NumberedNext(n: nat, es: seq<Env>, i: nat)
    requires i < |es|
    ensures Unnumbered(es[..i + 1]) == Unnumbered(es[..i]) + One(es[i].num == 0)
    ensures Numbered(n, es[..i + 1])
         == Numbered(n, es[..i]) + [if es[i].num == 0 then es[i].(num := n + Unnumbered(es[..i]) + 1) else es[i]]
  {
    assert es[..i + 1][..i] == es[..i];
  }

  /** The writer changes nothing but missing numbers, which it draws in order. */
  lemma {:induction false} NumberedExactly(n: nat, es: seq<Env>)
    ensures |Numbered(n, es)| == |es|
    ensures forall i | 0 <= i < |es| ::
      var e := Numbered(n, es)[i];
      e.id == es[i].id && e.corr == es[i].corr
      && e.num == if es[i].num != 0 then es[i].num else n + 1 + Unnumbered(es[..i])
    decreases |es|
  {
    if es == [] {
    } else {
      var front := es[..|es| - 1];
      NumberedExactly(n, front);
      forall i | 0 <= i < |front| ensures es[..i] == front[..i] {
      }
    }
  }

  lemma {:induction false} UnnumberedCounts(es: seq<Env>)
    ensures (forall i | 0 <= i < |es| :: es[i].num != 0) ==> Unnumbered(es) == 0
    decreases |es|
  {
    if es == [] {
    } else {
      UnnumberedCounts(es[..|es| - 1]);
    }
  }

  /** What already has its numbers goes out as it is. */
  lemma NumberedAlready(n: nat, es: seq<Env>)
    requires forall i | 0 <= i < |es| :: es[i].num != 0
    ensures Numbered(n, es) == es && Unnumbered(es) == 0
  {
    NumberedExactly(n, es);
    UnnumberedCounts(es);
    forall i | 0 <= i < |es| ensures Numbered(n, es)[i] == es[i] {
    }
  }

  /** Everything on disk was numbered by Send. */
  lemma QueueIsNumbered(run: seq<Action>, s: State)
    requires Reached(run, s)
    ensures forall i | 0 <= i < |s.disk| :: s.disk[i].value.num != 0
  {
    ReachedInv(run, s);
    forall i | 0 <= i < |s.disk| ensures s.disk[i].value.num != 0 {
      var j :| 0 <= j < |s.sent| && s.sent[j] == s.disk[i].value;
    }
  }

  predicate Pumps(s: State) { Live(s) && Cur(s).phase.Pumping? && Cur(s).hand.None? }

  /** The state after n successful writes. */
  function Written(s: State, n: nat): State
    requires Live(s) && n <= |Cur(s).buf|
  {
    SetCur(s, Cur(s).(buf := Cur(s).buf[n..]))
      .(lastNum := s.lastNum + Unnumbered(Cur(s).buf[..n]), wire := s.wire + Numbered(s.lastNum, Cur(s).buf[..n]))
  }

  function WrittenOne(s: State): State
    requires Live(s) && Cur(s).buf != []
  {
    SetCur(s, Cur(s).(buf := Cur(s).buf[1..]))
      .(lastNum := s.lastNum + One(Cur(s).buf[0].num == 0), wire := s.wire + [Stamp(s, Cur(s).buf[0])])
  }

  lemma WriteOne(run: seq<Action>, s: State)
    requires Reached(run, s) && Pumps(s) && Cur(s).buf != []
    ensures Reached(run + [Take] + [WriteOk], WrittenOne(s))
  {
    var s1 := Apply(s, Take);
    Extend(run, s, Take);
    Extend(run + [Take], s1, WriteOk);
    assert Apply(s1, WriteOk).conns == WrittenOne(s).conns;
  }

  lemma WrittenMore(s: State, n: nat)
    requires Pumps(s) && 0 < n <= |Cur(s).buf|
    ensures Written(s, n) == WrittenOne(Written(s, n - 1))
  {
    var buf, s1 := Cur(s).buf, Written(s, n - 1);
    assert Cur(s1).buf == buf[n - 1..] && buf[n - 1..][0] == buf[n - 1] && buf[n - 1..][1..] == buf[n..];
    NumberedNext(s.lastNum, buf, n - 1);
    assert buf[..n - 1 + 1] == buf[..n];
    assert WrittenOne(s1).conns == Written(s, n).conns;
    assert WrittenOne(s1).wire == Written(s, n).wire;
  }

  lemma {:induction false} WriteMany(run: seq<Action>, s: State, n: nat) returns (run': seq<Action>)
    requires Reached(run, s) && Pumps(s) && n <= |Cur(s).buf|
    ensures Reached(run', Written(s, n)) && run <= run'
    decreases n
  {
    if n == 0 {
      assert Written(s, 0).conns == s.conns && s.wire + [] == s.wire;
      return run;
    }
    var before := WriteMany(run, s, n - 1);
    WriteOne(before, Written(s, n - 1));
    WrittenMore(s, n);
    run' := before + [Take] + [WriteOk];
  }

  /** The state after the write loop has ended: with a failed write, which loses one more envelope, or without. */
  function Stopped(s: State, ok: bool): State
    requires Live(s) && (!ok ==> Cur(s).buf != [])
  {
    if ok then SetCur(s, Cur(s).(phase := Closing))
    else
      var e := Cur(s).buf[0];
      SetCur(s, Cur(s).(buf := Cur(s).buf[1..], hand := None, lost := Some(Stamp(s, e)), phase := Closing))
        .(lastNum := s.lastNum + One(e.num == 0))
  }

  lemma StopCall(run: seq<Action>, s: State, ok: bool) returns (run': seq<Action>)
    requires Reached(run, s) && Pumps(s) && (!ok ==> Cur(s).buf != [])
    ensures Reached(run', Stopped(s, ok)) && run <= run'
  {
    if ok {
      Extend(run, s, Stop);
      run' := run + [Stop];
    } else {
      var s1 := Apply(s, Take);
      Extend(run, s, Take);
      Extend(run + [Take], s1, WriteFail);
      assert Apply(s1, WriteFail).conns == Stopped(s, ok).conns;
      run' := run + [Take] + [WriteFail];
    }
  }

  lemma NothingLostYet(run: seq<Action>, s: State)
    requires Reached(run, s) && Live(s) && Cur(s).phase.Pumping?
    ensures Cur(s).lost.None?
  {
    ReachedInv(run, s);
    assert ConnOk(Cur(s));
  }

  /** An enqueue under a free key adds one entry, and all others stay. */
  lemma PutNew(run: seq<Action>, s: State, key: Bytes, env: Env)
    requires Reached(run, s) && Get(s.disk, key).None?
    ensures |Put(s.disk, key, env)| == |s.disk| + 1
    ensures forall k: Bytes :: Get(Put(s.disk, key, env), k) == if k == key then Some(env) else Get(s.disk, k)
  {
    ReachedInv(run, s);
    PutLength(s.disk, key, env);
    forall k: Bytes ensures Get(Put(s.disk, key, env), k) == (if k == key then Some(env) else Get(s.disk, k)) {
      GetPut(s.disk, key, env, k);
    }
  }

  lemma ChannelFits(run: seq<Action>, s: State)
    requires Reached(run, s) && Live(s)
    ensures |Cur(s).buf| <= CHANNEL_SLOTS
  {
    ReachedInv(run, s);
    assert ConnOk(Cur(s));
  }

  predicate InReplay(s: State) { Live(s) && Cur(s).phase.Replaying? }
}
