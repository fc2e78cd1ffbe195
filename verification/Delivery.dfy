/**
 The WSS delivery protocol as a step system. Envelopes move between callers of Send,
 the on-disk queue, the 64-slot channel of a connection, the writer's hand and the
 wire, while connections come and go.
 */
module Delivery {
  import opened Prelude
  import opened Frames
  import opened Bucket
  import opened QueueKeys

  const CHANNEL_SLOTS: nat := 64
  const REPLAY_BATCH: nat := 100

  /** `id` tells envelopes apart; `num` is the Seq field, 0 while unset. */
  datatype Env = Env(id: nat, num: nat, corr: Bytes)
  {
    function Key(): Bytes { KeyFor(corr, num) }
  }

  datatype SendPc =
    | Fresh
    | Picked(out: Option<nat>)  // the channel read under the lock, by connection number
    | Spilling                  // no room or no connection: bound for the disk

  datatype Sender = Sender(env: Env, pc: SendPc)

  datatype Phase =
    | Opened                                             // published, queue not yet read
    | Replaying(jobs: seq<Env>, acking: Option<Env>)     // no loop is running yet
    | Pumping
    | Closing                                            // the writer has exited
    | Dead                                               // unpublished; stale senders may still hold it

  /** A connection: its channel, what its writer holds, what a failed write lost. */
  datatype Conn = Conn(phase: Phase, buf: seq<Env>, hand: Option<Env>, lost: Option<Env>)

  datatype State = State(
    lastNum: nat, nextId: nat, disk: seq<Entry<Env>>, conns: seq<Conn>, senders: seq<Sender>,
    wire: seq<Env>, sent: seq<Env>, registered: bool)

  const INIT: State := State(0, 0, [], [], [], [], [], false)

  datatype Action =
    | SendStart(corr: Bytes) | SendPick(i: nat) | SendPush(i: nat) | SendSpill(i: nat) | SendQueue(i: nat)
    | Register | RegisterFail | Open | Pop
    | ReplayPush | ReplayAck | ReplayDone | Shutdown
    | Heartbeat | Take | WriteOk | WriteFail | Stop | Unpublish

  predicate Live(s: State) {
    s.conns != [] && !s.conns[|s.conns| - 1].phase.Dead?
  }

  /** The connection being run. */
  function Cur(s: State): Conn
    requires s.conns != []
  {
    s.conns[|s.conns| - 1]
  }

  function SetCur(s: State, c: Conn): State
    requires s.conns != []
  {
    s.(conns := s.conns[|s.conns| - 1 := c])
  }

  function Remove<T>(xs: seq<T>, i: nat): seq<T>
    requires i < |xs|
  {
    xs[..i] + xs[i + 1..]
  }

  function ValuesOf(b: seq<Entry<Env>>): seq<Env> {
    seq(|b|, i requires 0 <= i < |b| => b[i].value)
  }

  /** Callers reuse no correlation id and none that looks like a numbered key. */
  predicate FreshCorrelation(s: State, corr: Bytes) {
    corr == [] || (!(SEQ_PREFIX <= corr) && forall i | 0 <= i < |s.sent| :: s.sent[i].corr != corr)
  }

  predicate Enabled(s: State, a: Action) {
    match a
    case SendStart(corr) => FreshCorrelation(s, corr)
    case SendPick(i) => i < |s.senders| && s.senders[i].pc.Fresh?
    case SendPush(i) =>
      && i < |s.senders| && s.senders[i].pc.Picked? && s.senders[i].pc.out.Some?
      && s.senders[i].pc.out.value < |s.conns|
      && |s.conns[s.senders[i].pc.out.value].buf| < CHANNEL_SLOTS
    case SendSpill(i) =>
      && i < |s.senders| && s.senders[i].pc.Picked?
      && (s.senders[i].pc.out.Some? ==>
            s.senders[i].pc.out.value < |s.conns|
            && |s.conns[s.senders[i].pc.out.value].buf| >= CHANNEL_SLOTS)
    case SendQueue(i) => i < |s.senders| && s.senders[i].pc.Spilling?
    case Register => !Live(s)
    case RegisterFail => !Live(s)
    case Open => !Live(s) && s.registered
    case Pop => Live(s) && Cur(s).phase.Opened?
    case ReplayPush =>
      && Live(s) && Cur(s).phase.Replaying? && Cur(s).phase.jobs != [] && Cur(s).phase.acking.None?
      && |Cur(s).buf| < CHANNEL_SLOTS
    case ReplayAck => Live(s) && Cur(s).phase.Replaying? && Cur(s).phase.acking.Some?
    case ReplayDone =>
      Live(s) && Cur(s).phase.Replaying? && Cur(s).phase.jobs == [] && Cur(s).phase.acking.None?
    case Shutdown => Live(s) && Cur(s).phase.Replaying? && Cur(s).phase.acking.None?
    case Heartbeat =>
      Live(s) && (Cur(s).phase.Pumping? || Cur(s).phase.Closing?) && |Cur(s).buf| < CHANNEL_SLOTS
    case Take => Live(s) && Cur(s).phase.Pumping? && Cur(s).hand.None? && Cur(s).buf != []
    case WriteOk => Live(s) && Cur(s).phase.Pumping? && Cur(s).hand.Some?
    case WriteFail => Live(s) && Cur(s).phase.Pumping? && Cur(s).hand.Some?
    case Stop => Live(s) && Cur(s).phase.Pumping? && Cur(s).hand.None?
    case Unpublish => Live(s) && Cur(s).phase.Closing?
  }

  /** The writer numbers an envelope that has no number yet. */
  function Stamp(s: State, e: Env): Env {
    if e.num == 0 then e.(num := s.lastNum + 1) else e
  }

  function Apply(s: State, a: Action): State
    requires Enabled(s, a)
  {
    match a
    case SendStart(corr) =>
      var e := Env(s.nextId, s.lastNum + 1, corr);
      s.(lastNum := s.lastNum + 1, nextId := s.nextId + 1,
         senders := s.senders + [Sender(e, Fresh)], sent := s.sent + [e])
    case SendPick(i) =>
      s.(senders := s.senders[i := s.senders[i].(pc := Picked(if Live(s) then Some(|s.conns| - 1) else None))])
    case SendPush(i) =>
      var c := s.senders[i].pc.out.value;
      s.(conns := s.conns[c := s.conns[c].(buf := s.conns[c].buf + [s.senders[i].env])],
         senders := Remove(s.senders, i))
    case SendSpill(i) => s.(senders := s.senders[i := s.senders[i].(pc := Spilling)])
    case SendQueue(i) =>
      s.(disk := Put(s.disk, s.senders[i].env.Key(), s.senders[i].env), senders := Remove(s.senders, i))
    case Register =>
      s.(lastNum := s.lastNum + 1, nextId := s.nextId + 1,
         wire := s.wire + [Env(s.nextId, s.lastNum + 1, [])], registered := true)
    case RegisterFail => s.(lastNum := s.lastNum + 1, registered := false)
    case Open => s.(conns := s.conns + [Conn(Opened, [], None, None)], registered := false)
    case Pop => SetCur(s, Cur(s).(phase := Replaying(ValuesOf(s.disk[..Min(REPLAY_BATCH, |s.disk|)]), None)))
    case ReplayPush =>
      var c := Cur(s);
      SetCur(s, c.(buf := c.buf + [c.phase.jobs[0]],
                   phase := Replaying(c.phase.jobs[1..], Some(c.phase.jobs[0]))))
    case ReplayAck =>
      var c := Cur(s);
      SetCur(s, c.(phase := c.phase.(acking := None))).(disk := Delete(s.disk, c.phase.acking.value.Key()))
    case ReplayDone => SetCur(s, Cur(s).(phase := Pumping))
    case Shutdown => SetCur(s, Cur(s).(phase := Pumping))
    case Heartbeat =>
      SetCur(s, Cur(s).(buf := Cur(s).buf + [Env(s.nextId, 0, [])])).(nextId := s.nextId + 1)
    case Take =>
      var e := Cur(s).buf[0];
      SetCur(s, Cur(s).(buf := Cur(s).buf[1..], hand := Some(Stamp(s, e))))
        .(lastNum := if e.num == 0 then s.lastNum + 1 else s.lastNum)
    case WriteOk => SetCur(s, Cur(s).(hand := None)).(wire := s.wire + [Cur(s).hand.value])
    case WriteFail => SetCur(s, Cur(s).(hand := None, lost := Cur(s).hand, phase := Closing))
    case Stop => SetCur(s, Cur(s).(phase := Closing))
    case Unpublish => SetCur(s, Cur(s).(phase := Dead))
  }

  predicate Runs(s: State, run: seq<Action>)
    decreases |run|
  {
    run == [] || (Enabled(s, run[0]) && Runs(Apply(s, run[0]), run[1..]))
  }

  function After(s: State, run: seq<Action>): State
    requires Runs(s, run)
    decreases |run|
  {
    if run == [] then s else After(Apply(s, run[0]), run[1..])
  }
}
