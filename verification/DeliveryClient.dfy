/**
 The client's own code over the fields it updates: Send, replayQueue, writeLoop, and the
 connection around them, each taken as one uninterrupted call. Every call is a run of the
 delivery protocol, so what is proved of all runs holds of the fields.
 */
module DeliveryClient {
  import opened Prelude
  import opened Frames
  import opened Bucket
  import opened Delivery
  import opened DeliveryLedger
  import opened DeliveryInvariant
  import opened DeliveryTheorems
  import opened QueueKeys
  import opened DeliveryCalls

  /** No call is under way. */
  predicate Quiet(s: State) {
    s.senders == [] && (Live(s) ==> !Cur(s).phase.Replaying? && Cur(s).hand.None?)
  }

  /** The client's fields, as far as the protocol state shows them. */
  predicate Shows(s: State, seqNum: nat, created: nat, out: Option<seq<Env>>, queue: seq<Entry<Env>>, wire: seq<Env>) {
    && Quiet(s)
    && s.lastNum == seqNum && s.nextId == created && s.disk == queue && s.wire == wire
    && out == (if Live(s) then Some(Cur(s).buf) else None)
  }

  // ---- what has been lost -----------------------------------------------------------------------

  /** `dropped` lists what all connections so far have lost. */
  ghost predicate Accounts(s: State, dropped: seq<Env>) {
    forall x: nat :: Dropped(HasId(x), s.conns) == OfSeq(HasId(x), dropped)
  }

  lemma {:induction false} DroppedSet(f: Weight, cs: seq<Conn>, i: nat, c: Conn)
    requires i < |cs|
    ensures Dropped(f, cs[i := c]) + DroppedBy(f, cs[i]) == Dropped(f, cs) + DroppedBy(f, c)
  {
    if i == 0 {
      assert cs[0 := c][1..] == cs[1..];
    } else {
      DroppedSet(f, cs[1..], i - 1, c);
      assert cs[i := c][1..] == cs[1..][i - 1 := c];
    }
  }

  lemma {:induction false} DroppedAppend(f: Weight, cs: seq<Conn>, c: Conn)
    ensures Dropped(f, cs + [c]) == Dropped(f, cs) + DroppedBy(f, c)
  {
    if cs == [] {
      assert [c][1..] == [] && cs + [c] == [c];
    } else {
      DroppedAppend(f, cs[1..], c);
      assert (cs + [c])[1..] == cs[1..] + [c];
    }
  }

  lemma {:induction false} OfAppend(f: Weight, a: seq<Env>, b: seq<Env>)
    ensures OfSeq(f, a + b) == OfSeq(f, a) + OfSeq(f, b)
  {
    if a == [] {
      assert a + b == b;
    } else {
      assert (a + b)[1..] == a[1..] + b;
      OfAppend(f, a[1..], b);
    }
  }

  /** The connection being run changes, and loses `gone` by it. */
  lemma Loses(s: State, c: Conn, s': State, dropped: seq<Env>, gone: seq<Env>)
    requires Accounts(s, dropped) && s.conns != [] && s'.conns == s.conns[|s.conns| - 1 := c]
    requires forall x: nat :: DroppedBy(HasId(x), c) == DroppedBy(HasId(x), Cur(s)) + OfSeq(HasId(x), gone)
    ensures Accounts(s', dropped + gone)
  {
    forall x: nat ensures Dropped(HasId(x), s'.conns) == OfSeq(HasId(x), dropped + gone) {
      DroppedSet(HasId(x), s.conns, |s.conns| - 1, c);
      OfAppend(HasId(x), dropped, gone);
    }
  }

  /** A live connection that loses nothing. */
  lemma LosesNothing(s: State, s': State, dropped: seq<Env>)
    requires Accounts(s, dropped) && Live(s) && Live(s') && Cur(s').lost == Cur(s).lost
    requires s'.conns == s.conns[|s.conns| - 1 := Cur(s')]
    ensures Accounts(s', dropped)
  {
    Loses(s, Cur(s'), s', dropped, []);
    assert dropped + [] == dropped;
  }

  lemma OpensEmpty(s: State, s': State, c: Conn, dropped: seq<Env>)
    requires Accounts(s, dropped) && s'.conns == s.conns + [c] && c.lost.None? && c.buf == []
    ensures Accounts(s', dropped)
  {
    forall x: nat ensures Dropped(HasId(x), s'.conns) == OfSeq(HasId(x), dropped) {
      DroppedAppend(HasId(x), s.conns, c);
    }
  }

  /** With all earlier connections dead, only the one being run holds anything. */
  lemma {:induction false} HeldIsLast(f: Weight, cs: seq<Conn>)
    requires forall i | 0 <= i < |cs| - 1 :: cs[i].phase.Dead?
    ensures Held(f, cs) == if cs == [] then 0 else HeldBy(f, cs[|cs| - 1])
  {
    if |cs| <= 1 {
    } else {
      assert forall i | 0 <= i < |cs[1..]| - 1 :: cs[1..][i] == cs[i + 1];
      HeldIsLast(f, cs[1..]);
    }
  }

  lemma {:induction false} DiskWhole(f: Weight, s: State)
    requires Quiet(s)
    ensures OnDisk(f, s) == OfDisk(f, s.disk)
  {
  }

  /** Where an envelope can be, by the client's fields. */
  function Places(f: Weight, queue: seq<Entry<Env>>, out: Option<seq<Env>>, wire: seq<Env>, dropped: seq<Env>): nat {
    OfDisk(f, queue) + (if out.Some? then OfSeq(f, out.value) else 0) + OfSeq(f, wire) + OfSeq(f, dropped)
  }

  lemma FieldsConserve(run: seq<Action>, s: State, dropped: seq<Env>, x: nat)
    requires Reached(run, s) && Quiet(s) && Accounts(s, dropped) && x < s.nextId
    ensures Places(HasId(x), s.disk, if Live(s) then Some(Cur(s).buf) else None, s.wire, dropped) == 1
  {
    Conservation(run, s, x);
    ReachedInv(run, s);
    DiskWhole(HasId(x), s);
    HeldIsLast(HasId(x), s.conns);
  }

  lemma RegisterSteps(run: seq<Action>, s: State, dropped: seq<Env>)
    requires Reached(run, s) && !Live(s) && Accounts(s, dropped)
    ensures Reached(run + [RegisterFail], Unregistered(s)) && Accounts(Unregistered(s), dropped)
    ensures Reached(run + [Register], Registered(s)) && Accounts(Registered(s), dropped)
  {
    RegisterCall(run, s);
  }

  lemma OpenSteps(run: seq<Action>, s: State, dropped: seq<Env>)
    requires Reached(run, s) && !Live(s) && s.registered && Accounts(s, dropped)
    ensures Reached(run + [Open], Published(s)) && Accounts(Published(s), dropped)
  {
    Extend(run, s, Open);
    OpensEmpty(s, Published(s), Conn(Opened, [], None, None), dropped);
  }

  /** A send as a run, in terms of what the fields show. */
  lemma SendSteps(run: seq<Action>, s: State, corr: Bytes, dropped: seq<Env>) returns (run': seq<Action>)
    requires Reached(run, s) && Quiet(s) && Accounts(s, dropped) && FreshCorrelation(s, corr)
    ensures var env, s' := Env(s.nextId, s.lastNum + 1, corr), Sent(s, corr);
      && Reached(run', s') && run <= run' && Accounts(s', dropped) && Quiet(s')
      && s'.lastNum == s.lastNum + 1 && s'.nextId == s.nextId + 1 && s'.wire == s.wire && s'.sent == s.sent + [env]
      && (Live(s') <==> Live(s))
      && (Live(s) ==>
            && Cur(s').phase == Cur(s).phase
            && Cur(s').buf == if Room(s) then Cur(s).buf + [env] else Cur(s).buf)
      && s'.disk == (if Room(s) then s.disk else Put(s.disk, env.Key(), env))
      && (!Room(s) ==> |s'.disk| == |s.disk| + 1 && Get(s.disk, env.Key()).None?)
      && forall k: Bytes ::
           Get(s'.disk, k) == if !Room(s) && k == env.Key() then Some(env) else Get(s.disk, k)
  {
    run' := SendCall(run, s, corr);
    if Room(s) {
      LosesNothing(s, Sent(s, corr), dropped);
    } else {
      var env := Env(s.nextId, s.lastNum + 1, corr);
      PutNew(run, s, env.Key(), env);
    }
  }

  /** The write loop as a run: n writes, then the end, which may lose one more envelope. */
  lemma WriteCall(run: seq<Action>, s: State, dropped: seq<Env>, n: nat, ok: bool)
    returns (run': seq<Action>, gone: seq<Env>)
    requires Reached(run, s) && Pumps(s) && Accounts(s, dropped) && n + One(!ok) <= |Cur(s).buf|
    ensures var buf, s' := Cur(s).buf, Stopped(Written(s, n), ok);
      && Reached(run', s') && run <= run' && Accounts(s', dropped + gone)
      && |gone| == One(!ok) && (!ok ==> gone[0].id == buf[n].id)
      && s'.lastNum == s.lastNum + Unnumbered(buf[..n + One(!ok)]) && Cur(s').buf == buf[n + One(!ok)..]
  {
    var buf, mid := Cur(s).buf, Written(s, n);
    run' := WriteMany(run, s, n);
    NothingLostYet(run', mid);
    LosesNothing(s, mid, dropped);
    if !ok {
      NumberedNext(s.lastNum, buf, n);
    }
    run' := StopCall(run', mid, ok);
    gone := if ok then [] else [Stamp(mid, Cur(mid).buf[0])];
    Loses(mid, Cur(Stopped(mid, ok)), Stopped(mid, ok), dropped, gone);
  }

  // ---- the client ----------------------------------------------------------------------------------

  class Client {
    var seqNum: nat
    var created: nat                // identities handed out so far
    var out: Option<seq<Env>>       // the connection's channel, if there is one
    var queue: seq<Entry<Env>>
    var wire: seq<Env>
    ghost var dropped: seq<Env>     // lost with connections so far
    ghost var world: State          // where the protocol stands
    ghost var history: seq<Action>  // and how it got there

    ghost predicate Valid()
      reads this
    {
      && Reached(history, world) && Accounts(world, dropped)
      && Shows(world, seqNum, created, out, queue, wire)
    }

    /** Connected, and as far as the given phase. */
    ghost predicate At(phase: Phase)
      reads this
    {
      out.Some? && Live(world) && Cur(world).phase == phase
    }

    constructor ()
      ensures Valid() && history == [] && out.None? && world == INIT
      ensures seqNum == 0 && created == 0 && queue == [] && wire == [] && dropped == []
    {
      seqNum, created, out, queue, wire := 0, 0, None, [], [];
      world, history, dropped := INIT, [], [];
    }

    /** The register frame: written unless the write fails, with a number drawn either way. */
    method Register(wrote: bool)
      requires Valid() && out.None?
      modifies `seqNum, `created, `wire, `world, `history
      ensures Valid() && old(history) <= history && world.sent == old(world.sent) && world.registered == wrote
      ensures seqNum == old(seqNum) + 1 && created == old(created) + One(wrote)
      ensures wire == old(wire) + if wrote then [Env(old(created), seqNum, [])] else []
    {
      RegisterSteps(history, world, dropped);
      seqNum := seqNum + 1;
      if wrote {
        wire := wire + [Env(created, seqNum, [])];
        created := created + 1;
        history, world := history + [Delivery.Register], Registered(world);
      } else {
        history, world := history + [RegisterFail], Unregistered(world);
      }
    }

    /** The handshake, and the publication of a new channel if it completes. */
    method Connect(wrote: bool, acked: bool) returns (ok: bool)
      requires Valid() && out.None?
      modifies this
      ensures Valid() && old(history) <= history && world.sent == old(world.sent)
      ensures ok == (wrote && acked)
      ensures if ok then out == Some([]) && At(Opened) else out.None?
      ensures seqNum == old(seqNum) + 1 && created == old(created) + One(wrote)
      ensures wire == old(wire) + if wrote then [Env(old(created), seqNum, [])] else []
      ensures queue == old(queue) && dropped == old(dropped)
    {
      Register(wrote);
      ok := wrote && acked;
      if ok {
        OpenSteps(history, world, dropped);
        history, world := history + [Open], Published(world);
        out := Some([]);
      }
    }

    /** The deferred unpublication: what the channel still holds is lost. */
    method Disconnect()
      requires Valid() && At(Closing)
      modifies this
      ensures Valid() && old(history) <= history && out.None? && world.sent == old(world.sent)
      ensures dropped == old(dropped) + old(out).value
      ensures seqNum == old(seqNum) && created == old(created) && queue == old(queue) && wire == old(wire)
    {
      ghost var dead := Cur(world).(phase := Dead);
      Extend(history, world, Unpublish);
      Loses(world, dead, Apply(world, Unpublish), dropped, out.value);
      dropped := dropped + out.value;
      history, world := history + [Unpublish], Apply(world, Unpublish);
      out := None;
    }

    /** `Send`: into the channel if connected and there is room, otherwise onto the disk. */
    method Send(corr: Bytes) returns (env: Env)
      requires Valid() && FreshCorrelation(world, corr)
      modifies this
      ensures Valid() && old(history) <= history && world.sent == old(world.sent) + [env]
      ensures old(out).Some? ==> At(old(Cur(world).phase))
      ensures env == Env(old(created), old(seqNum) + 1, corr)
      ensures created == old(created) + 1 && seqNum == old(seqNum) + 1
      ensures var room := old(out).Some? && |old(out).value| < CHANNEL_SLOTS;
        && out == (if room then Some(old(out).value + [env]) else old(out))
        && (room ==> queue == old(queue))
        && (!room ==>
              && Get(queue, env.Key()) == Some(env) && |queue| == |old(queue)| + 1
              && Get(old(queue), env.Key()).None?)
        && (!room && corr != [] ==> Get(queue, corr) == Some(env))
        && (!room && corr == [] ==> Get(queue, [115, 101, 113, 45] + DecimalText(env.num)) == Some(env))
        && forall key: Bytes :: key != env.Key() ==> Get(queue, key) == Get(old(queue), key)
      ensures wire == old(wire) && dropped == old(dropped)
    {
      ghost var run := SendSteps(history, world, corr, dropped);
      env := Place(corr);
      history, world := run, Sent(world, corr);
    }

    /** The body of `Send`, for an envelope without a number. */
    method Place(corr: Bytes) returns (env: Env)
      modifies `seqNum, `created, `out, `queue
      ensures env == Env(old(created), old(seqNum) + 1, corr)
      ensures created == old(created) + 1 && seqNum == old(seqNum) + 1
      ensures var room := old(out).Some? && |old(out).value| < CHANNEL_SLOTS;
        && out == (if room then Some(old(out).value + [env]) else old(out))
        && queue == if room then old(queue) else Put(old(queue), env.Key(), env)
    {
      seqNum, created := seqNum + 1, created + 1;
      env := Env(created - 1, seqNum, corr);
      if out.Some? && |out.value| < CHANNEL_SLOTS {
        out := Some(out.value + [env]);
      } else {
        queue := Put(queue, env.Key(), env);
      }
    }

    /**
     `replayQueue`, with no other sender about and the context cancelled after `patience`
     pushes: the first entries in key order move to the channel, and no others.
     */
    method ReplayQueue(patience: nat) returns (moved: nat)
      requires Valid() && At(Opened)
      modifies this
      ensures Valid() && old(history) <= history && At(Pumping) && world.sent == old(world.sent)
      ensures moved == Min(Min(patience, CHANNEL_SLOTS - |old(out).value|), Min(REPLAY_BATCH, |old(queue)|))
      ensures out == Some(old(out).value + ValuesOf(old(queue)[..moved]))
      ensures queue == old(queue)[moved..]
      ensures seqNum == old(seqNum) && created == old(created) && wire == old(wire) && dropped == old(dropped)
    {
      FiledUnderKey(history, world);
      ChannelFits(history, world);
      moved := MoveQueued(patience);
      ghost var run := ReplayCall(history, world, moved);
      LosesNothing(world, Replayed(world, moved), dropped);
      history, world := run, Replayed(world, moved);
    }

    /** The loop of `replayQueue`. */
    method MoveQueued(patience: nat) returns (moved: nat)
      requires out.Some? && |out.value| <= CHANNEL_SLOTS
      requires forall i | 0 <= i < |queue| :: queue[i].key == queue[i].value.Key()
      modifies `out, `queue
      ensures moved == Min(Min(patience, CHANNEL_SLOTS - |old(out).value|), Min(REPLAY_BATCH, |old(queue)|))
      ensures out == Some(old(out).value + ValuesOf(old(queue)[..moved]))
      ensures queue == old(queue)[moved..]
    {
      var stored := queue;
      var jobs := ValuesOf(queue[..Min(REPLAY_BATCH, |queue|)]);
      moved := 0;
      assert out.value + jobs[..0] == out.value;
      while moved < |jobs| && |out.value| < CHANNEL_SLOTS && moved < patience
        invariant moved <= |jobs| && moved <= patience && |old(out).value| + moved <= CHANNEL_SLOTS
        invariant out == Some(old(out).value + jobs[..moved]) && queue == stored[moved..]
      {
        var env := jobs[moved];
        assert old(out).value + jobs[..moved] + [env] == old(out).value + jobs[..moved + 1];
        out := Some(out.value + [env]);
        assert queue[0] == stored[moved];
        queue := Delete(queue, env.Key());
        moved := moved + 1;
      }
      assert jobs[..moved] == ValuesOf(stored[..moved]);
    }

    /**
     `writeLoop` over what the channel holds: outcomes[i] says whether write i succeeds, and
     the context is cancelled once the channel or the outcomes run out. What goes out is
     numbered and in channel order; a failed write takes one more envelope with it.
     */
    method WriteLoop(outcomes: seq<bool>) returns (written: nat, ok: bool)
      requires Valid() && At(Pumping)
      modifies this
      ensures Valid() && old(history) <= history && At(Closing) && world.sent == old(world.sent)
      ensures written <= |old(out).value| && written <= |outcomes|
      ensures forall i | 0 <= i < written :: outcomes[i]
      ensures ok ==> written == Min(|old(out).value|, |outcomes|)
      ensures !ok ==> written < |old(out).value| && written < |outcomes| && !outcomes[written]
      ensures var taken := written + One(!ok);
        out == Some(old(out).value[taken..]) && seqNum == old(seqNum) + Unnumbered(old(out).value[..taken])
      ensures wire == old(wire) + Numbered(old(seqNum), old(out).value[..written])
      ensures |dropped| == |old(dropped)| + One(!ok) && old(dropped) <= dropped
      ensures !ok ==> dropped[|old(dropped)|].id == old(out).value[written].id
      ensures queue == old(queue) && created == old(created)
    {
      ghost var s := world;
      written, ok := Pump(outcomes);
      ghost var run, gone := WriteCall(history, s, dropped, written, ok);
      history, world, dropped := run, Stopped(Written(s, written), ok), dropped + gone;
    }

    /** The loop of `writeLoop`. */
    method Pump(outcomes: seq<bool>) returns (written: nat, ok: bool)
      requires out.Some?
      modifies `out, `seqNum, `wire
      ensures written <= |old(out).value| && written <= |outcomes|
      ensures forall i | 0 <= i < written :: outcomes[i]
      ensures ok ==> written == Min(|old(out).value|, |outcomes|)
      ensures !ok ==> written < |old(out).value| && written < |outcomes| && !outcomes[written]
      ensures var taken := written + One(!ok);
        out == Some(old(out).value[taken..]) && seqNum == old(seqNum) + Unnumbered(old(out).value[..taken])
      ensures wire == old(wire) + Numbered(old(seqNum), old(out).value[..written])
    {
      ghost var was := out.value;
      written, ok := 0, true;
      while out.value != [] && written < |outcomes|
        invariant written <= |was| && written <= |outcomes|
        invariant forall i | 0 <= i < written :: outcomes[i]
        invariant out == Some(was[written..]) && seqNum == old(seqNum) + Unnumbered(was[..written])
        invariant wire == old(wire) + Numbered(old(seqNum), was[..written])
        decreases |out.value|
      {
        NumberedNext(old(seqNum), was, written);
        var env := out.value[0];
        out := Some(out.value[1..]);
        if env.num == 0 {
          seqNum := seqNum + 1;
          env := env.(num := seqNum);
        }
        if !outcomes[written] {
          return written, false;
        }
        wire := wire + [env];
        written := written + 1;
      }
    }
  }

  /** What the fields show at any time between calls: nothing is lost track of, nothing is written twice. */
  lemma FieldsAccountForAll(c: Client)
    requires c.Valid()
    ensures forall x: nat :: x < c.created ==> Places(HasId(x), c.queue, c.out, c.wire, c.dropped) == 1
    ensures WrittenOnce(c.wire)
  {
    var out := if Live(c.world) then Some(Cur(c.world).buf) else None;
    assert c.out == out && c.queue == c.world.disk && c.wire == c.world.wire;
    forall x: nat | x < c.created ensures Places(HasId(x), c.queue, c.out, c.wire, c.dropped) == 1 {
      FieldsConserve(c.history, c.world, c.dropped, x);
    }
    WireWrittenOnce(c.history, c.world);
  }

  /** No envelope twice, and distinct non-zero numbers. */
  ghost predicate WrittenOnce(es: seq<Env>) {
    forall i, j | 0 <= i < j < |es| ::
      es[i].id != es[j].id && es[i].num != es[j].num && es[i].num > 0 && es[j].num > 0
  }

  lemma WireWrittenOnce(run: seq<Action>, s: State)
    requires Reached(run, s)
    ensures WrittenOnce(s.wire)
  {
    forall i, j | 0 <= i < j < |s.wire|
      ensures s.wire[i].id != s.wire[j].id && s.wire[i].num != s.wire[j].num && s.wire[i].num > 0 && s.wire[j].num > 0
    {
      AtMostOnce(run, s, i, j);
    }
  }

  // ---- one connection from beginning to end ------------------------------------------------------

  /** Correlation ids that may be sent one after the other. */
  predicate FreshAll(s: State, corrs: seq<Bytes>) {
    && (forall i | 0 <= i < |corrs| :: FreshCorrelation(s, corrs[i]))
    && (forall i, j | 0 <= i < j < |corrs| :: corrs[i] != [] ==> corrs[i] != corrs[j])
  }

  lemma FreshTail(s: State, s': State, corrs: seq<Bytes>, env: Env)
    requires FreshAll(s, corrs) && corrs != [] && s'.sent == s.sent + [env] && env.corr == corrs[0]
    ensures FreshAll(s', corrs[1..])
  {
    forall i | 0 <= i < |corrs[1..]| ensures FreshCorrelation(s', corrs[1..][i]) {
      assert FreshCorrelation(s, corrs[i + 1]);
      assert corrs[0] != [] ==> corrs[0] != corrs[i + 1];
    }
  }

  /** What sends with these correlation ids make, counting from the given identity and number. */
  function Envelopes(created: nat, n: nat, corrs: seq<Bytes>): seq<Env> {
    seq(|corrs|, i requires 0 <= i < |corrs| => Env(created + i, n + 1 + i, corrs[i]))
  }

  /** Free slots of the client's channel, as far as k sends can use them. */
  function Slots(out: Option<seq<Env>>, k: nat): nat {
    if out.None? || |out.value| >= CHANNEL_SLOTS then 0 else Min(CHANNEL_SLOTS - |out.value|, k)
  }

  /** The channel after k sends: the first that found room are behind what it held. */
  function Filled(out: Option<seq<Env>>, created: nat, n: nat, corrs: seq<Bytes>, k: nat): Option<seq<Env>>
    requires k <= |corrs|
  {
    if out.None? then None
    else Some(out.value + Envelopes(created, n, corrs[..Slots(out, k)]))
  }

  lemma FilledNext(out: Option<seq<Env>>, created: nat, n: nat, corrs: seq<Bytes>, k: nat)
    requires k < |corrs| && (out.Some? ==> |out.value| <= CHANNEL_SLOTS)
    ensures var now := Filled(out, created, n, corrs, k);
      var room := now.Some? && |now.value| < CHANNEL_SLOTS;
      && Slots(out, k + 1) == Slots(out, k) + (if room then 1 else 0)
      && Filled(out, created, n, corrs, k + 1)
         == if room then Some(now.value + [Env(created + k, n + 1 + k, corrs[k])]) else now
  {
    if out.Some? && |out.value| + k < CHANNEL_SLOTS {
      var more := Envelopes(created, n, corrs[..k + 1]);
      assert more == Envelopes(created, n, corrs[..k]) + [Env(created + k, n + 1 + k, corrs[k])];
      assert out.value + more
          == out.value + Envelopes(created, n, corrs[..k]) + [Env(created + k, n + 1 + k, corrs[k])];
    }
  }

  /** Sends in a row: the first that find room go to the channel, in order, the others to the disk. */
  method SendAll(c: Client, corrs: seq<Bytes>)
    requires c.Valid() && FreshAll(c.world, corrs)
    modifies c
    ensures c.Valid() && old(c.history) <= c.history
    ensures c.created == old(c.created) + |corrs| && c.seqNum == old(c.seqNum) + |corrs|
    ensures c.out == Filled(old(c.out), old(c.created), old(c.seqNum), corrs, |corrs|)
    ensures old(c.out).Some? ==> c.At(old(Cur(c.world).phase))
    ensures |c.queue| == |old(c.queue)| + |corrs| - Slots(old(c.out), |corrs|)
    ensures forall key: Bytes :: Get(old(c.queue), key).Some? ==> Get(c.queue, key) == Get(old(c.queue), key)
    ensures c.wire == old(c.wire) && c.dropped == old(c.dropped)
  {
    var i := 0;
    assert corrs[0..] == corrs;
    if c.out.Some? {
      ChannelFits(c.history, c.world);
      assert c.out.value + Envelopes(c.created, c.seqNum, corrs[..0]) == c.out.value;
    }
    while i < |corrs|
      invariant i <= |corrs| && c.Valid() && FreshAll(c.world, corrs[i..]) && old(c.history) <= c.history
      invariant c.created == old(c.created) + i && c.seqNum == old(c.seqNum) + i
      invariant c.out == Filled(old(c.out), old(c.created), old(c.seqNum), corrs, i)
      invariant old(c.out).Some? ==> c.At(old(Cur(c.world).phase))
      invariant |c.queue| == |old(c.queue)| + i - Slots(old(c.out), i)
      invariant forall key: Bytes :: Get(old(c.queue), key).Some? ==> Get(c.queue, key) == Get(old(c.queue), key)
      invariant c.wire == old(c.wire) && c.dropped == old(c.dropped)
    {
      ghost var before := c.world;
      assert FreshCorrelation(before, corrs[i..][0]);
      FilledNext(old(c.out), old(c.created), old(c.seqNum), corrs, i);
      var env := c.Send(corrs[i]);
      FreshTail(before, c.world, corrs[i..], env);
      assert corrs[i..][1..] == corrs[i + 1..];
      i := i + 1;
    }
  }

  /** What the channel holds after a replay of m entries and some sends. */
  function Loaded(queue: seq<Entry<Env>>, m: nat, created: nat, n: nat, corrs: seq<Bytes>): seq<Env>
    requires m <= |queue| && m <= 64
  {
    ValuesOf(queue[..m]) + Envelopes(created, n, corrs[..Min(64 - m, |corrs|)])
  }

  lemma LoadedIsFilled(queue: seq<Entry<Env>>, m: nat, created: nat, n: nat, corrs: seq<Bytes>)
    requires m <= |queue| && m <= 64
    ensures Filled(Some([] + ValuesOf(queue[..m])), created, n, corrs, |corrs|)
         == Some(Loaded(queue, m, created, n, corrs))
    ensures Slots(Some([] + ValuesOf(queue[..m])), |corrs|) == Min(64 - m, |corrs|)
  {
    assert [] + ValuesOf(queue[..m]) == ValuesOf(queue[..m]);
  }

  lemma LoadedIsNumbered(queue: seq<Entry<Env>>, m: nat, created: nat, n: nat, corrs: seq<Bytes>)
    requires m <= |queue| && m <= 64 && forall i | 0 <= i < |queue| :: queue[i].value.num != 0
    ensures forall i | 0 <= i < |Loaded(queue, m, created, n, corrs)| :: Loaded(queue, m, created, n, corrs)[i].num != 0
  {
  }

  /** The replay and the sends of a connection: its channel is loaded, and the rest stays on disk. */
  method LoadChannel(c: Client, patience: nat, corrs: seq<Bytes>) returns (m: nat)
    requires c.Valid() && c.At(Opened) && c.out == Some([]) && FreshAll(c.world, corrs)
    modifies c
    ensures c.Valid() && c.At(Pumping) && old(c.history) <= c.history
    ensures m == Min(Min(patience, 64), Min(100, |old(c.queue)|))
    ensures c.out == Some(Loaded(old(c.queue), m, old(c.created), old(c.seqNum), corrs))
    ensures c.created == old(c.created) + |corrs|
    ensures |c.queue| == |old(c.queue)| - m + |corrs| - Min(64 - m, |corrs|)
    ensures forall key: Bytes :: Get(old(c.queue)[m..], key).Some? ==> Get(c.queue, key) == Get(old(c.queue)[m..], key)
    ensures c.wire == old(c.wire) && c.dropped == old(c.dropped)
  {
    ghost var queue := c.queue;
    m := c.ReplayQueue(patience);
    LoadedIsFilled(queue, m, c.created, c.seqNum, corrs);
    SendAll(c, corrs);
  }

  /** The write loop and the disconnect: all of the channel goes out if all writes succeed. */
  method DrainChannel(c: Client, outcomes: seq<bool>)
    requires c.Valid() && c.At(Pumping)
    modifies c
    ensures c.Valid() && c.out.None? && old(c.history) <= c.history
    ensures c.queue == old(c.queue) && c.created == old(c.created)
    ensures old(c.wire) <= c.wire && old(c.dropped) <= c.dropped && |c.dropped| <= |old(c.dropped)| + 65
    ensures |outcomes| >= 64 && (forall i | 0 <= i < |outcomes| :: outcomes[i])
            && (forall i | 0 <= i < |old(c.out).value| :: old(c.out).value[i].num != 0) ==>
      c.wire == old(c.wire) + old(c.out).value && c.dropped == old(c.dropped)
  {
    ChannelFits(c.history, c.world);
    ghost var held, n := c.out.value, c.seqNum;
    var written, ok := c.WriteLoop(outcomes);
    if written == |held| {
      assert held[..written] == held;
    }
    c.Disconnect();
    if forall i | 0 <= i < |held| :: held[i].num != 0 {
      NumberedAlready(n, held);
    }
  }

  /**
   `runOnce` with its calls in sequence: the handshake, the replay, some sends, the write
   loop and the disconnect. Whatever fails on the way, every envelope is accounted for, no
   frame is written twice, at most 65 envelopes are lost, and none is if all writes succeed.
   Then what goes out is the register frame, the first queued envelopes in key order, and
   the sends that still found room; what stays on disk is all the rest.
   */
  method RunOnce(c: Client, wrote: bool, acked: bool, patience: nat, corrs: seq<Bytes>, outcomes: seq<bool>)
    returns (connected: bool)
    requires c.Valid() && c.out.None? && FreshAll(c.world, corrs)
    modifies c
    ensures c.Valid() && c.out.None? && old(c.history) <= c.history
    ensures connected == (wrote && acked)
    ensures c.created == old(c.created) + One(wrote) + |corrs|
    ensures forall x: nat :: x < c.created ==> Places(HasId(x), c.queue, None, c.wire, c.dropped) == 1
    ensures WrittenOnce(c.wire)
    ensures old(c.wire) <= c.wire
    ensures old(c.dropped) <= c.dropped && |c.dropped| <= |old(c.dropped)| + 65
    ensures !connected ==>
      && c.dropped == old(c.dropped)
      && |c.queue| == |old(c.queue)| + |corrs|
      && forall key: Bytes :: Get(old(c.queue), key).Some? ==> Get(c.queue, key) == Get(old(c.queue), key)
    ensures connected ==>
      var m := Min(Min(patience, 64), Min(100, |old(c.queue)|));
      && |c.queue| == |old(c.queue)| - m + |corrs| - Min(64 - m, |corrs|)
      && (forall key: Bytes ::
            Get(old(c.queue)[m..], key).Some? ==> Get(c.queue, key) == Get(old(c.queue)[m..], key))
      && (|outcomes| >= 64 && (forall i | 0 <= i < |outcomes| :: outcomes[i]) ==>
            && c.dropped == old(c.dropped)
            && c.wire == old(c.wire) + [Env(old(c.created), old(c.seqNum) + 1, [])]
                       + (ValuesOf(old(c.queue)[..m])
                          + Envelopes(old(c.created) + 1, old(c.seqNum) + 1, corrs[..Min(64 - m, |corrs|)])))
  {
    QueueIsNumbered(c.history, c.world);
    connected := c.Connect(wrote, acked);
    if connected {
      ghost var queue, created, n := c.queue, c.created, c.seqNum;
      var m := LoadChannel(c, patience, corrs);
      LoadedIsNumbered(queue, m, created, n, corrs);
      DrainChannel(c, outcomes);
    } else {
      SendAll(c, corrs);
    }
    FieldsAccountForAll(c);
  }
}
