/** Counting the copies of an envelope, or of a number, over every place the protocol keeps them. */
module DeliveryLedger {
  import opened Prelude
  import opened Frames
  import opened Positional
  import opened Bucket
  import opened Delivery

  /** What an envelope counts for. */
  type Weight = Env -> nat

  /** Counting the envelope with identity x, or the ones numbered x. */
  function HasId(x: nat): Weight { (e: Env) => if e.id == x then 1 else 0 }
  function HasNum(x: nat): Weight { (e: Env) => if e.num == x then 1 else 0 }

  function OfSeq(f: Weight, es: seq<Env>): nat {
    if es == [] then 0 else f(es[0]) + OfSeq(f, es[1..])
  }

  function OfOption(f: Weight, e: Option<Env>): nat {
    if e.None? then 0 else f(e.value)
  }

  function OfSenders(f: Weight, ss: seq<Sender>): nat {
    if ss == [] then 0 else f(ss[0].env) + OfSenders(f, ss[1..])
  }

  function OfDisk(f: Weight, b: seq<Entry<Env>>): nat {
    if b == [] then 0 else f(b[0].value) + OfDisk(f, b[1..])
  }

  function OfConn(f: Weight, c: Conn): nat {
    OfSeq(f, c.buf) + OfOption(f, c.hand) + OfOption(f, c.lost)
  }

  function OfConns(f: Weight, cs: seq<Conn>): nat {
    if cs == [] then 0 else OfConn(f, cs[0]) + OfConns(f, cs[1..])
  }

  function Total(f: Weight, s: State): nat {
    OfSenders(f, s.senders) + OfDisk(f, s.disk) + OfConns(f, s.conns) + OfSeq(f, s.wire)
  }

  /** The envelope pushed to the channel but not yet acked off the disk is there twice. */
  function Shadow(f: Weight, s: State): nat {
    if Live(s) && Cur(s).phase.Replaying? then OfOption(f, Cur(s).phase.acking) else 0
  }

  // ---- collections under the moves the protocol makes ---------------------------------------

  lemma {:induction false} SeqAppend(f: Weight, a: seq<Env>, e: Env)
    ensures OfSeq(f, a + [e]) == OfSeq(f, a) + f(e)
  {
    if a == [] {
      assert [e][1..] == [] && a + [e] == [e];
    } else {
      SeqAppend(f, a[1..], e);
      assert (a + [e])[1..] == a[1..] + [e];
    }
  }

  lemma {:induction false} SendersAppend(f: Weight, ss: seq<Sender>, x: Sender)
    ensures OfSenders(f, ss + [x]) == OfSenders(f, ss) + f(x.env)
  {
    if ss == [] {
      assert [x][1..] == [] && ss + [x] == [x];
    } else {
      SendersAppend(f, ss[1..], x);
      assert (ss + [x])[1..] == ss[1..] + [x];
    }
  }

  lemma {:induction false} SendersRemove(f: Weight, ss: seq<Sender>, i: nat)
    requires i < |ss|
    ensures OfSenders(f, Remove(ss, i)) + f(ss[i].env) == OfSenders(f, ss)
  {
    if i == 0 {
      assert Remove(ss, 0) == ss[1..];
    } else {
      SendersRemove(f, ss[1..], i - 1);
      assert Remove(ss, i)[1..] == Remove(ss[1..], i - 1);
    }
  }

  lemma {:induction false} SendersSetPc(f: Weight, ss: seq<Sender>, i: nat, pc: SendPc)
    requires i < |ss|
    ensures OfSenders(f, ss[i := ss[i].(pc := pc)]) == OfSenders(f, ss)
  {
    var ss' := ss[i := ss[i].(pc := pc)];
    if i == 0 {
      assert ss'[1..] == ss[1..];
    } else {
      SendersSetPc(f, ss[1..], i - 1, pc);
      assert ss'[1..] == ss[1..][i - 1 := ss[i].(pc := pc)];
    }
  }

  lemma {:induction false} DiskPut(f: Weight, b: seq<Entry<Env>>, key: Bytes, v: Env)
    requires Sorted(b) && Get(b, key).None?
    ensures OfDisk(f, Put(b, key, v)) == OfDisk(f, b) + f(v)
  {
    if b == [] || Less(key, b[0].key) {
      assert Put(b, key, v)[1..] == b;
    } else {
      SortedTail(b);
      DiskPut(f, b[1..], key, v);
      assert Put(b, key, v)[1..] == Put(b[1..], key, v);
    }
  }

  lemma {:induction false} DiskDelete(f: Weight, b: seq<Entry<Env>>, key: Bytes)
    requires Get(b, key).Some?
    ensures OfDisk(f, Delete(b, key)) + f(Get(b, key).value) == OfDisk(f, b)
  {
    if b[0].key == key {
    } else {
      DiskDelete(f, b[1..], key);
      assert Delete(b, key)[1..] == Delete(b[1..], key);
    }
  }

  lemma {:induction false} ConnsSet(f: Weight, cs: seq<Conn>, i: nat, c: Conn)
    requires i < |cs|
    ensures OfConns(f, cs[i := c]) + OfConn(f, cs[i]) == OfConns(f, cs) + OfConn(f, c)
  {
    if i == 0 {
      assert cs[0 := c][1..] == cs[1..];
    } else {
      ConnsSet(f, cs[1..], i - 1, c);
      assert cs[i := c][1..] == cs[1..][i - 1 := c];
    }
  }

  lemma {:induction false} ConnsAppend(f: Weight, cs: seq<Conn>, c: Conn)
    ensures OfConns(f, cs + [c]) == OfConns(f, cs) + OfConn(f, c)
  {
    if cs == [] {
      assert [c][1..] == [] && cs + [c] == [c];
    } else {
      ConnsAppend(f, cs[1..], c);
      assert (cs + [c])[1..] == cs[1..] + [c];
    }
  }

  // ---- the books of one step ----------------------------------------------------------------

  /** What enters the system, or changes weight by being numbered, in a step. */
  function Came(f: Weight, s: State, a: Action): nat
    requires Enabled(s, a)
  {
    match a
    case SendStart(corr) => f(Env(s.nextId, s.lastNum + 1, corr))
    case Register => f(Env(s.nextId, s.lastNum + 1, []))
    case Heartbeat => f(Env(s.nextId, 0, []))
    case ReplayPush => f(Cur(s).phase.jobs[0])
    case Take => f(Stamp(s, Cur(s).buf[0]))
    case _ => 0
  }

  function Went(f: Weight, s: State, a: Action): nat
    requires Enabled(s, a)
  {
    match a
    case ReplayAck => f(Cur(s).phase.acking.value)
    case Take => f(Cur(s).buf[0])
    case _ => 0
  }

  lemma CurBooks(f: Weight, s: State, c: Conn)
    requires s.conns != []
    ensures OfConns(f, SetCur(s, c).conns) + OfConn(f, Cur(s)) == OfConns(f, s.conns) + OfConn(f, c)
  {
    ConnsSet(f, s.conns, |s.conns| - 1, c);
  }

  lemma SendBooks(f: Weight, s: State, a: Action)
    requires Enabled(s, a) && (a.SendStart? || a.SendPick? || a.SendPush? || a.SendSpill? || a.SendQueue?)
    requires a.SendQueue? ==> Sorted(s.disk) && Get(s.disk, s.senders[a.i].env.Key()).None?
    ensures Total(f, Apply(s, a)) + Went(f, s, a) == Total(f, s) + Came(f, s, a)
  {
    match a
    case SendStart(corr) => SendersAppend(f, s.senders, Sender(Env(s.nextId, s.lastNum + 1, corr), Fresh));
    case SendPick(i) => SendersSetPc(f, s.senders, i, Picked(if Live(s) then Some(|s.conns| - 1) else None));
    case SendPush(i) =>
      var c, e := s.senders[i].pc.out.value, s.senders[i].env;
      SendersRemove(f, s.senders, i);
      SeqAppend(f, s.conns[c].buf, e);
      ConnsSet(f, s.conns, c, s.conns[c].(buf := s.conns[c].buf + [e]));
    case SendSpill(i) => SendersSetPc(f, s.senders, i, Spilling);
    case SendQueue(i) =>
      SendersRemove(f, s.senders, i);
      DiskPut(f, s.disk, s.senders[i].env.Key(), s.senders[i].env);
  }

  lemma ConnBooks(f: Weight, s: State, a: Action)
    requires Enabled(s, a)
    requires a.Register? || a.RegisterFail? || a.Open? || a.Pop?
      || a.ReplayDone? || a.Shutdown? || a.Stop? || a.Unpublish?
    ensures Total(f, Apply(s, a)) + Went(f, s, a) == Total(f, s) + Came(f, s, a)
  {
    if a.Register? {
      SeqAppend(f, s.wire, Env(s.nextId, s.lastNum + 1, []));
    } else if a.Open? {
      ConnsAppend(f, s.conns, Conn(Opened, [], None, None));
    } else if !a.RegisterFail? {
      CurBooks(f, s, Cur(Apply(s, a)));
    }
  }

  lemma ReplayBooks(f: Weight, s: State, a: Action)
    requires Enabled(s, a) && (a.ReplayPush? || a.ReplayAck? || a.Heartbeat?)
    requires a.ReplayAck? ==> Get(s.disk, Cur(s).phase.acking.value.Key()) == Cur(s).phase.acking
    ensures Total(f, Apply(s, a)) + Went(f, s, a) == Total(f, s) + Came(f, s, a)
  {
    CurBooks(f, s, Cur(Apply(s, a)));
    match a
    case ReplayPush => SeqAppend(f, Cur(s).buf, Cur(s).phase.jobs[0]);
    case ReplayAck => DiskDelete(f, s.disk, Cur(s).phase.acking.value.Key());
    case Heartbeat => SeqAppend(f, Cur(s).buf, Env(s.nextId, 0, []));
  }

  lemma WriterBooks(f: Weight, s: State, a: Action)
    requires Enabled(s, a) && (a.Take? || a.WriteOk? || a.WriteFail?)
    requires Cur(s).hand.Some? ==> Cur(s).lost.None?
    ensures Total(f, Apply(s, a)) + Went(f, s, a) == Total(f, s) + Came(f, s, a)
  {
    CurBooks(f, s, Cur(Apply(s, a)));
    if a.WriteOk? {
      SeqAppend(f, s.wire, Cur(s).hand.value);
    }
  }
}
