/** Every step of the delivery protocol keeps its shape. */
module DeliverySteps {
  import opened Prelude
  import opened Frames
  import opened Positional
  import opened Bucket
  import opened QueueKeys
  import opened Delivery
  import opened DeliveryLedger
  import opened DeliveryInvariant

  predicate IsSend(a: Action) {
    a.SendStart? || a.SendPick? || a.SendPush? || a.SendSpill? || a.SendQueue?
  }

  lemma SentKeep(s: State, a: Action)
    requires SentInv(s) && Enabled(s, a)
    ensures SentInv(Apply(s, a))
  {
    if a.SendStart? {
      forall i | 0 <= i < |s.sent| ensures s.sent[i].Key() != KeyFor(a.corr, s.lastNum + 1) {
        NewKeyIsNew(s, a.corr, i);
      }
    }
  }

  lemma SenderKeep(s: State, a: Action)
    requires SentInv(s) && SenderInv(s) && Enabled(s, a)
    ensures SenderInv(Apply(s, a))
  {
    if a.SendStart? {
      SenderKeepStart(s, a.corr);
    } else if a.SendPush? || a.SendQueue? {
      SenderKeepRemove(s, a);
    }
  }

  lemma SenderKeepStart(s: State, corr: Bytes)
    requires SentInv(s) && SenderInv(s) && Enabled(s, SendStart(corr))
    ensures SenderInv(Apply(s, SendStart(corr)))
  {
    var s' := Apply(s, SendStart(corr));
    var e := s'.sent[|s.sent|];
    assert e in s'.sent && e !in s.sent;
    assert forall x | x in s.sent :: x in s'.sent;
    assert forall i | 0 <= i < |s.senders| :: s'.senders[i] == s.senders[i];
  }

  lemma SenderKeepRemove(s: State, a: Action)
    requires SenderInv(s) && Enabled(s, a) && (a.SendPush? || a.SendQueue?)
    ensures SenderInv(Apply(s, a))
  {
    var s' := Apply(s, a);
    assert forall j | 0 <= j < |s'.senders| :: s'.senders[j] == s.senders[if j < a.i then j else j + 1];
  }

  lemma DiskKeep(s: State, a: Action)
    requires SentInv(s) && SenderInv(s) && DiskInv(s) && Enabled(s, a)
    ensures DiskInv(Apply(s, a))
  {
    var s' := Apply(s, a);
    match a
    case SendStart(_) =>
      assert s'.sent[|s.sent|] !in s.sent;
      assert forall x | x in s.sent :: x in s'.sent;
    case SendQueue(i) => DiskKeepQueue(s, i);
    case ReplayAck => GetDelete(s.disk, Cur(s).phase.acking.value.Key(), []);
    case _ =>
  }

  lemma DiskKeepQueue(s: State, i: nat)
    requires SentInv(s) && SenderInv(s) && DiskInv(s) && Enabled(s, SendQueue(i))
    ensures DiskInv(Apply(s, SendQueue(i)))
  {
    var e := s.senders[i].env;
    QueueKeyFree(s, i);
    PutSorted(s.disk, e.Key(), e);
    PutEntries(s.disk, e.Key(), e);
    var disk', senders' := Put(s.disk, e.Key(), e), Remove(s.senders, i);
    forall k, j | 0 <= k < |disk'| && 0 <= j < |senders'| ensures disk'[k].value != senders'[j].env {
      assert senders'[j] == s.senders[if j < i then j else j + 1];
    }
  }

  /** Put adds one entry and keeps or replaces the others. */
  lemma {:induction false} PutEntries(b: seq<Entry<Env>>, key: Bytes, v: Env)
    ensures forall k | 0 <= k < |Put(b, key, v)| ::
      Put(b, key, v)[k] == Entry(key, v) || Put(b, key, v)[k] in b
  {
    if b == [] || Less(key, b[0].key) || b[0].key == key {
    } else {
      PutEntries(b[1..], key, v);
    }
  }

  lemma ConnKeep(s: State, a: Action)
    requires ConnInv(s) && Enabled(s, a)
    ensures ConnInv(Apply(s, a))
  {
  }

  lemma ReplayKeep(s: State, a: Action)
    requires SentInv(s) && SenderInv(s) && DiskInv(s) && ReplayInv(s) && Enabled(s, a)
    ensures ReplayInv(Apply(s, a))
  {
    match a
    case SendQueue(i) => QueueUnacked(s, i);
    case Pop => PopUnacked(s);
    case ReplayPush => PushUnacked(s);
    case ReplayAck => AckUnacked(s);
    case _ =>
      if IsSend(a) {
        SendUnacked(s, a);
      } else {
        NoReplay(s, a);
      }
  }

  lemma SendUnacked(s: State, a: Action)
    requires SenderInv(s) && ReplayInv(s) && Enabled(s, a) && IsSend(a) && !a.SendQueue?
    ensures ReplayInv(Apply(s, a))
  {
    var s' := Apply(s, a);
    SendBuf(s, a);
    ReplayAsBefore(s, s');
  }

  /** A send leaves the phase of the connection and only adds to its channel. */
  lemma SendBuf(s: State, a: Action)
    requires Enabled(s, a) && IsSend(a)
    ensures var s' := Apply(s, a);
      && |s'.conns| == |s.conns|
      && (s.conns != [] ==> Cur(s').phase == Cur(s).phase && Cur(s).buf <= Cur(s').buf)
  {
  }

  lemma ReplayAsBefore(s: State, s': State)
    requires ReplayInv(s) && s'.disk == s.disk && |s'.conns| == |s.conns|
    requires s.conns != [] ==> Cur(s').phase == Cur(s).phase && Cur(s).buf <= Cur(s').buf
    ensures ReplayInv(s')
  {
    assert Unacked(s') == Unacked(s);
  }

  /** All other steps happen outside a replay, and lead to none. */
  lemma NoReplay(s: State, a: Action)
    requires Enabled(s, a) && !IsSend(a) && !a.Pop? && !a.ReplayPush? && !a.ReplayAck?
    ensures ReplayInv(Apply(s, a))
  {
    assert Unacked(Apply(s, a)) == [];
  }

  lemma PushUnacked(s: State)
    requires ReplayInv(s) && Enabled(s, ReplayPush)
    ensures ReplayInv(Apply(s, ReplayPush))
  {
    assert Unacked(Apply(s, ReplayPush)) == Unacked(s);
  }

  /** A queueing sender touches none of the popped envelopes' entries. */
  lemma QueueUnacked(s: State, i: nat)
    requires SentInv(s) && SenderInv(s) && DiskInv(s) && ReplayInv(s) && Enabled(s, SendQueue(i))
    ensures ReplayInv(Apply(s, SendQueue(i)))
  {
    var s' := Apply(s, SendQueue(i));
    var e := s.senders[i].env;
    SendShadow(HasId(0), s, SendQueue(i));
    QueueKeyFree(s, i);
    assert Unacked(s') == Unacked(s);
    forall k | 0 <= k < |Unacked(s)| ensures Get(s'.disk, Unacked(s)[k].Key()) == Some(Unacked(s)[k]) {
      GetPut(s.disk, e.Key(), e, Unacked(s)[k].Key());
    }
  }

  lemma PopUnacked(s: State)
    requires DiskInv(s) && Enabled(s, Pop)
    ensures ReplayInv(Apply(s, Pop))
  {
    var jobs := Unacked(Apply(s, Pop));
    forall i | 0 <= i < |jobs| ensures Get(s.disk, jobs[i].Key()) == Some(jobs[i]) {
      EntryIsGot(s.disk, i);
    }
    forall i, j | 0 <= i < j < |jobs| ensures jobs[i].Key() != jobs[j].Key() {
      LessIrreflexive(s.disk[i].key);
      assert Less(s.disk[i].key, s.disk[j].key);
    }
  }

  lemma AckUnacked(s: State)
    requires DiskInv(s) && ReplayInv(s) && Enabled(s, ReplayAck)
    ensures ReplayInv(Apply(s, ReplayAck))
  {
    var s' := Apply(s, ReplayAck);
    var key := Unacked(s)[0].Key();
    assert forall k | 0 <= k < |Unacked(s')| :: Unacked(s')[k] == Unacked(s)[k + 1];
    forall k | 0 <= k < |Unacked(s')| ensures Get(s'.disk, Unacked(s')[k].Key()) == Some(Unacked(s')[k]) {
      GetDelete(s.disk, key, Unacked(s')[k].Key());
    }
  }

  lemma StepKeeps(s: State, a: Action)
    requires Inv(s) && Enabled(s, a)
    ensures Inv(Apply(s, a))
  {
    SentKeep(s, a);
    SenderKeep(s, a);
    DiskKeep(s, a);
    ConnKeep(s, a);
    ReplayKeep(s, a);
    BooksKeep(s, a);
  }

  lemma {:induction false} RunKeeps(s: State, run: seq<Action>)
    requires Inv(s) && Runs(s, run)
    ensures Inv(After(s, run))
    decreases |run|
  {
    if run == [] {
    } else {
      StepKeeps(s, run[0]);
      RunKeeps(Apply(s, run[0]), run[1..]);
    }
  }

  lemma NothingYet(s: State)
    requires s.senders == [] && s.disk == [] && s.conns == [] && s.wire == [] && s.sent == []
    requires s.lastNum == 0 && s.nextId == 0
    ensures Inv(s)
  {
    forall x: nat ensures Total(HasId(x), s) == 0 && Total(HasNum(x), s) == 0 {
    }
  }

  lemma InitInv()
    ensures Inv(INIT)
  {
    NothingYet(INIT);
  }
}
