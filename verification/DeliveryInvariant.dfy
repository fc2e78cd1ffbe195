/** What every step of the delivery protocol keeps. */
module DeliveryInvariant {
  import opened Prelude
  import opened Frames
  import opened Positional
  import opened Bucket
  import opened QueueKeys
  import opened Delivery
  import opened DeliveryLedger

  /** Everything Send ever accepted has its own number, identity and key. */
  ghost predicate SentInv(s: State) {
    && (forall i | 0 <= i < |s.sent| ::
          1 <= s.sent[i].num <= s.lastNum && s.sent[i].id < s.nextId
          && (s.sent[i].corr == [] || !(SEQ_PREFIX <= s.sent[i].corr)))
    && (forall i, j | 0 <= i < j < |s.sent| ::
          s.sent[i].Key() != s.sent[j].Key() && s.sent[i].id != s.sent[j].id)
  }

  ghost predicate SenderInv(s: State) {
    && (forall i | 0 <= i < |s.senders| ::
          s.senders[i].env in s.sent
          && (s.senders[i].pc.Picked? && s.senders[i].pc.out.Some? ==> s.senders[i].pc.out.value < |s.conns|))
    && (forall i, j | 0 <= i < j < |s.senders| :: s.senders[i].env != s.senders[j].env)
  }

  ghost predicate DiskInv(s: State) {
    && Sorted(s.disk)
    && (forall i | 0 <= i < |s.disk| :: s.disk[i].key == s.disk[i].value.Key() && s.disk[i].value in s.sent)
    && (forall i, j | 0 <= i < |s.disk| && 0 <= j < |s.senders| :: s.disk[i].value != s.senders[j].env)
  }

  ghost predicate ConnOk(c: Conn) {
    && |c.buf| <= CHANNEL_SLOTS
    && (c.hand.Some? ==> c.phase.Pumping? && c.hand.value.num > 0)
    && (c.lost.Some? ==> c.phase.Closing? || c.phase.Dead?)
  }

  ghost predicate ConnInv(s: State) {
    && (forall i | 0 <= i < |s.conns| :: ConnOk(s.conns[i]) && (i < |s.conns| - 1 ==> s.conns[i].phase.Dead?))
    && (forall i | 0 <= i < |s.wire| :: s.wire[i].num > 0)
  }

  /** Popped envelopes that are still on disk: the one awaiting its ack, then the unmoved ones. */
  function Unacked(s: State): seq<Env> {
    if Live(s) && Cur(s).phase.Replaying? then
      (if Cur(s).phase.acking.Some? then [Cur(s).phase.acking.value] else []) + Cur(s).phase.jobs
    else []
  }

  ghost predicate ReplayInv(s: State) {
    && (forall i | 0 <= i < |Unacked(s)| :: Get(s.disk, Unacked(s)[i].Key()) == Some(Unacked(s)[i]))
    && (forall i, j | 0 <= i < j < |Unacked(s)| :: Unacked(s)[i].Key() != Unacked(s)[j].Key())
    && (Live(s) && Cur(s).phase.Replaying? && Cur(s).phase.acking.Some? ==> Cur(s).phase.acking.value in Cur(s).buf)
  }

  ghost predicate Shape(s: State) {
    SentInv(s) && SenderInv(s) && DiskInv(s) && ConnInv(s) && ReplayInv(s)
  }

  function One(b: bool): nat { if b then 1 else 0 }

  /** Each identity handed out is in one place; each number is on at most one envelope. */
  ghost predicate Books(s: State) {
    && (forall x: nat :: Total(HasId(x), s) == One(x < s.nextId) + Shadow(HasId(x), s))
    && (forall x: nat :: x > 0 ==> Total(HasNum(x), s) <= One(x <= s.lastNum) + Shadow(HasNum(x), s))
  }

  ghost predicate Inv(s: State) { Shape(s) && Books(s) }

  // ---- keys -----------------------------------------------------------------------------------

  lemma {:induction false} EntryIsGot(b: seq<Entry<Env>>, i: nat)
    requires Sorted(b) && i < |b|
    ensures Get(b, b[i].key) == Some(b[i].value)
  {
    if i == 0 {
    } else {
      LessIrreflexive(b[i].key);
      SortedTail(b);
      EntryIsGot(b[1..], i - 1);
    }
  }

  /** A key under which nothing was sent so far. */
  lemma NewKeyIsNew(s: State, corr: Bytes, i: nat)
    requires SentInv(s) && FreshCorrelation(s, corr) && i < |s.sent|
    ensures KeyFor(corr, s.lastNum + 1) != s.sent[i].Key()
  {
    SeqKeyInjective(s.lastNum + 1, s.sent[i].num);
    assert SEQ_PREFIX <= SeqKey(s.lastNum + 1) && SEQ_PREFIX <= SeqKey(s.sent[i].num);
  }

  lemma SameKeySameEnvelope(s: State, x: Env, y: Env)
    requires SentInv(s) && x in s.sent && y in s.sent && x.Key() == y.Key()
    ensures x == y
  {
    var i :| 0 <= i < |s.sent| && s.sent[i] == x;
    var j :| 0 <= j < |s.sent| && s.sent[j] == y;
  }

  /** An envelope on its way to the disk finds its key free. */
  lemma QueueKeyFree(s: State, i: nat)
    requires SentInv(s) && SenderInv(s) && DiskInv(s) && i < |s.senders|
    ensures Get(s.disk, s.senders[i].env.Key()).None?
  {
    var key := s.senders[i].env.Key();
    if Get(s.disk, key).Some? {
      var j := GetIsEntry(s.disk, key);
      SameKeySameEnvelope(s, s.disk[j].value, s.senders[i].env);
    }
  }

  // ---- books -------------------------------------------------------------------------------------

  /** What a step adds to the number of copies, net of the copy awaiting its ack. */
  function Born(f: Weight, s: State, a: Action): int
    requires Enabled(s, a)
  {
    match a
    case SendStart(corr) => f(Env(s.nextId, s.lastNum + 1, corr))
    case Register => f(Env(s.nextId, s.lastNum + 1, []))
    case Heartbeat => f(Env(s.nextId, 0, []))
    case Take => f(Stamp(s, Cur(s).buf[0])) - f(Cur(s).buf[0])
    case _ => 0
  }

  lemma NetStep(f: Weight, s: State, a: Action)
    requires Shape(s) && Enabled(s, a)
    ensures Total(f, Apply(s, a)) - Shadow(f, Apply(s, a)) == Total(f, s) - Shadow(f, s) + Born(f, s, a)
  {
    if a.SendStart? || a.SendPick? || a.SendPush? || a.SendSpill? || a.SendQueue? {
      if a.SendQueue? {
        QueueKeyFree(s, a.i);
      }
      SendBooks(f, s, a);
      SendShadow(f, s, a);
    } else if a.ReplayPush? || a.ReplayAck? || a.Heartbeat? {
      if a.ReplayAck? {
        assert Unacked(s)[0] == Cur(s).phase.acking.value;
      }
      ReplayBooks(f, s, a);
    } else if a.Take? || a.WriteOk? || a.WriteFail? {
      WriterBooks(f, s, a);
    } else {
      ConnBooks(f, s, a);
    }
  }

  lemma SendShadow(f: Weight, s: State, a: Action)
    requires Enabled(s, a) && (a.SendStart? || a.SendPick? || a.SendPush? || a.SendSpill? || a.SendQueue?)
    ensures Shadow(f, Apply(s, a)) == Shadow(f, s)
    ensures Unacked(Apply(s, a)) == Unacked(s)
  {
    var s' := Apply(s, a);
    assert |s'.conns| == |s.conns|;
    assert s.conns != [] ==> Cur(s').phase == Cur(s).phase;
  }

  lemma BooksKeep(s: State, a: Action)
    requires Inv(s) && Enabled(s, a)
    ensures Books(Apply(s, a))
  {
    var s' := Apply(s, a);
    forall x: nat ensures Total(HasId(x), s') == One(x < s'.nextId) + Shadow(HasId(x), s') {
      NetStep(HasId(x), s, a);
    }
    forall x: nat | x > 0 ensures Total(HasNum(x), s') <= One(x <= s'.lastNum) + Shadow(HasNum(x), s') {
      NetStep(HasNum(x), s, a);
    }
  }
}
