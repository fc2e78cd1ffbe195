/** What the delivery protocol promises over every run of one process. */
module DeliveryTheorems {
  import opened Delivery
  import opened DeliveryLedger
  import opened DeliveryInvariant
  import opened DeliverySteps

  ghost predicate Reached(run: seq<Action>, s: State) {
    Runs(INIT, run) && s == After(INIT, run)
  }

  lemma ReachedInv(run: seq<Action>, s: State)
    requires Reached(run, s)
    ensures Inv(s)
  {
    InitInv();
    RunKeeps(INIT, run);
  }

  // ---- conservation -------------------------------------------------------------------------

  /** Held by the connection being run: in its channel or its writer's hand. */
  function HeldBy(f: Weight, c: Conn): nat {
    if c.phase.Dead? then 0 else OfSeq(f, c.buf) + OfOption(f, c.hand)
  }

  /** Lost with a connection: a failed write, and whatever its dead channel holds. */
  function DroppedBy(f: Weight, c: Conn): nat {
    OfOption(f, c.lost) + if c.phase.Dead? then OfSeq(f, c.buf) else 0
  }

  function Held(f: Weight, cs: seq<Conn>): nat {
    if cs == [] then 0 else HeldBy(f, cs[0]) + Held(f, cs[1..])
  }

  function Dropped(f: Weight, cs: seq<Conn>): nat {
    if cs == [] then 0 else DroppedBy(f, cs[0]) + Dropped(f, cs[1..])
  }

  lemma {:induction false} HeldOrDropped(f: Weight, cs: seq<Conn>)
    requires forall i | 0 <= i < |cs| :: ConnOk(cs[i])
    ensures OfConns(f, cs) == Held(f, cs) + Dropped(f, cs)
  {
    if cs == [] {
    } else {
      HeldOrDropped(f, cs[1..]);
    }
  }

  /** On disk and not merely awaiting the ack of a copy already in the channel. */
  function OnDisk(f: Weight, s: State): int {
    OfDisk(f, s.disk) - Shadow(f, s)
  }

  lemma OnDiskIsCount(f: Weight, s: State)
    requires ReplayInv(s)
    ensures OnDisk(f, s) >= 0
  {
    if Live(s) && Cur(s).phase.Replaying? && Cur(s).phase.acking.Some? {
      assert Unacked(s)[0] == Cur(s).phase.acking.value;
      DiskDelete(f, s.disk, Unacked(s)[0].Key());
    }
  }

  /**
   Conservation: every envelope ever created is in exactly one place, with its sender,
   on disk, held by the live connection, written, or dropped with a dead one.
   */
  lemma Conservation(run: seq<Action>, s: State, x: nat)
    requires Reached(run, s) && x < s.nextId
    ensures OnDisk(HasId(x), s) >= 0
    ensures OfSenders(HasId(x), s.senders) + OnDisk(HasId(x), s) + Held(HasId(x), s.conns)
          + OfSeq(HasId(x), s.wire) + Dropped(HasId(x), s.conns) == 1
  {
    ReachedInv(run, s);
    OnDiskIsCount(HasId(x), s);
    HeldOrDropped(HasId(x), s.conns);
    assert Total(HasId(x), s) == 1 + Shadow(HasId(x), s);
  }

  /** Each connection drops at most 65 envelopes: 64 buffered and one failed write. */
  lemma DropBound(run: seq<Action>, s: State, i: nat)
    requires Reached(run, s) && i < |s.conns|
    ensures (if s.conns[i].phase.Dead? then |s.conns[i].buf| else 0) + One(s.conns[i].lost.Some?) <= 65
  {
    ReachedInv(run, s);
  }

  lemma {:induction false} RunsAppend(s: State, a: seq<Action>, b: seq<Action>)
    requires Runs(s, a) && Runs(After(s, a), b)
    ensures Runs(s, a + b) && After(s, a + b) == After(After(s, a), b)
    decreases |a|
  {
    if a == [] {
      assert a + b == b;
    } else {
      RunsAppend(Apply(s, a[0]), a[1..], b);
      assert (a + b)[1..] == a[1..] + b;
    }
  }

  lemma {:induction false} RunsSplit(s: State, a: seq<Action>, b: seq<Action>)
    requires Runs(s, a + b)
    ensures Runs(s, a) && Runs(After(s, a), b) && After(s, a + b) == After(After(s, a), b)
    decreases |a|
  {
    if a == [] {
      assert a + b == b;
    } else {
      assert (a + b)[1..] == a[1..] + b;
      RunsSplit(Apply(s, a[0]), a[1..], b);
    }
  }

  /** One more step of a reachable state's run. */
  lemma Extend(run: seq<Action>, s: State, a: Action)
    requires Reached(run, s) && Enabled(s, a)
    ensures Reached(run + [a], Apply(s, a))
  {
    assert After(s, [a]) == After(Apply(s, a), []);
    RunsAppend(INIT, run, [a]);
  }

  // ---- at most once ----------------------------------------------------------------------------

  lemma {:induction false} CountsBoth(f: Weight, es: seq<Env>, i: nat, j: nat)
    requires i < j < |es|
    ensures OfSeq(f, es) >= f(es[i]) + f(es[j])
  {
    if i == 0 {
      CountsOne(f, es[1..], j - 1);
    } else {
      CountsBoth(f, es[1..], i - 1, j - 1);
    }
  }

  lemma {:induction false} CountsOne(f: Weight, es: seq<Env>, i: nat)
    requires i < |es|
    ensures OfSeq(f, es) >= f(es[i])
  {
    if i == 0 {
    } else {
      CountsOne(f, es[1..], i - 1);
    }
  }

  /** No envelope is written twice, and all frames carry distinct non-zero numbers. */
  lemma AtMostOnce(run: seq<Action>, s: State, i: nat, j: nat)
    requires Reached(run, s) && i < j < |s.wire|
    ensures s.wire[i].id != s.wire[j].id
    ensures s.wire[i].num != s.wire[j].num && s.wire[i].num > 0 && s.wire[j].num > 0
  {
    ReachedInv(run, s);
    var x, n := s.wire[i].id, s.wire[i].num;
    CountsBoth(HasId(x), s.wire, i, j);
    CountsBoth(HasNum(n), s.wire, i, j);
    OnDiskIsCount(HasId(x), s);
    OnDiskIsCount(HasNum(n), s);
    assert Total(HasId(x), s) == One(x < s.nextId) + Shadow(HasId(x), s);
    assert Total(HasNum(n), s) <= One(n <= s.lastNum) + Shadow(HasNum(n), s);
  }
}
