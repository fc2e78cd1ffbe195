/**
 A process that starts with what an earlier one left on disk. Numbers start over, so a new
 envelope can come to be queued under a leftover's key.
 */
module DeliveryRestart {
  import opened Prelude
  import opened Frames
  import opened Bucket
  import opened Delivery
  import opened DeliveryCalls
  import opened DeliveryInvariant
  import opened DeliverySteps
  import opened DeliveryTheorems
  import opened QueueKeys

  /** A new process over the queue d. */
  function Restarted(d: seq<Entry<Env>>): State { INIT.(disk := d) }

  /** No correlation id of a leftover is used again. */
  predicate NewCorrelation(d: seq<Entry<Env>>, corr: Bytes) {
    corr == [] || Get(d, corr).None?
  }

  predicate NewCorrelations(d: seq<Entry<Env>>, run: seq<Action>) {
    forall i | 0 <= i < |run| && run[i].SendStart? :: NewCorrelation(d, run[i].corr)
  }

  /** Sender i is about to put its envelope on disk under a key that is already there. */
  predicate Overwrites(s: State, i: nat) {
    Enabled(s, SendQueue(i)) && Get(s.disk, s.senders[i].env.Key()).Some?
  }

  /** No leftover sits under a key that the new process can number an envelope with. */
  ghost predicate NoNumberedLeftover(d: seq<Entry<Env>>) {
    forall n: nat :: n >= 1 ==> Get(d, SeqKey(n)).None?
  }

  // ---- without numbered leftovers nothing is overwritten --------------------------------------------

  /** A key on disk is a leftover's, or that of an envelope which is no longer with its sender. */
  ghost predicate Settled(d: seq<Entry<Env>>, s: State, key: Bytes) {
    Get(d, key).Some? || exists e | e in s.sent :: e.Key() == key && Gone(s, e)
  }

  predicate Gone(s: State, e: Env) {
    forall j | 0 <= j < |s.senders| :: s.senders[j].env != e
  }

  ghost predicate AllSettled(d: seq<Entry<Env>>, s: State) {
    forall i | 0 <= i < |s.disk| :: Settled(d, s, s.disk[i].key)
  }

  ghost predicate RestartInv(d: seq<Entry<Env>>, s: State) {
    && SentInv(s) && SenderInv(s) && AllSettled(d, s)
    && forall i | 0 <= i < |s.sent| :: NewCorrelation(d, s.sent[i].corr)
  }

  lemma RestartInit(d: seq<Entry<Env>>)
    requires Sorted(d)
    ensures RestartInv(d, Restarted(d))
  {
    forall i | 0 <= i < |d| ensures Settled(d, Restarted(d), d[i].key) {
      EntryIsGot(d, i);
    }
  }

  /** An envelope that has left its sender does not come back to one. */
  lemma GoneKeep(s: State, a: Action, e: Env)
    requires SentInv(s) && Enabled(s, a) && e in s.sent && Gone(s, e)
    ensures e in Apply(s, a).sent && Gone(Apply(s, a), e)
  {
    var s' := Apply(s, a);
    if a.SendStart? {
      var i :| 0 <= i < |s.sent| && s.sent[i] == e;
      assert s.sent[i].id != s.nextId;
      assert s'.sent[i] == e;
    } else if a.SendPush? || a.SendQueue? {
      assert forall j | 0 <= j < |s'.senders| :: s'.senders[j] == s.senders[if j < a.i then j else j + 1];
    }
  }

  lemma SettledKeep(d: seq<Entry<Env>>, s: State, a: Action, key: Bytes)
    requires SentInv(s) && Enabled(s, a) && Settled(d, s, key)
    ensures Settled(d, Apply(s, a), key)
  {
    if Get(d, key).None? {
      var e :| e in s.sent && e.Key() == key && Gone(s, e);
      GoneKeep(s, a, e);
    }
  }

  /** The one that is put on disk has left its sender. */
  lemma QueuedIsGone(s: State, i: nat)
    requires SenderInv(s) && Enabled(s, SendQueue(i))
    ensures var s' := Apply(s, SendQueue(i)); s.senders[i].env in s'.sent && Gone(s', s.senders[i].env)
  {
    var s' := Apply(s, SendQueue(i));
    assert forall j | 0 <= j < |s'.senders| :: s'.senders[j] == s.senders[if j < i then j else j + 1];
  }

  lemma AllSettledKeep(d: seq<Entry<Env>>, s: State, a: Action)
    requires SentInv(s) && SenderInv(s) && AllSettled(d, s) && Enabled(s, a)
    ensures AllSettled(d, Apply(s, a))
  {
    var s' := Apply(s, a);
    forall k | 0 <= k < |s'.disk| ensures Settled(d, s', s'.disk[k].key) {
      DiskSource(s, a, k);
      if s'.disk[k] in s.disk {
        var j :| 0 <= j < |s.disk| && s.disk[j] == s'.disk[k];
        SettledKeep(d, s, a, s.disk[j].key);
      } else {
        QueuedIsGone(s, a.i);
      }
    }
  }

  /** What a step leaves on disk was there, or is what a sender has just queued. */
  lemma DiskSource(s: State, a: Action, k: nat)
    requires Enabled(s, a) && k < |Apply(s, a).disk|
    ensures var e := Apply(s, a).disk[k];
      e in s.disk || (a.SendQueue? && e == Entry(s.senders[a.i].env.Key(), s.senders[a.i].env))
  {
    if a.SendQueue? {
      PutEntries(s.disk, s.senders[a.i].env.Key(), s.senders[a.i].env);
    } else if a.ReplayAck? {
      DeleteEntries(s.disk, Cur(s).phase.acking.value.Key());
    }
  }

  lemma {:induction false} DeleteEntries(b: seq<Entry<Env>>, key: Bytes)
    ensures forall k | 0 <= k < |Delete(b, key)| :: Delete(b, key)[k] in b
  {
    if b == [] || b[0].key == key {
    } else {
      DeleteEntries(b[1..], key);
    }
  }

  lemma RestartStep(d: seq<Entry<Env>>, s: State, a: Action)
    requires RestartInv(d, s) && Enabled(s, a) && (a.SendStart? ==> NewCorrelation(d, a.corr))
    ensures RestartInv(d, Apply(s, a))
  {
    SentKeep(s, a);
    SenderKeep(s, a);
    AllSettledKeep(d, s, a);
  }

  lemma {:induction false} RestartRun(d: seq<Entry<Env>>, s: State, run: seq<Action>)
    requires RestartInv(d, s) && Runs(s, run) && NewCorrelations(d, run)
    ensures RestartInv(d, After(s, run))
    decreases |run|
  {
    if run == [] {
    } else {
      NewCorrelationsTail(d, run);
      RestartStep(d, s, run[0]);
      RestartRun(d, Apply(s, run[0]), run[1..]);
    }
  }

  lemma NewCorrelationsTail(d: seq<Entry<Env>>, run: seq<Action>)
    requires run != [] && NewCorrelations(d, run)
    ensures run[0].SendStart? ==> NewCorrelation(d, run[0].corr)
    ensures NewCorrelations(d, run[1..])
  {
    forall i | 0 <= i < |run[1..]| && run[1..][i].SendStart? ensures NewCorrelation(d, run[1..][i].corr) {
      assert run[i + 1] == run[1..][i];
    }
  }

  /** Where the invariant holds, a queueing sender finds its key free. */
  lemma NothingOverwritten(d: seq<Entry<Env>>, s: State, i: nat)
    requires RestartInv(d, s) && NoNumberedLeftover(d) && Enabled(s, SendQueue(i))
    ensures !Overwrites(s, i)
  {
    var env := s.senders[i].env;
    var k :| 0 <= k < |s.sent| && s.sent[k] == env;
    assert NewCorrelation(d, env.corr) && env.num >= 1;
    if Overwrites(s, i) {
      var j := GetIsEntry(s.disk, env.Key());
      assert Settled(d, s, env.Key());
      var e :| e in s.sent && e.Key() == env.Key() && Gone(s, e);
      SameKeySameEnvelope(s, e, env);
      assert false;
    }
  }

  // ---- with one, some run overwrites it --------------------------------------------------------------

  const OFFLINE_BEGIN: seq<Action> := [SendStart([]), SendPick(0), SendSpill(0)]

  /** A client that has never been connected and has no call of Send under way. */
  predicate Offline(s: State) { s.conns == [] && s.senders == [] }

  /** One send while disconnected, up to where its envelope is about to be put on disk. */
  lemma OfflineBegin(s: State) returns (s': State)
    requires Offline(s)
    ensures Runs(s, OFFLINE_BEGIN) && s' == After(s, OFFLINE_BEGIN) && Enabled(s', SendQueue(0))
    ensures s'.disk == s.disk && s'.senders[0].env == Env(s.nextId, s.lastNum + 1, [])
    ensures Apply(s', SendQueue(0)) == Sent(s, [])
  {
    var s1 := Apply(s, SendStart([]));
    var s2 := Apply(s1, SendPick(0));
    s' := Apply(s2, SendSpill(0));
    assert OFFLINE_BEGIN[1..] == [SendPick(0), SendSpill(0)] && OFFLINE_BEGIN[1..][1..] == [SendSpill(0)];
    assert After(s2, [SendSpill(0)]) == s';
    assert After(s1, [SendPick(0), SendSpill(0)]) == s';
    assert Remove(s'.senders, 0) == [];
  }

  lemma OfflineSend(s: State) returns (run: seq<Action>)
    requires Offline(s)
    ensures Runs(s, run) && After(s, run) == Sent(s, [])
    ensures forall i | 0 <= i < |run| && run[i].SendStart? :: run[i].corr == []
  {
    var s' := OfflineBegin(s);
    assert After(s', [SendQueue(0)]) == After(Apply(s', SendQueue(0)), []);
    RunsAppend(s, OFFLINE_BEGIN, [SendQueue(0)]);
    run := OFFLINE_BEGIN + [SendQueue(0)];
  }

  /** n sends while disconnected, from number `lastNum` on; other keys stay as they are. */
  lemma {:induction false} OfflineSends(s: State, n: nat) returns (run: seq<Action>, s': State)
    requires Offline(s) && Sorted(s.disk)
    ensures Runs(s, run) && s' == After(s, run) && Offline(s') && Sorted(s'.disk)
    ensures s'.lastNum == s.lastNum + n && s'.nextId == s.nextId + n
    ensures forall k: nat :: k <= s.lastNum || k > s.lastNum + n ==> Get(s'.disk, SeqKey(k)) == Get(s.disk, SeqKey(k))
    ensures forall k: nat :: s.lastNum < k <= s.lastNum + n ==> Get(s'.disk, SeqKey(k)).Some?
    ensures forall i | 0 <= i < |run| && run[i].SendStart? :: run[i].corr == []
    decreases n
  {
    if n == 0 {
      run, s' := [], s;
    } else {
      var before, mid := OfflineSends(s, n - 1);
      var last := OfflineSend(mid);
      RunsAppend(s, before, last);
      run, s' := before + last, Sent(mid, []);
      var env := Env(mid.nextId, mid.lastNum + 1, []);
      PutSorted(mid.disk, env.Key(), env);
      forall k: nat
        ensures Get(s'.disk, SeqKey(k)) == if k == s.lastNum + n then Some(env) else Get(mid.disk, SeqKey(k))
      {
        SeqKeyInjective(k, s.lastNum + n);
        GetPut(mid.disk, env.Key(), env, SeqKey(k));
      }
    }
  }

  /** A leftover under "seq-n" is found by the nth envelope sent while disconnected, which replaces it. */
  lemma RestartOverwrites(d: seq<Entry<Env>>, n: nat) returns (run: seq<Action>, s: State)
    requires Sorted(d) && n >= 1 && Get(d, SeqKey(n)).Some?
    ensures Runs(Restarted(d), run) && NewCorrelations(d, run) && s == After(Restarted(d), run)
    ensures Overwrites(s, 0) && Get(s.disk, SeqKey(n)) == Get(d, SeqKey(n))
    ensures var s' := Apply(s, SendQueue(0));
      Get(s'.disk, SeqKey(n)) == Some(Env(n - 1, n, [])) && |s'.disk| == |s.disk|
  {
    var before, mid := OfflineSends(Restarted(d), n - 1);
    s := OfflineBegin(mid);
    RunsAppend(Restarted(d), before, OFFLINE_BEGIN);
    run := before + OFFLINE_BEGIN;
    assert s.senders[0].env == Env(n - 1, n, []) && s.senders[0].env.Key() == SeqKey(n);
    GetPut(s.disk, SeqKey(n), Env(n - 1, n, []), SeqKey(n));
    PutLength(s.disk, SeqKey(n), Env(n - 1, n, []));
  }

  /**
   Which queues a new process can start over: it overwrites nothing in any run exactly when
   no leftover was queued under a number, counting from 1.
   */
  lemma RestartSafeExactlyWhen(d: seq<Entry<Env>>)
    requires Sorted(d)
    ensures (forall run: seq<Action>, i: nat ::
               Runs(Restarted(d), run) && NewCorrelations(d, run) ==> !Overwrites(After(Restarted(d), run), i))
            <==> NoNumberedLeftover(d)
  {
    if NoNumberedLeftover(d) {
      forall run: seq<Action>, i: nat | Runs(Restarted(d), run) && NewCorrelations(d, run)
        ensures !Overwrites(After(Restarted(d), run), i)
      {
        RestartInit(d);
        RestartRun(d, Restarted(d), run);
        if Enabled(After(Restarted(d), run), SendQueue(i)) {
          NothingOverwritten(d, After(Restarted(d), run), i);
        }
      }
    } else {
      var n: nat :| n >= 1 && Get(d, SeqKey(n)).Some?;
      var run, s := RestartOverwrites(d, n);
      assert Overwrites(After(Restarted(d), run), 0);
    }
  }

  /** And processes do leave such queues: after n sends without a connection, one entry under each number. */
  lemma LeftoversReached(n: nat) returns (run: seq<Action>, s: State)
    ensures Reached(run, s) && Offline(s)
    ensures forall k: nat :: Get(s.disk, SeqKey(k)).Some? <==> 1 <= k <= n
  {
    run, s := OfflineSends(INIT, n);
  }
}
