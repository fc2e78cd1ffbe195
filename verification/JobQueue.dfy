/** The queue bucket of the store: sealed jobs under their run ids, visited in key order. */
module JobQueue {
  import opened Prelude
  import opened Frames
  import opened Bucket
  import opened Sealing

  datatype QueuedJob = QueuedJob(runId: Bytes, payload: Bytes)

  predicate Readable(aead: Aead, e: Entry<Bytes>) { OpenValue(aead, e.value).Some? }

  /** A fetch of n jobs meets none it cannot open. */
  predicate Fetchable(aead: Aead, b: seq<Entry<Bytes>>, n: int) {
    forall i | 0 <= i < Min(Max(n, 0), |b|) :: Readable(aead, b[i])
  }

  /** What the store takes: bbolt refuses empty and oversized keys and oversized values. */
  predicate Accepted(runId: Bytes, payload: Bytes, nonce: Option<Nonce>) {
    0 < |runId| <= MAX_KEY_SIZE && nonce.Some? && Storable(payload)
  }

  /** The job stored under a run id, if there is one and it can be opened. */
  function Lookup(aead: Aead, b: seq<Entry<Bytes>>, runId: Bytes): Option<Bytes> {
    if Get(b, runId).Some? then OpenValue(aead, Get(b, runId).value) else None
  }

  class Store {
    const aead: Aead
    var entries: seq<Entry<Bytes>>

    ghost predicate Valid()
      reads this
    {
      Sorted(entries)
    }

    constructor (aead: Aead)
      ensures Valid() && entries == [] && this.aead == aead
    {
      this.aead, entries := aead, [];
    }

    /** `EnqueueJob`: the latest payload under a run id replaces the one before, and touches no other. */
    method EnqueueJob(runId: Bytes, payload: Bytes, nonce: Option<Nonce>) returns (ok: bool)
      requires Valid() && aead.Valid()
      modifies this
      ensures Valid() && ok == Accepted(runId, payload, nonce)
      ensures ok <==> 0 < |runId| <= 32_768 && nonce.Some? && |payload| <= 2_147_483_617
      ensures entries == if ok then Put(old(entries), runId, SealValue(aead, nonce.value, payload)) else old(entries)
      ensures ok ==>
        && Lookup(aead, entries, runId) == Some(payload)
        && (forall k: Bytes :: k != runId ==> Get(entries, k) == Get(old(entries), k))
        && |entries| == |old(entries)| + if Get(old(entries), runId).None? then 1 else 0
    {
      if runId == [] || nonce.None? {
        return false;
      }
      var enc := SealValue(aead, nonce.value, payload);
      OpenSealed(aead, nonce.value, payload);
      if |runId| > MAX_KEY_SIZE || |enc| > MAX_VALUE_SIZE {
        return false;
      }
      PutSorted(entries, runId, enc);
      PutLength(entries, runId, enc);
      forall k: Bytes ensures Get(Put(entries, runId, enc), k) == if k == runId then Some(enc) else Get(entries, k) {
        GetPut(entries, runId, enc, k);
      }
      entries := Put(entries, runId, enc);
      ok := true;
    }

    /** `DequeueJobs`: the first n in key order, or nothing if any of those cannot be opened. */
    method DequeueJobs(n: int) returns (out: Option<seq<QueuedJob>>)
      ensures var m := Min(Max(n, 0), |entries|);
        && (out.Some? <==> Fetchable(aead, entries, n))
        && (out.Some? ==>
              && |out.value| == m
              && forall i | 0 <= i < m ::
                   && out.value[i].runId == entries[i].key
                   && Some(out.value[i].payload) == OpenValue(aead, entries[i].value))
    {
      if n <= 0 {
        return Some([]);
      }
      var jobs: seq<QueuedJob> := [];
      var i := 0;
      while i < |entries| && |jobs| < n
        invariant i == |jobs| <= |entries| && i <= n
        invariant forall j | 0 <= j < i ::
          jobs[j].runId == entries[j].key && Some(jobs[j].payload) == OpenValue(aead, entries[j].value)
      {
        var pt := OpenValue(aead, entries[i].value);
        if pt.None? {
          assert !Readable(aead, entries[i]);
          return None;
        }
        jobs := jobs + [QueuedJob(entries[i].key, pt.value)];
        i := i + 1;
      }
      out := Some(jobs);
    }

    /** `AckJob`: that job is gone, every other stays. */
    method AckJob(runId: Bytes)
      requires Valid()
      modifies this
      ensures Valid() && Get(entries, runId).None?
      ensures entries == Delete(old(entries), runId)
      ensures forall k: Bytes :: k != runId ==> Get(entries, k) == Get(old(entries), k)
    {
      forall k: Bytes
        ensures Sorted(Delete(entries, runId))
        ensures Get(Delete(entries, runId), k) == if k == runId then None else Get(entries, k)
      {
        GetDelete(entries, runId, k);
      }
      assert Get(Delete(entries, runId), runId).None?;
      entries := Delete(entries, runId);
    }
  }

  // ---- histories -----------------------------------------------------------------------------------

  datatype Op = Enqueue(runId: Bytes, payload: Bytes, nonce: Option<Nonce>) | Ack(runId: Bytes)
  {
    predicate Effective() { Enqueue? ==> Accepted(runId, payload, nonce) }
  }

  function Exec(aead: Aead, b: seq<Entry<Bytes>>, ops: seq<Op>): seq<Entry<Bytes>>
    decreases |ops|
  {
    if ops == [] then b else
      var front, last := Exec(aead, b, ops[..|ops| - 1]), ops[|ops| - 1];
      if !last.Effective() then front
      else
        match last
        case Enqueue(runId, payload, nonce) => Put(front, runId, SealValue(aead, nonce.value, payload))
        case Ack(runId) => Delete(front, runId)
  }

  /** A store driven by the operations of a history holds what the history says. */
  method Drive(q: Store, ops: seq<Op>)
    requires q.Valid() && q.aead.Valid()
    modifies q
    ensures q.Valid() && q.entries == Exec(q.aead, old(q.entries), ops)
  {
    var i := 0;
    while i < |ops|
      invariant i <= |ops| && q.Valid() && q.entries == Exec(q.aead, old(q.entries), ops[..i])
    {
      match ops[i] {
        case Enqueue(runId, payload, nonce) => var _ := q.EnqueueJob(runId, payload, nonce);
        case Ack(runId) => q.AckJob(runId);
      }
      assert ops[..i + 1][..i] == ops[..i];
      i := i + 1;
    }
    assert ops[..i] == ops;
  }

  /** The last operation that had an effect on a run id. */
  function LastOn(ops: seq<Op>, runId: Bytes): Option<Op>
    decreases |ops|
  {
    if ops == [] then None
    else if ops[|ops| - 1].Effective() && ops[|ops| - 1].runId == runId then Some(ops[|ops| - 1])
    else LastOn(ops[..|ops| - 1], runId)
  }

  /**
   Jobs dedupe by run id: after any sequence of enqueues and acks the queue is in key
   order and holds, under each run id, exactly what was last enqueued and not acked since.
   */
  lemma {:induction false} LastEnqueueWins(aead: Aead, b: seq<Entry<Bytes>>, ops: seq<Op>, runId: Bytes)
    requires Sorted(b) && aead.Valid()
    ensures Sorted(Exec(aead, b, ops))
    ensures var last, now := LastOn(ops, runId), Exec(aead, b, ops);
      if last.None? then Get(now, runId) == Get(b, runId)
      else if last.value.Ack? then Get(now, runId) == None
      else Get(now, runId).Some? && Lookup(aead, now, runId) == Some(last.value.payload)
    decreases |ops|
  {
    if ops == [] {
    } else {
      var front, op := ops[..|ops| - 1], ops[|ops| - 1];
      LastEnqueueWins(aead, b, front, runId);
      if op.Effective() {
        match op
        case Enqueue(id, payload, nonce) =>
          var enc := SealValue(aead, nonce.value, payload);
          OpenSealed(aead, nonce.value, payload);
          PutSorted(Exec(aead, b, front), id, enc);
          GetPut(Exec(aead, b, front), id, enc, runId);
        case Ack(id) =>
          GetDelete(Exec(aead, b, front), id, runId);
      }
    }
  }

  /** A job that cannot be opened fails every fetch that reaches it, until it is acked or replaced. */
  lemma UnreadableJobBlocks(aead: Aead, b: seq<Entry<Bytes>>, ops: seq<Op>, bad: Bytes)
    requires Sorted(b) && aead.Valid() && Get(b, bad).Some? && Lookup(aead, b, bad).None?
    requires LastOn(ops, bad).None?
    ensures exists i: nat ::
      && i < |Exec(aead, b, ops)| && Exec(aead, b, ops)[i].key == bad
      && (forall n: int :: n > i ==> !Fetchable(aead, Exec(aead, b, ops), n))
  {
    LastEnqueueWins(aead, b, ops, bad);
    var now := Exec(aead, b, ops);
    var i := GetIsEntry(now, bad);
    assert !Readable(aead, now[i]);
  }
}
