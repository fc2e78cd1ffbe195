/**
 The store's log buffer: sealed payloads under 16-byte keys, timestamp then sequence
 number, both big-endian. Seen from outside it is a priority queue.
 */
module LogBuffer {
  import opened Prelude
  import opened Frames
  import opened Positional
  import opened Bucket
  import opened Sealing

  function KeyOf(ts: int64, ord: nat): Bytes {
    BigEndian64(U64(ts)) + BigEndian64(ord)
  }

  // ---- the priority queue it implements -----------------------------------------------------

  /** A buffered log: insertion number `ord`, and its payload if it can be opened. */
  datatype Log = Log(ts: int64, ord: nat, payload: Option<Bytes>)

  predicate Before(x: Log, y: Log) {
    U64(x.ts) < U64(y.ts) || (U64(x.ts) == U64(y.ts) && x.ord < y.ord)
  }

  predicate Chronological(x: Log, y: Log) {
    x.ts < y.ts || (x.ts == y.ts && x.ord < y.ord)
  }

  /** Byte order of keys is numeric order of (uint64 timestamp, insertion number). */
  lemma KeyOrder(x: Log, y: Log)
    requires x.ord < U64_LIMIT && y.ord < U64_LIMIT
    ensures Less(KeyOf(x.ts, x.ord), KeyOf(y.ts, y.ord)) <==> Before(x, y)
    ensures KeyOf(x.ts, x.ord) == KeyOf(y.ts, y.ord) <==> x.ts == y.ts && x.ord == y.ord
  {
    var a, b, c, d := BigEndian64(U64(x.ts)), BigEndian64(x.ord), BigEndian64(U64(y.ts)), BigEndian64(y.ord);
    BigEndian64Order(U64(x.ts), U64(y.ts));
    BigEndian64Order(x.ord, y.ord);
    LessOfPairs(a, b, c, d);
    if a + b == c + d {
      assert (a + b)[..8] == a && (c + d)[..8] == c && (a + b)[8..] == b && (c + d)[8..] == d;
    }
  }

  /** The drain order of two logs is chronological exactly when their timestamps have one sign. */
  lemma ChronologicalExactlyWhen(x: Log, y: Log)
    ensures (Before(x, y) <==> Chronological(x, y)) && (Before(y, x) <==> Chronological(y, x))
       <==> ((x.ts < 0) == (y.ts < 0))
  {
  }

  ghost predicate InOrder(logs: seq<Log>) {
    forall i, j | 0 <= i < j < |logs| :: Before(logs[i], logs[j])
  }

  function Insert(logs: seq<Log>, l: Log): seq<Log> {
    if logs == [] || Before(l, logs[0]) then [l] + logs
    else [logs[0]] + Insert(logs[1..], l)
  }

  // ---- the store's two operations ---------------------------------------------------------------

  /** Entry i of the bucket is log i of the queue. */
  ghost predicate Matches(a: Aead, entries: seq<Entry<Bytes>>, logs: seq<Log>) {
    && |entries| == |logs|
    && forall i | 0 <= i < |logs| ::
         entries[i].key == KeyOf(logs[i].ts, logs[i].ord) && OpenValue(a, entries[i].value) == logs[i].payload
  }

  ghost predicate OrdsBelow(logs: seq<Log>, limit: nat) {
    forall i | 0 <= i < |logs| :: logs[i].ord < limit
  }

  lemma MatchesCons(a: Aead, e: Entry<Bytes>, l: Log, entries: seq<Entry<Bytes>>, logs: seq<Log>)
    requires Matches(a, entries, logs)
    requires e.key == KeyOf(l.ts, l.ord) && OpenValue(a, e.value) == l.payload
    ensures Matches(a, [e] + entries, [l] + logs)
  {
  }

  /** Under a fresh key, Put is Insert. */
  lemma {:induction false} PutIsInsert(a: Aead, entries: seq<Entry<Bytes>>, logs: seq<Log>, l: Log, value: Bytes)
    requires Matches(a, entries, logs) && OrdsBelow(logs, l.ord) && l.ord < U64_LIMIT
    requires OpenValue(a, value) == l.payload
    ensures Matches(a, Put(entries, KeyOf(l.ts, l.ord), value), Insert(logs, l))
  {
    var key := KeyOf(l.ts, l.ord);
    if logs == [] {
      MatchesCons(a, Entry(key, value), l, entries, logs);
    } else {
      var first := logs[0];
      assert entries[0].key == KeyOf(first.ts, first.ord);
      KeyOrder(l, first);
      if Before(l, first) {
        MatchesCons(a, Entry(key, value), l, entries, logs);
      } else {
        PutIsInsert(a, entries[1..], logs[1..], l, value);
        MatchesCons(a, entries[0], first, Put(entries[1..], key, value), Insert(logs[1..], l));
      }
    }
  }

  lemma {:induction false} InsertMultiset(logs: seq<Log>, l: Log)
    ensures multiset(Insert(logs, l)) == multiset(logs) + multiset{l}
  {
    if logs == [] || Before(l, logs[0]) {
      assert multiset([l] + logs) == multiset{l} + multiset(logs);
    } else {
      InsertMultiset(logs[1..], l);
      assert logs == [logs[0]] + logs[1..];
    }
  }

  lemma InsertMember(logs: seq<Log>, l: Log, x: Log)
    ensures x in Insert(logs, l) <==> x == l || x in logs
  {
    InsertMultiset(logs, l);
    assert x in Insert(logs, l) <==> x in multiset(Insert(logs, l));
  }

  /** Insertion keeps the order, and of logs with one timestamp the newest comes last. */
  lemma {:induction false} InsertInOrder(logs: seq<Log>, l: Log)
    requires InOrder(logs) && OrdsBelow(logs, l.ord)
    ensures InOrder(Insert(logs, l))
    ensures OrdsBelow(Insert(logs, l), l.ord + 1)
  {
    if logs == [] || Before(l, logs[0]) {
    } else {
      var rest := Insert(logs[1..], l);
      InsertInOrder(logs[1..], l);
      forall i | 0 <= i < |rest| ensures Before(logs[0], rest[i]) {
        InsertMember(logs[1..], l, rest[i]);
      }
    }
  }

  /** The logs bucket of the store, with the queue it stands for. */
  class Store {
    const aead: Aead
    var entries: seq<Entry<Bytes>>
    var sequence: nat
    ghost var logs: seq<Log>

    ghost predicate Valid()
      reads this
    {
      Matches(aead, entries, logs) && InOrder(logs) && OrdsBelow(logs, sequence + 1)
    }

    constructor (aead: Aead)
      ensures Valid() && logs == [] && sequence == 0 && this.aead == aead
    {
      this.aead, entries, sequence, logs := aead, [], 0, [];
    }

    /** `BufferLog`; `nonce` is what the random source returns. A uint64 counts the logs ever buffered. */
    method BufferLog(ts: int64, payload: Bytes, nonce: Option<Nonce>) returns (ok: bool)
      requires Valid() && aead.Valid() && sequence + 1 < U64_LIMIT
      modifies this
      ensures Valid() && ok == (nonce.Some? && Storable(payload))
      ensures ok <==> nonce.Some? && |payload| <= 2_147_483_617
      ensures !ok ==> logs == old(logs) && sequence == old(sequence)
      ensures ok ==>
        && sequence == old(sequence) + 1
        && logs == Insert(old(logs), Log(ts, sequence, Some(payload)))
    {
      if nonce.None? {
        return false;
      }
      var enc := SealValue(aead, nonce.value, payload);
      OpenSealed(aead, nonce.value, payload);
      if |enc| > MAX_VALUE_SIZE {
        return false;
      }
      sequence := sequence + 1;
      ghost var l := Log(ts, sequence, Some(payload));
      PutIsInsert(aead, entries, logs, l, enc);
      InsertInOrder(logs, l);
      entries := Put(entries, KeyOf(ts, sequence), enc);
      logs := Insert(logs, l);
      ok := true;
    }

    /** `DrainLogs`: the first n in one transaction, or nothing at all. */
    method DrainLogs(n: int) returns (out: Option<seq<Bytes>>)
      requires Valid()
      modifies this
      ensures Valid() && sequence == old(sequence)
      ensures var m := Min(Max(n, 0), |old(logs)|);
        if forall i | 0 <= i < m :: old(logs)[i].payload.Some? then
          && out.Some? && |out.value| == m
          && (forall i | 0 <= i < m :: old(logs)[i].payload == Some(out.value[i]))
          && logs == old(logs)[m..]
        else
          out.None? && logs == old(logs)
    {
      if n <= 0 {
        return Some([]);
      }
      var taken: seq<Bytes> := [];
      var i := 0;
      while i < |entries| && |taken| < n
        invariant i == |taken| <= |entries| && i <= n
        invariant forall j | 0 <= j < i :: logs[j].payload == Some(taken[j])
      {
        var pt := OpenValue(aead, entries[i].value);
        if pt.None? {
          assert logs[i].payload.None?;
          return None;
        }
        taken := taken + [pt.value];
        i := i + 1;
      }
      entries := entries[i..];
      logs := logs[i..];
      out := Some(taken);
    }
  }

  // ---- every interleaving of the two ---------------------------------------------------------------

  datatype Op = Buffer(ts: int64, payload: Bytes, nonce: Option<Nonce>) | Drain(n: int)

  datatype History = History(logs: seq<Log>, ord: nat, drained: seq<Log>, buffered: seq<Log>)

  function Step(h: History, op: Op): History {
    match op
    case Buffer(ts, payload, nonce) =>
      var l := Log(ts, h.ord + 1, Some(payload));
      if nonce.None? || !Storable(payload) then h
      else h.(logs := Insert(h.logs, l), ord := h.ord + 1, buffered := h.buffered + [l])
    case Drain(n) =>
      var m := Min(Max(n, 0), |h.logs|);
      h.(logs := h.logs[m..], drained := h.drained + h.logs[..m])
  }

  function Exec(h: History, ops: seq<Op>): History
    decreases |ops|
  {
    if ops == [] then h else Exec(Step(h, ops[0]), ops[1..])
  }

  /** Nothing is lost, duplicated or overwritten, and what is left is in order. */
  ghost predicate Sound(h: History) {
    && InOrder(h.logs) && OrdsBelow(h.logs, h.ord + 1)
    && multiset(h.drained) + multiset(h.logs) == multiset(h.buffered)
    && |h.buffered| == h.ord && Numbered(h.buffered)
  }

  ghost predicate Numbered(logs: seq<Log>) {
    forall i | 0 <= i < |logs| :: logs[i].ord == i + 1
  }

  lemma MoveKeepsMultiset(d: seq<Log>, l: seq<Log>, m: nat)
    requires m <= |l|
    ensures multiset(d + l[..m]) + multiset(l[m..]) == multiset(d) + multiset(l)
  {
    assert l == l[..m] + l[m..];
  }

  lemma InsertKeepsMultiset(d: seq<Log>, logs: seq<Log>, buffered: seq<Log>, l: Log)
    requires multiset(d) + multiset(logs) == multiset(buffered)
    ensures multiset(d) + multiset(Insert(logs, l)) == multiset(buffered + [l])
  {
    InsertMultiset(logs, l);
  }

  lemma DropInOrder(logs: seq<Log>, m: nat, limit: nat)
    requires m <= |logs| && InOrder(logs) && OrdsBelow(logs, limit)
    ensures InOrder(logs[m..]) && OrdsBelow(logs[m..], limit)
  {
  }

  lemma BufferSound(h: History, l: Log)
    requires Sound(h) && l.ord == h.ord + 1
    ensures Sound(h.(logs := Insert(h.logs, l), ord := h.ord + 1, buffered := h.buffered + [l]))
  {
    InsertKeepsMultiset(h.drained, h.logs, h.buffered, l);
    InsertInOrder(h.logs, l);
    assert Numbered(h.buffered + [l]);
  }

  lemma DrainSound(h: History, m: nat)
    requires Sound(h) && m <= |h.logs|
    ensures Sound(h.(logs := h.logs[m..], drained := h.drained + h.logs[..m]))
  {
    MoveKeepsMultiset(h.drained, h.logs, m);
    DropInOrder(h.logs, m, h.ord + 1);
  }

  lemma StepSound(h: History, op: Op)
    requires Sound(h)
    ensures Sound(Step(h, op))
  {
    match op
    case Buffer(ts, payload, nonce) =>
      BufferSound(h, Log(ts, h.ord + 1, Some(payload)));
    case Drain(n) =>
      DrainSound(h, Min(Max(n, 0), |h.logs|));
  }

  lemma {:induction false} ExecSound(h: History, ops: seq<Op>)
    requires Sound(h)
    ensures Sound(Exec(h, ops))
    decreases |ops|
  {
    if ops == [] {
    } else {
      StepSound(h, ops[0]);
      ExecSound(Step(h, ops[0]), ops[1..]);
    }
  }

  const EMPTY: History := History([], 0, [], [])

  /** No negative timestamp beside one that is not. */
  predicate OneSign(logs: seq<Log>) {
    forall i, j | 0 <= i < j < |logs| :: (logs[i].ts < 0) == (logs[j].ts < 0)
  }

  ghost predicate InTimeOrder(logs: seq<Log>) {
    forall i, j | 0 <= i < j < |logs| :: Chronological(logs[i], logs[j])
  }

  lemma OrderedByTime(logs: seq<Log>)
    requires InOrder(logs)
    ensures InTimeOrder(logs) <==> OneSign(logs)
  {
    forall i, j | 0 <= i < j < |logs|
      ensures Chronological(logs[i], logs[j]) <==> (logs[i].ts < 0) == (logs[j].ts < 0)
    {
      assert Before(logs[i], logs[j]);
    }
  }

  /**
   What a drain returns is in chronological order exactly when no negative timestamp is
   among it beside one that is not: the next n logs after any operations.
   */
  lemma DrainInTimeOrderExactlyWhen(ops: seq<Op>, n: nat)
    requires n <= |Exec(EMPTY, ops).logs|
    ensures var next := Step(Exec(EMPTY, ops), Drain(n)).drained[|Exec(EMPTY, ops).drained|..];
      && next == Exec(EMPTY, ops).logs[..n]
      && (InTimeOrder(next) <==> OneSign(next))
  {
    PriorityQueue(ops, n);
    var h := Exec(EMPTY, ops);
    assert (h.drained + h.logs[..n])[|h.drained|..] == h.logs[..n];
    OrderedByTime(h.logs[..n]);
  }

  lemma {:induction false} OrdGrows(h: History, ops: seq<Op>)
    ensures h.ord <= Exec(h, ops).ord <= h.ord + |ops|
    decreases |ops|
  {
    if ops == [] {
    } else {
      OrdGrows(Step(h, ops[0]), ops[1..]);
    }
  }

  ghost predicate AllReadable(logs: seq<Log>) {
    forall i | 0 <= i < |logs| :: logs[i].payload.Some?
  }

  /** What a store has returned: the payloads of the logs its history has drained. */
  ghost predicate Returned(out: seq<Bytes>, drained: seq<Log>) {
    |out| == |drained| && forall i | 0 <= i < |out| :: drained[i].payload == Some(out[i])
  }

  /** One operation on a store whose logs can all be opened follows its history. */
  method DriveOne(b: Store, op: Op, ghost h: History) returns (out: seq<Bytes>)
    requires b.Valid() && b.aead.Valid() && b.sequence + 1 < U64_LIMIT
    requires h.logs == b.logs && h.ord == b.sequence && AllReadable(b.logs)
    modifies b
    ensures b.Valid() && Step(h, op).logs == b.logs && Step(h, op).ord == b.sequence && AllReadable(b.logs)
    ensures |h.drained| <= |Step(h, op).drained| && Step(h, op).drained[..|h.drained|] == h.drained
    ensures Returned(out, Step(h, op).drained[|h.drained|..])
  {
    out := [];
    match op {
      case Buffer(ts, payload, nonce) =>
        var ok := b.BufferLog(ts, payload, nonce);
        if ok {
          InsertReadable(h.logs, Log(ts, h.ord + 1, Some(payload)));
        }
      case Drain(n) =>
        var drained := b.DrainLogs(n);
        ghost var m := Min(Max(n, 0), |h.logs|);
        assert (h.drained + h.logs[..m])[|h.drained|..] == h.logs[..m];
        out := drained.value;
    }
  }

  lemma InsertReadable(logs: seq<Log>, l: Log)
    requires AllReadable(logs) && l.payload.Some?
    ensures AllReadable(Insert(logs, l))
  {
    forall i | 0 <= i < |Insert(logs, l)| ensures Insert(logs, l)[i].payload.Some? {
      InsertMember(logs, l, Insert(logs, l)[i]);
    }
  }

  /** A new store driven by any operations follows their history, and returns what that drains. */
  method Drive(b: Store, ops: seq<Op>) returns (out: seq<Bytes>)
    requires b.Valid() && b.aead.Valid() && b.logs == [] && b.sequence == 0 && |ops| < U64_LIMIT
    modifies b
    ensures b.Valid() && b.logs == Exec(EMPTY, ops).logs && b.sequence == Exec(EMPTY, ops).ord
    ensures Returned(out, Exec(EMPTY, ops).drained)
  {
    ghost var h := EMPTY;
    out := [];
    var i := 0;
    assert ops[0..] == ops;
    while i < |ops|
      invariant i <= |ops| && b.Valid() && b.logs == h.logs && b.sequence == h.ord <= i && AllReadable(b.logs)
      invariant Exec(h, ops[i..]) == Exec(EMPTY, ops)
      invariant Returned(out, h.drained)
    {
      OrdGrows(h, [ops[i]]);
      var more := DriveOne(b, ops[i], h);
      assert ops[i..][1..] == ops[i + 1..];
      ReturnedMore(out, more, h.drained, Step(h, ops[i]).drained);
      out := out + more;
      h := Step(h, ops[i]);
      i := i + 1;
    }
  }

  lemma ReturnedMore(out: seq<Bytes>, more: seq<Bytes>, before: seq<Log>, after: seq<Log>)
    requires Returned(out, before) && |before| <= |after| && after[..|before|] == before
    requires Returned(more, after[|before|..])
    ensures Returned(out + more, after)
  {
    assert after == before + after[|before|..];
  }

  /**
   Over any interleaving of buffering and draining: the logs drained and the logs left
   are together exactly the logs buffered, each once, and the next drain returns the
   ones that precede all that stay.
   */
  lemma PriorityQueue(ops: seq<Op>, n: nat)
    ensures var h := Exec(EMPTY, ops);
      && multiset(h.drained) + multiset(h.logs) == multiset(h.buffered)
      && (forall l | l in h.buffered :: multiset(h.drained)[l] + multiset(h.logs)[l] == 1)
      && (n <= |h.logs| ==>
            && InOrder(h.logs[..n])
            && forall i, j | 0 <= i < n <= j < |h.logs| :: Before(h.logs[i], h.logs[j]))
  {
    ExecSound(EMPTY, ops);
    var h := Exec(EMPTY, ops);
    forall l | l in h.buffered ensures multiset(h.buffered)[l] == 1 {
      DistinctOnce(h.buffered, l);
    }
  }

  /** In a sequence of logs numbered upwards, each occurs once. */
  lemma {:induction false} DistinctOnce(logs: seq<Log>, l: Log)
    requires l in logs
    requires forall i, j | 0 <= i < j < |logs| :: logs[i].ord < logs[j].ord
    ensures multiset(logs)[l] == 1
  {
    var front, last := logs[..|logs| - 1], logs[|logs| - 1];
    assert logs == front + [last];
    if l == last {
      assert l !in front;
    } else {
      assert l in front;
      DistinctOnce(front, l);
    }
  }
}
