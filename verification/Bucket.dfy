/** A bbolt bucket: key-value pairs that a cursor visits in byte order of the keys. */
module Bucket {
  import opened Prelude
  import opened Frames
  import opened Positional

  datatype Entry<+V> = Entry(key: Bytes, value: V)

  ghost predicate Sorted<V>(b: seq<Entry<V>>) {
    forall i, j | 0 <= i < j < |b| :: Less(b[i].key, b[j].key)
  }

  /** Insert in key order, or replace the value under an existing key. */
  function Put<V>(b: seq<Entry<V>>, key: Bytes, value: V): seq<Entry<V>> {
    if b == [] || Less(key, b[0].key) then [Entry(key, value)] + b
    else if b[0].key == key then [Entry(key, value)] + b[1..]
    else [b[0]] + Put(b[1..], key, value)
  }

  function Delete<V>(b: seq<Entry<V>>, key: Bytes): seq<Entry<V>> {
    if b == [] then []
    else if b[0].key == key then b[1..]
    else [b[0]] + Delete(b[1..], key)
  }

  function Get<V>(b: seq<Entry<V>>, key: Bytes): Option<V> {
    if b == [] then None
    else if b[0].key == key then Some(b[0].value)
    else Get(b[1..], key)
  }

  lemma SortedTail<V>(b: seq<Entry<V>>)
    requires Sorted(b) && b != []
    ensures Sorted(b[1..])
    ensures forall i | 0 <= i < |b[1..]| :: Less(b[0].key, b[1..][i].key)
  {
  }

  lemma SortedCons<V>(e: Entry<V>, b: seq<Entry<V>>)
    requires Sorted(b) && forall i | 0 <= i < |b| :: Less(e.key, b[i].key)
    ensures Sorted([e] + b)
  {
  }

  /** Below the first key of a sorted bucket is below all of them. */
  lemma BelowFirst<V>(key: Bytes, b: seq<Entry<V>>)
    requires Sorted(b) && b != [] && Less(key, b[0].key)
    ensures forall i | 0 <= i < |b| :: Less(key, b[i].key)
  {
    forall i | 0 < i < |b| ensures Less(key, b[i].key) {
      LessTransitive(key, b[0].key, b[i].key);
    }
  }

  /** Put keeps the order, and every key it leaves was there or is the new one. */
  lemma {:induction false} PutSorted<V>(b: seq<Entry<V>>, key: Bytes, value: V)
    requires Sorted(b)
    ensures Sorted(Put(b, key, value))
    ensures forall i | 0 <= i < |Put(b, key, value)| ::
      Put(b, key, value)[i].key == key || exists j :: 0 <= j < |b| && b[j].key == Put(b, key, value)[i].key
  {
    if b == [] {
    } else if Less(key, b[0].key) {
      BelowFirst(key, b);
      SortedCons(Entry(key, value), b);
      assert forall i | 0 < i < |Put(b, key, value)| :: Put(b, key, value)[i] == b[i - 1];
    } else if b[0].key == key {
      SortedTail(b);
      SortedCons(Entry(key, value), b[1..]);
      assert forall i | 0 < i < |Put(b, key, value)| :: Put(b, key, value)[i] == b[i];
    } else {
      LessTotal(key, b[0].key);
      SortedTail(b);
      PutSorted(b[1..], key, value);
      var rest := Put(b[1..], key, value);
      forall i | 0 <= i < |rest| ensures Less(b[0].key, rest[i].key) {
        if rest[i].key != key {
          var j :| 0 <= j < |b[1..]| && b[1..][j].key == rest[i].key;
        }
      }
      SortedCons(b[0], rest);
      assert Put(b, key, value) == [b[0]] + rest;
      forall i | 0 <= i < |Put(b, key, value)|
        ensures Put(b, key, value)[i].key == key || exists j :: 0 <= j < |b| && b[j].key == Put(b, key, value)[i].key
      {
        if i > 0 && rest[i - 1].key != key {
          var j :| 0 <= j < |b[1..]| && b[1..][j].key == rest[i - 1].key;
          assert b[j + 1].key == rest[i - 1].key;
        }
      }
    }
  }

  /** The bucket is a map: Put changes one key. */
  lemma {:induction false} GetPut<V>(b: seq<Entry<V>>, key: Bytes, value: V, k: Bytes)
    requires Sorted(b)
    ensures Get(Put(b, key, value), k) == if k == key then Some(value) else Get(b, k)
  {
    if b == [] {
    } else if Less(key, b[0].key) {
      assert Put(b, key, value)[1..] == b;
    } else if b[0].key == key {
      assert Put(b, key, value)[1..] == b[1..];
    } else {
      GetPut(b[1..], key, value, k);
      assert Put(b, key, value)[1..] == Put(b[1..], key, value);
    }
  }

  lemma {:induction false} GetAbove<V>(b: seq<Entry<V>>, k: Bytes)
    requires Sorted(b) && forall i | 0 <= i < |b| :: Less(k, b[i].key)
    ensures Get(b, k).None?
  {
    if b == [] {
    } else {
      LessIrreflexive(k);
      SortedTail(b);
      GetAbove(b[1..], k);
    }
  }

  /** Delete removes one key and leaves the rest, in order. */
  lemma {:induction false} GetDelete<V>(b: seq<Entry<V>>, key: Bytes, k: Bytes)
    requires Sorted(b)
    ensures Sorted(Delete(b, key))
    ensures forall i | 0 <= i < |Delete(b, key)| :: Delete(b, key)[i] in b
    ensures Get(Delete(b, key), k) == if k == key then None else Get(b, k)
  {
    if b == [] {
    } else {
      SortedTail(b);
      if b[0].key == key {
        if k == key {
          GetAbove(b[1..], k);
        }
      } else {
        var rest := Delete(b[1..], key);
        GetDelete(b[1..], key, k);
        forall i | 0 <= i < |rest| ensures Less(b[0].key, rest[i].key) {
          assert rest[i] in b[1..];
        }
        SortedCons(b[0], rest);
        assert Delete(b, key)[1..] == rest;
      }
    }
  }

  /** An enqueue overwrites something exactly when its key was already queued. */
  lemma {:induction false} PutLength<V>(b: seq<Entry<V>>, key: Bytes, value: V)
    requires Sorted(b)
    ensures |Put(b, key, value)| == |b| + if Get(b, key).None? then 1 else 0
  {
    if b == [] {
    } else {
      SortedTail(b);
      if Less(key, b[0].key) {
        BelowFirst(key, b);
        GetAbove(b, key);
      } else if b[0].key != key {
        PutLength(b[1..], key, value);
      }
    }
  }

  /** What Get finds is one of the entries. */
  lemma {:induction false} GetIsEntry<V>(b: seq<Entry<V>>, key: Bytes) returns (i: nat)
    requires Get(b, key).Some?
    ensures i < |b| && b[i].key == key && b[i].value == Get(b, key).value
  {
    if b[0].key == key {
      return 0;
    }
    var j := GetIsEntry(b[1..], key);
    i := j + 1;
  }
}
