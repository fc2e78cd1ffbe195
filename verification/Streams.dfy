/** Readers that fragment their input as they please, and sinks that may fail. */
module Streams {
  import opened Prelude
  import opened Frames

  /** io.EOF and io.ErrUnexpectedEOF are compared by identity; everything else is opaque. */
  datatype IoErr = Eof | UnexpectedEof | Failure(code: nat)

  /**
   An io.Reader. `fragments` is what its next reads deliver (a read shorter than
   a fragment leaves the remainder), `end` is what it returns afterwards, and
   `eager` says whether `end` accompanies the last bytes or follows them.
   */
  class Reader {
    var fragments: seq<Bytes>
    const end: IoErr
    const eager: bool

    ghost function Pending(): Bytes
      reads this
    {
      Concat(fragments)
    }

    constructor (fragments: seq<Bytes>, end: IoErr, eager: bool)
      ensures this.fragments == fragments && this.end == end && this.eager == eager
    {
      this.fragments, this.end, this.eager := fragments, end, eager;
    }

    /** One Read into buf[lo..hi]. */
    method Read(buf: array<byte>, lo: nat, hi: nat) returns (n: nat, err: Option<IoErr>)
      requires lo < hi <= buf.Length
      modifies this`fragments, buf
      ensures n <= hi - lo && n <= |old(Pending())|
      ensures Pending() == old(Pending())[n..]
      ensures buf[lo..lo + n] == old(Pending())[..n]
      ensures buf[..lo] == old(buf[..lo])
      ensures err.Some? ==> err.value == end && Pending() == []
      ensures |fragments| <= |old(fragments)|
      ensures err.None? ==> n == hi - lo || |fragments| < |old(fragments)|
    {
      if fragments == [] {
        return 0, Some(end);
      }
      var f := fragments[0];
      n := if |f| <= hi - lo then |f| else hi - lo;
      forall i | 0 <= i < n {
        buf[lo + i] := f[i];
      }
      assert buf[lo..lo + n] == f[..n];
      if n == |f| {
        fragments := fragments[1..];
        err := if fragments == [] && eager then Some(end) else None;
      } else {
        fragments := [f[n..]] + fragments[1..];
        err := None;
      }
    }
  }

  /** What io.ReadFull reports after getting n of the k bytes it asked for. */
  function ReadFullErr(n: nat, k: nat, end: IoErr): Option<IoErr> {
    if n >= k then None
    else if n > 0 && end == Eof then Some(UnexpectedEof)
    else Some(end)
  }

  /** io.ReadFull(r, buf[:k]): the result depends on the pending bytes, not on how they are cut. */
  method ReadFull(r: Reader, buf: array<byte>, k: nat) returns (n: nat, err: Option<IoErr>)
    requires k <= buf.Length
    modifies r`fragments, buf
    ensures n == Min(k, |old(r.Pending())|)
    ensures buf[..n] == old(r.Pending())[..n]
    ensures r.Pending() == old(r.Pending())[n..]
    ensures err == ReadFullErr(n, k, r.end)
  {
    ghost var p := r.Pending();
    n, err := 0, None;
    while n < k && err.None?
      invariant n <= k && n <= |p|
      invariant r.Pending() == p[n..]
      invariant buf[..n] == p[..n]
      invariant err.Some? ==> err.value == r.end && r.Pending() == []
      decreases err.None?, |r.fragments|, k - n
    {
      var got, e := r.Read(buf, n, k);
      ghost var before := n;
      n, err := n + got, e;
      assert buf[..n] == buf[..before] + buf[before..n];
      assert p[before..][..got] == p[before..n];
    }
    if n >= k {
      err := None;
    } else if n > 0 && err == Some(Eof) {
      err := Some(UnexpectedEof);
    }
  }

  /** An io.Writer that fails for good after `budget` writes, keeping a prefix of the failing one. */
  class Sink {
    var data: Bytes
    var budget: Option<nat>
    const torn: nat

    constructor (budget: Option<nat>, torn: nat)
      ensures data == [] && this.budget == budget && this.torn == torn
    {
      data, this.budget, this.torn := [], budget, torn;
    }

    method Write(p: Bytes) returns (ok: bool)
      modifies this
      ensures ok <==> old(budget) != Some(0)
      ensures ok ==> data == old(data) + p
      ensures old(data) <= data <= old(data) + p
      ensures budget.None? <==> old(budget).None?
    {
      if budget == Some(0) {
        data := data + p[..Min(torn, |p|)];
        return false;
      }
      data := data + p;
      budget := if budget.None? then None else Some(budget.value - 1);
      return true;
    }
  }
}
