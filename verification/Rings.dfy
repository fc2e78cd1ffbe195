/** The two tail buffers: the wrap-around one that keeps hook output, and the simple one. */
module Rings {
  import opened Prelude
  import opened Frames

  /** The last `cap` bytes of s. */
  function Last(s: Bytes, cap: nat): Bytes {
    if |s| <= cap then s else s[|s| - cap..]
  }

  /** s is what is left of `all` when only the newest `cap` bytes are kept. */
  predicate IsTail(s: Bytes, all: Bytes, cap: nat) {
    && |s| == (if |all| < cap then |all| else cap)
    && forall i | 0 <= i < |s| :: s[i] == all[|all| - |s| + i]
  }

  lemma LastIsTail(all: Bytes, cap: nat)
    ensures IsTail(Last(all, cap), all, cap)
  {
  }

  /** Bytes dropped early would have been dropped later anyway. */
  lemma LastAppend(s: Bytes, t: Bytes, cap: nat)
    ensures Last(Last(s, cap) + t, cap) == Last(s + t, cap)
  {
  }

  /** Position n of a buffer of size cap, at most one lap on. */
  function Wrap(n: nat, cap: nat): nat {
    if n < cap then n else n - cap
  }

  lemma WrapIsRemainder(n: nat, cap: nat)
    requires n < 2 * cap
    ensures n % cap == Wrap(n, cap)
  {
    if n >= cap {
      assert n == cap + (n - cap);
      assert n / cap == 1;
    }
  }

  /** A full circular buffer read from its oldest byte. */
  function Circle(b: Bytes, pos: nat): (c: Bytes)
    requires pos < |b| || (pos == 0 && b == [])
    ensures |c| == |b| && forall i | 0 <= i < |c| :: c[i] == b[Wrap(pos + i, |b|)]
  {
    seq(|b|, i requires 0 <= i < |b| => b[Wrap(pos + i, |b|)])
  }

  lemma WholeCircle(b: Bytes)
    ensures Circle(b, 0) == b
  {
    forall i | 0 <= i < |b| ensures Circle(b, 0)[i] == b[i] {
    }
  }

  /** The two halves that `String` puts together. */
  lemma CircleHalves(b: Bytes, pos: nat)
    requires pos < |b|
    ensures Circle(b, pos) == b[pos..] + b[..pos]
  {
    var halves := b[pos..] + b[..pos];
    forall i | 0 <= i < |b| ensures Circle(b, pos)[i] == halves[i] {
    }
  }

  /** A full buffer after p went over its oldest bytes, round the end if need be. */
  function Overwritten(b: Bytes, pos: nat, p: Bytes): (c: Bytes)
    requires pos < |b| && |p| < |b|
    ensures |c| == |b|
  {
    seq(|b|, j requires 0 <= j < |b| =>
      if pos <= j < pos + |p| then p[j - pos]
      else if j + |b| < pos + |p| then p[j + |b| - pos]
      else b[j])
  }

  /** However it lies in the buffer, it reads as before with the oldest bytes dropped and p appended. */
  lemma OverwrittenReads(b: Bytes, pos: nat, p: Bytes)
    requires pos < |b| && |p| < |b|
    ensures Circle(Overwritten(b, pos, p), Wrap(pos + |p|, |b|)) == Last(Circle(b, pos) + p, |b|)
  {
    var n := |b|;
    var now, before := Overwritten(b, pos, p), Circle(b, pos);
    var shown, kept := Circle(now, Wrap(pos + |p|, n)), Last(before + p, n);
    forall i | 0 <= i < n ensures shown[i] == kept[i] {
      assert kept[i] == (before + p)[|p| + i];
      var j := Wrap(Wrap(pos + |p|, n) + i, n);
      if |p| + i < n {
        assert before[|p| + i] == b[Wrap(pos + |p| + i, n)];
        assert j == Wrap(pos + |p| + i, n) && now[j] == b[j];
      } else {
        assert now[j] == p[|p| + i - n];
      }
    }
  }

  /** Of a write of at least a lap only the end counts. */
  lemma LongWrite(s: Bytes, p: Bytes, cap: nat)
    requires |p| >= cap
    ensures Last(s + p, cap) == p[|p| - cap..]
  {
    var whole, kept := s + p, p[|p| - cap..];
    assert whole[|whole| - cap..] == kept;
    assert whole == kept || |whole| > cap;
  }

  /** Go's copy(dst[at:], src). */
  method Copy(dst: array<byte>, at: nat, src: Bytes)
    requires at + |src| <= dst.Length
    modifies dst
    ensures forall j | 0 <= j < dst.Length ::
      dst[j] == if at <= j < at + |src| then src[j - at] else old(dst[j])
  {
    forall i | 0 <= i < |src| {
      dst[at + i] := src[i];
    }
  }

  /** `hookRingBuffer`: a fixed buffer that is filled once and then overwritten in circles. */
  class HookRing {
    const cap: nat
    const buf: array<byte>
    var len: nat
    var full: bool
    var pos: nat

    ghost predicate Valid()
      reads this
    {
      && buf.Length == cap
      && (full ==> len == cap && pos < cap)
      && (!full ==> pos == len <= cap && (len == cap ==> cap == 0))
    }

    /** What `String` returns: oldest byte first. */
    ghost function Contents(): Bytes
      requires Valid()
      reads this, buf
    {
      if full then Circle(buf[..], pos) else buf[..len]
    }

    constructor (cap: nat)
      ensures Valid() && this.cap == cap && Contents() == []
      ensures fresh(buf)
    {
      this.cap := cap;
      buf := new byte[cap];
      len, full, pos := 0, false, 0;
    }

    /** Growing towards capacity; `rest` is what did not fit. */
    method Fill(p: Bytes) returns (rest: Bytes)
      requires Valid() && !full && len < cap
      modifies this, buf
      ensures Valid() && old(Contents()) + p == Contents() + rest
      ensures rest != [] ==> full
      ensures |Contents()| <= cap
    {
      ghost var before := Contents();
      var room := cap - len;
      if |p| <= room {
        Copy(buf, len, p);
        assert buf[..len + |p|] == before + p;
        WrapIsRemainder(pos + |p|, cap);
        len := len + |p|;
        pos := (pos + |p|) % cap;
        if len == cap {
          full := true;
          WholeCircle(buf[..]);
          assert buf[..] == buf[..len];
        }
        rest := [];
        assert Contents() + rest == before + p;
        return;
      }
      Copy(buf, len, p[..room]);
      assert buf[..] == before + p[..room];
      len, full, pos := cap, true, 0;
      WholeCircle(buf[..]);
      rest := p[room..];
      assert before + p == before + p[..room] + rest;
    }

    /** Overwriting the oldest bytes of a full buffer. */
    method Overwrite(p: Bytes)
      requires Valid() && full && |p| < cap
      modifies this`pos, buf
      ensures Valid()
      ensures Contents() == Last(old(Contents()) + p, cap)
    {
      OverwrittenReads(buf[..], pos, p);
      WrapIsRemainder(pos + |p|, cap);
      CopyAround(p);
      pos := (pos + |p|) % cap;
    }

    method CopyAround(p: Bytes)
      requires buf.Length == cap && pos < cap && |p| < cap
      modifies buf
      ensures buf[..] == Overwritten(old(buf[..]), pos, p)
    {
      var end := pos + |p|;
      if end <= cap {
        Copy(buf, pos, p);
      } else {
        var first := cap - pos;
        Copy(buf, pos, p[..first]);
        Copy(buf, 0, p[first..]);
      }
    }

    /** Every write leaves exactly the last `cap` bytes of everything written. */
    method Write(p: Bytes) returns (n: nat)
      requires Valid()
      modifies this, buf
      ensures Valid() && n == |p|
      ensures Contents() == Last(old(Contents()) + p, cap)
    {
      n := |p|;
      ghost var before := Contents();
      assert before + [] == before;
      if |p| == 0 {
        return;
      }
      var rest := p;
      if !full && len < cap {
        rest := Fill(p);
        if |rest| == 0 {
          assert Contents() + rest == Contents();
          return;
        }
      }
      if |rest| >= cap {
        Replace(rest);
        return;
      }
      Overwrite(rest);
    }

    /** A write of at least a lap keeps only its own end. */
    method Replace(p: Bytes)
      requires Valid() && |p| >= cap && (full || cap == 0)
      modifies this`pos, buf
      ensures Valid()
      ensures Contents() == Last(old(Contents()) + p, cap)
    {
      LongWrite(Contents(), p, cap);
      WholeCircle(p[|p| - cap..]);
      Copy(buf, 0, p[|p| - cap..]);
      assert buf[..] == p[|p| - cap..];
      pos := 0;
    }

    method String() returns (s: Bytes)
      requires Valid()
      ensures s == Contents()
    {
      if !full {
        return buf[..len];
      }
      s := buf[pos..] + buf[..pos];
      CircleHalves(buf[..], pos);
      assert buf[..][pos..] == buf[pos..] && buf[..][..pos] == buf[..pos];
    }
  }

  /** `ringBuffer`: append, then trim the front. */
  class TailBuffer {
    const cap: nat
    var buf: Bytes

    constructor (cap: nat)
      ensures this.cap == cap && buf == []
    {
      this.cap := cap;
      buf := [];
    }

    method Write(p: Bytes) returns (n: nat)
      modifies this
      ensures n == |p| && buf == Last(old(buf) + p, cap)
    {
      buf := buf + p;
      if |buf| > cap {
        buf := buf[|buf| - cap..];
      }
      n := |p|;
    }
  }

  /** Concat, one fragment at a time from the front. */
  lemma ConcatStep(all: Bytes, writes: seq<Bytes>, i: nat)
    requires i < |writes|
    ensures all + Concat(writes[i..]) == all + writes[i] + Concat(writes[i + 1..])
  {
    assert writes[i..][1..] == writes[i + 1..];
  }

  /** A new circular buffer fed a sequence of writes of any sizes reads as the last `cap` bytes of all. */
  method Capture(cap: nat, writes: seq<Bytes>) returns (s: Bytes)
    ensures s == Last(Concat(writes), cap) && IsTail(s, Concat(writes), cap)
  {
    var h := new HookRing(cap);
    var i := 0;
    ghost var all: Bytes := [];
    while i < |writes|
      invariant i <= |writes| && h.Valid() && h.cap == cap && fresh(h) && fresh(h.buf)
      invariant all + Concat(writes[i..]) == Concat(writes)
      invariant h.Contents() == Last(all, cap)
    {
      var _ := h.Write(writes[i]);
      LastAppend(all, writes[i], cap);
      ConcatStep(all, writes, i);
      all := all + writes[i];
      i := i + 1;
    }
    assert all + Concat(writes[i..]) == all;
    LastIsTail(all, cap);
    s := h.String();
  }

  /** And so does the simple one. */
  method CaptureSimply(cap: nat, writes: seq<Bytes>) returns (s: Bytes)
    ensures s == Last(Concat(writes), cap) && IsTail(s, Concat(writes), cap)
  {
    var t := new TailBuffer(cap);
    var i := 0;
    ghost var all: Bytes := [];
    while i < |writes|
      invariant i <= |writes| && t.cap == cap && fresh(t)
      invariant all + Concat(writes[i..]) == Concat(writes)
      invariant t.buf == Last(all, cap)
    {
      var _ := t.Write(writes[i]);
      LastAppend(all, writes[i], cap);
      ConcatStep(all, writes, i);
      all := all + writes[i];
      i := i + 1;
    }
    assert all + Concat(writes[i..]) == all;
    LastIsTail(all, cap);
    s := t.buf;
  }
}
