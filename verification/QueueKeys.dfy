/** The keys under which undelivered envelopes are queued, and the order they replay in. */
module QueueKeys {
  import opened Frames
  import opened Positional

  /** strconv's decimal digits of n. */
  function Decimal(n: nat): seq<nat> {
    if n < 10 then [n] else Decimal(n / 10) + [n % 10]
  }

  /** Digits as the characters '0' to '9'. */
  function Ascii(ds: seq<nat>): Bytes
    requires AllBelow(10, ds)
  {
    seq(|ds|, i requires 0 <= i < |ds| => 48 + ds[i])
  }

  const SEQ_PREFIX: Bytes := [115, 101, 113, 45]

  /** What a text of decimal characters reads as. */
  function Reads(t: Bytes): int {
    if t == [] then 0 else 10 * Reads(t[..|t| - 1]) + (t[|t| - 1] as int - 48)
  }

  /** t writes n in decimal characters, without leading zeros. */
  predicate Numeral(t: Bytes, n: nat) {
    && t != [] && (forall i | 0 <= i < |t| :: 48 <= t[i] <= 57)
    && (|t| > 1 ==> t[0] != 48)
    && Reads(t) == n
  }

  /** fmt.Sprintf("%d", n). */
  function DecimalText(n: nat): (t: Bytes)
    ensures Numeral(t, n)
  {
    DecimalDigits(n);
    AsciiReads(Decimal(n));
    DecimalLeads(n);
    Ascii(Decimal(n))
  }

  /** fmt.Sprintf("seq-%d", n). */
  function SeqKey(n: nat): Bytes {
    DecimalDigits(n);
    SEQ_PREFIX + DecimalText(n)
  }

  lemma {:induction false} AsciiReads(ds: seq<nat>)
    requires AllBelow(10, ds)
    ensures Reads(Ascii(ds)) == Value(10, ds)
  {
    if ds == [] {
    } else {
      AsciiReads(ds[..|ds| - 1]);
      assert Ascii(ds)[..|ds| - 1] == Ascii(ds[..|ds| - 1]);
    }
  }

  lemma {:induction false} DecimalLeads(n: nat)
    ensures |Decimal(n)| > 1 ==> Decimal(n)[0] != 0
    ensures n > 0 ==> Decimal(n)[0] != 0
  {
    if n < 10 {
    } else {
      DecimalLeads(n / 10);
      assert Decimal(n)[0] == Decimal(n / 10)[0];
    }
  }

  /** Every number has one numeral. */
  lemma {:induction false} NumeralUnique(t: Bytes, n: nat)
    ensures Numeral(t, n) <==> t == DecimalText(n)
    decreases |t|
  {
    if Numeral(t, n) {
      var u, last := t[..|t| - 1], t[|t| - 1] as int - 48;
      if u == [] {
        assert Reads(u) == 0 && 10 * Reads(u) + last == n;
        assert n == last < 10 && Decimal(n) == [n];
      } else {
        ReadsPositive(u);
        assert n == 10 * Reads(u) + last;
        assert n / 10 == Reads(u) && n % 10 == last && n >= 10;
        assert Numeral(u, n / 10);
        NumeralUnique(u, n / 10);
        assert Decimal(n) == Decimal(n / 10) + [n % 10];
        assert t == u + [t[|t| - 1]];
      }
    }
  }

  lemma {:induction false} ReadsPositive(t: Bytes)
    requires t != [] && (forall i | 0 <= i < |t| :: 48 <= t[i] <= 57) && t[0] != 48
    ensures Reads(t) > 0
  {
    if |t| == 1 {
      assert t[..0] == [];
    } else {
      ReadsPositive(t[..|t| - 1]);
    }
  }

  /** The key of an envelope: its correlation id, or its number when it has none. */
  function KeyFor(correlationId: Bytes, n: nat): Bytes {
    if correlationId == [] then SeqKey(n) else correlationId
  }

  lemma {:induction false} DecimalDigits(n: nat)
    ensures AllBelow(10, Decimal(n)) && Decimal(n) != []
    ensures Value(10, Decimal(n)) == n
  {
    if n >= 10 {
      DecimalDigits(n / 10);
      assert Decimal(n)[..|Decimal(n)| - 1] == Decimal(n / 10);
    } else {
      assert Decimal(n)[..0] == [];
    }
  }

  lemma DecimalInjective(m: nat, n: nat)
    ensures Decimal(m) == Decimal(n) <==> m == n
  {
    DecimalDigits(m);
    DecimalDigits(n);
  }

  lemma {:induction false} AsciiOrder(a: seq<nat>, b: seq<nat>)
    requires AllBelow(10, a) && AllBelow(10, b)
    ensures Less(Ascii(a), Ascii(b)) <==> Less(a, b)
  {
    if a == [] || b == [] {
    } else {
      assert Ascii(a)[1..] == Ascii(a[1..]) && Ascii(b)[1..] == Ascii(b[1..]);
      AsciiOrder(a[1..], b[1..]);
    }
  }

  /** Distinct numbers get distinct keys, so envelopes without a correlation id never collide. */
  lemma SeqKeyInjective(m: nat, n: nat)
    ensures SeqKey(m) == SeqKey(n) <==> m == n
  {
    DecimalDigits(m);
    DecimalDigits(n);
    if SeqKey(m) == SeqKey(n) {
      assert SeqKey(m)[4..] == Ascii(Decimal(m)) && SeqKey(n)[4..] == Ascii(Decimal(n));
      assert |Decimal(m)| == |Decimal(n)|;
      forall i | 0 <= i < |Decimal(m)| ensures Decimal(m)[i] == Decimal(n)[i] {
        assert Ascii(Decimal(m))[i] == Ascii(Decimal(n))[i];
      }
      DecimalInjective(m, n);
    }
  }

  /** A shorter numeral is a smaller number. */
  lemma {:induction false} DecimalLength(m: nat, n: nat)
    requires m <= n
    ensures |Decimal(m)| <= |Decimal(n)|
    decreases n
  {
    if m < 10 {
    } else {
      DecimalLength(m / 10, n / 10);
    }
  }

  /** Splitting a numeral: the leading part counts for a power of ten more. */
  lemma {:induction false} ValueSplit(h: seq<nat>, t: seq<nat>)
    ensures Value(10, h + t) == Value(10, h) * Pow(10, |t|) + Value(10, t)
  {
    if t == [] {
      assert h + t == h;
    } else {
      var front, last := t[..|t| - 1], t[|t| - 1];
      ValueSplit(h, front);
      assert (h + t)[..|h + t| - 1] == h + front;
      TimesTen(Value(10, h), Pow(10, |front|), Value(10, front));
    }
  }

  lemma TimesTen(v: nat, p: nat, w: nat)
    ensures (v * p + w) * 10 == v * (10 * p) + w * 10
  {
    assert v * (10 * p) == (v * p) * 10;
  }

  lemma ScaledCompare(m: nat, v: nat, p: nat, t: nat)
    requires t < p
    ensures m * p <= v * p + t <==> m <= v
  {
    if m <= v {
      MulMono(m, v, p);
    } else {
      MulStep(v, m, p);
    }
  }

  lemma SameLengthInjective(a: seq<nat>, b: seq<nat>)
    requires |a| == |b| && AllBelow(10, a) && AllBelow(10, b)
    ensures Value(10, a) == Value(10, b) <==> a == b
  {
    DigitsOfValue(10, a);
    DigitsOfValue(10, b);
  }

  /** Against a longer numeral, byte order looks at its leading digits only. */
  lemma LessThanLonger(a: seq<nat>, b: seq<nat>)
    requires |a| <= |b| && AllBelow(10, a) && AllBelow(10, b)
    ensures Less(a, b) <==>
      Value(10, a) < Value(10, b[..|a|]) || (Value(10, a) == Value(10, b[..|a|]) && |a| < |b|)
  {
    var h, t := b[..|a|], b[|a|..];
    assert a + [] == a && h + t == b;
    LessOfPairs(a, [], h, t);
    LessIsNumeric(10, a, h);
    SameLengthInjective(a, h);
  }

  /** The number a numeral denotes lies within its leading part's range. */
  lemma LeadingPart(b: seq<nat>, i: nat, m: nat)
    requires i <= |b| && AllBelow(10, b)
    ensures m * Pow(10, |b| - i) <= Value(10, b) <==> m <= Value(10, b[..i])
    ensures i == |b| ==> Value(10, b) == Value(10, b[..i])
  {
    var h, t := b[..i], b[i..];
    assert h + t == b;
    ValueSplit(h, t);
    ValueBound(10, t);
    ScaledCompare(m, Value(10, h), Pow(10, |t|), Value(10, t));
    if i == |b| {
      assert h == b;
    }
  }

  /** For a numeral of a smaller number, byte order compares it padded with zeros. */
  lemma PaddedOrder(a: seq<nat>, b: seq<nat>)
    requires |a| <= |b| && AllBelow(10, a) && AllBelow(10, b) && Value(10, a) < Value(10, b)
    ensures Less(a, b) <==> Value(10, a) * Pow(10, |b| - |a|) <= Value(10, b)
  {
    LessThanLonger(a, b);
    LeadingPart(b, |a|, Value(10, a));
  }

  lemma SeqKeyOrder(m: nat, n: nat)
    ensures Less(SeqKey(m), SeqKey(n)) <==> Less(Decimal(m), Decimal(n))
  {
    DecimalDigits(m);
    DecimalDigits(n);
    LessUnderPrefix(SEQ_PREFIX, Ascii(Decimal(m)), Ascii(Decimal(n)));
    AsciiOrder(Decimal(m), Decimal(n));
  }

  /**
   Queued envelopes replay in byte order of their keys. For m sent before n this is
   send order exactly when m, padded with zeros to the length of n, is at most n:
   always for numbers of one length, but "seq-10" replays before "seq-9".
   */
  lemma ReplayOrderExactlyWhen(m: nat, n: nat)
    requires m < n
    ensures |Decimal(m)| <= |Decimal(n)|
    ensures Less(SeqKey(m), SeqKey(n)) <==> m * Pow(10, |Decimal(n)| - |Decimal(m)|) <= n
  {
    DecimalLength(m, n);
    DecimalDigits(m);
    DecimalDigits(n);
    SeqKeyOrder(m, n);
    PaddedOrder(Decimal(m), Decimal(n));
  }

  /** Two envelopes of one process replay in send order when their numbers have equally many digits. */
  lemma SameWidthReplaysInOrder(m: nat, n: nat)
    requires |Decimal(m)| == |Decimal(n)|
    ensures Less(SeqKey(m), SeqKey(n)) <==> m < n
  {
    DecimalDigits(m);
    DecimalDigits(n);
    SeqKeyOrder(m, n);
    LessIsNumeric(10, Decimal(m), Decimal(n));
  }

  lemma TenBeforeNine()
    ensures Less(SeqKey(10), SeqKey(9)) && !Less(SeqKey(9), SeqKey(10))
  {
    assert Decimal(10) == [1, 0] && Decimal(9) == [9];
    SeqKeyOrder(10, 9);
    SeqKeyOrder(9, 10);
  }
}
