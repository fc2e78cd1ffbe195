/**
 Big-endian positional numbers. The store keys its log buffer by 8-byte
 big-endian integers, frames carry a 4-byte big-endian length, and queue keys
 end in a decimal number: all three are digit strings, and all three rely on
 byte order agreeing with numeric order.
 */
module Positional {

  ghost predicate AllBelow(base: nat, ds: seq<nat>) {
    forall i | 0 <= i < |ds| :: ds[i] < base
  }

  function Pow(base: nat, n: nat): (p: nat) {
    if n == 0 then 1 else base * Pow(base, n - 1)
  }

  /** The number a big-endian digit string denotes. */
  function Value(base: nat, ds: seq<nat>): nat {
    if ds == [] then 0 else Value(base, ds[..|ds| - 1]) * base + ds[|ds| - 1]
  }

  /** The low `width` digits of n, most significant first. */
  function Digits(base: nat, width: nat, n: nat): (ds: seq<nat>)
    requires base > 1
    ensures |ds| == width
    ensures forall i | 0 <= i < |ds| :: ds[i] < base
  {
    if width == 0 then [] else Digits(base, width - 1, n / base) + [n % base]
  }

  /** bytes.Compare(a, b) < 0, the order bbolt iterates keys in. */
  predicate Less(a: seq<nat>, b: seq<nat>) {
    b != [] && (a == [] || a[0] < b[0] || (a[0] == b[0] && Less(a[1..], b[1..])))
  }

  lemma {:induction false} ValueOfDigits(base: nat, width: nat, n: nat)
    requires base > 1 && n < Pow(base, width)
    ensures Value(base, Digits(base, width, n)) == n
  {
    if width == 0 {
    } else {
      var ds := Digits(base, width, n);
      assert ds[..width - 1] == Digits(base, width - 1, n / base);
      DivBelow(base, n, Pow(base, width - 1));
      ValueOfDigits(base, width - 1, n / base);
      DivMod(base, n);
    }
  }

  lemma DivMod(base: nat, n: nat)
    requires base > 0
    ensures n / base * base + n % base == n
  {
  }

  lemma MulMono(x: nat, y: nat, p: nat)
    requires x <= y
    ensures x * p <= y * p
  {
    assert y * p == x * p + (y - x) * p;
  }

  lemma MulStep(x: nat, y: nat, p: nat)
    requires x < y
    ensures x * p + p <= y * p
  {
    MulMono(x + 1, y, p);
  }

  lemma DivBelow(base: nat, n: nat, p: nat)
    requires base > 0 && n < base * p
    ensures n / base < p
  {
  }

  lemma QuotientUnique(base: nat, q: nat, r: nat, d: nat, m: nat)
    requires r < base && m < base && q * base + r == d * base + m
    ensures q == d && r == m
  {
    if q < d {
      MulStep(q, d, base);
    } else if d < q {
      MulStep(d, q, base);
    }
  }

  lemma DivModUnique(base: nat, q: nat, r: nat)
    requires r < base
    ensures (q * base + r) / base == q && (q * base + r) % base == r
  {
    var n := q * base + r;
    QuotientUnique(base, q, r, n / base, n % base);
  }

  lemma {:induction false} DigitsOfValue(base: nat, ds: seq<nat>)
    requires base > 1 && AllBelow(base, ds)
    ensures Value(base, ds) < Pow(base, |ds|)
    ensures Digits(base, |ds|, Value(base, ds)) == ds
  {
    if ds == [] {
    } else {
      var front, last := ds[..|ds| - 1], ds[|ds| - 1];
      DigitsOfValue(base, front);
      MulStep(Value(base, front), Pow(base, |front|), base);
      DivModUnique(base, Value(base, front), last);
      assert ds == front + [last];
    }
  }

  /** Peeling the leading digit instead of the trailing one. */
  lemma {:induction false} ValueHead(base: nat, ds: seq<nat>)
    requires ds != []
    ensures Value(base, ds) == ds[0] * Pow(base, |ds| - 1) + Value(base, ds[1..])
  {
    if |ds| == 1 {
      assert ds[..0] == [] && ds[1..] == [];
    } else {
      var front, tail := ds[..|ds| - 1], ds[1..];
      ValueHead(base, front);
      assert front[1..] == tail[..|tail| - 1];
      var h, p, v := ds[0], Pow(base, |ds| - 2), Value(base, front[1..]);
      assert (h * p + v) * base == h * (base * p) + v * base;
    }
  }

  lemma {:induction false} ValueBound(base: nat, ds: seq<nat>)
    requires base > 1 && AllBelow(base, ds)
    ensures Value(base, ds) < Pow(base, |ds|)
  {
    DigitsOfValue(base, ds);
  }

  /** On digit strings of one length, byte order is numeric order. */
  lemma {:induction false} LessIsNumeric(base: nat, a: seq<nat>, b: seq<nat>)
    requires base > 1 && |a| == |b| && AllBelow(base, a) && AllBelow(base, b)
    ensures Less(a, b) <==> Value(base, a) < Value(base, b)
  {
    if a == [] {
    } else {
      ValueHead(base, a);
      ValueHead(base, b);
      ValueBound(base, a[1..]);
      ValueBound(base, b[1..]);
      var p := Pow(base, |a| - 1);
      if a[0] < b[0] {
        MulStep(a[0], b[0], p);
      } else if b[0] < a[0] {
        MulStep(b[0], a[0], p);
      } else {
        LessIsNumeric(base, a[1..], b[1..]);
      }
    }
  }

  lemma {:induction false} LessIrreflexive(a: seq<nat>)
    ensures !Less(a, a)
  {
    if a == [] {
    } else {
      LessIrreflexive(a[1..]);
    }
  }

  lemma {:induction false} LessTransitive(a: seq<nat>, b: seq<nat>, c: seq<nat>)
    requires Less(a, b) && Less(b, c)
    ensures Less(a, c)
  {
    if a == [] || a[0] != b[0] || b[0] != c[0] {
    } else {
      LessTransitive(a[1..], b[1..], c[1..]);
    }
  }

  lemma {:induction false} LessTotal(a: seq<nat>, b: seq<nat>)
    ensures a == b || Less(a, b) || Less(b, a)
  {
    if a == [] || b == [] || a[0] != b[0] {
    } else {
      LessTotal(a[1..], b[1..]);
      assert a == [a[0]] + a[1..] && b == [b[0]] + b[1..];
    }
  }

  /** A shared prefix does not affect the order of what follows it. */
  lemma {:induction false} LessUnderPrefix(p: seq<nat>, a: seq<nat>, b: seq<nat>)
    ensures Less(p + a, p + b) <==> Less(a, b)
  {
    if p == [] {
      assert p + a == a && p + b == b;
    } else {
      assert (p + a)[1..] == p[1..] + a && (p + b)[1..] == p[1..] + b;
      LessUnderPrefix(p[1..], a, b);
    }
  }

  /** Concatenating equal-length leading parts compares them first. */
  lemma {:induction false} LessOfPairs(a: seq<nat>, b: seq<nat>, c: seq<nat>, d: seq<nat>)
    requires |a| == |c|
    ensures Less(a + b, c + d) <==> Less(a, c) || (a == c && Less(b, d))
  {
    if a == [] {
      assert a + b == b && c + d == d;
    } else {
      assert (a + b)[1..] == a[1..] + b && (c + d)[1..] == c[1..] + d;
      LessOfPairs(a[1..], b, c[1..], d);
      assert a == [a[0]] + a[1..] && c == [c[0]] + c[1..];
      if a == c {
        LessIrreflexive(a);
      }
    }
  }
}
