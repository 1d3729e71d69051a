/**
 Precomputed tables for scalar multiplication: for every window of `bits` bits, all non-zero
 multiples of the window's base point.  Curve points are any type with an associative addition.
 */
module PointTables {
  import opened Common

  predicate Regroups<T(==)>(add: (T, T) -> T, a: T, b: T, c: T) {
    add(add(a, b), c) == add(a, add(b, c))
  }

  ghost predicate Associative<T(!new)>(add: (T, T) -> T) {
    forall a, b, c :: Regroups(add, a, b, c)
  }

  /** The sum of `n` copies of a point. */
  function Times<T>(add: (T, T) -> T, n: nat, p: T): T
    requires n >= 1
  {
    if n == 1 then p else add(Times(add, n - 1, p), p)
  }

  lemma {:induction false} TimesAdd<T(!new)>(add: (T, T) -> T, m: nat, n: nat, p: T)
    requires Associative(add) && m >= 1 && n >= 1
    ensures Times(add, m + n, p) == add(Times(add, m, p), Times(add, n, p))
    decreases n
  {
    if n > 1 {
      TimesAdd(add, m, n - 1, p);
      assert Regroups(add, Times(add, m, p), Times(add, n - 1, p), p);
    }
  }

  lemma Positive(m: nat, n: nat)
    requires m >= 1 && n >= 1
    ensures m * n >= 1
  {
  }

  lemma {:induction false} TimesTimes<T(!new)>(add: (T, T) -> T, m: nat, n: nat, p: T)
    requires Associative(add) && m >= 1 && n >= 1
    ensures m * n >= 1 && Times(add, m, Times(add, n, p)) == Times(add, m * n, p)
    decreases m
  {
    if m > 1 {
      TimesTimes(add, m - 1, n, p);
      assert (m - 1) * n + n == m * n;
      TimesAdd(add, (m - 1) * n, n, p);
    } else {
      assert m * n == n;
    }
  }

  // ----- the tables ------------------------------------------------------------------------

  /** p, 2p, ..., size * p. */
  function Table<T>(add: (T, T) -> T, p: T, size: nat): (r: seq<T>)
    ensures |r| == size
  {
    if size == 0 then [] else Table(add, p, size - 1) + [Times(add, size, p)]
  }

  lemma {:induction false} TableAt<T>(add: (T, T) -> T, p: T, size: nat, j: nat)
    requires 1 <= j <= size
    ensures Table(add, p, size)[j - 1] == Times(add, j, p)
  {
    if j < size {
      TableAt(add, p, size - 1, j);
    }
  }

  /** One table per window; the last window may be narrower. */
  function Tables<T>(add: (T, T) -> T, p: T, bitsLeft: nat, bits: nat): seq<T>
    requires bits >= 1
    decreases bitsLeft
  {
    if bitsLeft == 0 then []
    else
      var eat := Min(bitsLeft, bits);
      Table(add, p, Pow2(eat) - 1) + Tables(add, Times(add, Pow2(bits), p), bitsLeft - eat, bits)
  }

  lemma TimesTwo<T(!new)>(add: (T, T) -> T, p: T)
    ensures Times(add, 2, p) == add(p, p)
  {
    assert Times(add, 1, p) == p;
  }

  method DoubleBits<T(!new)>(add: (T, T) -> T, p: T, bits: nat) returns (q: T)
    requires Associative(add)
    ensures q == Times(add, Pow2(bits), p)
  {
    q := p;
    for i := 0 to bits
      invariant q == Times(add, Pow2(i), p)
    {
      TimesTwo(add, q);
      TimesTimes(add, 2, Pow2(i), p);
      q := add(q, q);
    }
  }

  method PushTable<T(!new)>(add: (T, T) -> T, buf: seq<T>, outer: T, size: nat) returns (r: seq<T>)
    ensures r == buf + Table(add, outer, size)
  {
    r := buf;
    var inner := outer;
    for j := 1 to size + 1
      invariant r == buf + Table(add, outer, j - 1)
      invariant inner == Times(add, j, outer)
    {
      r := r + [inner];
      inner := add(inner, outer);
    }
  }

  lemma Regroup<T>(a: seq<T>, b: seq<T>, c: seq<T>)
    ensures a + (b + c) == (a + b) + c
  {
  }

  lemma UnfoldTables<T>(add: (T, T) -> T, p: T, bitsLeft: nat, bits: nat, eat: nat) returns (table: seq<T>, later: seq<T>)
    requires bits >= 1 && bitsLeft > 0 && eat == Min(bitsLeft, bits)
    ensures table == Table(add, p, Pow2(eat) - 1)
    ensures later == Tables(add, Times(add, Pow2(bits), p), bitsLeft - eat, bits)
    ensures Tables(add, p, bitsLeft, bits) == table + later
  {
    table, later := Table(add, p, Pow2(eat) - 1), Tables(add, Times(add, Pow2(bits), p), bitsLeft - eat, bits);
  }

  /** `push_points`. */
  method PushPoints<T(!new)>(add: (T, T) -> T, base: T, maxBits: nat, bits: nat) returns (buf: seq<T>)
    requires Associative(add) && bits >= 1
    ensures buf == Tables(add, base, maxBits, bits)
  {
    var bitsLeft: nat, outer := maxBits, base;
    buf := [];
    while bitsLeft > 0
      invariant bitsLeft <= maxBits
      invariant buf + Tables(add, outer, bitsLeft, bits) == Tables(add, base, maxBits, bits)
      decreases bitsLeft
    {
      var eat := Min(bitsLeft, bits);
      ghost var table, later := UnfoldTables(add, outer, bitsLeft, bits, eat);
      Regroup(buf, table, later);
      buf := PushTable(add, buf, outer, Pow2(eat) - 1);
      bitsLeft := bitsLeft - eat;
      outer := DoubleBits(add, outer, bits);
    }
  }

  // ----- how many points, and which --------------------------------------------------------

  /** The length declared for the generated array. */
  function DeclaredLength(maxBits: nat, bits: nat): nat
    requires bits >= 1
  {
    maxBits / bits * (Pow2(bits) - 1) + (Pow2(maxBits % bits) - 1)
  }

  lemma DivUnique(n: nat, d: nat, q: nat, r: nat)
    requires n == q * d + r && r < d
    ensures n / d == q && n % d == r
  {
    var q' := n / d;
    assert n == q' * d + n % d;
    if q' > q {
      MulMono(d, q + 1, q');
      MulSucc(q, d);
    } else if q' < q {
      MulMono(d, q' + 1, q);
      MulSucc(q', d);
    }
  }

  lemma DivStep(n: nat, d: nat)
    requires 1 <= d <= n
    ensures n / d == (n - d) / d + 1 && n % d == (n - d) % d
  {
    var q, r := (n - d) / d, (n - d) % d;
    assert n - d == q * d + r;
    MulSucc(q, d);
    DivUnique(n, d, q + 1, r);
  }

  lemma {:induction false} EmitsDeclaredLength<T>(add: (T, T) -> T, p: T, maxBits: nat, bits: nat)
    requires bits >= 1
    ensures |Tables(add, p, maxBits, bits)| == DeclaredLength(maxBits, bits)
    decreases maxBits
  {
    if maxBits >= bits {
      EmitsDeclaredLength(add, Times(add, Pow2(bits), p), maxBits - bits, bits);
      DivStep(maxBits, bits);
      MulSucc((maxBits - bits) / bits, Pow2(bits) - 1);
    } else {
      DivUnique(maxBits, bits, 0, maxBits);
    }
  }

  lemma {:induction false} Pow2Add(a: nat, b: nat)
    ensures Pow2(a + b) == Pow2(a) * Pow2(b)
    decreases a
  {
    if a > 0 {
      Pow2Add(a - 1, b);
    }
  }

  lemma FirstWindow<T>(add: (T, T) -> T, p: T, maxBits: nat, bits: nat, j: nat)
    requires bits >= 1 && maxBits > 0 && 1 <= j < Pow2(Min(maxBits, bits))
    ensures j - 1 < |Tables(add, p, maxBits, bits)|
    ensures Tables(add, p, maxBits, bits)[j - 1] == Times(add, j, p)
  {
    TableAt(add, p, Pow2(Min(maxBits, bits)) - 1, j);
  }

  lemma LaterWindow<T>(add: (T, T) -> T, p: T, maxBits: nat, bits: nat, n: nat)
    requires maxBits >= bits >= 1
    requires n < |Tables(add, Times(add, Pow2(bits), p), maxBits - bits, bits)|
    ensures Pow2(bits) - 1 + n < |Tables(add, p, maxBits, bits)|
    ensures Tables(add, p, maxBits, bits)[Pow2(bits) - 1 + n] == Tables(add, Times(add, Pow2(bits), p), maxBits - bits, bits)[n]
  {
  }

  lemma TimesShifted<T(!new)>(add: (T, T) -> T, j: nat, lighter: nat, w: nat, weight: nat, p: T)
    requires Associative(add) && j >= 1 && lighter >= 1 && w >= 1 && weight == lighter * w
    ensures j * lighter >= 1 && j * weight >= 1
    ensures Times(add, j * lighter, Times(add, w, p)) == Times(add, j * weight, p)
  {
    Positive(j, lighter);
    TimesTimes(add, j * lighter, w, p);
    MulAssociative(j, lighter, w);
  }

  lemma OneFewer(i: nat, s: nat, product: nat)
    requires i >= 1 && product == i * s
    ensures s <= product && product - s == (i - 1) * s
  {
    MulSucc(i - 1, s);
  }

  /** Entry i * (2^bits - 1) + (j - 1) is j * 2^(bits * i) times the base, in every window, the
      narrower last one included. */
  lemma {:induction false} TableEntry<T(!new)>(add: (T, T) -> T, p: T, maxBits: nat, bits: nat, i: nat, j: nat,
                                               lower: nat, skipped: nat)
    requires Associative(add) && bits >= 1
    requires lower == i * bits && skipped == i * (Pow2(bits) - 1)
    requires lower < maxBits && 1 <= j < Pow2(Min(maxBits - lower, bits))
    ensures skipped + (j - 1) < |Tables(add, p, maxBits, bits)|
    ensures j * Pow2(lower) >= 1
    ensures Tables(add, p, maxBits, bits)[skipped + (j - 1)] == Times(add, j * Pow2(lower), p)
    decreases i
  {
    if i == 0 {
      FirstWindow(add, p, maxBits, bits, j);
    } else {
      OneFewer(i, bits, lower);
      OneFewer(i, Pow2(bits) - 1, skipped);
      var before, under := lower - bits, skipped - (Pow2(bits) - 1);
      TableEntry(add, Times(add, Pow2(bits), p), maxBits - bits, bits, i - 1, j, before, under);
      LaterWindow(add, p, maxBits, bits, under + (j - 1));
      Pow2Add(before, bits);
      TimesShifted(add, j, Pow2(before), Pow2(bits), Pow2(lower), p);
    }
  }

  // ----- scalar multiplication by lookup ---------------------------------------------------

  /** acc + k * p, where zero adds nothing. */
  function Plus<T>(add: (T, T) -> T, acc: T, k: nat, p: T): T {
    if k == 0 then acc else add(acc, Times(add, k, p))
  }

  /** Taking the low window first: acc + k * p == (acc + d * p) + k' * (2^bits * p). */
  lemma SplitScalar<T(!new)>(add: (T, T) -> T, acc: T, d: nat, rest: nat, w: nat, high: nat, p: T)
    requires Associative(add) && w >= 1 && high == rest * w
    ensures Plus(add, acc, d + high, p) == Plus(add, Plus(add, acc, d, p), rest, Times(add, w, p))
  {
    if rest > 0 {
      TimesTimes(add, rest, w, p);
      if d > 0 {
        TimesAdd(add, d, high, p);
        assert Regroups(add, acc, Times(add, d, p), Times(add, high, p));
      }
    }
  }

  /** The low `eat` bits of the scalar and what is above them. */
  method NextDigit(rest: nat, w: nat) returns (digit: nat, higher: nat)
    requires w >= 1
    ensures rest == digit + higher * w && digit < w
  {
    digit, higher := rest % w, rest / w;
  }

  lemma HigherBound(rest: nat, digit: nat, higher: nat, w: nat, m: nat)
    requires rest == digit + higher * w && rest < w * m
    ensures higher < m
  {
    if higher >= m {
      MulMono(w, m, higher);
    }
  }

  /** One window of the scalar: the digit counts p, what is left counts 2^bits * p. */
  lemma WindowStep<T(!new)>(add: (T, T) -> T, acc: T, rest: nat, digit: nat, higher: nat, p: T,
                            bitsLeft: nat, bits: nat, eat: nat)
    requires Associative(add) && bits >= 1 && eat == Min(bitsLeft, bits)
    requires rest < Pow2(bitsLeft) && rest == digit + higher * Pow2(eat)
    ensures higher < Pow2(bitsLeft - eat)
    ensures Plus(add, acc, rest, p) == Plus(add, Plus(add, acc, digit, p), higher, Times(add, Pow2(bits), p))
  {
    Pow2Add(eat, bitsLeft - eat);
    HigherBound(rest, digit, higher, Pow2(eat), Pow2(bitsLeft - eat));
    SplitScalar(add, acc, digit, higher, Pow2(eat), higher * Pow2(eat), p);
  }

  lemma Suffixes<T>(prep: seq<T>, offset: nat, a: seq<T>, b: seq<T>)
    requires offset <= |prep| && prep[offset..] == a + b
    ensures offset + |a| <= |prep| && prep[offset + |a|..] == b
  {
    assert |prep| == offset + |a + b|;
    assert prep[offset + |a|..] == prep[offset..][|a|..];
  }

  lemma EntryOfSuffix<T>(prep: seq<T>, offset: nat, a: seq<T>, b: seq<T>, i: nat)
    requires offset <= |prep| && prep[offset..] == a + b && i < |a|
    ensures offset + i < |prep| && prep[offset + i] == a[i]
  {
    assert |prep| == offset + |a + b|;
    assert prep[offset + i] == prep[offset..][i];
  }

  /** Adds the table entry of one window. */
  method AddWindow<T(!new)>(add: (T, T) -> T, acc: T, prep: seq<T>, offset: nat, digit: nat,
                            ghost p: T, ghost size: nat, ghost later: seq<T>) returns (r: T)
    requires offset <= |prep| && prep[offset..] == Table(add, p, size) + later && digit <= size
    ensures r == Plus(add, acc, digit, p)
  {
    r := acc;
    if digit > 0 {
      EntryOfSuffix(prep, offset, Table(add, p, size), later, digit - 1);
      TableAt(add, p, size, digit);
      r := add(acc, prep[offset + digit - 1]);
    }
  }

  /** The lookup loop of the hash and of generator multiplication: one table entry per non-zero
      window adds exactly k times the base. */
  method AddPoints<T(!new)>(add: (T, T) -> T, start: T, k: nat, base: T, maxBits: nat, bits: nat, prep: seq<T>) returns (acc: T)
    requires Associative(add) && bits >= 1 && k < Pow2(maxBits)
    requires prep == Tables(add, base, maxBits, bits)
    ensures acc == Plus(add, start, k, base)
  {
    acc := start;
    var bitsLeft: nat, rest: nat, offset: nat := maxBits, k, 0;
    ghost var p := base;
    while bitsLeft > 0
      invariant bitsLeft <= maxBits && rest < Pow2(bitsLeft)
      invariant bitsLeft > 0 ==> offset <= |prep| && prep[offset..] == Tables(add, p, bitsLeft, bits)
      invariant Plus(add, acc, rest, p) == Plus(add, start, k, base)
      decreases bitsLeft
    {
      var eat := Min(bitsLeft, bits);
      var digit, higher := NextDigit(rest, Pow2(eat));
      ghost var next := Times(add, Pow2(bits), p);
      ghost var later := Tables(add, next, bitsLeft - eat, bits);
      WindowStep(add, acc, rest, digit, higher, p, bitsLeft, bits, eat);
      Suffixes(prep, offset, Table(add, p, Pow2(eat) - 1), later);
      acc := AddWindow(add, acc, prep, offset, digit, p, Pow2(eat) - 1, later);
      rest, bitsLeft, offset := higher, bitsLeft - eat, offset + (Pow2(bits) - 1);
      p := next;
    }
  }

  function Low(a: nat, w: nat): nat
    requires w >= 1
  {
    a % w
  }

  function High(a: nat, w: nat): nat
    requires w >= 1
  {
    a / w
  }

  lemma DigitsAre(a: nat, w: nat, digit: nat, higher: nat)
    requires w >= 1 && a == digit + higher * w && digit < w
    ensures digit == Low(a, w) && higher == High(a, w)
  {
    DivUnique(a, w, higher, digit);
  }

  /** start + (low bits of a) * p + (high bits of a) * q. */
  function PlusInput<T>(add: (T, T) -> T, start: T, a: nat, w: nat, p: T, q: T): T
    requires w >= 1
  {
    Plus(add, Plus(add, start, Low(a, w), p), High(a, w), q)
  }

  method AddInput<T(!new)>(add: (T, T) -> T, start: T, p: T, q: T, prepLow: seq<T>, prepHigh: seq<T>, a: nat,
                           low: nat, high: nat, bits: nat) returns (acc: T)
    requires Associative(add) && bits >= 1
    requires prepLow == Tables(add, p, low, bits) && prepHigh == Tables(add, q, high, bits)
    requires a < Pow2(low) * Pow2(high)
    ensures acc == PlusInput(add, start, a, Pow2(low), p, q)
  {
    var lower, higher := NextDigit(a, Pow2(low));
    DigitsAre(a, Pow2(low), lower, higher);
    HigherBound(a, lower, higher, Pow2(low), Pow2(high));
    acc := AddPoints(add, start, lower, p, low, bits, prepLow);
    acc := AddPoints(add, acc, higher, q, high, bits, prepHigh);
  }

  /** The Pedersen accumulator: each input is cut into `low` bits and the `high` bits above them,
      and the four parts are looked up in the tables of the four base points. */
  method PedersenPoint<T(!new)>(add: (T, T) -> T, p0: T, p: seq<T>, prep: seq<seq<T>>, a: nat, b: nat,
                                low: nat, high: nat, bits: nat) returns (acc: T)
    requires Associative(add) && bits >= 1 && |p| == 4 && |prep| == 4
    requires prep[0] == Tables(add, p[0], low, bits) && prep[1] == Tables(add, p[1], high, bits)
    requires prep[2] == Tables(add, p[2], low, bits) && prep[3] == Tables(add, p[3], high, bits)
    requires a < Pow2(low) * Pow2(high) && b < Pow2(low) * Pow2(high)
    ensures acc == PlusInput(add, PlusInput(add, p0, a, Pow2(low), p[0], p[1]), b, Pow2(low), p[2], p[3])
  {
    acc := AddInput(add, p0, p[0], p[1], prep[0], prep[1], a, low, high, bits);
    acc := AddInput(add, acc, p[2], p[3], prep[2], prep[3], b, low, high, bits);
  }
}
