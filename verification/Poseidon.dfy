/**
 Round key compression for the Poseidon permutation: the keys of the partial rounds are reduced to
 one felt per round, and what is left over is folded into the key of the next full round.
 */
module Poseidon {
  import opened Common

  type Felt = x: int | 0 <= x < P

  /** Reduction modulo the field order. */
  function Red(x: int): Felt
    decreases if x < 0 then -x + P else x
  {
    if x < 0 then Red(x + P) else if x < P then x else Red(x - P)
  }

  /** The state of the permutation, and a full round key. */
  datatype Triple = Triple(a: Felt, b: Felt, c: Felt)

  const ZERO := Triple(0, 0, 0)

  const FULL_ROUNDS: nat := 8
  const PARTIAL_ROUNDS: nat := 83

  function Add(x: Triple, y: Triple): Triple {
    Triple(Red(x.a + y.a), Red(x.b + y.b), Red(x.c + y.c))
  }

  /** The mix layer, matrix ((3,1,1), (1,-1,1), (1,1,-2)). */
  function Mix(s: Triple): Triple {
    var t := s.a + s.b + s.c;
    Triple(Red(t + 2 * s.a), Red(t - 2 * s.b), Red(t - 3 * s.c))
  }

  // ----- reference rounds ------------------------------------------------------------------

  function FullRound(f: Felt -> Felt, s: Triple, key: Triple): Triple {
    var x := Add(s, key);
    Mix(Triple(f(x.a), f(x.b), f(x.c)))
  }

  function PartialRound(f: Felt -> Felt, s: Triple, key: Triple): Triple {
    var x := Add(s, key);
    Mix(x.(c := f(x.c)))
  }

  function FullRounds(f: Felt -> Felt, s: Triple, keys: seq<Triple>): Triple {
    if keys == [] then s else FullRound(f, FullRounds(f, s, keys[..|keys| - 1]), keys[|keys| - 1])
  }

  function PartialRounds(f: Felt -> Felt, s: Triple, keys: seq<Triple>): Triple {
    if keys == [] then s else PartialRound(f, PartialRounds(f, s, keys[..|keys| - 1]), keys[|keys| - 1])
  }

  /** The permutation as specified: every round has a key of three felts. */
  function Reference(f: Felt -> Felt, s: Triple, keys: seq<Triple>): Triple
    requires |keys| == FULL_ROUNDS + PARTIAL_ROUNDS
  {
    var half, mid := FULL_ROUNDS / 2, FULL_ROUNDS / 2 + PARTIAL_ROUNDS;
    FullRounds(f, PartialRounds(f, FullRounds(f, s, keys[..half]), keys[half..mid]), keys[mid..])
  }

  // ----- compressed rounds -----------------------------------------------------------------

  function CompressedRound(f: Felt -> Felt, s: Triple, key: Felt): Triple {
    Mix(s.(c := f(Red(s.c + key))))
  }

  function CompressedRounds(f: Felt -> Felt, s: Triple, keys: seq<Felt>): Triple {
    if keys == [] then s else CompressedRound(f, CompressedRounds(f, s, keys[..|keys| - 1]), keys[|keys| - 1])
  }

  /** One felt per partial round, and the constants carried past the last one. */
  datatype Compression = Compression(keys: seq<Felt>, carry: Triple)

  function CompressStep(done: Compression, key: Triple): Compression {
    var x := Add(done.carry, key);
    Compression(done.keys + [x.c], Mix(Triple(x.a, x.b, 0)))
  }

  function Compress(keys: seq<Triple>): (r: Compression)
    ensures |r.keys| == |keys|
  {
    if keys == [] then Compression([], ZERO)
    else CompressStep(Compress(keys[..|keys| - 1]), keys[|keys| - 1])
  }

  // ----- arithmetic modulo the field order -------------------------------------------------

  /** The reduction is the only felt that differs from x by a multiple of the field order. */
  lemma {:induction false} RedUnique(x: int, r: Felt, k: int)
    requires x == r + P * k
    ensures Red(x) == r
    decreases if x < 0 then -x + P else x
  {
    if x < 0 {
      RedUnique(x + P, r, k + 1);
    } else if x >= P {
      RedUnique(x - P, r, k - 1);
    }
  }

  /** How far a number is from its reduction, in multiples of the field order. */
  lemma {:induction false} RedMultiple(x: int) returns (k: int)
    ensures x == Red(x) + P * k
    decreases if x < 0 then -x + P else x
  {
    if x < 0 {
      var up := RedMultiple(x + P);
      k := up - 1;
    } else if x >= P {
      var down := RedMultiple(x - P);
      k := down + 1;
    } else {
      k := 0;
    }
  }

  lemma RedCongruent(x: int, k: int)
    ensures Red(x + P * k) == Red(x)
  {
    var n := RedMultiple(x);
    RedUnique(x + P * k, Red(x), n + k);
  }

  lemma RedAdd(x: int, y: int)
    ensures Red(Red(x) + y) == Red(x + y)
    ensures Red(y + Red(x)) == Red(x + y)
  {
    var k := RedMultiple(x);
    RedCongruent(Red(x) + y, k);
  }

  lemma AddAssociative(x: Triple, y: Triple, z: Triple)
    ensures Add(Add(x, y), z) == Add(x, Add(y, z))
  {
    RedAdd(x.a + y.a, z.a);
    RedAdd(y.a + z.a, x.a);
    RedAdd(x.b + y.b, z.b);
    RedAdd(y.b + z.b, x.b);
    RedAdd(x.c + y.c, z.c);
    RedAdd(y.c + z.c, x.c);
  }

  /** One row of the mix matrix applied to a state. */
  function Row(i: int, j: int, k: int, s: Triple): Felt {
    Red(i * s.a + j * s.b + k * s.c)
  }

  lemma MixForm(s: Triple)
    ensures Mix(s) == Triple(Row(3, 1, 1, s), Row(1, -1, 1, s), Row(1, 1, -2, s))
  {
  }

  /** A full round adds the key, applies the S-box to every cell and mixes; a partial round applies it
      to the last cell only, and with compressed keys adds the key to that cell only.  `x` are the
      keyed cells, by their congruence to the sums. */
  lemma RoundCells(f: Felt -> Felt, s: Triple, key: Triple, x: Triple, j: int, k: int, l: int)
    requires s.a + key.a == x.a + P * j && s.b + key.b == x.b + P * k && s.c + key.c == x.c + P * l
    ensures FullRound(f, s, key) == Mix(Triple(f(x.a), f(x.b), f(x.c)))
    ensures PartialRound(f, s, key) == Mix(Triple(x.a, x.b, f(x.c)))
    ensures CompressedRound(f, s, key.c) == Mix(Triple(s.a, s.b, f(x.c)))
  {
    RedUnique(s.a + key.a, x.a, j);
    RedUnique(s.b + key.b, x.b, k);
    RedUnique(s.c + key.c, x.c, l);
  }

  lemma RedSum(x: int, y: int, z: int)
    requires x + y == z
    ensures Red(Red(x) + Red(y)) == Red(z)
  {
    RedAdd(x, Red(y));
    RedAdd(y, x);
  }

  /** A reduced linear combination of reduced sums splits into two reduced combinations. */
  lemma RowLinear(i: int, j: int, k: int, x: Triple, y: Triple)
    ensures Row(i, j, k, Add(x, y)) == Red(Row(i, j, k, x) + Row(i, j, k, y))
  {
    var u, v := i * x.a + j * x.b + k * x.c, i * y.a + j * y.b + k * y.c;
    var p := RedMultiple(x.a + y.a);
    var q := RedMultiple(x.b + y.b);
    var r := RedMultiple(x.c + y.c);
    var a, b, c := Red(x.a + y.a), Red(x.b + y.b), Red(x.c + y.c);
    Distribute(i, x.a, y.a, a, p);
    Distribute(j, x.b, y.b, b, q);
    Distribute(k, x.c, y.c, c, r);
    var n := i * p + j * q + k * r;
    assert u + v == (i * a + j * b + k * c) + P * n;
    RedCongruent(i * a + j * b + k * c, n);
    RedSum(u, v, u + v);
  }

  lemma Distribute(i: int, x: int, y: int, a: int, p: int)
    requires x + y == a + P * p
    ensures i * x + i * y == i * a + P * (i * p)
  {
    assert i * (x + y) == i * (a + P * p);
  }

  /** The mix layer is linear, so constants can be moved past it. */
  lemma MixLinear(x: Triple, y: Triple)
    ensures Mix(Add(x, y)) == Add(Mix(x), Mix(y))
  {
    MixForm(Add(x, y));
    MixForm(x);
    MixForm(y);
    RowLinear(3, 1, 1, x, y);
    RowLinear(1, -1, 1, x, y);
    RowLinear(1, 1, -2, x, y);
  }

  // ----- compression preserves the permutation ---------------------------------------------

  lemma AddZero(s: Triple, x: Triple)
    ensures Add(s, Triple(x.a, x.b, 0)) == Triple(Red(s.a + x.a), Red(s.b + x.b), s.c)
  {
  }

  lemma CompressedStep(f: Felt -> Felt, s: Triple, carry: Triple, key: Triple)
    ensures var x := Add(carry, key);
            PartialRound(f, Add(s, carry), key) == Add(CompressedRound(f, s, x.c), Mix(Triple(x.a, x.b, 0)))
  {
    var x := Add(carry, key);
    AddAssociative(s, carry, key);
    var y := Add(s, x);
    var cubed := s.(c := f(y.c));
    AddZero(cubed, x);
    MixLinear(cubed, Triple(x.a, x.b, 0));
  }

  /** Partial rounds with full keys end exactly where partial rounds with compressed keys end, plus
      the carried constants: for every list of keys, starting state and S-box. */
  lemma {:induction false} PartialRoundsCompressed(f: Felt -> Felt, s: Triple, keys: seq<Triple>)
    ensures PartialRounds(f, s, keys) == Add(CompressedRounds(f, s, Compress(keys).keys), Compress(keys).carry)
    decreases |keys|
  {
    if keys == [] {
      assert Add(s, ZERO) == s;
    } else {
      var n := |keys| - 1;
      var done := Compress(keys[..n]);
      PartialRoundsCompressed(f, s, keys[..n]);
      CompressedStep(f, CompressedRounds(f, s, done.keys), done.carry, keys[n]);
      var all := Compress(keys).keys;
      assert all[..|all| - 1] == done.keys;
    }
  }

  /** The same with the first full round key that follows: it absorbs the carried constants. */
  lemma CompressionPreservesRounds(f: Felt -> Felt, s: Triple, keys: seq<Triple>, next: Triple)
    ensures Add(PartialRounds(f, s, keys), next)
            == Add(CompressedRounds(f, s, Compress(keys).keys), Add(Compress(keys).carry, next))
  {
    PartialRoundsCompressed(f, s, keys);
    AddAssociative(CompressedRounds(f, s, Compress(keys).keys), Compress(keys).carry, next);
  }

  // ----- the generator ---------------------------------------------------------------------

  function Flatten(keys: seq<Triple>): (r: seq<Felt>)
    ensures |r| == 3 * |keys|
  {
    if keys == [] then [] else [keys[0].a, keys[0].b, keys[0].c] + Flatten(keys[1..])
  }

  function Constants(keys: seq<Triple>): (r: seq<Felt>)
    requires |keys| == FULL_ROUNDS + PARTIAL_ROUNDS
    ensures |r| == 107
  {
    var half, mid := FULL_ROUNDS / 2, FULL_ROUNDS / 2 + PARTIAL_ROUNDS;
    var c := Compress(keys[half..mid]);
    Flatten(keys[..half]) + c.keys + Flatten([Add(c.carry, keys[mid])]) + Flatten(keys[mid + 1..])
  }

  method AddRoundKey(s0: Felt, s1: Felt, s2: Felt, key: Triple) returns (r0: Felt, r1: Felt, r2: Felt)
    ensures Triple(r0, r1, r2) == Add(Triple(s0, s1, s2), key)
  {
    r0 := Red(s0 + key.a);
    r1 := Red(s1 + key.b);
    r2 := Red(s2 + key.c);
  }

  /** The mix layer with a reduced sum. */
  method MixLayer(s0: Felt, s1: Felt, s2: Felt) returns (r0: Felt, r1: Felt, r2: Felt)
    ensures Triple(r0, r1, r2) == Mix(Triple(s0, s1, s2))
  {
    var t := Red(s0 + s1 + s2);
    RedAdd(s0 + s1 + s2, 2 * s0);
    RedAdd(s0 + s1 + s2, -2 * s1);
    RedAdd(s0 + s1 + s2, -3 * s2);
    r0, r1, r2 := Red(t + 2 * s0), Red(t - 2 * s1), Red(t - 3 * s2);
  }

  /** `compress_roundkeys_partial`: the three-cell state holds the constants carried so far. */
  method CompressRoundKeysPartial(keys: seq<Triple>) returns (result: seq<Felt>)
    requires |keys| == FULL_ROUNDS + PARTIAL_ROUNDS
    ensures var half, mid := FULL_ROUNDS / 2, FULL_ROUNDS / 2 + PARTIAL_ROUNDS;
            var c := Compress(keys[half..mid]);
            result == c.keys + Flatten([Add(c.carry, keys[mid])])
  {
    var idx := FULL_ROUNDS / 2;
    var s0: Felt, s1: Felt, s2: Felt := 0, 0, 0;
    result := [];
    ghost var half := idx;
    for i := 0 to PARTIAL_ROUNDS
      invariant idx == half + i
      invariant Compression(result, Triple(s0, s1, s2)) == Compress(keys[half..idx])
    {
      assert keys[half..idx + 1][..i] == keys[half..idx];
      s0, s1, s2 := AddRoundKey(s0, s1, s2, keys[idx]);
      result := result + [s2];
      s2 := 0;
      s0, s1, s2 := MixLayer(s0, s1, s2);
      idx := idx + 1;
    }
    s0, s1, s2 := AddRoundKey(s0, s1, s2, keys[idx]);
    result := result + [s0];
    result := result + [s1];
    result := result + [s2];
  }

  method CompressRoundKeys(keys: seq<Triple>) returns (result: seq<Felt>)
    requires |keys| == FULL_ROUNDS + PARTIAL_ROUNDS
    ensures result == Constants(keys)
  {
    var middle := CompressRoundKeysPartial(keys);
    result := Flatten(keys[..FULL_ROUNDS / 2]) + middle + Flatten(keys[FULL_ROUNDS / 2 + PARTIAL_ROUNDS + 1..]);
  }

  // ----- the permutation with compressed constants -----------------------------------------

  function Triples(flat: seq<Felt>): (r: seq<Triple>)
    requires |flat| % 3 == 0
    ensures |r| == |flat| / 3
  {
    if flat == [] then [] else [Triple(flat[0], flat[1], flat[2])] + Triples(flat[3..])
  }

  lemma {:induction false} TriplesOfFlatten(keys: seq<Triple>)
    ensures Triples(Flatten(keys)) == keys
  {
    if keys != [] {
      assert Flatten(keys)[3..] == Flatten(keys[1..]);
      TriplesOfFlatten(keys[1..]);
    }
  }

  /** What `permute` computes from its 107 constants. */
  function Fast(f: Felt -> Felt, s: Triple, consts: seq<Felt>): Triple
    requires |consts| == 107
  {
    FullRounds(f, CompressedRounds(f, FullRounds(f, s, Triples(consts[..12])), consts[12..95]), Triples(consts[95..]))
  }

  lemma {:induction false} FullRoundsConcat(f: Felt -> Felt, s: Triple, k: seq<Triple>, l: seq<Triple>)
    ensures FullRounds(f, s, k + l) == FullRounds(f, FullRounds(f, s, k), l)
    decreases |l|
  {
    if l == [] {
      assert k + l == k;
    } else {
      assert (k + l)[..|k + l| - 1] == k + l[..|l| - 1];
      FullRoundsConcat(f, s, k, l[..|l| - 1]);
    }
  }

  /** A full round only sees the sum of state and key, so constants may move between the two. */
  lemma FullRoundsShift(f: Felt -> Felt, s: Triple, t: Triple, k: Triple, l: Triple, rest: seq<Triple>)
    requires Add(s, k) == Add(t, l)
    ensures FullRounds(f, s, [k] + rest) == FullRounds(f, t, [l] + rest)
  {
    FullRoundsConcat(f, s, [k], rest);
    FullRoundsConcat(f, t, [l], rest);
    assert [k][..0] == [] && [l][..0] == [];
    assert FullRounds(f, s, [k]) == FullRound(f, s, k);
    assert FullRounds(f, t, [l]) == FullRound(f, t, l);
  }

  lemma ConstantsParts(keys: seq<Triple>)
    requires |keys| == FULL_ROUNDS + PARTIAL_ROUNDS
    ensures var c := Compress(keys[4..87]); var consts := Constants(keys);
            && Triples(consts[..12]) == keys[..4]
            && consts[12..95] == c.keys
            && Triples(consts[95..]) == [Add(c.carry, keys[87])] + keys[88..]
  {
    var c, consts := Compress(keys[4..87]), Constants(keys);
    var next := [Add(c.carry, keys[87])];
    assert consts[..12] == Flatten(keys[..4]);
    assert consts[12..95] == c.keys;
    assert Flatten(next + keys[88..]) == Flatten(next) + Flatten(keys[88..]) by {
      assert (next + keys[88..])[1..] == keys[88..] && next[1..] == [];
    }
    assert consts[95..] == Flatten(next + keys[88..]);
    TriplesOfFlatten(keys[..4]);
    TriplesOfFlatten(next + keys[88..]);
  }

  lemma CompressedMiddle(f: Felt -> Felt, start: Triple, partial: seq<Triple>, k: Triple, rest: seq<Triple>, c: Compression)
    requires c == Compress(partial)
    ensures FullRounds(f, CompressedRounds(f, start, c.keys), [Add(c.carry, k)] + rest)
         == FullRounds(f, PartialRounds(f, start, partial), [k] + rest)
  {
    CompressionPreservesRounds(f, start, partial, k);
    FullRoundsShift(f, PartialRounds(f, start, partial), CompressedRounds(f, start, c.keys), k, Add(c.carry, k), rest);
  }

  lemma SplitFirst(keys: seq<Triple>, i: nat)
    requires i < |keys|
    ensures keys[i..] == [keys[i]] + keys[i + 1..]
  {
  }

  /** The permutation with generated constants is the permutation with the original round keys, for
      every key list, starting state and S-box. */
  lemma CompressionPreservesPermutation(f: Felt -> Felt, s: Triple, keys: seq<Triple>)
    requires |keys| == FULL_ROUNDS + PARTIAL_ROUNDS
    ensures Fast(f, s, Constants(keys)) == Reference(f, s, keys)
  {
    ConstantsParts(keys);
    SplitFirst(keys, 87);
    CompressedMiddle(f, FullRounds(f, s, keys[..4]), keys[4..87], keys[87], keys[88..], Compress(keys[4..87]));
  }

  lemma {:induction false} TriplesStep(flat: seq<Felt>, i: nat)
    requires |flat| % 3 == 0 && 3 * i + 3 <= |flat|
    ensures Triples(flat)[i] == Triple(flat[3 * i], flat[3 * i + 1], flat[3 * i + 2])
    decreases i
  {
    if i > 0 {
      TriplesStep(flat[3..], i - 1);
    }
  }

  method FullPass(f: Felt -> Felt, s: Triple, consts: seq<Felt>, start: nat) returns (r: Triple, idx: nat)
    requires start + 12 <= |consts|
    ensures r == FullRounds(f, s, Triples(consts[start..start + 12])) && idx == start + 12
  {
    r, idx := s, start;
    ghost var keys := Triples(consts[start..start + 12]);
    for i := 0 to FULL_ROUNDS / 2
      invariant idx == start + 3 * i
      invariant r == FullRounds(f, s, keys[..i])
    {
      TriplesStep(consts[start..start + 12], i);
      assert keys[..i + 1][..i] == keys[..i];
      r := FullRound(f, r, Triple(consts[idx], consts[idx + 1], consts[idx + 2]));
      idx := idx + 3;
    }
    assert keys[..4] == keys;
  }

  /** `permute`. */
  method Permute(f: Felt -> Felt, s: Triple, consts: seq<Felt>) returns (r: Triple)
    requires |consts| == 107
    ensures r == Fast(f, s, consts)
  {
    var idx;
    r, idx := FullPass(f, s, consts, 0);
    assert consts[0..12] == consts[..12];
    ghost var mid := r;
    for i := 0 to PARTIAL_ROUNDS
      invariant idx == 12 + i
      invariant r == CompressedRounds(f, mid, consts[12..idx])
    {
      assert consts[12..idx + 1][..i] == consts[12..idx];
      r := CompressedRound(f, r, consts[idx]);
      idx := idx + 1;
    }
    r, idx := FullPass(f, r, consts, idx);
    assert consts[95..107] == consts[95..];
  }
}
