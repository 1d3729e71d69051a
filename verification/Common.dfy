/** Small shared vocabulary: machine widths, optional values, results, products, and greatest elements. */
module Common {

  /** The order of the Starknet field, 2^251 + 17 * 2^192 + 1. */
  const P: nat := 0x800_0000_0000_0011_0000_0000_0000_0000_0000_0000_0000_0000_0000_0000_0000_0001

  const U64: nat := 0x1_0000_0000_0000_0000
  const U64_MAX: nat := 0xFFFF_FFFF_FFFF_FFFF
  const U128: nat := 0x1_0000_0000_0000_0000_0000_0000_0000_0000

  function Min(a: nat, b: nat): nat {
    if a <= b then a else b
  }

  function Pow2(n: nat): (r: nat)
    ensures r >= 1
  {
    if n == 0 then 1 else 2 * Pow2(n - 1)
  }

  datatype Option<+T> = None | Some(value: T)

  datatype Result<+T, +E> = Ok(value: T) | Err(error: E)

  /** `order` lists every element of `keys` exactly once: one possible hash-map iteration order. */
  ghost predicate Enumerates<T>(order: seq<T>, keys: set<T>) {
    && (forall i, j :: 0 <= i < j < |order| ==> order[i] != order[j])
    && (forall k :: k in order ==> k in keys)
    && (forall k :: k in keys ==> k in order)
  }

  // ----- products ----------------------------------------------------------------------------

  lemma MulMono(w: nat, m: nat, q: nat)
    requires m <= q
    ensures w * m <= w * q
  {
  }

  lemma MulSucc(q: int, s: int)
    ensures (q + 1) * s == q * s + s
    ensures s * (q + 1) == s * q + s
  {
  }

  lemma MulAssociative(a: nat, b: nat, c: nat)
    ensures (a * b) * c == a * (b * c)
  {
  }

  // ----- greatest elements -----------------------------------------------------------------

  predicate Compares<T(==)>(less: (T, T) -> bool, a: T, b: T) {
    a == b || less(a, b) || less(b, a)
  }

  predicate Chains<T>(less: (T, T) -> bool, a: T, b: T, c: T) {
    less(a, b) && less(b, c) ==> less(a, c)
  }

  ghost predicate StrictTotalOrder<T(!new)>(less: (T, T) -> bool) {
    && (forall a, b :: Compares(less, a, b))
    && (forall a, b, c :: Chains(less, a, b, c))
  }

  lemma {:induction false} FindGreatest<T(!new)>(s: set<T>, less: (T, T) -> bool) returns (m: T)
    requires s != {} && StrictTotalOrder(less)
    ensures m in s
    ensures forall x | x in s :: x == m || less(x, m)
    decreases |s|
  {
    var first :| first in s;
    m := first;
    var rest := s - {first};
    if rest != {} {
      var k := FindGreatest(rest, less);
      assert Compares(less, first, k);
      m := if less(first, k) then k else first;
      forall x | x in s
        ensures x == m || less(x, m)
      {
        if x != first {
          assert x in rest;
          assert Chains(less, x, k, first);
        }
      }
    }
  }

  lemma MaxExists(s: set<nat>)
    requires s != {}
    ensures exists m :: m in s && forall x | x in s :: x <= m
  {
    var less := (a: nat, b: nat) => a < b;
    assert StrictTotalOrder(less);
    var m := FindGreatest(s, less);
    assert forall x | x in s :: x <= m by {
      forall x | x in s
        ensures x <= m
      {
        assert x == m || less(x, m);
      }
    }
  }

  /** The largest element, as `keys().max()` computes it. */
  function Max(s: set<nat>): (m: nat)
    requires s != {}
    ensures m in s
    ensures forall x | x in s :: x <= m
  {
    MaxExists(s);
    var m :| m in s && forall x | x in s :: x <= m;
    m
  }

  /** Unsigned `checked_sub`. */
  function CheckedSub(a: nat, b: nat): Option<nat> {
    if b <= a then Some(a - b) else None
  }
}
