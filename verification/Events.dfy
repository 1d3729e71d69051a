/**
 The order of events and messages in a receipt: a walk over the call trees sorts them into queues by
 their order number, then the queues are drained one item at a time, lowest number first.
 */
module Events {
  import opened Common

  // ----- queues by order number ------------------------------------------------------------

  /** An order number: `i64` for events, `usize` for messages. */
  type Order = i: int | -0x8000_0000_0000_0000 <= i < 0x1_0000_0000_0000_0000

  type Queues<T> = map<Order, seq<T>>

  lemma LastKeyExists(s: set<Order>)
    requires s != {}
    ensures exists m: Order :: m in s && forall x: Order | x in s :: x <= m
  {
    var less := (a: Order, b: Order) => a < b;
    assert StrictTotalOrder(less);
    var m := FindGreatest(s, less);
    assert forall x: Order | x in s :: x <= m by {
      forall x: Order | x in s
        ensures x <= m
      {
        assert x == m || less(x, m);
      }
    }
  }

  /** The largest key of an ordered map with signed keys. */
  function LastKey(s: set<Order>): (m: Order)
    requires s != {}
    ensures m in s
    ensures forall x: Order | x in s :: x <= m
  {
    LastKeyExists(s);
    var m: Order :| m in s && forall x: Order | x in s :: x <= m;
    m
  }

  /** The keys of a B-tree map in iteration order. */
  function SortedKeys(s: set<Order>): seq<Order>
    decreases |s|
  {
    if s == {} then [] else SortedKeys(s - {LastKey(s)}) + [LastKey(s)]
  }

  lemma {:induction false} SortedKeysElements(s: set<Order>)
    ensures |SortedKeys(s)| == |s|
    ensures forall x: Order :: x in SortedKeys(s) <==> x in s
    ensures forall i, j :: 0 <= i < j < |SortedKeys(s)| ==> SortedKeys(s)[i] < SortedKeys(s)[j]
    decreases |s|
  {
    if s != {} {
      var rest := s - {LastKey(s)};
      SortedKeysElements(rest);
      forall i | 0 <= i < |SortedKeys(rest)|
        ensures SortedKeys(rest)[i] < LastKey(s)
      {
        assert SortedKeys(rest)[i] in rest;
      }
    }
  }

  function QueueAt<T>(m: Queues<T>, k: Order): seq<T> {
    if k in m then m[k] else []
  }

  // ----- collect_items ---------------------------------------------------------------------

  /** The queues of the keys, in key order. */
  function Listed<T>(keys: seq<Order>, m: Queues<T>): (qs: seq<seq<T>>)
    ensures |qs| == |keys|
    ensures forall i :: 0 <= i < |keys| ==> qs[i] == QueueAt(m, keys[i])
  {
    if keys == [] then [] else Listed(keys[..|keys| - 1], m) + [QueueAt(m, keys[|keys| - 1])]
  }

  function InOrder<T>(m: Queues<T>): seq<seq<T>> {
    Listed(SortedKeys(m.Keys), m)
  }

  /** What round `j` takes from the first `n` queues: item `j` of every queue that has one. */
  function Round<T>(qs: seq<seq<T>>, n: nat, j: nat): seq<T>
    requires n <= |qs|
  {
    if n == 0 then [] else Round(qs, n - 1, j) + if j < |qs[n - 1]| then [qs[n - 1][j]] else []
  }

  function Rounds<T>(qs: seq<seq<T>>, r: nat): seq<T> {
    if r == 0 then [] else Rounds(qs, r - 1) + Round(qs, |qs|, r - 1)
  }

  /** A queue without its first `r` items. */
  function Skip<T>(q: seq<T>, r: nat): seq<T> {
    if r <= |q| then q[r..] else []
  }

  lemma {:induction false} RoundExtend<T>(qs: seq<seq<T>>, q: seq<T>, n: nat, j: nat)
    requires n <= |qs|
    ensures Round(qs + [q], n, j) == Round(qs, n, j)
    decreases n
  {
    if n > 0 {
      RoundExtend(qs, q, n - 1, j);
    }
  }

  /** The queues of a set of keys, in key order. */
  function Sorted<T>(s: set<Order>, m: Queues<T>): seq<seq<T>> {
    Listed(SortedKeys(s), m)
  }

  lemma SortedLast<T>(s: set<Order>, m: Queues<T>)
    requires s != {}
    ensures Sorted(s, m) == Sorted(s - {LastKey(s)}, m) + [QueueAt(m, LastKey(s))]
  {
    var keys := SortedKeys(s);
    assert keys[..|keys| - 1] == SortedKeys(s - {LastKey(s)});
  }

  function SortedRound<T>(s: set<Order>, m: Queues<T>, j: nat): seq<T> {
    Round(Sorted(s, m), |Sorted(s, m)|, j)
  }

  lemma RoundLast<T>(s: set<Order>, m: Queues<T>, j: nat)
    requires s != {}
    ensures var k := LastKey(s);
            SortedRound(s, m, j) == SortedRound(s - {k}, m, j) + if j < |QueueAt(m, k)| then [QueueAt(m, k)[j]] else []
  {
    SortedLast(s, m);
    var shorter := Sorted(s - {LastKey(s)}, m);
    RoundExtend(shorter, QueueAt(m, LastKey(s)), |shorter|, j);
  }

  /** `t` holds the keys of `s` that still have an item `j`. */
  ghost predicate Live<T>(s: set<Order>, t: set<Order>, m: Queues<T>, j: nat) {
    forall x: Order :: x in t <==> x in s && j < |QueueAt(m, x)|
  }

  lemma SameLast(s: set<Order>, t: set<Order>)
    requires s != {} && t <= s && LastKey(s) in t
    ensures LastKey(t) == LastKey(s)
  {
  }

  /** Keys that have run dry contribute nothing. */
  lemma {:induction false} RoundRestrict<T>(s: set<Order>, t: set<Order>, m: Queues<T>, j: nat)
    requires Live(s, t, m, j)
    ensures SortedRound(s, m, j) == SortedRound(t, m, j)
    decreases |s|
  {
    if s == {} {
      assert t == {};
    } else {
      var k := LastKey(s);
      RoundLast(s, m, j);
      if k in t {
        assert t <= s;
        SameLast(s, t);
        RoundLast(t, m, j);
        RoundRestrict(s - {k}, t - {k}, m, j);
      } else {
        RoundRestrict(s - {k}, t, m, j);
      }
    }
  }

  ghost predicate NoEmptyQueue<T>(m: Queues<T>) {
    forall k: Order :: k in m ==> m[k] != []
  }

  method PopFront<T>(m: Queues<T>, key: Order) returns (m': Queues<T>, item: T)
    requires NoEmptyQueue(m) && key in m
    ensures item == m[key][0] && NoEmptyQueue(m')
    ensures forall k: Order :: QueueAt(m', k) == if k == key then Skip(QueueAt(m, k), 1) else QueueAt(m, k)
  {
    item := m[key][0];
    var popped := m[key][1..];
    if popped == [] {
      m' := m - {key};
    } else {
      m' := m[key := popped];
    }
  }

  /** The queues of the keys in `done` have lost their front, the others are as before. */
  ghost predicate Popped<T>(m: Queues<T>, left: Queues<T>, done: set<Order>) {
    forall k: Order :: QueueAt(left, k) == if k in done then Skip(QueueAt(m, k), 1) else QueueAt(m, k)
  }

  lemma PoppedStep<T>(m: Queues<T>, left: Queues<T>, left': Queues<T>, done: set<Order>, key: Order)
    requires Popped(m, left, done) && key !in done
    requires forall k: Order :: QueueAt(left', k) == if k == key then Skip(QueueAt(left, k), 1) else QueueAt(left, k)
    ensures Popped(m, left', done + {key})
  {
    forall k: Order
      ensures QueueAt(left', k) == if k in done + {key} then Skip(QueueAt(m, k), 1) else QueueAt(m, k)
    {
      assert QueueAt(left, k) == if k in done then Skip(QueueAt(m, k), 1) else QueueAt(m, k);
    }
  }

  method ServeKey<T>(ghost m: Queues<T>, left: Queues<T>, key: Order, ghost done: set<Order>) returns (left': Queues<T>, front: T)
    requires NoEmptyQueue(m) && NoEmptyQueue(left) && Popped(m, left, done) && key in m && key !in done
    ensures NoEmptyQueue(left') && Popped(m, left', done + {key})
    ensures front == m[key][0]
  {
    assert QueueAt(left, key) == QueueAt(m, key);
    left', front := PopFront(left, key);
    PoppedStep(m, left, left', done, key);
  }

  /** One pass over the keys, popping the front of every queue. */
  method ServeRound<T>(m: Queues<T>, keys: seq<Order>, items: seq<T>, ghost qs: seq<seq<T>>)
    returns (left: Queues<T>, out: seq<T>, ghost done: set<Order>)
    requires NoEmptyQueue(m)
    requires |qs| == |keys| && forall i :: 0 <= i < |keys| ==> keys[i] in m && qs[i] == m[keys[i]]
    requires forall i, j :: 0 <= i < j < |keys| ==> keys[i] < keys[j]
    ensures NoEmptyQueue(left) && Popped(m, left, done)
    ensures forall k: Order :: k in done <==> k in keys
    ensures out == items + Round(qs, |qs|, 0)
  {
    left, out, done := m, items, {};
    for i := 0 to |keys|
      invariant NoEmptyQueue(left) && Popped(m, left, done)
      invariant forall j :: 0 <= j < |keys| ==> (keys[j] in done <==> j < i)
      invariant forall k :: k in done ==> k in keys
      invariant out == items + Round(qs, i, 0)
    {
      var front;
      left, front := ServeKey(m, left, keys[i], done);
      out := out + [front];
      done := done + {keys[i]};
    }
  }

  /** Every queue of `left` is the queue of `m` after `r` rounds. */
  ghost predicate Skipped<T>(m: Queues<T>, left: Queues<T>, r: nat) {
    forall k: Order :: QueueAt(left, k) == Skip(QueueAt(m, k), r)
  }

  lemma {:induction false} RoundShift<T>(qs: seq<seq<T>>, left: seq<seq<T>>, n: nat, r: nat)
    requires n <= |qs| == |left| && forall i :: 0 <= i < |qs| ==> left[i] == Skip(qs[i], r)
    ensures Round(qs, n, r) == Round(left, n, 0)
    decreases n
  {
    if n > 0 {
      RoundShift(qs, left, n - 1, r);
    }
  }

  function Longest<T>(keys: seq<Order>, m: Queues<T>): (n: nat)
    ensures forall k: Order :: k in keys ==> |QueueAt(m, k)| <= n
    ensures n > 0 ==> exists k: Order :: k in keys && |QueueAt(m, k)| == n
    decreases |keys|
  {
    if keys == [] then 0
    else
      var l := |keys| - 1;
      var n := Longest(keys[..l], m);
      assert forall k: Order :: k in keys ==> k in keys[..l] || k == keys[l];
      if n < |QueueAt(m, keys[l])| then |QueueAt(m, keys[l])| else n
  }

  /** `r` rounds serve every item. */
  ghost predicate AllServed<T>(m: Queues<T>, r: nat) {
    forall k: Order :: |QueueAt(m, k)| <= r
  }

  lemma NextRound<T>(m: Queues<T>, left: Queues<T>, r: nat)
    requires NoEmptyQueue(left) && Skipped(m, left, r)
    ensures SortedRound(m.Keys, m, r) == SortedRound(left.Keys, left, 0)
  {
    RoundShift(Sorted(left.Keys, m), Sorted(left.Keys, left), |SortedKeys(left.Keys)|, r);
    forall k: Order
      ensures k in left <==> k in m && r < |QueueAt(m, k)|
    {
      assert QueueAt(left, k) == Skip(QueueAt(m, k), r);
    }
    assert Live(m.Keys, left.Keys, m, r);
    RoundRestrict(m.Keys, left.Keys, m, r);
  }

  lemma Unfinished<T>(m: Queues<T>, left: Queues<T>, r: nat)
    requires NoEmptyQueue(left) && Skipped(m, left, r)
    ensures left.Keys == {} <==> AllServed(m, r)
  {
    if left.Keys != {} {
      var k := LastKey(left.Keys);
      assert QueueAt(left, k) == Skip(QueueAt(m, k), r);
      assert |QueueAt(m, k)| > r;
    } else {
      forall k: Order
        ensures |QueueAt(m, k)| <= r
      {
        assert QueueAt(left, k) == Skip(QueueAt(m, k), r);
      }
    }
  }

  lemma SkipOneMore<T>(m: Queues<T>, left: Queues<T>, left': Queues<T>, r: nat)
    requires Skipped(m, left, r) && Skipped(left, left', 1)
    ensures Skipped(m, left', r + 1)
  {
    forall k: Order
      ensures QueueAt(left', k) == Skip(QueueAt(m, k), r + 1)
    {
      assert QueueAt(left, k) == Skip(QueueAt(m, k), r);
      assert QueueAt(left', k) == Skip(QueueAt(left, k), 1);
    }
  }

  method ServeAll<T>(m: Queues<T>, items: seq<T>) returns (left: Queues<T>, out: seq<T>)
    requires NoEmptyQueue(m)
    ensures NoEmptyQueue(left) && Skipped(m, left, 1)
    ensures out == items + SortedRound(m.Keys, m, 0)
  {
    var keys := SortedKeys(m.Keys);
    SortedKeysElements(m.Keys);
    assert forall i :: 0 <= i < |keys| ==> keys[i] in m.Keys;
    ghost var done;
    left, out, done := ServeRound(m, keys, items, Sorted(m.Keys, m));
    forall k: Order
      ensures QueueAt(left, k) == Skip(QueueAt(m, k), 1)
    {
      assert k in keys <==> k in m.Keys;
    }
  }

  method Pass<T>(ghost m: Queues<T>, left: Queues<T>, items: seq<T>, ghost r: nat) returns (left': Queues<T>, out: seq<T>)
    requires NoEmptyQueue(left) && Skipped(m, left, r)
    requires items == Rounds(InOrder(m), r)
    ensures NoEmptyQueue(left') && Skipped(m, left', r + 1)
    ensures out == Rounds(InOrder(m), r + 1)
  {
    NextRound(m, left, r);
    left', out := ServeAll(left, items);
    SkipOneMore(m, left, left', r);
  }

  function Depth<T>(m: Queues<T>): nat {
    Longest(SortedKeys(m.Keys), m)
  }

  /** The output of the drain: as many rounds over the keys as the longest queue needs. */
  function Drained<T>(m: Queues<T>): seq<T> {
    Rounds(InOrder(m), Depth(m))
  }

  /** The least number of rounds that serves every item. */
  ghost predicate LeastServing<T>(m: Queues<T>, n: nat) {
    forall r: nat :: AllServed(m, r) <==> n <= r
  }

  lemma DepthServes<T>(m: Queues<T>)
    ensures LeastServing(m, Depth(m)) && AllServed(m, Depth(m))
  {
    SortedKeysElements(m.Keys);
    forall k: Order
      ensures |QueueAt(m, k)| <= Depth(m)
    {
      assert k in SortedKeys(m.Keys) <==> k in m.Keys;
    }
  }

  method DrainAll<T>(m: Queues<T>, ghost depth: nat) returns (items: seq<T>)
    requires NoEmptyQueue(m) && LeastServing(m, depth)
    ensures items == Rounds(InOrder(m), depth)
  {
    var left := m;
    ghost var rounds := 0;
    items := [];
    while left.Keys != {}
      invariant NoEmptyQueue(left) && Skipped(m, left, rounds)
      invariant items == Rounds(InOrder(m), rounds)
      invariant rounds <= depth
      decreases depth - rounds
    {
      Unfinished(m, left, rounds);
      left, items := Pass(m, left, items, rounds);
      rounds := rounds + 1;
    }
    Unfinished(m, left, rounds);
  }

  /** `collect_items`. */
  method CollectItems<T>(m: Queues<T>) returns (items: seq<T>)
    requires NoEmptyQueue(m)
    ensures items == Drained(m)
  {
    DepthServes(m);
    items := DrainAll(m, Depth(m));
  }

  // ----- where every item ends up ----------------------------------------------------------

  /** How many items the first `j` rounds take: the sum of min(length, j) over the first `n` queues. */
  function TakenBefore<T>(qs: seq<seq<T>>, n: nat, j: nat): nat
    requires n <= |qs|
  {
    if n == 0 then 0 else TakenBefore(qs, n - 1, j) + Min(|qs[n - 1]|, j)
  }

  /** How many of the first `n` queues still have an item number `j`. */
  function StillServed<T>(qs: seq<seq<T>>, n: nat, j: nat): nat
    requires n <= |qs|
  {
    if n == 0 then 0 else StillServed(qs, n - 1, j) + if j < |qs[n - 1]| then 1 else 0
  }

  lemma {:induction false} RoundLength<T>(qs: seq<seq<T>>, n: nat, j: nat)
    requires n <= |qs|
    ensures |Round(qs, n, j)| == StillServed(qs, n, j)
    ensures TakenBefore(qs, n, j + 1) == TakenBefore(qs, n, j) + StillServed(qs, n, j)
    decreases n
  {
    if n > 0 {
      RoundLength(qs, n - 1, j);
    }
  }

  lemma {:induction false} RoundsLength<T>(qs: seq<seq<T>>, r: nat)
    ensures |Rounds(qs, r)| == TakenBefore(qs, |qs|, r)
  {
    if r == 0 {
      TakenBeforeZero(qs, |qs|);
    } else {
      RoundsLength(qs, r - 1);
      RoundLength(qs, |qs|, r - 1);
    }
  }

  lemma {:induction false} TakenBeforeZero<T>(qs: seq<seq<T>>, n: nat)
    requires n <= |qs|
    ensures TakenBefore(qs, n, 0) == 0
    decreases n
  {
    if n > 0 {
      TakenBeforeZero(qs, n - 1);
    }
  }

  lemma {:induction false} RoundItem<T>(qs: seq<seq<T>>, n: nat, j: nat, i: nat)
    requires i < n <= |qs| && j < |qs[i]|
    ensures StillServed(qs, i, j) < |Round(qs, n, j)|
    ensures Round(qs, n, j)[StillServed(qs, i, j)] == qs[i][j]
    decreases n
  {
    RoundLength(qs, n - 1, j);
    if i < n - 1 {
      RoundItem(qs, n - 1, j, i);
    }
  }

  lemma FirstPart<T>(a: seq<T>, b: seq<T>, at: nat)
    requires at < |a|
    ensures at < |a + b| && (a + b)[at] == a[at]
  {
  }

  lemma SecondPart<T>(a: seq<T>, b: seq<T>, c: seq<T>, i: nat, at: nat)
    requires c == a + b && i < |b| && at == |a| + i
    ensures at < |c| && c[at] == b[i]
  {
  }

  /** Later rounds do not move what is already out. */
  lemma {:induction false} RoundsKeep<T>(qs: seq<seq<T>>, a: nat, b: nat, at: nat)
    requires a <= b && at < |Rounds(qs, a)|
    ensures at < |Rounds(qs, b)| && Rounds(qs, b)[at] == Rounds(qs, a)[at]
    decreases b
  {
    if a < b {
      RoundsKeep(qs, a, b - 1, at);
      FirstPart(Rounds(qs, b - 1), Round(qs, |qs|, b - 1), at);
    }
  }

  lemma LastRoundItem<T>(qs: seq<seq<T>>, i: nat, j: nat, at: nat)
    requires i < |qs| && j < |qs[i]| && at == TakenBefore(qs, |qs|, j) + StillServed(qs, i, j)
    ensures at < |Rounds(qs, j + 1)| && Rounds(qs, j + 1)[at] == qs[i][j]
  {
    RoundsLength(qs, j);
    RoundItem(qs, |qs|, j, i);
    SecondPart(Rounds(qs, j), Round(qs, |qs|, j), Rounds(qs, j + 1), StillServed(qs, i, j), at);
  }

  lemma QueuePosition<T>(qs: seq<seq<T>>, rounds: nat, i: nat, j: nat, at: nat)
    requires i < |qs| && j < |qs[i]| && j < rounds
    requires at == TakenBefore(qs, |qs|, j) + StillServed(qs, i, j)
    ensures at < |Rounds(qs, rounds)| && Rounds(qs, rounds)[at] == qs[i][j]
  {
    LastRoundItem(qs, i, j, at);
    RoundsKeep(qs, j + 1, rounds, at);
  }

  /** The sum over the keys of min(length, j): what the rounds before round `j` take. */
  function MinSum<T>(s: set<Order>, m: Queues<T>, j: nat): nat
    decreases |s|
  {
    if s == {} then 0 else MinSum(s - {LastKey(s)}, m, j) + Min(|QueueAt(m, LastKey(s))|, j)
  }

  /** The smaller keys that still have an item number `j`. */
  function Ahead<T>(m: Queues<T>, k: Order, j: nat): set<Order> {
    set x | x in m.Keys && x < k && j < |QueueAt(m, x)|
  }

  lemma {:induction false} TakenBeforeExtend<T>(qs: seq<seq<T>>, q: seq<T>, n: nat, j: nat)
    requires n <= |qs|
    ensures TakenBefore(qs + [q], n, j) == TakenBefore(qs, n, j)
    decreases n
  {
    if n > 0 {
      TakenBeforeExtend(qs, q, n - 1, j);
    }
  }

  lemma {:induction false} TakenIsMinSum<T>(s: set<Order>, m: Queues<T>, j: nat)
    ensures TakenBefore(Sorted(s, m), |Sorted(s, m)|, j) == MinSum(s, m, j)
    decreases |s|
  {
    if s != {} {
      var shorter, q := Sorted(s - {LastKey(s)}, m), QueueAt(m, LastKey(s));
      TakenIsMinSum(s - {LastKey(s)}, m, j);
      SortedLast(s, m);
      TakenBeforeExtend(shorter, q, |shorter|, j);
    }
  }

  predicate Among(keys: seq<Order>, n: nat, x: Order)
    requires n <= |keys|
  {
    n > 0 && (keys[n - 1] == x || Among(keys, n - 1, x))
  }

  lemma {:induction false} AmongAt(keys: seq<Order>, n: nat, a: nat)
    requires a < n <= |keys|
    ensures Among(keys, n, keys[a])
  {
    if a < n - 1 {
      AmongAt(keys, n - 1, a);
    }
  }

  lemma {:induction false} AmongFind(keys: seq<Order>, n: nat, x: Order) returns (a: nat)
    requires n <= |keys| && Among(keys, n, x)
    ensures a < n && keys[a] == x
  {
    if keys[n - 1] == x {
      a := n - 1;
    } else {
      a := AmongFind(keys, n - 1, x);
    }
  }

  ghost predicate StrictlyAscending(keys: seq<Order>) {
    forall a, b :: 0 <= a < b < |keys| ==> keys[a] < keys[b]
  }

  lemma AmongIsBelow(keys: seq<Order>, n: nat, a: nat)
    requires StrictlyAscending(keys) && n < |keys| && a < |keys|
    ensures Among(keys, n, keys[a]) <==> keys[a] < keys[n]
  {
    if a < n {
      AmongAt(keys, n, a);
    } else if Among(keys, n, keys[a]) {
      var b := AmongFind(keys, n, keys[a]);
    } else if a > n {
      assert keys[n] < keys[a];
    }
  }

  /** The keys among the first `n` that still have an item `j`. */
  function Served<T>(keys: seq<Order>, n: nat, m: Queues<T>, j: nat): set<Order>
    requires n <= |keys|
  {
    if n == 0 then {}
    else if j < |QueueAt(m, keys[n - 1])| then Served(keys, n - 1, m, j) + {keys[n - 1]}
    else Served(keys, n - 1, m, j)
  }

  lemma {:induction false} ServedMember<T>(keys: seq<Order>, n: nat, m: Queues<T>, j: nat, x: Order)
    requires n <= |keys|
    ensures x in Served(keys, n, m, j) <==> Among(keys, n, x) && j < |QueueAt(m, x)|
    decreases n
  {
    if n > 0 {
      ServedMember(keys, n - 1, m, j, x);
    }
  }

  lemma {:induction false} ServedCount<T>(keys: seq<Order>, n: nat, m: Queues<T>, j: nat, qs: seq<seq<T>>)
    requires n <= |keys| == |qs| && StrictlyAscending(keys)
    requires forall i :: 0 <= i < |qs| ==> qs[i] == QueueAt(m, keys[i])
    ensures |Served(keys, n, m, j)| == StillServed(qs, n, j)
    decreases n
  {
    if n > 0 {
      ServedCount(keys, n - 1, m, j, qs);
      ServedMember(keys, n - 1, m, j, keys[n - 1]);
      AmongIsBelow(keys, n - 1, n - 1);
    }
  }

  lemma AheadMember<T>(m: Queues<T>, keys: seq<Order>, i: nat, j: nat, x: Order)
    requires keys == SortedKeys(m.Keys) && i < |keys|
    ensures x in Ahead(m, keys[i], j) <==> x in Served(keys, i, m, j)
  {
    SortedKeysElements(m.Keys);
    ServedMember(keys, i, m, j, x);
    if x in m.Keys {
      assert x in keys;
      var a :| 0 <= a < |keys| && keys[a] == x;
      AmongIsBelow(keys, i, a);
    } else if Among(keys, i, x) {
      var a := AmongFind(keys, i, x);
    }
  }

  lemma AheadCount<T>(m: Queues<T>, keys: seq<Order>, i: nat, j: nat)
    requires keys == SortedKeys(m.Keys) && i < |keys|
    ensures |Ahead(m, keys[i], j)| == StillServed(InOrder(m), i, j)
  {
    SortedKeysElements(m.Keys);
    forall x: Order
      ensures x in Ahead(m, keys[i], j) <==> x in Served(keys, i, m, j)
    {
      AheadMember(m, keys, i, j, x);
    }
    assert Ahead(m, keys[i], j) == Served(keys, i, m, j);
    ServedCount(keys, i, m, j, InOrder(m));
  }

  /** Item `j` of key `k` comes after all items of earlier rounds, the sum of min(length, j) over all
      keys, and after the smaller keys that take part in its own round. */
  lemma ItemPosition<T>(m: Queues<T>, k: Order, j: nat, at: nat)
    requires k in m && j < |m[k]| && at == MinSum(m.Keys, m, j) + |Ahead(m, k, j)|
    ensures at < |Drained(m)| && Drained(m)[at] == m[k][j]
  {
    SortedKeysElements(m.Keys);
    assert k in m.Keys;
    var i :| 0 <= i < |SortedKeys(m.Keys)| && SortedKeys(m.Keys)[i] == k;
    AheadCount(m, SortedKeys(m.Keys), i, j);
    TakenIsMinSum(m.Keys, m, j);
    DepthServes(m);
    assert |QueueAt(m, k)| <= Depth(m);
    QueuePosition(InOrder(m), Depth(m), i, j, at);
  }

  // ----- nothing is lost or invented -------------------------------------------------------

  // Lists are compared through additive measures: how often an item occurs is one of them.

  ghost predicate AddsUp<T>(f: seq<T> -> nat, a: seq<T>, b: seq<T>) {
    f(a + b) == f(a) + f(b)
  }

  ghost predicate Additive<T(!new)>(f: seq<T> -> nat) {
    forall a, b :: AddsUp(f, a, b)
  }

  lemma EmptyMeasure<T(!new)>(f: seq<T> -> nat)
    requires Additive(f)
    ensures f([]) == 0
  {
    var empty: seq<T> := [];
    assert AddsUp(f, empty, empty);
    assert empty + empty == empty;
  }

  /** The items that the first `r` rounds take from one queue. */
  function Taken<T>(q: seq<T>, r: nat): seq<T> {
    if |q| <= r then q else q[..r]
  }

  ghost function TakenMeasure<T>(qs: seq<seq<T>>, n: nat, r: nat, f: seq<T> -> nat): nat
    requires n <= |qs|
  {
    if n == 0 then 0 else TakenMeasure(qs, n - 1, r, f) + f(Taken(qs[n - 1], r))
  }

  lemma TakenStep<T(!new)>(q: seq<T>, r: nat, f: seq<T> -> nat)
    requires Additive(f)
    ensures f(Taken(q, r + 1)) == f(Taken(q, r)) + if r < |q| then f([q[r]]) else 0
  {
    if r < |q| {
      assert Taken(q, r + 1) == q[..r] + [q[r]];
      assert AddsUp(f, q[..r], [q[r]]);
      assert q[..r] == Taken(q, r);
    }
  }

  lemma {:induction false} TakenMeasureStep<T(!new)>(qs: seq<seq<T>>, n: nat, r: nat, f: seq<T> -> nat)
    requires n <= |qs| && Additive(f)
    ensures TakenMeasure(qs, n, r + 1, f) == TakenMeasure(qs, n, r, f) + f(Round(qs, n, r))
    decreases n
  {
    if n == 0 {
      EmptyMeasure(f);
    } else {
      TakenMeasureStep(qs, n - 1, r, f);
      TakenStep(qs[n - 1], r, f);
      if r < |qs[n - 1]| {
        assert AddsUp(f, Round(qs, n - 1, r), [qs[n - 1][r]]);
      } else {
        assert Round(qs, n, r) == Round(qs, n - 1, r);
      }
    }
  }

  lemma {:induction false} NothingTaken<T(!new)>(qs: seq<seq<T>>, n: nat, f: seq<T> -> nat)
    requires n <= |qs| && Additive(f)
    ensures TakenMeasure(qs, n, 0, f) == 0
    decreases n
  {
    if n > 0 {
      EmptyMeasure(f);
      NothingTaken(qs, n - 1, f);
      assert Taken(qs[n - 1], 0) == [];
    }
  }

  lemma {:induction false} RoundsMeasure<T(!new)>(qs: seq<seq<T>>, r: nat, f: seq<T> -> nat)
    requires Additive(f)
    ensures f(Rounds(qs, r)) == TakenMeasure(qs, |qs|, r, f)
    decreases r
  {
    if r == 0 {
      EmptyMeasure(f);
      NothingTaken(qs, |qs|, f);
    } else {
      RoundsMeasure(qs, r - 1, f);
      TakenMeasureStep(qs, |qs|, r - 1, f);
      assert AddsUp(f, Rounds(qs, r - 1), Round(qs, |qs|, r - 1));
    }
  }

  /** The measure of everything queued under the keys of `s`. */
  ghost function Queued<T>(s: set<Order>, m: Queues<T>, f: seq<T> -> nat): nat
    decreases |s|
  {
    if s == {} then 0 else Queued(s - {LastKey(s)}, m, f) + f(QueueAt(m, LastKey(s)))
  }

  lemma {:induction false} TakenMeasureExtend<T>(qs: seq<seq<T>>, q: seq<T>, n: nat, r: nat, f: seq<T> -> nat)
    requires n <= |qs|
    ensures TakenMeasure(qs + [q], n, r, f) == TakenMeasure(qs, n, r, f)
    decreases n
  {
    if n > 0 {
      TakenMeasureExtend(qs, q, n - 1, r, f);
    }
  }

  lemma {:induction false} AllTaken<T>(s: set<Order>, m: Queues<T>, r: nat, f: seq<T> -> nat)
    requires AllServed(m, r)
    ensures TakenMeasure(Sorted(s, m), |Sorted(s, m)|, r, f) == Queued(s, m, f)
    decreases |s|
  {
    if s != {} {
      var shorter, q := Sorted(s - {LastKey(s)}, m), QueueAt(m, LastKey(s));
      AllTaken(s - {LastKey(s)}, m, r, f);
      SortedLast(s, m);
      TakenMeasureExtend(shorter, q, |shorter|, r, f);
      assert |q| <= r;
    }
  }

  lemma {:induction false} QueuedRemove<T>(s: set<Order>, m: Queues<T>, k: Order, f: seq<T> -> nat)
    requires k in s
    ensures Queued(s, m, f) == Queued(s - {k}, m, f) + f(QueueAt(m, k))
    decreases |s|
  {
    var last := LastKey(s);
    if k != last {
      QueuedRemove(s - {last}, m, k, f);
      assert last in s - {k};
      assert s - {k} - {last} == s - {last} - {k};
    }
  }

  lemma {:induction false} QueuedCongruent<T>(s: set<Order>, m: Queues<T>, m': Queues<T>, f: seq<T> -> nat)
    requires forall k: Order :: k in s ==> QueueAt(m, k) == QueueAt(m', k)
    ensures Queued(s, m, f) == Queued(s, m', f)
    decreases |s|
  {
    if s != {} {
      QueuedCongruent(s - {LastKey(s)}, m, m', f);
    }
  }

  // ----- the tree walk ---------------------------------------------------------------------

  /** An event or message with its order number. */
  type Numbered<T> = (Order, T)

  /** Events carry the contract that emitted them; messages name their sender themselves. */
  datatype Event = Event(from: nat, data: nat)
  datatype RawEvent = RawEvent(order: Order, data: nat)
  datatype Message = Message(from: nat, to: nat, payload: nat)

  datatype Invocation = Invocation(
    contract: nat, events: seq<RawEvent>, messages: seq<Numbered<Message>>, calls: seq<Invocation>)

  function Emitted(contract: nat, events: seq<RawEvent>): seq<Numbered<Event>> {
    if events == [] then []
    else
      var last := events[|events| - 1];
      Emitted(contract, events[..|events| - 1]) + [(last.order, Event(contract, last.data))]
  }

  /** The events of a call tree: its own, then those of its calls. */
  function EventsOf(inv: Invocation): seq<Numbered<Event>> {
    Emitted(inv.contract, inv.events) + EventsOfAll(inv.calls)
  }

  function EventsOfAll(calls: seq<Invocation>): seq<Numbered<Event>> {
    if calls == [] then [] else EventsOf(calls[0]) + EventsOfAll(calls[1..])
  }

  function MessagesOf(inv: Invocation): seq<Numbered<Message>> {
    inv.messages + MessagesOfAll(inv.calls)
  }

  function MessagesOfAll(calls: seq<Invocation>): seq<Numbered<Message>> {
    if calls == [] then [] else MessagesOf(calls[0]) + MessagesOfAll(calls[1..])
  }

  function Enqueue<T>(m: Queues<T>, x: Numbered<T>): Queues<T> {
    m[x.0 := QueueAt(m, x.0) + [x.1]]
  }

  function EnqueueAll<T>(m: Queues<T>, xs: seq<Numbered<T>>): Queues<T> {
    if xs == [] then m else Enqueue(EnqueueAll(m, xs[..|xs| - 1]), xs[|xs| - 1])
  }

  lemma {:induction false} EnqueueConcat<T>(m: Queues<T>, xs: seq<Numbered<T>>, ys: seq<Numbered<T>>)
    ensures EnqueueAll(m, xs + ys) == EnqueueAll(EnqueueAll(m, xs), ys)
    decreases |ys|
  {
    if ys == [] {
      assert xs + ys == xs;
    } else {
      assert (xs + ys)[..|xs + ys| - 1] == xs + ys[..|ys| - 1];
      EnqueueConcat(m, xs, ys[..|ys| - 1]);
    }
  }

  lemma Regroup<T>(a: seq<T>, b: seq<T>, c: seq<T>)
    ensures a + b + c == a + (b + c)
  {
  }

  /** The items of one order number, oldest first. */
  function OfOrder<T>(xs: seq<Numbered<T>>, k: Order): seq<T> {
    if xs == [] then [] else (if xs[0].0 == k then [xs[0].1] else []) + OfOrder(xs[1..], k)
  }

  lemma {:induction false} OfOrderPush<T>(xs: seq<Numbered<T>>, y: Numbered<T>, k: Order)
    ensures OfOrder(xs + [y], k) == OfOrder(xs, k) + if y.0 == k then [y.1] else []
    decreases |xs|
  {
    if xs == [] {
      assert [y][1..] == [];
    } else {
      assert (xs + [y])[1..] == xs[1..] + [y];
      OfOrderPush(xs[1..], y, k);
      Regroup(if xs[0].0 == k then [xs[0].1] else [], OfOrder(xs[1..], k), if y.0 == k then [y.1] else []);
    }
  }

  /** Each queue holds the items of its order number in the order in which they came. */
  lemma {:induction false} QueueKeepsOrder<T>(xs: seq<Numbered<T>>, k: Order)
    ensures QueueAt(EnqueueAll(map[], xs), k) == OfOrder(xs, k)
    decreases |xs|
  {
    if xs != [] {
      var n := |xs| - 1;
      QueueKeepsOrder(xs[..n], k);
      OfOrderPush(xs[..n], xs[n], k);
      assert xs == xs[..n] + [xs[n]];
    }
  }

  lemma {:induction false} EmittedAt(contract: nat, events: seq<RawEvent>, i: nat)
    requires i < |events|
    ensures |Emitted(contract, events)| == |events|
    ensures Emitted(contract, events)[i] == (events[i].order, Event(contract, events[i].data))
    decreases |events|
  {
    var n := |events| - 1;
    if n > 0 {
      EmittedAt(contract, events[..n], if i < n then i else 0);
    }
  }

  lemma {:induction false} WalkConcat(a: seq<Invocation>, b: seq<Invocation>)
    ensures EventsOfAll(a + b) == EventsOfAll(a) + EventsOfAll(b)
    ensures MessagesOfAll(a + b) == MessagesOfAll(a) + MessagesOfAll(b)
    decreases |a|
  {
    if a == [] {
      assert a + b == b;
    } else {
      assert (a + b)[1..] == a[1..] + b;
      WalkConcat(a[1..], b);
      Regroup(EventsOf(a[0]), EventsOfAll(a[1..]), EventsOfAll(b));
      Regroup(MessagesOf(a[0]), MessagesOfAll(a[1..]), MessagesOfAll(b));
    }
  }

  /** The walk is depth first: the items of a call come before those of the calls it made, and those
      before the items of the calls made after it. */
  lemma DepthFirst(inv: Invocation, rest: seq<Invocation>)
    ensures EventsOfAll([inv] + rest) == Emitted(inv.contract, inv.events) + EventsOfAll(inv.calls + rest)
    ensures MessagesOfAll([inv] + rest) == inv.messages + MessagesOfAll(inv.calls + rest)
  {
    assert ([inv] + rest)[1..] == rest;
    WalkConcat(inv.calls, rest);
    Regroup(Emitted(inv.contract, inv.events), EventsOfAll(inv.calls), EventsOfAll(rest));
    Regroup(inv.messages, MessagesOfAll(inv.calls), MessagesOfAll(rest));
  }

  method PushEvents(contract: nat, raw: seq<RawEvent>, events: Queues<Event>) returns (r: Queues<Event>)
    ensures r == EnqueueAll(events, Emitted(contract, raw))
  {
    r := events;
    for i := 0 to |raw|
      invariant r == EnqueueAll(events, Emitted(contract, raw[..i]))
    {
      assert raw[..i + 1][..i] == raw[..i];
      r := Enqueue(r, (raw[i].order, Event(contract, raw[i].data)));
    }
    assert raw[..|raw|] == raw;
  }

  method PushMessages(sent: seq<Numbered<Message>>, messages: Queues<Message>) returns (r: Queues<Message>)
    ensures r == EnqueueAll(messages, sent)
  {
    r := messages;
    for i := 0 to |sent|
      invariant r == EnqueueAll(messages, sent[..i])
    {
      assert sent[..i + 1][..i] == sent[..i];
      r := Enqueue(r, sent[i]);
    }
    assert sent[..|sent|] == sent;
  }

  /** `collect_events_and_messages`: push the items of one call, then visit its calls in turn. */
  method CollectEventsAndMessages(inv: Invocation, events: Queues<Event>, messages: Queues<Message>)
    returns (events': Queues<Event>, messages': Queues<Message>)
    ensures events' == EnqueueAll(events, EventsOf(inv))
    ensures messages' == EnqueueAll(messages, MessagesOf(inv))
    decreases inv
  {
    events' := PushEvents(inv.contract, inv.events, events);
    messages' := PushMessages(inv.messages, messages);
    EnqueueConcat(events, Emitted(inv.contract, inv.events), EventsOfAll(inv.calls));
    EnqueueConcat(messages, inv.messages, MessagesOfAll(inv.calls));
    events', messages' := CollectAll(inv.calls, events', messages');
  }

  method CollectAll(calls: seq<Invocation>, events: Queues<Event>, messages: Queues<Message>)
    returns (events': Queues<Event>, messages': Queues<Message>)
    ensures events' == EnqueueAll(events, EventsOfAll(calls))
    ensures messages' == EnqueueAll(messages, MessagesOfAll(calls))
    decreases calls
  {
    events', messages' := events, messages;
    if calls != [] {
      EnqueueConcat(events, EventsOf(calls[0]), EventsOfAll(calls[1..]));
      EnqueueConcat(messages, MessagesOf(calls[0]), MessagesOfAll(calls[1..]));
      events', messages' := CollectEventsAndMessages(calls[0], events, messages);
      events', messages' := CollectAll(calls[1..], events', messages');
    }
  }

  // ----- the receipt -----------------------------------------------------------------------

  function Items<T>(xs: seq<Numbered<T>>): seq<T> {
    if xs == [] then [] else Items(xs[..|xs| - 1]) + [xs[|xs| - 1].1]
  }

  lemma QueuedEnqueue<T(!new)>(m: Queues<T>, y: Numbered<T>, f: seq<T> -> nat)
    requires Additive(f)
    ensures Queued(Enqueue(m, y).Keys, Enqueue(m, y), f) == Queued(m.Keys, m, f) + f([y.1])
  {
    var m', k := Enqueue(m, y), y.0;
    QueuedRemove(m'.Keys, m', k, f);
    assert AddsUp(f, QueueAt(m, k), [y.1]);
    if k in m {
      QueuedRemove(m.Keys, m, k, f);
      assert m'.Keys == m.Keys;
    } else {
      EmptyMeasure(f);
      assert m'.Keys - {k} == m.Keys;
    }
    QueuedCongruent(m'.Keys - {k}, m, m', f);
  }

  lemma {:induction false} EnqueuedMeasure<T(!new)>(xs: seq<Numbered<T>>, f: seq<T> -> nat)
    requires Additive(f)
    ensures Queued(EnqueueAll(map[], xs).Keys, EnqueueAll(map[], xs), f) == f(Items(xs))
    decreases |xs|
  {
    if xs == [] {
      EmptyMeasure(f);
    } else {
      var shorter, y := xs[..|xs| - 1], xs[|xs| - 1];
      EnqueuedMeasure(shorter, f);
      QueuedEnqueue(EnqueueAll(map[], shorter), y, f);
      assert AddsUp(f, Items(shorter), [y.1]);
    }
  }

  lemma {:induction false} EnqueuedNonEmpty<T>(xs: seq<Numbered<T>>)
    ensures NoEmptyQueue(EnqueueAll(map[], xs))
    decreases |xs|
  {
    if xs != [] {
      EnqueuedNonEmpty(xs[..|xs| - 1]);
    }
  }

  lemma DrainMeasure<T(!new)>(xs: seq<Numbered<T>>, m: Queues<T>, f: seq<T> -> nat)
    requires m == EnqueueAll(map[], xs) && Additive(f)
    ensures f(Drained(m)) == f(Items(xs))
  {
    DepthServes(m);
    RoundsMeasure(InOrder(m), Depth(m), f);
    AllTaken(m.Keys, m, Depth(m), f);
    EnqueuedMeasure(xs, f);
  }

  lemma SameMultiplicity<T(!new)>(xs: seq<Numbered<T>>, m: Queues<T>, x: T)
    requires m == EnqueueAll(map[], xs)
    ensures multiset(Drained(m))[x] == multiset(Items(xs))[x]
  {
    var f: seq<T> -> nat := s => multiset(s)[x];
    DrainMeasure(xs, m, f);
  }

  /** The drained list is a permutation of what was queued. */
  lemma DrainIsPermutation<T(!new)>(xs: seq<Numbered<T>>, m: Queues<T>)
    requires m == EnqueueAll(map[], xs)
    ensures multiset(Drained(m)) == multiset(Items(xs))
  {
    forall x: T
      ensures multiset(Drained(m))[x] == multiset(Items(xs))[x]
    {
      SameMultiplicity(xs, m, x);
    }
  }

  /** The collected trees of a transaction, by kind; a reverted call has none. */
  datatype ExecutionInfo =
    | Declare(validate: Option<Invocation>, feeTransfer: Option<Invocation>)
    | DeployAccount(validate: Option<Invocation>, ctor: Option<Invocation>, feeTransfer: Option<Invocation>)
    | Invoke(validate: Option<Invocation>, execute: Option<Invocation>, feeTransfer: Option<Invocation>)
    | L1Handler(handle: Option<Invocation>)

  function One(inv: Option<Invocation>): seq<Invocation> {
    match inv case None => [] case Some(i) => [i]
  }

  function Trees(info: ExecutionInfo): seq<Invocation> {
    match info
    case Declare(v, f) => One(v) + One(f)
    case DeployAccount(v, c, f) => One(v) + One(c) + One(f)
    case Invoke(v, e, f) => One(v) + One(e) + One(f)
    case L1Handler(h) => One(h)
  }

  function EventsOfOne(inv: Option<Invocation>): seq<Numbered<Event>> {
    match inv case None => [] case Some(i) => EventsOf(i)
  }

  function MessagesOfOne(inv: Option<Invocation>): seq<Numbered<Message>> {
    match inv case None => [] case Some(i) => MessagesOf(i)
  }

  lemma WalkOne(inv: Option<Invocation>)
    ensures EventsOfAll(One(inv)) == EventsOfOne(inv) && MessagesOfAll(One(inv)) == MessagesOfOne(inv)
  {
    if inv.Some? {
      assert [inv.value][1..] == [];
    }
  }

  lemma WalkThree(a: Option<Invocation>, b: Option<Invocation>, c: Option<Invocation>)
    ensures EventsOfAll(One(a) + One(b) + One(c)) == EventsOfOne(a) + EventsOfOne(b) + EventsOfOne(c)
    ensures MessagesOfAll(One(a) + One(b) + One(c)) == MessagesOfOne(a) + MessagesOfOne(b) + MessagesOfOne(c)
  {
    WalkConcat(One(a) + One(b), One(c));
    WalkConcat(One(a), One(b));
    WalkOne(a);
    WalkOne(b);
    WalkOne(c);
  }

  /** Whose events and messages a receipt collects, kind by kind: those of validation first and of the
      fee transfer last, with the constructor or the execution between them; of an L1 handler, its own. */
  lemma WalkByKind(info: ExecutionInfo)
    ensures var events, messages := EventsOfAll(Trees(info)), MessagesOfAll(Trees(info));
            match info
            case Declare(v, f) =>
              events == EventsOfOne(v) + EventsOfOne(f) && messages == MessagesOfOne(v) + MessagesOfOne(f)
            case DeployAccount(v, c, f) =>
              && events == EventsOfOne(v) + EventsOfOne(c) + EventsOfOne(f)
              && messages == MessagesOfOne(v) + MessagesOfOne(c) + MessagesOfOne(f)
            case Invoke(v, e, f) =>
              && events == EventsOfOne(v) + EventsOfOne(e) + EventsOfOne(f)
              && messages == MessagesOfOne(v) + MessagesOfOne(e) + MessagesOfOne(f)
            case L1Handler(h) => events == EventsOfOne(h) && messages == MessagesOfOne(h)
  {
    match info
    case Declare(v, f) =>
      WalkConcat(One(v), One(f));
      WalkOne(v);
      WalkOne(f);
    case DeployAccount(v, c, f) => WalkThree(v, c, f);
    case Invoke(v, e, f) => WalkThree(v, e, f);
    case L1Handler(h) => WalkOne(h);
  }

  /** `to_receipt_and_events`: the events and messages of the collected call trees, drained; the
      receipt holds exactly those, each as often as it was emitted. */
  method ToReceiptAndEvents(info: ExecutionInfo) returns (events: seq<Event>, messages: seq<Message>)
    ensures events == Drained(EnqueueAll(map[], EventsOfAll(Trees(info))))
    ensures messages == Drained(EnqueueAll(map[], MessagesOfAll(Trees(info))))
    ensures multiset(events) == multiset(Items(EventsOfAll(Trees(info))))
    ensures multiset(messages) == multiset(Items(MessagesOfAll(Trees(info))))
  {
    var eventQueues, messageQueues := CollectAll(Trees(info), map[], map[]);
    EnqueuedNonEmpty(EventsOfAll(Trees(info)));
    EnqueuedNonEmpty(MessagesOfAll(Trees(info)));
    messages := CollectItems(messageQueues);
    events := CollectItems(eventQueues);
    DrainIsPermutation(MessagesOfAll(Trees(info)), messageQueues);
    DrainIsPermutation(EventsOfAll(Trees(info)), eventQueues);
  }

  /** Where each collected item ends up: the j-th one with number k, counted along the walk, is taken
      in round j, after the smaller numbers that still have a j-th item. */
  lemma WalkPosition<T>(xs: seq<Numbered<T>>, m: Queues<T>, k: Order, j: nat, at: nat)
    requires m == EnqueueAll(map[], xs) && j < |OfOrder(xs, k)| && at == MinSum(m.Keys, m, j) + |Ahead(m, k, j)|
    ensures at < |Drained(m)| && Drained(m)[at] == OfOrder(xs, k)[j]
  {
    QueueKeepsOrder(xs, k);
    ItemPosition(m, k, j, at);
  }

  ghost predicate DistinctOrders<T>(xs: seq<Numbered<T>>) {
    forall i, j :: 0 <= i < j < |xs| ==> xs[i].0 != xs[j].0
  }

  lemma {:induction false} DistinctQueues<T>(xs: seq<Numbered<T>>, k: Order)
    requires DistinctOrders(xs)
    ensures |QueueAt(EnqueueAll(map[], xs), k)| <= 1
    ensures QueueAt(EnqueueAll(map[], xs), k) != [] ==> (k, QueueAt(EnqueueAll(map[], xs), k)[0]) in xs
    ensures k in EnqueueAll(map[], xs) <==> exists i :: 0 <= i < |xs| && xs[i].0 == k
  {
    if xs != [] {
      var n := |xs| - 1;
      DistinctQueues(xs[..n], k);
      assert forall i :: 0 <= i < n ==> xs[..n][i] == xs[i];
    }
  }

  lemma {:induction false} SingletonRound<T>(qs: seq<seq<T>>, n: nat, j: nat)
    requires n <= |qs| && forall i :: 0 <= i < |qs| ==> |qs[i]| == 1
    ensures StillServed(qs, n, j) == if j == 0 then n else 0
    ensures TakenBefore(qs, n, j) == if j == 0 then 0 else n
    decreases n
  {
    if n > 0 {
      SingletonRound(qs, n - 1, j);
    }
  }

  lemma SingletonRounds<T>(qs: seq<seq<T>>, r: nat, i: nat)
    requires forall i :: 0 <= i < |qs| ==> |qs[i]| == 1
    requires r >= 1 && i < |qs|
    ensures |Rounds(qs, r)| == |qs| && Rounds(qs, r)[i] == qs[i][0]
  {
    RoundsLength(qs, r);
    SingletonRound(qs, |qs|, r);
    SingletonRound(qs, |qs|, 0);
    SingletonRound(qs, i, 0);
    QueuePosition(qs, r, i, 0, i);
  }

  lemma NoRounds<T>(r: nat)
    ensures Rounds<T>([], r) == []
  {
    if r > 0 {
      NoRounds<T>(r - 1);
    }
  }

  lemma SingleQueue<T>(xs: seq<Numbered<T>>, k: Order)
    requires DistinctOrders(xs) && k in EnqueueAll(map[], xs)
    ensures |QueueAt(EnqueueAll(map[], xs), k)| == 1
    ensures (k, QueueAt(EnqueueAll(map[], xs), k)[0]) in xs
  {
    EnqueuedNonEmpty(xs);
    DistinctQueues(xs, k);
  }

  /** With unique order numbers the drained list is sorted by them: its i-th item is the one that
      carries the i-th smallest number. */
  lemma UniqueOrdersAreSorted<T>(xs: seq<Numbered<T>>, m: Queues<T>, keys: seq<Order>)
    requires DistinctOrders(xs) && m == EnqueueAll(map[], xs) && keys == SortedKeys(m.Keys)
    ensures |Drained(m)| == |keys|
    ensures forall i, j :: 0 <= i < j < |keys| ==> keys[i] < keys[j]
    ensures forall i :: 0 <= i < |keys| ==> (keys[i], Drained(m)[i]) in xs
  {
    SortedKeysElements(m.Keys);
    DepthServes(m);
    forall i | 0 <= i < |keys|
      ensures |InOrder(m)[i]| == 1 <= Depth(m) && (keys[i], InOrder(m)[i][0]) in xs
    {
      assert keys[i] in m.Keys;
      SingleQueue(xs, keys[i]);
      assert |QueueAt(m, keys[i])| <= Depth(m);
    }
    if keys == [] {
      NoRounds<T>(Depth(m));
    }
    forall i | 0 <= i < |keys|
      ensures |Drained(m)| == |keys| && Drained(m)[i] == InOrder(m)[i][0]
    {
      SingletonRounds(InOrder(m), Depth(m), i);
    }
  }
}
