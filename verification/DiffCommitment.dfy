/**
 The felt stream hashed into the state diff commitment, as defined in the section "State diff
 commitment" of the Starknet block documentation.
 */
module DiffCommitment {
  import opened Common
  import opened StateUpdates

  /** The bytes of "STARKNET_STATE_DIFF0" as a number. */
  const DOMAIN_TAG: nat := 0x53_54_41_52_4B_4E_45_54_5F_53_54_41_54_45_5F_44_49_46_46_30

  type Cells = map<nat, nat>
  type Pair = (nat, nat)

  // ----- ordered containers ----------------------------------------------------------------

  predicate Before(p: Pair, q: Pair) {
    p.0 < q.0 || (p.0 == q.0 && p.1 < q.1)
  }

  lemma LastPairExists(s: set<Pair>)
    requires s != {}
    ensures exists m :: m in s && forall p | p in s :: p == m || Before(p, m)
  {
    assert StrictTotalOrder(Before);
    var m := FindGreatest(s, Before);
    assert forall p | p in s :: p == m || Before(p, m);
  }

  function LastPair(s: set<Pair>): (m: Pair)
    requires s != {}
    ensures m in s
    ensures forall p | p in s :: p == m || Before(p, m)
  {
    LastPairExists(s);
    var m :| m in s && forall p | p in s :: p == m || Before(p, m);
    m
  }

  /** The iteration order of a B-tree set of pairs. */
  function SortedPairs(s: set<Pair>): seq<Pair>
    decreases |s|
  {
    if s == {} then [] else SortedPairs(s - {LastPair(s)}) + [LastPair(s)]
  }

  /** The iteration order of a B-tree set of felts. */
  function SortedFelts(s: set<nat>): seq<nat>
    decreases |s|
  {
    if s == {} then [] else SortedFelts(s - {Max(s)}) + [Max(s)]
  }

  lemma {:induction false} SortedPairsElements(s: set<Pair>)
    ensures |SortedPairs(s)| == |s|
    ensures forall p :: p in SortedPairs(s) <==> p in s
    ensures forall i, j :: 0 <= i < j < |SortedPairs(s)| ==> Before(SortedPairs(s)[i], SortedPairs(s)[j])
    decreases |s|
  {
    if s != {} {
      var rest := s - {LastPair(s)};
      SortedPairsElements(rest);
      forall i | 0 <= i < |SortedPairs(rest)|
        ensures Before(SortedPairs(rest)[i], LastPair(s))
      {
        assert SortedPairs(rest)[i] in rest;
      }
    }
  }

  lemma {:induction false} SortedFeltsElements(s: set<nat>)
    ensures |SortedFelts(s)| == |s|
    ensures forall x :: x in SortedFelts(s) <==> x in s
    ensures forall i, j :: 0 <= i < j < |SortedFelts(s)| ==> SortedFelts(s)[i] < SortedFelts(s)[j]
    decreases |s|
  {
    if s != {} {
      var rest := s - {Max(s)};
      SortedFeltsElements(rest);
      forall i | 0 <= i < |SortedFelts(rest)|
        ensures SortedFelts(rest)[i] < Max(s)
      {
        assert SortedFelts(rest)[i] in rest;
      }
    }
  }

  // ----- the canonical diff and its stream -------------------------------------------------

  datatype Canonical = Canonical(
    classes: map<nat, nat>,            // class hash per deployed or replaced contract
    declared: set<Pair>,               // declared or migrated (sierra, casm) pairs
    cairo: set<nat>,
    storage: map<nat, Cells>,          // non-empty storage diffs
    nonces: map<nat, nat>)

  /** Both storage maps are collected into one, contracts first: a non-empty system diff wins. */
  function StorageDiffOf(u: StateUpdate, c: nat): Cells {
    if SystemIn(u.system, c) != map[] then SystemIn(u.system, c) else ContractIn(u.contracts, c).storage
  }

  /** The storage changes of every address that has any. */
  function StorageOf(u: StateUpdate): map<nat, Cells> {
    map c | c in u.contracts.Keys + u.system.Keys && StorageDiffOf(u, c) != map[] :: StorageDiffOf(u, c)
  }

  function ClassesOf(contracts: map<nat, ContractUpdate>): map<nat, nat> {
    map c | c in contracts && contracts[c].cls.Some? :: contracts[c].cls.value.hash
  }

  function NoncesOf(contracts: map<nat, ContractUpdate>): map<nat, nat> {
    map c | c in contracts && contracts[c].nonce.Some? :: contracts[c].nonce.value
  }

  function CanonicalOf(u: StateUpdate): Canonical {
    Canonical(ClassesOf(u.contracts), u.sierra.Items + u.migrated.Items, u.cairo, StorageOf(u), NoncesOf(u.contracts))
  }

  function Flat(pairs: seq<Pair>): seq<nat> {
    if pairs == [] then [] else [pairs[0].0, pairs[0].1] + Flat(pairs[1..])
  }

  function Counted(pairs: seq<Pair>): seq<nat> {
    [|pairs|] + Flat(pairs)
  }

  function FeltSection(s: set<nat>): seq<nat> {
    [|s|] + SortedFelts(s)
  }

  function StorageBlocks(contracts: seq<nat>, storage: map<nat, Cells>): seq<nat>
  {
    if contracts == [] then []
    else [contracts[0]] + Counted(SortedPairs(SystemIn(storage, contracts[0]).Items)) + StorageBlocks(contracts[1..], storage)
  }

  function StorageSection(storage: map<nat, Cells>): seq<nat> {
    [|storage|] + StorageBlocks(SortedFelts(storage.Keys), storage)
  }

  function StorageAndNonces(d: Canonical): seq<nat> {
    StorageSection(d.storage) + Counted(SortedPairs(d.nonces.Items))
  }

  /** The old classes, then two fixed felts, then everything else. */
  function OldClassesOn(d: Canonical): seq<nat> {
    FeltSection(d.cairo) + ([1, 0] + StorageAndNonces(d))
  }

  function Stream(d: Canonical): seq<nat> {
    [DOMAIN_TAG]
    + (Counted(SortedPairs(d.classes.Items)) + (Counted(SortedPairs(d.declared)) + OldClassesOn(d)))
  }

  // ----- compute ---------------------------------------------------------------------------

  lemma {:induction false} FlatConcat(p: seq<Pair>, q: seq<Pair>)
    ensures Flat(p + q) == Flat(p) + Flat(q)
  {
    if p == [] {
      assert p + q == q;
    } else {
      assert (p + q)[1..] == p[1..] + q;
      FlatConcat(p[1..], q);
    }
  }

  lemma {:induction false} BlocksConcat(c: seq<nat>, d: seq<nat>, s: map<nat, Cells>)
    ensures StorageBlocks(c + d, s) == StorageBlocks(c, s) + StorageBlocks(d, s)
  {
    if c == [] {
      assert c + d == d;
    } else {
      assert (c + d)[1..] == c[1..] + d;
      BlocksConcat(c[1..], d, s);
    }
  }

  lemma BlocksUnfold(c: seq<nat>, s: map<nat, Cells>, x: seq<nat>)
    requires c != []
    ensures StorageBlocks(c, s) + x ==
            [c[0]] + (Counted(SortedPairs(SystemIn(s, c[0]).Items)) + (StorageBlocks(c[1..], s) + x))
  {
    ConcatAssociative([c[0]], Counted(SortedPairs(SystemIn(s, c[0]).Items)), StorageBlocks(c[1..], s), x);
  }

  lemma ConcatAssociative(h: seq<nat>, m: seq<nat>, t: seq<nat>, x: seq<nat>)
    ensures (h + m + t) + x == h + (m + (t + x))
  {
  }

  method WritePairs(hasher: seq<nat>, pairs: seq<Pair>) returns (r: seq<nat>)
    ensures r == hasher + Counted(pairs)
  {
    r := hasher + [|pairs|];
    for i := 0 to |pairs|
      invariant r == hasher + [|pairs|] + Flat(pairs[..i])
    {
      assert pairs[..i + 1] == pairs[..i] + [pairs[i]];
      FlatConcat(pairs[..i], [pairs[i]]);
      assert Flat([pairs[i]]) == [pairs[i].0, pairs[i].1];
      r := r + [pairs[i].0];
      r := r + [pairs[i].1];
    }
    assert pairs[..|pairs|] == pairs;
  }

  lemma BlocksPush(contracts: seq<nat>, i: nat, s: map<nat, Cells>)
    requires i < |contracts|
    ensures StorageBlocks(contracts[..i + 1], s)
         == StorageBlocks(contracts[..i], s) + ([contracts[i]] + Counted(SortedPairs(SystemIn(s, contracts[i]).Items)))
  {
    var c := contracts[i];
    assert contracts[..i + 1] == contracts[..i] + [c];
    BlocksConcat(contracts[..i], [c], s);
    BlocksUnfold([c], s, []);
    assert StorageBlocks([c], s) == [c] + Counted(SortedPairs(SystemIn(s, c).Items));
  }

  lemma Appended(h: seq<nat>, b: seq<nat>, c: nat, x: seq<nat>)
    ensures (h + b) + [c] + x == h + (b + ([c] + x))
  {
  }

  method WriteStorage(hasher: seq<nat>, storage: map<nat, Cells>) returns (r: seq<nat>)
    ensures r == hasher + StorageSection(storage)
  {
    var contracts := SortedFelts(storage.Keys);
    r := hasher + [|storage|];
    ghost var head := r;
    for i := 0 to |contracts|
      invariant r == head + StorageBlocks(contracts[..i], storage)
    {
      var c := contracts[i];
      var cells := SortedPairs(SystemIn(storage, c).Items);
      BlocksPush(contracts, i, storage);
      Appended(head, StorageBlocks(contracts[..i], storage), c, Counted(cells));
      r := WritePairs(r + [c], cells);
    }
    assert contracts[..|contracts|] == contracts;
  }

  method WriteFelts(hasher: seq<nat>, felts: set<nat>) returns (r: seq<nat>)
    ensures r == hasher + FeltSection(felts)
  {
    var classes := SortedFelts(felts);
    r := hasher + [|felts|];
    for i := 0 to |classes|
      invariant r == hasher + [|felts|] + classes[..i]
    {
      r := r + [classes[i]];
    }
    assert classes[..|classes|] == classes;
  }

  lemma Reassociate(t: seq<nat>, a: seq<nat>, b: seq<nat>, c: seq<nat>, s: seq<nat>, n: seq<nat>)
    ensures t + a + b + c + [1] + [0] + s + n == t + (a + (b + (c + ([1, 0] + (s + n)))))
  {
  }

  // The hash containers are collected into ordered ones, entry by entry in any order.

  method CollectClasses(contracts: map<nat, ContractUpdate>) returns (r: map<nat, nat>)
    ensures r == ClassesOf(contracts)
  {
    r := map[];
    var rest := contracts.Keys;
    while rest != {}
      invariant rest <= contracts.Keys
      invariant r == map c | c in ClassesOf(contracts) && c !in rest :: ClassesOf(contracts)[c]
      decreases |rest|
    {
      var c :| c in rest;
      match contracts[c].cls {
        case Some(update) => r := r[c := update.hash];
        case None =>
      }
      rest := rest - {c};
    }
  }

  method CollectNonces(contracts: map<nat, ContractUpdate>) returns (r: map<nat, nat>)
    ensures r == NoncesOf(contracts)
  {
    r := map[];
    var rest := contracts.Keys;
    while rest != {}
      invariant rest <= contracts.Keys
      invariant r == map c | c in NoncesOf(contracts) && c !in rest :: NoncesOf(contracts)[c]
      decreases |rest|
    {
      var c :| c in rest;
      match contracts[c].nonce {
        case Some(nonce) => r := r[c := nonce];
        case None =>
      }
      rest := rest - {c};
    }
  }

  method CollectPairs(into: set<Pair>, from: map<nat, nat>) returns (r: set<Pair>)
    ensures r == into + from.Items
  {
    r := into;
    var rest := from.Keys;
    while rest != {}
      invariant rest <= from.Keys
      invariant forall p: Pair :: p in r <==> p in into || (p in from.Items && p.0 !in rest)
      decreases |rest|
    {
      var k :| k in rest;
      r, rest := r + {(k, from[k])}, rest - {k};
    }
  }

  method CollectFelts(felts: set<nat>) returns (r: set<nat>)
    ensures r == felts
  {
    r := {};
    var rest := felts;
    while rest != {}
      invariant rest <= felts && r == felts - rest
      decreases |rest|
    {
      var x :| x in rest;
      r, rest := r + {x}, rest - {x};
    }
  }

  predicate NoEmptyDiff(storage: map<nat, Cells>) {
    forall c :: c in storage ==> storage[c] != map[]
  }

  lemma SameStorage(a: map<nat, Cells>, b: map<nat, Cells>)
    requires NoEmptyDiff(a) && NoEmptyDiff(b) && forall c: nat :: SystemIn(a, c) == SystemIn(b, c)
    ensures a == b
  {
    forall c: nat
      ensures c in a <==> c in b
      ensures c in a && c in b ==> a[c] == b[c]
    {
      assert SystemIn(a, c) == SystemIn(b, c);
    }
  }

  lemma StorageOfAt(u: StateUpdate, c: nat)
    ensures SystemIn(StorageOf(u), c) == StorageDiffOf(u, c)
  {
  }

  /** What an address holds once all but the entries of `rest` have been collected. */
  function Collected(into: map<nat, Cells>, from: map<nat, Cells>, rest: set<nat>, c: nat): Cells {
    if c !in rest && SystemIn(from, c) != map[] then SystemIn(from, c) else SystemIn(into, c)
  }

  lemma CollectStep(into: map<nat, Cells>, from: map<nat, Cells>, rest: set<nat>, r: map<nat, Cells>, c: nat)
    requires c in rest && c in from && forall x: nat :: SystemIn(r, x) == Collected(into, from, rest, x)
    ensures var r' := if from[c] != map[] then r[c := from[c]] else r;
            forall x: nat :: SystemIn(r', x) == Collected(into, from, rest - {c}, x)
  {
    var r' := if from[c] != map[] then r[c := from[c]] else r;
    forall x: nat
      ensures SystemIn(r', x) == Collected(into, from, rest - {c}, x)
    {
      assert SystemIn(r, x) == Collected(into, from, rest, x);
    }
  }

  /** One of the two chained iterators: a non-empty diff replaces what is there. */
  method CollectInto(into: map<nat, Cells>, from: map<nat, Cells>) returns (r: map<nat, Cells>)
    requires NoEmptyDiff(into)
    ensures NoEmptyDiff(r)
    ensures forall c: nat :: SystemIn(r, c) == Collected(into, from, {}, c)
  {
    r := into;
    var rest := from.Keys;
    while rest != {}
      invariant rest <= from.Keys && NoEmptyDiff(r)
      invariant forall c: nat :: SystemIn(r, c) == Collected(into, from, rest, c)
      decreases |rest|
    {
      var c :| c in rest;
      CollectStep(into, from, rest, r, c);
      if from[c] != map[] {
        r := r[c := from[c]];
      }
      rest := rest - {c};
    }
  }

  /** The storage maps of the contracts, then those of the system contracts. */
  method CollectStorage(u: StateUpdate) returns (r: map<nat, Cells>)
    ensures r == StorageOf(u)
  {
    var contracts := map c | c in u.contracts :: u.contracts[c].storage;
    r := CollectInto(map[], contracts);
    r := CollectInto(r, u.system);
    forall c: nat
      ensures SystemIn(r, c) == SystemIn(StorageOf(u), c)
    {
      StorageOfAt(u, c);
      assert SystemIn(contracts, c) == ContractIn(u.contracts, c).storage;
    }
    SameStorage(r, StorageOf(u));
  }

  /** `state_diff_commitment::compute`, up to the hash function: the felts written to the hasher,
      whatever the iteration order of the five hash containers. */
  method Compute(u: StateUpdate) returns (written: seq<nat>)
    ensures written == Stream(CanonicalOf(u))
  {
    var classes := CollectClasses(u.contracts);
    var declared := CollectPairs({}, u.sierra);
    declared := CollectPairs(declared, u.migrated);
    var cairo := CollectFelts(u.cairo);
    var storage := CollectStorage(u);
    var nonces := CollectNonces(u.contracts);
    assert declared == u.sierra.Items + u.migrated.Items;
    written := WriteDiff(Canonical(classes, declared, cairo, storage, nonces));
  }

  method WriteDiff(d: Canonical) returns (written: seq<nat>)
    ensures written == Stream(d)
  {
    written := WritePairs([DOMAIN_TAG], SortedPairs(d.classes.Items));
    written := WritePairs(written, SortedPairs(d.declared));
    written := WriteFelts(written, d.cairo);
    written := written + [1];
    written := written + [0];
    written := WriteStorage(written, d.storage);
    written := WritePairs(written, SortedPairs(d.nonces.Items));
    Reassociate([DOMAIN_TAG], Counted(SortedPairs(d.classes.Items)), Counted(SortedPairs(d.declared)),
                FeltSection(d.cairo), StorageSection(d.storage), Counted(SortedPairs(d.nonces.Items)));
  }
}
