/**
 The length of a state diff: the number of records in the commitment stream against the count that
 is kept in the block header.
 */
module DiffLength {
  import opened Common
  import opened StateUpdates
  import opened DiffCommitment
  import opened DiffDecoding

  function Bit(b: bool): nat {
    if b then 1 else 0
  }

  /** What is counted per contract address. */
  datatype Measure =
    | Storage(u: StateUpdate)
    | Class(u: StateUpdate)
    | Nonce(u: StateUpdate)
    | StorageAndNonce(u: StateUpdate)
    | Contract(u: StateUpdate)            // everything in a contract entry
    | System(u: StateUpdate)
    | AllStorage(u: StateUpdate)          // contract and system entry
    | Written(u: StateUpdate)             // the storage diff that reaches the stream
    | Hidden(u: StateUpdate)              // cells of a contract entry displaced by a system entry
    | Cells(storage: map<nat, DiffCommitment.Cells>)

  function Size(m: Measure, c: nat): nat {
    match m
    case Storage(u) => |ContractIn(u.contracts, c).storage|
    case Class(u) => Bit(ContractIn(u.contracts, c).cls.Some?)
    case Nonce(u) => Bit(ContractIn(u.contracts, c).nonce.Some?)
    case StorageAndNonce(u) => |ContractIn(u.contracts, c).storage| + Bit(ContractIn(u.contracts, c).nonce.Some?)
    case Contract(u) => |ContractIn(u.contracts, c).storage| + Bit(ContractIn(u.contracts, c).nonce.Some?) + Bit(ContractIn(u.contracts, c).cls.Some?)
    case System(u) => |SystemIn(u.system, c)|
    case AllStorage(u) => |ContractIn(u.contracts, c).storage| + |SystemIn(u.system, c)|
    case Written(u) => |StorageDiffOf(u, c)|
    case Hidden(u) => if SystemIn(u.system, c) == map[] then 0 else |ContractIn(u.contracts, c).storage|
    case Cells(storage) => |SystemIn(storage, c)|
  }

  // ----- finite sums -----------------------------------------------------------------------

  function Sum(s: set<nat>, f: Measure): nat
    decreases |s|
  {
    if s == {} then 0 else Size(f, Max(s)) + Sum(s - {Max(s)}, f)
  }

  lemma {:induction false} SumRemove(s: set<nat>, f: Measure, x: nat)
    requires x in s
    ensures Sum(s, f) == Size(f, x) + Sum(s - {x}, f)
    decreases |s|
  {
    var m := Max(s);
    if x != m {
      SumRemove(s - {m}, f, x);
      assert m in s - {x} && Max(s - {x}) == m;
      assert s - {m} - {x} == s - {x} - {m};
    }
  }

  lemma {:induction false} SumAdd(s: set<nat>, f: Measure, g: Measure, h: Measure)
    requires forall x :: x in s ==> Size(h, x) == Size(f, x) + Size(g, x)
    ensures Sum(s, h) == Sum(s, f) + Sum(s, g)
    decreases |s|
  {
    if s != {} {
      SumAdd(s - {Max(s)}, f, g, h);
    }
  }

  lemma {:induction false} SumZero(s: set<nat>, f: Measure)
    ensures Sum(s, f) == 0 <==> forall x :: x in s ==> Size(f, x) == 0
    decreases |s|
  {
    if s != {} {
      SumZero(s - {Max(s)}, f);
      assert forall x :: x in s ==> x == Max(s) || x in s - {Max(s)};
    }
  }

  /** Elements that contribute nothing may be left out. */
  lemma {:induction false} SumWiden(s: set<nat>, t: set<nat>, f: Measure)
    requires s <= t
    requires forall x :: x in t && x !in s ==> Size(f, x) == 0
    ensures Sum(t, f) == Sum(s, f)
    decreases |t|
  {
    if t != {} {
      var m := Max(t);
      SumWiden(s - {m}, t - {m}, f);
      if m in s {
        SumRemove(s, f, m);
      } else {
        assert s - {m} == s;
      }
    }
  }

  lemma {:induction false} SumCong(s: set<nat>, f: Measure, g: Measure)
    requires forall x :: x in s ==> Size(f, x) == Size(g, x)
    ensures Sum(s, f) == Sum(s, g)
    decreases |s|
  {
    if s != {} {
      SumCong(s - {Max(s)}, f, g);
    }
  }

  lemma {:induction false} SumOnes(s: set<nat>, f: Measure)
    requires forall x :: x in s ==> Size(f, x) == 1
    ensures Sum(s, f) == |s|
    decreases |s|
  {
    if s != {} {
      SumOnes(s - {Max(s)}, f);
    }
  }

  // ----- state_diff_length -----------------------------------------------------------------

  function StateDiffLength(u: StateUpdate): nat {
    Sum(u.contracts.Keys, Contract(u)) + Sum(u.system.Keys, System(u)) + (|u.cairo| + |u.sierra| + |u.migrated|)
  }

  method CountContractEntries(u: StateUpdate) returns (len: nat)
    ensures len == Sum(u.contracts.Keys, Contract(u))
  {
    len := 0;
    var rest := u.contracts.Keys;
    while rest != {}
      invariant rest <= u.contracts.Keys
      invariant len + Sum(rest, Contract(u)) == Sum(u.contracts.Keys, Contract(u))
      decreases |rest|
    {
      var c :| c in rest;
      SumRemove(rest, Contract(u), c);
      len := len + |u.contracts[c].storage|;
      len := len + Bit(u.contracts[c].nonce.Some?);
      len := len + Bit(u.contracts[c].cls.Some?);
      rest := rest - {c};
    }
  }

  /** `StateUpdate::state_diff_length`. */
  method ComputeStateDiffLength(u: StateUpdate) returns (len: nat)
    ensures len == StateDiffLength(u)
  {
    len := CountContractEntries(u);
    var rest := u.system.Keys;
    while rest != {}
      invariant rest <= u.system.Keys
      invariant len + Sum(rest, System(u)) == Sum(u.contracts.Keys, Contract(u)) + Sum(u.system.Keys, System(u))
      decreases |rest|
    {
      var c :| c in rest;
      SumRemove(rest, System(u), c);
      len, rest := len + |u.system[c]|, rest - {c};
    }
    len := len + (|u.cairo| + |u.sierra| + |u.migrated|);
  }

  // ----- records of the stream -------------------------------------------------------------

  /** How many class, declaration, storage and nonce records the stream of a diff holds. */
  function RecordCount(d: Canonical): nat {
    |d.classes| + |d.declared| + |d.cairo| + Sum(d.storage.Keys, Cells(d.storage)) + |d.nonces|
  }

  /** The number of records in a stream, or `None` if it is not one. */
  function RecordsIn(s: seq<nat>): Option<nat> {
    match Decode(s)
    case None => None
    case Some(d) => Some(RecordCount(d))
  }

  /** What a reader counts in the stream of a diff is its record count. */
  lemma StreamHoldsRecords(d: Canonical)
    ensures RecordsIn(Stream(d)) == Some(RecordCount(d))
  {
    DecodeStream(d);
  }

  lemma CountClasses(u: StateUpdate)
    ensures |CanonicalOf(u).classes| == Sum(u.contracts.Keys, Class(u))
  {
    var s := CanonicalOf(u).classes.Keys;
    SumOnes(s, Class(u));
    SumWiden(s, u.contracts.Keys, Class(u));
  }

  lemma CountNonces(u: StateUpdate)
    ensures |CanonicalOf(u).nonces| == Sum(u.contracts.Keys, Nonce(u))
  {
    var s := CanonicalOf(u).nonces.Keys;
    SumOnes(s, Nonce(u));
    SumWiden(s, u.contracts.Keys, Nonce(u));
  }

  lemma WrittenAt(u: StateUpdate, storage: map<nat, DiffCommitment.Cells>, c: nat)
    requires storage == StorageOf(u)
    ensures SystemIn(storage, c) == (if c in u.contracts.Keys + u.system.Keys then StorageDiffOf(u, c) else map[])
    ensures c in storage ==> c in u.contracts.Keys + u.system.Keys
  {
  }

  lemma CountWritten(u: StateUpdate)
    ensures Sum(StorageOf(u).Keys, Cells(StorageOf(u))) == Sum(u.contracts.Keys + u.system.Keys, Written(u))
  {
    var storage, all := StorageOf(u), u.contracts.Keys + u.system.Keys;
    forall c: nat
      ensures c in storage ==> c in all && Size(Cells(storage), c) == Size(Written(u), c)
      ensures c !in storage && c in all ==> Size(Written(u), c) == 0
    {
      WrittenAt(u, storage, c);
    }
    SumCong(storage.Keys, Cells(storage), Written(u));
    SumWiden(storage.Keys, all, Written(u));
  }

  lemma CountCells(u: StateUpdate)
    ensures Sum(u.contracts.Keys + u.system.Keys, Written(u)) + Sum(u.contracts.Keys + u.system.Keys, Hidden(u))
            == Sum(u.contracts.Keys, Storage(u)) + Sum(u.system.Keys, System(u))
  {
    var all := u.contracts.Keys + u.system.Keys;
    SumWiden(u.contracts.Keys, all, Storage(u));
    SumWiden(u.system.Keys, all, System(u));
    SumAdd(all, Storage(u), System(u), AllStorage(u));
    SumAdd(all, Written(u), Hidden(u), AllStorage(u));
  }

  lemma CountContracts(u: StateUpdate)
    ensures Sum(u.contracts.Keys, Contract(u)) ==
            Sum(u.contracts.Keys, Storage(u)) + Sum(u.contracts.Keys, Nonce(u)) + Sum(u.contracts.Keys, Class(u))
  {
    SumAdd(u.contracts.Keys, Storage(u), Nonce(u), StorageAndNonce(u));
    SumAdd(u.contracts.Keys, StorageAndNonce(u), Class(u), Contract(u));
  }

  lemma {:induction false} ItemCount(m: map<nat, nat>)
    ensures |m.Items| == |m|
    decreases |m|
  {
    if m == map[] {
      assert m.Items == {};
    } else {
      var k :| k in m;
      var rest := m - {k};
      ItemCount(rest);
      forall p: Pair
        ensures p in m.Items <==> p in rest.Items + {(k, m[k])}
      {
        assert p == (p.0, p.1);
        assert p in m.Items <==> p.0 in m && m[p.0] == p.1;
        assert p in rest.Items <==> p.0 in rest && rest[p.0] == p.1;
      }
      assert m.Items == rest.Items + {(k, m[k])};
      assert m.Keys == rest.Keys + {k};
    }
  }

  lemma UnionCount(a: set<Pair>, b: set<Pair>)
    ensures |a + b| + |a * b| == |a| + |b|
  {
    assert a + b == a + (b - a);
    assert b == (b - a) + a * b;
  }

  lemma DisjointIff(a: set<Pair>, b: set<Pair>)
    ensures a !! b <==> |a * b| == 0
  {
    if |a * b| == 0 {
      assert a * b == {};
      forall p | p in a
        ensures p !in b
      {
        assert p !in a * b;
      }
    }
  }

  lemma LengthIsCountPlusOverlap(u: StateUpdate)
    ensures StateDiffLength(u) ==
            RecordCount(CanonicalOf(u)) + |u.sierra.Items * u.migrated.Items|
            + Sum(u.contracts.Keys + u.system.Keys, Hidden(u))
  {
    CountClasses(u);
    CountNonces(u);
    CountWritten(u);
    CountCells(u);
    CountContracts(u);
    ItemCount(u.sierra);
    ItemCount(u.migrated);
    UnionCount(u.sierra.Items, u.migrated.Items);
  }

  /** The header count exceeds the records found in the stream by the pairs that are declared and
      migrated at once and by the cells hidden behind a system entry. */
  lemma LengthIsRecordsPlusOverlap(u: StateUpdate)
    ensures var records := RecordsIn(Stream(CanonicalOf(u)));
            && records.Some?
            && StateDiffLength(u) == records.value + |u.sierra.Items * u.migrated.Items|
                                     + Sum(u.contracts.Keys + u.system.Keys, Hidden(u))
  {
    StreamHoldsRecords(CanonicalOf(u));
    LengthIsCountPlusOverlap(u);
  }

  lemma NothingHidden(u: StateUpdate)
    ensures Sum(u.contracts.Keys + u.system.Keys, Hidden(u)) == 0
            <==> forall c: nat :: SystemIn(u.system, c) == map[] || ContractIn(u.contracts, c).storage == map[]
  {
    var all := u.contracts.Keys + u.system.Keys;
    SumZero(all, Hidden(u));
    forall c: nat
      ensures Size(Hidden(u), c) == 0 <==> SystemIn(u.system, c) == map[] || ContractIn(u.contracts, c).storage == map[]
      ensures c !in all ==> Size(Hidden(u), c) == 0
    {
    }
  }

  lemma CountMatchesExactly(u: StateUpdate)
    ensures StateDiffLength(u) == RecordCount(CanonicalOf(u))
            <==> && u.sierra.Items !! u.migrated.Items
                 && forall c: nat :: SystemIn(u.system, c) == map[] || ContractIn(u.contracts, c).storage == map[]
  {
    LengthIsCountPlusOverlap(u);
    NothingHidden(u);
    DisjointIff(u.sierra.Items, u.migrated.Items);
  }

  /** The header count is the number of records in the stream exactly when no pair is both declared
      and migrated and no address has storage changes in both maps. */
  lemma LengthMatchesRecords(u: StateUpdate)
    ensures RecordsIn(Stream(CanonicalOf(u))) == Some(StateDiffLength(u))
            <==> && u.sierra.Items !! u.migrated.Items
                 && forall c: nat :: SystemIn(u.system, c) == map[] || ContractIn(u.contracts, c).storage == map[]
  {
    StreamHoldsRecords(CanonicalOf(u));
    CountMatchesExactly(u);
  }

  /** A class that is declared and migrated with the same hash in one update is counted twice. */
  lemma MigratedTwiceCounted(u: StateUpdate)
    requires u == StateUpdate(0, 0, 0, map[], map[], {}, map[7 := 8], map[7 := 8])
    ensures RecordsIn(Stream(CanonicalOf(u))) != Some(StateDiffLength(u))
  {
    LengthMatchesRecords(u);
    assert (7, 8) in u.sierra.Items && (7, 8) in u.migrated.Items;
  }
}
