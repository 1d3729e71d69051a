/**
 A reader of the state diff stream.  It moves a cursor from count to count, takes the felts in the
 order in which they were written, and recovers the whole diff.
 */
module DiffDecoding {
  import opened Common
  import opened StateUpdates
  import opened DiffCommitment

  // ----- the reader ------------------------------------------------------------------------

  /** `n` entries from the cursor on, each a key followed by its value. */
  function MapAt(s: seq<nat>, pos: nat, n: nat): map<nat, nat>
    requires pos + 2 * n <= |s|
  {
    if n == 0 then map[]
    else MapAt(s, pos, n - 1)[s[pos + 2 * n - 2] := s[pos + 2 * n - 1]]
  }

  function PairsAt(s: seq<nat>, pos: nat, n: nat): set<Pair>
    requires pos + 2 * n <= |s|
  {
    if n == 0 then {}
    else PairsAt(s, pos, n - 1) + {(s[pos + 2 * n - 2], s[pos + 2 * n - 1])}
  }

  function FeltsAt(s: seq<nat>, pos: nat, n: nat): set<nat>
    requires pos + n <= |s|
  {
    if n == 0 then {} else FeltsAt(s, pos, n - 1) + {s[pos + n - 1]}
  }

  // Each section starts with its count; the result carries the cursor behind the section.

  function ReadMap(s: seq<nat>, pos: nat): Option<(map<nat, nat>, nat)> {
    if pos < |s| && pos + 1 + 2 * s[pos] <= |s| then Some((MapAt(s, pos + 1, s[pos]), pos + 1 + 2 * s[pos])) else None
  }

  function ReadPairs(s: seq<nat>, pos: nat): Option<(set<Pair>, nat)> {
    if pos < |s| && pos + 1 + 2 * s[pos] <= |s| then Some((PairsAt(s, pos + 1, s[pos]), pos + 1 + 2 * s[pos])) else None
  }

  function ReadFelts(s: seq<nat>, pos: nat): Option<(set<nat>, nat)> {
    if pos < |s| && pos + 1 + s[pos] <= |s| then Some((FeltsAt(s, pos + 1, s[pos]), pos + 1 + s[pos])) else None
  }

  /** `n` storage blocks, each an address followed by its counted cells. */
  function ReadBlocks(s: seq<nat>, pos: nat, n: nat): Option<(map<nat, Cells>, nat)>
    decreases n
  {
    if n == 0 then Some((map[], pos))
    else if pos >= |s| then None
    else
      match ReadMap(s, pos + 1)
      case None => None
      case Some((cells, next)) =>
        match ReadBlocks(s, next, n - 1)
        case None => None
        case Some((others, end)) => Some((others[s[pos] := cells], end))
  }

  function ReadStorage(s: seq<nat>, pos: nat): Option<(map<nat, Cells>, nat)> {
    if pos < |s| then ReadBlocks(s, pos + 1, s[pos]) else None
  }

  /** The two fixed felts between the old classes and the storage. */
  function ReadGap(s: seq<nat>, pos: nat): Option<nat> {
    if pos + 2 <= |s| && s[pos] == 1 && s[pos + 1] == 0 then Some(pos + 2) else None
  }

  function Decode(s: seq<nat>): Option<Canonical> {
    if |s| == 0 || s[0] != DOMAIN_TAG then None
    else
      match ReadMap(s, 1)
      case None => None
      case Some((classes, p1)) =>
        match ReadPairs(s, p1)
        case None => None
        case Some((declared, p2)) =>
          match ReadFelts(s, p2)
          case None => None
          case Some((cairo, p3)) =>
            match ReadGap(s, p3)
            case None => None
            case Some(p4) =>
              match ReadStorage(s, p4)
              case None => None
              case Some((storage, p5)) =>
                match ReadMap(s, p5)
                case None => None
                case Some((nonces, end)) =>
                  if end == |s| then Some(Canonical(classes, declared, cairo, storage, nonces)) else None
  }

  // ----- a part of the stream at a cursor --------------------------------------------------

  /** `part` stands in `s` at the cursor. */
  predicate Holds(s: seq<nat>, pos: nat, part: seq<nat>) {
    pos + |part| <= |s| && forall i :: 0 <= i < |part| ==> s[pos + i] == part[i]
  }

  lemma HoldsParts(s: seq<nat>, pos: nat, a: seq<nat>, b: seq<nat>)
    requires Holds(s, pos, a + b)
    ensures Holds(s, pos, a) && Holds(s, pos + |a|, b)
  {
    forall i | 0 <= i < |a|
      ensures s[pos + i] == a[i]
    {
      assert (a + b)[i] == a[i];
    }
    forall i | 0 <= i < |b|
      ensures s[pos + |a| + i] == b[i]
    {
      assert (a + b)[|a| + i] == b[i];
    }
  }

  /** A count in front of a part. */
  lemma HoldsCount(s: seq<nat>, pos: nat, n: nat, part: seq<nat>)
    requires Holds(s, pos, [n] + part)
    ensures pos < |s| && s[pos] == n && Holds(s, pos + 1, part)
  {
    HoldsParts(s, pos, [n], part);
    assert s[pos + 0] == [n][0];
  }

  lemma {:induction false} FlatAt(pairs: seq<Pair>, i: nat)
    requires i < |pairs|
    ensures |Flat(pairs)| == 2 * |pairs|
    ensures Flat(pairs)[2 * i] == pairs[i].0 && Flat(pairs)[2 * i + 1] == pairs[i].1
    decreases |pairs|
  {
    if |pairs| == 1 {
      assert pairs[1..] == [];
    } else {
      FlatAt(pairs[1..], if i == 0 then 0 else i - 1);
    }
  }

  lemma FlatLength(pairs: seq<Pair>)
    ensures |Flat(pairs)| == 2 * |pairs|
  {
    if pairs != [] {
      FlatAt(pairs, 0);
    }
  }

  // ----- pairs -----------------------------------------------------------------------------

  function MapOf(pairs: seq<Pair>): map<nat, nat> {
    if pairs == [] then map[] else MapOf(pairs[..|pairs| - 1])[pairs[|pairs| - 1].0 := pairs[|pairs| - 1].1]
  }

  function SetOf(pairs: seq<Pair>): set<Pair> {
    if pairs == [] then {} else SetOf(pairs[..|pairs| - 1]) + {pairs[|pairs| - 1]}
  }

  lemma {:induction false} EntriesHeld(s: seq<nat>, pos: nat, pairs: seq<Pair>, n: nat)
    requires Holds(s, pos, Flat(pairs)) && n <= |pairs|
    ensures pos + 2 * n <= |s|
    ensures MapAt(s, pos, n) == MapOf(pairs[..n]) && PairsAt(s, pos, n) == SetOf(pairs[..n])
    decreases n
  {
    FlatLength(pairs);
    if n > 0 {
      EntriesHeld(s, pos, pairs, n - 1);
      FlatAt(pairs, n - 1);
      assert s[pos + (2 * n - 2)] == Flat(pairs)[2 * n - 2] && s[pos + (2 * n - 1)] == Flat(pairs)[2 * n - 1];
      assert pairs[..n][..n - 1] == pairs[..n - 1];
    }
  }

  lemma PairsHeld(s: seq<nat>, pos: nat, pairs: seq<Pair>)
    requires Holds(s, pos, Counted(pairs))
    ensures ReadMap(s, pos) == Some((MapOf(pairs), pos + |Counted(pairs)|))
    ensures ReadPairs(s, pos) == Some((SetOf(pairs), pos + |Counted(pairs)|))
  {
    HoldsCount(s, pos, |pairs|, Flat(pairs));
    FlatLength(pairs);
    EntriesHeld(s, pos + 1, pairs, |pairs|);
    assert pairs[..|pairs|] == pairs;
  }

  lemma {:induction false} SetOfSorted(s: set<Pair>)
    ensures SetOf(SortedPairs(s)) == s
    decreases |s|
  {
    if s != {} {
      SetOfSorted(s - {LastPair(s)});
      assert SortedPairs(s)[..|SortedPairs(s)| - 1] == SortedPairs(s - {LastPair(s)});
    }
  }

  lemma ItemsWithout(m: map<nat, nat>, k: nat)
    requires k in m
    ensures (m - {k}).Items == m.Items - {(k, m[k])}
  {
    forall p: Pair
      ensures p in (m - {k}).Items <==> p in m.Items - {(k, m[k])}
    {
      assert p == (p.0, p.1);
      assert p in m.Items <==> p.0 in m && m[p.0] == p.1;
      assert p in (m - {k}).Items <==> p.0 in m - {k} && (m - {k})[p.0] == p.1;
    }
  }

  lemma LastItem(m: map<nat, nat>) returns (k: nat)
    requires m != map[]
    ensures m.Items != {} && k in m && LastPair(m.Items) == (k, m[k])
  {
    var any :| any in m;
    assert (any, m[any]) in m.Items;
    k := LastPair(m.Items).0;
  }

  lemma Reinsert(m: map<nat, nat>, k: nat)
    requires k in m
    ensures (m - {k})[k := m[k]] == m && |m - {k}| < |m|
  {
    assert m.Keys == (m - {k}).Keys + {k};
  }

  lemma MapOfPush(pairs: seq<Pair>, p: Pair)
    ensures MapOf(pairs + [p]) == MapOf(pairs)[p.0 := p.1]
  {
    assert (pairs + [p])[..|pairs|] == pairs;
  }

  lemma {:induction false} MapOfSorted(m: map<nat, nat>)
    ensures MapOf(SortedPairs(m.Items)) == m
    decreases |m|
  {
    if m == map[] {
      assert m.Items == {};
    } else {
      var k := LastItem(m);
      var others := m - {k};
      Reinsert(m, k);
      ItemsWithout(m, k);
      MapOfSorted(others);
      MapOfPush(SortedPairs(others.Items), (k, m[k]));
    }
  }

  // ----- the sections ----------------------------------------------------------------------

  lemma MapHeld(s: seq<nat>, pos: nat, m: map<nat, nat>)
    requires Holds(s, pos, Counted(SortedPairs(m.Items)))
    ensures ReadMap(s, pos) == Some((m, pos + |Counted(SortedPairs(m.Items))|))
  {
    PairsHeld(s, pos, SortedPairs(m.Items));
    MapOfSorted(m);
  }

  lemma {:induction false} ListHeld(s: seq<nat>, pos: nat, felts: seq<nat>, n: nat)
    requires Holds(s, pos, felts) && n <= |felts|
    ensures FeltsAt(s, pos, n) == set x | x in felts[..n]
    decreases n
  {
    if n > 0 {
      ListHeld(s, pos, felts, n - 1);
      assert felts[..n] == felts[..n - 1] + [felts[n - 1]];
      assert s[pos + (n - 1)] == felts[n - 1];
    }
  }

  lemma SetOfFelts(felts: set<nat>)
    ensures |SortedFelts(felts)| == |felts|
    ensures (set x | x in SortedFelts(felts)) == felts
  {
    SortedFeltsElements(felts);
  }

  lemma FeltsHeld(s: seq<nat>, pos: nat, felts: set<nat>)
    requires Holds(s, pos, FeltSection(felts))
    ensures ReadFelts(s, pos) == Some((felts, pos + |FeltSection(felts)|))
  {
    var sorted := SortedFelts(felts);
    SetOfFelts(felts);
    HoldsCount(s, pos, |felts|, sorted);
    ListHeld(s, pos + 1, sorted, |felts|);
    assert sorted[..|felts|] == sorted;
  }

  /** The part of the storage that belongs to the listed contracts. */
  function Restrict(contracts: seq<nat>, storage: map<nat, Cells>): map<nat, Cells> {
    if contracts == [] then map[] else Restrict(contracts[1..], storage)[contracts[0] := SystemIn(storage, contracts[0])]
  }

  lemma {:induction false} RestrictAt(contracts: seq<nat>, storage: map<nat, Cells>, c: nat)
    ensures c in Restrict(contracts, storage) <==> c in contracts
    ensures c in contracts ==> Restrict(contracts, storage)[c] == SystemIn(storage, c)
  {
    if contracts != [] {
      RestrictAt(contracts[1..], storage, c);
      assert contracts == [contracts[0]] + contracts[1..];
    }
  }

  lemma RestrictAll(storage: map<nat, Cells>)
    ensures Restrict(SortedFelts(storage.Keys), storage) == storage
  {
    SortedFeltsElements(storage.Keys);
    forall c: nat
      ensures c in Restrict(SortedFelts(storage.Keys), storage) <==> c in storage
      ensures c in storage ==> Restrict(SortedFelts(storage.Keys), storage)[c] == storage[c]
    {
      RestrictAt(SortedFelts(storage.Keys), storage, c);
    }
  }

  lemma UnfoldBlocks(contracts: seq<nat>, storage: map<nat, Cells>, section: seq<nat>, others: seq<nat>)
    requires contracts != [] && section == Counted(SortedPairs(SystemIn(storage, contracts[0]).Items))
    requires others == StorageBlocks(contracts[1..], storage)
    ensures StorageBlocks(contracts, storage) == [contracts[0]] + (section + others)
  {
  }

  lemma {:induction false} BlocksHeld(s: seq<nat>, pos: nat, contracts: seq<nat>, storage: map<nat, Cells>)
    requires Holds(s, pos, StorageBlocks(contracts, storage))
    ensures ReadBlocks(s, pos, |contracts|) == Some((Restrict(contracts, storage), pos + |StorageBlocks(contracts, storage)|))
    decreases |contracts|
  {
    if contracts != [] {
      var cells := SystemIn(storage, contracts[0]);
      var section, others := Counted(SortedPairs(cells.Items)), StorageBlocks(contracts[1..], storage);
      UnfoldBlocks(contracts, storage, section, others);
      HoldsCount(s, pos, contracts[0], section + others);
      HoldsParts(s, pos + 1, section, others);
      MapHeld(s, pos + 1, cells);
      BlocksHeld(s, pos + 1 + |section|, contracts[1..], storage);
    }
  }

  /** The storage section is read back wherever it stands. */
  lemma StorageHeld(s: seq<nat>, pos: nat, storage: map<nat, Cells>)
    requires Holds(s, pos, StorageSection(storage))
    ensures ReadStorage(s, pos) == Some((storage, pos + |StorageSection(storage)|))
  {
    var contracts := SortedFelts(storage.Keys);
    SortedFeltsElements(storage.Keys);
    HoldsCount(s, pos, |storage|, StorageBlocks(contracts, storage));
    BlocksHeld(s, pos + 1, contracts, storage);
    RestrictAll(storage);
  }

  // ----- the round trip --------------------------------------------------------------------

  /** The five sections one after the other. */
  lemma SectionsHeld(s: seq<nat>, tag: nat, a: seq<nat>, b: seq<nat>, c: seq<nat>, st: seq<nat>, n: seq<nat>)
    requires s == [tag] + (a + (b + (c + ([1, 0] + (st + n)))))
    ensures Holds(s, 0, [tag]) && Holds(s, 1, a) && Holds(s, 1 + |a|, b) && Holds(s, 1 + |a| + |b|, c)
    ensures Holds(s, 1 + |a| + |b| + |c|, [1, 0])
    ensures Holds(s, 3 + |a| + |b| + |c|, st) && Holds(s, 3 + |a| + |b| + |c| + |st|, n)
    ensures |s| == 3 + |a| + |b| + |c| + |st| + |n|
  {
    HoldsParts(s, 0, [tag], a + (b + (c + ([1, 0] + (st + n)))));
    HoldsParts(s, 1, a, b + (c + ([1, 0] + (st + n))));
    HoldsParts(s, 1 + |a|, b, c + ([1, 0] + (st + n)));
    HoldsParts(s, 1 + |a| + |b|, c, [1, 0] + (st + n));
    HoldsParts(s, 1 + |a| + |b| + |c|, [1, 0], st + n);
    HoldsParts(s, 3 + |a| + |b| + |c|, st, n);
  }

  lemma FixedFelts(s: seq<nat>, pos: nat, part: seq<nat>)
    requires Holds(s, pos, part)
    ensures |part| > 0 ==> s[pos] == part[0]
    ensures part == [1, 0] ==> ReadGap(s, pos) == Some(pos + 2)
  {
    if |part| > 0 {
      assert s[pos + 0] == part[0];
    }
    if |part| > 1 {
      assert s[pos + 1] == part[1];
    }
  }

  // What a section is read as, wherever it stands.

  ghost predicate IsMap(section: seq<nat>, m: map<nat, nat>) {
    forall s: seq<nat>, pos: nat :: Holds(s, pos, section) ==> ReadMap(s, pos) == Some((m, pos + |section|))
  }

  ghost predicate IsPairs(section: seq<nat>, pairs: set<Pair>) {
    forall s: seq<nat>, pos: nat :: Holds(s, pos, section) ==> ReadPairs(s, pos) == Some((pairs, pos + |section|))
  }

  ghost predicate IsFelts(section: seq<nat>, felts: set<nat>) {
    forall s: seq<nat>, pos: nat :: Holds(s, pos, section) ==> ReadFelts(s, pos) == Some((felts, pos + |section|))
  }

  ghost predicate IsStorage(section: seq<nat>, storage: map<nat, Cells>) {
    forall s: seq<nat>, pos: nat :: Holds(s, pos, section) ==> ReadStorage(s, pos) == Some((storage, pos + |section|))
  }

  lemma MapSection(m: map<nat, nat>) returns (section: seq<nat>)
    ensures section == Counted(SortedPairs(m.Items)) && IsMap(section, m)
  {
    section := Counted(SortedPairs(m.Items));
    forall s: seq<nat>, pos: nat | Holds(s, pos, section)
      ensures ReadMap(s, pos) == Some((m, pos + |section|))
    {
      MapHeld(s, pos, m);
    }
  }

  lemma PairSection(pairs: set<Pair>) returns (section: seq<nat>)
    ensures section == Counted(SortedPairs(pairs)) && IsPairs(section, pairs)
  {
    section := Counted(SortedPairs(pairs));
    forall s: seq<nat>, pos: nat | Holds(s, pos, section)
      ensures ReadPairs(s, pos) == Some((pairs, pos + |section|))
    {
      PairsHeld(s, pos, SortedPairs(pairs));
      SetOfSorted(pairs);
    }
  }

  lemma OldClassSection(felts: set<nat>) returns (section: seq<nat>)
    ensures section == FeltSection(felts) && IsFelts(section, felts)
  {
    section := FeltSection(felts);
    forall s: seq<nat>, pos: nat | Holds(s, pos, section)
      ensures ReadFelts(s, pos) == Some((felts, pos + |section|))
    {
      FeltsHeld(s, pos, felts);
    }
  }

  lemma StorageBlock(storage: map<nat, Cells>) returns (section: seq<nat>)
    ensures section == StorageSection(storage) && IsStorage(section, storage)
  {
    section := StorageSection(storage);
    forall s: seq<nat>, pos: nat | Holds(s, pos, section)
      ensures ReadStorage(s, pos) == Some((storage, pos + |section|))
    {
      StorageHeld(s, pos, storage);
    }
  }

  lemma StreamSections(d: Canonical) returns (a: seq<nat>, b: seq<nat>, c: seq<nat>, st: seq<nat>, n: seq<nat>)
    ensures Stream(d) == [DOMAIN_TAG] + (a + (b + (c + ([1, 0] + (st + n)))))
    ensures IsMap(a, d.classes) && IsPairs(b, d.declared) && IsFelts(c, d.cairo) && IsStorage(st, d.storage) && IsMap(n, d.nonces)
  {
    a := MapSection(d.classes);
    b := PairSection(d.declared);
    c := OldClassSection(d.cairo);
    st := StorageBlock(d.storage);
    n := MapSection(d.nonces);
  }

  lemma CursorsChain(s: seq<nat>, d: Canonical, p1: nat, p2: nat, p3: nat, p5: nat)
    requires |s| > 0 && s[0] == DOMAIN_TAG
    requires ReadMap(s, 1) == Some((d.classes, p1)) && ReadPairs(s, p1) == Some((d.declared, p2))
    requires ReadFelts(s, p2) == Some((d.cairo, p3)) && ReadGap(s, p3) == Some(p3 + 2)
    requires ReadStorage(s, p3 + 2) == Some((d.storage, p5)) && ReadMap(s, p5) == Some((d.nonces, |s|))
    ensures Decode(s) == Some(d)
  {
  }

  lemma SectionsDecode(s: seq<nat>, d: Canonical, a: seq<nat>, b: seq<nat>, c: seq<nat>, st: seq<nat>, n: seq<nat>)
    requires Holds(s, 0, [DOMAIN_TAG]) && Holds(s, 1, a) && Holds(s, 1 + |a|, b) && Holds(s, 1 + |a| + |b|, c)
    requires Holds(s, 1 + |a| + |b| + |c|, [1, 0])
    requires Holds(s, 3 + |a| + |b| + |c|, st) && Holds(s, 3 + |a| + |b| + |c| + |st|, n)
    requires |s| == 3 + |a| + |b| + |c| + |st| + |n|
    requires IsMap(a, d.classes) && IsPairs(b, d.declared) && IsFelts(c, d.cairo) && IsStorage(st, d.storage) && IsMap(n, d.nonces)
    ensures Decode(s) == Some(d)
  {
    var p1 := 1 + |a|;
    var p2 := p1 + |b|;
    var p3 := p2 + |c|;
    var p5 := p3 + 2 + |st|;
    FixedFelts(s, 0, [DOMAIN_TAG]);
    FixedFelts(s, p3, [1, 0]);
    CursorsChain(s, d, p1, p2, p3, p5);
  }

  /** The reader recovers every diff from its stream. */
  lemma DecodeStream(d: Canonical)
    ensures Decode(Stream(d)) == Some(d)
  {
    var a, b, c, st, n := StreamSections(d);
    SectionsHeld(Stream(d), DOMAIN_TAG, a, b, c, st, n);
    SectionsDecode(Stream(d), d, a, b, c, st, n);
  }

  /** The stream determines the canonical diff: no two different diffs share a preimage. */
  lemma StreamUniquelyDecodable(d: Canonical, e: Canonical)
    ensures Stream(d) == Stream(e) <==> d == e
  {
    DecodeStream(d);
    DecodeStream(e);
  }

  // ----- what is read back is what the update says -----------------------------------------

  lemma ClassListed(u: StateUpdate, c: nat)
    ensures c in CanonicalOf(u).classes <==> ContractClass(u, c).Some?
    ensures c in CanonicalOf(u).classes ==> ContractClass(u, c) == Some(CanonicalOf(u).classes[c])
  {
  }

  lemma NonceListed(u: StateUpdate, c: nat)
    ensures c in CanonicalOf(u).nonces ==> ContractNonce(u, c) == Some(CanonicalOf(u).nonces[c])
    ensures c !in CanonicalOf(u).nonces ==> ContractNonce(u, c) == (if Deploys(ContractIn(u.contracts, c)) then Some(0) else None)
  {
  }

  /** The classes and nonces in the stream are those a lookup in the update finds; a lookup finds a
      nonce that is not in the stream only for a contract deployed without one. */
  lemma DecodedContracts(u: StateUpdate, c: nat)
    ensures var d := Decode(Stream(CanonicalOf(u)));
            && d.Some?
            && (c in d.value.classes <==> ContractClass(u, c).Some?)
            && (c in d.value.classes ==> ContractClass(u, c) == Some(d.value.classes[c]))
            && (c in d.value.nonces ==> ContractNonce(u, c) == Some(d.value.nonces[c]))
            && (c !in d.value.nonces ==> ContractNonce(u, c) == (if Deploys(ContractIn(u.contracts, c)) then Some(0) else None))
  {
    DecodeStream(CanonicalOf(u));
    ClassListed(u, c);
    NonceListed(u, c);
  }

  /** The cells in the stream are those a lookup finds, where only one of the two maps speaks of the
      address; besides them a lookup finds the zero cells of a contract deployed here. */
  lemma DecodedStorage(u: StateUpdate, c: nat, k: nat)
    requires SystemIn(u.system, c) == map[] || ContractIn(u.contracts, c) == NO_CHANGE
    ensures var d := Decode(Stream(CanonicalOf(u)));
            && d.Some?
            && var cells := SystemIn(d.value.storage, c);
               StorageValue(u, c, k) == (if k in cells then Some(cells[k])
                                         else if Deploys(ContractIn(u.contracts, c)) then Some(0) else None)
  {
    DecodeStream(CanonicalOf(u));
    StorageOfAt(u, c);
  }

  /** The declarations in the stream are the old classes and the pairs of both class maps. */
  lemma DecodedDeclarations(u: StateUpdate, sierra: nat, casm: nat)
    ensures var d := Decode(Stream(CanonicalOf(u)));
            && d.Some? && d.value.cairo == u.cairo
            && ((sierra, casm) in d.value.declared <==>
                  || (sierra in u.sierra && u.sierra[sierra] == casm)
                  || (sierra in u.migrated && u.migrated[sierra] == casm))
  {
    DecodeStream(CanonicalOf(u));
  }
}
