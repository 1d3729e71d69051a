/**
 The list of felts hashed for version-3 transactions.  The list hash itself is an arbitrary
 function, so the results hold for every hash.
 */
module TransactionHash {
  import opened Common
  import opened Packing
  import PoseidonHash

  datatype DataAvailability = L1 | L2

  datatype Bound = Bound(maxAmount: nat, maxPrice: nat)

  datatype Bounds = Bounds(l1Gas: Bound, l2Gas: Bound, l1DataGas: Option<Bound>)

  datatype Fields = Fields(
    sender: nat, nonce: nat, tip: nat, paymaster: seq<nat>,
    nonceMode: DataAvailability, feeMode: DataAvailability, bounds: Bounds)

  datatype Transaction =
    | Declare(fields: Fields, deploymentData: seq<nat>, classHash: nat, compiledClassHash: nat)
    | DeployAccount(fields: Fields, constructorCalldata: seq<nat>, classHash: nat, salt: nat)
    | Invoke(fields: Fields, deploymentData: seq<nat>, calldata: seq<nat>, proofFacts: seq<nat>)

  type ListHash = seq<nat> -> nat

  // "declare", "deploy_account" and "invoke" as big-endian numbers.
  const DECLARE: nat := 0x64_6563_6c61_7265
  const DEPLOY_ACCOUNT: nat := 0x6465_706c_6f79_5f61_6363_6f75_6e74
  const INVOKE: nat := 0x696e_766f_6b65

  const L1_GAS: seq<Byte> := [76, 49, 95, 71, 65, 83]
  const L2_GAS: seq<Byte> := [76, 50, 95, 71, 65, 83]
  const L1_DATA: seq<Byte> := [76, 49, 95, 68, 65, 84, 65]

  /** Amounts are u64 and prices u128 by type. */
  predicate Typed(b: Bound) {
    b.maxAmount < U64 && b.maxPrice < U128
  }

  predicate TypedFields(f: Fields) {
    Typed(f.bounds.l1Gas) && Typed(f.bounds.l2Gas) && (f.bounds.l1DataGas.Some? ==> Typed(f.bounds.l1DataGas.value))
  }

  // ----- what is hashed --------------------------------------------------------------------

  function Packed(name: seq<Byte>, b: Bound): nat {
    Pack(name, b.maxAmount, b.maxPrice)
  }

  function FeeFields(f: Fields): seq<nat> {
    [f.tip, Packed(L1_GAS, f.bounds.l1Gas), Packed(L2_GAS, f.bounds.l2Gas)]
    + if f.bounds.l1DataGas.Some? then [Packed(L1_DATA, f.bounds.l1DataGas.value)] else []
  }

  function ModeNumber(m: DataAvailability): nat {
    if m == L1 then 0 else 1
  }

  function PackModes(f: Fields): nat {
    ModeNumber(f.nonceMode) * 0x1_0000_0000 + ModeNumber(f.feeMode)
  }

  /** Version 3, with bit 128 set for query-only transactions. */
  function Version(query: bool): nat {
    if query then U128 + 3 else 3
  }

  function Prefix(t: Transaction): nat {
    match t
    case Declare(_, _, _, _) => DECLARE
    case DeployAccount(_, _, _, _) => DEPLOY_ACCOUNT
    case Invoke(_, _, _, _) => INVOKE
  }

  function DataHashes(h: ListHash, t: Transaction): seq<nat> {
    match t
    case Declare(_, deployment, classHash, compiled) => [h(deployment), classHash, compiled]
    case DeployAccount(_, calldata, classHash, salt) => [h(calldata), classHash, salt]
    case Invoke(_, deployment, calldata, facts) =>
      [h(deployment), h(calldata)] + if facts != [] then [h(facts)] else []
  }

  function Header(h: ListHash, t: Transaction, chain: nat, query: bool): seq<nat> {
    [Prefix(t), Version(query), t.fields.sender, h(FeeFields(t.fields)), h(t.fields.paymaster),
     chain, t.fields.nonce, PackModes(t.fields)]
  }

  /** Everything `V3Hasher` absorbs, in order. */
  function Preimage(h: ListHash, t: Transaction, chain: nat, query: bool): seq<nat> {
    Header(h, t, chain, query) + DataHashes(h, t)
  }

  // ----- the layout, felt by felt ----------------------------------------------------------

  lemma Push(s: seq<Byte>, b: Byte, t: seq<Byte>)
    requires t == s + [b]
    ensures FromBe(t) == 256 * FromBe(s) + b
  {
    assert t[..|t| - 1] == s;
  }

  lemma SixLetters(a: Byte, b: Byte, c: Byte, d: Byte, e: Byte, f: Byte)
    ensures FromBe([a, b, c, d, e, f]) == ((((a * 256 + b) * 256 + c) * 256 + d) * 256 + e) * 256 + f
  {
    Push([], a, [a]);
    Push([a], b, [a, b]);
    Push([a, b], c, [a, b, c]);
    Push([a, b, c], d, [a, b, c, d]);
    Push([a, b, c, d], e, [a, b, c, d, e]);
    Push([a, b, c, d, e], f, [a, b, c, d, e, f]);
  }

  lemma NamesAsNumbers()
    ensures FromBe(L1_GAS) == 0x4C_31_5F_47_41_53
    ensures FromBe(L2_GAS) == 0x4C_32_5F_47_41_53
    ensures FromBe(L1_DATA) == 0x4C_31_5F_44_41_54_41
  {
    SixLetters(76, 49, 95, 71, 65, 83);
    SixLetters(76, 50, 95, 71, 65, 83);
    SixLetters(76, 49, 95, 68, 65, 84);
    Push([76, 49, 95, 68, 65, 84], 65, L1_DATA);
  }

  /** A felt that carries a resource name, an amount and a price, each in its own bits. */
  predicate Carries(felt: nat, name: nat, b: Bound) {
    felt / U128 / U64 == name && felt / U128 % U64 == b.maxAmount && felt % U128 == b.maxPrice
  }

  /** The fee list: the tip, the bounds of "L1_GAS" and "L2_GAS", and that of "L1_DATA" if there is one. */
  lemma FeeLayout(f: Fields)
    requires TypedFields(f)
    ensures var s := FeeFields(f);
            && |s| == (if f.bounds.l1DataGas.Some? then 4 else 3)
            && s[0] == f.tip
            && Carries(s[1], 0x4C_31_5F_47_41_53, f.bounds.l1Gas)
            && Carries(s[2], 0x4C_32_5F_47_41_53, f.bounds.l2Gas)
            && (f.bounds.l1DataGas.Some? ==> Carries(s[3], 0x4C_31_5F_44_41_54_41, f.bounds.l1DataGas.value))
  {
    NamesAsNumbers();
    PackFields(L1_GAS, f.bounds.l1Gas.maxAmount, f.bounds.l1Gas.maxPrice);
    PackFields(L2_GAS, f.bounds.l2Gas.maxAmount, f.bounds.l2Gas.maxPrice);
    if f.bounds.l1DataGas.Some? {
      PackFields(L1_DATA, f.bounds.l1DataGas.value.maxAmount, f.bounds.l1DataGas.value.maxPrice);
    }
  }

  /** Felts 0 to 7 are the same for the three kinds: the kind in letters, the version, the sender, the
      hashed fee list and paymaster data, the chain, the nonce and the two data availability modes. */
  lemma PreimageLayout(h: ListHash, t: Transaction, chain: nat, query: bool)
    ensures var s, f := Preimage(h, t, chain, query), t.fields;
            && |s| == (if t.Invoke? && t.proofFacts == [] then 10 else 11)
            && s[0] == (if t.Declare? then 0x64_65_63_6C_61_72_65
                        else if t.DeployAccount? then 0x64_65_70_6C_6F_79_5F_61_63_63_6F_75_6E_74
                        else 0x69_6E_76_6F_6B_65)
            && s[1] % U128 == 3 && s[1] / U128 == (if query then 1 else 0)
            && s[2] == f.sender
            && s[3] == h(FeeFields(f))
            && s[4] == h(f.paymaster)
            && s[5] == chain
            && s[6] == f.nonce
            && s[7] / 0x1_0000_0000 == (if f.nonceMode == L1 then 0 else 1)
            && s[7] % 0x1_0000_0000 == (if f.feeMode == L1 then 0 else 1)
  {
  }

  lemma After(a: seq<nat>, b: seq<nat>, i: nat)
    requires i < |b|
    ensures (a + b)[|a| + i] == b[i]
  {
  }

  /** Felts 8 to 10: hashed deployment data, class and compiled class of a declare; hashed constructor
      calldata, class and salt of a deploy account; hashed deployment data, hashed calldata and, if
      there are any, hashed proof facts of an invoke. */
  lemma DataLayout(h: ListHash, t: Transaction, chain: nat, query: bool)
    ensures var s := Preimage(h, t, chain, query);
            match t
            case Declare(_, deployment, classHash, compiled) =>
              s[8] == h(deployment) && s[9] == classHash && s[10] == compiled
            case DeployAccount(_, calldata, classHash, salt) =>
              s[8] == h(calldata) && s[9] == classHash && s[10] == salt
            case Invoke(_, deployment, calldata, facts) =>
              s[8] == h(deployment) && s[9] == h(calldata) && (facts != [] ==> s[10] == h(facts))
  {
    var data := DataHashes(h, t);
    After(Header(h, t, chain, query), data, 0);
    After(Header(h, t, chain, query), data, 1);
    if |data| == 3 {
      After(Header(h, t, chain, query), data, 2);
    }
  }

  // ----- injectivity -----------------------------------------------------------------------

  /** The lists that enter the preimage only through their hash, in order. */
  function Inner(t: Transaction): seq<seq<nat>> {
    [FeeFields(t.fields), t.fields.paymaster] +
    match t
    case Declare(_, deployment, _, _) => [deployment]
    case DeployAccount(_, calldata, _, _) => [calldata]
    case Invoke(_, deployment, calldata, facts) => [deployment, calldata] + if facts != [] then [facts] else []
  }

  /** Corresponding inner lists that differ but hash alike. */
  predicate Collides(h: ListHash, t: Transaction, u: Transaction, i: nat) {
    && i < |Inner(t)| && i < |Inner(u)|
    && Inner(t)[i] != Inner(u)[i]
    && h(Inner(t)[i]) == h(Inner(u)[i])
  }

  lemma FeeFieldsInjective(f: Fields, g: Fields)
    requires TypedFields(f) && TypedFields(g) && FeeFields(f) == FeeFields(g)
    ensures f.tip == g.tip && f.bounds == g.bounds
  {
    var s, t := FeeFields(f), FeeFields(g);
    assert s[0] == t[0] && s[1] == t[1] && s[2] == t[2] && |s| == |t|;
    PackedInjective(L1_GAS, f.bounds.l1Gas, g.bounds.l1Gas);
    PackedInjective(L2_GAS, f.bounds.l2Gas, g.bounds.l2Gas);
    if f.bounds.l1DataGas.Some? {
      assert s[3] == t[3];
      PackedInjective(L1_DATA, f.bounds.l1DataGas.value, g.bounds.l1DataGas.value);
    }
  }

  lemma PackedInjective(name: seq<Byte>, a: Bound, b: Bound)
    requires Typed(a) && Typed(b) && Packed(name, a) == Packed(name, b)
    ensures a == b
  {
    PackInjective(name, a.maxAmount, a.maxPrice, name, b.maxAmount, b.maxPrice);
  }

  lemma SamePrefix<T>(a: seq<T>, b: seq<T>, c: seq<T>, d: seq<T>)
    requires |a| == |c| && a + b == c + d
    ensures a == c && b == d
  {
    assert a == (a + b)[..|a|] && b == (a + b)[|a|..];
    assert c == (c + d)[..|c|] && d == (c + d)[|c|..];
  }

  lemma HeaderInjective(h: ListHash, t: Transaction, c: nat, q: bool, u: Transaction, d: nat, r: bool)
    requires TypedFields(t.fields) && TypedFields(u.fields)
    requires Header(h, t, c, q) == Header(h, u, d, r)
    requires !Collides(h, t, u, 0) && !Collides(h, t, u, 1)
    ensures c == d && q == r && t.fields == u.fields
    ensures t.Declare? == u.Declare? && t.DeployAccount? == u.DeployAccount?
  {
    var s, v := Header(h, t, c, q), Header(h, u, d, r);
    assert forall i :: 0 <= i < 8 ==> s[i] == v[i];
    assert s[0] == v[0] && s[1] == v[1] && s[2] == v[2] && s[3] == v[3] && s[4] == v[4];
    assert s[5] == v[5] && s[6] == v[6] && s[7] == v[7];
    assert Inner(t)[0] == FeeFields(t.fields) && Inner(u)[0] == FeeFields(u.fields);
    assert Inner(t)[1] == t.fields.paymaster && Inner(u)[1] == u.fields.paymaster;
    FeeFieldsInjective(t.fields, u.fields);
  }

  ghost predicate NoCollision(h: ListHash, t: Transaction, u: Transaction) {
    forall i: nat :: !Collides(h, t, u, i)
  }

  lemma DataInjective(h: ListHash, t: Transaction, u: Transaction)
    requires t.Declare? == u.Declare? && t.DeployAccount? == u.DeployAccount? && t.fields == u.fields
    requires DataHashes(h, t) == DataHashes(h, u) && NoCollision(h, t, u)
    ensures t == u
  {
    var s, v := DataHashes(h, t), DataHashes(h, u);
    assert |s| == |v| && s[0] == v[0] && s[1] == v[1];
    assert !Collides(h, t, u, 2) && !Collides(h, t, u, 3) && !Collides(h, t, u, 4);
    if |s| == 3 {
      assert s[2] == v[2];
    }
  }

  /** Equal preimages come from the same kind, query flag, chain and fields, unless two
      corresponding inner lists are an explicit collision of the list hash. */
  lemma PreimageInjective(h: ListHash, t: Transaction, c: nat, q: bool, u: Transaction, d: nat, r: bool)
    requires TypedFields(t.fields) && TypedFields(u.fields)
    requires Preimage(h, t, c, q) == Preimage(h, u, d, r)
    ensures (t == u && c == d && q == r) || exists i: nat :: Collides(h, t, u, i)
  {
    if NoCollision(h, t, u) {
      SamePrefix(Header(h, t, c, q), DataHashes(h, t), Header(h, u, d, r), DataHashes(h, u));
      HeaderInjective(h, t, c, q, u, d, r);
      DataInjective(h, t, u);
    }
  }

  /** The expect in `pack_gas_bound` never fires: every packed bound of a transaction is a felt. */
  lemma BoundsAlwaysFit(f: Fields, i: nat)
    requires TypedFields(f) && 1 <= i < |FeeFields(f)|
    ensures FeeFields(f)[i] < U248 < P
  {
    PackBelow248(L1_GAS, f.bounds.l1Gas.maxAmount, f.bounds.l1Gas.maxPrice);
    PackBelow248(L2_GAS, f.bounds.l2Gas.maxAmount, f.bounds.l2Gas.maxPrice);
    if f.bounds.l1DataGas.Some? {
      PackBelow248(L1_DATA, f.bounds.l1DataGas.value.maxAmount, f.bounds.l1DataGas.value.maxPrice);
    }
  }

  // ----- the hasher ------------------------------------------------------------------------

  /** Poseidon over a list, as the list hash of the preimage. */
  function Poseidon(permute: PoseidonHash.Permutation): ListHash {
    msgs => PoseidonHash.HashMany(permute, msgs)
  }

  method PackBound(name: seq<Byte>, b: Bound) returns (felt: nat)
    requires |name| <= 7 && Typed(b)
    ensures felt == Packed(name, b)
  {
    var packed := PackGasBound(name, b.maxAmount, b.maxPrice);
    PackBelow248(name, b.maxAmount, b.maxPrice);
    felt := packed.value;
  }

  /** `hash_fee_fields`. */
  method HashFeeFields(permute: PoseidonHash.Permutation, f: Fields) returns (hash: nat)
    requires TypedFields(f)
    ensures hash == Poseidon(permute)(FeeFields(f))
  {
    var hasher := new PoseidonHash.Hasher(permute);
    ghost var fed := hasher.Chain(f.tip, []);
    var l1 := PackBound(L1_GAS, f.bounds.l1Gas);
    fed := hasher.Chain(l1, fed);
    var l2 := PackBound(L2_GAS, f.bounds.l2Gas);
    fed := hasher.Chain(l2, fed);
    if f.bounds.l1DataGas.Some? {
      var data := PackBound(L1_DATA, f.bounds.l1DataGas.value);
      fed := hasher.Chain(data, fed);
    }
    assert fed == FeeFields(f);
    PoseidonHash.WritingIsHashing(permute, fed);
    hash := hasher.Finish();
  }

  method FeedThree(hasher: PoseidonHash.Hasher, a: nat, b: nat, c: nat, ghost before: seq<nat>) returns (ghost fed: seq<nat>)
    requires hasher.View() == PoseidonHash.WrittenAll(hasher.permute, PoseidonHash.START, before)
    modifies hasher
    ensures fed == before + [a, b, c]
    ensures hasher.View() == PoseidonHash.WrittenAll(hasher.permute, PoseidonHash.START, fed)
  {
    fed := hasher.Chain(a, before);
    fed := hasher.Chain(b, fed);
    fed := hasher.Chain(c, fed);
  }

  method FeedHeader(hasher: PoseidonHash.Hasher, t: Transaction, chain: nat, query: bool) returns (ghost fed: seq<nat>)
    requires TypedFields(t.fields) && hasher.View() == PoseidonHash.START
    modifies hasher
    ensures fed == Header(Poseidon(hasher.permute), t, chain, query)
    ensures hasher.View() == PoseidonHash.WrittenAll(hasher.permute, PoseidonHash.START, fed)
  {
    var fees := HashFeeFields(hasher.permute, t.fields);
    var paymaster := PoseidonHash.HashByWriting(hasher.permute, t.fields.paymaster);
    fed := FeedThree(hasher, Prefix(t), Version(query), t.fields.sender, []);
    fed := FeedThree(hasher, fees, paymaster, chain, fed);
    fed := hasher.Chain(t.fields.nonce, fed);
    fed := hasher.Chain(PackModes(t.fields), fed);
  }

  /** The data hashes of the three callers, and the proof facts only when there are any. */
  method FeedData(hasher: PoseidonHash.Hasher, t: Transaction, ghost before: seq<nat>) returns (ghost fed: seq<nat>)
    requires hasher.View() == PoseidonHash.WrittenAll(hasher.permute, PoseidonHash.START, before)
    modifies hasher
    ensures fed == before + DataHashes(Poseidon(hasher.permute), t)
    ensures hasher.View() == PoseidonHash.WrittenAll(hasher.permute, PoseidonHash.START, fed)
  {
    match t
    case Declare(_, deployment, classHash, compiled) =>
      var data := PoseidonHash.HashByWriting(hasher.permute, deployment);
      fed := FeedThree(hasher, data, classHash, compiled, before);
    case DeployAccount(_, calldata, classHash, salt) =>
      var data := PoseidonHash.HashByWriting(hasher.permute, calldata);
      fed := FeedThree(hasher, data, classHash, salt, before);
    case Invoke(_, deployment, calldata, facts) =>
      var data := PoseidonHash.HashByWriting(hasher.permute, deployment);
      fed := hasher.Chain(data, before);
      data := PoseidonHash.HashByWriting(hasher.permute, calldata);
      fed := hasher.Chain(data, fed);
      if facts != [] {
        data := PoseidonHash.HashByWriting(hasher.permute, facts);
        fed := hasher.Chain(data, fed);
      }
  }

  /** `V3Hasher::hash`: feeding the hasher field by field hashes exactly the preimage. */
  method HashV3(permute: PoseidonHash.Permutation, t: Transaction, chain: nat, query: bool) returns (hash: nat)
    requires TypedFields(t.fields)
    ensures hash == PoseidonHash.HashMany(permute, Preimage(Poseidon(permute), t, chain, query))
  {
    var hasher := new PoseidonHash.Hasher(permute);
    ghost var fed := FeedHeader(hasher, t, chain, query);
    fed := FeedData(hasher, t, fed);
    PoseidonHash.WritingIsHashing(permute, fed);
    hash := hasher.Finish();
  }
}
