/**
 State updates: looking values up in one, layering them over a state, and merging two of them.
 All hashes, addresses, keys and values are field elements, written as naturals.
 */
module StateUpdates {
  import opened Common

  datatype ClassUpdate = Deploy(hash: nat) | Replace(hash: nat)

  datatype ContractUpdate = ContractUpdate(storage: map<nat, nat>, cls: Option<ClassUpdate>, nonce: Option<nat>)

  datatype StateUpdate = StateUpdate(
    blockHash: nat,
    parentCommitment: nat,
    commitment: nat,
    contracts: map<nat, ContractUpdate>,
    system: map<nat, map<nat, nat>>,     // storage of the system contracts
    cairo: set<nat>,
    sierra: map<nat, nat>,
    migrated: map<nat, nat>)

  /** A readable state: the stored one, or a pending update read on top of another state. */
  datatype View =
    | Stored(storage: map<(nat, nat), nat>, nonces: map<nat, nat>, classes: map<nat, nat>)
    | Pending(update: StateUpdate, below: View)

  const NO_CHANGE := ContractUpdate(map[], None, None)

  predicate IsSystem(c: nat) {
    c == 1 || c == 2
  }

  // ----- lookups ---------------------------------------------------------------------------

  /** The entry of a contract; a missing one changes nothing. */
  function ContractIn(contracts: map<nat, ContractUpdate>, c: nat): ContractUpdate {
    if c in contracts then contracts[c] else NO_CHANGE
  }

  function SystemIn(system: map<nat, map<nat, nat>>, c: nat): map<nat, nat> {
    if c in system then system[c] else map[]
  }

  predicate Deploys(update: ContractUpdate) {
    update.cls.Some? && update.cls.value.Deploy?
  }

  function NonceOf(update: ContractUpdate): Option<nat> {
    if update.nonce.Some? then update.nonce else if Deploys(update) then Some(0) else None
  }

  function ClassOf(update: ContractUpdate): Option<nat> {
    if update.cls.Some? then Some(update.cls.value.hash) else None
  }

  /** `storage_value`: a cell of a contract deployed here is zero unless set; only when the contract
      entry says nothing is the system storage consulted. */
  function CellOf(update: ContractUpdate, system: map<nat, nat>, k: nat): Option<nat> {
    if k in update.storage then Some(update.storage[k])
    else if Deploys(update) then Some(0)
    else if k in system then Some(system[k])
    else None
  }

  function ContractNonce(u: StateUpdate, c: nat): Option<nat> {
    NonceOf(ContractIn(u.contracts, c))
  }

  function ContractClass(u: StateUpdate, c: nat): Option<nat> {
    ClassOf(ContractIn(u.contracts, c))
  }

  function StorageValue(u: StateUpdate, c: nat, k: nat): Option<nat> {
    CellOf(ContractIn(u.contracts, c), SystemIn(u.system, c), k)
  }

  function OrElse(found: Option<nat>, below: nat): nat {
    if found.Some? then found.value else below
  }

  /** `get_storage_at`: what the storage does not hold reads as zero. */
  function StorageAt(v: View, c: nat, k: nat): nat {
    match v
    case Stored(storage, _, _) => if (c, k) in storage then storage[(c, k)] else 0
    case Pending(u, below) => OrElse(StorageValue(u, c, k), StorageAt(below, c, k))
  }

  function NonceAt(v: View, c: nat): nat {
    match v
    case Stored(_, nonces, _) => if c in nonces then nonces[c] else 0
    case Pending(u, below) => OrElse(ContractNonce(u, c), NonceAt(below, c))
  }

  function ClassAt(v: View, c: nat): nat {
    match v
    case Stored(_, _, classes) => if c in classes then classes[c] else 0
    case Pending(u, below) => OrElse(ContractClass(u, c), ClassAt(below, c))
  }

  ghost predicate SameReads(v: View, w: View) {
    && (forall c: nat, k: nat :: StorageAt(v, c, k) == StorageAt(w, c, k))
    && (forall c: nat :: NonceAt(v, c) == NonceAt(w, c))
    && (forall c: nat :: ClassAt(v, c) == ClassAt(w, c))
  }

  // ----- apply -----------------------------------------------------------------------------

  function MergeContract(a: ContractUpdate, b: ContractUpdate): ContractUpdate {
    ContractUpdate(a.storage + b.storage,
                   if b.cls.Some? then b.cls else a.cls,
                   if b.nonce.Some? then b.nonce else a.nonce)
  }

  function MergeContracts(a: map<nat, ContractUpdate>, b: map<nat, ContractUpdate>): map<nat, ContractUpdate> {
    a + map c | c in b :: MergeContract(ContractIn(a, c), b[c])
  }

  function MergeSystem(a: map<nat, map<nat, nat>>, b: map<nat, map<nat, nat>>): map<nat, map<nat, nat>> {
    a + map c | c in b :: SystemIn(a, c) + b[c]
  }

  /** Merge `b` into `a`.  The migrated classes of `b` are not merged. */
  function Apply(a: StateUpdate, b: StateUpdate): StateUpdate {
    StateUpdate(
      b.blockHash, b.parentCommitment, b.commitment,
      MergeContracts(a.contracts, b.contracts),
      MergeSystem(a.system, b.system),
      a.cairo + b.cairo,
      a.sierra + b.sierra,
      a.migrated)
  }

  lemma AddAssociative(a: map<nat, nat>, b: map<nat, nat>, c: map<nat, nat>)
    ensures (a + b) + c == a + (b + c)
  {
  }

  method InsertAll(into: map<nat, nat>, from: map<nat, nat>) returns (r: map<nat, nat>)
    ensures r == into + from
  {
    r := into;
    var rest := from.Keys;
    while rest != {}
      invariant rest <= from.Keys
      invariant r.Keys == into.Keys + (from.Keys - rest)
      invariant forall k: nat :: k in r ==> r[k] == if k in from && k !in rest then from[k] else into[k]
      decreases |rest|
    {
      var k :| k in rest;
      r, rest := r[k := from[k]], rest - {k};
    }
  }

  method MergeInPlace(a: ContractUpdate, b: ContractUpdate) returns (update: ContractUpdate)
    ensures update == MergeContract(a, b)
  {
    var storage := InsertAll(a.storage, b.storage);
    update := a.(storage := storage);
    if b.cls.Some? {
      update := update.(cls := b.cls);
    }
    if b.nonce.Some? {
      update := update.(nonce := b.nonce);
    }
  }

  lemma OverlayStep<V>(a: map<nat, V>, done: map<nat, V>, c: nat, v: V)
    ensures (a + done)[c := v] == a + done[c := v]
  {
  }

  method InsertContracts(a: map<nat, ContractUpdate>, b: map<nat, ContractUpdate>) returns (r: map<nat, ContractUpdate>)
    ensures r == MergeContracts(a, b)
  {
    r := a;
    var rest := b.Keys;
    ghost var done: map<nat, ContractUpdate> := map[];
    while rest != {}
      invariant r == a + done
      invariant done.Keys == b.Keys - rest && rest <= b.Keys
      invariant forall c: nat :: c in done ==> done[c] == MergeContract(ContractIn(a, c), b[c])
      decreases |rest|
    {
      var c :| c in rest;
      assert ContractIn(r, c) == ContractIn(a, c);
      var update := MergeInPlace(ContractIn(r, c), b[c]);
      OverlayStep(a, done, c, update);
      done := done[c := update];
      r, rest := r[c := update], rest - {c};
    }
    assert done == map c | c in b :: MergeContract(ContractIn(a, c), b[c]);
  }

  method InsertSystem(a: map<nat, map<nat, nat>>, b: map<nat, map<nat, nat>>) returns (r: map<nat, map<nat, nat>>)
    ensures r == MergeSystem(a, b)
  {
    r := a;
    var rest := b.Keys;
    ghost var done: map<nat, map<nat, nat>> := map[];
    while rest != {}
      invariant r == a + done
      invariant done.Keys == b.Keys - rest && rest <= b.Keys
      invariant forall c: nat :: c in done ==> done[c] == SystemIn(a, c) + b[c]
      decreases |rest|
    {
      var c :| c in rest;
      assert SystemIn(r, c) == SystemIn(a, c);
      var storage := InsertAll(SystemIn(r, c), b[c]);
      OverlayStep(a, done, c, storage);
      done := done[c := storage];
      r, rest := r[c := storage], rest - {c};
    }
    assert done == map c | c in b :: SystemIn(a, c) + b[c];
  }

  /** `apply`, visiting the hash maps in whatever order they happen to yield: the outcome is the
      same for all of them. */
  method ApplyInPlace(a: StateUpdate, b: StateUpdate) returns (r: StateUpdate)
    ensures r == Apply(a, b)
  {
    var contracts := InsertContracts(a.contracts, b.contracts);
    var system := InsertSystem(a.system, b.system);
    var sierra := InsertAll(a.sierra, b.sierra);
    r := StateUpdate(b.blockHash, b.parentCommitment, b.commitment, contracts, system, a.cairo + b.cairo, sierra, a.migrated);
  }

  lemma MergeContractsAt(a: map<nat, ContractUpdate>, b: map<nat, ContractUpdate>, c: nat)
    ensures ContractIn(MergeContracts(a, b), c) == MergeContract(ContractIn(a, c), ContractIn(b, c))
  {
    var none: map<nat, nat> := map[];
    assert ContractIn(a, c).storage + none == ContractIn(a, c).storage;
  }

  lemma MergeSystemAt(a: map<nat, map<nat, nat>>, b: map<nat, map<nat, nat>>, c: nat)
    ensures SystemIn(MergeSystem(a, b), c) == SystemIn(a, c) + SystemIn(b, c)
  {
    var none: map<nat, nat> := map[];
    assert SystemIn(a, c) + none == SystemIn(a, c);
  }

  lemma ContractAssociative(a: ContractUpdate, b: ContractUpdate, c: ContractUpdate)
    ensures MergeContract(MergeContract(a, b), c) == MergeContract(a, MergeContract(b, c))
  {
    AddAssociative(a.storage, b.storage, c.storage);
  }

  lemma ContractsAssociativeAt(a: map<nat, ContractUpdate>, b: map<nat, ContractUpdate>, c: map<nat, ContractUpdate>, x: nat)
    ensures ContractIn(MergeContracts(MergeContracts(a, b), c), x) == ContractIn(MergeContracts(a, MergeContracts(b, c)), x)
  {
    MergeContractsAt(MergeContracts(a, b), c, x);
    MergeContractsAt(a, MergeContracts(b, c), x);
    MergeContractsAt(a, b, x);
    MergeContractsAt(b, c, x);
    ContractAssociative(ContractIn(a, x), ContractIn(b, x), ContractIn(c, x));
  }

  lemma MergedKeys(a: map<nat, ContractUpdate>, b: map<nat, ContractUpdate>)
    ensures MergeContracts(a, b).Keys == a.Keys + b.Keys
  {
  }

  lemma SameContracts(l: map<nat, ContractUpdate>, r: map<nat, ContractUpdate>)
    requires l.Keys == r.Keys && forall x: nat :: ContractIn(l, x) == ContractIn(r, x)
    ensures l == r
  {
    forall x | x in l
      ensures l[x] == r[x]
    {
      assert l[x] == ContractIn(l, x);
    }
  }

  lemma ContractsAssociative(a: map<nat, ContractUpdate>, b: map<nat, ContractUpdate>, c: map<nat, ContractUpdate>)
    ensures MergeContracts(MergeContracts(a, b), c) == MergeContracts(a, MergeContracts(b, c))
  {
    var ab, bc := MergeContracts(a, b), MergeContracts(b, c);
    MergedKeys(a, b);
    MergedKeys(ab, c);
    MergedKeys(b, c);
    MergedKeys(a, bc);
    forall x: nat
      ensures ContractIn(MergeContracts(ab, c), x) == ContractIn(MergeContracts(a, bc), x)
    {
      ContractsAssociativeAt(a, b, c, x);
    }
    SameContracts(MergeContracts(ab, c), MergeContracts(a, bc));
  }

  lemma SystemAssociative(a: map<nat, map<nat, nat>>, b: map<nat, map<nat, nat>>, c: map<nat, map<nat, nat>>)
    ensures MergeSystem(MergeSystem(a, b), c) == MergeSystem(a, MergeSystem(b, c))
  {
    var l, r := MergeSystem(MergeSystem(a, b), c), MergeSystem(a, MergeSystem(b, c));
    assert l.Keys == r.Keys;
    forall x | x in l
      ensures SystemIn(l, x) == SystemIn(r, x)
    {
      MergeSystemAt(MergeSystem(a, b), c, x);
      MergeSystemAt(a, MergeSystem(b, c), x);
      MergeSystemAt(a, b, x);
      MergeSystemAt(b, c, x);
      AddAssociative(SystemIn(a, x), SystemIn(b, x), SystemIn(c, x));
    }
  }

  /** Merging is associative, so a run of updates may be folded from either end. */
  lemma ApplyAssociative(a: StateUpdate, b: StateUpdate, c: StateUpdate)
    ensures Apply(Apply(a, b), c) == Apply(a, Apply(b, c))
  {
    ContractsAssociative(a.contracts, b.contracts, c.contracts);
    SystemAssociative(a.system, b.system, c.system);
    AddAssociative(a.sierra, b.sierra, c.sierra);
  }

  // ----- merging preserves meaning ---------------------------------------------------------

  /** System contracts have their storage in the system map, and no class. */
  ghost predicate Separated(u: StateUpdate) {
    && (forall c: nat :: c in u.system ==> IsSystem(c))
    && (forall c: nat :: IsSystem(c) ==> Stateless(ContractIn(u.contracts, c)))
  }

  ghost predicate Stateless(update: ContractUpdate) {
    update.cls.None? && forall k: nat :: k !in update.storage
  }

  predicate IsDeploy(u: StateUpdate, c: nat) {
    Deploys(ContractIn(u.contracts, c))
  }

  /** The contract has no class, nonce or storage yet. */
  ghost predicate Untouched(v: View, c: nat) {
    ClassAt(v, c) == 0 && NonceAt(v, c) == 0 && forall k: nat :: StorageAt(v, c, k) == 0
  }

  ghost predicate DeploysUntouched(u: StateUpdate, below: View) {
    forall c: nat :: IsDeploy(u, c) ==> Untouched(below, c)
  }

  lemma ApplyAt(a: StateUpdate, b: StateUpdate, c: nat)
    ensures ContractIn(Apply(a, b).contracts, c) == MergeContract(ContractIn(a.contracts, c), ContractIn(b.contracts, c))
    ensures SystemIn(Apply(a, b).system, c) == SystemIn(a.system, c) + SystemIn(b.system, c)
  {
    MergeContractsAt(a.contracts, b.contracts, c);
    MergeSystemAt(a.system, b.system, c);
  }

  predicate Replaces(update: ContractUpdate) {
    update.cls.Some? && update.cls.value.Replace?
  }

  /** The merged cell agrees with the layered one.  A deployment in `b` must not hide a value of `a`;
      a system entry in `b` must not meet a contract entry or a deployment in `a` that wins over it; and
      a deployment in `a` that `b` turns into a replacement must not uncover what is below. */
  predicate CellSafe(a: ContractUpdate, sa: map<nat, nat>, b: ContractUpdate, sb: map<nat, nat>, base: nat, k: nat) {
    k !in b.storage ==>
      if Deploys(b) then k in a.storage ==> a.storage[k] == 0
      else if k in sb then
        if k in a.storage then a.storage[k] == sb[k] else Deploys(a) && b.cls.None? ==> sb[k] == 0
      else
        k !in a.storage && Deploys(a) && Replaces(b) ==> (if k in sa then sa[k] else base) == 0
  }

  predicate NonceSafe(a: ContractUpdate, b: ContractUpdate, base: nat) {
    && (Deploys(b) && b.nonce.None? && a.nonce.Some? ==> a.nonce.value == 0)
    && (Replaces(b) && Deploys(a) && b.nonce.None? && a.nonce.None? ==> base == 0)
  }

  lemma MergedCell(a: ContractUpdate, sa: map<nat, nat>, b: ContractUpdate, sb: map<nat, nat>, base: nat, k: nat)
    ensures OrElse(CellOf(MergeContract(a, b), sa + sb, k), base) == OrElse(CellOf(b, sb, k), OrElse(CellOf(a, sa, k), base))
            <==> CellSafe(a, sa, b, sb, base, k)
  {
  }

  ghost predicate SafeAt(a: StateUpdate, b: StateUpdate, base: View, c: nat, k: nat) {
    CellSafe(ContractIn(a.contracts, c), SystemIn(a.system, c), ContractIn(b.contracts, c), SystemIn(b.system, c),
             StorageAt(base, c, k), k)
  }

  lemma MergedStorage(a: StateUpdate, b: StateUpdate, base: View, c: nat, k: nat)
    ensures StorageAt(Pending(Apply(a, b), base), c, k) == StorageAt(Pending(b, Pending(a, base)), c, k)
            <==> SafeAt(a, b, base, c, k)
  {
    ApplyAt(a, b, c);
    MergedCell(ContractIn(a.contracts, c), SystemIn(a.system, c), ContractIn(b.contracts, c), SystemIn(b.system, c),
               StorageAt(base, c, k), k);
  }

  lemma MergedNonce(a: ContractUpdate, b: ContractUpdate, base: nat)
    ensures OrElse(NonceOf(MergeContract(a, b)), base) == OrElse(NonceOf(b), OrElse(NonceOf(a), base))
            <==> NonceSafe(a, b, base)
    ensures OrElse(ClassOf(MergeContract(a, b)), base) == OrElse(ClassOf(b), OrElse(ClassOf(a), base))
  {
  }

  lemma MergedNonceAndClass(a: StateUpdate, b: StateUpdate, base: View, c: nat)
    ensures NonceAt(Pending(Apply(a, b), base), c) == NonceAt(Pending(b, Pending(a, base)), c)
            <==> NonceSafe(ContractIn(a.contracts, c), ContractIn(b.contracts, c), NonceAt(base, c))
    ensures ClassAt(Pending(Apply(a, b), base), c) == ClassAt(Pending(b, Pending(a, base)), c)
  {
    ApplyAt(a, b, c);
    MergedNonce(ContractIn(a.contracts, c), ContractIn(b.contracts, c), NonceAt(base, c));
    MergedNonce(ContractIn(a.contracts, c), ContractIn(b.contracts, c), ClassAt(base, c));
  }

  ghost predicate MergeSafe(a: StateUpdate, b: StateUpdate, base: View) {
    && (forall c: nat, k: nat :: SafeAt(a, b, base, c, k))
    && (forall c: nat :: NonceSafe(ContractIn(a.contracts, c), ContractIn(b.contracts, c), NonceAt(base, c)))
  }

  /** For any two updates: reading through the merged update equals reading through one layer after
      the other, for every cell, nonce and class, if and only if the merge is safe. */
  lemma MergePreservesReadsExactly(a: StateUpdate, b: StateUpdate, base: View)
    ensures SameReads(Pending(Apply(a, b), base), Pending(b, Pending(a, base))) <==> MergeSafe(a, b, base)
  {
    var merged, layered := Pending(Apply(a, b), base), Pending(b, Pending(a, base));
    forall c: nat, k: nat
      ensures StorageAt(merged, c, k) == StorageAt(layered, c, k) <==> SafeAt(a, b, base, c, k)
    {
      MergedStorage(a, b, base, c, k);
    }
    forall c: nat
      ensures NonceAt(merged, c) == NonceAt(layered, c)
              <==> NonceSafe(ContractIn(a.contracts, c), ContractIn(b.contracts, c), NonceAt(base, c))
      ensures ClassAt(merged, c) == ClassAt(layered, c)
    {
      MergedNonceAndClass(a, b, base, c);
    }
  }

  lemma UntouchedIsSafe(a: StateUpdate, b: StateUpdate, base: View, c: nat, k: nat)
    requires Separated(a) && Separated(b)
    requires DeploysUntouched(a, base) && DeploysUntouched(b, Pending(a, base))
    ensures SafeAt(a, b, base, c, k)
    ensures NonceSafe(ContractIn(a.contracts, c), ContractIn(b.contracts, c), NonceAt(base, c))
  {
    if IsDeploy(a, c) {
      assert Untouched(base, c);
      assert StorageAt(base, c, k) == 0;
    }
    if IsDeploy(b, c) {
      assert Untouched(Pending(a, base), c);
      assert StorageAt(Pending(a, base), c, k) == 0;
    }
  }

  lemma UntouchedMergeSafe(a: StateUpdate, b: StateUpdate, base: View)
    requires Separated(a) && Separated(b)
    requires DeploysUntouched(a, base) && DeploysUntouched(b, Pending(a, base))
    ensures MergeSafe(a, b, base)
  {
    forall c: nat, k: nat
      ensures SafeAt(a, b, base, c, k)
    {
      UntouchedIsSafe(a, b, base, c, k);
    }
    forall c: nat
      ensures NonceSafe(ContractIn(a.contracts, c), ContractIn(b.contracts, c), NonceAt(base, c))
    {
      UntouchedIsSafe(a, b, base, c, 0);
    }
  }

  /** In particular when system addresses stay in the system map and every deployment hits an untouched
      contract. */
  lemma MergePreservesReads(a: StateUpdate, b: StateUpdate, base: View)
    requires Separated(a) && Separated(b)
    requires DeploysUntouched(a, base) && DeploysUntouched(b, Pending(a, base))
    ensures SameReads(Pending(Apply(a, b), base), Pending(b, Pending(a, base)))
  {
    UntouchedMergeSafe(a, b, base);
    MergePreservesReadsExactly(a, b, base);
  }

  /** A replacement merged over a deployment no longer hides the storage below it. */
  lemma ReplacedDeployUncovers(a: StateUpdate, b: StateUpdate, base: View)
    requires a == StateUpdate(0, 0, 0, map[9 := ContractUpdate(map[], Some(Deploy(4)), None)], map[], {}, map[], map[])
    requires b == StateUpdate(0, 0, 0, map[9 := ContractUpdate(map[], Some(Replace(5)), None)], map[], {}, map[], map[])
    requires base == Stored(map[(9, 1) := 7], map[], map[])
    ensures StorageAt(Pending(Apply(a, b), base), 9, 1) == 7
    ensures StorageAt(Pending(b, Pending(a, base)), 9, 1) == 0
  {
    ApplyAt(a, b, 9);
  }

  /** A system address in the contract map of the first update shadows the system map of the second. */
  lemma MixedMapsShadow(a: StateUpdate, b: StateUpdate, base: View)
    requires a == StateUpdate(0, 0, 0, map[1 := ContractUpdate(map[3 := 5], None, None)], map[], {}, map[], map[])
    requires b == StateUpdate(0, 0, 0, map[], map[1 := map[3 := 7]], {}, map[], map[])
    ensures StorageAt(Pending(Apply(a, b), base), 1, 3) == 5
    ensures StorageAt(Pending(b, Pending(a, base)), 1, 3) == 7
  {
    ApplyAt(a, b, 1);
  }

  // ----- whole chains of updates -----------------------------------------------------------

  ghost function Layered(us: seq<StateUpdate>, base: View): View {
    if us == [] then base else Pending(us[|us| - 1], Layered(us[..|us| - 1], base))
  }

  function Merged(us: seq<StateUpdate>): StateUpdate
    requires us != []
  {
    if |us| == 1 then us[0] else Apply(Merged(us[..|us| - 1]), us[|us| - 1])
  }

  /** Class hashes are never zero. */
  ghost predicate RealClasses(u: StateUpdate) {
    forall c: nat :: ContractClass(u, c) != Some(0)
  }

  /** Contracts without a class have no nonce and no storage, the system contracts aside. */
  ghost predicate ClasslessIsEmpty(base: View) {
    forall c: nat :: !IsSystem(c) && ClassAt(base, c) == 0 ==> Untouched(base, c)
  }

  /** Every deploy hits a contract that is untouched in the state it is layered on. */
  ghost predicate Chain(us: seq<StateUpdate>, base: View) {
    us != [] ==>
      var n := |us| - 1;
      Chain(us[..n], base) && Separated(us[n]) && RealClasses(us[n]) && DeploysUntouched(us[n], Layered(us[..n], base))
  }

  lemma PendingCongruent(u: StateUpdate, v: View, w: View)
    requires SameReads(v, w)
    ensures SameReads(Pending(u, v), Pending(u, w))
  {
    forall c: nat
      ensures NonceAt(Pending(u, v), c) == NonceAt(Pending(u, w), c)
      ensures ClassAt(Pending(u, v), c) == ClassAt(Pending(u, w), c)
    {
      assert NonceAt(v, c) == NonceAt(w, c) && ClassAt(v, c) == ClassAt(w, c);
    }
  }

  /** One more layer: the merged update stays well formed and keeps reading like the layers. */
  lemma ChainStep(a: StateUpdate, b: StateUpdate, base: View)
    requires ClasslessIsEmpty(base)
    requires Separated(a) && RealClasses(a) && DeploysUntouched(a, base)
    requires Separated(b) && RealClasses(b) && DeploysUntouched(b, Pending(a, base))
    ensures Separated(Apply(a, b)) && RealClasses(Apply(a, b)) && DeploysUntouched(Apply(a, b), base)
  {
    var m := Apply(a, b);
    forall c: nat
      ensures ContractIn(m.contracts, c) == MergeContract(ContractIn(a.contracts, c), ContractIn(b.contracts, c))
    {
      ApplyAt(a, b, c);
    }
    forall c: nat
      ensures ContractClass(m, c) != Some(0)
    {
      assert ContractClass(a, c) != Some(0) && ContractClass(b, c) != Some(0);
    }
    forall c: nat | IsDeploy(m, c)
      ensures Untouched(base, c)
    {
      if IsDeploy(b, c) {
        assert ClassAt(Pending(a, base), c) == 0;
        assert ContractClass(a, c).None? && ClassAt(base, c) == 0;
      } else {
        assert IsDeploy(a, c);
      }
    }
  }

  /** Merging a whole chain of updates, deployments and later class replacements included, preserves
      every storage, nonce and class read. */
  lemma {:induction false} ChainPreservesReads(us: seq<StateUpdate>, base: View)
    requires us != [] && Chain(us, base) && ClasslessIsEmpty(base)
    ensures SameReads(Pending(Merged(us), base), Layered(us, base))
    ensures Separated(Merged(us)) && RealClasses(Merged(us)) && DeploysUntouched(Merged(us), base)
    decreases |us|
  {
    var n := |us| - 1;
    if n == 0 {
      assert us[..n] == [];
    } else {
      var a, b := Merged(us[..n]), us[n];
      ChainPreservesReads(us[..n], base);
      assert DeploysUntouched(b, Pending(a, base)) by {
        assert SameReads(Pending(a, base), Layered(us[..n], base));
      }
      ChainStep(a, b, base);
      MergePreservesReads(a, b, base);
      PendingCongruent(b, Pending(a, base), Layered(us[..n], base));
    }
  }

  /** `class_is_declared`. */
  predicate ClassIsDeclared(u: StateUpdate, c: nat) {
    c in u.cairo || c in u.sierra
  }

  /** A merged chain declares what any of its updates declares; its block hash and commitments are
      those of the last update, but its migrated classes are those of the first one only. */
  lemma {:induction false} MergedDeclarations(us: seq<StateUpdate>, c: nat)
    requires us != []
    ensures ClassIsDeclared(Merged(us), c) <==> exists i :: 0 <= i < |us| && ClassIsDeclared(us[i], c)
    ensures Merged(us).migrated == us[0].migrated
    ensures var m, last := Merged(us), us[|us| - 1];
            m.blockHash == last.blockHash && m.commitment == last.commitment && m.parentCommitment == last.parentCommitment
    decreases |us|
  {
    var n := |us| - 1;
    if n > 0 {
      MergedDeclarations(us[..n], c);
      assert forall i :: 0 <= i < n ==> us[..n][i] == us[i];
      assert ClassIsDeclared(Merged(us), c) <==> ClassIsDeclared(Merged(us[..n]), c) || ClassIsDeclared(us[n], c);
    }
  }
}
