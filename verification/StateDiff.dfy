/**
 From the state maps of an execution to a state diff, and from there to a state update.
 */
module StateDiffs {
  import opened Common
  import opened StateUpdates

  /** What the executor reports as written. */
  datatype StateMaps = StateMaps(
    classes: map<nat, nat>, storage: map<(nat, nat), nat>, nonces: map<nat, nat>, compiled: map<nat, nat>)

  datatype StateDiff = StateDiff(
    storage: map<nat, map<nat, nat>>,
    deployed: seq<(nat, nat)>,
    replaced: seq<(nat, nat)>,
    nonces: map<nat, nat>,
    declared: map<nat, nat>,
    deprecated: set<nat>)

  // ----- the state after the execution -----------------------------------------------------

  function StorageAfter(maps: StateMaps, initial: View, c: nat, k: nat): nat {
    if (c, k) in maps.storage then maps.storage[(c, k)] else StorageAt(initial, c, k)
  }

  function NonceAfter(maps: StateMaps, initial: View, c: nat): nat {
    if c in maps.nonces then maps.nonces[c] else NonceAt(initial, c)
  }

  function ClassAfter(maps: StateMaps, initial: View, c: nat): nat {
    if c in maps.classes then maps.classes[c] else ClassAt(initial, c)
  }

  ghost predicate ReadsAfter(v: View, maps: StateMaps, initial: View) {
    && (forall c: nat, k: nat :: StorageAt(v, c, k) == StorageAfter(maps, initial, c, k))
    && (forall c: nat :: NonceAt(v, c) == NonceAfter(maps, initial, c))
    && (forall c: nat :: ClassAt(v, c) == ClassAfter(maps, initial, c))
  }

  // ----- to_state_diff ---------------------------------------------------------------------

  /** `groups` holds exactly the cells of `storage`, by contract. */
  ghost predicate Grouped(groups: map<nat, map<nat, nat>>, storage: map<(nat, nat), nat>) {
    && (forall c: nat, k: nat :: k in SystemIn(groups, c) <==> (c, k) in storage)
    && (forall c: nat, k: nat :: k in SystemIn(groups, c) ==> SystemIn(groups, c)[k] == storage[(c, k)])
  }

  /** A class change of a contract without a class is a deployment, any other a replacement. */
  ghost predicate Classified(deployed: seq<(nat, nat)>, replaced: seq<(nat, nat)>, classes: map<nat, nat>, initial: View) {
    && (forall p :: p in deployed <==> p.0 in classes && classes[p.0] == p.1 && ClassAt(initial, p.0) == 0)
    && (forall p :: p in replaced <==> p.0 in classes && classes[p.0] == p.1 && ClassAt(initial, p.0) != 0)
  }

  ghost predicate IsDiffOf(d: StateDiff, maps: StateMaps, initial: View) {
    && Grouped(d.storage, maps.storage)
    && Classified(d.deployed, d.replaced, maps.classes, initial)
    && d.nonces == maps.nonces && d.declared == maps.compiled
  }

  method ClassifyClasses(classes: map<nat, nat>, initial: View) returns (deployed: seq<(nat, nat)>, replaced: seq<(nat, nat)>)
    ensures Classified(deployed, replaced, classes, initial)
  {
    deployed, replaced := [], [];
    var rest := classes.Keys;
    while rest != {}
      invariant rest <= classes.Keys
      invariant forall p :: p in deployed <==> p.0 in classes && p.0 !in rest && classes[p.0] == p.1 && ClassAt(initial, p.0) == 0
      invariant forall p :: p in replaced <==> p.0 in classes && p.0 !in rest && classes[p.0] == p.1 && ClassAt(initial, p.0) != 0
      decreases |rest|
    {
      var c :| c in rest;
      if ClassAt(initial, c) == 0 {
        deployed := deployed + [(c, classes[c])];
      } else {
        replaced := replaced + [(c, classes[c])];
      }
      rest := rest - {c};
    }
  }

  method GroupStorage(storage: map<(nat, nat), nat>) returns (groups: map<nat, map<nat, nat>>)
    ensures Grouped(groups, storage)
  {
    groups := map[];
    var rest := storage.Keys;
    while rest != {}
      invariant rest <= storage.Keys
      invariant forall c: nat, k: nat :: k in SystemIn(groups, c) <==> (c, k) in storage && (c, k) !in rest
      invariant forall c: nat, k: nat :: k in SystemIn(groups, c) ==> SystemIn(groups, c)[k] == storage[(c, k)]
      decreases |rest|
    {
      var cell :| cell in rest;
      var (c, k) := cell;
      if c in groups {
        groups := groups[c := groups[c][k := storage[cell]]];
      } else {
        groups := groups[c := map[k := storage[cell]]];
      }
      rest := rest - {cell};
    }
  }

  method ToStateDiff(maps: StateMaps, initial: View, deprecated: set<nat>) returns (d: StateDiff)
    ensures IsDiffOf(d, maps, initial) && d.deprecated == deprecated
  {
    var deployed, replaced := ClassifyClasses(maps.classes, initial);
    var storage := GroupStorage(maps.storage);
    d := StateDiff(storage, deployed, replaced, maps.nonces, maps.compiled, deprecated);
  }

  // ----- StateUpdateData::from(StateDiff) --------------------------------------------------

  /** The last class listed for the contract. */
  function LastOf(list: seq<(nat, nat)>, c: nat): Option<nat> {
    if list == [] then None
    else if list[|list| - 1].0 == c then Some(list[|list| - 1].1)
    else LastOf(list[..|list| - 1], c)
  }

  function NonSystemStorage(storage: map<nat, map<nat, nat>>, c: nat): map<nat, nat> {
    if IsSystem(c) then map[] else SystemIn(storage, c)
  }

  /** The entry a diff gives rise to: replacements are recorded after deployments. */
  function EntryOf(d: StateDiff, c: nat): ContractUpdate {
    var cls := match LastOf(d.replaced, c)
               case Some(h) => Some(Replace(h))
               case None => match LastOf(d.deployed, c) case Some(h) => Some(Deploy(h)) case None => None;
    ContractUpdate(NonSystemStorage(d.storage, c), cls, if c in d.nonces then Some(d.nonces[c]) else None)
  }

  ghost predicate IsUpdateOf(u: StateUpdate, d: StateDiff) {
    && (forall c: nat :: ContractIn(u.contracts, c) == EntryOf(d, c))
    && (forall c: nat :: SystemIn(u.system, c) == if IsSystem(c) then SystemIn(d.storage, c) else map[])
    && u.cairo == d.deprecated && u.sierra == d.declared
  }

  method SplitStorage(storage: map<nat, map<nat, nat>>) returns (contracts: map<nat, ContractUpdate>, system: map<nat, map<nat, nat>>)
    ensures forall c: nat :: ContractIn(contracts, c) == ContractUpdate(NonSystemStorage(storage, c), None, None)
    ensures forall c: nat :: SystemIn(system, c) == if IsSystem(c) then SystemIn(storage, c) else map[]
  {
    contracts, system := map[], map[];
    var rest := storage.Keys;
    while rest != {}
      invariant rest <= storage.Keys
      invariant forall c: nat :: ContractIn(contracts, c) == if c in rest then NO_CHANGE else ContractUpdate(NonSystemStorage(storage, c), None, None)
      invariant forall c: nat :: SystemIn(system, c) == if IsSystem(c) && c !in rest then SystemIn(storage, c) else map[]
      decreases |rest|
    {
      var c :| c in rest;
      if IsSystem(c) {
        system := system[c := storage[c]];
      } else {
        contracts := contracts[c := ContractUpdate(storage[c], None, None)];
      }
      rest := rest - {c};
    }
  }

  function WithClass(update: ContractUpdate, h: Option<nat>, replace: bool): ContractUpdate {
    match h
    case None => update
    case Some(h) => update.(cls := Some(if replace then Replace(h) else Deploy(h)))
  }

  method RecordClasses(contracts: map<nat, ContractUpdate>, list: seq<(nat, nat)>, replace: bool) returns (r: map<nat, ContractUpdate>)
    ensures forall c: nat :: ContractIn(r, c) == WithClass(ContractIn(contracts, c), LastOf(list, c), replace)
  {
    r := contracts;
    for i := 0 to |list|
      invariant forall c: nat :: ContractIn(r, c) == WithClass(ContractIn(contracts, c), LastOf(list[..i], c), replace)
    {
      var (c, h) := list[i];
      assert list[..i + 1][..i] == list[..i];
      r := r[c := ContractIn(r, c).(cls := Some(if replace then Replace(h) else Deploy(h)))];
    }
    assert list[..|list|] == list;
  }

  method RecordNonces(contracts: map<nat, ContractUpdate>, nonces: map<nat, nat>) returns (r: map<nat, ContractUpdate>)
    ensures forall c: nat :: ContractIn(r, c) == if c in nonces then ContractIn(contracts, c).(nonce := Some(nonces[c])) else ContractIn(contracts, c)
  {
    r := contracts;
    var rest := nonces.Keys;
    while rest != {}
      invariant rest <= nonces.Keys
      invariant forall c: nat :: ContractIn(r, c) ==
                  if c in nonces && c !in rest then ContractIn(contracts, c).(nonce := Some(nonces[c])) else ContractIn(contracts, c)
      decreases |rest|
    {
      var c :| c in rest;
      r, rest := r[c := ContractIn(r, c).(nonce := Some(nonces[c]))], rest - {c};
    }
  }

  method FromStateDiff(d: StateDiff) returns (u: StateUpdate)
    ensures IsUpdateOf(u, d)
  {
    var contracts, system := SplitStorage(d.storage);
    contracts := RecordClasses(contracts, d.deployed, false);
    contracts := RecordNonces(contracts, d.nonces);
    contracts := RecordClasses(contracts, d.replaced, true);
    u := StateUpdate(0, 0, 0, contracts, system, d.deprecated, d.declared, map[]);
  }

  // ----- the diff reproduces the state -----------------------------------------------------

  /** What a deployment assumes: cells and nonce that the execution did not write were zero, and a
      system contract is left with an all-zero storage. */
  ghost predicate CleanDeployment(maps: StateMaps, initial: View, c: nat) {
    && (forall k: nat :: (c, k) !in maps.storage ==> StorageAt(initial, c, k) == 0)
    && (forall k: nat :: IsSystem(c) && (c, k) in maps.storage ==> maps.storage[(c, k)] == 0)
    && (c !in maps.nonces ==> NonceAt(initial, c) == 0)
  }

  ghost predicate CleanDeployments(maps: StateMaps, initial: View) {
    forall c: nat :: c in maps.classes && ClassAt(initial, c) == 0 ==> CleanDeployment(maps, initial, c)
  }

  lemma {:induction false} LastOfUnique(list: seq<(nat, nat)>, c: nat)
    ensures LastOf(list, c).Some? ==> (c, LastOf(list, c).value) in list
    ensures LastOf(list, c).None? ==> forall h: nat :: (c, h) !in list
    decreases |list|
  {
    if list != [] {
      var n := |list| - 1;
      assert list == list[..n] + [list[n]];
      LastOfUnique(list[..n], c);
    }
  }

  lemma EntryClass(d: StateDiff, maps: StateMaps, initial: View, c: nat)
    requires IsDiffOf(d, maps, initial)
    ensures EntryOf(d, c).cls ==
            if c !in maps.classes then None
            else if ClassAt(initial, c) == 0 then Some(Deploy(maps.classes[c])) else Some(Replace(maps.classes[c]))
  {
    LastOfUnique(d.replaced, c);
    LastOfUnique(d.deployed, c);
    if c in maps.classes {
      assert (c, maps.classes[c]).0 == c;
    }
  }

  lemma StorageThroughDiff(maps: StateMaps, initial: View, d: StateDiff, u: StateUpdate, c: nat, k: nat)
    requires IsDiffOf(d, maps, initial) && IsUpdateOf(u, d)
    ensures StorageAt(Pending(u, initial), c, k) ==
            if c in maps.classes && ClassAt(initial, c) == 0 && (IsSystem(c) || (c, k) !in maps.storage) then 0
            else StorageAfter(maps, initial, c, k)
  {
    EntryClass(d, maps, initial, c);
    assert ContractIn(u.contracts, c) == EntryOf(d, c);
    assert k in SystemIn(d.storage, c) <==> (c, k) in maps.storage;
  }

  lemma NonceAndClassThroughDiff(maps: StateMaps, initial: View, d: StateDiff, u: StateUpdate, c: nat)
    requires IsDiffOf(d, maps, initial) && IsUpdateOf(u, d)
    ensures ClassAt(Pending(u, initial), c) == ClassAfter(maps, initial, c)
    ensures NonceAt(Pending(u, initial), c) ==
            if c in maps.classes && ClassAt(initial, c) == 0 && c !in maps.nonces then 0 else NonceAfter(maps, initial, c)
  {
    EntryClass(d, maps, initial, c);
    assert ContractIn(u.contracts, c) == EntryOf(d, c);
  }

  /** Reading through the update built from the diff gives exactly the state after the execution,
      for every cell, nonce and class, if and only if deployments are clean. */
  lemma DiffReproducesState(maps: StateMaps, initial: View, d: StateDiff, u: StateUpdate)
    requires IsDiffOf(d, maps, initial) && IsUpdateOf(u, d)
    ensures ReadsAfter(Pending(u, initial), maps, initial) <==> CleanDeployments(maps, initial)
  {
    var v := Pending(u, initial);
    if CleanDeployments(maps, initial) {
      forall c: nat, k: nat
        ensures StorageAt(v, c, k) == StorageAfter(maps, initial, c, k)
      {
        StorageThroughDiff(maps, initial, d, u, c, k);
      }
      forall c: nat
        ensures NonceAt(v, c) == NonceAfter(maps, initial, c) && ClassAt(v, c) == ClassAfter(maps, initial, c)
      {
        NonceAndClassThroughDiff(maps, initial, d, u, c);
      }
    }
    if ReadsAfter(v, maps, initial) {
      forall c: nat | c in maps.classes && ClassAt(initial, c) == 0
        ensures CleanDeployment(maps, initial, c)
      {
        NonceAndClassThroughDiff(maps, initial, d, u, c);
        assert NonceAt(v, c) == NonceAfter(maps, initial, c);
        forall k: nat
          ensures (c, k) !in maps.storage ==> StorageAt(initial, c, k) == 0
          ensures IsSystem(c) && (c, k) in maps.storage ==> maps.storage[(c, k)] == 0
        {
          StorageThroughDiff(maps, initial, d, u, c, k);
          assert StorageAt(v, c, k) == StorageAfter(maps, initial, c, k);
        }
      }
    }
  }

  /** In particular when undeployed contracts are empty and no system contract changes class. */
  lemma OrdinaryExecutionIsClean(maps: StateMaps, initial: View)
    requires ClasslessIsEmpty(initial)
    requires forall c: nat :: c in maps.classes ==> !IsSystem(c)
    ensures CleanDeployments(maps, initial)
  {
  }

  /** A cell written before the contract had a class reads as zero through the diff that deploys it. */
  lemma WrittenBeforeDeployed(maps: StateMaps, initial: View, d: StateDiff, u: StateUpdate)
    requires maps == StateMaps(map[9 := 4], map[], map[], map[]) && initial == Stored(map[(9, 1) := 7], map[], map[])
    requires IsDiffOf(d, maps, initial) && IsUpdateOf(u, d)
    ensures StorageAt(Pending(u, initial), 9, 1) == 0 && StorageAfter(maps, initial, 9, 1) == 7
    ensures !ReadsAfter(Pending(u, initial), maps, initial)
  {
    StorageThroughDiff(maps, initial, d, u, 9, 1);
  }
}
