/**
 Compiled-class lookup through the global class cache, for readers at different heights, over a
 class table that may change between lookups.
 */
module ClassCache {
  import opened Common

  /** A row of the class table: the block that declared the class, if any yet. */
  datatype Row = Row(block: Option<nat>, definition: nat)

  datatype Storage = Storage(classes: map<nat, Row>, casm: map<nat, nat>)

  /** A state reader: its block, and whether it may see classes not declared at that block. */
  datatype Reader = Reader(block: Option<nat>, ignoreBlock: bool)

  datatype Answer = Class(runnable: nat) | Undeclared | Unreadable

  datatype Entry = Entry(definition: nat, height: nat)

  /** Turns a definition and an optional CASM into a runnable class; `None` when it cannot be read. */
  type Build = (nat, Option<nat>) -> Option<nat>

  // ----- the uncached lookup ---------------------------------------------------------------

  predicate DeclaredBy(s: Storage, hash: nat, n: nat) {
    hash in s.classes && s.classes[hash].block.Some? && s.classes[hash].block.value <= n
  }

  function CasmDefinition(s: Storage, hash: nat): Option<nat> {
    if hash in s.casm then Some(s.casm[hash]) else None
  }

  /** The joined query: the CASM only if its class is declared by block n. */
  function CasmDefinitionAt(s: Storage, n: nat, hash: nat): Option<nat> {
    if hash in s.casm && DeclaredBy(s, hash, n) then Some(s.casm[hash]) else None
  }

  function ClassDefinition(s: Storage, hash: nat): Option<Row> {
    if hash in s.classes then Some(s.classes[hash]) else None
  }

  function ClassDefinitionAt(s: Storage, n: nat, hash: nat): Option<Row> {
    if DeclaredBy(s, hash, n) then Some(s.classes[hash]) else None
  }

  /** `non_cached_compiled_contract_class`: the declaring block and the answer. */
  function Uncached(build: Build, s: Storage, reader: Reader, hash: nat): (Option<nat>, Answer) {
    match reader.block
    case None => (None, Undeclared)
    case Some(n) =>
      var casm := if reader.ignoreBlock then CasmDefinition(s, hash) else CasmDefinitionAt(s, n, hash);
      var row := if reader.ignoreBlock then ClassDefinition(s, hash) else ClassDefinitionAt(s, n, hash);
      match row
      case None => (None, Undeclared)
      case Some(r) =>
        match build(r.definition, casm)
        case None => (None, Unreadable)
        case Some(runnable) => (r.block, Class(runnable))
  }

  /** What a reader may see, without the queries. */
  predicate Visible(s: Storage, reader: Reader, hash: nat) {
    && reader.block.Some?
    && hash in s.classes
    && (reader.ignoreBlock || (s.classes[hash].block.Some? && s.classes[hash].block.value <= reader.block.value))
  }

  /** The class itself does not depend on the reader. */
  function Runnable(build: Build, s: Storage, hash: nat): Option<nat>
    requires hash in s.classes
  {
    build(s.classes[hash].definition, CasmDefinition(s, hash))
  }

  /** The lookup is: hidden classes are undeclared, visible ones are the same for every reader. */
  lemma UncachedMeaning(build: Build, s: Storage, reader: Reader, hash: nat)
    ensures Uncached(build, s, reader, hash).1 == Undeclared <==> !Visible(s, reader, hash)
    ensures Visible(s, reader, hash) ==>
            Uncached(build, s, reader, hash) ==
            match Runnable(build, s, hash)
            case None => (None, Unreadable)
            case Some(runnable) => (s.classes[hash].block, Class(runnable))
  {
  }

  // ----- the cached lookup -----------------------------------------------------------------

  predicate Hit(store: map<nat, Entry>, reader: Reader, hash: nat) {
    hash in store && reader.block.Some? && store[hash].height <= reader.block.value
  }

  function Get(build: Build, store: map<nat, Entry>, s: Storage, reader: Reader, hash: nat): Answer {
    if Hit(store, reader, hash) then Class(store[hash].definition)
    else Uncached(build, s, reader, hash).1
  }

  /** The cache after a lookup; `evicted` is whatever the LRU policy drops. */
  function After(build: Build, store: map<nat, Entry>, s: Storage, reader: Reader, hash: nat, evicted: set<nat>): map<nat, Entry> {
    var found := Uncached(build, s, reader, hash);
    if Hit(store, reader, hash) || found.1.Undeclared? || found.1.Unreadable? || found.0 == None then store
    else (store - evicted)[hash := Entry(found.1.runnable, found.0.value)]
  }

  /** What the cache is for: a class found under its declaring block is from then on served from the
      cache, whatever the table holds by then, to every reader at or above that block and to no other. */
  lemma FoundClassIsServed(build: Build, store: map<nat, Entry>, s: Storage, reader: Reader, hash: nat, evicted: set<nat>,
                           s': Storage, later: Reader)
    requires !Hit(store, reader, hash) && Uncached(build, s, reader, hash).1.Class? && Uncached(build, s, reader, hash).0.Some?
    ensures var after := After(build, store, s, reader, hash, evicted);
            && (later.block.Some? && s.classes[hash].block.value <= later.block.value ==>
                  Some(Get(build, after, s', later, hash).runnable) == Runnable(build, s, hash))
            && (later.block.Some? && later.block.value < s.classes[hash].block.value ==>
                  Get(build, after, s', later, hash) == Uncached(build, s', later, hash).1)
  {
    UncachedMeaning(build, s, reader, hash);
  }

  /** Nothing else enters the cache, and only the evicted entries leave it. */
  lemma OnlyFoundClassesEnter(build: Build, store: map<nat, Entry>, s: Storage, reader: Reader, hash: nat, evicted: set<nat>, other: nat)
    ensures var after := After(build, store, s, reader, hash, evicted);
            && (other in after && other !in store ==>
                  other == hash && Visible(s, reader, hash) && s.classes[hash].block == Some(after[hash].height))
            && (other in store && other !in evicted ==> other in after)
  {
    UncachedMeaning(build, s, reader, hash);
  }

  class LruContractCache {
    var store: map<nat, Entry>

    constructor ()
      ensures store == map[]
    {
      store := map[];
    }

    method Set(hash: nat, definition: nat, height: nat, evicted: set<nat>)
      modifies this
      ensures store == (old(store) - evicted)[hash := Entry(definition, height)]
    {
      store := (store - evicted)[hash := Entry(definition, height)];
    }
  }

  /** `get_compiled_class`. */
  method GetCompiledClass(cache: LruContractCache, build: Build, s: Storage, reader: Reader, hash: nat, evicted: set<nat>)
    returns (answer: Answer)
    modifies cache
    ensures answer == Get(build, old(cache.store), s, reader, hash)
    ensures cache.store == After(build, old(cache.store), s, reader, hash, evicted)
  {
    if hash in cache.store && reader.block.Some? {
      var entry := cache.store[hash];
      if entry.height <= reader.block.value {
        return Class(entry.definition);
      }
    }
    var found := Uncached(build, s, reader, hash);
    answer := found.1;
    if answer.Class? && found.0.Some? {
      cache.Set(hash, answer.runnable, found.0.value, evicted);
    }
  }

  // ----- agreement -------------------------------------------------------------------------

  /** The entry, if any, is the class now in storage, declared no later than the entry says. */
  predicate Backed(build: Build, store: map<nat, Entry>, s: Storage, hash: nat) {
    hash in store ==>
      && DeclaredBy(s, hash, store[hash].height)
      && Runnable(build, s, hash) == Some(store[hash].definition)
  }

  lemma BackedAgrees(build: Build, store: map<nat, Entry>, s: Storage, reader: Reader, hash: nat)
    requires Backed(build, store, s, hash)
    ensures Get(build, store, s, reader, hash) == Uncached(build, s, reader, hash).1
  {
    UncachedMeaning(build, s, reader, hash);
  }

  /** Every reader gets the uncached answer for a class exactly when its entry is backed. */
  lemma AgreesExactly(build: Build, store: map<nat, Entry>, s: Storage, hash: nat)
    ensures (forall reader :: Get(build, store, s, reader, hash) == Uncached(build, s, reader, hash).1)
       <==> Backed(build, store, s, hash)
  {
    if Backed(build, store, s, hash) {
      forall reader: Reader
        ensures Get(build, store, s, reader, hash) == Uncached(build, s, reader, hash).1
      {
        BackedAgrees(build, store, s, reader, hash);
      }
    } else {
      var reader := Reader(Some(store[hash].height), false);
      UncachedMeaning(build, s, reader, hash);
      assert Get(build, store, s, reader, hash) != Uncached(build, s, reader, hash).1;
    }
  }

  ghost predicate AllBacked(build: Build, store: map<nat, Entry>, s: Storage) {
    forall hash :: Backed(build, store, s, hash)
  }

  lemma LookupKeepsBacked(build: Build, store: map<nat, Entry>, s: Storage, reader: Reader, hash: nat, evicted: set<nat>)
    requires AllBacked(build, store, s)
    ensures AllBacked(build, After(build, store, s, reader, hash, evicted), s)
  {
    var after := After(build, store, s, reader, hash, evicted);
    UncachedMeaning(build, s, reader, hash);
    forall other: nat
      ensures Backed(build, after, s, other)
    {
      assert Backed(build, store, s, other);
    }
  }

  /** A table change that withdraws no declaration: a class declared at some block stays declared,
      no later, and runs the same.  New rows and newly declared rows are allowed. */
  ghost predicate KeepsDeclared(build: Build, s: Storage, s': Storage) {
    forall hash, n :: DeclaredBy(s, hash, n) ==>
      DeclaredBy(s', hash, n) && Runnable(build, s', hash) == Runnable(build, s, hash)
  }

  lemma ChangeKeepsBacked(build: Build, store: map<nat, Entry>, s: Storage, s': Storage)
    requires AllBacked(build, store, s) && KeepsDeclared(build, s, s')
    ensures AllBacked(build, store, s')
  {
    forall hash: nat
      ensures Backed(build, store, s', hash)
    {
      assert Backed(build, store, s, hash);
    }
  }

  // ----- whole runs ------------------------------------------------------------------------

  datatype Event = Look(reader: Reader, hash: nat, evicted: set<nat>) | Change(to: Storage)

  datatype State = State(store: map<nat, Entry>, storage: Storage)

  function Step(build: Build, st: State, e: Event): State {
    match e
    case Look(reader, hash, evicted) => st.(store := After(build, st.store, st.storage, reader, hash, evicted))
    case Change(to) => st.(storage := to)
  }

  function Run(build: Build, storage: Storage, events: seq<Event>): State {
    if events == [] then State(map[], storage)
    else Step(build, Run(build, storage, events[..|events| - 1]), events[|events| - 1])
  }

  /** No table change of the run withdraws a declaration. */
  ghost predicate NoneWithdrawn(build: Build, storage: Storage, events: seq<Event>) {
    forall i :: 0 <= i < |events| && events[i].Change? ==>
      KeepsDeclared(build, Run(build, storage, events[..i]).storage, events[i].to)
  }

  lemma {:induction false} RunIsBacked(build: Build, storage: Storage, events: seq<Event>)
    requires NoneWithdrawn(build, storage, events)
    ensures AllBacked(build, Run(build, storage, events).store, Run(build, storage, events).storage)
    decreases |events|
  {
    if events != [] {
      var n := |events| - 1;
      var before, e := events[..n], events[n];
      assert forall i :: 0 <= i < n ==> before[..i] == events[..i];
      RunIsBacked(build, storage, before);
      var st := Run(build, storage, before);
      match e
      case Look(reader, hash, evicted) => LookupKeepsBacked(build, st.store, st.storage, reader, hash, evicted);
      case Change(to) => ChangeKeepsBacked(build, st.store, st.storage, to);
    }
  }

  /** After any run of lookups by any readers, with any evictions, and any table changes that
      withdraw nothing, the cached answer is the uncached one. */
  lemma CachedEqualsUncached(build: Build, storage: Storage, events: seq<Event>, reader: Reader, hash: nat)
    requires NoneWithdrawn(build, storage, events)
    ensures var st := Run(build, storage, events);
            Get(build, st.store, st.storage, reader, hash) == Uncached(build, st.storage, reader, hash).1
  {
    RunIsBacked(build, storage, events);
    var st := Run(build, storage, events);
    assert Backed(build, st.store, st.storage, hash);
    BackedAgrees(build, st.store, st.storage, reader, hash);
  }

  /** A reorg that withdraws a declaration breaks it: the reader still gets the class. */
  lemma WithdrawnClassStillServed(build: Build, definition: nat, runnable: nat)
    requires build(definition, None) == Some(runnable)
    ensures
      var declared, withdrawn := Storage(map[7 := Row(Some(5), definition)], map[]), Storage(map[7 := Row(None, definition)], map[]);
      var reader := Reader(Some(6), false);
      var st := Run(build, declared, [Look(reader, 7, {}), Change(withdrawn)]);
      && Get(build, st.store, st.storage, reader, 7) == Class(runnable)
      && Uncached(build, st.storage, reader, 7).1 == Undeclared
  {
    var declared, withdrawn := Storage(map[7 := Row(Some(5), definition)], map[]), Storage(map[7 := Row(None, definition)], map[]);
    var look, change := Look(Reader(Some(6), false), 7, {}), Change(withdrawn);
    assert [look, change][..1] == [look];
    assert [look][..0] == [];
    assert Run(build, declared, [look]) == Step(build, Run(build, declared, []), look);
  }
}
