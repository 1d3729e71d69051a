/**
 The height manager as the mutable object it is, refining the functions of module Consensus step
 by step.  The WAL directory is an object of its own because it outlives the manager.

 The engines are values inside the manager's map: the map owns them and nothing else refers to them.
 */
module ConsensusManager {
  import opened Common
  import opened C = Consensus

  // ----- the per-height engine -------------------------------------------------------------

  /** `process_input`: feed the effects of one input through `handle_effect`. */
  method ProcessInput(l: Logged, effects: seq<Effect>) returns (r: Logged)
    ensures r == HandleEffects(l, effects)
  {
    r := l;
    for i := 0 to |effects|
      invariant r == HandleEffects(l, effects[..i])
    {
      r := HandleEffect(r, effects[i]);
      assert effects[..i + 1][..i] == effects[..i];
    }
    assert effects[..|effects|] == effects;
  }

  method PollInternal(l: Logged, effects: seq<Effect>) returns (r: Logged, event: Option<Event>)
    ensures (r, event) == PollEngine(l, effects)
  {
    r := l;
    if r.engine.inputs != [] {
      r := r.(engine := r.engine.(inputs := r.engine.inputs[1..]));
    }
    r := ProcessInput(r, effects);
    event := None;
    if r.engine.outputs != [] {
      event := Some(r.engine.outputs[0]);
      r := r.(engine := r.engine.(outputs := r.engine.outputs[1..]));
    }
  }

  lemma {:induction false} HandleEffectsConcat(l: Logged, a: seq<Effect>, b: seq<Effect>)
    ensures HandleEffects(l, a + b) == HandleEffects(HandleEffects(l, a), b)
    decreases |b|
  {
    if b == [] {
      assert a + b == a;
    } else {
      var n := |b| - 1;
      assert (a + b)[..|a + b| - 1] == a + b[..n];
      HandleEffectsConcat(l, a, b[..n]);
    }
  }

  /** `recover_from_wal`: besides replaying, it reports the last round this validator voted in. */
  method RecoverFromWal(l: Logged, entries: seq<WalEntry>, script: seq<seq<Effect>>)
    returns (r: Logged, maxRound: Option<nat>)
    requires |entries| == |script|
    ensures r == Replay(l, entries, script)
    ensures maxRound.Some? ==> SignedVote(maxRound) in entries
    ensures forall e :: e in entries && e.SignedVote? && e.round.Some? ==>
              maxRound.Some? && e.round.value <= maxRound.value
  {
    var marked := if HasDecision(entries) then l.(engine := MarkFinalized(l.engine)) else l;
    r, maxRound := marked, None;
    for i := 0 to |entries|
      invariant r == HandleEffects(marked, ReplayEffects(entries[..i], script[..i]))
      invariant maxRound.Some? ==> SignedVote(maxRound) in entries
      invariant forall e :: e in entries[..i] && e.SignedVote? && e.round.Some? ==>
                  maxRound.Some? && e.round.value <= maxRound.value
    {
      var entry := entries[i];
      assert entries[..i + 1][..i] == entries[..i] && script[..i + 1][..i] == script[..i];
      assert entries[..i + 1] == entries[..i] + [entry];
      if entry.Decision? {
        assert ReplayEffects(entries[..i + 1], script[..i + 1]) == ReplayEffects(entries[..i], script[..i]);
        continue;
      }
      if entry.SignedVote? && entry.round.Some? {
        maxRound := HigherOf(maxRound, entry.round.value);
      }
      HandleEffectsConcat(marked, ReplayEffects(entries[..i], script[..i]), script[i]);
      r := ProcessInput(r, script[i]);
    }
    assert entries[..|entries|] == entries && script[..|script|] == script;
  }

  // ----- reading the directory -------------------------------------------------------------

  ghost predicate Ascending(s: seq<nat>) {
    forall i, j :: 0 <= i < j < |s| ==> s[i] < s[j]
  }

  /** The heights of all files in ascending order, as `collect_wal_files` sorts them. */
  method CollectWalFiles(files: map<nat, seq<WalEntry>>) returns (heights: seq<nat>)
    ensures Ascending(heights)
    ensures forall h :: h in heights <==> h in files
  {
    heights := [];
    var rest := files.Keys;
    while rest != {}
      invariant Ascending(heights)
      invariant forall h, k :: h in rest && k in heights ==> h < k
      invariant forall h :: h in heights || h in rest <==> h in files
      decreases |rest|
    {
      var top := Max(rest);
      assert forall j :: 0 <= j < |heights| ==> heights[j] in heights;
      heights, rest := [top] + heights, rest - {top};
    }
  }

  /** The files among `heights` whose classification is `finalized`, with their entries. */
  function Listed(heights: seq<nat>, files: map<nat, seq<WalEntry>>, committed: Option<nat>, finalized: bool): seq<(nat, seq<WalEntry>)>
    requires forall h :: h in heights ==> h in files
    decreases |heights|
  {
    if heights == [] then []
    else
      var n := |heights| - 1;
      var h := heights[n];
      Listed(heights[..n], files, committed, finalized)
        + if FileFinalized(h, files[h], committed) == finalized then [(h, files[h])] else []
  }

  /** Everything listed is a file of the right kind. */
  ghost predicate ListedSound(listed: seq<(nat, seq<WalEntry>)>, files: map<nat, seq<WalEntry>>,
                              committed: Option<nat>, upTo: seq<nat>, finalized: bool)
  {
    forall i :: 0 <= i < |listed| ==>
      && listed[i].0 in upTo && listed[i].0 in files && listed[i].1 == files[listed[i].0]
      && FileFinalized(listed[i].0, listed[i].1, committed) == finalized
  }

  /** Every file of that kind is listed. */
  ghost predicate ListedComplete(listed: seq<(nat, seq<WalEntry>)>, files: map<nat, seq<WalEntry>>,
                                 committed: Option<nat>, upTo: seq<nat>, finalized: bool)
  {
    forall h :: h in upTo && h in files && FileFinalized(h, files[h], committed) == finalized ==> (h, files[h]) in listed
  }

  ghost predicate ListedAscending(listed: seq<(nat, seq<WalEntry>)>) {
    forall i, j :: 0 <= i < j < |listed| ==> listed[i].0 < listed[j].0
  }

  ghost predicate Categorised(listed: seq<(nat, seq<WalEntry>)>, files: map<nat, seq<WalEntry>>,
                              committed: Option<nat>, upTo: seq<nat>, finalized: bool)
  {
    && ListedSound(listed, files, committed, upTo, finalized)
    && ListedComplete(listed, files, committed, upTo, finalized)
    && ListedAscending(listed)
  }

  lemma SoundStep(listed: seq<(nat, seq<WalEntry>)>, files: map<nat, seq<WalEntry>>, committed: Option<nat>,
                  upTo: seq<nat>, h: nat, finalized: bool, listed': seq<(nat, seq<WalEntry>)>)
    requires ListedSound(listed, files, committed, upTo, finalized) && h in files
    requires listed' == listed + if FileFinalized(h, files[h], committed) == finalized then [(h, files[h])] else []
    ensures ListedSound(listed', files, committed, upTo + [h], finalized)
  {
  }

  lemma CompleteStep(listed: seq<(nat, seq<WalEntry>)>, files: map<nat, seq<WalEntry>>, committed: Option<nat>,
                     upTo: seq<nat>, h: nat, finalized: bool, listed': seq<(nat, seq<WalEntry>)>)
    requires ListedComplete(listed, files, committed, upTo, finalized) && h in files
    requires listed' == listed + if FileFinalized(h, files[h], committed) == finalized then [(h, files[h])] else []
    ensures ListedComplete(listed', files, committed, upTo + [h], finalized)
  {
    assert forall x :: x in listed ==> x in listed';
  }

  lemma AscendingStep(listed: seq<(nat, seq<WalEntry>)>, files: map<nat, seq<WalEntry>>, committed: Option<nat>,
                      upTo: seq<nat>, h: nat, finalized: bool, file: seq<WalEntry>)
    requires ListedSound(listed, files, committed, upTo, finalized) && ListedAscending(listed)
    requires forall k :: k in upTo ==> k < h
    ensures ListedAscending(listed + [(h, file)])
  {
  }

  lemma AscendingLast(heights: seq<nat>, n: nat)
    requires Ascending(heights) && |heights| == n + 1
    ensures Ascending(heights[..n]) && heights == heights[..n] + [heights[n]]
    ensures forall k :: k in heights[..n] ==> k < heights[n]
  {
  }

  lemma {:induction false} ListedCategorised(heights: seq<nat>, files: map<nat, seq<WalEntry>>, committed: Option<nat>, finalized: bool)
    requires Ascending(heights) && forall h :: h in heights ==> h in files
    ensures Categorised(Listed(heights, files, committed, finalized), files, committed, heights, finalized)
    decreases |heights|
  {
    if heights != [] {
      var n := |heights| - 1;
      var shorter, h := heights[..n], heights[n];
      var listed, listed' := Listed(shorter, files, committed, finalized), Listed(heights, files, committed, finalized);
      AscendingLast(heights, n);
      ListedCategorised(shorter, files, committed, finalized);
      SoundStep(listed, files, committed, shorter, h, finalized, listed');
      CompleteStep(listed, files, committed, shorter, h, finalized, listed');
      AscendingStep(listed, files, committed, shorter, h, finalized, files[h]);
    }
  }

  /** `recover_incomplete_heights`: every file lands, with its entries, in exactly one of the two
      lists, each in ascending order of height, and the highest decision of all files is found. */
  method RecoverIncompleteHeights(files: map<nat, seq<WalEntry>>, committed: Option<nat>)
    returns (incomplete: seq<(nat, seq<WalEntry>)>, finalized: seq<(nat, seq<WalEntry>)>, highest: Option<nat>, ghost heights: seq<nat>)
    ensures Ascending(heights) && forall h :: h in heights <==> h in files
    ensures Categorised(incomplete, files, committed, heights, false)
    ensures Categorised(finalized, files, committed, heights, true)
    ensures highest == HighestDecision(files)
  {
    var order := CollectWalFiles(files);
    heights := order;
    incomplete, finalized, highest := ReadFiles(files, committed, order);
    ListedCategorised(order, files, committed, false);
    ListedCategorised(order, files, committed, true);
  }

  method ReadFiles(files: map<nat, seq<WalEntry>>, committed: Option<nat>, order: seq<nat>)
    returns (incomplete: seq<(nat, seq<WalEntry>)>, finalized: seq<(nat, seq<WalEntry>)>, highest: Option<nat>)
    requires forall h :: h in order <==> h in files
    ensures incomplete == Listed(order, files, committed, false)
    ensures finalized == Listed(order, files, committed, true)
    ensures highest == HighestDecision(files)
  {
    incomplete, finalized, highest := [], [], None;
    for i := 0 to |order|
      invariant incomplete == Listed(order[..i], files, committed, false)
      invariant finalized == Listed(order[..i], files, committed, true)
      invariant highest.Some? ==> highest.value in DecisionHeights(files)
      invariant forall h :: h in order[..i] ==> Covers(highest, files[h])
    {
      var h := order[i];
      var entries := files[h];
      assert forall e :: e in entries && e.Decision? ==> e.height in DecisionHeights(files);
      highest := HighestIn(entries, highest);
      assert order[..i + 1] == order[..i] + [h] && order[..i + 1][..i] == order[..i];
      if FileFinalized(h, entries, committed) {
        finalized := finalized + [(h, entries)];
      } else {
        incomplete := incomplete + [(h, entries)];
      }
    }
    assert order[..|order|] == order;
    CoversAll(files, highest);
  }

  /** No decision of `file` is above `highest`. */
  ghost predicate Covers(highest: Option<nat>, file: seq<WalEntry>) {
    forall e :: e in file && e.Decision? ==> highest.Some? && e.height <= highest.value
  }

  lemma CoversAll(files: map<nat, seq<WalEntry>>, highest: Option<nat>)
    requires highest.Some? ==> highest.value in DecisionHeights(files)
    requires forall h :: h in files ==> Covers(highest, files[h])
    ensures highest == HighestDecision(files)
  {
    forall d | d in DecisionHeights(files)
      ensures highest.Some? && d <= highest.value
    {
      var h, i :| h in files && 0 <= i < |files[h]| && files[h][i].Decision? && files[h][i].height == d;
      assert files[h][i] in files[h];
    }
  }

  method HighestIn(entries: seq<WalEntry>, start: Option<nat>) returns (highest: Option<nat>)
    ensures highest == start || exists e :: e in entries && e.Decision? && highest == Some(e.height)
    ensures Covers(highest, entries)
    ensures forall file :: Covers(start, file) ==> Covers(highest, file)
  {
    highest := start;
    for i := 0 to |entries|
      invariant highest == start || exists e :: e in entries && e.Decision? && highest == Some(e.height)
      invariant start.Some? ==> highest.Some? && start.value <= highest.value
      invariant Covers(highest, entries[..i])
    {
      assert entries[..i + 1] == entries[..i] + [entries[i]];
      if entries[i].Decision? {
        highest := HigherOf(highest, entries[i].height);
      }
    }
    assert entries[..|entries|] == entries;
  }

  // ----- the manager -----------------------------------------------------------------------

  class WalDirectory {
    var files: map<nat, seq<WalEntry>>

    constructor ()
      ensures files == map[]
    {
      files := map[];
    }
  }

  class Manager {
    const depth: nat
    const dir: WalDirectory
    var engines: map<nat, Engine>
    var queue: seq<Event>
    var minKept: Option<nat>
    var lastDecided: Option<nat>
    ghost var committed: Option<nat>

    ghost function View(): World
      reads this, dir
    {
      World(depth, engines, queue, minKept, lastDecided, dir.files, committed)
    }

    constructor (dir: WalDirectory, depth: nat)
      ensures this.dir == dir && View() == World(depth, map[], [], None, None, dir.files, None)
    {
      this.dir, this.depth := dir, depth;
      engines, queue, minKept, lastDecided := map[], [], None, None;
      committed := None;
    }

    method CreateConsensus(h: nat, walOk: bool) returns (e: Engine)
      modifies dir
      ensures e == FreshEngine(walOk)
      ensures dir.files == OpenFile(old(dir.files), h, walOk)
    {
      if walOk && h !in dir.files {
        dir.files := dir.files[h := []];
      }
      e := Engine([], [], if walOk then FileSink(false) else NoopSink);
    }

    method HandleCommand(cmd: Command, walOk: bool)
      modifies this, dir
      ensures View() == C.HandleCommand(old(View()), cmd, walOk)
    {
      match cmd
      case StartHeightCommand(h) =>
        var e := CreateConsensus(h, walOk);
        engines := engines[h := Push(e, cmd)];
      case _ =>
        if cmd.height in engines {
          engines := engines[cmd.height := Push(engines[cmd.height], cmd)];
        }
    }

    /** One pass of the polling loop for one height. */
    method PollHeight(h: nat, effects: seq<Effect>) returns (decided: bool)
      requires h in engines
      modifies this, dir
      ensures View() == Poll(old(View()), h, effects)
      ensures decided == PollDecides(old(View()), h, effects)
    {
      var l, polled := PollInternal(Logged(engines[h], FileAt(dir.files, h)), effects);
      decided := polled.Some? && polled.value.DecisionEvent?;
      engines := engines[h := l.engine];
      if l.engine.sink.FileSink? {
        dir.files := dir.files[h := l.file];
      }
      if polled.Some? {
        if decided {
          lastDecided := HigherOf(lastDecided, polled.value.height);
        }
        queue := queue + [polled.value];
      }
    }

    method PollHeights(order: seq<nat>, effects: map<nat, seq<Effect>>) returns (anyFinished: bool)
      requires forall h :: h in order ==> h in engines && h in effects
      modifies this, dir
      ensures (View(), anyFinished) == PollAll(old(View()), order, effects)
    {
      ghost var w := View();
      anyFinished := false;
      for i := 0 to |order|
        invariant forall h :: h in order ==> h in w.engines && h in effects
        invariant (View(), anyFinished) == PollAll(w, order[..i], effects)
      {
        assert order[..i + 1][..i] == order[..i];
        assert order[i] in engines.Keys;
        var decided := PollHeight(order[i], effects[order[i]]);
        anyFinished := anyFinished || decided;
      }
      assert order[..|order|] == order;
    }

    method NextEvent(order: seq<nat>, effects: map<nat, seq<Effect>>, undeleted: set<nat>) returns (event: Option<Event>)
      requires Enumerates(order, engines.Keys) && engines.Keys <= effects.Keys
      modifies this, dir
      ensures (View(), event) == C.NextEvent(old(View()), order, effects, undeleted)
    {
      var anyFinished := PollHeights(order, effects);
      if anyFinished {
        PruneOldEngines(undeleted);
      }
      event := None;
      if queue != [] {
        event, queue := Some(queue[0]), queue[1..];
      }
    }

    /** Removes the files of the pruned heights, as far as that succeeds. */
    method DeleteFiles(pruned: set<nat>, undeleted: set<nat>)
      modifies dir
      ensures dir.files == old(dir.files) - (pruned - undeleted)
    {
      var rest := pruned;
      while rest != {}
        invariant rest <= pruned
        invariant dir.files == old(dir.files) - (pruned - rest - undeleted)
        decreases |rest|
      {
        var h :| h in rest;
        if h !in undeleted {
          dir.files := dir.files - {h};
        }
        rest := rest - {h};
      }
    }

    method PruneOldEngines(undeleted: set<nat>)
      modifies this, dir
      ensures View() == Prune(old(View()), undeleted)
    {
      if engines.Keys == {} || Max(engines.Keys) < depth {
        return;
      }
      var newMin := Max(engines.Keys) - depth;
      var pruned := set h | h in engines && h < newMin;
      minKept := Some(newMin);
      engines := map h | h in engines && newMin <= h :: engines[h];
      DeleteFiles(pruned, undeleted);
      assert dir.files == Prune(old(View()), undeleted).disk;
    }

    method IsHeightFinalized(h: nat) returns (b: bool)
      ensures b == C.IsHeightFinalized(View(), h)
    {
      if h in engines {
        return EngineFinalized(engines[h]);
      }
      return minKept.Some? && h < minKept.value;
    }

    /** The engines and files of the heights in `done` have been rebuilt, the others not yet. */
    ghost predicate Rebuilt(disk: map<nat, seq<WalEntry>>, input: RecoveryInput, done: set<nat>)
      requires ScriptFits(disk, input)
      reads this, dir
    {
      && engines == RebuiltEngines(disk, depth, input, done)
      && dir.files == RebuiltFiles(disk, depth, input, done)
    }

    method RebuildHeight(ghost disk: map<nat, seq<WalEntry>>, input: RecoveryInput, h: nat, entries: seq<WalEntry>,
                         finalized: bool, maxHeight: nat, ghost done: set<nat>)
      requires ScriptFits(disk, input) && Rebuilt(disk, input, done)
      requires h in disk && h !in done && entries == disk[h]
      requires finalized == FileFinalized(h, entries, input.committed)
      requires maxHeight == Max(disk.Keys) && Restored(disk, depth, input, h)
      modifies this`engines, dir
      ensures Rebuilt(disk, input, done + {h})
    {
      var blank := CreateConsensus(h, h !in input.noWal);
      var l := RebuildEngine(disk, input, h, Logged(blank, dir.files[h]), entries, finalized, maxHeight);
      RebuiltStep(disk, depth, input, done, h);
      engines := engines[h := l.engine];
      dir.files := dir.files[h := l.file];
    }

    method RebuildAll(ghost disk: map<nat, seq<WalEntry>>, input: RecoveryInput, listed: seq<(nat, seq<WalEntry>)>,
                      finalized: bool, min: Option<nat>, maxHeight: nat, ghost done: set<nat>) returns (ghost more: set<nat>)
      requires ScriptFits(disk, input) && Rebuilt(disk, input, done)
      requires disk.Keys != {} && maxHeight == Max(disk.Keys) && min == CheckedSub(maxHeight, depth)
      requires forall i :: 0 <= i < |listed| ==>
                 listed[i].0 in disk && listed[i].0 !in done && listed[i].1 == disk[listed[i].0]
                 && FileFinalized(listed[i].0, listed[i].1, input.committed) == finalized
      requires forall i, j :: 0 <= i < j < |listed| ==> listed[i].0 < listed[j].0
      modifies this`engines, dir
      ensures Rebuilt(disk, input, more)
      ensures forall h :: h in more <==> h in done || exists i :: 0 <= i < |listed| && listed[i].0 == h
    {
      more := done;
      for i := 0 to |listed|
        invariant forall h :: h in more <==> h in done || exists j :: 0 <= j < i && listed[j].0 == h
        invariant Rebuilt(disk, input, more)
      {
        var (h, entries) := listed[i];
        if !finalized || min.None? || min.value <= h {
          RebuildHeight(disk, input, h, entries, finalized, maxHeight, more);
        } else {
          RebuiltStep(disk, depth, input, more, h);
        }
        more := more + {h};
      }
    }

    /** Rebuild the finalized heights of the window, then all incomplete ones. */
    method RestoreHeights(ghost disk: map<nat, seq<WalEntry>>, input: RecoveryInput, ghost heights: seq<nat>,
                          incomplete: seq<(nat, seq<WalEntry>)>, finalized: seq<(nat, seq<WalEntry>)>)
      requires ScriptFits(disk, input) && input.readable && disk == dir.files
      requires engines == map[] && minKept == None
      requires forall h :: h in disk <==> h in heights
      requires Categorised(incomplete, disk, input.committed, heights, false)
      requires Categorised(finalized, disk, input.committed, heights, true)
      modifies this`engines, this`minKept, dir
      ensures C.Recover(depth, disk, input) ==
              World(depth, engines, [], minKept, HighestDecision(disk), dir.files, input.committed)
    {
      if dir.files.Keys == {} {
        RecoverEmpty(depth, disk, input);
        return;
      }
      var maxHeight := Max(dir.files.Keys);
      var min := CheckedSub(maxHeight, depth);
      assert RebuiltFiles(disk, depth, input, {}) == disk;
      var done := RebuildAll(disk, input, finalized, true, min, maxHeight, {});
      done := RebuildAll(disk, input, incomplete, false, min, maxHeight, done);
      minKept := min;
      RebuiltEverything(disk, depth, input, done, heights, incomplete, finalized);
    }

    /** `recover_inner` on the fresh manager of a restarted process. */
    method Recover(input: RecoveryInput)
      requires ScriptFits(dir.files, input)
      requires View() == World(depth, map[], [], None, None, dir.files, None)
      modifies this, dir
      ensures View() == C.Recover(depth, old(dir.files), input)
    {
      committed := input.committed;
      if input.readable {
        var incomplete, finalized, highest, heights := RecoverIncompleteHeights(dir.files, input.committed);
        lastDecided := highest;
        RestoreHeights(dir.files, input, heights, incomplete, finalized);
      }
    }
  }

  ghost function RebuiltEngines(disk: map<nat, seq<WalEntry>>, depth: nat, input: RecoveryInput, done: set<nat>): map<nat, Engine>
    requires ScriptFits(disk, input)
  {
    map h | h in disk && h in done && Restored(disk, depth, input, h) :: RecoverEngine(disk, input, h).engine
  }

  ghost function FileAfter(disk: map<nat, seq<WalEntry>>, depth: nat, input: RecoveryInput, done: set<nat>, h: nat): seq<WalEntry>
    requires ScriptFits(disk, input) && h in disk
  {
    if h in done && Restored(disk, depth, input, h) then RecoverEngine(disk, input, h).file else disk[h]
  }

  ghost function RebuiltFiles(disk: map<nat, seq<WalEntry>>, depth: nat, input: RecoveryInput, done: set<nat>): map<nat, seq<WalEntry>>
    requires ScriptFits(disk, input)
  {
    map h | h in disk :: FileAfter(disk, depth, input, done, h)
  }

  lemma EnginesStep(disk: map<nat, seq<WalEntry>>, depth: nat, input: RecoveryInput, done: set<nat>, h: nat)
    requires ScriptFits(disk, input) && h in disk && h !in done
    ensures RebuiltEngines(disk, depth, input, done + {h}) ==
            if Restored(disk, depth, input, h) then RebuiltEngines(disk, depth, input, done)[h := RecoverEngine(disk, input, h).engine]
            else RebuiltEngines(disk, depth, input, done)
  {
    var before, after := RebuiltEngines(disk, depth, input, done), RebuiltEngines(disk, depth, input, done + {h});
    forall k: nat
      ensures k in after <==> k in before || (k == h && Restored(disk, depth, input, h))
      ensures k in before ==> k in after && after[k] == before[k]
    {
    }
  }

  lemma FilesStep(disk: map<nat, seq<WalEntry>>, depth: nat, input: RecoveryInput, done: set<nat>, h: nat)
    requires ScriptFits(disk, input) && h in disk && h !in done
    ensures RebuiltFiles(disk, depth, input, done + {h}) ==
            if Restored(disk, depth, input, h) then RebuiltFiles(disk, depth, input, done)[h := RecoverEngine(disk, input, h).file]
            else RebuiltFiles(disk, depth, input, done)
  {
    var before, after := RebuiltFiles(disk, depth, input, done), RebuiltFiles(disk, depth, input, done + {h});
    assert before.Keys == after.Keys == disk.Keys;
    forall k | k in disk && k != h
      ensures after[k] == before[k]
    {
    }
  }

  lemma RebuiltStep(disk: map<nat, seq<WalEntry>>, depth: nat, input: RecoveryInput, done: set<nat>, h: nat)
    requires ScriptFits(disk, input) && h in disk && h !in done
    ensures var l := RecoverEngine(disk, input, h);
            var more := done + {h};
            if Restored(disk, depth, input, h) then
              && RebuiltEngines(disk, depth, input, more) == RebuiltEngines(disk, depth, input, done)[h := l.engine]
              && RebuiltFiles(disk, depth, input, more) == RebuiltFiles(disk, depth, input, done)[h := l.file]
            else
              && RebuiltEngines(disk, depth, input, more) == RebuiltEngines(disk, depth, input, done)
              && RebuiltFiles(disk, depth, input, more) == RebuiltFiles(disk, depth, input, done)
  {
    EnginesStep(disk, depth, input, done, h);
    FilesStep(disk, depth, input, done, h);
  }

  lemma RecoverEmpty(depth: nat, disk: map<nat, seq<WalEntry>>, input: RecoveryInput)
    requires ScriptFits(disk, input) && input.readable && disk.Keys == {}
    ensures C.Recover(depth, disk, input) == World(depth, map[], [], None, HighestDecision(disk), disk, input.committed)
  {
    var w := C.Recover(depth, disk, input);
    assert w.engines.Keys == {} && w.disk.Keys == {};
  }

  lemma RebuiltEverything(disk: map<nat, seq<WalEntry>>, depth: nat, input: RecoveryInput, done: set<nat>,
                          heights: seq<nat>, incomplete: seq<(nat, seq<WalEntry>)>, finalized: seq<(nat, seq<WalEntry>)>)
    requires ScriptFits(disk, input) && input.readable
    requires forall h :: h in disk ==> h in heights
    requires Categorised(incomplete, disk, input.committed, heights, false)
    requires Categorised(finalized, disk, input.committed, heights, true)
    requires forall i :: 0 <= i < |incomplete| ==> incomplete[i].0 in done
    requires forall i :: 0 <= i < |finalized| ==> finalized[i].0 in done
    ensures C.Recover(depth, disk, input) ==
            World(depth, RebuiltEngines(disk, depth, input, done), [], MinToRestore(disk, depth),
                  HighestDecision(disk), RebuiltFiles(disk, depth, input, done), input.committed)
  {
    forall h | h in disk
      ensures h in done
    {
      assert h in heights;
      assert (h, disk[h]) in finalized || (h, disk[h]) in incomplete;
    }
    var w := C.Recover(depth, disk, input);
    assert w.engines == RebuiltEngines(disk, depth, input, done);
    assert w.disk == RebuiltFiles(disk, depth, input, done);
  }

  method RebuildEngine(ghost disk: map<nat, seq<WalEntry>>, input: RecoveryInput, h: nat, blank: Logged,
                       entries: seq<WalEntry>, finalized: bool, maxHeight: nat) returns (l: Logged)
    requires h in disk && entries == disk[h]
    requires h in input.script && |input.script[h]| == |entries|
    requires blank == Logged(FreshEngine(h !in input.noWal), entries)
    requires finalized == FileFinalized(h, entries, input.committed)
    requires maxHeight == Max(disk.Keys)
    ensures l == RecoverEngine(disk, input, h)
  {
    l := blank;
    var round;
    if finalized {
      l, round := RecoverFromWal(l, entries, input.script[h]);
      if !EngineFinalized(l.engine) || maxHeight == h {
        l := l.(engine := Push(l.engine, StartHeightCommand(h)));
      }
    } else {
      l := l.(engine := Push(l.engine, StartHeightCommand(h)));
      l, round := RecoverFromWal(l, entries, input.script[h]);
    }
  }
}
