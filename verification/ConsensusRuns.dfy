/**
 Safety of the height manager over whole runs: commands, polls with pruning, and any number of
 crashes followed by recovery.
 */
module ConsensusRuns {
  import opened Common
  import opened Consensus

  datatype Step =
    | Issue(cmd: Command, walOk: bool)
    | PollEvents(order: seq<nat>, effects: map<nat, seq<Effect>>, undeleted: set<nat>)
    | CrashAndRecover(input: RecoveryInput)
    // a crash inside next_event: some engines polled, the last one perhaps with only the first of its
    // effects logged, and some files of the pruned heights deleted
    | CrashWhilePolling(order: seq<nat>, effects: map<nat, seq<Effect>>, deleted: set<nat>, input: RecoveryInput)

  /** The step can be taken at all: iteration orders and scripts have the right shape. */
  ghost predicate Enabled(w: World, step: Step) {
    match step
    case Issue(_, _) => true
    case PollEvents(order, effects, _) => Enumerates(order, w.engines.Keys) && w.engines.Keys <= effects.Keys
    case CrashAndRecover(input) => ScriptFits(w.disk, input)
    case CrashWhilePolling(order, effects, deleted, input) =>
      && (forall h :: h in order ==> h in w.engines && h in effects)
      && var polled := PollAll(w, order, effects).0;
         Prunable(polled, deleted) && ScriptFits(polled.disk - deleted, input)
  }

  /** Heights that lie below the window. */
  predicate Prunable(w: World, heights: set<nat>) {
    forall h :: h in heights ==> h in w.engines && h + w.depth < Max(w.engines.Keys)
  }

  ghost function Next(w: World, step: Step): World
    requires Enabled(w, step)
  {
    match step
    case Issue(cmd, walOk) => HandleCommand(w, cmd, walOk)
    case PollEvents(order, effects, undeleted) => NextEvent(w, order, effects, undeleted).0
    case CrashAndRecover(input) => Recover(w.depth, w.disk, input)
    case CrashWhilePolling(order, effects, deleted, input) =>
      Recover(w.depth, PollAll(w, order, effects).0.disk - deleted, input)
  }

  /** The core decides only the height it was started for. */
  predicate OwnHeight(h: nat, effects: seq<Effect>) {
    forall i :: 0 <= i < |effects| && effects[i].Decide? ==> effects[i].height == h
  }

  predicate Decides(effects: seq<Effect>) {
    exists i :: 0 <= i < |effects| && effects[i].Decide?
  }

  predicate NotBelow(a: Option<nat>, b: Option<nat>) {
    a.Some? ==> b.Some? && a.value <= b.value
  }

  /** What the surroundings must guarantee for one step. */
  ghost predicate Disciplined(w: World, step: Step)
    requires Enabled(w, step)
  {
    match step
    case Issue(cmd, walOk) =>
      cmd.StartHeightCommand? ==> walOk && cmd.height !in w.engines && !IsHeightFinalized(w, cmd.height)
    case PollEvents(order, effects, undeleted) =>
      && (forall h :: h in w.engines ==> OwnHeight(h, effects[h]))
      && var polled := PollAll(w, order, effects).0;
         forall h :: h in undeleted && h in polled.disk ==> FileFinalized(h, polled.disk[h], w.committed)
    case CrashAndRecover(input) => FairRecovery(w.committed, w.disk, input)
    case CrashWhilePolling(order, effects, deleted, input) =>
      && (forall h :: h in order ==> OwnHeight(h, effects[h]))
      && FairRecovery(w.committed, PollAll(w, order, effects).0.disk - deleted, input)
  }

  /** All files can be read and reopened, the committed height has not gone down, and replay decides
      only the height of the file. */
  ghost predicate FairRecovery(committed: Option<nat>, disk: map<nat, seq<WalEntry>>, input: RecoveryInput)
    requires ScriptFits(disk, input)
  {
    && input.readable && input.noWal == {}
    && NotBelow(committed, input.committed)
    && forall h, i :: h in disk && 0 <= i < |input.script[h]| ==> OwnHeight(h, input.script[h][i])
  }

  // ----- one engine and its file -----------------------------------------------------------

  /** Every decision in the file names the height of the file. */
  ghost predicate OwnDecisions(h: nat, file: seq<WalEntry>) {
    forall i :: 0 <= i < |file| && file[i].Decision? ==> file[i].height == h
  }

  /** The sink's flag mirrors the file, and both speak of height `h` only. */
  ghost predicate Consistent(h: nat, l: Logged) {
    && l.engine.sink.FileSink?
    && (l.engine.sink.hasDecision <==> HasDecision(l.file))
    && OwnDecisions(h, l.file)
    && (forall i :: 0 <= i < |l.engine.outputs| && l.engine.outputs[i].DecisionEvent? ==>
          l.engine.outputs[i].height == h && HasDecision(l.file))
  }

  lemma HasDecisionAppend(file: seq<WalEntry>, entry: WalEntry)
    ensures HasDecision(file + [entry]) <==> HasDecision(file) || entry.Decision?
  {
    var longer := file + [entry];
    assert longer[|file|] == entry;
    assert forall i :: 0 <= i < |file| ==> longer[i] == file[i];
  }

  lemma HandleEffectKeeps(h: nat, l: Logged, effect: Effect)
    requires Consistent(h, l)
    requires effect.Decide? ==> effect.height == h
    ensures Consistent(h, HandleEffect(l, effect))
    ensures l.file <= HandleEffect(l, effect).file
    ensures HasDecision(HandleEffect(l, effect).file) <==> HasDecision(l.file) || effect.Decide?
  {
    match effect
    case WalAppend(m) => HasDecisionAppend(l.file, ToWalEntry(m));
    case Decide(k, r, v) => HasDecisionAppend(l.file, Decision(k, v));
    case _ =>
  }

  lemma {:induction false} HandleEffectsKeep(h: nat, l: Logged, effects: seq<Effect>)
    requires Consistent(h, l) && OwnHeight(h, effects)
    ensures Consistent(h, HandleEffects(l, effects))
    ensures l.file <= HandleEffects(l, effects).file
    ensures HasDecision(HandleEffects(l, effects).file) <==> HasDecision(l.file) || Decides(effects)
    decreases |effects|
  {
    if effects != [] {
      var n := |effects| - 1;
      HandleEffectsKeep(h, l, effects[..n]);
      HandleEffectKeeps(h, HandleEffects(l, effects[..n]), effects[n]);
      assert Decides(effects) <==> Decides(effects[..n]) || effects[n].Decide?;
    }
  }

  lemma PollEngineKeeps(h: nat, l: Logged, effects: seq<Effect>)
    requires Consistent(h, l) && OwnHeight(h, effects)
    ensures var (l', event) := PollEngine(l, effects);
            && Consistent(h, l') && l.file <= l'.file
            && (HasDecision(l.file) ==> HasDecision(l'.file))
            && (event.Some? && event.value.DecisionEvent? ==> event.value.height == h && HasDecision(l'.file))
  {
    var taken := if l.engine.inputs == [] then l else l.(engine := l.engine.(inputs := l.engine.inputs[1..]));
    assert Consistent(h, taken);
    HandleEffectsKeep(h, taken, effects);
  }

  lemma {:induction false} ReplayEffectsOwnHeight(h: nat, entries: seq<WalEntry>, script: seq<seq<Effect>>)
    requires |entries| == |script|
    requires forall i :: 0 <= i < |script| ==> OwnHeight(h, script[i])
    ensures OwnHeight(h, ReplayEffects(entries, script))
    decreases |entries|
  {
    if entries != [] {
      var n := |entries| - 1;
      assert forall i :: 0 <= i < n ==> script[..n][i] == script[i];
      ReplayEffectsOwnHeight(h, entries[..n], script[..n]);
      assert OwnHeight(h, script[n]);
    }
  }

  lemma RecoverEngineKeeps(h: nat, disk: map<nat, seq<WalEntry>>, input: RecoveryInput)
    requires h in disk && h in input.script && |input.script[h]| == |disk[h]|
    requires h !in input.noWal
    requires forall i :: 0 <= i < |input.script[h]| ==> OwnHeight(h, input.script[h][i])
    requires OwnDecisions(h, disk[h])
    ensures var l := RecoverEngine(disk, input, h);
            && Consistent(h, l) && disk[h] <= l.file
            && (EngineFinalized(l.engine) <==>
                  HasDecision(disk[h]) || Decides(ReplayEffects(disk[h], input.script[h])))
  {
    var blank := FreshEngine(true);
    ReplayEffectsOwnHeight(h, disk[h], input.script[h]);
    forall e: Engine | e == blank || e == Push(blank, StartHeightCommand(h))
      ensures var l := Replay(Logged(e, disk[h]), disk[h], input.script[h]);
              Consistent(h, l) && disk[h] <= l.file &&
              (EngineFinalized(l.engine) <==>
                 HasDecision(disk[h]) || Decides(ReplayEffects(disk[h], input.script[h])))
    {
      var marked := if HasDecision(disk[h]) then MarkFinalized(e) else e;
      HandleEffectsKeep(h, Logged(marked, disk[h]), ReplayEffects(disk[h], input.script[h]));
    }
  }

  // ----- the invariant ---------------------------------------------------------------------

  /** A file with an engine mirrors it; one without lies below the kept window and would be
      classified as finalized again. */
  ghost predicate HeightOk(w: World, h: nat)
    requires h in w.disk
  {
    if h in w.engines then Consistent(h, Logged(w.engines[h], w.disk[h]))
    else
      && OwnDecisions(h, w.disk[h])
      && w.minKept.Some? && h < w.minKept.value && FileFinalized(h, w.disk[h], w.committed)
  }

  /** The top of the kept window is still tracked. */
  ghost predicate TopTracked(w: World) {
    w.minKept.Some? ==> exists k :: k in w.engines && w.minKept.value + w.depth <= k
  }

  ghost predicate Inv(w: World) {
    && w.engines.Keys <= w.disk.Keys
    && (forall h :: h in w.disk ==> HeightOk(w, h))
    && TopTracked(w)
  }

  lemma CommandKeeps(w: World, cmd: Command, walOk: bool)
    requires Inv(w) && Disciplined(w, Issue(cmd, walOk))
    ensures Inv(HandleCommand(w, cmd, walOk))
    ensures forall h :: IsHeightFinalized(w, h) ==> IsHeightFinalized(HandleCommand(w, cmd, walOk), h)
  {
    var w' := HandleCommand(w, cmd, walOk);
    if cmd.StartHeightCommand? {
      assert cmd.height !in w.disk;
      assert Consistent(cmd.height, Logged(w'.engines[cmd.height], w'.disk[cmd.height]));
    }
    assert w.engines.Keys <= w'.engines.Keys;
  }

  /** What every part of a step keeps: finality, and the two watermarks. */
  ghost predicate Preserves(w: World, w': World) {
    && w'.depth == w.depth
    && NotBelow(w.minKept, w'.minKept)
    && NotBelow(MaxActive(w), MaxActive(w'))
    && forall h :: IsHeightFinalized(w, h) ==> IsHeightFinalized(w', h)
  }

  /** Polling neither adds nor removes engines or files. */
  ghost predicate SameShape(w: World, w': World) {
    && w'.engines.Keys == w.engines.Keys && w'.disk.Keys == w.disk.Keys
    && w'.depth == w.depth && w'.minKept == w.minKept && w'.committed == w.committed
  }

  lemma SameHeights(w: World, w': World)
    requires w.engines.Keys == w'.engines.Keys
    ensures MaxActive(w) == MaxActive(w')
  {
  }

  /** Replacing one engine and its file by a consistent pair that loses no decision. */
  lemma StoredKeeps(w: World, h: nat, l: Logged, w': World)
    requires Inv(w) && h in w.engines && Consistent(h, l) && SameShape(w, w')
    requires w'.engines == w.engines[h := l.engine] && w'.disk == w.disk[h := l.file]
    requires EngineFinalized(w.engines[h]) ==> EngineFinalized(l.engine)
    ensures Inv(w') && Preserves(w, w')
  {
    forall k | k in w'.disk
      ensures HeightOk(w', k)
    {
      assert HeightOk(w, k);
    }
    SameHeights(w, w');
  }

  lemma PollKeeps(w: World, h: nat, effects: seq<Effect>)
    requires Inv(w) && h in w.engines && OwnHeight(h, effects)
    ensures Inv(Poll(w, h, effects))
    ensures SameShape(w, Poll(w, h, effects)) && Preserves(w, Poll(w, h, effects))
  {
    assert HeightOk(w, h);
    PollEngineKeeps(h, Logged(w.engines[h], w.disk[h]), effects);
    var w' := Poll(w, h, effects);
    var l := PollEngine(Logged(w.engines[h], w.disk[h]), effects).0;
    assert w'.engines == w.engines[h := l.engine] && w'.disk == w.disk[h := l.file];
    StoredKeeps(w, h, l, w');
  }

  lemma {:induction false} PollAllKeeps(w: World, order: seq<nat>, effects: map<nat, seq<Effect>>)
    requires Inv(w)
    requires forall h :: h in order ==> h in w.engines && h in effects && OwnHeight(h, effects[h])
    ensures var w' := PollAll(w, order, effects).0; Inv(w') && SameShape(w, w') && Preserves(w, w')
    decreases |order|
  {
    if order != [] {
      var n := |order| - 1;
      PollAllKeeps(w, order[..n], effects);
      PollKeeps(PollAll(w, order[..n], effects).0, order[n], effects[order[n]]);
    }
  }

  /** Pruning leaves exactly the heights of the window and keeps the highest one; of the others it
      deletes the files it can, and no other file changes. */
  lemma PruneWindow(w: World, undeleted: set<nat>)
    requires w.engines.Keys != {}
    ensures var w' := Prune(w, undeleted); var max := Max(w.engines.Keys);
            && MaxActive(w') == Some(max)
            && w'.engines.Keys == (set h | h in w.engines && max - w.depth <= h)
            && w'.disk.Keys == w.disk.Keys - (w.engines.Keys - w'.engines.Keys - undeleted)
            && (forall h: nat :: h in w'.disk ==> w'.disk[h] == w.disk[h])
            && w'.minKept == (if w.depth <= max then Some(max - w.depth) else w.minKept)
  {
    var w' := Prune(w, undeleted);
    assert Max(w.engines.Keys) in w'.engines.Keys;
  }

  lemma PruneKeeps(w: World, undeleted: set<nat>)
    requires Inv(w)
    requires forall h :: h in undeleted && h in w.disk ==> FileFinalized(h, w.disk[h], w.committed)
    ensures Inv(Prune(w, undeleted)) && Preserves(w, Prune(w, undeleted))
  {
    var w' := Prune(w, undeleted);
    if w.engines.Keys != {} && w.depth <= Max(w.engines.Keys) {
      PruneWindow(w, undeleted);
      forall h | h in w'.disk
        ensures HeightOk(w', h)
      {
        assert HeightOk(w, h);
      }
      assert Max(w.engines.Keys) in w'.engines;
    }
  }

  /** The event queue plays no part in the invariant. */
  lemma QueueIrrelevant(v: World, w: World, queue: seq<Event>)
    requires Inv(w) && Preserves(v, w)
    ensures Inv(w.(queue := queue)) && Preserves(v, w.(queue := queue))
  {
    var w' := w.(queue := queue);
    forall h | h in w'.disk
      ensures HeightOk(w', h)
    {
      assert HeightOk(w, h);
    }
    SameHeights(w, w');
    assert TopTracked(w);
  }

  lemma PreservesTransitive(u: World, v: World, w: World)
    requires Preserves(u, v) && Preserves(v, w)
    ensures Preserves(u, w)
  {
  }

  lemma NextEventKeeps(w: World, order: seq<nat>, effects: map<nat, seq<Effect>>, undeleted: set<nat>)
    requires Inv(w) && Enabled(w, PollEvents(order, effects, undeleted))
    requires Disciplined(w, PollEvents(order, effects, undeleted))
    ensures var w' := NextEvent(w, order, effects, undeleted).0; Inv(w') && Preserves(w, w')
  {
    var (polled, finished) := PollAll(w, order, effects);
    PollAllKeeps(w, order, effects);
    var pruned := polled;
    if finished {
      PruneKeeps(polled, undeleted);
      pruned := Prune(polled, undeleted);
      PreservesTransitive(w, polled, pruned);
    }
    var w' := NextEvent(w, order, effects, undeleted).0;
    assert w' == pruned.(queue := w'.queue);
    QueueIrrelevant(w, pruned, w'.queue);
  }

  /** `max_active_height`. */
  function MaxActive(w: World): Option<nat> {
    if w.engines.Keys == {} then None else Some(Max(w.engines.Keys))
  }

  lemma RecoveredTop(w: World, input: RecoveryInput)
    requires ScriptFits(w.disk, input) && w.disk.Keys != {}
    requires input.readable
    ensures Max(w.disk.Keys) in Recover(w.depth, w.disk, input).engines
    ensures MaxActive(Recover(w.depth, w.disk, input)) == Some(Max(w.disk.Keys))
  {
    var w' := Recover(w.depth, w.disk, input);
    var top := Max(w.disk.Keys);
    assert Restored(w.disk, w.depth, input, top);
    assert top in w'.engines.Keys;
    assert w'.engines.Keys <= w.disk.Keys;
  }

  lemma RecoverHeightKeeps(w: World, input: RecoveryInput, h: nat)
    requires Inv(w) && ScriptFits(w.disk, input) && FairRecovery(w.committed, w.disk, input) && h in w.disk
    ensures var w' := Recover(w.depth, w.disk, input);
            && h in w'.disk && HeightOk(w', h)
            && (IsHeightFinalized(w, h) ==> IsHeightFinalized(w', h))
  {
    RecoveredTop(w, input);
    assert HeightOk(w, h);
    RecoverEngineKeeps(h, w.disk, input);
  }

  lemma RecoverWatermarks(w: World, input: RecoveryInput)
    requires Inv(w) && ScriptFits(w.disk, input) && input.readable
    ensures var w' := Recover(w.depth, w.disk, input);
            && NotBelow(w.minKept, w'.minKept) && NotBelow(MaxActive(w), MaxActive(w')) && TopTracked(w')
            && w'.engines.Keys <= w'.disk.Keys == w.disk.Keys
  {
    if w.disk.Keys != {} {
      RecoveredTop(w, input);
    }
  }

  lemma RecoverKeeps(w: World, input: RecoveryInput)
    requires Inv(w) && ScriptFits(w.disk, input) && FairRecovery(w.committed, w.disk, input)
    ensures var w' := Recover(w.depth, w.disk, input); Inv(w') && Preserves(w, w')
  {
    var w' := Recover(w.depth, w.disk, input);
    RecoverWatermarks(w, input);
    forall h | h in w.disk
      ensures HeightOk(w', h) && (IsHeightFinalized(w, h) ==> IsHeightFinalized(w', h))
    {
      RecoverHeightKeeps(w, input, h);
    }
  }

  /** The world without the given heights and their files. */
  function Without(w: World, heights: set<nat>): World {
    w.(engines := w.engines - heights, disk := w.disk - heights)
  }

  lemma WithoutKeeps(w: World, deleted: set<nat>)
    requires Inv(w) && Prunable(w, deleted)
    ensures Inv(Without(w, deleted)) && MaxActive(Without(w, deleted)) == MaxActive(w)
    ensures forall h :: h !in deleted ==> (IsHeightFinalized(Without(w, deleted), h) <==> IsHeightFinalized(w, h))
  {
    var w' := Without(w, deleted);
    forall h | h in w'.disk
      ensures HeightOk(w', h)
    {
      assert HeightOk(w, h);
    }
    if w.engines.Keys != {} {
      assert Max(w.engines.Keys) in w'.engines.Keys;
      assert TopTracked(w');
    }
  }

  /** A crash with part of the pruned files gone loses no finality either. */
  lemma RecoverWithoutKeeps(w: World, deleted: set<nat>, input: RecoveryInput)
    requires Inv(w) && Prunable(w, deleted) && ScriptFits(w.disk - deleted, input)
    requires FairRecovery(w.committed, w.disk - deleted, input)
    ensures var w' := Recover(w.depth, w.disk - deleted, input); Inv(w') && Preserves(w, w')
  {
    var v := Without(w, deleted);
    var w' := Recover(w.depth, w.disk - deleted, input);
    WithoutKeeps(w, deleted);
    RecoverKeeps(v, input);
    forall h | h in deleted
      ensures IsHeightFinalized(w', h)
    {
      GoneIsFinal(w, deleted, input, h);
    }
  }

  lemma GoneIsFinal(w: World, deleted: set<nat>, input: RecoveryInput, h: nat)
    requires Inv(w) && Prunable(w, deleted) && ScriptFits(w.disk - deleted, input) && input.readable && h in deleted
    ensures IsHeightFinalized(Recover(w.depth, w.disk - deleted, input), h)
  {
    var disk := w.disk - deleted;
    var top := Max(w.engines.Keys);
    assert top in disk.Keys;
    assert h + w.depth < top <= Max(disk.Keys);
  }

  lemma CrashWhilePollingKeeps(w: World, order: seq<nat>, effects: map<nat, seq<Effect>>, deleted: set<nat>, input: RecoveryInput)
    requires Inv(w) && Enabled(w, CrashWhilePolling(order, effects, deleted, input))
    requires Disciplined(w, CrashWhilePolling(order, effects, deleted, input))
    ensures var w' := Next(w, CrashWhilePolling(order, effects, deleted, input)); Inv(w') && Preserves(w, w')
  {
    var polled := PollAll(w, order, effects).0;
    PollAllKeeps(w, order, effects);
    RecoverWithoutKeeps(polled, deleted, input);
    PreservesTransitive(w, polled, Recover(w.depth, polled.disk - deleted, input));
  }

  // ----- whole runs ------------------------------------------------------------------------

  function Empty(depth: nat): World {
    World(depth, map[], [], None, None, map[], None)
  }

  ghost predicate DisciplinedRun(w: World, steps: seq<Step>)
    decreases |steps|
  {
    steps != [] ==>
      Enabled(w, steps[0]) && Disciplined(w, steps[0]) && DisciplinedRun(Next(w, steps[0]), steps[1..])
  }

  ghost function After(w: World, steps: seq<Step>): World
    requires DisciplinedRun(w, steps)
    decreases |steps|
  {
    if steps == [] then w else After(Next(w, steps[0]), steps[1..])
  }

  lemma StepKeeps(w: World, step: Step)
    requires Inv(w) && Enabled(w, step) && Disciplined(w, step)
    ensures Inv(Next(w, step)) && Preserves(w, Next(w, step))
  {
    match step
    case Issue(cmd, walOk) =>
      CommandKeeps(w, cmd, walOk);
      assert w.engines.Keys <= Next(w, step).engines.Keys;
    case PollEvents(order, effects, undeleted) => NextEventKeeps(w, order, effects, undeleted);
    case CrashAndRecover(input) => RecoverKeeps(w, input);
    case CrashWhilePolling(order, effects, deleted, input) => CrashWhilePollingKeeps(w, order, effects, deleted, input);
  }

  /** Finality is stable, and neither the highest tracked height nor the lower end of the kept
      window ever moves back, along every run of commands, polls, prunings and crash recoveries. */
  lemma {:induction false} FinalityStable(w: World, steps: seq<Step>)
    requires Inv(w) && DisciplinedRun(w, steps)
    ensures Inv(After(w, steps)) && Preserves(w, After(w, steps))
    decreases |steps|
  {
    if steps != [] {
      StepKeeps(w, steps[0]);
      FinalityStable(Next(w, steps[0]), steps[1..]);
    }
  }

  /** Without the discipline on `StartHeight`: issuing it keeps every answer of
      `is_height_finalized` exactly when the height itself was not finalized yet. */
  lemma RestartLosesFinalityExactly(w: World, h: nat, walOk: bool)
    ensures (forall k :: IsHeightFinalized(w, k) ==>
               IsHeightFinalized(HandleCommand(w, StartHeightCommand(h), walOk), k))
            <==> !IsHeightFinalized(w, h)
  {
    var w' := HandleCommand(w, StartHeightCommand(h), walOk);
    assert !IsHeightFinalized(w', h);
    assert forall k :: k != h ==> IsHeightFinalized(w, k) == IsHeightFinalized(w', k);
  }

  lemma {:induction false} EffectsSink(l: Logged, effects: seq<Effect>)
    ensures HandleEffects(l, effects).engine.sink ==
            match l.engine.sink
            case NoopSink => NoopSink
            case FileSink(d) => FileSink(d || Decides(effects))
    decreases |effects|
  {
    if effects != [] {
      var n := |effects| - 1;
      EffectsSink(l, effects[..n]);
      assert Decides(effects) <==> Decides(effects[..n]) || effects[n].Decide?;
    }
  }

  /** An engine that recovery rebuilds answers yes exactly when it has a WAL and its file held a
      decision or the replay decides. */
  lemma RebuiltFinalized(disk: map<nat, seq<WalEntry>>, input: RecoveryInput, h: nat)
    requires h in disk && h in input.script && |input.script[h]| == |disk[h]|
    ensures EngineFinalized(RecoverEngine(disk, input, h).engine) <==>
            h !in input.noWal && (HasDecision(disk[h]) || Decides(ReplayEffects(disk[h], input.script[h])))
  {
    var blank := FreshEngine(h !in input.noWal);
    forall e: Engine | e == blank || e == Push(blank, StartHeightCommand(h))
      ensures EngineFinalized(Replay(Logged(e, disk[h]), disk[h], input.script[h]).engine) <==>
              h !in input.noWal && (HasDecision(disk[h]) || Decides(ReplayEffects(disk[h], input.script[h])))
    {
      var marked := if HasDecision(disk[h]) then MarkFinalized(e) else e;
      EffectsSink(Logged(marked, disk[h]), ReplayEffects(disk[h], input.script[h]));
    }
  }

  /** Which heights a recovery reports as finalized, from the files and the recovery's luck alone. */
  predicate FinalAfterRecovery(depth: nat, disk: map<nat, seq<WalEntry>>, input: RecoveryInput, h: nat)
    requires ScriptFits(disk, input)
  {
    && input.readable
    && if h in disk && Restored(disk, depth, input, h)
       then h !in input.noWal && (HasDecision(disk[h]) || Decides(ReplayEffects(disk[h], input.script[h])))
       else MinToRestore(disk, depth).Some? && h < MinToRestore(disk, depth).value
  }

  lemma RecoveredFinalityExactly(depth: nat, disk: map<nat, seq<WalEntry>>, input: RecoveryInput, h: nat)
    requires ScriptFits(disk, input)
    ensures IsHeightFinalized(Recover(depth, disk, input), h) <==> FinalAfterRecovery(depth, disk, input, h)
  {
    if h in disk {
      RebuiltFinalized(disk, input, h);
    }
  }

  /** Whatever the manager tracks, the files hold, and whichever cannot be read or reopened: a recovery
      keeps every answer exactly when nothing was finalized, or all files are readable, each finalized
      height that is rebuilt gets its WAL back and holds a decision or decides in its replay, and each
      finalized height that is not rebuilt lies below the window of the highest file. */
  lemma RecoveryKeepsFinalityExactly(w: World, input: RecoveryInput)
    requires ScriptFits(w.disk, input)
    ensures (forall h: nat :: IsHeightFinalized(w, h) ==> IsHeightFinalized(Recover(w.depth, w.disk, input), h))
            <==>
            if !input.readable then forall h: nat :: !IsHeightFinalized(w, h)
            else
              && (forall h: nat :: h in w.disk && IsHeightFinalized(w, h) && Restored(w.disk, w.depth, input, h) ==>
                    h !in input.noWal && (HasDecision(w.disk[h]) || Decides(ReplayEffects(w.disk[h], input.script[h]))))
              && (forall h: nat :: IsHeightFinalized(w, h) && !(h in w.disk && Restored(w.disk, w.depth, input, h)) ==>
                    MinToRestore(w.disk, w.depth).Some? && h < MinToRestore(w.disk, w.depth).value)
  {
    forall h: nat
      ensures IsHeightFinalized(Recover(w.depth, w.disk, input), h) <==> FinalAfterRecovery(w.depth, w.disk, input, h)
    {
      RecoveredFinalityExactly(w.depth, w.disk, input, h);
    }
  }

  /** When every tracked height has its file, the second half holds by itself. */
  lemma BelowWindowAgain(w: World, input: RecoveryInput, h: nat)
    requires w.engines.Keys <= w.disk.Keys && TopTracked(w) && ScriptFits(w.disk, input)
    requires IsHeightFinalized(w, h) && !(h in w.disk && Restored(w.disk, w.depth, input, h))
    ensures MinToRestore(w.disk, w.depth).Some? && h < MinToRestore(w.disk, w.depth).value
  {
  }

  lemma LoggedRecoveryKeepsFinalityExactly(w: World, input: RecoveryInput)
    requires w.engines.Keys <= w.disk.Keys && TopTracked(w) && ScriptFits(w.disk, input)
    ensures (forall h: nat :: IsHeightFinalized(w, h) ==> IsHeightFinalized(Recover(w.depth, w.disk, input), h))
            <==>
            if !input.readable then forall h: nat :: !IsHeightFinalized(w, h)
            else forall h: nat :: h in w.disk && IsHeightFinalized(w, h) && Restored(w.disk, w.depth, input, h) ==>
                   h !in input.noWal && (HasDecision(w.disk[h]) || Decides(ReplayEffects(w.disk[h], input.script[h])))
  {
    RecoveryKeepsFinalityExactly(w, input);
    forall h: nat | IsHeightFinalized(w, h) && !(h in w.disk && Restored(w.disk, w.depth, input, h))
      ensures MinToRestore(w.disk, w.depth).Some? && h < MinToRestore(w.disk, w.depth).value
    {
      BelowWindowAgain(w, input, h);
    }
  }

  lemma DecideLogs(l: Logged, h: nat)
    requires l.engine.sink.FileSink? && l.engine.outputs == []
    ensures var (l', event) := PollEngine(l, [Decide(h, 0, 1)]);
            && l'.file == l.file + [Decision(h, 1)] && l'.engine.sink.FileSink?
            && event == Some(DecisionEvent(h, 0, 1))
  {
    assert [Decide(h, 0, 1)][..0] == [];
    var taken := if l.engine.inputs == [] then l else l.(engine := l.engine.(inputs := l.engine.inputs[1..]));
    assert HandleEffects(taken, []) == taken;
    assert HandleEffects(taken, [Decide(h, 0, 1)]) == HandleEffect(taken, Decide(h, 0, 1));
  }

  /** Heights 5 and 6 are started. */
  function Started(): World {
    HandleCommand(HandleCommand(Empty(0), StartHeightCommand(5), true), StartHeightCommand(6), true)
  }

  function SixDecides(): map<nat, seq<Effect>> {
    map[5 := [], 6 := [Decide(6, 0, 1)]]
  }

  /** No history is kept, so the poll in which 6 decides prunes 5; deleting its empty file fails. */
  function LeftoverRun(): World {
    NextEvent(Started(), [5, 6], SixDecides(), {5}).0
  }

  lemma FirstPolled(w: World)
    requires w == Started()
    ensures var (w', finished) := PollAll(w, [5], SixDecides());
            && w'.depth == 0 && w'.engines.Keys == {5, 6} && w'.disk.Keys == {5, 6}
            && w'.disk[5] == [] && w'.disk[6] == [] && w'.engines[6] == w.engines[6]
  {
    assert [5][..0] == [];
    assert PollAll(w, [], SixDecides()) == (w, false);
  }

  lemma SecondPolled(w: World)
    requires w == Started()
    ensures var (w', finished) := PollAll(w, [5, 6], SixDecides());
            && finished && w'.depth == 0 && w'.engines.Keys == {5, 6} && w'.disk.Keys == {5, 6}
            && w'.disk[5] == [] && w'.disk[6] == [] + [Decision(6, 1)]
  {
    FirstPolled(w);
    assert [5, 6][..1] == [5];
    var first := PollAll(w, [5], SixDecides()).0;
    DecideLogs(Logged(first.engines[6], first.disk[6]), 6);
  }

  lemma LeftoverRunIs()
    ensures LeftoverRun().minKept == Some(6) && LeftoverRun().engines.Keys == {6}
    ensures LeftoverRun().disk.Keys == {5, 6} && LeftoverRun().disk[5] == [] && |LeftoverRun().disk[6]| == 1
  {
    SecondPolled(Started());
    var polled := PollAll(Started(), [5, 6], SixDecides()).0;
    assert Max(polled.engines.Keys) == 6;
  }

  /** The pruned height counts as final, and after a restart no longer does. */
  lemma LeftoverFileLosesFinality(input: RecoveryInput)
    requires input == RecoveryInput(true, None, {}, map[5 := [], 6 := [[]]])
    ensures IsHeightFinalized(LeftoverRun(), 5)
    ensures ScriptFits(LeftoverRun().disk, input) && !IsHeightFinalized(Recover(0, LeftoverRun().disk, input), 5)
  {
    LeftoverRunIs();
    RecoveredFinalityExactly(0, LeftoverRun().disk, input, 5);
  }

  /** Height 10 is started above 5, but its WAL cannot be created. */
  function StartedUnlogged(): World {
    HandleCommand(HandleCommand(Empty(0), StartHeightCommand(5), true), StartHeightCommand(10), false)
  }

  function FiveDecides(): map<nat, seq<Effect>> {
    map[5 := [Decide(5, 0, 1)], 10 := []]
  }

  /** The poll in which 5 decides prunes it, file and all; nothing is left on disk. */
  function UnloggedRun(): World {
    NextEvent(StartedUnlogged(), [5, 10], FiveDecides(), {}).0
  }

  lemma FivePolled(w: World)
    requires w == StartedUnlogged()
    ensures var (w', finished) := PollAll(w, [5], FiveDecides());
            finished && w'.depth == 0 && w'.engines.Keys == {5, 10} && w'.disk.Keys == {5} && w'.engines[10] == w.engines[10]
  {
    assert [5][..0] == [];
    assert PollAll(w, [], FiveDecides()) == (w, false);
    DecideLogs(Logged(w.engines[5], w.disk[5]), 5);
  }

  lemma TenPolled(w: World)
    requires w == StartedUnlogged()
    ensures var (w', finished) := PollAll(w, [5, 10], FiveDecides());
            finished && w'.depth == 0 && w'.engines.Keys == {5, 10} && w'.disk.Keys == {5}
  {
    FivePolled(w);
    assert [5, 10][..1] == [5];
    var first := PollAll(w, [5], FiveDecides()).0;
    EffectsSink(Logged(first.engines[10], []), []);
  }

  lemma UnloggedRunIs()
    ensures UnloggedRun().minKept == Some(10) && UnloggedRun().engines.Keys == {10} && UnloggedRun().disk.Keys == {}
  {
    TenPolled(StartedUnlogged());
    var polled := PollAll(StartedUnlogged(), [5, 10], FiveDecides()).0;
    assert Max(polled.engines.Keys) == 10;
  }

  /** The decided height counts as final, and after a restart with everything readable no longer does:
      the window hung on a height that left no file. */
  lemma UnloggedTopLosesFinality(input: RecoveryInput)
    requires input == RecoveryInput(true, None, {}, map[])
    ensures IsHeightFinalized(UnloggedRun(), 5)
    ensures ScriptFits(UnloggedRun().disk, input) && !IsHeightFinalized(Recover(0, UnloggedRun().disk, input), 5)
  {
    UnloggedRunIs();
    RecoveredFinalityExactly(0, UnloggedRun().disk, input, 5);
  }

  // ----- decisions survive -----------------------------------------------------------------

  /** The last decided height is still on disk, and no file is further than `depth` above it;
      before the first decision all heights fit into one window. */
  ghost predicate DecisionsKept(w: World) {
    match w.lastDecided
    case Some(last) => last in w.disk && HasDecision(w.disk[last]) && forall h :: h in w.disk ==> h <= last + w.depth
    case None => forall h, k :: h in w.disk && k in w.disk ==> h <= k + w.depth
  }

  /** Heights are started at most `depth` past the last decided one. */
  ghost predicate StartsInWindow(w: World, step: Step) {
    step.Issue? && step.cmd.StartHeightCommand? ==>
      match w.lastDecided
      case Some(last) => step.cmd.height <= last + w.depth
      case None => forall k :: k in w.engines ==> step.cmd.height <= k + w.depth && k <= step.cmd.height + w.depth
  }

  /** In particular: one past the last decided height, or a single first height. */
  lemma OnePastIsInWindow(w: World, h: nat, walOk: bool)
    requires w.depth >= 1
    requires if w.lastDecided.Some? then h <= w.lastDecided.value + 1 else w.engines == map[]
    ensures StartsInWindow(w, Issue(StartHeightCommand(h), walOk))
  {
  }

  lemma PollKeepsDecisions(w: World, h: nat, effects: seq<Effect>)
    requires Inv(w) && DecisionsKept(w) && h in w.engines && OwnHeight(h, effects)
    ensures var w' := Poll(w, h, effects);
            && DecisionsKept(w') && NotBelow(w.lastDecided, w'.lastDecided)
            && (PollDecides(w, h, effects) ==> w'.lastDecided.Some?)
  {
    assert HeightOk(w, h);
    PollKeeps(w, h, effects);
    PollEngineKeeps(h, Logged(w.engines[h], w.disk[h]), effects);
    var w' := Poll(w, h, effects);
    var l := PollEngine(Logged(w.engines[h], w.disk[h]), effects).0;
    assert w'.disk == w.disk[h := l.file];
  }

  lemma {:induction false} PollAllKeepsDecisions(w: World, order: seq<nat>, effects: map<nat, seq<Effect>>)
    requires Inv(w) && DecisionsKept(w)
    requires forall h :: h in order ==> h in w.engines && h in effects && OwnHeight(h, effects[h])
    ensures var (w', finished) := PollAll(w, order, effects);
            && DecisionsKept(w') && NotBelow(w.lastDecided, w'.lastDecided)
            && (finished ==> w'.lastDecided.Some?)
    decreases |order|
  {
    if order != [] {
      var n := |order| - 1;
      PollAllKeeps(w, order[..n], effects);
      PollAllKeepsDecisions(w, order[..n], effects);
      PollKeepsDecisions(PollAll(w, order[..n], effects).0, order[n], effects[order[n]]);
    }
  }

  lemma PruneKeepsDecisions(w: World, undeleted: set<nat>)
    requires Inv(w) && DecisionsKept(w) && w.lastDecided.Some?
    ensures DecisionsKept(Prune(w, undeleted))
    ensures Prune(w, undeleted).lastDecided == w.lastDecided
  {
    if w.engines.Keys != {} {
      assert Max(w.engines.Keys) in w.disk;
    }
  }

  lemma HighestDecisionOnDisk(disk: map<nat, seq<WalEntry>>)
    requires forall h :: h in disk ==> OwnDecisions(h, disk[h])
    ensures match HighestDecision(disk)
            case Some(m) => m in disk && HasDecision(disk[m]) && forall h :: h in disk && HasDecision(disk[h]) ==> h <= m
            case None => forall h :: h in disk ==> !HasDecision(disk[h])
  {
    var heights := DecisionHeights(disk);
    forall h | h in disk && HasDecision(disk[h])
      ensures h in heights
    {
      var i :| 0 <= i < |disk[h]| && disk[h][i].Decision?;
      assert disk[h][i].height == h;
    }
    if heights != {} {
      var m := Max(heights);
      var h, i :| h in disk && 0 <= i < |disk[h]| && disk[h][i].Decision? && disk[h][i].height == m;
      assert OwnDecisions(h, disk[h]);
    }
  }

  lemma RecoverKeepsDecisions(w: World, input: RecoveryInput)
    requires Inv(w) && DecisionsKept(w)
    requires ScriptFits(w.disk, input) && FairRecovery(w.committed, w.disk, input)
    ensures var w' := Recover(w.depth, w.disk, input);
            DecisionsKept(w') && NotBelow(w.lastDecided, w'.lastDecided)
  {
    var w' := Recover(w.depth, w.disk, input);
    forall h | h in w.disk
      ensures OwnDecisions(h, w.disk[h]) && (HasDecision(w.disk[h]) ==> HasDecision(w'.disk[h]))
    {
      assert HeightOk(w, h);
      RecoverEngineKeeps(h, w.disk, input);
    }
    HighestDecisionOnDisk(w.disk);
    assert w'.disk.Keys == w.disk.Keys;
  }

  lemma CommandKeepsDecisions(w: World, cmd: Command, walOk: bool)
    requires Inv(w) && DecisionsKept(w)
    requires Disciplined(w, Issue(cmd, walOk)) && StartsInWindow(w, Issue(cmd, walOk))
    ensures var w' := HandleCommand(w, cmd, walOk); DecisionsKept(w') && w'.lastDecided == w.lastDecided
  {
    if w.lastDecided.None? {
      forall h | h in w.disk
        ensures h in w.engines
      {
        assert HeightOk(w, h);
      }
    }
  }

  lemma NextEventKeepsDecisions(w: World, order: seq<nat>, effects: map<nat, seq<Effect>>, undeleted: set<nat>)
    requires Inv(w) && DecisionsKept(w)
    requires Enabled(w, PollEvents(order, effects, undeleted)) && Disciplined(w, PollEvents(order, effects, undeleted))
    ensures var w' := NextEvent(w, order, effects, undeleted).0;
            DecisionsKept(w') && NotBelow(w.lastDecided, w'.lastDecided)
  {
    PollAllKeeps(w, order, effects);
    PollAllKeepsDecisions(w, order, effects);
    var (polled, finished) := PollAll(w, order, effects);
    if finished {
      PruneKeepsDecisions(polled, undeleted);
    }
    var pruned := if finished then Prune(polled, undeleted) else polled;
    var w' := NextEvent(w, order, effects, undeleted).0;
    assert w' == pruned.(queue := w'.queue);
  }

  lemma WithoutKeepsDecisions(w: World, deleted: set<nat>)
    requires Inv(w) && DecisionsKept(w) && Prunable(w, deleted)
    ensures DecisionsKept(Without(w, deleted))
  {
    if deleted != {} {
      assert w.engines.Keys != {} by {
        var h :| h in deleted;
        assert h in w.engines.Keys;
      }
      assert Max(w.engines.Keys) in w.disk;
    }
  }

  lemma CrashWhilePollingKeepsDecisions(w: World, order: seq<nat>, effects: map<nat, seq<Effect>>, deleted: set<nat>, input: RecoveryInput)
    requires Inv(w) && DecisionsKept(w)
    requires Enabled(w, CrashWhilePolling(order, effects, deleted, input))
    requires Disciplined(w, CrashWhilePolling(order, effects, deleted, input))
    ensures var w' := Next(w, CrashWhilePolling(order, effects, deleted, input));
            DecisionsKept(w') && NotBelow(w.lastDecided, w'.lastDecided)
  {
    var polled := PollAll(w, order, effects).0;
    PollAllKeeps(w, order, effects);
    PollAllKeepsDecisions(w, order, effects);
    WithoutKeeps(polled, deleted);
    WithoutKeepsDecisions(polled, deleted);
    RecoverKeepsDecisions(Without(polled, deleted), input);
  }

  lemma StepKeepsDecisions(w: World, step: Step)
    requires Inv(w) && DecisionsKept(w)
    requires Enabled(w, step) && Disciplined(w, step) && StartsInWindow(w, step)
    ensures DecisionsKept(Next(w, step)) && NotBelow(w.lastDecided, Next(w, step).lastDecided)
  {
    match step
    case Issue(cmd, walOk) => CommandKeepsDecisions(w, cmd, walOk);
    case PollEvents(order, effects, undeleted) => NextEventKeepsDecisions(w, order, effects, undeleted);
    case CrashAndRecover(input) => RecoverKeepsDecisions(w, input);
    case CrashWhilePolling(order, effects, deleted, input) => CrashWhilePollingKeepsDecisions(w, order, effects, deleted, input);
  }

  ghost predicate RunInWindow(w: World, steps: seq<Step>)
    requires DisciplinedRun(w, steps)
    decreases |steps|
  {
    steps != [] ==> StartsInWindow(w, steps[0]) && RunInWindow(Next(w, steps[0]), steps[1..])
  }

  /** Recovery loses no decision: along every run whose heights are started inside the window, the
      last decided height never goes down, whatever happens between crashes. */
  lemma {:induction false} DecisionsNeverLost(w: World, steps: seq<Step>)
    requires Inv(w) && DecisionsKept(w)
    requires DisciplinedRun(w, steps) && RunInWindow(w, steps)
    ensures DecisionsKept(After(w, steps))
    ensures NotBelow(w.lastDecided, After(w, steps).lastDecided)
    decreases |steps|
  {
    if steps != [] {
      StepKeeps(w, steps[0]);
      StepKeepsDecisions(w, steps[0]);
      DecisionsNeverLost(Next(w, steps[0]), steps[1..]);
    }
  }

  lemma {:induction false} RunSplit(w: World, a: seq<Step>, b: seq<Step>)
    requires DisciplinedRun(w, a + b)
    ensures DisciplinedRun(w, a) && DisciplinedRun(After(w, a), b) && After(w, a + b) == After(After(w, a), b)
    decreases |a|
  {
    if a == [] {
      assert a + b == b;
    } else {
      assert (a + b)[1..] == a[1..] + b;
      RunSplit(Next(w, a[0]), a[1..], b);
    }
  }

  lemma {:induction false} WindowSplit(w: World, a: seq<Step>, b: seq<Step>)
    requires DisciplinedRun(w, a + b) && RunInWindow(w, a + b)
    ensures DisciplinedRun(w, a) && RunInWindow(w, a)
    ensures DisciplinedRun(After(w, a), b) && RunInWindow(After(w, a), b)
    decreases |a|
  {
    RunSplit(w, a, b);
    if a == [] {
      assert a + b == b;
    } else {
      assert (a + b)[1..] == a[1..] + b;
      WindowSplit(Next(w, a[0]), a[1..], b);
    }
  }

  /** From a fresh start: what is final at any point of a run is final at every later point. */
  lemma FinalityStableFromStart(depth: nat, earlier: seq<Step>, later: seq<Step>)
    requires DisciplinedRun(Empty(depth), earlier + later)
    ensures DisciplinedRun(Empty(depth), earlier)
    ensures Inv(After(Empty(depth), earlier + later))
    ensures Preserves(After(Empty(depth), earlier), After(Empty(depth), earlier + later))
  {
    RunSplit(Empty(depth), earlier, later);
    FinalityStable(Empty(depth), earlier);
    FinalityStable(After(Empty(depth), earlier), later);
  }

  /** From a fresh start: the last decided height at any point is not above the one at a later point,
      and its decision is on disk then. */
  lemma DecisionsNeverLostFromStart(depth: nat, earlier: seq<Step>, later: seq<Step>)
    requires DisciplinedRun(Empty(depth), earlier + later) && RunInWindow(Empty(depth), earlier + later)
    ensures DisciplinedRun(Empty(depth), earlier)
    ensures NotBelow(After(Empty(depth), earlier).lastDecided, After(Empty(depth), earlier + later).lastDecided)
    ensures var w := After(Empty(depth), earlier + later);
            w.lastDecided.Some? ==> w.lastDecided.value in w.disk && HasDecision(w.disk[w.lastDecided.value])
  {
    RunSplit(Empty(depth), earlier, later);
    WindowSplit(Empty(depth), earlier, later);
    FinalityStable(Empty(depth), earlier);
    DecisionsNeverLost(Empty(depth), earlier);
    DecisionsNeverLost(After(Empty(depth), earlier), later);
  }
}
