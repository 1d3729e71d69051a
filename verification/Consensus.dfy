/**
 The height manager of the consensus engine, its write-ahead log (WAL) and crash recovery.

 One engine runs per height.  Everything the Malachite core does to the manager is a list of
 effects, chosen freely by the environment.  The WAL directory of one validator is a map from
 height to the entries of that height's file; it is the only thing that survives a crash.
 */
module Consensus {
  import opened Common

  // ----- entries, commands, events ---------------------------------------------------------

  datatype WalEntry =
    | SignedProposal
    | SignedVote(round: Option<nat>)
    | Timeout
    | ProposedValue
    | Decision(height: nat, value: nat)

  /** What Malachite asks to be logged; it has no decision constructor. */
  datatype LogMessage = ProposalMessage | VoteMessage(round: Option<nat>) | TimeoutMessage | ProposedValueMessage

  datatype Effect =
    | WalAppend(msg: LogMessage)
    | Decide(height: nat, round: nat, value: nat)
    | Publish
    | GetValue(height: nat, round: nat)
    | ProcessError

  datatype Command =
    | StartHeightCommand(height: nat)
    | Propose(height: nat)
    | Proposal(height: nat)
    | Vote(height: nat)

  datatype Event =
    | Gossip
    | RequestProposal(height: nat, round: nat)
    | DecisionEvent(height: nat, round: nat, value: nat)
    | ErrorEvent

  datatype Sink = FileSink(hasDecision: bool) | NoopSink

  datatype Engine = Engine(inputs: seq<Command>, outputs: seq<Event>, sink: Sink)

  /** An engine together with the contents of the file behind its sink. */
  datatype Logged = Logged(engine: Engine, file: seq<WalEntry>)

  function ToWalEntry(m: LogMessage): (e: WalEntry) {
    match m
    case ProposalMessage => SignedProposal
    case VoteMessage(r) => SignedVote(r)
    case TimeoutMessage => Timeout
    case ProposedValueMessage => ProposedValue
  }

  predicate HasDecision(file: seq<WalEntry>) {
    exists i :: 0 <= i < |file| && file[i].Decision?
  }

  // ----- one engine ------------------------------------------------------------------------

  /** `WalSink::append`: the no-op sink neither stores the entry nor notices a decision. */
  function Append(l: Logged, entry: WalEntry): Logged {
    match l.engine.sink
    case NoopSink => l
    case FileSink(d) => Logged(l.engine.(sink := FileSink(d || entry.Decision?)), l.file + [entry])
  }

  function Emit(l: Logged, event: Event): Logged {
    l.(engine := l.engine.(outputs := l.engine.outputs + [event]))
  }

  function HandleEffect(l: Logged, effect: Effect): Logged {
    match effect
    case WalAppend(m) => Append(l, ToWalEntry(m))
    case Decide(h, r, v) => Append(Emit(l, DecisionEvent(h, r, v)), Decision(h, v))
    case Publish => Emit(l, Gossip)
    case GetValue(h, r) => Emit(l, RequestProposal(h, r))
    case ProcessError => Emit(l, ErrorEvent)
  }

  function HandleEffects(l: Logged, effects: seq<Effect>): Logged
    decreases |effects|
  {
    if effects == [] then l
    else HandleEffect(HandleEffects(l, effects[..|effects| - 1]), effects[|effects| - 1])
  }

  /** `poll_internal`: take one command if there is one, apply its effects (and those of due
      timeouts), hand out the oldest output. */
  function PollEngine(l: Logged, effects: seq<Effect>): (Logged, Option<Event>) {
    var taken := if l.engine.inputs == [] then l else l.(engine := l.engine.(inputs := l.engine.inputs[1..]));
    var done := HandleEffects(taken, effects);
    if done.engine.outputs == [] then (done, None)
    else (done.(engine := done.engine.(outputs := done.engine.outputs[1..])), Some(done.engine.outputs[0]))
  }

  function MarkFinalized(e: Engine): Engine {
    if e.sink.FileSink? then e.(sink := FileSink(true)) else e
  }

  /** All the effects of replaying `entries`, decisions being skipped as mere markers. */
  function ReplayEffects(entries: seq<WalEntry>, script: seq<seq<Effect>>): seq<Effect>
    requires |entries| == |script|
    decreases |entries|
  {
    if entries == [] then []
    else
      var n := |entries| - 1;
      ReplayEffects(entries[..n], script[..n]) + if entries[n].Decision? then [] else script[n]
  }

  function Replay(l: Logged, entries: seq<WalEntry>, script: seq<seq<Effect>>): Logged
    requires |entries| == |script|
  {
    var marked := if HasDecision(entries) then l.(engine := MarkFinalized(l.engine)) else l;
    HandleEffects(marked, ReplayEffects(entries, script))
  }

  predicate EngineFinalized(e: Engine) {
    e.sink.FileSink? && e.sink.hasDecision
  }

  // ----- the manager -----------------------------------------------------------------------

  datatype World = World(
    depth: nat,                          // history_depth
    engines: map<nat, Engine>,
    queue: seq<Event>,
    minKept: Option<nat>,
    lastDecided: Option<nat>,
    disk: map<nat, seq<WalEntry>>,
    committed: Option<nat>               // highest committed block seen by the latest recovery
  )

  function FileAt(disk: map<nat, seq<WalEntry>>, h: nat): seq<WalEntry> {
    if h in disk then disk[h] else []
  }

  function FreshEngine(walOk: bool): Engine {
    Engine([], [], if walOk then FileSink(false) else NoopSink)
  }

  /** Opening a sink creates the file when it is missing and keeps an existing one. */
  function OpenFile(disk: map<nat, seq<WalEntry>>, h: nat, walOk: bool): map<nat, seq<WalEntry>> {
    if walOk && h !in disk then disk[h := []] else disk
  }

  function Push(e: Engine, cmd: Command): Engine {
    e.(inputs := e.inputs + [cmd])
  }

  /** `handle_command`, both arms. */
  function HandleCommand(w: World, cmd: Command, walOk: bool): World {
    match cmd
    case StartHeightCommand(h) =>
      w.(disk := OpenFile(w.disk, h, walOk), engines := w.engines[h := Push(FreshEngine(walOk), cmd)])
    case _ =>
      if cmd.height in w.engines
      then w.(engines := w.engines[cmd.height := Push(w.engines[cmd.height], cmd)])
      else w
  }

  function Store(w: World, h: nat, l: Logged): World {
    w.(engines := w.engines[h := l.engine],
       disk := if l.engine.sink.FileSink? then w.disk[h := l.file] else w.disk)
  }

  function HigherOf(a: Option<nat>, h: nat): Option<nat> {
    if a.Some? && h <= a.value then a else Some(h)
  }

  function Poll(w: World, h: nat, effects: seq<Effect>): World
    requires h in w.engines
  {
    var (l, event) := PollEngine(Logged(w.engines[h], FileAt(w.disk, h)), effects);
    var w' := Store(w, h, l);
    if event.None? then w'
    else w'.(queue := w'.queue + [event.value],
             lastDecided := if event.value.DecisionEvent? then HigherOf(w.lastDecided, event.value.height)
                            else w.lastDecided)
  }

  predicate PollDecides(w: World, h: nat, effects: seq<Effect>)
    requires h in w.engines
  {
    var event := PollEngine(Logged(w.engines[h], FileAt(w.disk, h)), effects).1;
    event.Some? && event.value.DecisionEvent?
  }

  /** Poll the engines in the order the hash map yields them. */
  function PollAll(w: World, order: seq<nat>, effects: map<nat, seq<Effect>>): (r: (World, bool))
    requires forall h :: h in order ==> h in w.engines && h in effects
    ensures r.0.engines.Keys == w.engines.Keys
    decreases |order|
  {
    if order == [] then (w, false)
    else
      var n := |order| - 1;
      var (w1, finished) := PollAll(w, order[..n], effects);
      (Poll(w1, order[n], effects[order[n]]), finished || PollDecides(w1, order[n], effects[order[n]]))
  }

  /** `prune_old_engines`; `undeleted` are the heights whose file could not be removed. */
  function Prune(w: World, undeleted: set<nat>): World {
    if w.engines.Keys == {} then w
    else
      match CheckedSub(Max(w.engines.Keys), w.depth)
      case None => w
      case Some(newMin) =>
        w.(minKept := Some(newMin),
           engines := map h | h in w.engines && newMin <= h :: w.engines[h],
           disk := map h | h in w.disk && !(h in w.engines && h < newMin && h !in undeleted) :: w.disk[h])
  }

  /** `next_event`. */
  function NextEvent(w: World, order: seq<nat>, effects: map<nat, seq<Effect>>, undeleted: set<nat>): (World, Option<Event>)
    requires forall h :: h in order ==> h in w.engines && h in effects
  {
    var (polled, finished) := PollAll(w, order, effects);
    var w' := if finished then Prune(polled, undeleted) else polled;
    if w'.queue == [] then (w', None) else (w'.(queue := w'.queue[1..]), Some(w'.queue[0]))
  }

  predicate IsHeightFinalized(w: World, h: nat) {
    if h in w.engines then EngineFinalized(w.engines[h])
    else w.minKept.Some? && h < w.minKept.value
  }

  // ----- recovery --------------------------------------------------------------------------

  /** The classification of one file by `recover_incomplete_heights`: note that an empty file is
      incomplete even at or below the highest committed block. */
  predicate FileFinalized(h: nat, file: seq<WalEntry>, committed: Option<nat>) {
    exists i :: 0 <= i < |file| && (file[i].Decision? || (committed.Some? && h <= committed.value))
  }

  function DecisionHeights(disk: map<nat, seq<WalEntry>>): set<nat> {
    set h, i | h in disk && 0 <= i < |disk[h]| && disk[h][i].Decision? :: disk[h][i].height
  }

  /** The highest height named by a decision entry of any file. */
  function HighestDecision(disk: map<nat, seq<WalEntry>>): Option<nat> {
    if DecisionHeights(disk) == {} then None else Some(Max(DecisionHeights(disk)))
  }

  /** What the outside world supplies to a recovery: whether every file could be read, the highest
      committed block, the heights whose sink could not be opened, and what replay does. */
  datatype RecoveryInput = RecoveryInput(
    readable: bool,
    committed: Option<nat>,
    noWal: set<nat>,
    script: map<nat, seq<seq<Effect>>>)

  ghost predicate ScriptFits(disk: map<nat, seq<WalEntry>>, input: RecoveryInput) {
    forall h :: h in disk ==> h in input.script && |input.script[h]| == |disk[h]|
  }

  function MinToRestore(disk: map<nat, seq<WalEntry>>, depth: nat): Option<nat> {
    if disk.Keys == {} then None else CheckedSub(Max(disk.Keys), depth)
  }

  predicate Restored(disk: map<nat, seq<WalEntry>>, depth: nat, input: RecoveryInput, h: nat)
    requires h in disk
  {
    !FileFinalized(h, disk[h], input.committed)
    || (var min := MinToRestore(disk, depth); min.Some? ==> min.value <= h)
  }

  function RecoverEngine(disk: map<nat, seq<WalEntry>>, input: RecoveryInput, h: nat): Logged
    requires h in disk && h in input.script && |input.script[h]| == |disk[h]|
  {
    var start := StartHeightCommand(h);
    var blank := FreshEngine(h !in input.noWal);
    if FileFinalized(h, disk[h], input.committed) then
      var l := Replay(Logged(blank, disk[h]), disk[h], input.script[h]);
      if !EngineFinalized(l.engine) || h == Max(disk.Keys) then l.(engine := Push(l.engine, start)) else l
    else
      Replay(Logged(Push(blank, start), disk[h]), disk[h], input.script[h])
  }

  /** `recover_inner`: one unreadable file empties the whole recovery. */
  function Recover(depth: nat, disk: map<nat, seq<WalEntry>>, input: RecoveryInput): World
    requires ScriptFits(disk, input)
  {
    if !input.readable then World(depth, map[], [], None, None, disk, input.committed)
    else World(depth,
               map h | h in disk && Restored(disk, depth, input, h) :: RecoverEngine(disk, input, h).engine,
               [], MinToRestore(disk, depth), HighestDecision(disk),
               map h | h in disk ::
                 if Restored(disk, depth, input, h) then RecoverEngine(disk, input, h).file else disk[h],
               input.committed)
  }
}
