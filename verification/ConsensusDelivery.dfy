/**
 What flows through the height manager between two crashes: commands in, events out.  Both are
 first in, first out, and nothing is lost.  The events are read off the effects of the core and
 not off the functions that queue them.
 */
module ConsensusDelivery {
  import opened Common
  import opened Consensus
  import opened ConsensusRuns

  function First<T>(s: seq<T>): seq<T> {
    if s == [] then [] else [s[0]]
  }

  function Rest<T>(s: seq<T>): seq<T> {
    if s == [] then [] else s[1..]
  }

  function Listed<T>(o: Option<T>): seq<T> {
    if o.None? then [] else [o.value]
  }

  lemma FirstRest<T>(s: seq<T>)
    ensures First(s) + Rest(s) == s
  {
  }

  // ----- one engine ------------------------------------------------------------------------

  /** What the user of the manager hears of one effect. */
  function EventsOfEffect(effect: Effect): seq<Event> {
    match effect
    case WalAppend(_) => []
    case Decide(h, r, v) => [DecisionEvent(h, r, v)]
    case Publish => [Gossip]
    case GetValue(h, r) => [RequestProposal(h, r)]
    case ProcessError => [ErrorEvent]
  }

  /** What the log keeps of one effect. */
  function EntriesOfEffect(effect: Effect): seq<WalEntry> {
    match effect
    case WalAppend(ProposalMessage) => [SignedProposal]
    case WalAppend(VoteMessage(r)) => [SignedVote(r)]
    case WalAppend(TimeoutMessage) => [Timeout]
    case WalAppend(ProposedValueMessage) => [ProposedValue]
    case Decide(h, _, v) => [Decision(h, v)]
    case _ => []
  }

  function EventsOf(effects: seq<Effect>): seq<Event> {
    if effects == [] then [] else EventsOfEffect(effects[0]) + EventsOf(effects[1..])
  }

  function EntriesOf(effects: seq<Effect>): seq<WalEntry> {
    if effects == [] then [] else EntriesOfEffect(effects[0]) + EntriesOf(effects[1..])
  }

  lemma Associates<T>(a: seq<T>, b: seq<T>, c: seq<T>)
    ensures (a + b) + c == a + (b + c)
  {
  }

  lemma {:induction false} EventsOfConcat(a: seq<Effect>, b: seq<Effect>)
    ensures EventsOf(a + b) == EventsOf(a) + EventsOf(b)
    ensures EntriesOf(a + b) == EntriesOf(a) + EntriesOf(b)
    decreases |a|
  {
    if a == [] {
      assert a + b == b;
    } else {
      assert (a + b)[0] == a[0] && (a + b)[1..] == a[1..] + b;
      EventsOfConcat(a[1..], b);
      Associates(EventsOfEffect(a[0]), EventsOf(a[1..]), EventsOf(b));
      Associates(EntriesOfEffect(a[0]), EntriesOf(a[1..]), EntriesOf(b));
    }
  }

  lemma EventsOfOne(effect: Effect)
    ensures EventsOf([effect]) == EventsOfEffect(effect)
    ensures EntriesOf([effect]) == EntriesOfEffect(effect)
  {
    assert [effect][1..] == [];
  }

  /** From `l` to `l'` the engine queued these events and, with a file behind it, logged these entries. */
  ghost predicate Carries(l: Logged, l': Logged, events: seq<Event>, entries: seq<WalEntry>) {
    && l'.engine.inputs == l.engine.inputs
    && l'.engine.outputs == l.engine.outputs + events
    && l'.engine.sink.FileSink? == l.engine.sink.FileSink?
    && l'.file == l.file + (if l.engine.sink.FileSink? then entries else [])
  }

  lemma EffectCarries(l: Logged, effect: Effect)
    ensures Carries(l, HandleEffect(l, effect), EventsOfEffect(effect), EntriesOfEffect(effect))
  {
    match effect
    case WalAppend(_) =>
    case _ =>
  }

  lemma CarriesChain(l: Logged, m: Logged, n: Logged, events: seq<Event>, entries: seq<WalEntry>,
                     more: seq<Event>, further: seq<WalEntry>)
    requires Carries(l, m, events, entries) && Carries(m, n, more, further)
    ensures Carries(l, n, events + more, entries + further)
  {
  }

  /** The core's effects in order: each event queued once, each entry logged once. */
  lemma {:induction false} EffectsInOrder(l: Logged, effects: seq<Effect>)
    ensures Carries(l, HandleEffects(l, effects), EventsOf(effects), EntriesOf(effects))
    decreases |effects|
  {
    if effects != [] {
      var n := |effects| - 1;
      EffectsInOrder(l, effects[..n]);
      var before := HandleEffects(l, effects[..n]);
      EffectCarries(before, effects[n]);
      CarriesChain(l, before, HandleEffect(before, effects[n]), EventsOf(effects[..n]), EntriesOf(effects[..n]),
                   EventsOfEffect(effects[n]), EntriesOfEffect(effects[n]));
      assert effects == effects[..n] + [effects[n]];
      EventsOfConcat(effects[..n], [effects[n]]);
      EventsOfOne(effects[n]);
    }
  }

  /** One poll of an engine takes its oldest command and hands out its oldest event, those of the
      poll itself being the newest. */
  lemma PollInOrder(l: Logged, effects: seq<Effect>)
    ensures var (l', event) := PollEngine(l, effects);
            && l'.engine.inputs == Rest(l.engine.inputs)
            && Listed(event) == First(l.engine.outputs + EventsOf(effects))
            && l'.engine.outputs == Rest(l.engine.outputs + EventsOf(effects))
            && l'.file == l.file + (if l.engine.sink.FileSink? then EntriesOf(effects) else [])
  {
    var taken := l.(engine := l.engine.(inputs := Rest(l.engine.inputs)));
    EffectsInOrder(taken, effects);
  }

  // ----- one call of next_event ------------------------------------------------------------

  /** The event of one engine that a poll hands out, if any. */
  function HandedBy(engines: map<nat, Engine>, effects: map<nat, seq<Effect>>, h: nat): seq<Event> {
    if h in engines && h in effects then First(engines[h].outputs + EventsOf(effects[h])) else []
  }

  /** The events the engines hand out when polled in this order. */
  function HandedOut(engines: map<nat, Engine>, order: seq<nat>, effects: map<nat, seq<Effect>>): seq<Event> {
    if order == [] then []
    else HandedOut(engines, order[..|order| - 1], effects) + HandedBy(engines, effects, order[|order| - 1])
  }

  /** The highest decided height once these events have been seen. */
  function Decided(last: Option<nat>, events: seq<Event>): Option<nat> {
    if events == [] then last
    else
      var n := |events| - 1;
      var r := Decided(last, events[..n]);
      if events[n].DecisionEvent? && (r.None? || r.value < events[n].height) then Some(events[n].height) else r
  }

  lemma {:induction false} DecidedIsHighest(last: Option<nat>, events: seq<Event>)
    ensures var r := Decided(last, events);
            && NotBelow(last, r)
            && (forall e :: e in events && e.DecisionEvent? ==> r.Some? && e.height <= r.value)
            && (r == last || exists e :: e in events && e.DecisionEvent? && r == Some(e.height))
  {
    if events != [] {
      var n := |events| - 1;
      DecidedIsHighest(last, events[..n]);
      assert events == events[..n] + [events[n]];
    }
  }

  /** Some engine announced a decision. */
  predicate Finishes(events: seq<Event>) {
    exists i :: 0 <= i < |events| && events[i].DecisionEvent?
  }

  lemma FinishesConcat(a: seq<Event>, b: seq<Event>)
    ensures Finishes(a + b) == (Finishes(a) || Finishes(b))
  {
    if Finishes(a) {
      var i :| 0 <= i < |a| && a[i].DecisionEvent?;
      assert (a + b)[i].DecisionEvent?;
    }
    if Finishes(b) {
      var i :| 0 <= i < |b| && b[i].DecisionEvent?;
      assert (a + b)[|a| + i].DecisionEvent?;
    }
  }

  /** What one engine holds after a poll, if it was polled. */
  ghost predicate Polled(before: Engine, after: Engine, effects: seq<Effect>) {
    && after.inputs == Rest(before.inputs)
    && after.outputs == Rest(before.outputs + EventsOf(effects))
  }

  lemma PollOneInOrder(w: World, h: nat, effects: map<nat, seq<Effect>>)
    requires h in w.engines && h in effects
    ensures var w' := Poll(w, h, effects[h]);
            && w'.queue == w.queue + HandedBy(w.engines, effects, h)
            && w'.lastDecided == Decided(w.lastDecided, HandedBy(w.engines, effects, h))
            && PollDecides(w, h, effects[h]) == Finishes(HandedBy(w.engines, effects, h))
            && Polled(w.engines[h], w'.engines[h], effects[h])
  {
    var l := Logged(w.engines[h], FileAt(w.disk, h));
    PollInOrder(l, effects[h]);
    var event := PollEngine(l, effects[h]).1;
    assert HandedBy(w.engines, effects, h) == Listed(event);
    if event.Some? {
      assert Listed(event)[..0] == [];
    }
  }

  lemma {:induction false} DecidedConcat(last: Option<nat>, a: seq<Event>, b: seq<Event>)
    ensures Decided(last, a + b) == Decided(Decided(last, a), b)
    decreases |b|
  {
    if b == [] {
      assert a + b == a;
    } else {
      var n := |b| - 1;
      assert (a + b)[..|a + b| - 1] == a + b[..n];
      DecidedConcat(last, a, b[..n]);
    }
  }

  ghost predicate Distinct(order: seq<nat>) {
    forall i, j :: 0 <= i < j < |order| ==> order[i] != order[j]
  }

  ghost predicate Pollable(w: World, order: seq<nat>, effects: map<nat, seq<Effect>>) {
    Distinct(order) && forall h :: h in order ==> h in w.engines && h in effects
  }

  /** Each polled engine moves on by one command and one event, the others not at all. */
  lemma {:induction false} PollAllEngineAt(w: World, order: seq<nat>, effects: map<nat, seq<Effect>>, h: nat)
    requires Pollable(w, order, effects) && h in w.engines
    ensures var e := PollAll(w, order, effects).0.engines[h];
            if h in order then Polled(w.engines[h], e, effects[h]) else e == w.engines[h]
    decreases |order|
  {
    if order != [] {
      var n := |order| - 1;
      var front, last := order[..n], order[n];
      assert order == front + [last] && last !in front;
      PollAllEngineAt(w, front, effects, h);
      PollOneInOrder(PollAll(w, front, effects).0, last, effects);
    }
  }

  lemma HandedNext(w: World, front: seq<nat>, effects: map<nat, seq<Effect>>, h: nat)
    requires Pollable(w, front, effects) && h in w.engines && h in effects && h !in front
    ensures var w1 := PollAll(w, front, effects).0;
            && w1.engines[h] == w.engines[h]
            && HandedBy(w1.engines, effects, h) == HandedBy(w.engines, effects, h)
  {
    PollAllEngineAt(w, front, effects, h);
  }

  /** Polling the engines in any order of distinct heights: the queue grows by what they hand out, in
      that order. */
  lemma {:induction false} PollAllInOrder(w: World, order: seq<nat>, effects: map<nat, seq<Effect>>)
    requires Pollable(w, order, effects)
    ensures PollAll(w, order, effects).0.queue == w.queue + HandedOut(w.engines, order, effects)
    decreases |order|
  {
    if order != [] {
      var n := |order| - 1;
      var front, h := order[..n], order[n];
      assert order == front + [h] && h !in front;
      PollAllInOrder(w, front, effects);
      HandedNext(w, front, effects, h);
      PollOneInOrder(PollAll(w, front, effects).0, h, effects);
      Associates(w.queue, HandedOut(w.engines, front, effects), HandedBy(w.engines, effects, h));
    }
  }

  /** The last decided height follows the decisions among them. */
  lemma {:induction false} PollAllDecides(w: World, order: seq<nat>, effects: map<nat, seq<Effect>>)
    requires Pollable(w, order, effects)
    ensures PollAll(w, order, effects).0.lastDecided == Decided(w.lastDecided, HandedOut(w.engines, order, effects))
    decreases |order|
  {
    if order != [] {
      var n := |order| - 1;
      var front, h := order[..n], order[n];
      assert order == front + [h] && h !in front;
      PollAllDecides(w, front, effects);
      HandedNext(w, front, effects, h);
      PollOneInOrder(PollAll(w, front, effects).0, h, effects);
      DecidedConcat(w.lastDecided, HandedOut(w.engines, front, effects), HandedBy(w.engines, effects, h));
    }
  }

  /** Some height has finished exactly when there is such a decision. */
  lemma {:induction false} PollAllFinishes(w: World, order: seq<nat>, effects: map<nat, seq<Effect>>)
    requires Pollable(w, order, effects)
    ensures PollAll(w, order, effects).1 == Finishes(HandedOut(w.engines, order, effects))
    decreases |order|
  {
    if order != [] {
      var n := |order| - 1;
      var front, h := order[..n], order[n];
      assert order == front + [h] && h !in front;
      PollAllFinishes(w, front, effects);
      HandedNext(w, front, effects, h);
      PollOneInOrder(PollAll(w, front, effects).0, h, effects);
      FinishesConcat(HandedOut(w.engines, front, effects), HandedBy(w.engines, effects, h));
    }
  }

  lemma {:induction false} PollAllDepth(w: World, order: seq<nat>, effects: map<nat, seq<Effect>>)
    requires forall h :: h in order ==> h in w.engines && h in effects
    ensures PollAll(w, order, effects).0.depth == w.depth
    decreases |order|
  {
    if order != [] {
      PollAllDepth(w, order[..|order| - 1], effects);
    }
  }

  /** `next_event` prunes exactly when an engine announced a decision, and then drops exactly the
      heights more than the history depth below the highest one. */
  lemma PrunedExactly(w: World, order: seq<nat>, effects: map<nat, seq<Effect>>, undeleted: set<nat>, h: nat)
    requires Enabled(w, PollEvents(order, effects, undeleted))
    ensures h in NextEvent(w, order, effects, undeleted).0.engines <==>
            && h in w.engines
            && (Finishes(HandedOut(w.engines, order, effects)) ==> forall k: nat :: k in w.engines ==> k <= h + w.depth)
  {
    PollAllFinishes(w, order, effects);
    PollAllDepth(w, order, effects);
    var polled := PollAll(w, order, effects).0;
    if w.engines.Keys != {} {
      assert Max(w.engines.Keys) in w.engines;
      PruneWindow(polled, undeleted);
    }
  }

  /** Pruning drops engines; it touches neither the queue nor the engines it keeps. */
  lemma PruneKeepsTraffic(w: World, undeleted: set<nat>)
    ensures Prune(w, undeleted).queue == w.queue && Prune(w, undeleted).lastDecided == w.lastDecided
  {
  }

  lemma PruneKeepsEngine(w: World, undeleted: set<nat>, h: nat)
    requires h in Prune(w, undeleted).engines
    ensures h in w.engines && Prune(w, undeleted).engines[h] == w.engines[h]
  {
  }

  /** One `next_event`: the caller gets the oldest event, the rest stay queued behind it. */
  lemma NextEventInOrder(w: World, order: seq<nat>, effects: map<nat, seq<Effect>>, undeleted: set<nat>)
    requires Enabled(w, PollEvents(order, effects, undeleted))
    ensures var (w', event) := NextEvent(w, order, effects, undeleted);
            && Listed(event) == First(w.queue + HandedOut(w.engines, order, effects))
            && w'.queue == Rest(w.queue + HandedOut(w.engines, order, effects))
  {
    PollAllInOrder(w, order, effects);
    PruneKeepsTraffic(PollAll(w, order, effects).0, undeleted);
  }

  /** And each engine that is still tracked has moved on by one command and one event. */
  lemma NextEventEngineAt(w: World, order: seq<nat>, effects: map<nat, seq<Effect>>, undeleted: set<nat>, h: nat)
    requires Enabled(w, PollEvents(order, effects, undeleted)) && h in NextEvent(w, order, effects, undeleted).0.engines
    ensures h in w.engines && h in effects
    ensures Polled(w.engines[h], NextEvent(w, order, effects, undeleted).0.engines[h], effects[h])
  {
    var (polled, finished) := PollAll(w, order, effects);
    if finished {
      PruneKeepsEngine(polled, undeleted, h);
    }
    PollAllEngineAt(w, order, effects, h);
  }

  // ----- runs without a crash --------------------------------------------------------------

  predicate Plain(step: Step) {
    step.Issue? || step.PollEvents?
  }

  ghost predicate PlainRun(w: World, steps: seq<Step>)
    decreases |steps|
  {
    steps != [] ==> Plain(steps[0]) && Enabled(w, steps[0]) && PlainRun(Next(w, steps[0]), steps[1..])
  }

  ghost function End(w: World, steps: seq<Step>): World
    requires PlainRun(w, steps)
    decreases |steps|
  {
    if steps == [] then w else End(Next(w, steps[0]), steps[1..])
  }

  /** The events the user got from the calls of `next_event` in the run. */
  ghost function Returned(w: World, steps: seq<Step>): seq<Event>
    requires PlainRun(w, steps)
    decreases |steps|
  {
    if steps == [] then []
    else (match steps[0]
          case PollEvents(order, effects, undeleted) => Listed(NextEvent(w, order, effects, undeleted).1)
          case _ => [])
         + Returned(Next(w, steps[0]), steps[1..])
  }

  function ProducedBy(w: World, step: Step): seq<Event> {
    match step
    case PollEvents(order, effects, _) => HandedOut(w.engines, order, effects)
    case _ => []
  }

  /** The events the engines handed out in the run, poll by poll. */
  ghost function Produced(w: World, steps: seq<Step>): seq<Event>
    requires PlainRun(w, steps)
    decreases |steps|
  {
    if steps == [] then [] else ProducedBy(w, steps[0]) + Produced(Next(w, steps[0]), steps[1..])
  }

  lemma Rejoin<T>(first: seq<T>, rest: seq<T>, returned: seq<T>, queue: seq<T>, was: seq<T>, handed: seq<T>, later: seq<T>)
    requires first + rest == was + handed && returned + queue == rest + later
    ensures (first + returned) + queue == was + (handed + later)
  {
    Associates(first, returned, queue);
    Associates(first, rest, later);
    Associates(was, handed, later);
  }

  /** In order and without loss: what was returned, followed by what is still queued, is what was
      queued, followed by what the engines handed out since. */
  lemma {:induction false} DeliveredInOrder(w: World, steps: seq<Step>)
    requires PlainRun(w, steps)
    ensures Returned(w, steps) + End(w, steps).queue == w.queue + Produced(w, steps)
    decreases |steps|
  {
    if steps != [] {
      var w' := Next(w, steps[0]);
      DeliveredInOrder(w', steps[1..]);
      match steps[0]
      case Issue(_, _) =>
        Rejoin([], w.queue, Returned(w', steps[1..]), End(w', steps[1..]).queue, w.queue, [], Produced(w', steps[1..]));
      case PollEvents(order, effects, undeleted) =>
        NextEventInOrder(w, order, effects, undeleted);
        var handed := HandedOut(w.engines, order, effects);
        FirstRest(w.queue + handed);
        Rejoin(First(w.queue + handed), w'.queue, Returned(w', steps[1..]), End(w', steps[1..]).queue, w.queue, handed,
               Produced(w', steps[1..]));
    }
  }

  lemma StepDecides(w: World, step: Step)
    requires Plain(step) && Enabled(w, step)
    ensures Next(w, step).lastDecided == Decided(w.lastDecided, ProducedBy(w, step))
  {
    match step
    case Issue(_, _) =>
    case PollEvents(order, effects, undeleted) =>
      PollAllDecides(w, order, effects);
      PruneKeepsTraffic(PollAll(w, order, effects).0, undeleted);
  }

  /** The highest decided height is the highest of what it was and what the engines announced. */
  lemma {:induction false} LastDecidedFollowsEvents(w: World, steps: seq<Step>)
    requires PlainRun(w, steps)
    ensures End(w, steps).lastDecided == Decided(w.lastDecided, Produced(w, steps))
    decreases |steps|
  {
    if steps != [] {
      var w' := Next(w, steps[0]);
      LastDecidedFollowsEvents(w', steps[1..]);
      StepDecides(w, steps[0]);
      DecidedConcat(w.lastDecided, ProducedBy(w, steps[0]), Produced(w', steps[1..]));
    }
  }

  // ----- one height along a run ------------------------------------------------------------

  /** The commands the run issues for a height, its effects, what its engine takes and hands out. */
  function Commands(h: nat, steps: seq<Step>): seq<Command> {
    if steps == [] then []
    else (if steps[0].Issue? && steps[0].cmd.height == h then [steps[0].cmd] else []) + Commands(h, steps[1..])
  }

  function EffectsOn(h: nat, step: Step): seq<Effect> {
    if step.PollEvents? && h in step.effects then step.effects[h] else []
  }

  function Effects(h: nat, steps: seq<Step>): seq<Effect> {
    if steps == [] then [] else EffectsOn(h, steps[0]) + Effects(h, steps[1..])
  }

  ghost function Taken(w: World, h: nat, steps: seq<Step>): seq<Command>
    requires PlainRun(w, steps)
    decreases |steps|
  {
    if steps == [] then []
    else (if steps[0].PollEvents? && h in w.engines then First(w.engines[h].inputs) else [])
         + Taken(Next(w, steps[0]), h, steps[1..])
  }

  ghost function Handed(w: World, h: nat, steps: seq<Step>): seq<Event>
    requires PlainRun(w, steps)
    decreases |steps|
  {
    if steps == [] then []
    else (if steps[0].PollEvents? then HandedBy(w.engines, steps[0].effects, h) else [])
         + Handed(Next(w, steps[0]), h, steps[1..])
  }

  predicate Restarts(h: nat, steps: seq<Step>) {
    exists i :: 0 <= i < |steps| && steps[i].Issue? && steps[i].cmd == StartHeightCommand(h)
  }

  lemma RestartsLater(h: nat, steps: seq<Step>)
    requires steps != [] && !Restarts(h, steps)
    ensures !Restarts(h, steps[1..])
  {
  }

  /** What one step does to the engine of a height that it neither starts nor prunes. */
  lemma EngineStep(w: World, h: nat, step: Step)
    requires Plain(step) && Enabled(w, step) && !(step.Issue? && step.cmd == StartHeightCommand(h))
    requires h in Next(w, step).engines
    ensures h in w.engines
    ensures var e, e' := w.engines[h], Next(w, step).engines[h];
            match step
            case Issue(cmd, _) =>
              && e'.outputs == e.outputs
              && e'.inputs == e.inputs + (if cmd.height == h then [cmd] else [])
            case PollEvents(_, effects, _) => h in effects && Polled(e, e', effects[h])
            case _ => true
  {
    match step
    case Issue(cmd, walOk) =>
    case PollEvents(order, effects, undeleted) => NextEventEngineAt(w, order, effects, undeleted, h);
  }

  /** Only a `StartHeight` makes a height tracked that was not. */
  lemma {:induction false} TrackedThroughout(w: World, h: nat, steps: seq<Step>)
    requires PlainRun(w, steps) && !Restarts(h, steps) && h in End(w, steps).engines
    ensures h in w.engines
    decreases |steps|
  {
    if steps != [] {
      RestartsLater(h, steps);
      TrackedThroughout(Next(w, steps[0]), h, steps[1..]);
      assert steps[0] in steps;
      EngineStep(w, h, steps[0]);
    }
  }

  /** Each command issued for a tracked height is taken by its engine once and in order, and each
      effect of its core is announced once and in order, over every run that leaves it tracked. */
  lemma {:induction false} EngineInOrder(w: World, h: nat, steps: seq<Step>)
    requires PlainRun(w, steps) && !Restarts(h, steps) && h in End(w, steps).engines
    ensures h in w.engines
    ensures Taken(w, h, steps) + End(w, steps).engines[h].inputs == w.engines[h].inputs + Commands(h, steps)
    ensures Handed(w, h, steps) + End(w, steps).engines[h].outputs == w.engines[h].outputs + EventsOf(Effects(h, steps))
    decreases |steps|
  {
    TrackedThroughout(w, h, steps);
    if steps != [] {
      var w', later := Next(w, steps[0]), steps[1..];
      RestartsLater(h, steps);
      EngineInOrder(w', h, later);
      EngineStep(w, h, steps[0]);
      var e, e', last := w.engines[h], w'.engines[h], End(w', later).engines[h];
      match steps[0]
      case Issue(cmd, _) =>
        var own := if cmd.height == h then [cmd] else [];
        Rejoin([], e'.inputs, Taken(w', h, later), last.inputs, e.inputs, own, Commands(h, later));
        Rejoin([], e'.outputs, Handed(w', h, later), last.outputs, e.outputs, [], EventsOf(Effects(h, later)));
        assert [] + Effects(h, later) == Effects(h, later);
      case PollEvents(_, effects, _) =>
        FirstRest(e.inputs);
        Rejoin(First(e.inputs), e'.inputs, Taken(w', h, later), last.inputs, e.inputs, [], Commands(h, later));
        FirstRest(e.outputs + EventsOf(effects[h]));
        Rejoin(First(e.outputs + EventsOf(effects[h])), e'.outputs, Handed(w', h, later), last.outputs, e.outputs,
               EventsOf(effects[h]), EventsOf(Effects(h, later)));
        EventsOfConcat(effects[h], Effects(h, later));
    }
  }

  // ----- the log along a run ---------------------------------------------------------------

  /** What an engine logs of these effects: everything, or nothing without a file behind its sink. */
  function Logs(e: Engine, effects: seq<Effect>): seq<WalEntry> {
    if e.sink.FileSink? then EntriesOf(effects) else []
  }

  /** An engine of one kind of sink, and its file longer by these entries. */
  ghost predicate Extends(w: World, w': World, h: nat, entries: seq<WalEntry>) {
    && h in w.engines && h in w'.engines
    && w'.engines[h].sink.FileSink? == w.engines[h].sink.FileSink?
    && FileAt(w'.disk, h) == FileAt(w.disk, h) + entries
  }

  lemma ExtendsChain(u: World, v: World, w: World, h: nat, a: seq<WalEntry>, b: seq<WalEntry>)
    requires Extends(u, v, h, a) && Extends(v, w, h, b)
    ensures Extends(u, w, h, a + b)
  {
    Associates(FileAt(u.disk, h), a, b);
  }

  lemma PollOneLogs(w: World, h: nat, effects: seq<Effect>)
    requires h in w.engines
    ensures Extends(w, Poll(w, h, effects), h, Logs(w.engines[h], effects))
  {
    var l := Logged(w.engines[h], FileAt(w.disk, h));
    PollInOrder(l, effects);
    var taken := l.(engine := l.engine.(inputs := Rest(l.engine.inputs)));
    EffectsInOrder(taken, effects);
  }

  lemma PollOtherLogs(w: World, h: nat, effects: seq<Effect>, k: nat)
    requires h in w.engines && k in w.engines && k != h
    ensures Extends(w, Poll(w, h, effects), k, [])
  {
  }

  lemma OnePollMore(w: World, before: World, last: nat, effects: seq<Effect>, h: nat, soFar: seq<WalEntry>)
    requires Extends(w, before, h, soFar) && last in before.engines
    ensures Extends(w, Poll(before, last, effects), h, soFar + (if h == last then Logs(w.engines[h], effects) else []))
  {
    if h == last {
      PollOneLogs(before, h, effects);
      ExtendsChain(w, before, Poll(before, h, effects), h, soFar, Logs(w.engines[h], effects));
    } else {
      PollOtherLogs(before, last, effects, h);
      ExtendsChain(w, before, Poll(before, last, effects), h, soFar, []);
    }
  }

  lemma {:induction false} PollAllLogs(w: World, order: seq<nat>, effects: map<nat, seq<Effect>>, h: nat)
    requires Pollable(w, order, effects) && h in w.engines
    ensures Extends(w, PollAll(w, order, effects).0, h, if h in order then Logs(w.engines[h], effects[h]) else [])
    decreases |order|
  {
    if order != [] {
      var n := |order| - 1;
      var front, last := order[..n], order[n];
      assert order == front + [last] && last !in front;
      PollAllLogs(w, front, effects, h);
      var soFar := if h in front then Logs(w.engines[h], effects[h]) else [];
      var more := if h == last then Logs(w.engines[h], effects[last]) else [];
      OnePollMore(w, PollAll(w, front, effects).0, last, effects[last], h, soFar);
      assert h in order <==> h in front || h == last;
      assert soFar + more == if h in order then Logs(w.engines[h], effects[h]) else [];
    }
  }

  lemma PruneLogs(w: World, undeleted: set<nat>, h: nat)
    requires h in Prune(w, undeleted).engines
    ensures Extends(w, Prune(w, undeleted), h, [])
  {
  }

  lemma NextEventLogs(w: World, order: seq<nat>, effects: map<nat, seq<Effect>>, undeleted: set<nat>, h: nat)
    requires Enabled(w, PollEvents(order, effects, undeleted)) && h in w.engines
    requires h in NextEvent(w, order, effects, undeleted).0.engines
    ensures Extends(w, NextEvent(w, order, effects, undeleted).0, h, Logs(w.engines[h], effects[h]))
  {
    PollAllLogs(w, order, effects, h);
    var (polled, finished) := PollAll(w, order, effects);
    if finished {
      PruneLogs(polled, undeleted, h);
      ExtendsChain(w, polled, Prune(polled, undeleted), h, Logs(w.engines[h], effects[h]), []);
    }
  }

  lemma CommandLogs(w: World, cmd: Command, walOk: bool, h: nat)
    requires h in w.engines && cmd != StartHeightCommand(h)
    ensures Extends(w, HandleCommand(w, cmd, walOk), h, [])
  {
  }

  /** What a step adds to the file of a height that it neither starts nor prunes. */
  lemma StepLogs(w: World, h: nat, step: Step)
    requires Plain(step) && Enabled(w, step) && !(step.Issue? && step.cmd == StartHeightCommand(h))
    requires h in w.engines && h in Next(w, step).engines
    ensures Extends(w, Next(w, step), h, Logs(w.engines[h], EffectsOn(h, step)))
  {
    match step
    case Issue(cmd, walOk) => CommandLogs(w, cmd, walOk, h);
    case PollEvents(order, effects, undeleted) => NextEventLogs(w, order, effects, undeleted, h);
  }

  lemma LogsConcat(e: Engine, e': Engine, a: seq<Effect>, b: seq<Effect>)
    requires e'.sink.FileSink? == e.sink.FileSink?
    ensures Logs(e, a + b) == Logs(e, a) + Logs(e', b)
  {
    EventsOfConcat(a, b);
  }

  /** The log of a height is written in order and without loss, over every run that leaves it tracked. */
  lemma {:induction false} LogInOrder(w: World, h: nat, steps: seq<Step>)
    requires PlainRun(w, steps) && !Restarts(h, steps) && h in End(w, steps).engines
    ensures h in w.engines && Extends(w, End(w, steps), h, Logs(w.engines[h], Effects(h, steps)))
    decreases |steps|
  {
    TrackedThroughout(w, h, steps);
    if steps != [] {
      var w', later := Next(w, steps[0]), steps[1..];
      RestartsLater(h, steps);
      LogInOrder(w', h, later);
      StepLogs(w, h, steps[0]);
      ExtendsChain(w, w', End(w', later), h, Logs(w.engines[h], EffectsOn(h, steps[0])), Logs(w'.engines[h], Effects(h, later)));
      LogsConcat(w.engines[h], w'.engines[h], EffectsOn(h, steps[0]), Effects(h, later));
    }
  }

  // ----- where an engine starts ------------------------------------------------------------

  /** A started height begins with its `StartHeight` and nothing else; a command for a height that is
      not tracked changes nothing; no command touches what a file holds. */
  lemma CommandsEnter(w: World, cmd: Command, walOk: bool)
    ensures cmd.StartHeightCommand? ==>
              && cmd.height in HandleCommand(w, cmd, walOk).engines
              && HandleCommand(w, cmd, walOk).engines[cmd.height].inputs == [cmd]
              && HandleCommand(w, cmd, walOk).engines[cmd.height].outputs == []
    ensures !cmd.StartHeightCommand? && cmd.height !in w.engines ==> HandleCommand(w, cmd, walOk) == w
    ensures HandleCommand(w, cmd, walOk).queue == w.queue
    ensures forall h: nat :: FileAt(HandleCommand(w, cmd, walOk).disk, h) == FileAt(w.disk, h)
  {
  }

  /** The effects a replay goes through, from the first entry on: those of every entry but decisions. */
  function Replayed(entries: seq<WalEntry>, script: seq<seq<Effect>>): seq<Effect>
    requires |entries| == |script|
  {
    if entries == [] then []
    else (if entries[0].Decision? then [] else script[0]) + Replayed(entries[1..], script[1..])
  }

  lemma {:induction false} ReplayedSnoc(entries: seq<WalEntry>, script: seq<seq<Effect>>)
    requires |entries| == |script| > 0
    ensures var n := |entries| - 1;
            Replayed(entries, script)
            == Replayed(entries[..n], script[..n]) + (if entries[n].Decision? then [] else script[n])
    decreases |entries|
  {
    var n := |entries| - 1;
    if n > 0 {
      ReplayedSnoc(entries[1..], script[1..]);
      assert entries[1..][..n - 1] == entries[..n][1..] && script[1..][..n - 1] == script[..n][1..];
    }
  }

  lemma {:induction false} ReplayInOrder(entries: seq<WalEntry>, script: seq<seq<Effect>>)
    requires |entries| == |script|
    ensures ReplayEffects(entries, script) == Replayed(entries, script)
    decreases |entries|
  {
    if entries != [] {
      var n := |entries| - 1;
      ReplayInOrder(entries[..n], script[..n]);
      ReplayedSnoc(entries, script);
    }
  }

  /** Recovery restores exactly the heights of the window and those below it whose file holds no decision
      and is empty or above the highest committed block; it drops no file and only adds to them. */
  lemma RestoredExactly(depth: nat, disk: map<nat, seq<WalEntry>>, input: RecoveryInput, h: nat)
    requires ScriptFits(disk, input) && input.readable && h in disk
    ensures var w := Recover(depth, disk, input);
            && (h in w.engines <==>
                  || (forall k: nat :: k in disk ==> k <= h + depth)
                  || (!HasDecision(disk[h]) && (disk[h] == [] || input.committed.None? || input.committed.value < h)))
            && w.disk.Keys == disk.Keys
            && disk[h] <= w.disk[h]
  {
    assert Max(disk.Keys) in disk;
    SettledIsFinal(h, disk[h], input.committed);
    if h in Recover(depth, disk, input).engines {
      RecoveredFileGrows(disk, input, h);
    }
  }

  /** One unreadable file: nothing is tracked, final or decided until the next recovery, which finds the
      directory as it was. */
  lemma UnreadableForgets(depth: nat, disk: map<nat, seq<WalEntry>>, bad: RecoveryInput, good: RecoveryInput)
    requires ScriptFits(disk, bad) && ScriptFits(disk, good) && !bad.readable
    ensures var w := Recover(depth, disk, bad);
            && w.engines == map[] && w.queue == [] && w.lastDecided == None
            && (forall h: nat :: !IsHeightFinalized(w, h))
            && Recover(w.depth, w.disk, good) == Recover(depth, disk, good)
  {
  }

  lemma SettledIsFinal(h: nat, file: seq<WalEntry>, committed: Option<nat>)
    ensures FileFinalized(h, file, committed) <==>
            HasDecision(file) || (file != [] && committed.Some? && h <= committed.value)
  {
    if HasDecision(file) {
      var i :| 0 <= i < |file| && file[i].Decision?;
    }
    if file != [] && committed.Some? && h <= committed.value {
      assert file[0].Decision? || (committed.Some? && h <= committed.value);
    }
  }

  lemma RecoveredFileGrows(disk: map<nat, seq<WalEntry>>, input: RecoveryInput, h: nat)
    requires h in disk && h in input.script && |input.script[h]| == |disk[h]|
    ensures disk[h] <= RecoverEngine(disk, input, h).file
  {
    var blank := FreshEngine(h !in input.noWal);
    var l := Logged(if FileFinalized(h, disk[h], input.committed) then blank else Push(blank, StartHeightCommand(h)), disk[h]);
    var marked := if HasDecision(disk[h]) then l.(engine := MarkFinalized(l.engine)) else l;
    EffectsInOrder(marked, ReplayEffects(disk[h], input.script[h]));
  }

  /** A recovered engine announces what its replay brings about, and takes the height's `StartHeight`
      first, unless its height is final and below the highest one on disk. */
  lemma RecoveredEngineStarts(disk: map<nat, seq<WalEntry>>, input: RecoveryInput, h: nat)
    requires h in disk && h in input.script && |input.script[h]| == |disk[h]|
    ensures var e := RecoverEngine(disk, input, h).engine;
            && e.outputs == EventsOf(Replayed(disk[h], input.script[h]))
            && (e.inputs == [] <==> FileFinalized(h, disk[h], input.committed) && EngineFinalized(e) && h != Max(disk.Keys))
            && (e.inputs != [] ==> e.inputs == [StartHeightCommand(h)])
  {
    var blank := FreshEngine(h !in input.noWal);
    var l := Logged(if FileFinalized(h, disk[h], input.committed) then blank else Push(blank, StartHeightCommand(h)), disk[h]);
    var marked := if HasDecision(disk[h]) then l.(engine := MarkFinalized(l.engine)) else l;
    EffectsInOrder(marked, ReplayEffects(disk[h], input.script[h]));
    ReplayInOrder(disk[h], input.script[h]);
  }
}
