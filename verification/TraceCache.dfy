/**
 The block trace cache: a caller that misses becomes the leader for its key and leaves an in-flight
 entry with a broadcast channel; callers that find the entry wait on the channel.

 Callers run concurrently.  A step below is what one caller does between two lock operations; the
 LRU may drop any entry at any time.
 */
module TraceCache {
  import opened Common

  datatype Key = Key(block: nat, initialReads: bool)

  /** The traces of a block are a function of the key. */
  type Truth = Key -> nat

  datatype Message = Traced(trace: nat) | Failed(error: nat)

  datatype Item = Inflight(chan: nat) | CachedOk(trace: nat) | CachedErr(error: nat)

  datatype Reply =
    | Answer(msg: Message)   // a trace or an execution error
    | Disconnected           // the channel closed without a message
    | DiffFailed             // the state diff could not be computed
    | ReadsFailed            // the initial reads could not be collected

  /** `sent` is the only message ever sent; `open` says whether the sender is still alive. */
  datatype Channel = Channel(key: Key, leader: nat, sent: Option<Message>, open: bool)

  datatype Caller =
    | Entering(key: Key)
    | Leading(key: Key, chan: nat)
    | Returning(key: Key, chan: nat, reply: Reply)    // lock released, sender not dropped yet
    | Waiting(key: Key, chan: nat, missed: bool)      // missed: subscribed after the message was sent
    | Done(key: Key, led: Option<nat>, reply: Reply)

  datatype State = State(cache: map<Key, Item>, channels: seq<Channel>, callers: map<nat, Caller>)

  datatype Step =
    | Enter(id: nat)
    | Finish(id: nat, error: Option<nat>)
    | FailDiff(id: nat)
    | FailReads(id: nat)
    | Return(id: nat)
    | Receive(id: nat)
    | Evict(key: Key)

  function Received(s: State, c: Caller): Option<Reply>
    requires c.Waiting? && c.chan < |s.channels|
  {
    var ch := s.channels[c.chan];
    if ch.sent.Some? && !c.missed then Some(Answer(ch.sent.value))
    else if !ch.open then Some(Disconnected)
    else None
  }

  predicate Enabled(s: State, step: Step) {
    if step.Evict? then true
    else
      step.id in s.callers &&
      var c := s.callers[step.id];
      match step
      case Enter(_) => c.Entering?
      case Finish(_, _) => c.Leading? && c.chan < |s.channels|
      case FailDiff(_) => c.Leading?
      case FailReads(_) => c.Leading? && c.key.initialReads
      case Return(_) => c.Returning? && c.chan < |s.channels|
      case Receive(_) => c.Waiting? && c.chan < |s.channels| && Received(s, c).Some?
      case Evict(_) => true
  }

  function EnterStep(s: State, id: nat): State
    requires Enabled(s, Enter(id))
  {
    var k := s.callers[id].key;
    if k !in s.cache then
      var chan := |s.channels|;
      State(s.cache[k := Inflight(chan)], s.channels + [Channel(k, id, None, true)],
            s.callers[id := Leading(k, chan)])
    else
      s.(callers := s.callers[id :=
          match s.cache[k]
          case CachedOk(t) => Done(k, None, Answer(Traced(t)))
          case CachedErr(e) => Done(k, None, Answer(Failed(e)))
          case Inflight(chan) =>
            Waiting(k, chan, chan < |s.channels| && s.channels[chan].sent.Some?)])
  }

  /** Sending and replacing the entry happen under one lock. */
  function FinishStep(s: State, truth: Truth, id: nat, error: Option<nat>): State
    requires Enabled(s, Finish(id, error))
  {
    var Leading(k, chan) := s.callers[id];
    var msg := if error.Some? then Failed(error.value) else Traced(truth(k));
    var item := if error.Some? then CachedErr(error.value) else CachedOk(truth(k));
    State(s.cache[k := item],
          s.channels[chan := s.channels[chan].(sent := Some(msg))],
          s.callers[id := Returning(k, chan, Answer(msg))])
  }

  function Next(s: State, truth: Truth, step: Step): State
    requires Enabled(s, step)
  {
    match step
    case Enter(id) => EnterStep(s, id)
    case Finish(id, error) => FinishStep(s, truth, id, error)
    case FailDiff(id) =>
      var c := s.callers[id];
      s.(cache := s.cache - {c.key}, callers := s.callers[id := Returning(c.key, c.chan, DiffFailed)])
    case FailReads(id) =>
      var c := s.callers[id];
      s.(callers := s.callers[id := Returning(c.key, c.chan, ReadsFailed)])
    case Return(id) =>
      var c := s.callers[id];
      s.(channels := s.channels[c.chan := s.channels[c.chan].(open := false)],
         callers := s.callers[id := Done(c.key, Some(c.chan), c.reply)])
    case Receive(id) =>
      var c := s.callers[id];
      s.(callers := s.callers[id := Done(c.key, None, Received(s, c).value)])
    case Evict(k) => s.(cache := s.cache - {k})
  }

  // ----- invariant -------------------------------------------------------------------------

  predicate TruthfulMessage(truth: Truth, k: Key, m: Message) {
    m.Traced? ==> m.trace == truth(k)
  }

  predicate TruthfulReply(truth: Truth, k: Key, r: Reply) {
    r.Answer? ==> TruthfulMessage(truth, k, r.msg)
  }

  /** A channel and the caller that leads it agree on how far the leader has got. */
  ghost predicate ChannelOk(s: State, truth: Truth, chan: nat)
    requires chan < |s.channels|
  {
    var ch := s.channels[chan];
    && ch.leader in s.callers && s.callers[ch.leader].key == ch.key
    && (ch.sent.Some? ==> TruthfulMessage(truth, ch.key, ch.sent.value))
    && match s.callers[ch.leader]
       case Leading(_, c) => c == chan && ch.sent.None? && ch.open
       case Returning(_, c, r) => c == chan && ch.open && ch.sent == (if r.Answer? then Some(r.msg) else None)
       case Done(_, led, r) => led == Some(chan) && !ch.open && ch.sent == (if r.Answer? then Some(r.msg) else None)
       case _ => false
  }

  ghost predicate ItemOk(s: State, truth: Truth, k: Key)
    requires k in s.cache
  {
    match s.cache[k]
    case CachedOk(t) => t == truth(k)
    case CachedErr(_) => true
    case Inflight(chan) =>
      && chan < |s.channels| && s.channels[chan].key == k && s.channels[chan].leader in s.callers
      && s.channels[chan].sent.None?
      && var leader := s.callers[s.channels[chan].leader];
         leader.Leading? || ((leader.Returning? || leader.Done?) && leader.reply == ReadsFailed)
  }

  ghost predicate CallerOk(s: State, truth: Truth, id: nat)
    requires id in s.callers
  {
    match s.callers[id]
    case Entering(_) => true
    case Leading(k, chan) => chan < |s.channels| && s.channels[chan].leader == id
    case Returning(k, chan, r) => chan < |s.channels| && s.channels[chan].leader == id && TruthfulReply(truth, k, r)
    case Waiting(k, chan, missed) => chan < |s.channels| && s.channels[chan].key == k && !missed
    case Done(k, _, r) => TruthfulReply(truth, k, r)
  }

  ghost predicate Inv(s: State, truth: Truth) {
    && (forall chan :: 0 <= chan < |s.channels| ==> ChannelOk(s, truth, chan))
    && (forall k :: k in s.cache ==> ItemOk(s, truth, k))
    && (forall id :: id in s.callers ==> CallerOk(s, truth, id))
  }

  predicate Initial(s: State) {
    s.cache == map[] && s.channels == [] && forall id :: id in s.callers ==> s.callers[id].Entering?
  }

  lemma InitialInv(s: State, truth: Truth)
    requires Initial(s)
    ensures Inv(s, truth)
  {
  }

  lemma ChannelsKeep(s: State, truth: Truth, step: Step, chan: nat)
    requires Inv(s, truth) && Enabled(s, step) && chan < |Next(s, truth, step).channels|
    ensures ChannelOk(Next(s, truth, step), truth, chan)
  {
    if chan < |s.channels| {
      assert ChannelOk(s, truth, chan);
    }
    if !step.Evict? {
      assert CallerOk(s, truth, step.id);
    }
  }

  lemma ItemsKeep(s: State, truth: Truth, step: Step, k: Key)
    requires Inv(s, truth) && Enabled(s, step) && k in Next(s, truth, step).cache
    ensures ItemOk(Next(s, truth, step), truth, k)
  {
    if k in s.cache {
      assert ItemOk(s, truth, k);
      if s.cache[k].Inflight? {
        assert ChannelOk(s, truth, s.cache[k].chan);
      }
    }
    if !step.Evict? {
      assert CallerOk(s, truth, step.id);
    }
  }

  lemma CallersKeep(s: State, truth: Truth, step: Step, id: nat)
    requires Inv(s, truth) && Enabled(s, step) && id in s.callers
    ensures CallerOk(Next(s, truth, step), truth, id)
  {
    assert CallerOk(s, truth, id);
    if !step.Evict? && step.id == id {
      var c := s.callers[id];
      if c.Entering? && c.key in s.cache {
        assert ItemOk(s, truth, c.key);
      } else if c.Waiting? {
        assert ChannelOk(s, truth, c.chan);
      }
    }
  }

  lemma StepKeeps(s: State, truth: Truth, step: Step)
    requires Inv(s, truth) && Enabled(s, step)
    ensures Inv(Next(s, truth, step), truth)
  {
    var s' := Next(s, truth, step);
    forall chan | 0 <= chan < |s'.channels| ensures ChannelOk(s', truth, chan) { ChannelsKeep(s, truth, step, chan); }
    forall k | k in s'.cache ensures ItemOk(s', truth, k) { ItemsKeep(s, truth, step, k); }
    forall id | id in s'.callers ensures CallerOk(s', truth, id) { CallersKeep(s, truth, step, id); }
  }

  // ----- runs ------------------------------------------------------------------------------

  ghost predicate Run(s: State, truth: Truth, steps: seq<Step>)
    decreases |steps|
  {
    steps != [] ==> Enabled(s, steps[0]) && Run(Next(s, truth, steps[0]), truth, steps[1..])
  }

  ghost function After(s: State, truth: Truth, steps: seq<Step>): State
    requires Run(s, truth, steps)
    decreases |steps|
  {
    if steps == [] then s else After(Next(s, truth, steps[0]), truth, steps[1..])
  }

  lemma {:induction false} RunKeeps(s: State, truth: Truth, steps: seq<Step>)
    requires Inv(s, truth) && Run(s, truth, steps)
    ensures Inv(After(s, truth, steps), truth)
    decreases |steps|
  {
    if steps != [] {
      StepKeeps(s, truth, steps[0]);
      RunKeeps(Next(s, truth, steps[0]), truth, steps[1..]);
    }
  }

  /** Whatever the interleaving and the evictions: an Ok reply is the trace of the caller's block. */
  lemma RepliesAreTruthful(s: State, truth: Truth, steps: seq<Step>, id: nat)
    requires Initial(s) && Run(s, truth, steps) && id in After(s, truth, steps).callers
    ensures var c := After(s, truth, steps).callers[id];
            c.Done? && c.reply.Answer? && c.reply.msg.Traced? ==> c.reply.msg.trace == truth(c.key)
  {
    InitialInv(s, truth);
    RunKeeps(s, truth, steps);
    assert CallerOk(After(s, truth, steps), truth, id);
  }

  /** No waiter subscribes too late, and one that cannot receive yet has a leader still at work. */
  lemma WaitersAreWoken(s: State, truth: Truth, steps: seq<Step>, id: nat)
    requires Initial(s) && Run(s, truth, steps)
    requires id in After(s, truth, steps).callers && After(s, truth, steps).callers[id].Waiting?
    ensures var e := After(s, truth, steps); var c := e.callers[id];
            && !c.missed && c.chan < |e.channels|
            && var leader := e.channels[c.chan].leader;
               && leader in e.callers
               && (Enabled(e, Receive(id)) || ((e.callers[leader].Leading? || e.callers[leader].Returning?) && e.callers[leader].chan == c.chan))
  {
    InitialInv(s, truth);
    RunKeeps(s, truth, steps);
    var e := After(s, truth, steps);
    assert CallerOk(e, truth, id);
    assert ChannelOk(e, truth, e.callers[id].chan);
  }

  /** An entry is in flight only while its leader is at work, or after the one exit that leaves it. */
  lemma InflightHasLeader(s: State, truth: Truth, steps: seq<Step>, k: Key)
    requires Initial(s) && Run(s, truth, steps)
    requires k in After(s, truth, steps).cache && After(s, truth, steps).cache[k].Inflight?
    ensures var e := After(s, truth, steps); var chan := e.cache[k].chan;
            && chan < |e.channels| && e.channels[chan].leader in e.callers
            && var leader := e.callers[e.channels[chan].leader];
               || (leader == Leading(k, chan))
               || (leader == Returning(k, chan, ReadsFailed))
               || (leader == Done(k, Some(chan), ReadsFailed))
  {
    InitialInv(s, truth);
    RunKeeps(s, truth, steps);
    var e := After(s, truth, steps);
    assert ItemOk(e, truth, k);
    assert ChannelOk(e, truth, e.cache[k].chan);
  }

  // ----- where a reply comes from -----------------------------------------------------------

  /** Among these steps a caller of the key ended its computation with this error, or without one. */
  ghost predicate Reported(s: State, past: set<Step>, k: Key, e: Option<nat>) {
    exists id: nat :: id in s.callers && s.callers[id].key == k && Finish(id, e) in past
  }

  /** Among these steps a caller of the key left without a message. */
  ghost predicate GaveUp(s: State, past: set<Step>, k: Key) {
    exists id: nat :: id in s.callers && s.callers[id].key == k && (FailDiff(id) in past || FailReads(id) in past)
  }

  ghost predicate MessageExplained(s: State, past: set<Step>, k: Key, m: Message) {
    Reported(s, past, k, if m.Failed? then Some(m.error) else None)
  }

  ghost predicate CallerExplained(s: State, past: set<Step>, id: nat)
    requires id in s.callers
  {
    var c := s.callers[id];
    c.Returning? || c.Done? ==>
      match c.reply
      case Answer(m) => MessageExplained(s, past, c.key, m)
      case Disconnected => GaveUp(s, past, c.key)
      case DiffFailed => FailDiff(id) in past
      case ReadsFailed => FailReads(id) in past
  }

  ghost predicate ChannelExplained(s: State, past: set<Step>, chan: nat)
    requires chan < |s.channels|
  {
    s.channels[chan].sent.Some? ==> MessageExplained(s, past, s.channels[chan].key, s.channels[chan].sent.value)
  }

  ghost predicate ItemExplained(s: State, past: set<Step>, k: Key)
    requires k in s.cache
  {
    match s.cache[k]
    case CachedOk(_) => Reported(s, past, k, None)
    case CachedErr(e) => Reported(s, past, k, Some(e))
    case Inflight(_) => true
  }

  /** Every trace and error in sight goes back to a step of some caller of the key it stands under. */
  ghost predicate Explained(s: State, past: set<Step>) {
    && (forall chan :: 0 <= chan < |s.channels| ==> ChannelExplained(s, past, chan))
    && (forall k :: k in s.cache ==> ItemExplained(s, past, k))
    && (forall id :: id in s.callers ==> CallerExplained(s, past, id))
  }

  lemma KeysKeep(s: State, truth: Truth, step: Step)
    requires Enabled(s, step)
    ensures var s' := Next(s, truth, step);
            s'.callers.Keys == s.callers.Keys && forall id :: id in s.callers ==> s'.callers[id].key == s.callers[id].key
  {
  }

  lemma CausesStay(s: State, truth: Truth, step: Step, past: set<Step>, k: Key)
    requires Enabled(s, step)
    ensures GaveUp(s, past, k) ==> GaveUp(Next(s, truth, step), past + {step}, k)
    ensures forall e: Option<nat> :: Reported(s, past, k, e) ==> Reported(Next(s, truth, step), past + {step}, k, e)
  {
    KeysKeep(s, truth, step);
    var s', later := Next(s, truth, step), past + {step};
    if GaveUp(s, past, k) {
      var id: nat :| id in s.callers && s.callers[id].key == k && (FailDiff(id) in past || FailReads(id) in past);
      assert id in s'.callers && s'.callers[id].key == k && (FailDiff(id) in later || FailReads(id) in later);
    }
    forall e: Option<nat> | Reported(s, past, k, e)
      ensures Reported(s', later, k, e)
    {
      var id: nat :| id in s.callers && s.callers[id].key == k && Finish(id, e) in past;
      assert id in s'.callers && s'.callers[id].key == k && Finish(id, e) in later;
    }
  }

  /** A channel that closed without a message was left by its leader. */
  lemma ClosedChannelGaveUp(s: State, truth: Truth, past: set<Step>, chan: nat)
    requires Inv(s, truth) && Explained(s, past)
    requires chan < |s.channels| && s.channels[chan].sent.None? && !s.channels[chan].open
    ensures GaveUp(s, past, s.channels[chan].key)
  {
    assert ChannelOk(s, truth, chan);
    assert CallerExplained(s, past, s.channels[chan].leader);
  }

  lemma FinishReports(s: State, truth: Truth, step: Step, past: set<Step>)
    requires Enabled(s, step) && step.Finish?
    ensures Reported(Next(s, truth, step), past + {step}, s.callers[step.id].key, step.error)
  {
    KeysKeep(s, truth, step);
    assert Finish(step.id, step.error) in past + {step};
  }

  lemma ChannelStaysExplained(s: State, truth: Truth, step: Step, past: set<Step>, chan: nat)
    requires Inv(s, truth) && Enabled(s, step) && Explained(s, past) && chan < |Next(s, truth, step).channels|
    ensures ChannelExplained(Next(s, truth, step), past + {step}, chan)
  {
    if chan < |s.channels| {
      assert ChannelExplained(s, past, chan);
      assert ChannelOk(s, truth, chan);
      CausesStay(s, truth, step, past, s.channels[chan].key);
    }
    if step.Finish? {
      assert CallerOk(s, truth, step.id);
      assert ChannelOk(s, truth, s.callers[step.id].chan);
      FinishReports(s, truth, step, past);
    }
  }

  lemma ItemStaysExplained(s: State, truth: Truth, step: Step, past: set<Step>, k: Key)
    requires Enabled(s, step) && Explained(s, past) && k in Next(s, truth, step).cache
    ensures ItemExplained(Next(s, truth, step), past + {step}, k)
  {
    CausesStay(s, truth, step, past, k);
    if k in s.cache {
      assert ItemExplained(s, past, k);
    }
    if step.Finish? {
      FinishReports(s, truth, step, past);
    }
  }

  lemma CallerStaysExplained(s: State, truth: Truth, step: Step, past: set<Step>, id: nat)
    requires Inv(s, truth) && Enabled(s, step) && Explained(s, past) && id in s.callers
    ensures CallerExplained(Next(s, truth, step), past + {step}, id)
  {
    assert CallerExplained(s, past, id);
    var c := s.callers[id];
    CausesStay(s, truth, step, past, c.key);
    if !step.Evict? && step.id == id {
      match c
      case Entering(k) =>
        if k in s.cache {
          assert ItemExplained(s, past, k);
        }
      case Leading(_, _) =>
        if step.Finish? {
          FinishReports(s, truth, step, past);
        }
      case Waiting(_, chan, _) =>
        assert CallerOk(s, truth, id) && ChannelExplained(s, past, chan);
        if s.channels[chan].sent.None? {
          ClosedChannelGaveUp(s, truth, past, chan);
        }
      case _ =>
    }
  }

  lemma StepStaysExplained(s: State, truth: Truth, step: Step, past: set<Step>)
    requires Inv(s, truth) && Enabled(s, step) && Explained(s, past)
    ensures Explained(Next(s, truth, step), past + {step})
  {
    var s', later := Next(s, truth, step), past + {step};
    forall chan | 0 <= chan < |s'.channels| ensures ChannelExplained(s', later, chan) { ChannelStaysExplained(s, truth, step, past, chan); }
    forall k | k in s'.cache ensures ItemExplained(s', later, k) { ItemStaysExplained(s, truth, step, past, k); }
    forall id | id in s'.callers ensures CallerExplained(s', later, id) { CallerStaysExplained(s, truth, step, past, id); }
  }

  function StepSet(steps: seq<Step>): set<Step> {
    set step | step in steps
  }

  lemma {:induction false} RunExplained(s: State, truth: Truth, steps: seq<Step>, past: set<Step>)
    requires Inv(s, truth) && Run(s, truth, steps) && Explained(s, past)
    ensures Explained(After(s, truth, steps), past + StepSet(steps))
    decreases |steps|
  {
    if steps == [] {
      assert past + StepSet(steps) == past;
    } else {
      StepKeeps(s, truth, steps[0]);
      StepStaysExplained(s, truth, steps[0], past);
      RunExplained(Next(s, truth, steps[0]), truth, steps[1..], past + {steps[0]});
      assert steps == [steps[0]] + steps[1..];
      assert past + {steps[0]} + StepSet(steps[1..]) == past + StepSet(steps);
    }
  }

  /** Where a reply comes from, over every run: a caller is answered with a trace or an error only if
      some caller of its key ended without an error or with this one, is cut off only if some caller
      of its key left without a message, and fails on its own only by its own step. */
  lemma RepliesAreExplained(s: State, truth: Truth, steps: seq<Step>, id: nat)
    requires Initial(s) && Run(s, truth, steps)
    requires id in After(s, truth, steps).callers && After(s, truth, steps).callers[id].Done?
    ensures var e, past := After(s, truth, steps), StepSet(steps);
            match e.callers[id].reply
            case Answer(Traced(_)) => Reported(e, past, e.callers[id].key, None)
            case Answer(Failed(error)) => Reported(e, past, e.callers[id].key, Some(error))
            case Disconnected => GaveUp(e, past, e.callers[id].key)
            case DiffFailed => FailDiff(id) in steps
            case ReadsFailed => FailReads(id) in steps
  {
    InitialInv(s, truth);
    RunExplained(s, truth, steps, {});
    assert {} + StepSet(steps) == StepSet(steps);
    assert CallerExplained(After(s, truth, steps), StepSet(steps), id);
  }

  /** A caller whose key no caller failed on gets the trace of its block. */
  lemma HealthyKeyIsAnswered(s: State, truth: Truth, steps: seq<Step>, id: nat)
    requires Initial(s) && Run(s, truth, steps)
    requires id in After(s, truth, steps).callers && After(s, truth, steps).callers[id].Done?
    requires !GaveUp(After(s, truth, steps), StepSet(steps), After(s, truth, steps).callers[id].key)
    requires forall e: nat :: !Reported(After(s, truth, steps), StepSet(steps), After(s, truth, steps).callers[id].key, Some(e))
    ensures var c := After(s, truth, steps).callers[id];
            c.reply == Answer(Traced(truth(c.key)))
  {
    RepliesAreExplained(s, truth, steps, id);
    RepliesAreTruthful(s, truth, steps, id);
  }

  // ----- progress --------------------------------------------------------------------------

  function Rank(c: Caller): nat {
    match c
    case Entering(_) => 3
    case Leading(_, _) => 2
    case Returning(_, _, _) => 1
    case Waiting(_, _, _) => 1
    case Done(_, _, _) => 0
  }

  function StepsOf(steps: seq<Step>, id: nat): nat {
    if steps == [] then 0
    else (if !steps[0].Evict? && steps[0].id == id then 1 else 0) + StepsOf(steps[1..], id)
  }

  /** No caller takes more than three steps, whatever the others do. */
  lemma {:induction false} BoundedSteps(s: State, truth: Truth, steps: seq<Step>, id: nat)
    requires Run(s, truth, steps) && id in s.callers
    ensures id in After(s, truth, steps).callers
    ensures StepsOf(steps, id) + Rank(After(s, truth, steps).callers[id]) <= Rank(s.callers[id])
    decreases |steps|
  {
    if steps != [] {
      BoundedSteps(Next(s, truth, steps[0]), truth, steps[1..], id);
    }
  }

  /** While some caller has no reply, some caller can move: waiting is never circular. */
  lemma NeverStuck(s: State, truth: Truth, steps: seq<Step>, id: nat)
    requires Initial(s) && Run(s, truth, steps)
    requires id in After(s, truth, steps).callers && !After(s, truth, steps).callers[id].Done?
    ensures exists step: Step :: !step.Evict? && Enabled(After(s, truth, steps), step)
  {
    var e := After(s, truth, steps);
    InitialInv(s, truth);
    RunKeeps(s, truth, steps);
    assert CallerOk(e, truth, id);
    match e.callers[id]
    case Entering(_) => assert Enabled(e, Enter(id));
    case Leading(_, _) => assert Enabled(e, FailDiff(id));
    case Returning(_, _, _) => assert Enabled(e, Return(id));
    case Waiting(_, _, _) =>
      WaitersAreWoken(s, truth, steps, id);
      var leader := e.channels[e.callers[id].chan].leader;
      assert Enabled(e, Receive(id)) || Enabled(e, FailDiff(leader)) || Enabled(e, Return(leader));
  }

  // ----- the point of the cache ------------------------------------------------------------

  /** Every channel of the key stems from the one computation whose entry is still there. */
  ghost predicate ComputedOnce(s: State, k: Key) {
    && (forall c :: 0 <= c < |s.channels| && s.channels[c].key == k ==> k in s.cache)
    && (forall c, d :: 0 <= c < d < |s.channels| ==> s.channels[c].key != k || s.channels[d].key != k)
  }

  /** The step neither evicts the key nor is a caller of the key failing on its state diff. */
  predicate Spares(s: State, step: Step, k: Key) {
    step != Evict(k) && (step.FailDiff? && step.id in s.callers ==> s.callers[step.id].key != k)
  }

  lemma SparesLater(s: State, truth: Truth, step: Step, later: Step, k: Key)
    requires Enabled(s, step) && Spares(s, later, k)
    ensures Spares(Next(s, truth, step), later, k)
  {
  }

  /** As long as the entry is neither evicted nor removed after a failed state diff of one of its own
      callers, the traces of a key are computed by at most one caller. */
  lemma {:induction false} SingleComputation(s: State, truth: Truth, steps: seq<Step>, k: Key)
    requires Run(s, truth, steps) && ComputedOnce(s, k)
    requires forall step :: step in steps ==> Spares(s, step, k)
    ensures ComputedOnce(After(s, truth, steps), k)
    decreases |steps|
  {
    if steps != [] {
      assert Spares(s, steps[0], k);
      forall later | later in steps[1..]
        ensures Spares(Next(s, truth, steps[0]), later, k)
      {
        assert later in steps;
        SparesLater(s, truth, steps[0], later, k);
      }
      SingleComputation(Next(s, truth, steps[0]), truth, steps[1..], k);
    }
  }

  // ----- abandoned entries -----------------------------------------------------------------

  /** The entry of the key is in flight on a channel whose leader has left without sending. */
  predicate LeftBehind(s: State, k: Key, chan: nat) {
    && k in s.cache && s.cache[k] == Inflight(chan)
    && chan < |s.channels| && s.channels[chan].sent.None? && !s.channels[chan].open
  }

  /** The steps that lift an entry: its eviction, and the exit of another caller of the key that still
      leads, which is possible when an earlier entry of the key was evicted under it. */
  predicate Lifts(s: State, step: Step, k: Key) {
    step == Evict(k) || ((step.Finish? || step.FailDiff?) && step.id in s.callers && s.callers[step.id].key == k)
  }

  /** An abandoned entry is gone after a step exactly when the step is one of these. */
  lemma LiftedExactly(s: State, truth: Truth, step: Step, k: Key, chan: nat)
    requires Inv(s, truth) && LeftBehind(s, k, chan) && Enabled(s, step)
    ensures LeftBehind(Next(s, truth, step), k, chan) <==> !Lifts(s, step, k)
  {
    assert ChannelOk(s, truth, chan);
    if !step.Evict? {
      assert CallerOk(s, truth, step.id);
    }
  }

  /** A caller of the key that gets, or will get, nothing but a closed channel. */
  predicate Doomed(c: Caller, k: Key, chan: nat) {
    c == Entering(k) || c == Waiting(k, chan, false) || c == Done(k, None, Disconnected)
  }

  lemma DoomedStep(s: State, truth: Truth, step: Step, k: Key, chan: nat, id: nat)
    requires LeftBehind(s, k, chan) && Enabled(s, step)
    requires id in s.callers && Doomed(s.callers[id], k, chan)
    ensures id in Next(s, truth, step).callers && Doomed(Next(s, truth, step).callers[id], k, chan)
  {
  }

  lemma LiftsLater(s: State, truth: Truth, step: Step, later: Step, k: Key)
    requires Enabled(s, step) && !Lifts(s, later, k)
    ensures !Lifts(Next(s, truth, step), later, k)
  {
  }

  /** The exit that leaves its entry behind poisons the key: along every run without a lifting step the
      entry stays, every caller of the key that had not entered yet is still to enter, waits on the
      dead channel and can be woken, or has been told that the channel is closed. */
  lemma {:induction false} AbandonedKeyFails(s: State, truth: Truth, steps: seq<Step>, k: Key, chan: nat, id: nat)
    requires Inv(s, truth) && Run(s, truth, steps) && LeftBehind(s, k, chan)
    requires forall step :: step in steps ==> !Lifts(s, step, k)
    requires id in s.callers && Doomed(s.callers[id], k, chan)
    ensures var e := After(s, truth, steps);
            && LeftBehind(e, k, chan) && id in e.callers && Doomed(e.callers[id], k, chan)
            && (e.callers[id].Waiting? ==> Enabled(e, Receive(id)))
    decreases |steps|
  {
    if steps != [] {
      var step, next := steps[0], Next(s, truth, steps[0]);
      assert !Lifts(s, step, k);
      LiftedExactly(s, truth, step, k, chan);
      DoomedStep(s, truth, step, k, chan, id);
      StepKeeps(s, truth, step);
      forall later | later in steps[1..]
        ensures !Lifts(next, later, k)
      {
        assert later in steps;
        LiftsLater(s, truth, step, later, k);
      }
      AbandonedKeyFails(next, truth, steps[1..], k, chan, id);
    }
  }

  lemma OneMore(s: State, truth: Truth, step: Step, rest: seq<Step>)
    requires Enabled(s, step) && Run(Next(s, truth, step), truth, rest)
    ensures Run(s, truth, [step] + rest)
    ensures After(s, truth, [step] + rest) == After(Next(s, truth, step), truth, rest)
  {
    assert ([step] + rest)[1..] == rest;
  }

  /** Callers 1 and 2 want the same block. */
  function TwoCallers(k: Key): State {
    State(map[], [], map[1 := Entering(k), 2 := Entering(k)])
  }

  /** Caller 1 has led, failed to collect the initial reads, and returned. */
  function Abandoned(k: Key): State {
    State(map[k := Inflight(0)], [Channel(k, 1, None, false)], map[1 := Done(k, Some(0), ReadsFailed), 2 := Entering(k)])
  }

  lemma LeaderAbandons(truth: Truth, k: Key, rest: seq<Step>)
    requires k.initialReads && Run(Abandoned(k), truth, rest)
    ensures var steps := [Enter(1)] + ([FailReads(1)] + ([Return(1)] + rest));
            Run(TwoCallers(k), truth, steps) && After(TwoCallers(k), truth, steps) == After(Abandoned(k), truth, rest)
  {
    var s := TwoCallers(k);
    var s1 := Next(s, truth, Enter(1));
    var s2 := Next(s1, truth, FailReads(1));
    assert Next(s2, truth, Return(1)) == Abandoned(k);
    OneMore(s2, truth, Return(1), rest);
    OneMore(s1, truth, FailReads(1), [Return(1)] + rest);
    OneMore(s, truth, Enter(1), [FailReads(1)] + ([Return(1)] + rest));
  }

  lemma FollowerFails(truth: Truth, k: Key)
    ensures Run(Abandoned(k), truth, [Enter(2)] + ([Receive(2)] + []))
    ensures var e := After(Abandoned(k), truth, [Enter(2)] + ([Receive(2)] + []));
            e == Abandoned(k).(callers := Abandoned(k).callers[2 := Done(k, None, Disconnected)])
  {
    var s1 := Next(Abandoned(k), truth, Enter(2));
    var s2 := Next(s1, truth, Receive(2));
    assert Run(s2, truth, []) && After(s2, truth, []) == s2;
    OneMore(s1, truth, Receive(2), []);
    OneMore(Abandoned(k), truth, Enter(2), [Receive(2)] + []);
    assert s2.callers == Abandoned(k).callers[2 := Done(k, None, Disconnected)];
  }

  const ABANDONING: seq<Step> := [Enter(1), FailReads(1), Return(1), Enter(2), Receive(2)]

  /** From the start, for any block with initial reads: the second caller finds the abandoned entry and
      a closed channel, and the entry is still there. */
  lemma AbandonedRun(truth: Truth, block: nat)
    ensures var k := Key(block, true);
            && Initial(TwoCallers(k)) && Run(TwoCallers(k), truth, ABANDONING)
            && var e := After(TwoCallers(k), truth, ABANDONING);
               && 2 in e.callers && e.callers[2] == Done(k, None, Disconnected)
               && k in e.cache && e.cache[k].Inflight?
  {
    var k := Key(block, true);
    FollowerFails(truth, k);
    var rest := [Enter(2)] + ([Receive(2)] + []);
    LeaderAbandons(truth, k, rest);
    assert ABANDONING == [Enter(1)] + ([FailReads(1)] + ([Return(1)] + rest));
  }
}
