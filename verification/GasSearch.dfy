/**
 The search for the minimal L2 gas limit: simulate with the maximum, try the consumed amount plus a
 margin, and otherwise run a binary search over a stateful executor that is restored after every
 trial run.
 */
module GasSearch {
  import opened Common

  const SEARCH_MARGIN: nat := 1_000_000

  datatype GasVector = GasVector(l1Gas: nat, l1DataGas: nat, l2Gas: nat)

  /** The outcome of a run that ended in a receipt. */
  datatype Output<O> = Output(info: O, reverted: bool, insufficientGas: bool, gas: GasVector)

  /** Executing either yields an output or an error; both leave some block state behind. */
  datatype Run<S, O> =
    | Finished(output: Output<O>, after: S)
    | Errored(insufficientGas: bool, error: nat, after: S)

  datatype Simulation<S, O> =
    | Simulated(output: Output<O>, saved: S)
    | OutOfGas(saved: S)
    | Failed(error: Error)

  datatype Error = Reverted | ExecutorError(code: nat) | MaximumExceeded | BalanceError(code: nat)

  class Executor<S, O> {
    const run: (S, nat) -> Run<S, O>
    var blockState: S

    constructor (run: (S, nat) -> Run<S, O>, state: S)
      ensures this.run == run && blockState == state
    {
      this.run, this.blockState := run, state;
    }

    method Execute(limit: nat) returns (r: Run<S, O>)
      modifies this
      ensures r == run(old(blockState), limit) && blockState == r.after
    {
      r := run(blockState, limit);
      blockState := r.after;
    }
  }

  class Transaction {
    var l2GasLimit: nat
    const chargeFee: bool

    constructor (limit: nat, chargeFee: bool)
      ensures l2GasLimit == limit && this.chargeFee == chargeFee
    {
      this.l2GasLimit, this.chargeFee := limit, chargeFee;
    }
  }

  /** How `simulate_transaction` reads a run that started in `initial`. */
  function Judge<S, O>(r: Run<S, O>, failOnRevert: bool, initial: S): Simulation<S, O> {
    match r
    case Finished(o, _) =>
      if o.insufficientGas then OutOfGas(initial)
      else if failOnRevert && o.reverted then Failed(Reverted)
      else Simulated(o, initial)
    case Errored(insufficient, code, _) =>
      if insufficient then OutOfGas(initial) else Failed(ExecutorError(code))
  }

  method SimulateTransaction<S, O>(ex: Executor<S, O>, tx: Transaction, failOnRevert: bool) returns (sim: Simulation<S, O>)
    modifies ex
    ensures sim == Judge(ex.run(old(ex.blockState), tx.l2GasLimit), failOnRevert, old(ex.blockState))
    ensures ex.blockState == ex.run(old(ex.blockState), tx.l2GasLimit).after
  {
    var initial := ex.blockState;
    var r := ex.Execute(tx.l2GasLimit);
    match r
    case Finished(o, _) =>
      if o.insufficientGas {
        return OutOfGas(initial);
      }
      if failOnRevert && o.reverted {
        return Failed(Reverted);
      }
      return Simulated(o, initial);
    case Errored(insufficient, code, _) =>
      if insufficient {
        return OutOfGas(initial);
      }
      return Failed(ExecutorError(code));
  }

  /** How `execute_transaction` reads a run: out of gas is an outcome like any other. */
  function Verdict<S, O>(r: Run<S, O>, failOnRevert: bool): Result<Output<O>, Error> {
    match r
    case Finished(o, _) => if failOnRevert && o.reverted then Err(Reverted) else Ok(o)
    case Errored(_, code, _) => Err(ExecutorError(code))
  }

  predicate RanOut<S, O>(r: Run<S, O>) {
    match r
    case Finished(o, _) => o.insufficientGas
    case Errored(insufficient, _, _) => insufficient
  }

  /** Simulating and executing differ only in what they make of running out of gas. */
  lemma SimulationAgreesWithExecution<S, O>(r: Run<S, O>, failOnRevert: bool, initial: S)
    ensures match Judge(r, failOnRevert, initial)
            case OutOfGas(saved) => RanOut(r) && saved == initial
            case Failed(error) => !RanOut(r) && Verdict(r, failOnRevert) == Err(error)
            case Simulated(output, saved) => !RanOut(r) && Verdict(r, failOnRevert) == Ok(output) && saved == initial
    ensures Verdict(r, failOnRevert).Ok? <==> r.Finished? && (failOnRevert ==> !r.output.reverted)
  {
  }

  method ExecuteTransaction<S, O>(ex: Executor<S, O>, tx: Transaction, failOnRevert: bool) returns (r: Result<Output<O>, Error>)
    modifies ex
    ensures r == Verdict(ex.run(old(ex.blockState), tx.l2GasLimit), failOnRevert)
    ensures ex.blockState == ex.run(old(ex.blockState), tx.l2GasLimit).after
  {
    var outcome := ex.Execute(tx.l2GasLimit);
    match outcome
    case Finished(o, _) =>
      if failOnRevert && o.reverted {
        return Err(Reverted);
      }
      return Ok(o);
    case Errored(_, code, _) => return Err(ExecutorError(code));
  }

  /** Rounds up, so that a gap of one still reaches the upper bound. */
  function Midpoint(a: nat, b: nat): (m: nat)
    requires a <= b
    ensures a <= m <= b
    ensures a < b ==> a < m
    ensures 2 * (m - a) <= b - a + 1
  {
    a + (b - a + 1) / 2
  }

  predicate SearchDone(lower: nat, upper: nat)
    requires lower <= upper
  {
    upper - lower <= SEARCH_MARGIN
  }

  // ----- how long the search takes ---------------------------------------------------------

  /** The least n with d <= 2^n. */
  function CeilLog2(d: nat): nat {
    if d <= 1 then 0 else 1 + CeilLog2((d + 1) / 2)
  }

  lemma {:induction false} CeilLog2Exact(d: nat)
    ensures d <= Pow2(CeilLog2(d))
    ensures forall n: nat :: d <= Pow2(n) ==> CeilLog2(d) <= n
  {
    if d > 1 {
      var half := (d + 1) / 2;
      CeilLog2Exact(half);
      forall n: nat | d <= Pow2(n)
        ensures CeilLog2(d) <= n
      {
        assert n != 0;
        assert half <= Pow2(n - 1);
      }
    }
  }

  lemma {:induction false} CeilLog2Mono(a: nat, b: nat)
    requires a <= b
    ensures CeilLog2(a) <= CeilLog2(b)
  {
    CeilLog2Exact(a);
    CeilLog2Exact(b);
  }

  // ----- what is promised ------------------------------------------------------------------

  /** Running out of gas happens exactly below `t`. */
  ghost predicate Threshold<S(!new), O(!new)>(run: (S, nat) -> Run<S, O>, s: S, t: nat) {
    forall limit: nat :: Judge(run(s, limit), false, s).OutOfGas? <==> limit < t
  }

  ghost predicate Sufficient<S, O>(run: (S, nat) -> Run<S, O>, s: S, limit: nat, failOnRevert: bool) {
    Judge(run(s, limit), failOnRevert, s).Simulated?
  }

  function Percent(n: nat, percent: nat): nat {
    n * percent / 100
  }

  /** Below `t` the transaction runs out of gas, from `t` on it runs. */
  ghost predicate RunsFrom<S(!new), O(!new)>(run: (S, nat) -> Run<S, O>, s: S, t: nat, failOnRevert: bool) {
    && Threshold(run, s, t)
    && (forall limit: nat :: t <= limit ==> Sufficient(run, s, limit, failOnRevert))
  }

  lemma RunsFromNeverFails<S(!new), O(!new)>(run: (S, nat) -> Run<S, O>, s: S, t: nat, limit: nat, failOnRevert: bool)
    requires RunsFrom(run, s, t, failOnRevert)
    ensures !Judge(run(s, limit), failOnRevert, s).Failed?
    ensures Judge(run(s, limit), failOnRevert, s).OutOfGas? <==> limit < t
  {
    assert Judge(run(s, limit), false, s).OutOfGas? <==> limit < t;
    assert t <= limit ==> Sufficient(run, s, limit, failOnRevert);
  }

  /** The consumed amount plus epsilon percent, saturating. */
  function Adjusted(consumed: nat, epsilon: nat): nat {
    var a := consumed + Percent(consumed, epsilon);
    if a <= U64_MAX then a else U64_MAX
  }

  /** Epsilon percent on top, rounded down, unless that leaves u64: then the largest u64. */
  lemma AdjustedExactly(consumed: nat, epsilon: nat)
    requires consumed <= U64_MAX
    ensures var a := Adjusted(consumed, epsilon);
            && consumed <= a
            && if consumed * epsilon < 100 * (U64_MAX + 1 - consumed)
               then consumed * epsilon - 100 < 100 * (a - consumed) <= consumed * epsilon
               else a == U64_MAX
  {
    PercentRoundsDown(consumed * epsilon);
  }

  lemma PercentRoundsDown(product: nat)
    ensures product - 100 < 100 * (product / 100) <= product
  {
  }

  lemma ThresholdSides<S(!new), O(!new)>(run: (S, nat) -> Run<S, O>, s: S, t: nat, limit: nat, failOnRevert: bool)
    requires Threshold(run, s, t)
    ensures Sufficient(run, s, limit, failOnRevert) ==> t <= limit
    ensures Judge(run(s, limit), failOnRevert, s).OutOfGas? ==> limit < t
  {
    assert Judge(run(s, limit), false, s).OutOfGas? <==> limit < t;
  }

  /** The search for a known threshold: halve the interval, rounding up, keep the half that holds the
      threshold, and stop at the first sufficient trial in an interval of at most a million. */
  function Probe(t: nat, lower: nat, upper: nat): (r: (nat, nat))
    requires lower <= upper && t <= upper
    ensures t <= r.0 <= upper && r.1 >= 1
    decreases upper - lower
  {
    var middle := (lower + upper + 1) / 2;
    if middle < t then
      var (limit, trials) := Probe(t, middle, upper);
      (limit, trials + 1)
    else if upper - lower <= 1_000_000 then (middle, 1)
    else
      var (limit, trials) := Probe(t, lower, middle);
      (limit, trials + 1)
  }

  /** The last run was the trial at the current limit from `s`; it failed with `error`, other than by
      running out of gas, and its state was not restored. */
  ghost predicate TrialFailed<S, O>(ex: Executor<S, O>, tx: Transaction, failOnRevert: bool, s: S, error: Error)
    reads ex, tx
  {
    && Judge(ex.run(s, tx.l2GasLimit), failOnRevert, s) == Failed(error)
    && ex.blockState == ex.run(s, tx.l2GasLimit).after
  }

  /** After this many trials the search for `t` is down to this interval. */
  ghost predicate StillProbing(t: nat, consumed: nat, max: nat, lower: nat, upper: nat, trials: nat)
    requires consumed <= max && t <= max && lower <= upper && t <= upper
  {
    Probe(t, consumed, max) == (Probe(t, lower, upper).0, Probe(t, lower, upper).1 + trials)
  }

  ghost predicate OnTrack<S(!new), O(!new)>(run: (S, nat) -> Run<S, O>, s: S, failOnRevert: bool, consumed: nat, max: nat,
                                            lower: nat, upper: nat, trials: nat)
    requires consumed <= max && lower <= upper
  {
    forall t: nat :: RunsFrom(run, s, t, failOnRevert) ==>
      t <= max && t <= upper && StillProbing(t, consumed, max, lower, upper, trials)
  }

  lemma TrackStarts<S(!new), O(!new)>(run: (S, nat) -> Run<S, O>, s: S, failOnRevert: bool, consumed: nat, max: nat)
    requires consumed <= max && Sufficient(run, s, max, failOnRevert)
    ensures OnTrack(run, s, failOnRevert, consumed, max, consumed, max, 0)
  {
    forall t: nat | RunsFrom(run, s, t, failOnRevert)
      ensures t <= max
    {
      ThresholdSides(run, s, t, max, failOnRevert);
    }
  }

  /** A trial that is not an error moves the reference search by one trial as well. */
  lemma TrackTrial<S(!new), O(!new)>(run: (S, nat) -> Run<S, O>, s: S, failOnRevert: bool, consumed: nat, max: nat,
                                     lower: nat, upper: nat, trials: nat, current: nat)
    requires consumed <= max && lower <= upper && current == Midpoint(lower, upper)
    requires OnTrack(run, s, failOnRevert, consumed, max, lower, upper, trials)
    ensures Judge(run(s, current), failOnRevert, s).OutOfGas? ==>
              OnTrack(run, s, failOnRevert, consumed, max, current, upper, trials + 1)
    ensures Judge(run(s, current), failOnRevert, s).Simulated? && !SearchDone(lower, upper) ==>
              OnTrack(run, s, failOnRevert, consumed, max, lower, current, trials + 1)
    ensures Judge(run(s, current), failOnRevert, s).Simulated? && SearchDone(lower, upper) ==>
              forall t: nat :: RunsFrom(run, s, t, failOnRevert) ==> t <= max && Probe(t, consumed, max) == (current, trials + 1)
  {
    forall t: nat | RunsFrom(run, s, t, failOnRevert)
      ensures t <= max && t <= upper && StillProbing(t, consumed, max, lower, upper, trials)
      ensures Judge(run(s, current), failOnRevert, s).OutOfGas? <==> current < t
    {
      RunsFromNeverFails(run, s, t, current, failOnRevert);
    }
  }

  /** The binary search.  It needs no monotonicity to terminate: the upper bound is always a limit
      that was seen to suffice, and executors are deterministic.  Neither subtraction underflows. */
  method Search<S(!new), O(!new)>(ex: Executor<S, O>, tx: Transaction, failOnRevert: bool, consumed: nat, max: nat)
    returns (r: Result<(Output<O>, nat, S), Error>, steps: nat)
    requires consumed <= max
    requires Sufficient(ex.run, ex.blockState, max, failOnRevert)
    modifies ex, tx`l2GasLimit
    ensures 1 <= steps <= CeilLog2(max - consumed) + 1
    ensures r.Ok? ==>
              var (output, limit, saved) := r.value;
              && saved == old(ex.blockState)
              && consumed <= limit <= max && tx.l2GasLimit == limit
              && Sufficient(ex.run, old(ex.blockState), limit, failOnRevert)
              && ex.run(old(ex.blockState), limit) == Finished(output, ex.blockState)
              && forall t: nat :: Threshold(ex.run, old(ex.blockState), t) && consumed < t ==>
                   t <= limit < t + 500_000
    ensures r.Err? ==> consumed <= tx.l2GasLimit <= max && TrialFailed(ex, tx, failOnRevert, old(ex.blockState), r.error)
    ensures forall t: nat :: RunsFrom(ex.run, old(ex.blockState), t, failOnRevert) ==>
              r.Ok? && t <= max && (r.value.1, steps) == Probe(t, consumed, max)
  {
    ghost var s := ex.blockState;
    var lower, upper := consumed, max;
    TrackStarts(ex.run, s, failOnRevert, consumed, max);
    var current := Midpoint(lower, upper);
    steps := 0;
    while true
      invariant consumed <= lower <= upper <= max && current == Midpoint(lower, upper)
      invariant ex.blockState == s
      invariant Sufficient(ex.run, s, upper, failOnRevert)
      invariant forall t: nat :: Threshold(ex.run, s, t) && consumed < t ==> lower < t
      invariant steps + CeilLog2(upper - lower) <= CeilLog2(max - consumed)
      invariant OnTrack(ex.run, s, failOnRevert, consumed, max, lower, upper, steps)
      decreases upper - lower
    {
      TrackTrial(ex.run, s, failOnRevert, consumed, max, lower, upper, steps, current);
      steps := steps + 1;
      tx.l2GasLimit := current;
      var sim := SimulateTransaction(ex, tx, failOnRevert);
      match sim
      case Simulated(output, saved) =>
        forall t: nat | Threshold(ex.run, s, t)
          ensures t <= current
        {
          ThresholdSides(ex.run, s, t, current, failOnRevert);
        }
        if SearchDone(lower, upper) {
          return Ok((output, current, saved)), steps;
        }
        ex.blockState := saved;
        upper := current;
        current := Midpoint(lower, upper);
      case OutOfGas(saved) =>
        ex.blockState := saved;
        assert current != upper;
        forall t: nat | Threshold(ex.run, s, t)
          ensures current < t
        {
          ThresholdSides(ex.run, s, t, current, failOnRevert);
        }
        CeilLog2Mono(upper - current, (upper - lower + 1) / 2);
        lower := current;
        current := Midpoint(lower, upper);
      case Failed(error) =>
        forall t: nat | RunsFrom(ex.run, s, t, failOnRevert)
          ensures false
        {
          RunsFromNeverFails(ex.run, s, t, current, failOnRevert);
        }
        return Err(error), steps;
    }
  }

  /** What finding a limit promises: the run at that limit is the one the executor has just made,
      it did not run out of gas, and the limit is at most half a margin above any threshold when it
      was searched for. */
  ghost predicate Found<S(!new), O(!new)>(run: (S, nat) -> Run<S, O>, s: S, after: S, failOnRevert: bool,
                                          first: Output<O>, epsilon: nat, output: Output<O>, gas: GasVector, steps: nat)
  {
    && run(s, gas.l2Gas) == Finished(output, after)
    && Sufficient(run, s, gas.l2Gas, failOnRevert)
    && first.gas.l2Gas <= gas.l2Gas
    && (steps == 0 ==> gas == output.gas.(l2Gas := Adjusted(first.gas.l2Gas, epsilon)))
    && (steps != 0 ==> gas == first.gas.(l2Gas := gas.l2Gas))
    && (forall t: nat :: Threshold(run, s, t) ==>
          t <= gas.l2Gas && (steps != 0 ==> gas.l2Gas < t + 500_000))
  }

  lemma FirstTryFound<S(!new), O(!new)>(run: (S, nat) -> Run<S, O>, s: S, after: S, failOnRevert: bool,
                                        first: Output<O>, epsilon: nat, output: Output<O>, adjusted: nat)
    requires run(s, adjusted) == Finished(output, after) && Sufficient(run, s, adjusted, failOnRevert)
    requires first.gas.l2Gas <= adjusted == Adjusted(first.gas.l2Gas, epsilon)
    ensures Found(run, s, after, failOnRevert, first, epsilon, output, output.gas.(l2Gas := adjusted), 0)
  {
    forall t: nat | Threshold(run, s, t)
      ensures t <= adjusted
    {
      ThresholdSides(run, s, t, adjusted, failOnRevert);
    }
  }

  /** When the adjusted amount is not enough, the search starts from the consumed amount, which must
      not exceed the maximum; otherwise the first midpoint cannot be taken. */
  predicate SearchStarts<S, O>(run: (S, nat) -> Run<S, O>, s: S, failOnRevert: bool, epsilon: nat, max: nat, first: Output<O>) {
    Judge(run(s, Adjusted(first.gas.l2Gas, epsilon)), failOnRevert, s).OutOfGas? ==> first.gas.l2Gas <= max
  }

  /** The second part of the search function: try the adjusted amount, then search. */
  method FindLimit<S(!new), O(!new)>(ex: Executor<S, O>, tx: Transaction, failOnRevert: bool, epsilon: nat, max: nat, first: Output<O>)
    returns (r: Result<(Output<O>, GasVector, S), Error>, steps: nat)
    requires first.gas.l2Gas <= U64_MAX && SearchStarts(ex.run, ex.blockState, failOnRevert, epsilon, max, first)
    requires Judge(ex.run(ex.blockState, max), failOnRevert, ex.blockState) == Simulated(first, ex.blockState)
    modifies ex, tx`l2GasLimit
    ensures steps == 0 || (first.gas.l2Gas <= max && steps <= CeilLog2(max - first.gas.l2Gas) + 1)
    ensures r.Ok? ==>
              var (output, gas, saved) := r.value;
              && saved == old(ex.blockState) && tx.l2GasLimit == gas.l2Gas
              && Found(ex.run, old(ex.blockState), ex.blockState, failOnRevert, first, epsilon, output, gas, steps)
    ensures r.Err? ==> TrialFailed(ex, tx, failOnRevert, old(ex.blockState), r.error)
    ensures match Judge(ex.run(old(ex.blockState), Adjusted(first.gas.l2Gas, epsilon)), failOnRevert, old(ex.blockState))
            case Failed(error) => r == Err(error) && steps == 0
            case Simulated(_, _) => r.Ok? && steps == 0
            case OutOfGas(_) => steps >= 1
    ensures forall t: nat :: RunsFrom(ex.run, old(ex.blockState), t, failOnRevert) ==> r.Ok?
  {
    ghost var s := ex.blockState;
    steps := 0;
    var adjusted := Adjusted(first.gas.l2Gas, epsilon);
    tx.l2GasLimit := adjusted;
    var sim := SimulateTransaction(ex, tx, failOnRevert);
    match sim
    case Failed(error) =>
      forall t: nat | RunsFrom(ex.run, s, t, failOnRevert)
        ensures false
      {
        RunsFromNeverFails(ex.run, s, t, adjusted, failOnRevert);
      }
      return Err(error), 0;
    case Simulated(output, saved) =>
      FirstTryFound(ex.run, s, ex.blockState, failOnRevert, first, epsilon, output, adjusted);
      return Ok((output, output.gas.(l2Gas := adjusted), saved)), 0;
    case OutOfGas(saved) =>
      ex.blockState := saved;
      forall t: nat | Threshold(ex.run, s, t)
        ensures adjusted < t
      {
        ThresholdSides(ex.run, s, t, adjusted, failOnRevert);
      }
      var found;
      found, steps := Search(ex, tx, failOnRevert, first.gas.l2Gas, max);
      if found.Err? {
        return Err(found.error), steps;
      }
      var (output, limit, again) := found.value;
      return Ok((output, first.gas.(l2Gas := limit), again)), steps;
  }

  /** The limit at which the transaction is finally executed. */
  function FinalLimit(found: nat, initial: nat, chargeFee: bool): (limit: nat)
    ensures limit <= found && (chargeFee ==> limit <= initial)
    ensures limit == found || (chargeFee && limit == initial)
  {
    if chargeFee && initial < found then initial else found
  }

  /** A limit above the user's was found, fees are charged, and the run at the user's limit failed. */
  ghost predicate FinalFailed<S(!new), O(!new)>(ex: Executor<S, O>, tx: Transaction, failOnRevert: bool, s: S, initial: nat,
                                                first: Output<O>, epsilon: nat, steps: nat, error: Error)
    reads ex, tx
  {
    && tx.chargeFee && tx.l2GasLimit == initial
    && Verdict(ex.run(s, initial), failOnRevert) == Err(error)
    && ex.blockState == ex.run(s, initial).after
    && exists searched, after, gas: GasVector ::
         initial < gas.l2Gas && Found(ex.run, s, after, failOnRevert, first, epsilon, searched, gas, steps)
  }

  /** `find_l2_gas_limit_and_execute_transaction`.  However many trial runs there were, on success
      the executor has executed the transaction exactly once from the original state, and the
      returned output is that of this very run. */
  method FindLimitAndExecute<S(!new), O(!new)>(ex: Executor<S, O>, tx: Transaction, failOnRevert: bool, epsilon: nat, maxLimit: Result<nat, Error>)
    returns (r: Result<(Output<O>, GasVector), Error>, steps: nat)
    requires maxLimit.Ok? ==> maxLimit.value <= U64_MAX
    requires maxLimit.Ok? && ex.run(ex.blockState, maxLimit.value).Finished? ==>
               var first := ex.run(ex.blockState, maxLimit.value).output;
               first.gas.l2Gas <= U64_MAX && SearchStarts(ex.run, ex.blockState, failOnRevert, epsilon, maxLimit.value, first)
    modifies ex, tx`l2GasLimit
    ensures maxLimit.Err? ==> r == Err(maxLimit.error) && ex.blockState == old(ex.blockState)
    ensures r.Ok? ==>
              && maxLimit.Ok? && ex.run(old(ex.blockState), maxLimit.value).Finished?
              && var (output, gas) := r.value;
                 var s := old(ex.blockState);
                 var first := ex.run(s, maxLimit.value).output;
                 var final := FinalLimit(gas.l2Gas, old(tx.l2GasLimit), tx.chargeFee);
                 && ex.run(s, final) == Finished(output, ex.blockState) && tx.l2GasLimit == final
                 && (exists searched, after :: Found(ex.run, s, after, failOnRevert, first, epsilon, searched, gas, steps))
                 && (steps == 0 || (first.gas.l2Gas <= maxLimit.value && steps <= CeilLog2(maxLimit.value - first.gas.l2Gas) + 1))
    ensures maxLimit.Ok? ==>
              match Judge(ex.run(old(ex.blockState), maxLimit.value), failOnRevert, old(ex.blockState))
              case OutOfGas(_) => r == Err(MaximumExceeded)
              case Failed(error) => r == Err(error)
              case Simulated(first, _) =>
                r.Err? ==>
                  || TrialFailed(ex, tx, failOnRevert, old(ex.blockState), r.error)
                  || FinalFailed(ex, tx, failOnRevert, old(ex.blockState), old(tx.l2GasLimit), first, epsilon, steps, r.error)
    ensures maxLimit.Ok? && r.Err? ==> ex.blockState == ex.run(old(ex.blockState), tx.l2GasLimit).after
    ensures maxLimit.Ok? ==>
              forall t: nat :: RunsFrom(ex.run, old(ex.blockState), t, failOnRevert) ==>
                if maxLimit.value < t then r == Err(MaximumExceeded)
                else r.Ok? || (tx.chargeFee && Verdict(ex.run(old(ex.blockState), old(tx.l2GasLimit)), failOnRevert) == Err(r.error))
  {
    if maxLimit.Err? {
      return Err(maxLimit.error), 0;
    }
    ghost var s := ex.blockState;
    var initialLimit := tx.l2GasLimit;
    tx.l2GasLimit := maxLimit.value;
    var sim := SimulateTransaction(ex, tx, failOnRevert);
    forall t: nat | RunsFrom(ex.run, s, t, failOnRevert)
      ensures !sim.Failed? && (sim.OutOfGas? <==> maxLimit.value < t)
    {
      RunsFromNeverFails(ex.run, s, t, maxLimit.value, failOnRevert);
    }
    match sim
    case Failed(error) => return Err(error), 0;
    case OutOfGas(_) => return Err(MaximumExceeded), 0;
    case Simulated(first, saved) =>
      ex.blockState := saved;
      var found;
      found, steps := FindLimit(ex, tx, failOnRevert, epsilon, maxLimit.value, first);
      if found.Err? {
        return Err(found.error), steps;
      }
      var (output, gas, restored) := found.value;
      r := Ok((output, gas));
      if tx.chargeFee && gas.l2Gas > initialLimit {
        tx.l2GasLimit := initialLimit;
        ex.blockState := restored;
        var again := ExecuteTransaction(ex, tx, failOnRevert);
        if again.Err? {
          return Err(again.error), steps;
        }
        r := Ok((again.value, gas));
      }
  }
}
