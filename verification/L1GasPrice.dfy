/**
 The L1 gas price buffer: a bounded queue of linked L1 blocks, and the rolling mean read from it.
 The build checks unsigned overflow, so leaving an integer type stops the call (`Panicked`).
 */
module L1GasPrice {
  import opened Common

  const MAX_BLOCK_NUMBER: nat := 0x7fff_ffff_ffff_ffff

  datatype Sample = Sample(number: nat, hash: nat, parent: nat, timestamp: nat, baseFee: nat, blobFee: nat)

  datatype Config = Config(storageLimit: nat, blocksForMean: nat, lag: nat, maxGap: nat)

  datatype AddResult = Added | Gap(expected: nat, actual: nat) | Reorg(number: nat, expectedParent: nat, actualParent: nat) | Panicked

  // ----- adding and clearing ---------------------------------------------------------------

  /** The answer of `add_sample` against what is already stored. */
  function Judge(stored: seq<Sample>, s: Sample): AddResult {
    if stored == [] then Added
    else
      var last := stored[|stored| - 1];
      if last.number + 1 > MAX_BLOCK_NUMBER then Panicked
      else if s.number != last.number + 1 then Gap(last.number + 1, s.number)
      else if s.parent != last.hash then Reorg(s.number, last.hash, s.parent)
      else Added
  }

  /** Against a stored block: accepted exactly if it continues the chain, a gap exactly if its number is
      not the next one, a reorg exactly if it is but its parent is another block. */
  lemma RefusedExactly(stored: seq<Sample>, s: Sample)
    requires stored != [] && stored[|stored| - 1].number < MAX_BLOCK_NUMBER
    ensures var last := stored[|stored| - 1];
            match Judge(stored, s)
            case Added => Linked(last, s)
            case Gap(expected, actual) => expected == last.number + 1 != actual == s.number
            case Reorg(number, expected, actual) =>
              number == s.number == last.number + 1 && expected == last.hash != actual == s.parent
            case Panicked => false
  {
  }

  /** One queue step: the front makes room once the limit is reached. */
  function Pushed(limit: nat, buffer: seq<Sample>, s: Sample): seq<Sample> {
    (if |buffer| >= limit && buffer != [] then buffer[1..] else buffer) + [s]
  }

  datatype Op = Add(sample: Sample) | Clear

  function Step(limit: nat, buffer: seq<Sample>, op: Op): seq<Sample> {
    match op
    case Clear => []
    case Add(s) => if Judge(buffer, s) == Added then Pushed(limit, buffer, s) else buffer
  }

  /** The buffer after any sequence of calls on a new provider. */
  function Run(limit: nat, ops: seq<Op>): seq<Sample> {
    if ops == [] then [] else Step(limit, Run(limit, ops[..|ops| - 1]), ops[|ops| - 1])
  }

  predicate Linked(a: Sample, b: Sample) {
    b.number == a.number + 1 && b.parent == a.hash
  }

  predicate LinkedAt(s: seq<Sample>, i: int) {
    0 < i < |s| ==> Linked(s[i - 1], s[i])
  }

  /** Consecutive block numbers, each block naming its predecessor's hash. */
  ghost predicate Chain(s: seq<Sample>) {
    forall i: int :: LinkedAt(s, i)
  }

  /** The samples that extend the chain since the last clear, with no bound on their number. */
  function Accepted(ops: seq<Op>): seq<Sample> {
    if ops == [] then []
    else
      var before := Accepted(ops[..|ops| - 1]);
      match ops[|ops| - 1]
      case Clear => []
      case Add(s) =>
        if before == [] then [s]
        else if before[|before| - 1].number < MAX_BLOCK_NUMBER && Linked(before[|before| - 1], s) then before + [s]
        else before
  }

  function Newest(s: seq<Sample>, n: nat): seq<Sample> {
    if |s| <= n then s else s[|s| - n..]
  }

  function Capacity(limit: nat): nat {
    if limit == 0 then 1 else limit
  }

  lemma PushedKeepsNewest(limit: nat, all: seq<Sample>, s: Sample)
    ensures Pushed(limit, Newest(all, Capacity(limit)), s) == Newest(all + [s], Capacity(limit))
  {
  }

  lemma LastOfNewest(all: seq<Sample>, n: nat)
    requires n >= 1
    ensures |Newest(all, n)| == 0 <==> |all| == 0
    ensures all != [] ==> Newest(all, n)[|Newest(all, n)| - 1] == all[|all| - 1]
  {
  }

  lemma ChainExtends(s: seq<Sample>, next: Sample)
    requires Chain(s) && (s != [] ==> Linked(s[|s| - 1], next))
    ensures Chain(s + [next])
  {
    forall i: int
      ensures LinkedAt(s + [next], i)
    {
      assert LinkedAt(s, i);
    }
  }

  lemma {:induction false} AcceptedIsChain(ops: seq<Op>)
    ensures Chain(Accepted(ops))
    decreases |ops|
  {
    if ops != [] {
      var before, op := Accepted(ops[..|ops| - 1]), ops[|ops| - 1];
      AcceptedIsChain(ops[..|ops| - 1]);
      if op.Add? && Accepted(ops) == before + [op.sample] && (before != [] ==> Linked(before[|before| - 1], op.sample)) {
        ChainExtends(before, op.sample);
      }
    }
  }

  lemma ChainOfNewest(all: seq<Sample>, n: nat)
    requires Chain(all)
    ensures Chain(Newest(all, n))
  {
    forall i: int
      ensures LinkedAt(Newest(all, n), i)
    {
      assert LinkedAt(all, i) && LinkedAt(all, |all| - n + i);
    }
  }

  lemma StepKeepsNewest(limit: nat, all: seq<Sample>, s: Sample)
    ensures Step(limit, Newest(all, Capacity(limit)), Add(s))
         == Newest(if Judge(all, s) == Added then all + [s] else all, Capacity(limit))
  {
    LastOfNewest(all, Capacity(limit));
    PushedKeepsNewest(limit, all, s);
  }

  /** After any calls the buffer is exactly the newest accepted samples since the last clear, and
      they form a chain. */
  lemma {:induction false} BufferIsNewestAccepted(limit: nat, ops: seq<Op>)
    ensures Run(limit, ops) == Newest(Accepted(ops), Capacity(limit))
    ensures Chain(Run(limit, ops))
    decreases |ops|
  {
    if ops != [] {
      var before, op := ops[..|ops| - 1], ops[|ops| - 1];
      BufferIsNewestAccepted(limit, before);
      if op.Add? {
        StepKeepsNewest(limit, Accepted(before), op.sample);
      }
    }
    AcceptedIsChain(ops);
    ChainOfNewest(Accepted(ops), Capacity(limit));
  }

  /** The configured limit is respected exactly when it is not zero, or nothing was accepted. */
  lemma LimitHonouredExactly(limit: nat, ops: seq<Op>)
    ensures Run(limit, ops) == Newest(Accepted(ops), limit) <==> limit >= 1 || Accepted(ops) == []
    ensures |Run(limit, ops)| <= limit <==> limit >= 1 || Accepted(ops) == []
  {
    BufferIsNewestAccepted(limit, ops);
  }

  /** `add_samples`: stops at the first sample that is refused. */
  function AddAll(limit: nat, buffer: seq<Sample>, samples: seq<Sample>): (seq<Sample>, AddResult)
    decreases |samples|
  {
    if samples == [] then (buffer, Added)
    else if Judge(buffer, samples[0]) != Added then (buffer, Judge(buffer, samples[0]))
    else AddAll(limit, Pushed(limit, buffer, samples[0]), samples[1..])
  }

  function Adds(samples: seq<Sample>): (r: seq<Op>)
    ensures |r| == |samples|
  {
    if samples == [] then [] else [Add(samples[0])] + Adds(samples[1..])
  }

  /** A bulk add is the run of single adds up to the first refusal. */
  lemma {:induction false} BulkAddIsRun(limit: nat, ops: seq<Op>, samples: seq<Sample>) returns (k: nat)
    ensures k <= |samples|
    ensures AddAll(limit, Run(limit, ops), samples).0 == Run(limit, ops + Adds(samples[..k]))
    ensures AddAll(limit, Run(limit, ops), samples).1 == Added <==> k == |samples|
    ensures k < |samples| ==> AddAll(limit, Run(limit, ops), samples).1 == Judge(Run(limit, ops + Adds(samples[..k])), samples[k])
    decreases |samples|
  {
    k := 0;
    assert ops + Adds(samples[..0]) == ops;
    if samples != [] && Judge(Run(limit, ops), samples[0]) == Added {
      var next := ops + [Add(samples[0])];
      assert next[..|next| - 1] == ops;
      var rest := BulkAddIsRun(limit, next, samples[1..]);
      k := rest + 1;
      assert samples[..k][1..] == samples[1..][..rest];
      assert ops + Adds(samples[..k]) == next + Adds(samples[1..][..rest]);
    }
  }

  function Tail(buffer: seq<Sample>): seq<Sample> {
    if buffer == [] then [] else [buffer[|buffer| - 1]]
  }

  lemma ChainCons(x: Sample, rest: seq<Sample>)
    ensures Chain([x] + rest) <==> (rest != [] ==> Linked(x, rest[0])) && Chain(rest)
  {
    var all := [x] + rest;
    if Chain(all) {
      assert LinkedAt(all, 1);
      forall i: int
        ensures LinkedAt(rest, i)
      {
        assert LinkedAt(all, i + 1);
      }
    }
    if (rest != [] ==> Linked(x, rest[0])) && Chain(rest) {
      forall i: int
        ensures LinkedAt(all, i)
      {
        assert LinkedAt(rest, i - 1);
      }
    }
  }

  /** It succeeds exactly when the samples form a chain that continues the stored one. */
  lemma {:induction false} BulkAddSucceedsExactly(limit: nat, buffer: seq<Sample>, samples: seq<Sample>)
    requires forall i :: 0 <= i < |samples| ==> samples[i].number <= MAX_BLOCK_NUMBER
    ensures AddAll(limit, buffer, samples).1 == Added <==> Chain(Tail(buffer) + samples)
    decreases |samples|
  {
    if samples == [] {
      assert Tail(buffer) + samples == Tail(buffer);
    } else {
      var rest := samples[1..];
      assert samples == [samples[0]] + rest;
      if buffer != [] {
        ChainCons(buffer[|buffer| - 1], samples);
      } else {
        assert Tail(buffer) + samples == samples;
      }
      if Judge(buffer, samples[0]) == Added {
        BulkAddSucceedsExactly(limit, Pushed(limit, buffer, samples[0]), rest);
      }
    }
  }

  // ----- the rolling mean ------------------------------------------------------------------

  datatype MeanResult = Mean(baseFee: nat, blobFee: nat) | NoData | Stale(latest: nat) | Overflow

  function SaturatingSub(a: nat, b: nat): nat {
    if a >= b then a - b else 0
  }

  /** One past the last sample that is not newer than `target`; 0 when there is none. */
  function LastUpTo(buffer: seq<Sample>, target: nat): (r: nat)
    ensures r <= |buffer|
    ensures r > 0 ==> buffer[r - 1].timestamp <= target
    ensures forall i :: r <= i < |buffer| ==> buffer[i].timestamp > target
  {
    if buffer == [] || buffer[|buffer| - 1].timestamp <= target then |buffer|
    else LastUpTo(buffer[..|buffer| - 1], target)
  }

  /** The samples that are averaged. */
  function Window(config: Config, buffer: seq<Sample>, timestamp: nat): seq<Sample> {
    var last := LastUpTo(buffer, SaturatingSub(timestamp, config.lag));
    buffer[SaturatingSub(last, config.blocksForMean)..last]
  }

  datatype Fee = Base | Blob

  function FeeOf(fee: Fee, s: Sample): nat {
    match fee
    case Base => s.baseFee
    case Blob => s.blobFee
  }

  function Total(fee: Fee, w: seq<Sample>): nat {
    if w == [] then 0 else Total(fee, w[..|w| - 1]) + FeeOf(fee, w[|w| - 1])
  }

  /** The sum of the fees, and of which fees. */
  lemma {:induction false} TotalAdds(fee: Fee, a: seq<Sample>, b: seq<Sample>)
    ensures Total(fee, a + b) == Total(fee, a) + Total(fee, b)
    decreases |b|
  {
    if b == [] {
      assert a + b == a;
    } else {
      assert (a + b)[..|a + b| - 1] == a + b[..|b| - 1];
      TotalAdds(fee, a, b[..|b| - 1]);
    }
  }

  lemma TotalOfOne(s: Sample)
    ensures Total(Base, [s]) == s.baseFee && Total(Blob, [s]) == s.blobFee
  {
    assert [s][..0] == [];
  }

  function Saturated(n: nat): nat {
    if n < U128 then n else U128 - 1
  }

  function Quotient(total: nat, count: nat): nat
    requires count >= 1
  {
    total / count
  }

  /** The truncated mean of the saturated sum. */
  function MeanFee(fee: Fee, w: seq<Sample>): nat
    requires w != []
  {
    Quotient(Saturated(Total(fee, w)), |w|)
  }

  class Provider {
    const config: Config
    var buffer: seq<Sample>

    constructor (config: Config)
      ensures this.config == config && buffer == Run(config.storageLimit, [])
    {
      this.config := config;
      buffer := [];
    }

    method AddSample(s: Sample) returns (r: AddResult)
      modifies this
      ensures r == Judge(old(buffer), s)
      ensures buffer == Step(config.storageLimit, old(buffer), Add(s))
    {
      r := Added;
      if buffer != [] {
        var last := buffer[|buffer| - 1];
        if last.number + 1 > MAX_BLOCK_NUMBER {
          return Panicked;
        }
        if s.number != last.number + 1 {
          return Gap(last.number + 1, s.number);
        }
        if s.parent != last.hash {
          return Reorg(s.number, last.hash, s.parent);
        }
      }
      if |buffer| >= config.storageLimit {
        if buffer != [] {
          buffer := buffer[1..];
        }
      }
      buffer := buffer + [s];
    }

    method AddSamples(samples: seq<Sample>) returns (r: AddResult)
      modifies this
      ensures (buffer, r) == AddAll(config.storageLimit, old(buffer), samples)
    {
      for i := 0 to |samples|
        invariant AddAll(config.storageLimit, buffer, samples[i..]) == AddAll(config.storageLimit, old(buffer), samples)
      {
        assert samples[i..][1..] == samples[i + 1..];
        r := AddSample(samples[i]);
        if r != Added {
          return;
        }
      }
      r := Added;
    }

    method ClearAll()
      modifies this
      ensures buffer == Step(config.storageLimit, old(buffer), Clear)
    {
      buffer := [];
    }

    /** `get_average_prices`: which samples are averaged, and when there is no answer. */
    method GetAveragePrices(timestamp: nat) returns (r: MeanResult)
      ensures r == Overflow <==> buffer != [] && buffer[|buffer| - 1].timestamp + config.maxGap >= U64
      ensures r.Stale? <==>
              && buffer != [] && r != Overflow
              && timestamp > buffer[|buffer| - 1].timestamp + config.maxGap
      ensures r.Stale? ==> r.latest == buffer[|buffer| - 1].timestamp
      ensures r == NoData <==> r != Overflow && !r.Stale? && Window(config, buffer, timestamp) == []
      ensures r.Mean? ==>
              var w := Window(config, buffer, timestamp);
              w != [] && r == Mean(MeanFee(Base, w), MeanFee(Blob, w))
    {
      if buffer == [] {
        return NoData;
      }
      var latest := buffer[|buffer| - 1];
      if latest.timestamp + config.maxGap >= U64 {
        return Overflow;
      }
      if timestamp > latest.timestamp + config.maxGap {
        return Stale(latest.timestamp);
      }
      r := MeanOf(config, buffer, timestamp);
    }
  }

  /** The part of `get_average_prices` after the staleness check. */
  method MeanOf(config: Config, buffer: seq<Sample>, timestamp: nat) returns (r: MeanResult)
    ensures r == NoData <==> Window(config, buffer, timestamp) == []
    ensures r != NoData ==>
            var w := Window(config, buffer, timestamp);
            r == Mean(MeanFee(Base, w), MeanFee(Blob, w))
  {
    var last := FindLast(buffer, SaturatingSub(timestamp, config.lag));
    var first := SaturatingSub(last, config.blocksForMean);
    if last == 0 || last - first == 0 {
      return NoData;
    }
    var base, blob := SumFees(buffer, first, last);
    return Mean(Quotient(base, last - first), Quotient(blob, last - first));
  }

  /** `rposition` plus one. */
  method FindLast(buffer: seq<Sample>, target: nat) returns (last: nat)
    ensures last == LastUpTo(buffer, target)
  {
    last := |buffer|;
    assert buffer[..last] == buffer;
    while last > 0 && buffer[last - 1].timestamp > target
      invariant 0 <= last <= |buffer|
      invariant LastUpTo(buffer[..last], target) == LastUpTo(buffer, target)
    {
      assert buffer[..last][..last - 1] == buffer[..last - 1];
      last := last - 1;
    }
  }

  method SumFees(buffer: seq<Sample>, first: nat, last: nat) returns (base: nat, blob: nat)
    requires first <= last <= |buffer|
    ensures base == Saturated(Total(Base, buffer[first..last]))
    ensures blob == Saturated(Total(Blob, buffer[first..last]))
  {
    base, blob := 0, 0;
    for i := first to last
      invariant base == Saturated(Total(Base, buffer[first..i]))
      invariant blob == Saturated(Total(Blob, buffer[first..i]))
    {
      assert buffer[first..i + 1][..i - first] == buffer[first..i];
      base := Saturated(base + buffer[i].baseFee);
      blob := Saturated(blob + buffer[i].blobFee);
    }
  }

  /** The window is the newest `blocksForMean` samples among those up to the last one that is not
      newer than the lagged timestamp. */
  lemma WindowIsNewestUpTo(config: Config, buffer: seq<Sample>, timestamp: nat)
    ensures var last := LastUpTo(buffer, SaturatingSub(timestamp, config.lag));
            Window(config, buffer, timestamp) == Newest(buffer[..last], config.blocksForMean)
  {
  }

  lemma MulDiv(n: nat, k: nat, m: nat)
    requires k >= 1
    ensures m <= n / k <==> m * k <= n
  {
    assert n / k * k <= n < n / k * k + k;
    if m <= n / k {
      MulMono(k, m, n / k);
    } else {
      MulMono(k, n / k + 1, m);
    }
  }

  /** The mean is the sum over the length, rounded down, as long as the sum fits u128. */
  lemma MeanIsFloor(fee: Fee, w: seq<Sample>)
    requires w != [] && Total(fee, w) < U128
    ensures MeanFee(fee, w) * |w| <= Total(fee, w) < (MeanFee(fee, w) + 1) * |w|
  {
    MulDiv(Total(fee, w), |w|, MeanFee(fee, w));
    MulDiv(Total(fee, w), |w|, MeanFee(fee, w) + 1);
  }

  ghost predicate Within(fee: Fee, w: seq<Sample>, low: nat, high: nat) {
    forall i :: 0 <= i < |w| ==> low <= FeeOf(fee, w[i]) <= high
  }

  lemma {:induction false} TotalBetween(fee: Fee, w: seq<Sample>, low: nat, high: nat)
    requires Within(fee, w, low, high)
    ensures low * |w| <= Total(fee, w) <= high * |w|
    decreases |w|
  {
    if w != [] {
      var rest := w[..|w| - 1];
      TotalBetween(fee, rest, low, high);
      MulSucc(|rest|, low);
      MulSucc(|rest|, high);
    }
  }

  /** The mean never exceeds the largest fee of the window, and it reaches every lower bound of the
      window's fees exactly when that bound times the window's length fits u128; in particular when
      the sum does not saturate. */
  lemma MeanWithinWindow(fee: Fee, w: seq<Sample>, low: nat, high: nat)
    requires w != [] && Within(fee, w, low, high)
    ensures MeanFee(fee, w) <= high
    ensures low <= MeanFee(fee, w) <==> low * |w| < U128
    ensures Total(fee, w) < U128 ==> low <= MeanFee(fee, w)
  {
    TotalBetween(fee, w, low, high);
    MulDiv(Saturated(Total(fee, w)), |w|, low);
    MulDiv(Saturated(Total(fee, w)), |w|, high + 1);
    assert (high + 1) * |w| == high * |w| + |w|;
  }
}
