/** Fixed-width integers written big-endian into a 32-byte buffer that is then read as one felt. */
module Packing {
  import opened Common

  const U192: nat := 0x1_0000_0000_0000_0000_0000_0000_0000_0000_0000_0000_0000_0000
  const U248: nat := 0x100_0000_0000_0000_0000_0000_0000_0000_0000_0000_0000_0000_0000_0000_0000_0000

  type Byte = b: nat | b < 256

  // ----- big-endian numbers ----------------------------------------------------------------

  function Pow256(n: nat): (r: nat)
    ensures r >= 1
  {
    if n == 0 then 1 else 256 * Pow256(n - 1)
  }

  /** `to_be_bytes`: the low `width` bytes, most significant first. */
  function ToBe(n: nat, width: nat): (r: seq<Byte>)
    ensures |r| == width
  {
    if width == 0 then [] else ToBe(n / 256, width - 1) + [n % 256]
  }

  /** `from_be_bytes`. */
  function FromBe(s: seq<Byte>): nat {
    if s == [] then 0 else 256 * FromBe(s[..|s| - 1]) + s[|s| - 1]
  }

  lemma {:induction false} ByteRoundTrip(n: nat, width: nat)
    requires n < Pow256(width)
    ensures FromBe(ToBe(n, width)) == n
    decreases width
  {
    if width > 0 {
      ByteRoundTrip(n / 256, width - 1);
      assert ToBe(n, width)[..width - 1] == ToBe(n / 256, width - 1);
    }
  }

  lemma Distribute(a: nat, b: nat, c: nat)
    ensures 256 * (a * b + c) == a * (256 * b) + 256 * c
  {
  }

  lemma {:induction false} FromBeConcat(a: seq<Byte>, b: seq<Byte>)
    ensures FromBe(a + b) == FromBe(a) * Pow256(|b|) + FromBe(b)
    decreases |b|
  {
    if b == [] {
      assert a + b == a;
    } else {
      var front := b[..|b| - 1];
      assert (a + b)[..|a + b| - 1] == a + front;
      FromBeConcat(a, front);
      Distribute(FromBe(a), Pow256(|front|), FromBe(front));
    }
  }

  lemma {:induction false} FromBeBound(s: seq<Byte>)
    ensures FromBe(s) < Pow256(|s|)
    decreases |s|
  {
    if s != [] {
      FromBeBound(s[..|s| - 1]);
    }
  }

  lemma {:induction false} FromBeZeros(s: seq<Byte>)
    requires forall i :: 0 <= i < |s| ==> s[i] == 0
    ensures FromBe(s) == 0
    decreases |s|
  {
    if s != [] {
      FromBeZeros(s[..|s| - 1]);
    }
  }

  lemma Widths()
    ensures Pow256(7) == 0x100_0000_0000_0000
    ensures Pow256(8) == U64
    ensures Pow256(16) == U128
    ensures Pow256(24) == U192
  {
    assert Pow256(2) == 0x1_0000;
    assert Pow256(4) == 0x1_0000_0000;
    assert Pow256(6) == 0x1_0000_0000_0000;
    Pow256Add(8, 8);
    Pow256Add(8, 16);
  }

  lemma {:induction false} Pow256Add(a: nat, b: nat)
    ensures Pow256(a + b) == Pow256(a) * Pow256(b)
    decreases a
  {
    if a > 0 {
      Pow256Add(a - 1, b);
    }
  }

  // ----- writing into the buffer -----------------------------------------------------------

  /** `copy_from_slice` / `write_all` at a position. */
  method WriteAt(buffer: array<Byte>, pos: nat, bytes: seq<Byte>)
    requires pos + |bytes| <= buffer.Length
    modifies buffer
    ensures buffer[..pos + |bytes|] == old(buffer[..pos]) + bytes
    ensures forall i :: pos + |bytes| <= i < buffer.Length ==> buffer[i] == old(buffer[i])
  {
    for i := 0 to |bytes|
      invariant buffer[..pos] == old(buffer[..pos])
      invariant buffer[pos..pos + i] == bytes[..i]
      invariant forall j :: pos + i <= j < buffer.Length ==> buffer[j] == old(buffer[j])
    {
      buffer[pos + i] := bytes[i];
    }
    assert bytes[..|bytes|] == bytes;
    assert buffer[..pos + |bytes|] == buffer[..pos] + buffer[pos..pos + |bytes|];
  }

  /** A slice of zeros, as the buffers start out. */
  method ZeroBuffer() returns (buffer: array<Byte>)
    ensures fresh(buffer) && buffer.Length == 32
    ensures forall i :: 0 <= i < 32 ==> buffer[i] == 0
  {
    buffer := new Byte[32](i => 0);
  }

  // ----- gas bounds ------------------------------------------------------------------------

  /** The number a packed gas bound stands for. */
  function Pack(name: seq<Byte>, amount: nat, price: nat): nat {
    FromBe(name) * U192 + amount * U128 + price
  }

  lemma PaddedValue(pad: seq<Byte>, name: seq<Byte>)
    requires forall i :: 0 <= i < |pad| ==> pad[i] == 0
    ensures FromBe(pad + name) == FromBe(name)
  {
    FromBeZeros(pad);
    FromBeConcat(pad, name);
  }

  lemma Combine(kind: nat, amount: nat, price: nat)
    ensures (kind * U64 + amount) * U128 + price == kind * U192 + amount * U128 + price
  {
    assert U64 == 0x1_0000_0000_0000_0000;
  }

  lemma PackedValue(kind: seq<Byte>, amount: nat, price: nat)
    requires amount < U64 && price < U128
    ensures FromBe(kind + ToBe(amount, 8) + ToBe(price, 16)) == FromBe(kind) * U192 + amount * U128 + price
  {
    Widths();
    ByteRoundTrip(amount, 8);
    ByteRoundTrip(price, 16);
    FromBeConcat(kind, ToBe(amount, 8));
    FromBeConcat(kind + ToBe(amount, 8), ToBe(price, 16));
    Combine(FromBe(kind), amount, price);
  }

  /** `pack_gas_bound`: the buffer is the packed number; it is refused exactly from P up. */
  method PackGasBound(name: seq<Byte>, amount: nat, price: nat) returns (felt: Option<nat>)
    requires |name| <= 8 && amount < U64 && price < U128
    ensures felt == if Pack(name, amount, price) < P then Some(Pack(name, amount, price)) else None
  {
    var buffer := ZeroBuffer();
    ghost var pad := buffer[..8 - |name|];
    WriteAt(buffer, 8 - |name|, name);
    WriteAt(buffer, 8, ToBe(amount, 8));
    WriteAt(buffer, 16, ToBe(price, 16));
    assert buffer[..] == pad + name + ToBe(amount, 8) + ToBe(price, 16);
    PaddedValue(pad, name);
    PackedValue(pad + name, amount, price);
    var value := FromBe(buffer[..]);
    felt := if value < P then Some(value) else None;
  }

  /** Names of at most seven bytes, which all three are, always fit: the result is below 2^248. */
  lemma PackBelow248(name: seq<Byte>, amount: nat, price: nat)
    requires |name| <= 7 && amount < U64 && price < U128
    ensures Pack(name, amount, price) < U248 < P
  {
    FromBeBound(name);
    PowMono(|name|, 7);
    Widths();
  }

  lemma {:induction false} PowMono(a: nat, b: nat)
    requires a <= b
    ensures Pow256(a) <= Pow256(b)
    decreases b
  {
    if a < b {
      PowMono(a, b - 1);
    }
  }

  lemma PackInjective(n1: seq<Byte>, a1: nat, p1: nat, n2: seq<Byte>, a2: nat, p2: nat)
    requires a1 < U64 && p1 < U128 && a2 < U64 && p2 < U128
    requires Pack(n1, a1, p1) == Pack(n2, a2, p2)
    ensures FromBe(n1) == FromBe(n2) && a1 == a2 && p1 == p2
  {
    assert FromBe(n1) * U64 + a1 == FromBe(n2) * U64 + a2;
  }

  lemma SplitLow(high: nat, low: nat, unit: nat)
    requires low < unit
    ensures (high * unit + low) / unit == high && (high * unit + low) % unit == low
  {
    assert high * unit + low == ((high * unit + low) / unit) * unit + (high * unit + low) % unit;
    if (high * unit + low) / unit < high {
      MulMono(unit, (high * unit + low) / unit + 1, high);
    } else if (high * unit + low) / unit > high {
      MulMono(unit, high + 1, (high * unit + low) / unit);
    }
  }

  /** Each field is read back from its own bits: 64 for the name, 64 for the amount, 128 for the price. */
  lemma PackFields(name: seq<Byte>, amount: nat, price: nat)
    requires amount < U64 && price < U128
    ensures var felt := Pack(name, amount, price);
            felt / U128 / U64 == FromBe(name) && felt / U128 % U64 == amount && felt % U128 == price
  {
    Combine(FromBe(name), amount, price);
    SplitLow(FromBe(name) * U64 + amount, price, U128);
    SplitLow(FromBe(name), amount, U64);
  }

  // ----- block counts ----------------------------------------------------------------------

  datatype Counts = Counts(transactions: nat, events: nat, diffLength: nat, blob: bool)

  predicate FitU64(c: Counts) {
    c.transactions < U64 && c.events < U64 && c.diffLength < U64
  }

  /** The 256-bit number in the buffer. */
  function CountsValue(c: Counts): nat {
    c.transactions * U192 + c.events * U128 + c.diffLength * U64 + (if c.blob then U64 / 2 else 0)
  }

  lemma FlagValue(flag: Byte, tail: seq<Byte>)
    requires |tail| == 7 && forall i :: 0 <= i < |tail| ==> tail[i] == 0
    ensures FromBe([flag] + tail) == flag * 0x100_0000_0000_0000
  {
    Widths();
    assert [flag][..0] == [];
    FromBeZeros(tail);
    FromBeConcat([flag], tail);
  }

  lemma CountsBytes(c: Counts, tail: seq<Byte>)
    requires FitU64(c) && |tail| == 8 && FromBe(tail) == (if c.blob then U64 / 2 else 0)
    ensures FromBe(ToBe(c.transactions, 8) + ToBe(c.events, 8) + ToBe(c.diffLength, 8) + tail) == CountsValue(c)
  {
    var a, b, d := ToBe(c.transactions, 8), ToBe(c.events, 8), ToBe(c.diffLength, 8);
    Widths();
    ByteRoundTrip(c.transactions, 8);
    ByteRoundTrip(c.events, 8);
    ByteRoundTrip(c.diffLength, 8);
    FromBeConcat(a, b);
    FromBeConcat(a + b, d);
    FromBeConcat(a + b + d, tail);
  }

  /** `concatenate_counts`: the packed number modulo P. */
  method ConcatenateCounts(c: Counts) returns (felt: nat)
    requires FitU64(c)
    ensures felt == CountsValue(c) % P
  {
    var buffer := ZeroBuffer();
    var flag: Byte := if c.blob then 0x80 else 0;
    WriteAt(buffer, 0, ToBe(c.transactions, 8));
    WriteAt(buffer, 8, ToBe(c.events, 8));
    WriteAt(buffer, 16, ToBe(c.diffLength, 8));
    ghost var head := ToBe(c.transactions, 8) + ToBe(c.events, 8) + ToBe(c.diffLength, 8);
    WriteAt(buffer, 24, [flag]);
    ghost var tail := buffer[25..];
    assert buffer[..] == head + ([flag] + tail);
    FlagValue(flag, tail);
    CountsBytes(c, [flag] + tail);
    felt := FromBe(buffer[..]) % P;
  }

  /** The packed counts stay below P, whatever the other counts, exactly up to 2^59 + 16
      transactions. */
  lemma BelowPExactly(transactions: nat)
    requires transactions < U64
    ensures (forall c: Counts :: FitU64(c) && c.transactions == transactions ==> CountsValue(c) < P)
       <==> transactions <= 0x800_0000_0000_0010
  {
    if transactions > 0x800_0000_0000_0010 {
      var c := Counts(transactions, 1, 0, false);
      assert FitU64(c) && CountsValue(c) >= P;
    }
  }

  lemma CountsNested(t: nat, e: nat, d: nat, flag: nat)
    ensures t * U192 + e * U128 + d * U64 + flag == ((t * U64 + e) * U64 + d) * U64 + flag
  {
    assert U64 == 0x1_0000_0000_0000_0000;
  }

  /** Each count is read back from its own 64 bits, and the mode from the top bit of the last 64. */
  lemma CountsFields(c: Counts)
    requires FitU64(c)
    ensures var value := CountsValue(c);
            && value / U64 / U64 / U64 == c.transactions
            && value / U64 / U64 % U64 == c.events
            && value / U64 % U64 == c.diffLength
            && value % U64 == (if c.blob then 0x8000_0000_0000_0000 else 0)
  {
    CountsNested(c.transactions, c.events, c.diffLength, if c.blob then U64 / 2 else 0);
    SplitLow((c.transactions * U64 + c.events) * U64 + c.diffLength, if c.blob then U64 / 2 else 0, U64);
    SplitLow(c.transactions * U64 + c.events, c.diffLength, U64);
    SplitLow(c.transactions, c.events, U64);
  }

  lemma ValueInjective(c: Counts, d: Counts)
    requires FitU64(c) && FitU64(d) && CountsValue(c) == CountsValue(d)
    ensures c == d
  {
    HalfValue(c);
    HalfValue(d);
  }

  /** The value is 2^63 times a number that holds every field. */
  function Halves(c: Counts): nat {
    c.transactions * (2 * U128) + c.events * (2 * U64) + c.diffLength * 2 + (if c.blob then 1 else 0)
  }

  lemma HalfSum(t: nat, e: nat, d: nat, b: nat)
    ensures (t * 0x2_0000_0000_0000_0000_0000_0000_0000_0000 + e * 0x2_0000_0000_0000_0000 + d * 2 + b) * 0x8000_0000_0000_0000
         == t * 0x1_0000_0000_0000_0000_0000_0000_0000_0000_0000_0000_0000_0000
            + e * 0x1_0000_0000_0000_0000_0000_0000_0000_0000 + d * 0x1_0000_0000_0000_0000 + b * 0x8000_0000_0000_0000
  {
  }

  lemma HalfValue(c: Counts)
    ensures CountsValue(c) == Halves(c) * 0x8000_0000_0000_0000
  {
    HalfSum(c.transactions, c.events, c.diffLength, if c.blob then 1 else 0);
  }

  /** P is one more than a multiple of 2^63. */
  const P_HIGH: nat := 0x1000_0000_0000_0022_0000_0000_0000_0000_0000_0000_0000_0000

  lemma NoSmallMultiple(x: int, k: int)
    requires x * 0x8000_0000_0000_0000 == k * P && -32 <= k <= 32
    ensures k == 0
  {
    assert P == P_HIGH * 0x8000_0000_0000_0000 + 1;
    assert (x - k * P_HIGH) * 0x8000_0000_0000_0000 == k;
  }

  /** Reducing modulo P loses nothing: equal felts come from equal counts, for all u64 counts. */
  lemma CountsInjective(c: Counts, d: Counts)
    requires FitU64(c) && FitU64(d) && CountsValue(c) % P == CountsValue(d) % P
    ensures c == d
  {
    var q, q' := CountsValue(c) / P, CountsValue(d) / P;
    assert CountsValue(c) == q * P + CountsValue(c) % P && q < 32;
    assert CountsValue(d) == q' * P + CountsValue(d) % P && q' < 32;
    HalfValue(c);
    HalfValue(d);
    NoSmallMultiple(Halves(c) - Halves(d), q - q');
    ValueInjective(c, d);
  }
}
