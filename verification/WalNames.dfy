/**
 WAL file names.  A file is called "wal-{address}-{height}.json", and recovery reads the height
 back out of the name by splitting at dashes.
 */
module WalNames {
  import opened Common

  const PREFIX := "wal-"
  const SUFFIX := ".json"

  function Digit(d: nat): (c: char)
    requires d < 10
  {
    '0' + d as char
  }

  /** Decimal notation without leading zeros, as `Display` prints a `u64`. */
  function Decimal(n: nat): string {
    if n < 10 then [Digit(n)] else Decimal(n / 10) + [Digit(n % 10)]
  }

  function Filename(address: string, height: nat): string {
    PREFIX + address + "-" + Decimal(height) + SUFFIX
  }

  predicate IsDigit(c: char) {
    '0' <= c <= '9'
  }

  function DigitsValue(s: string): nat
    requires forall c :: c in s ==> IsDigit(c)
  {
    if s == [] then 0
    else
      assert IsDigit(s[|s| - 1]);
      DigitsValue(s[..|s| - 1]) * 10 + (s[|s| - 1] - '0') as nat
  }

  /** `str::parse::<u64>`: one leading plus sign is accepted, overflow is an error. */
  function ParseU64(s: string): Option<nat> {
    var body := if s != [] && s[0] == '+' then s[1..] else s;
    if body == [] || exists c :: c in body && !IsDigit(c) then None
    else if DigitsValue(body) <= U64_MAX then Some(DigitsValue(body)) else None
  }

  function BeforeDash(s: string): string {
    if s == [] || s[0] == '-' then [] else [s[0]] + BeforeDash(s[1..])
  }

  /** The second piece of `split('-')`, empty when there is no dash. */
  function SecondPiece(s: string): string {
    if s == [] then [] else if s[0] == '-' then BeforeDash(s[1..]) else SecondPiece(s[1..])
  }

  function ParseOrZero(s: string): nat {
    match ParseU64(s) case Some(n) => n case None => 0
  }

  /** `extract_height_from_filename`. */
  function ExtractHeight(name: string): nat {
    if PREFIX <= name && |PREFIX| + |SUFFIX| <= |name| && name[|name| - |SUFFIX|..] == SUFFIX
    then ParseOrZero(SecondPiece(name[|PREFIX|..|name| - |SUFFIX|]))
    else ParseOrZero("")
  }

  lemma {:induction false} DecimalRoundTrip(n: nat)
    ensures Decimal(n) != []
    ensures forall c :: c in Decimal(n) ==> IsDigit(c)
    ensures DigitsValue(Decimal(n)) == n
  {
    if n < 10 {
      assert Decimal(n) == [Digit(n)] && Decimal(n)[..0] == [];
    } else {
      DecimalRoundTrip(n / 10);
      var s := Decimal(n / 10);
      assert (s + [Digit(n % 10)])[..|s|] == s;
    }
  }

  lemma {:induction false} BeforeDashNone(s: string, t: string)
    requires '-' !in s
    ensures BeforeDash(s + t) == s + BeforeDash(t)
  {
    if s == [] {
      assert s + t == t;
    } else {
      assert (s + t)[1..] == s[1..] + t;
      BeforeDashNone(s[1..], t);
    }
  }

  lemma {:induction false} BeforeDashStops(s: string, t: string)
    ensures BeforeDash(s + "-" + t) == BeforeDash(s)
  {
    if s != [] {
      assert (s + "-" + t)[1..] == s[1..] + "-" + t;
      BeforeDashStops(s[1..], t);
    }
  }

  /** What comes out between the first and the second dash of "{address}-{tail}". */
  lemma {:induction false} SecondPieceOf(address: string, tail: string)
    requires '-' !in tail
    ensures SecondPiece(address + "-" + tail) == if '-' in address then SecondPiece(address) else tail
  {
    var s := address + "-" + tail;
    if address == [] {
      assert s[1..] == tail + [];
      BeforeDashNone(tail, []);
    } else if address[0] == '-' {
      assert s[1..] == address[1..] + "-" + tail;
      BeforeDashStops(address[1..], tail);
    } else {
      assert s[1..] == address[1..] + "-" + tail;
      SecondPieceOf(address[1..], tail);
      assert '-' in address <==> '-' in address[1..];
    }
  }

  lemma MiddleOf(middle: string)
    ensures ExtractHeight(PREFIX + middle + SUFFIX) == ParseOrZero(SecondPiece(middle))
  {
    var name := PREFIX + middle + SUFFIX;
    assert name[|PREFIX|..|name| - |SUFFIX|] == middle;
    assert name[|name| - |SUFFIX|..] == SUFFIX;
  }

  lemma DecimalParses(n: nat)
    requires n <= U64_MAX
    ensures '-' !in Decimal(n) && ParseU64(Decimal(n)) == Some(n)
  {
    DecimalRoundTrip(n);
    assert Decimal(n)[0] in Decimal(n);
  }

  /** The height read back from a file name is the height it was made from exactly when the
      address has no dash, or what follows its first dash happens to parse to that height. */
  lemma NameRoundTrip(address: string, height: nat)
    requires height <= U64_MAX
    ensures ExtractHeight(Filename(address, height)) == height
            <==> '-' !in address || ParseOrZero(SecondPiece(address)) == height
  {
    var middle := address + "-" + Decimal(height);
    assert Filename(address, height) == PREFIX + middle + SUFFIX;
    MiddleOf(middle);
    DecimalParses(height);
    SecondPieceOf(address, Decimal(height));
  }

  /** Two heights of one validator never share a file. */
  lemma NamesDistinct(address: string, a: nat, b: nat)
    requires Filename(address, a) == Filename(address, b)
    ensures a == b
  {
    DecimalRoundTrip(a);
    DecimalRoundTrip(b);
    var start := PREFIX + address + "-";
    assert Filename(address, a) == start + Decimal(a) + SUFFIX;
    assert Filename(address, b) == start + Decimal(b) + SUFFIX;
    assert Filename(address, a)[|start|..|Filename(address, a)| - |SUFFIX|] == Decimal(a);
    assert Filename(address, b)[|start|..|Filename(address, b)| - |SUFFIX|] == Decimal(b);
  }

  /** An address with a dash: what follows it is taken for the height. */
  lemma DashedAddress()
    ensures ExtractHeight(Filename("a-7", 5)) == 7
  {
    DecimalRoundTrip(5);
    assert "a-7" == "a" + "-" + Decimal(7);
    DecimalParses(7);
    SecondPieceOf("a", Decimal(7));
    DecimalParses(5);
    SecondPieceOf("a-7", Decimal(5));
    var middle := "a-7" + "-" + Decimal(5);
    assert Filename("a-7", 5) == PREFIX + middle + SUFFIX;
    MiddleOf(middle);
    assert '-' in "a-7" by { assert "a-7"[1] == '-'; }
  }
}
