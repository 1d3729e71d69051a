/**
 Hashing a list of felts with the Poseidon sponge: all at once, and piece by piece.  The permutation
 of the three-cell state is an arbitrary function.
 */
module PoseidonHash {
  import opened Common
  import opened Poseidon

  type Permutation = Triple -> Triple

  // ----- pad, then absorb ------------------------------------------------------------------

  /** The message in pairs, padded with a one and, if need be, a zero. */
  function Blocks(msgs: seq<nat>): seq<(nat, nat)> {
    if |msgs| == 0 then [(1, 0)]
    else if |msgs| == 1 then [(msgs[0], 1)]
    else [(msgs[0], msgs[1])] + Blocks(msgs[2..])
  }

  function Absorb(permute: Permutation, s: Triple, x: nat, y: nat): Triple {
    permute(Triple(Red(s.a + x), Red(s.b + y), s.c))
  }

  /** Of a pair, the first message is added to the first cell and the second to the second, modulo the
      field order; the third cell enters the permutation as it is. */
  lemma AbsorbCells(permute: Permutation, s: Triple, x: nat, y: nat) returns (mixed: Triple, j: int, k: int)
    ensures Absorb(permute, s, x, y) == permute(mixed)
    ensures s.a + x == mixed.a + P * j && s.b + y == mixed.b + P * k && mixed.c == s.c
  {
    mixed := Triple(Red(s.a + x), Red(s.b + y), s.c);
    j := RedMultiple(s.a + x);
    k := RedMultiple(s.b + y);
  }

  function Sponge(permute: Permutation, s: Triple, blocks: seq<(nat, nat)>): Triple
    decreases |blocks|
  {
    if blocks == [] then s else Sponge(permute, Absorb(permute, s, blocks[0].0, blocks[0].1), blocks[1..])
  }

  function HashMany(permute: Permutation, msgs: seq<nat>): nat {
    Sponge(permute, ZERO, Blocks(msgs)).a
  }

  /** Different lists are padded to different blocks, so only the permutation can make them collide. */
  lemma {:induction false} PaddingInjective(a: seq<nat>, b: seq<nat>)
    requires Blocks(a) == Blocks(b)
    ensures a == b
  {
    assert Blocks(a)[0] == Blocks(b)[0];
    if |a| >= 2 && |b| >= 2 {
      assert Blocks(a)[1..] == Blocks(a[2..]) && Blocks(b)[1..] == Blocks(b[2..]);
      PaddingInjective(a[2..], b[2..]);
      assert a == [a[0], a[1]] + a[2..] && b == [b[0], b[1]] + b[2..];
    }
  }

  lemma FinalBlock(permute: Permutation, s: Triple, x: nat, y: nat)
    ensures Sponge(permute, s, [(x, y)]) == Absorb(permute, s, x, y)
  {
    assert [(x, y)][1..] == [];
  }

  lemma FirstBlock(permute: Permutation, s: Triple, msgs: seq<nat>)
    requires |msgs| >= 2
    ensures Sponge(permute, s, Blocks(msgs)) == Sponge(permute, Absorb(permute, s, msgs[0], msgs[1]), Blocks(msgs[2..]))
  {
    assert Blocks(msgs)[1..] == Blocks(msgs[2..]);
  }

  /** What is permuted for the shortest lists: the padding in their place, and the first cell squeezed. */
  lemma ShortestHashes(permute: Permutation, x: Felt, y: Felt)
    ensures HashMany(permute, []) == permute(Triple(1, 0, 0)).a
    ensures HashMany(permute, [x]) == permute(Triple(x, 1, 0)).a
    ensures HashMany(permute, [x, y]) == Absorb(permute, permute(Triple(x, y, 0)), 1, 0).a
  {
    FinalBlock(permute, ZERO, 1, 0);
    FinalBlock(permute, ZERO, x, 1);
    FirstBlock(permute, ZERO, [x, y]);
    assert [x, y][2..] == [];
    FinalBlock(permute, permute(Triple(x, y, 0)), 1, 0);
  }

  /** `poseidon_hash_many`: pairs first, then the remainder with its padding. */
  method PoseidonHashMany(permute: Permutation, msgs: seq<nat>) returns (hash: nat)
    ensures hash == HashMany(permute, msgs)
  {
    var state, i := ZERO, 0;
    while i + 2 <= |msgs|
      invariant 0 <= i <= |msgs|
      invariant Sponge(permute, state, Blocks(msgs[i..])) == Sponge(permute, ZERO, Blocks(msgs))
    {
      FirstBlock(permute, state, msgs[i..]);
      assert msgs[i..][2..] == msgs[i + 2..];
      state := Absorb(permute, state, msgs[i], msgs[i + 1]);
      i := i + 2;
    }
    if i < |msgs| {
      FinalBlock(permute, state, msgs[i], 1);
      state := Absorb(permute, state, msgs[i], 1);
    } else {
      FinalBlock(permute, state, 1, 0);
      state := Absorb(permute, state, 1, 0);
    }
    hash := state.a;
  }

  // ----- piece by piece --------------------------------------------------------------------

  /** A hasher in use: the sponge state, and a message that waits for its partner. */
  datatype Partial = Partial(state: Triple, buffer: Option<nat>)

  function Waiting(p: Partial): seq<nat> {
    if p.buffer.Some? then [p.buffer.value] else []
  }

  /** The hash that results if `rest` is written and the hasher then finished. */
  function HashWith(permute: Permutation, p: Partial, rest: seq<nat>): nat {
    Sponge(permute, p.state, Blocks(Waiting(p) + rest)).a
  }

  function Written(permute: Permutation, p: Partial, msg: nat): Partial {
    match p.buffer
    case Some(previous) => Partial(Absorb(permute, p.state, previous, msg), None)
    case None => Partial(p.state, Some(msg))
  }

  function WrittenAll(permute: Permutation, p: Partial, msgs: seq<nat>): Partial {
    if msgs == [] then p else Written(permute, WrittenAll(permute, p, msgs[..|msgs| - 1]), msgs[|msgs| - 1])
  }

  /** Writing moves the message from what is to come into what is absorbed. */
  lemma WriteMoves(permute: Permutation, p: Partial, msg: nat, rest: seq<nat>)
    ensures HashWith(permute, Written(permute, p, msg), rest) == HashWith(permute, p, [msg] + rest)
  {
    if p.buffer.Some? {
      var all := [p.buffer.value] + ([msg] + rest);
      FirstBlock(permute, p.state, all);
      assert all[2..] == rest == [] + rest;
    } else {
      assert [] + ([msg] + rest) == [msg] + rest;
    }
  }

  lemma {:induction false} WriteAllMoves(permute: Permutation, p: Partial, msgs: seq<nat>, rest: seq<nat>)
    ensures HashWith(permute, WrittenAll(permute, p, msgs), rest) == HashWith(permute, p, msgs + rest)
    decreases |msgs|
  {
    if msgs == [] {
      assert msgs + rest == rest;
    } else {
      var n := |msgs| - 1;
      WriteMoves(permute, WrittenAll(permute, p, msgs[..n]), msgs[n], rest);
      WriteAllMoves(permute, p, msgs[..n], [msgs[n]] + rest);
      assert msgs[..n] + ([msgs[n]] + rest) == msgs + rest;
    }
  }

  const START := Partial(ZERO, None)

  /** The promise of the hasher: writing a list and finishing is hashing it at once. */
  lemma WritingIsHashing(permute: Permutation, msgs: seq<nat>)
    ensures HashWith(permute, WrittenAll(permute, START, msgs), []) == HashMany(permute, msgs)
  {
    WriteAllMoves(permute, START, msgs, []);
    assert [] + (msgs + []) == msgs;
  }

  class Hasher {
    const permute: Permutation
    var state: Triple
    var buffer: Option<nat>

    ghost function View(): Partial
      reads this
    {
      Partial(state, buffer)
    }

    constructor (permute: Permutation)
      ensures this.permute == permute && View() == START
    {
      this.permute := permute;
      state, buffer := ZERO, None;
    }

    method Write(msg: nat)
      modifies this
      ensures View() == Written(permute, old(View()), msg)
    {
      match buffer {
        case Some(previous) =>
          state := Absorb(permute, state, previous, msg);
          buffer := None;
        case None =>
          buffer := Some(msg);
      }
    }

    /** `chain`, given what has been absorbed since the start. */
    method Chain(msg: nat, ghost absorbed: seq<nat>) returns (ghost more: seq<nat>)
      requires View() == WrittenAll(permute, START, absorbed)
      modifies this
      ensures more == absorbed + [msg] && View() == WrittenAll(permute, START, more)
    {
      more := absorbed + [msg];
      assert more[..|absorbed|] == absorbed;
      Write(msg);
    }

    /** A fold of `chain` over a list. */
    method WriteAll(msgs: seq<nat>)
      modifies this
      ensures View() == WrittenAll(permute, old(View()), msgs)
    {
      for i := 0 to |msgs|
        invariant View() == WrittenAll(permute, old(View()), msgs[..i])
      {
        assert msgs[..i + 1][..i] == msgs[..i];
        Write(msgs[i]);
      }
      assert msgs[..|msgs|] == msgs;
    }

    /** Pads the pending message and squeezes. */
    method Finish() returns (hash: nat)
      modifies this
      ensures hash == HashWith(permute, old(View()), [])
    {
      match buffer {
        case Some(last) =>
          FinalBlock(permute, state, last, 1);
          assert [last] + [] == [last];
          state := Absorb(permute, state, last, 1);
        case None =>
          FinalBlock(permute, state, 1, 0);
          state := Absorb(permute, state, 1, 0);
      }
      buffer := None;
      hash := state.a;
    }
  }

  /** A fresh hasher, a fold over a list, and its hash. */
  method HashByWriting(permute: Permutation, msgs: seq<nat>) returns (hash: nat)
    ensures hash == HashMany(permute, msgs)
  {
    var hasher := new Hasher(permute);
    hasher.WriteAll(msgs);
    WritingIsHashing(permute, msgs);
    hash := hasher.Finish();
  }
}
