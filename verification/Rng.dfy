/**
 The seeded generator shared by pairing, round counts and strategies: an
 xorshift64* state machine. Words are unbounded naturals; every operation that
 can leave the 64-bit range truncates explicitly.
 */
module Rng {
  const U32_SIZE: nat := 0x1_0000_0000
  const U64_SIZE: nat := 0x1_0000_0000_0000_0000

  type Byte = b: int | 0 <= b < 256
  type Seed = s: seq<Byte> | |s| == 32 witness seq(32, _ => 0)

  datatype SeededRng = SeededRng(state: nat)

  /** Bitwise exclusive or, bit by bit from the least significant end. */
  function Xor(a: nat, b: nat): nat
    decreases a + b
  {
    if a == 0 then b
    else if b == 0 then a
    else 2 * Xor(a / 2, b / 2) + (a + b) % 2
  }

  /** The little-endian word held by `bytes`. */
  function FromLittleEndian(bytes: seq<Byte>): nat {
    if bytes == [] then 0 else bytes[0] + 256 * FromLittleEndian(bytes[1..])
  }

  /** One xorshift step of the state. */
  function Shift(s: nat): nat {
    var s1 := Xor(s, s / 0x1000);
    var s2 := Xor(s1, (s1 * 0x200_0000) % U64_SIZE);
    Xor(s2, s2 / 0x800_0000)
  }

  function Skip(s: nat, n: nat): nat
    decreases n
  {
    if n == 0 then s else Skip(Shift(s), n - 1)
  }

  function New(seed: Seed, index: nat): SeededRng {
    var folded := Xor(Xor(Xor(FromLittleEndian(seed[0..8]),
                              (FromLittleEndian(seed[8..16]) + 1) % U64_SIZE),
                          (FromLittleEndian(seed[16..24]) + 2) % U64_SIZE),
                      (FromLittleEndian(seed[24..32]) + 3) % U64_SIZE);
    SeededRng(Skip(Xor(folded, (index * 0x517cc1b727220a95) % U64_SIZE), 8))
  }

  function ForRound(rng: SeededRng, round: nat): SeededRng {
    SeededRng(Shift(Xor(rng.state, (round * 0x9e3779b97f4a7c15) % U64_SIZE)))
  }

  function NextU64(rng: SeededRng): (SeededRng, nat) {
    var s := Shift(rng.state);
    (SeededRng(s), (s * 0x2545f4914f6cdd1d) % U64_SIZE)
  }

  function NextU32(rng: SeededRng): (SeededRng, nat) {
    var (next, word) := NextU64(rng);
    (next, word / U32_SIZE)
  }

  function NextPercent(rng: SeededRng): (r: (SeededRng, nat))
    ensures r.1 < 100
  {
    var (next, word) := NextU32(rng);
    (next, word % 100)
  }

  function NextRange(rng: SeededRng, max: nat): (r: (SeededRng, nat))
    ensures if max == 0 then r == (rng, 0) else r.1 < max
  {
    if max == 0 then (rng, 0)
    else
      var (next, word) := NextU32(rng);
      (next, word % max)
  }
}
