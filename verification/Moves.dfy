/** Moves, histories and the payoff matrix. */
module Moves {
  import opened Rng

  datatype Move = Cooperate | Defect

  type History = seq<Move>

  /** Points of the first and of the second player. */
  function Payoff(a: Move, b: Move): (Byte, Byte) {
    match (a, b)
    case (Cooperate, Cooperate) => (3, 3)
    case (Cooperate, Defect) => (0, 5)
    case (Defect, Cooperate) => (5, 0)
    case (Defect, Defect) => (1, 1)
  }

  function Bit(m: Move): Byte { if m.Defect? then 1 else 0 }

  function Defects(h: History): nat {
    if h == [] then 0 else Defects(h[..|h| - 1]) + Bit(h[|h| - 1])
  }

  lemma DefectsSnoc(h: History, m: Move)
    ensures Defects(h + [m]) == Defects(h) + Bit(m)
  {
    assert (h + [m])[..|h|] == h;
  }

  /** A history holds a defection exactly when its count is positive. */
  lemma {:induction false} DefectsPositive(h: History)
    ensures Defects(h) <= |h|
    ensures 0 < Defects(h) <==> Defect in h
  {
    if h != [] {
      DefectsPositive(h[..|h| - 1]);
      assert h == h[..|h| - 1] + [h[|h| - 1]];
    }
  }

  /** Last move as a byte; an empty history reads as cooperation. */
  function LastBit(h: History): Byte { if h == [] then 0 else Bit(h[|h| - 1]) }

  /** The move n rounds before the last one; anything older than the history reads as cooperation. */
  function BitAgo(h: History, n: nat): Byte { if n >= |h| then 0 else Bit(h[|h| - 1 - n]) }

  /** Defection count clamped to a byte. */
  function DefectByte(h: History): Byte { if Defects(h) < 255 then Defects(h) else 255 }

  /** Points of the last round; the value for an empty own history is that of mutual cooperation. */
  function LastScore(opp: History, mine: History): Byte {
    if mine == [] then 3
    else Payoff(mine[|mine| - 1], if opp == [] then Cooperate else opp[|opp| - 1]).0
  }
}
