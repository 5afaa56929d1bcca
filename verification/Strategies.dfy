/** The nine builtin strategies and the dispatch between builtin and custom players. */
module Strategies {
  import opened Rng
  import opened Moves
  import opened Vm

  datatype Base =
    | TitForTat
    | AlwaysDefect
    | AlwaysCooperate
    | GrimTrigger
    | Pavlov
    | SuspiciousTitForTat
    | Random
    | TitForTwoTats
    | Gradual

  datatype Player = Builtin(base: Base) | Custom(code: seq<Byte>)

  function Flip(m: Move): Move { if m.Cooperate? then Defect else Cooperate }

  function Last(h: History): Move
    requires h != []
  {
    h[|h| - 1]
  }

  function PlayPavlov(opp: History, mine: History): Move {
    if mine == [] then Cooperate
    else
      var oppLast := if opp == [] then Cooperate else Last(opp);
      if Payoff(Last(mine), oppLast).0 >= 3 then Last(mine) else Flip(Last(mine))
  }

  function PlayGradual(opp: History, mine: History): Move {
    var theirs := Defects(opp);
    if Defects(mine) < theirs * (theirs + 1) / 2 then Defect else Cooperate
  }

  function PlayBuiltin(base: Base, opp: History, mine: History, rng: SeededRng): Move {
    match base
    case TitForTat => if opp == [] then Cooperate else Last(opp)
    case AlwaysDefect => Defect
    case AlwaysCooperate => Cooperate
    case GrimTrigger => if Defect in opp then Defect else Cooperate
    case Pavlov => PlayPavlov(opp, mine)
    case SuspiciousTitForTat => if opp == [] then Defect else Last(opp)
    case Random => if NextPercent(rng).1 < 50 then Cooperate else Defect
    case TitForTwoTats =>
      if |opp| >= 2 && opp[|opp| - 2] == Defect && opp[|opp| - 1] == Defect then Defect else Cooperate
    case Gradual => PlayGradual(opp, mine)
  }

  function PlayOne(p: Player, opp: History, mine: History, round: Byte, rng: SeededRng): Move {
    match p
    case Builtin(base) => PlayBuiltin(base, opp, mine, rng)
    case Custom(code) => ExecuteBytecode(Env(code, opp, mine, round), rng)
  }
}
