/** What the payoff matrix forces on every match, and on reactive strategies against every opponent. */
module Laws {
  import opened Rng
  import opened Moves
  import opened Strategies
  import opened Game

  /** Points of the two players differ by 5 per excess defection; each round hands out 2 to 6 points. */
  lemma {:induction false} ScoreLaw(pa: Player, pb: Player, rng: SeededRng, r: nat)
    requires r <= 100
    ensures var p := Play(pa, pb, rng, r);
            && p.totalA - p.totalB == 5 * (Defects(p.a) - Defects(p.b))
            && 2 * r <= p.totalA + p.totalB <= 6 * r
            && p.totalA <= 5 * r && p.totalB <= 5 * r
  {
    hide PlayOne, ForRound, Defects;
    if r > 0 {
      ScoreLaw(pa, pb, rng, r - 1);
      var p, q := Play(pa, pb, rng, r - 1), Play(pa, pb, rng, r);
      DefectsSnoc(p.a, q.a[r - 1]);
      DefectsSnoc(p.b, q.b[r - 1]);
    } else {
      assert Defects([]) == 0 by { DefectsPositive([]); }
    }
  }

  /** In how many rounds the two made the moves x and y. */
  function Rounds(a: History, b: History, x: Move, y: Move): nat
    requires |a| == |b|
  {
    if a == [] then 0
    else
      var last := |a| - 1;
      Rounds(a[..last], b[..last], x, y) + (if a[last] == x && b[last] == y then 1 else 0)
  }

  lemma RoundsSnoc(a: History, b: History, m: Move, n: Move, x: Move, y: Move)
    requires |a| == |b|
    ensures Rounds(a + [m], b + [n], x, y) == Rounds(a, b, x, y) + (if m == x && n == y then 1 else 0)
  {
    assert (a + [m])[..|a|] == a && (b + [n])[..|b|] == b;
  }

  /** Both totals of every match, exactly: 3 for mutual cooperation, 5 and 0 for a betrayal, 1 for mutual defection. */
  lemma {:induction false} TotalsExact(pa: Player, pb: Player, rng: SeededRng, r: nat)
    requires r <= 100
    ensures var p := Play(pa, pb, rng, r);
            var cc, cd := Rounds(p.a, p.b, Cooperate, Cooperate), Rounds(p.a, p.b, Cooperate, Defect);
            var dc, dd := Rounds(p.a, p.b, Defect, Cooperate), Rounds(p.a, p.b, Defect, Defect);
            && cc + cd + dc + dd == r
            && p.totalA == 3 * cc + 5 * dc + dd && p.totalB == 3 * cc + 5 * cd + dd
  {
    hide PlayOne, ForRound, Rounds;
    if r > 0 {
      TotalsExact(pa, pb, rng, r - 1);
      var p, q := Play(pa, pb, rng, r - 1), Play(pa, pb, rng, r);
      var m, n := q.a[r - 1], q.b[r - 1];
      RoundsSnoc(p.a, p.b, m, n, Cooperate, Cooperate);
      RoundsSnoc(p.a, p.b, m, n, Cooperate, Defect);
      RoundsSnoc(p.a, p.b, m, n, Defect, Cooperate);
      RoundsSnoc(p.a, p.b, m, n, Defect, Defect);
    } else {
      NoRounds();
    }
  }

  lemma NoRounds()
    ensures forall x: Move, y: Move :: Rounds([], [], x, y) == 0
  {}

  ghost predicate FaithfulRound(p: Progress, i: nat)
    requires |p.a| == |p.b| == |p.rounds| && i < |p.rounds|
  {
    var x := p.rounds[i];
    && x.round == i && x.moveA == p.a[i] && x.moveB == p.b[i]
    && (x.scoreA, x.scoreB) == Payoff(p.a[i], p.b[i])
    && x.cumulativeA == x.scoreA + (if i == 0 then 0 else p.rounds[i - 1].cumulativeA)
    && x.cumulativeB == x.scoreB + (if i == 0 then 0 else p.rounds[i - 1].cumulativeB)
  }

  /** The recorded rounds are the two histories with their payoffs, running totals and final totals. */
  ghost predicate Faithful(p: Progress) {
    && |p.a| == |p.b| == |p.rounds|
    && (forall i: nat :: i < |p.rounds| ==> FaithfulRound(p, i))
    && p.totalA == (if p.rounds == [] then 0 else p.rounds[|p.rounds| - 1].cumulativeA)
    && p.totalB == (if p.rounds == [] then 0 else p.rounds[|p.rounds| - 1].cumulativeB)
  }

  lemma ExtendFaithful(p: Progress, moveA: Move, moveB: Move)
    requires Faithful(p) && |p.rounds| < 256
    ensures Faithful(Extend(p, moveA, moveB))
  {
    hide Payoff;
    var q := Extend(p, moveA, moveB);
    forall i | 0 <= i < |q.rounds| ensures FaithfulRound(q, i) {
      if i < |p.rounds| { assert FaithfulRound(p, i); }
    }
  }

  lemma {:induction false} RecordFaithful(pa: Player, pb: Player, rng: SeededRng, r: nat)
    requires r <= 100
    ensures Faithful(Play(pa, pb, rng, r))
  {
    hide PlayOne, ForRound, Extend, Faithful;
    if r > 0 {
      RecordFaithful(pa, pb, rng, r - 1);
      var p := Play(pa, pb, rng, r - 1);
      ExtendFaithful(p, PlayOne(pa, p.b, p.a, r - 1, ForRound(rng, 2 * (r - 1))),
                     PlayOne(pb, p.a, p.b, r - 1, ForRound(rng, 2 * (r - 1) + 1)));
    } else {
      OpeningFaithful();
    }
  }

  lemma OpeningFaithful()
    ensures Faithful(OPENING)
  {}

  /** A whole match stays within the score range the tournament relies on. */
  lemma MatchScoreRange(pa: Player, pb: Player, seed: Seed, index: nat, participants: nat)
    ensures var m := MatchOf(pa, pb, seed, index, participants);
            && 10 <= m.roundCount <= 50 && |m.rounds| == m.roundCount
            && 2 * m.roundCount <= m.totalA + m.totalB <= 6 * m.roundCount
            && m.totalA <= 250 && m.totalB <= 250
  {
    hide Play, MatchSetup;
    var (rng, count) := MatchSetup(seed, index, participants);
    ScoreLaw(pa, pb, rng, count);
  }

  // ----- reactive strategies, from either seat -----

  datatype Seat = A | B

  function Mine(p: Progress, seat: Seat): History { if seat.A? then p.a else p.b }

  function Theirs(p: Progress, seat: Seat): History { if seat.A? then p.b else p.a }

  function SitDown(me: Player, opponent: Player, seat: Seat): (Player, Player) {
    if seat.A? then (me, opponent) else (opponent, me)
  }

  function PlaySeated(me: Player, opponent: Player, seat: Seat, rng: SeededRng, r: nat): (p: Progress)
    requires r <= 100
    ensures |p.a| == |p.b| == |p.rounds| == r
  {
    var (pa, pb) := SitDown(me, opponent, seat);
    Play(pa, pb, rng, r)
  }

  /** One round from the point of view of a builtin player: own move by its rule, any move by the opponent. */
  lemma SeatedRound(base: Base, opponent: Player, seat: Seat, rng: SeededRng, r: nat) returns (mine: Move, theirs: Move)
    requires r < 100 && base != Random
    ensures var p := PlaySeated(Builtin(base), opponent, seat, rng, r);
            var q := PlaySeated(Builtin(base), opponent, seat, rng, r + 1);
            && mine == PlayBuiltin(base, Theirs(p, seat), Mine(p, seat), rng)
            && Mine(q, seat) == Mine(p, seat) + [mine] && Theirs(q, seat) == Theirs(p, seat) + [theirs]
            && Defects(Mine(q, seat)) == Defects(Mine(p, seat)) + Bit(mine)
            && Defects(Theirs(q, seat)) == Defects(Theirs(p, seat)) + Bit(theirs)
  {
    hide ForRound, Defects, PlayPavlov, PlayGradual, Payoff;
    var p := PlaySeated(Builtin(base), opponent, seat, rng, r);
    var q := PlaySeated(Builtin(base), opponent, seat, rng, r + 1);
    mine, theirs := Mine(q, seat)[r], Theirs(q, seat)[r];
    DefectsSnoc(Mine(p, seat), mine);
    DefectsSnoc(Theirs(p, seat), theirs);
  }

  /** Copying the opponent's previous move, after an opening defection or not, trails it by exactly one round. */
  lemma {:induction false} CopierTrails(base: Base, opponent: Player, seat: Seat, rng: SeededRng, r: nat)
    requires 1 <= r <= 100 && (base == TitForTat || base == SuspiciousTitForTat)
    ensures var p := PlaySeated(Builtin(base), opponent, seat, rng, r);
            Defects(Mine(p, seat)) + Bit(Last(Theirs(p, seat))) ==
            Defects(Theirs(p, seat)) + (if base == SuspiciousTitForTat then 1 else 0)
  {
    hide PlaySeated, Defects, PlayPavlov, PlayGradual;
    if r > 1 {
      CopierTrails(base, opponent, seat, rng, r - 1);
    } else {
      var p := PlaySeated(Builtin(base), opponent, seat, rng, 0);
      DefectsPositive(Mine(p, seat));
      DefectsPositive(Theirs(p, seat));
    }
    var mine, theirs := SeatedRound(base, opponent, seat, rng, r - 1);
  }

  /** After the first betrayal GrimTrigger always defects, so the opponent is at most one defection ahead. */
  lemma {:induction false} GrimTrails(opponent: Player, seat: Seat, rng: SeededRng, r: nat)
    requires r <= 100
    ensures var p := PlaySeated(Builtin(GrimTrigger), opponent, seat, rng, r);
            && Defects(Theirs(p, seat)) <= Defects(Mine(p, seat)) + 1
            && (Defect !in Theirs(p, seat) ==> Defects(Mine(p, seat)) == 0)
  {
    hide PlaySeated, Defects;
    if r > 0 {
      GrimTrails(opponent, seat, rng, r - 1);
      var mine, theirs := SeatedRound(GrimTrigger, opponent, seat, rng, r - 1);
      DefectsPositive(Theirs(PlaySeated(Builtin(GrimTrigger), opponent, seat, rng, r - 1), seat));
    } else {
      var p := PlaySeated(Builtin(GrimTrigger), opponent, seat, rng, 0);
      DefectsPositive(Mine(p, seat));
      DefectsPositive(Theirs(p, seat));
    }
  }

  function MatchSeated(me: Player, opponent: Player, seat: Seat, seed: Seed, index: nat, participants: nat)
    : MatchResult
  {
    var (pa, pb) := SitDown(me, opponent, seat);
    MatchOf(pa, pb, seed, index, participants)
  }

  /** Own points minus the opponent's. */
  function Margin(m: MatchResult, seat: Seat): int {
    if seat.A? then m.totalA - m.totalB else m.totalB - m.totalA
  }

  /** The final margin counts excess defections. */
  lemma MarginIsExcess(me: Player, opponent: Player, seat: Seat, seed: Seed, index: nat, participants: nat)
    ensures var (rng, count) := MatchSetup(seed, index, participants);
            var p := PlaySeated(me, opponent, seat, rng, count);
            Margin(MatchSeated(me, opponent, seat, seed, index, participants), seat) ==
            5 * (Defects(Mine(p, seat)) - Defects(Theirs(p, seat)))
  {
    hide Play, MatchSetup;
    var (rng, count) := MatchSetup(seed, index, participants);
    var (pa, pb) := SitDown(me, opponent, seat);
    ScoreLaw(pa, pb, rng, count);
  }

  /** TitForTat never wins a match and never loses one by more than a single betrayal. */
  lemma TitForTatMargin(opponent: Player, seat: Seat, seed: Seed, index: nat, participants: nat)
    ensures Margin(MatchSeated(Builtin(TitForTat), opponent, seat, seed, index, participants), seat) in {0, -5}
  {
    hide PlaySeated, MatchSeated, MatchSetup, Defects;
    var (rng, count) := MatchSetup(seed, index, participants);
    MarginIsExcess(Builtin(TitForTat), opponent, seat, seed, index, participants);
    CopierTrails(TitForTat, opponent, seat, rng, count);
  }

  /** SuspiciousTitForTat never loses a match and never wins one by more than its opening defection. */
  lemma SuspiciousMargin(opponent: Player, seat: Seat, seed: Seed, index: nat, participants: nat)
    ensures Margin(MatchSeated(Builtin(SuspiciousTitForTat), opponent, seat, seed, index, participants), seat) in {0, 5}
  {
    hide PlaySeated, MatchSeated, MatchSetup, Defects;
    var (rng, count) := MatchSetup(seed, index, participants);
    MarginIsExcess(Builtin(SuspiciousTitForTat), opponent, seat, seed, index, participants);
    CopierTrails(SuspiciousTitForTat, opponent, seat, rng, count);
  }

  /** GrimTrigger is never beaten by more than one betrayal. */
  lemma GrimMargin(opponent: Player, seat: Seat, seed: Seed, index: nat, participants: nat)
    ensures Margin(MatchSeated(Builtin(GrimTrigger), opponent, seat, seed, index, participants), seat) >= -5
  {
    hide PlaySeated, MatchSeated, MatchSetup, Defects;
    var (rng, count) := MatchSetup(seed, index, participants);
    MarginIsExcess(Builtin(GrimTrigger), opponent, seat, seed, index, participants);
    GrimTrails(opponent, seat, rng, count);
  }

  /** A second chance given every time: TitForTwoTats never defects more often than its opponent has. */
  lemma {:induction false} TwoTatsTrails(opponent: Player, seat: Seat, rng: SeededRng, r: nat)
    requires 1 <= r <= 100
    ensures var p := PlaySeated(Builtin(TitForTwoTats), opponent, seat, rng, r);
            Defects(Mine(p, seat)) + Bit(Last(Theirs(p, seat))) <= Defects(Theirs(p, seat))
  {
    hide PlaySeated, Defects, PlayPavlov, PlayGradual;
    if r > 1 {
      TwoTatsTrails(opponent, seat, rng, r - 1);
    } else {
      var p := PlaySeated(Builtin(TitForTwoTats), opponent, seat, rng, 0);
      DefectsPositive(Mine(p, seat));
      DefectsPositive(Theirs(p, seat));
    }
    var mine, theirs := SeatedRound(TitForTwoTats, opponent, seat, rng, r - 1);
  }

  /** ... so it never wins a match. */
  lemma TwoTatsMargin(opponent: Player, seat: Seat, seed: Seed, index: nat, participants: nat)
    ensures Margin(MatchSeated(Builtin(TitForTwoTats), opponent, seat, seed, index, participants), seat) <= 0
  {
    hide PlaySeated, MatchSeated, MatchSetup, Defects;
    var (rng, count) := MatchSetup(seed, index, participants);
    MarginIsExcess(Builtin(TitForTwoTats), opponent, seat, seed, index, participants);
    TwoTatsTrails(opponent, seat, rng, count);
  }

  /** Defections Gradual owes after n defections of the opponent: 1 + 2 + ... + n. */
  function Owed(n: nat): nat { if n == 0 then 0 else Owed(n - 1) + n }

  lemma {:induction false} OwedClosedForm(n: nat)
    ensures Owed(n) == n * (n + 1) / 2
    ensures 2 * Owed(n) == n * (n + 1)
  {
    if n > 0 {
      OwedClosedForm(n - 1);
      assert n * (n + 1) == (n - 1) * n + 2 * n;
    }
  }

  /** Gradual answers n defections with at most 1 + 2 + ... + n of its own, in every round of every match. */
  lemma {:induction false} GradualBudget(opponent: Player, seat: Seat, rng: SeededRng, r: nat)
    requires r <= 100
    ensures var p := PlaySeated(Builtin(Gradual), opponent, seat, rng, r);
            Defects(Mine(p, seat)) <= Owed(Defects(Theirs(p, seat)))
  {
    hide PlaySeated, Defects, PlayPavlov;
    if r > 0 {
      GradualBudget(opponent, seat, rng, r - 1);
      var p := PlaySeated(Builtin(Gradual), opponent, seat, rng, r - 1);
      var mine, theirs := SeatedRound(Gradual, opponent, seat, rng, r - 1);
      OwedClosedForm(Defects(Theirs(p, seat)));
    } else {
      DefectsPositive(Mine(PlaySeated(Builtin(Gradual), opponent, seat, rng, 0), seat));
    }
  }

  /** AlwaysDefect never loses and AlwaysCooperate never wins. */
  lemma ConstantMargins(opponent: Player, seat: Seat, seed: Seed, index: nat, participants: nat)
    ensures Margin(MatchSeated(Builtin(AlwaysDefect), opponent, seat, seed, index, participants), seat) >= 0
    ensures Margin(MatchSeated(Builtin(AlwaysCooperate), opponent, seat, seed, index, participants), seat) <= 0
  {
    hide PlaySeated, MatchSeated, MatchSetup, Defects;
    var (rng, count) := MatchSetup(seed, index, participants);
    MarginIsExcess(Builtin(AlwaysDefect), opponent, seat, seed, index, participants);
    MarginIsExcess(Builtin(AlwaysCooperate), opponent, seat, seed, index, participants);
    ConstantDefects(opponent, seat, rng, count);
    DefectsPositive(Theirs(PlaySeated(Builtin(AlwaysDefect), opponent, seat, rng, count), seat));
  }

  lemma {:induction false} ConstantDefects(opponent: Player, seat: Seat, rng: SeededRng, r: nat)
    requires r <= 100
    ensures Defects(Mine(PlaySeated(Builtin(AlwaysDefect), opponent, seat, rng, r), seat)) == r
    ensures Defects(Mine(PlaySeated(Builtin(AlwaysCooperate), opponent, seat, rng, r), seat)) == 0
  {
    hide PlaySeated, Defects, PlayPavlov, PlayGradual;
    if r > 0 {
      ConstantDefects(opponent, seat, rng, r - 1);
      var m1, t1 := SeatedRound(AlwaysDefect, opponent, seat, rng, r - 1);
      var m2, t2 := SeatedRound(AlwaysCooperate, opponent, seat, rng, r - 1);
    } else {
      DefectsPositive(Mine(PlaySeated(Builtin(AlwaysDefect), opponent, seat, rng, 0), seat));
      DefectsPositive(Mine(PlaySeated(Builtin(AlwaysCooperate), opponent, seat, rng, 0), seat));
    }
  }

  // ----- exact totals between constant players -----

  lemma {:induction false} ConstantPlay(x: Base, y: Base, rng: SeededRng, r: nat)
    requires r <= 100 && x in {AlwaysDefect, AlwaysCooperate} && y in {AlwaysDefect, AlwaysCooperate}
    ensures var p := Play(Builtin(x), Builtin(y), rng, r);
            && p.totalA == r * (if y == AlwaysCooperate then (if x == AlwaysDefect then 5 else 3)
                                else if x == AlwaysDefect then 1 else 0)
            && p.totalB == r * (if x == AlwaysCooperate then (if y == AlwaysDefect then 5 else 3)
                                else if y == AlwaysDefect then 1 else 0)
  {
    hide ForRound;
    if r > 0 { ConstantPlay(x, y, rng, r - 1); }
  }

  /** A match of R rounds: two defectors end at R each, two cooperators at 3R, a defector takes 5R off a cooperator. */
  lemma ConstantTotals(seed: Seed, index: nat, participants: nat)
    ensures var m := MatchOf(Builtin(AlwaysDefect), Builtin(AlwaysDefect), seed, index, participants);
            m.totalA == m.totalB == m.roundCount
    ensures var m := MatchOf(Builtin(AlwaysCooperate), Builtin(AlwaysCooperate), seed, index, participants);
            m.totalA == m.totalB == 3 * m.roundCount
    ensures var m := MatchOf(Builtin(AlwaysDefect), Builtin(AlwaysCooperate), seed, index, participants);
            m.totalA == 5 * m.roundCount && m.totalB == 0
    ensures var m := MatchOf(Builtin(AlwaysCooperate), Builtin(AlwaysDefect), seed, index, participants);
            m.totalA == 0 && m.totalB == 5 * m.roundCount
  {
    hide Play, MatchSetup;
    var (rng, count) := MatchSetup(seed, index, participants);
    ConstantPlay(AlwaysDefect, AlwaysDefect, rng, count);
    ConstantPlay(AlwaysCooperate, AlwaysCooperate, rng, count);
    ConstantPlay(AlwaysDefect, AlwaysCooperate, rng, count);
    ConstantPlay(AlwaysCooperate, AlwaysDefect, rng, count);
  }

  // ----- Gradual pays its debt -----

  /** Gradual has answered n defections with all 1 + 2 + ... + n of its own. */
  predicate Settled(p: Progress, seat: Seat) { Defects(Mine(p, seat)) == Owed(Defects(Theirs(p, seat))) }

  /** In every round of every match Gradual cooperates exactly when it owes nothing. */
  lemma GradualMove(opponent: Player, seat: Seat, rng: SeededRng, r: nat)
    requires r < 100
    ensures var p := PlaySeated(Builtin(Gradual), opponent, seat, rng, r);
            var q := PlaySeated(Builtin(Gradual), opponent, seat, rng, r + 1);
            && Mine(q, seat)[..r] == Mine(p, seat) && Theirs(q, seat)[..r] == Theirs(p, seat)
            && (Mine(q, seat)[r] == Cooperate <==> Settled(p, seat))
            && (Settled(p, seat) && Theirs(q, seat)[r] == Cooperate ==> Settled(q, seat))
  {
    hide PlaySeated, Defects, PlayPavlov, Owed;
    var p := PlaySeated(Builtin(Gradual), opponent, seat, rng, r);
    var mine, theirs := SeatedRound(Gradual, opponent, seat, rng, r);
    GradualBudget(opponent, seat, rng, r);
    OwedClosedForm(Defects(Theirs(p, seat)));
  }

  /** After any number of rounds Gradual owes nothing, or has defected ever since the round in which it last did not. */
  lemma {:induction false} GradualCatchesUp(opponent: Player, seat: Seat, rng: SeededRng, r: nat) returns (s: nat)
    requires r <= 100
    ensures s <= r && Settled(PlaySeated(Builtin(Gradual), opponent, seat, rng, s), seat)
    ensures var h := Mine(PlaySeated(Builtin(Gradual), opponent, seat, rng, r), seat);
            forall i :: s < i < r ==> h[i] == Defect
  {
    hide PlaySeated, Settled;
    if r == 0 {
      OpeningSettled(opponent, seat, rng);
      s := 0;
    } else {
      s := GradualCatchesUp(opponent, seat, rng, r - 1);
      GradualMove(opponent, seat, rng, r - 1);
      if Settled(PlaySeated(Builtin(Gradual), opponent, seat, rng, r - 1), seat) { s := r - 1; }
      var h, h' := Mine(PlaySeated(Builtin(Gradual), opponent, seat, rng, r - 1), seat),
                   Mine(PlaySeated(Builtin(Gradual), opponent, seat, rng, r), seat);
      assert forall i :: 0 <= i < r - 1 ==> h'[i] == h'[..r - 1][i] == h[i];
    }
  }

  lemma OpeningSettled(opponent: Player, seat: Seat, rng: SeededRng)
    ensures Settled(PlaySeated(Builtin(Gradual), opponent, seat, rng, 0), seat)
  {
    DefectsPositive([]);
  }
}
