/** In which matches the published Pavlov listing gives itself away. */
module PavlovMatches {
  import opened Rng
  import opened Moves
  import opened Strategies
  import opened Game
  import opened Laws
  import opened Parity

  const LISTED := Custom(PAVLOV_LISTING)
  const PAVLOV := Builtin(Pavlov)

  /** In round i the player in this seat cooperated and was betrayed. */
  predicate Betrayed(p: Progress, seat: Seat, i: nat)
    requires i < |p.a| == |p.b|
  {
    Mine(p, seat)[i] == Cooperate && Theirs(p, seat)[i] == Defect
  }

  /** No such round among the first n. */
  ghost predicate Unbetrayed(p: Progress, seat: Seat, n: int)
    requires |p.a| == |p.b| && n <= |p.a|
  {
    forall i: nat :: i < n ==> !Betrayed(p, seat, i)
  }

  /** The stream of the player in this seat in round r. */
  function Stream(rng: SeededRng, seat: Seat, r: nat): SeededRng
    requires r < 100
  {
    ForRound(rng, if seat.A? then 2 * r else 2 * r + 1)
  }

  function Other(seat: Seat): Seat { if seat.A? then B else A }

  /** One more round: both histories and the record grow by the two moves. */
  lemma SeatedStep(me: Player, opponent: Player, seat: Seat, rng: SeededRng, r: nat) returns (mine: Move, theirs: Move)
    requires r < 100
    ensures var p := PlaySeated(me, opponent, seat, rng, r);
            var q := PlaySeated(me, opponent, seat, rng, r + 1);
            && mine == PlayOne(me, Theirs(p, seat), Mine(p, seat), r, Stream(rng, seat, r))
            && theirs == PlayOne(opponent, Mine(p, seat), Theirs(p, seat), r, Stream(rng, Other(seat), r))
            && q == (if seat.A? then Extend(p, mine, theirs) else Extend(p, theirs, mine))
  {
    hide PlayOne, ForRound, Extend;
    var p := PlaySeated(me, opponent, seat, rng, r);
    mine := PlayOne(me, Theirs(p, seat), Mine(p, seat), r, Stream(rng, seat, r));
    theirs := PlayOne(opponent, Mine(p, seat), Theirs(p, seat), r, Stream(rng, Other(seat), r));
  }

  /** Records that differ keep differing; different moves make records differ. */
  lemma ExtendDiffers(p: Progress, q: Progress, a: Move, b: Move, a': Move, b': Move)
    requires |p.rounds| == |q.rounds| < 256
    ensures p.rounds != q.rounds ==> Extend(p, a, b).rounds != Extend(q, a', b').rounds
    ensures a != a' || b != b' ==> Extend(p, a, b).rounds != Extend(q, a', b').rounds
  {
    hide Payoff;
    var n, x, y := |p.rounds|, Extend(p, a, b).rounds, Extend(q, a', b').rounds;
    assert x[..n] == p.rounds && y[..n] == q.rounds;
    assert x[n].moveA == a && x[n].moveB == b && y[n].moveA == a' && y[n].moveB == b';
  }

  /** Round r ends with the same moves before it. */
  lemma ExtendKeeps(p: Progress, seat: Seat, mine: Move, theirs: Move, n: int)
    requires |p.a| == |p.b| == |p.rounds| < 256 && n <= |p.a|
    ensures var q := if seat.A? then Extend(p, mine, theirs) else Extend(p, theirs, mine);
            && |q.a| == |q.b| == |p.a| + 1
            && (Unbetrayed(q, seat, n) <==> Unbetrayed(p, seat, n))
  {
    hide Payoff;
    var q := if seat.A? then Extend(p, mine, theirs) else Extend(p, theirs, mine);
    forall i: nat | i < n ensures Betrayed(q, seat, i) <==> Betrayed(p, seat, i) {}
  }

  lemma OneMore(p: Progress, seat: Seat, n: nat)
    requires |p.a| == |p.b| && n < |p.a|
    ensures Unbetrayed(p, seat, n + 1) <==> Unbetrayed(p, seat, n) && !Betrayed(p, seat, n)
  {}

  lemma NoneYet(p: Progress, seat: Seat, n: int)
    requires |p.a| == |p.b| && n <= 0
    ensures Unbetrayed(p, seat, n)
  {}

  /**
   After r rounds against any opponent, from either seat, the listing has played exactly like Pavlov if
   Pavlov was not betrayed before the last of them, and the records differ otherwise.
   */
  lemma {:induction false} ListedLikePavlov(opponent: Player, seat: Seat, rng: SeededRng, r: nat)
    requires r <= 100
    ensures var p, q := PlaySeated(PAVLOV, opponent, seat, rng, r), PlaySeated(LISTED, opponent, seat, rng, r);
            if Unbetrayed(p, seat, r - 1) then q == p else q.rounds != p.rounds
  {
    hide PlayOne, ForRound, Extend, Unbetrayed, Betrayed;
    if r == 0 {
      NothingPlayed(opponent, seat, rng);
      NoneYet(PlaySeated(PAVLOV, opponent, seat, rng, 0), seat, -1);
    } else {
      var p, q := PlaySeated(PAVLOV, opponent, seat, rng, r - 1), PlaySeated(LISTED, opponent, seat, rng, r - 1);
      ListedLikePavlov(opponent, seat, rng, r - 1);
      var mine, theirs := SeatedStep(PAVLOV, opponent, seat, rng, r - 1);
      var mine', theirs' := SeatedStep(LISTED, opponent, seat, rng, r - 1);
      if seat.A? {
        ExtendDiffers(q, p, mine', theirs', mine, theirs);
      } else {
        ExtendDiffers(q, p, theirs', mine', theirs, mine);
      }
      ExtendKeeps(p, seat, mine, theirs, r - 1);
      if r >= 2 { OneMore(p, seat, r - 2); } else { NoneYet(p, seat, 0); }
      if p == q { SameUnlessBetrayed(p, seat, rng, r - 1); } else { DifferBefore(p, seat, r - 1); }
    }
  }

  lemma NothingPlayed(opponent: Player, seat: Seat, rng: SeededRng)
    ensures PlaySeated(PAVLOV, opponent, seat, rng, 0) == PlaySeated(LISTED, opponent, seat, rng, 0)
  {}

  /** With the same histories the two move alike exactly when the last round was no betrayal. */
  lemma SameUnlessBetrayed(p: Progress, seat: Seat, rng: SeededRng, r: nat)
    requires |p.a| == |p.b| == r < 100
    ensures PlayOne(LISTED, Theirs(p, seat), Mine(p, seat), r, Stream(rng, seat, r))
         == PlayOne(PAVLOV, Theirs(p, seat), Mine(p, seat), r, Stream(rng, seat, r))
       <==> !(r > 0 && Betrayed(p, seat, r - 1))
  {
    hide PlayOne, ForRound;
    PavlovPublished(Theirs(p, seat), Mine(p, seat), Stream(rng, seat, r));
  }

  lemma DifferBefore(p: Progress, seat: Seat, r: nat)
    requires |p.a| == |p.b| == r
    ensures Unbetrayed(p, seat, r) ==> Unbetrayed(p, seat, r - 1)
  {}

  // ----- whole matches -----

  /** The record of a match shows the player in this seat cooperating in round i and being betrayed. */
  predicate BetrayedIn(m: MatchResult, seat: Seat, i: nat)
    requires i < |m.rounds|
  {
    if seat.A? then m.rounds[i].moveA == Cooperate && m.rounds[i].moveB == Defect
    else m.rounds[i].moveB == Cooperate && m.rounds[i].moveA == Defect
  }

  lemma RecordShows(p: Progress, seat: Seat, roundCount: Byte, i: nat)
    requires Faithful(p) && i < |p.rounds|
    ensures BetrayedIn(Result(p, roundCount), seat, i) <==> Betrayed(p, seat, i)
  {
    assert FaithfulRound(p, i);
  }

  /**
   Replacing Pavlov by its published listing leaves a match unchanged exactly when Pavlov's match has no
   betrayed cooperation before its last round: against any opponent, in either seat.
   */
  lemma PavlovMatchIff(opponent: Player, seat: Seat, seed: Seed, index: nat, participants: nat)
    ensures var m := MatchSeated(PAVLOV, opponent, seat, seed, index, participants);
            && (MatchSeated(LISTED, opponent, seat, seed, index, participants) == m <==>
                  forall i: nat :: i + 1 < |m.rounds| ==> !BetrayedIn(m, seat, i))
  {
    hide Play, MatchSetup, Faithful, BetrayedIn, Betrayed;
    var (rng, count) := MatchSetup(seed, index, participants);
    var p := PlaySeated(PAVLOV, opponent, seat, rng, count);
    var (pa, pb) := SitDown(PAVLOV, opponent, seat);
    RecordFaithful(pa, pb, rng, count);
    ListedLikePavlov(opponent, seat, rng, count);
    forall i: nat | i + 1 < count ensures BetrayedIn(Result(p, count), seat, i) <==> Betrayed(p, seat, i) {
      RecordShows(p, seat, count, i);
    }
  }

  /** Every match against AlwaysDefect tells them apart: Pavlov opens with a cooperation that is betrayed. */
  lemma DefectorTellsApart(seat: Seat, seed: Seed, index: nat, participants: nat)
    ensures MatchSeated(LISTED, Builtin(AlwaysDefect), seat, seed, index, participants)
         != MatchSeated(PAVLOV, Builtin(AlwaysDefect), seat, seed, index, participants)
  {
    hide Play, MatchSetup, Faithful, BetrayedIn;
    var (rng, count) := MatchSetup(seed, index, participants);
    var (pa, pb) := SitDown(PAVLOV, Builtin(AlwaysDefect), seat);
    FirstBetrayal(seat, rng, count);
    RecordFaithful(pa, pb, rng, count);
    RecordShows(PlaySeated(PAVLOV, Builtin(AlwaysDefect), seat, rng, count), seat, count, 0);
    PavlovMatchIff(Builtin(AlwaysDefect), seat, seed, index, participants);
  }

  lemma {:induction false} FirstBetrayal(seat: Seat, rng: SeededRng, r: nat)
    requires 1 <= r <= 100
    ensures Betrayed(PlaySeated(PAVLOV, Builtin(AlwaysDefect), seat, rng, r), seat, 0)
  {
    hide ForRound, Payoff;
    if r > 1 { FirstBetrayal(seat, rng, r - 1); }
    var mine, theirs := SeatedStep(PAVLOV, Builtin(AlwaysDefect), seat, rng, r - 1);
  }
}
