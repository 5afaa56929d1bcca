/**
 Who plays how many matches once a schedule is complete: the promised number exactly when no slot below
 the count is blank.
 */
module Fairness {
  import opened Counting
  import opened Offsets
  import opened Schedule
  import opened Degrees
  import opened Accounts
  import opened Rosters
  import opened Replays
  import opened Turnout
  import opened Batches
  import opened Safety

  /** The number of matches the schedule holds for each player. */
  function Degree(t: Tournament): nat {
    var n := t.roster.participantCount;
    if n == 0 then 0 else if n <= 200 then n - 1 else 2 * HalfUp(t.draw.matchesPerPlayer)
  }

  /** The slots the schedule draws from are all in use; visible from the moment the reveal phase closes. */
  predicate Compact(r: Roster) {
    forall i :: 0 <= i < r.participantCount ==> i < |r.players| && r.players[i] != DEFAULT
  }

  /** The schedule has been played to its end. */
  ghost predicate Complete(t: Tournament, now: int) {
    Inv(t, now) && t.phase == Running && t.draw.matchesCompleted == t.draw.matchesTotal
  }

  /** A schedule played to its end had all its pairs, whatever the size of the field. */
  lemma CompletePaired(t: Tournament, now: int)
    requires Complete(t, now)
    ensures Supported(t.roster.participantCount, t.draw.matchesPerPlayer)
    ensures AllPaired(t.roster.participantCount, t.draw.matchesPerPlayer, t.draw.seed)
  {
    hide LiveInv, Synced, MatchCount, Filled, GetPairing, EffectiveK;
    EffectiveServable(t.roster.participantCount, t.terms.matchesPerPlayer);
  }

  lemma CompactIsAll(r: Roster)
    requires RosterInv(r) && Compact(r)
    ensures forall i :: 0 <= i < |r.players| && r.players[i] != DEFAULT ==> i < r.participantCount
  {
    hide RosterInv, Range;
    ActiveCount(r);
    SubsetCardinality(Range(0, r.participantCount), ActiveSlots(r));
    assert forall i :: 0 <= i < |r.players| && r.players[i] != DEFAULT ==> i in ActiveSlots(r);
  }

  /** A blank slot below the count pushes some player to a slot above it. */
  lemma BlankPushesOut(r: Roster) returns (i: nat)
    requires RosterInv(r) && !Compact(r)
    ensures r.participantCount <= i < |r.players| && r.players[i] != DEFAULT
  {
    hide RosterInv, Range;
    ActiveCount(r);
    var inside := ActiveSlots(r) * Range(0, r.participantCount);
    SubsetCardinality(inside, Range(0, r.participantCount));
    var blank :| 0 <= blank < r.participantCount && !(blank < |r.players| && r.players[blank] != DEFAULT);
    assert blank !in ActiveSlots(r) && blank in Range(0, r.participantCount);
    assert ActiveSlots(r) != inside;
    i :| i in ActiveSlots(r) && i !in Range(0, r.participantCount);
  }

  lemma UseOfSlots(r: Roster, d: Draw, i: int)
    requires Filled(r)
    ensures InUse(FixtureOf(r, d), i) <==> 0 <= i < |r.players| && r.players[i] != DEFAULT
  {}

  /** The accounts' match counters are those of the fold. */
  lemma CounterIsFold(t: Tournament, now: int, p: Key)
    requires Inv(t, now) && t.phase == Running && p in t.roster.entries
    ensures Filled(t.roster) && FixtureOf(t.roster, t.draw).Valid()
    ensures var f := FixtureOf(t.roster, t.draw);
            && t.roster.entries[p].index < |f.slots| == |t.roster.players|
            && t.roster.entries[p].matchesPlayed == Replay(f, t.draw.matchesCompleted).played[t.roster.entries[p].index]
    ensures t.roster.players[t.roster.entries[p].index] == p != DEFAULT
  {
    hide Replay, Servable, EffectiveK, MatchCount, Counted, Blanked;
    assert EntryLinked(t.roster, p);
  }

  /** The schedule's parameters in a running state. */
  lemma RunningSchedule(t: Tournament, now: int)
    requires Inv(t, now) && t.phase == Running
    ensures RosterInv(t.roster) && 2 <= t.roster.participantCount
    ensures t.draw.matchesPerPlayer == EffectiveK(t.roster.participantCount, t.terms.matchesPerPlayer)
    ensures t.draw.matchesTotal == MatchCount(t.roster.participantCount, t.draw.matchesPerPlayer)
  {
    hide RosterInv, Synced, FixtureOf, MatchCount, EffectiveK, Filled, Paired;
  }

  /** A player in a slot at or above the count never plays. */
  lemma OutsiderNeverPlays(t: Tournament, now: int, p: Key)
    requires Inv(t, now) && t.phase == Running && p in t.roster.entries
    requires t.roster.participantCount <= t.roster.entries[p].index
    ensures t.roster.entries[p].matchesPlayed == 0
  {
    hide Inv, Replay, Servable, Occupants;
    CounterIsFold(t, now, p);
    NeverPlays(FixtureOf(t.roster, t.draw), t.draw.matchesCompleted, t.roster.entries[p].index);
  }

  lemma CompactPlaysAll(t: Tournament, now: int, p: Key)
    requires Complete(t, now) && Compact(t.roster) && p in t.roster.entries
    ensures t.roster.entries[p].matchesPlayed == Degree(t)
  {
    hide Inv, Replay, Occupants, MatchesOf, EffectiveK, MatchCount, RosterInv, AllPaired, Supported;
    CompletePaired(t, now);
    CounterIsFold(t, now, p);
    RunningSchedule(t, now);
    CompactIsAll(t.roster);
    var f, i := FixtureOf(t.roster, t.draw), t.roster.entries[p].index;
    forall j | 0 <= j < f.n ensures InUse(f, j) { UseOfSlots(t.roster, t.draw, j); }
    TournamentDegree(f.n, t.terms.matchesPerPlayer, f.seed, i);
    FullTurnout(f, i);
  }

  /**
   Once a schedule is complete, in a field of any size, every player has played the promised number of
   matches exactly when no slot below the participant count is blank.
   */
  lemma TurnoutIff(t: Tournament, now: int)
    requires Complete(t, now)
    ensures (forall p :: p in t.roster.entries ==> t.roster.entries[p].matchesPlayed == Degree(t))
       <==> Compact(t.roster)
  {
    hide Inv, RosterInv, EffectiveK, MatchCount, Compact;
    RunningSchedule(t, now);
    if Compact(t.roster) {
      forall p | p in t.roster.entries ensures t.roster.entries[p].matchesPlayed == Degree(t) {
        CompactPlaysAll(t, now, p);
      }
    } else {
      var i := BlankPushesOut(t.roster);
      SlotHasEntry(t.roster, i);
      OutsiderNeverPlays(t, now, t.roster.players[i]);
      DegreePositive(t);
    }
  }

  lemma SlotHasEntry(r: Roster, i: nat)
    requires RosterInv(r) && i < |r.players| && r.players[i] != DEFAULT
    ensures r.players[i] in r.entries && r.entries[r.players[i]].index == i
  {}

  lemma DegreePositive(t: Tournament)
    requires 2 <= t.roster.participantCount
    requires t.draw.matchesPerPlayer == EffectiveK(t.roster.participantCount, t.terms.matchesPerPlayer)
    ensures 0 < Degree(t)
  {}

  /** ... and "exactly K matches each" holds exactly when, besides, K is even or the field plays a round-robin. */
  lemma PlaysExactlyK(t: Tournament, now: int)
    requires Complete(t, now)
    ensures (forall p :: p in t.roster.entries ==> t.roster.entries[p].matchesPlayed == t.draw.matchesPerPlayer)
       <==> Compact(t.roster) && (t.roster.participantCount <= 200 || t.draw.matchesPerPlayer % 2 == 0)
  {
    hide Inv, RosterInv, MatchCount, Compact;
    RunningSchedule(t, now);
    if Compact(t.roster) {
      SlotOfFirst(t.roster);
      CompactPlaysAll(t, now, t.roster.players[0]);
      TurnoutIff(t, now);
    } else {
      var i := BlankPushesOut(t.roster);
      SlotHasEntry(t.roster, i);
      OutsiderNeverPlays(t, now, t.roster.players[i]);
    }
  }

  lemma SlotOfFirst(r: Roster)
    requires RosterInv(r) && Compact(r) && 0 < r.participantCount
    ensures 0 < |r.players| && r.players[0] in r.entries
  {}

  // ----- exact counts with blank slots -----

  /** The players in slots below the count, other than slot i. */
  function Rivals(r: Roster, i: nat): set<int> {
    set q | q in Range(0, r.participantCount) && q != i && q < |r.players| && r.players[q] != DEFAULT
  }

  lemma RivalsAreOpponents(r: Roster, d: Draw, i: nat)
    requires Filled(r) && InUse(FixtureOf(r, d), i)
    ensures Opponents(FixtureOf(r, d), i) == Rivals(r, i)
  {
    hide InUse, Range, Occupants;
    forall q | q in Range(0, r.participantCount) ensures q in Opponents(FixtureOf(r, d), i) <==> q in Rivals(r, i) {
      UseOfSlots(r, d, q);
    }
  }

  lemma RoundRobinExact(t: Tournament, now: int, p: Key)
    requires Complete(t, now) && p in t.roster.entries && t.roster.entries[p].index < t.roster.participantCount <= 200
    ensures t.roster.entries[p].matchesPlayed == |Rivals(t.roster, t.roster.entries[p].index)|
  {
    hide Inv, Replay, Occupants, MatchCount, RosterInv, Opponents, Rivals, Filled, CeilDiv, AllPaired, Supported;
    CompletePaired(t, now);
    CounterIsFold(t, now, p);
    RunningSchedule(t, now);
    var f, i := FixtureOf(t.roster, t.draw), t.roster.entries[p].index;
    UseOfSlots(t.roster, t.draw, i);
    RivalsAreOpponents(t.roster, t.draw, i);
    RoundRobinTurnout(f, i);
    OnceEach(f.n - 1);
  }

  lemma OnceEach(d: nat)
    requires 0 < d
    ensures CeilDiv(d, d) == 1
  {}

  lemma CircularExact(t: Tournament, now: int, p: Key)
    requires Complete(t, now) && p in t.roster.entries && 200 < t.roster.participantCount
    requires t.roster.entries[p].index < t.roster.participantCount && Filled(t.roster)
    ensures var offsets := SelectOffsets(t.roster.participantCount, t.draw.matchesPerPlayer, t.draw.seed);
            t.roster.entries[p].matchesPlayed ==
              SumTo(MeetsAt(FixtureOf(t.roster, t.draw), t.roster.entries[p].index, offsets), |offsets|)
  {
    hide Inv, Replay, Occupants, MatchCount, RosterInv, SelectOffsets, MeetsAt, SumTo, Filled, AllPaired;
    CompletePaired(t, now);
    CounterIsFold(t, now, p);
    RunningSchedule(t, now);
    var f := FixtureOf(t.roster, t.draw);
    CircularTurnout(f, t.roster.entries[p].index);
    OffsetsCorrect(f.n, f.k, f.seed);
  }

  /**
   How many matches an entry has played in a complete schedule, blank slots or not: none from a slot at or
   above the count, one per rival in a round-robin, one per sampled neighbour in use on the circle.
   */
  lemma TurnoutExact(t: Tournament, now: int, p: Key)
    requires Complete(t, now) && p in t.roster.entries
    ensures Filled(t.roster) && 2 <= t.roster.participantCount
    ensures var n, i, played := t.roster.participantCount, t.roster.entries[p].index, t.roster.entries[p].matchesPlayed;
            var offsets := SelectOffsets(n, t.draw.matchesPerPlayer, t.draw.seed);
            && (n <= i ==> played == 0)
            && (i < n <= 200 ==> played == |Rivals(t.roster, i)|)
            && (i < n && 200 < n ==> played == SumTo(MeetsAt(FixtureOf(t.roster, t.draw), i, offsets), |offsets|))
  {
    hide Inv, FixtureOf, RosterInv, SelectOffsets, MeetsAt, SumTo, Rivals, Filled, MatchCount, EffectiveK, Replay;
    RunningSchedule(t, now);
    CounterIsFold(t, now, p);
    var n, i := t.roster.participantCount, t.roster.entries[p].index;
    if n <= i {
      OutsiderNeverPlays(t, now, p);
    } else if n <= 200 {
      RoundRobinExact(t, now, p);
    } else {
      CircularExact(t, now, p);
    }
  }
}
