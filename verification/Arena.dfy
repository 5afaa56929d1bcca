/** The program as an object: instructions update its accounts in place, each against the step it refines. */
module ArenaProgram {
  import opened Options
  import opened Rng
  import opened Arith
  import opened Schedule
  import opened Listing
  import opened Codec
  import opened Strategies
  import opened Game
  import opened Accounts
  import opened Ledger
  import opened Rosters
  import opened Replays
  import opened Batches
  import opened Prizes
  import opened Protocol
  import opened Safety
  import opened Closing
  import opened Worlds
  import opened Runs
  import opened Conservation
  import opened Guarantees

  /** The reported check and the state reached are those of the step: committed, or failed and unchanged. */
  predicate Follows(r: Check, step: Result<World>, before: World, after: World) {
    match step
    case Ok(w) => r == Pass && after == w
    case Err(e) => r == Fail(e) && after == before
  }

  /** Searches for the last slot in use from the end. */
  method FindLastActive(players: seq<Key>) returns (last: Option<nat>)
    ensures last == LastActive(players)
  {
    var i := |players|;
    assert players[..i] == players;
    while i > 0
      invariant i <= |players|
      invariant LastActive(players) == LastActive(players[..i])
    {
      if players[i - 1] != DEFAULT {
        return Some(i - 1);
      }
      assert players[..i][..i - 1] == players[..i - 1];
      i := i - 1;
    }
    last := None;
  }

  /** Collects the scores of the slots in use. */
  method CollectScores(players: seq<Key>, scores: seq<nat>) returns (active: seq<nat>)
    requires |players| == |scores|
    ensures active == ActiveScores(players, scores)
  {
    active := [];
    for i := 0 to |players|
      invariant active == ActiveScores(players[..i], scores[..i])
    {
      assert players[..i + 1][..i] == players[..i] && scores[..i + 1][..i] == scores[..i];
      if players[i] != DEFAULT {
        active := active + [scores[i]];
      }
    }
    assert players[..|players|] == players && scores[..|scores|] == scores;
  }

  method CountWinners(sorted: seq<nat>, least: nat) returns (count: nat)
    ensures count == CountAtLeast(sorted, least)
  {
    count := 0;
    for i := 0 to |sorted|
      invariant count == CountAtLeast(sorted[..i], least)
    {
      assert sorted[..i + 1][..i] == sorted[..i];
      if sorted[i] >= least {
        count := count + 1;
      }
    }
    assert sorted[..|sorted|] == sorted;
  }

  /** The check over all active strategies before a batch. */
  method AnyHidden(r: Roster) returns (hidden: bool)
    requires Shaped(r)
    ensures hidden <==> !NoneHidden(r)
  {
    hidden := false;
    for i := 0 to |r.players|
      invariant !hidden
      invariant forall j :: 0 <= j < i && r.players[j] != DEFAULT ==> r.strategies[j] != HIDDEN
    {
      if r.players[i] != DEFAULT && r.strategies[i] == HIDDEN {
        return true;
      }
    }
  }

  /** Adds points to an entry. */
  method AddPoints(e0: Entry, points: nat) returns (e: Entry, check: Check)
    requires e0.matchesPlayed <= 199
    ensures check.Pass? ==> Scored(e0, points) == Ok(e)
    ensures check.Fail? ==> Scored(e0, points) == Err(check.error)
  {
    e, check := e0, Pass;
    if e.score + points >= U32_SIZE { return e, Fail(OverflowError); }
    e := e.(score := e.score + points);
    e := e.(matchesPlayed := e.matchesPlayed + 1);
  }

  /** The schedule of a field of up to 65535 is within the range of the lookup's 32-bit arithmetic. */
  lemma ReadyFits(r: Roster, d: Draw, configK: nat, m: nat)
    requires Ready(r, d, configK, m) && |r.players| < U16_SIZE
    ensures Shaped(r) && Servable(r.participantCount, d.matchesPerPlayer) && r.participantCount < U16_SIZE
    ensures MatchCount(r.participantCount, d.matchesPerPlayer) < U32_SIZE - 1
  {
    hide Synced, MatchCount, EffectiveK, Servable, Counted, Blanked;
    ActiveCount(r);
    ScheduleFits(r.participantCount, configK);
  }

  /** One match: look up the pair, skip blank slots, play, update both entries and both slots. */
  method PlayNext(r0: Roster, d: Draw, ghost configK: nat, idx: nat, accounts: set<Key>)
    returns (r: Roster, check: Check)
    requires Ready(r0, d, configK, idx) && |r0.players| < U16_SIZE
    requires idx < MatchCount(r0.participantCount, d.matchesPerPlayer)
    ensures check.Pass? ==> PlayMatch(r0, d, idx, accounts) == Ok(r)
    ensures check.Fail? ==> PlayMatch(r0, d, idx, accounts) == Err(check.error)
  {
    hide GetPairing, MatchOf, Servable, Scored, Ready, MatchCount;
    r, check := r0, Pass;
    ReadyFits(r, d, configK, idx);
    var pairing := GetPairingForMatch(r.participantCount, d.matchesPerPlayer, d.seed, idx);
    if pairing.None? { return r, Fail(InvalidMatch); }
    var (a, b) := pairing.value;
    if a >= |r.players| || b >= |r.players| { return r, Fail(InvalidMatch); }
    var playerA, playerB := r.players[a], r.players[b];
    if playerA == DEFAULT || playerB == DEFAULT { return; }
    if playerA !in accounts || playerA !in r.entries { return r, Fail(InvalidEntryAccount); }
    if playerB !in accounts || playerB !in r.entries { return r, Fail(InvalidEntryAccount); }
    var entryA, entryB := r.entries[playerA], r.entries[playerB];
    if entryA.index != a || entryB.index != b { return r, Fail(InvalidEntryAccount); }
    var result := RunMatch(ToPlayer(entryA), ToPlayer(entryB), d.seed, idx, r.participantCount);
    EntryBounds(r, d, configK, idx, playerA);
    EntryBounds(r, d, configK, idx, playerB);
    entryA, check := AddPoints(entryA, result.totalA);
    if check.Fail? { return; }
    entryB, check := AddPoints(entryB, result.totalB);
    if check.Fail? { return; }
    r := r.(entries := r.entries[playerA := entryA]);
    r := r.(entries := r.entries[playerB := entryB]);
    if r.scores[a] + result.totalA >= U32_SIZE { return r, Fail(OverflowError); }
    if r0.scores[b] + result.totalB >= U32_SIZE { return r, Fail(OverflowError); }
    r := r.(scores := r.scores[a := r.scores[a] + result.totalA]);
    r := r.(scores := r.scores[b := r.scores[b] + result.totalB]);
  }

  /** The batch loop: stops at the first failure. */
  method PlayMatches(r0: Roster, d: Draw, ghost configK: nat, accounts: set<Key>, start: nat, count: nat)
    returns (r: Roster, check: Check)
    requires Ready(r0, d, configK, start) && |r0.players| < U16_SIZE
    requires start + count <= MatchCount(r0.participantCount, d.matchesPerPlayer)
    ensures check.Pass? ==> PlayBatch(r0, d, start, count, accounts) == Ok(r)
    ensures check.Fail? ==> PlayBatch(r0, d, start, count, accounts) == Err(check.error)
  {
    hide PlayMatch, Ready, MatchCount;
    r, check := r0, Pass;
    for i := 0 to count
      invariant check.Pass?
      invariant Ready(r, d, configK, start + i)
      invariant r.participantCount == r0.participantCount && |r.players| == |r0.players|
      invariant PlayBatch(r0, d, start, count, accounts) == PlayBatch(r, d, start + i, count - i, accounts)
    {
      ghost var before := r;
      r, check := PlayNext(r, d, configK, start + i, accounts);
      if check.Fail? { return; }
      ReadyNext(before, d, configK, start + i, accounts);
    }
  }

  /** The last active registrant's slot, whoever supplies which entry, can be given up. */
  lemma LastVacatable(t: Tournament)
    requires LiveInv(t) && 2 <= t.roster.participantCount == t.roster.revealsCompleted
    ensures LastActive(t.roster.players).Some? ==> Vacatable(t, LastActive(t.roster.players).value)
  {
    LastActiveFound(t);
    AlwaysRefundable(t, t.roster.players[LastActive(t.roster.players).value]);
  }

  /** Refunds and blanks the last active registrant when the count is odd. */
  method RefundOdd(t0: Tournament, c: Config, refund: Option<Supplied>)
    returns (t: Tournament, payee: Key, paid: nat, check: Check)
    requires LiveInv(t0) && 2 <= t0.roster.participantCount == t0.roster.revealsCompleted
    ensures check.Pass? ==> EvenOut(t0, c, refund) == Ok(Effect(t, c, payee, paid))
    ensures check.Fail? ==> EvenOut(t0, c, refund) == Err(check.error)
  {
    hide LastActive, LiveInv;
    t, payee, paid, check := t0, c.operator, 0, Pass;
    if t.roster.participantCount % 2 == 1 {
      var last := FindLastActive(t.roster.players);
      if last.None? { return t, payee, paid, Fail(InvalidState); }
      payee := t.roster.players[last.value];
      if refund.None? { return t, payee, paid, Fail(InvalidEntryAccount); }
      if refund.value.player != payee { return t, payee, paid, Fail(InvalidEntryAccount); }
      if refund.value.entry.index != last.value { return t, payee, paid, Fail(InvalidEntryAccount); }
      LastVacatable(t);
      paid := t.terms.stake + refund.value.entry.lamports;
      t := t.(lamports := t.lamports - t.terms.stake, pool := t.pool - t.terms.stake);
      var roster := t.roster.(players := t.roster.players[last.value := DEFAULT]);
      roster := roster.(strategies := roster.strategies[last.value := HIDDEN]);
      roster := roster.(participantCount := roster.participantCount - 1);
      roster := roster.(revealsCompleted := roster.revealsCompleted - 1);
      if refund.value.own { roster := roster.(entries := roster.entries - {payee}); }
      roster := roster.(entriesRemaining := roster.entriesRemaining - 1);
      t := t.(roster := roster);
    }
  }

  /** Operator costs including the transactions still to come. */
  method AddFinalCosts(t: Tournament, c: Config) returns (costs: nat, check: Check)
    ensures check.Pass? ==> FinalCosts(t, c) == Ok(costs)
    ensures check.Fail? ==> FinalCosts(t, c) == Err(check.error)
  {
    costs := t.operatorCosts + c.operatorTxFee;
    if costs >= U64_SIZE { return costs, Fail(OverflowError); }
    var later := (t.roster.entriesRemaining + 1) * c.operatorTxFee;
    if later >= U64_SIZE || costs + later >= U64_SIZE { return costs, Fail(OverflowError); }
    return costs + later, Pass;
  }

  method SweepEmpty(t0: Tournament, c0: Config, now: int, costs: nat)
    returns (t: Tournament, c: Config, reimbursement: nat, check: Check)
    ensures check.Pass? ==> FinalizeEmpty(t0, c0, now, costs) == Ok(Effect(t, c, c0.operator, reimbursement))
    ensures check.Fail? ==> FinalizeEmpty(t0, c0, now, costs) == Err(check.error)
  {
    t, c := t0.(operatorCosts := costs), c0;
    t := t.(prize := t.prize.(winnerCount := 0, winnerPool := 0, minWinningScore := 0));
    reimbursement := Min(costs, SaturatingSub(t.lamports, t.rentMinimum));
    t := t.(lamports := t.lamports - reimbursement);
    var remaining := SaturatingSub(t.lamports, t.rentMinimum);
    if c.accumulatedFees + remaining >= U64_SIZE { return t, c, reimbursement, Fail(OverflowError); }
    c := c.(accumulatedFees := c.accumulatedFees + remaining, lamports := c.lamports + remaining);
    t := t.(lamports := t.lamports - remaining);
    t := t.(prize := t.prize.(payoutStartedAt := now), phase := Payout);
    check := Pass;
  }

  /** There is a winner to divide by, and fee and dust are in the account. */
  lemma WinnersCovered(t: Tournament, costs: nat)
    requires LiveInv(t) && 0 < t.roster.participantCount
    ensures Shaped(t.roster) && 0 < Winners(t.roster).1
    ensures var fee := HouseFee(t.pool, t.terms.houseFeeBps);
            var raw := Distributable(t.pool, fee, costs, t.lamports, t.rentMinimum);
            fee + Rem(raw, Winners(t.roster).1) <= t.lamports
  {
    hide RosterInv, Winners, HouseFee, Quot, Rem;
    InvIsShaped(t.roster);
    WinnersPositive(t.roster);
    HouseFeeBound(t.pool, t.terms.houseFeeBps);
    var raw := Distributable(t.pool, HouseFee(t.pool, t.terms.houseFeeBps), costs, t.lamports, t.rentMinimum);
    DivModIdentity(raw, Winners(t.roster).1);
  }

  /** Threshold, winner count, house fee, dust, reimbursement and winner pool, in the order they are computed. */
  method PayWinners(t0: Tournament, c0: Config, now: int, costs: nat)
    returns (t: Tournament, c: Config, reimbursement: nat, check: Check)
    requires LiveInv(t0) && 0 < t0.roster.participantCount
    ensures check.Pass? ==> FinalizeWinners(t0, c0, now, costs) == Ok(Effect(t, c, c0.operator, reimbursement))
    ensures check.Fail? ==> FinalizeWinners(t0, c0, now, costs) == Err(check.error)
  {
    hide ActiveScores, SortDown, CountAtLeast, Quot, Rem, TargetWinners, LiveInv;
    t, c, reimbursement := t0.(operatorCosts := costs), c0, 0;
    WinnersCovered(t0, costs);
    var active := CollectScores(t.roster.players, t.roster.scores);
    var sorted := SortDown(active);
    var least := Threshold(sorted, TargetWinners(t.roster.participantCount));
    var winners := CountWinners(sorted, least);
    if t.pool * t.terms.houseFeeBps >= U64_SIZE { return t, c, reimbursement, Fail(OverflowError); }
    var houseFee := t.pool * t.terms.houseFeeBps / 10000;
    var maxDistributable := SaturatingSub(t.lamports, t.rentMinimum);
    var afterDeductions := SaturatingSub(SaturatingSub(t.pool, houseFee), costs);
    var raw := Min(afterDeductions, maxDistributable);
    var perWinner := Quot(raw, winners);
    DivModIdentity(raw, winners);
    var dust := raw - perWinner * winners;
    var feeTotal := houseFee + dust;
    if feeTotal >= U64_SIZE { return t, c, reimbursement, Fail(OverflowError); }
    if c.accumulatedFees + feeTotal >= U64_SIZE { return t, c, reimbursement, Fail(OverflowError); }
    c := c.(accumulatedFees := c.accumulatedFees + feeTotal, lamports := c.lamports + feeTotal);
    t := t.(lamports := t.lamports - feeTotal);
    reimbursement := Min(costs, SaturatingSub(t.lamports, t.rentMinimum));
    t := t.(lamports := t.lamports - reimbursement);
    t := t.(prize := Prize(least, winners, perWinner * winners, t.prize.claimsProcessed, now), phase := Payout);
    check := Pass;
  }

  method SetLimits(c0: Config, u: ConfigUpdate) returns (c: Config, check: Check)
    ensures check.Pass? ==> UpdatedLimits(c0, u) == Ok(c)
    ensures check.Fail? ==> UpdatedLimits(c0, u) == Err(check.error)
  {
    c, check := c0, Pass;
    if u.operator.Some? { c := c.(operator := u.operator.value); }
    if u.houseFeeBps.Some? {
      if u.houseFeeBps.value > 10000 { return c, Fail(OverflowError); }
      c := c.(houseFeeBps := u.houseFeeBps.value);
    }
    if u.stake.Some? {
      if u.stake.value == 0 { return c, Fail(OverflowError); }
      c := c.(stake := u.stake.value);
    }
    if u.minParticipants.Some? {
      if u.minParticipants.value < 2 || u.minParticipants.value % 2 != 0 { return c, Fail(InvalidMinParticipants); }
      c := c.(minParticipants := u.minParticipants.value);
    }
    if u.maxParticipants.Some? {
      if u.maxParticipants.value < c.minParticipants { return c, Fail(OverflowError); }
      c := c.(maxParticipants := u.maxParticipants.value);
    }
  }

  method SetTiming(c0: Config, u: ConfigUpdate) returns (c: Config, check: Check)
    ensures check.Pass? ==> UpdatedTiming(c0, u) == Ok(c)
    ensures check.Fail? ==> UpdatedTiming(c0, u) == Err(check.error)
  {
    c, check := c0, Pass;
    if u.registrationDuration.Some? {
      if u.registrationDuration.value <= 0 { return c, Fail(OverflowError); }
      c := c.(registrationDuration := u.registrationDuration.value);
    }
    if u.matchesPerPlayer.Some? {
      if u.matchesPerPlayer.value == 0 { return c, Fail(OverflowError); }
      c := c.(matchesPerPlayer := u.matchesPerPlayer.value);
    }
    if u.revealDuration.Some? {
      if u.revealDuration.value <= 0 { return c, Fail(OverflowError); }
      c := c.(revealDuration := u.revealDuration.value);
    }
    if u.operatorTxFee.Some? {
      if u.operatorTxFee.value > 100_000_000 { return c, Fail(OverflowError); }
      c := c.(operatorTxFee := u.operatorTxFee.value);
    }
  }

  /** Fixes the schedule of the players that are left, or an empty one. */
  method Start(t0: Tournament, slot: Option<Seed>) returns (t: Tournament, check: Check)
    ensures check.Pass? ==> t0.roster.participantCount == 0 || slot.Some?
    ensures check.Pass? ==>
              t == if t0.roster.participantCount == 0 then StartEmpty(t0) else StartRunning(t0, slot.value)
    ensures check.Fail? ==> check.error == SlotHashUnavailable && t0.roster.participantCount != 0 && slot.None?
  {
    t, check := t0, Pass;
    if t.roster.participantCount == 0 {
      t := t.(phase := Running, draw := t.draw.(matchesTotal := 0, matchesCompleted := 0));
    } else {
      if slot.None? { return t, Fail(SlotHashUnavailable); }
      var active := t.roster.participantCount;
      var k := EffectiveK(active, t.terms.matchesPerPlayer);
      t := t.(draw := t.draw.(seed := slot.value, matchesPerPlayer := k));
      t := t.(draw := t.draw.(roundTier := if active <= 1000 then 0 else 1));
      t := t.(draw := t.draw.(matchesTotal := MatchCount(active, k)));
      t := t.(phase := Running);
    }
  }

  /** The reveal phase of one tournament: deadline, costs, odd player, schedule. */
  method CloseField(t0: Tournament, c: Config, now: int, supplied: Option<Supplied>, slot: Option<Seed>)
    returns (t: Tournament, payee: Key, paid: nat, check: Check)
    requires Inv(t0, now)
    ensures check.Pass? ==> CloseReveal(t0, c, now, supplied, slot) == Ok(Effect(t, c, payee, paid))
    ensures check.Fail? ==> CloseReveal(t0, c, now, supplied, slot) == Err(check.error)
  {
    hide Inv, EvenOut, MatchCount, EffectiveK, LiveInv;
    t, payee, paid, check := t0, c.operator, 0, Pass;
    if t.phase != Reveal { return t, payee, paid, Fail(InvalidState); }
    if now <= t.revealEnds { return t, payee, paid, Fail(RevealPeriodNotEnded); }
    if t.operatorCosts + c.operatorTxFee >= U64_SIZE { return t, payee, paid, Fail(OverflowError); }
    t := t.(operatorCosts := t.operatorCosts + c.operatorTxFee);
    if t.roster.revealsCompleted != t.roster.participantCount { return t, payee, paid, Fail(UnprocessedForfeits); }
    if t.roster.participantCount == 0 {
      t := t.(phase := Running, draw := t.draw.(matchesTotal := 0, matchesCompleted := 0));
    } else {
      RevealReady(t0, now, t.operatorCosts);
      t, payee, paid, check := RefundOdd(t, c, supplied);
      if check.Fail? { return; }
      t, check := Start(t, slot);
    }
  }

  /** Closes one entry: an unpaid winner's share goes to the player, or to the fees once claims have expired. */
  method SettleEntry(t0: Tournament, c0: Config, now: int, player: Key)
    returns (t: Tournament, c: Config, paid: nat, check: Check)
    ensures check.Pass? ==> CloseEntry(t0, c0, now, player) == Ok(Effect(t, c, player, paid))
    ensures check.Fail? ==> CloseEntry(t0, c0, now, player) == Err(check.error)
  {
    hide Quot;
    t, c, paid, check := t0, c0, 0, Pass;
    if player !in t.roster.entries { return t, c, paid, Fail(AccountMissing); }
    var entry := t.roster.entries[player];
    if t.phase != Payout { return t, c, paid, Fail(InvalidState); }
    if t.roster.entriesRemaining == 0 { return t, c, paid, Fail(OverflowError); }
    paid := entry.lamports;
    if !entry.paidOut && t.prize.winnerCount > 0 && entry.score >= t.prize.minWinningScore {
      var share := Quot(t.prize.winnerPool, t.prize.winnerCount);
      var transfer := Min(share, SaturatingSub(t.lamports, t.rentMinimum));
      if now >= t.prize.payoutStartedAt + CLAIM_EXPIRY_SECONDS {
        if c.accumulatedFees + transfer >= U64_SIZE { return t, c, paid, Fail(OverflowError); }
        c := c.(accumulatedFees := c.accumulatedFees + transfer);
        c := c.(lamports := c.lamports + transfer);
      } else {
        paid := paid + transfer;
        t := t.(prize := t.prize.(claimsProcessed := t.prize.claimsProcessed + 1));
      }
      t := t.(lamports := t.lamports - transfer);
    }
    t := t.(roster := t.roster.(entriesRemaining := t.roster.entriesRemaining - 1));
    t := t.(roster := t.roster.(entries := t.roster.entries - {player}));
  }

  /** Finalization of one tournament, up to the creation of the next. */
  method CloseBooks(t0: Tournament, c0: Config, now: int)
    returns (t: Tournament, c: Config, reimbursement: nat, check: Check)
    requires Inv(t0, now)
    ensures check.Pass? ==> Finalize(t0, c0, now) == Ok(Effect(t, c, c0.operator, reimbursement))
    ensures check.Fail? ==> Finalize(t0, c0, now) == Err(check.error)
  {
    hide Inv, FinalizeWinners, FinalizeEmpty, FinalCosts, LiveInv;
    t, c, reimbursement, check := t0, c0, 0, Pass;
    if t.phase != Running { return t, c, reimbursement, Fail(InvalidState); }
    if t.draw.matchesCompleted < t.draw.matchesTotal { return t, c, reimbursement, Fail(MatchesIncomplete); }
    var costs;
    costs, check := AddFinalCosts(t, c);
    if check.Fail? { return; }
    if t.roster.participantCount == 0 {
      t, c, reimbursement, check := SweepEmpty(t, c, now, costs);
    } else {
      LiveInvOfPhase(t, now);
      t, c, reimbursement, check := PayWinners(t, c, now, costs);
    }
  }

  /** Finds an entry account by its address. */
  method LoadEntry(tours: map<nat, Tournament>, orphans: map<EntryRef, Entry>, ref: EntryRef)
    returns (entry: Option<Entry>)
    ensures forall w: World :: w.tours == tours && w.orphans == orphans ==> EntryAt(w, ref) == entry
  {
    if ref.tour in tours && ref.player in tours[ref.tour].roster.entries {
      return Some(tours[ref.tour].roster.entries[ref.player]);
    }
    return if ref in orphans then Some(orphans[ref]) else None;
  }

  /** Erases an entry account wherever it lives. */
  method EraseEntry(tours0: map<nat, Tournament>, orphans0: map<EntryRef, Entry>, ref: EntryRef)
    returns (tours: map<nat, Tournament>, orphans: map<EntryRef, Entry>)
    ensures forall w: World :: w.tours == tours0 && w.orphans == orphans0 ==>
              Erase(w, ref) == w.(tours := tours, orphans := orphans)
  {
    tours, orphans := tours0, orphans0;
    if ref.tour in tours && ref.player in tours[ref.tour].roster.entries {
      tours := tours[ref.tour := Drained(tours[ref.tour], ref.player)];
    } else {
      orphans := orphans - {ref};
    }
  }

  lemma RevealReady(t: Tournament, now: int, costs: nat)
    requires Inv(t, now) && t.phase == Reveal
    ensures LiveInv(t.(operatorCosts := costs)) && 2 <= t.roster.participantCount
  {
    hide RosterInv;
  }

  lemma RunReady(w: World, id: nat)
    requires WorldInv(w) && id in w.tours && w.tours[id].phase == Running
    ensures var t := w.tours[id];
            && Ready(t.roster, t.draw, t.terms.matchesPerPlayer, t.draw.matchesCompleted)
            && |t.roster.players| < U16_SIZE
            && t.draw.matchesTotal == MatchCount(t.roster.participantCount, t.draw.matchesPerPlayer)
  {
    hide WorldInv, RosterInv, DrawInv, MatchCount, Ready;
    TournamentInv(w, id);
    RunningReady(w.tours[id], w.now);
  }

  /** What every step from a valid world guarantees, whatever it is called with. */
  lemma Promised(w: World, a: Action, hash: Hash)
    requires WorldInv(w)
    ensures Step(w, a, hash) != Err(Aborted)
    ensures Total(Apply(w, a, hash)) == Total(w)
    ensures WorldInv(Apply(w, a, hash)) <==> !(Foreign(w, a) && Step(w, a, hash).Ok?)
  {
    hide WorldInv, Total, Step, Foreign;
    StepNeverAborts(w, a, hash);
    ValidConserves(w, a, hash);
    if Step(w, a, hash).Ok? { StepKeepsIff(w, a, hash); }
  }

  class Arena {
    var config: Config
    var tours: map<nat, Tournament>
    var orphans: map<EntryRef, Entry>
    var wallets: Wallets
    var now: int
    const hash: Hash

    ghost function View(): World
      reads this
    {
      World(config, tours, orphans, wallets, now)
    }

    /** The invariant over all tournaments, the config and the clock. */
    ghost predicate Valid()
      reads this
    {
      WorldInv(View())
    }

    constructor (w: World, hash: Hash)
      requires WorldInv(w)
      ensures View() == w && this.hash == hash && Valid()
    {
      hide WorldInv;
      config, tours, orphans, wallets, now := w.config, w.tours, w.orphans, w.wallets, w.now;
      this.hash := hash;
    }

    method EnterTournament(id: nat, player: Key, commitment: seq<Byte>, topUp: nat, newRent: nat, entryRent: nat)
      returns (r: Check)
      requires Valid()
      modifies this
      ensures var order := Order.EnterTournament(player, commitment, topUp, newRent, entryRent);
              Follows(r, Step(old(View()), On(id, order), hash), old(View()), View())
      ensures Valid() && Total(View()) == old(Total(View())) && r != Fail(Aborted)
    {
      hide WorldInv, Total;
      Promised(View(), On(id, Order.EnterTournament(player, commitment, topUp, newRent, entryRent)), hash);
      if id !in tours { return Fail(AccountMissing); }
      var t := tours[id];
      if player == DEFAULT { return Fail(AccountMissing); }
      if player in t.roster.entries { return Fail(AccountInUse); }
      if t.phase != Registration { return Fail(RegistrationClosed); }
      if |t.roster.players| >= config.maxParticipants { return Fail(TournamentFull); }
      var stake := t.terms.stake;
      var charge := stake + topUp + entryRent;
      if Balance(wallets, player) < charge { return Fail(InsufficientFunds); }
      t := t.(lamports := t.lamports + stake + topUp, rentMinimum := newRent);
      var roster := t.roster;
      var entry := Entry(|roster.players|, commitment, Standard(TitForTat), false, 0, 0, false, [], entryRent);
      roster := roster.(players := roster.players + [player]);
      roster := roster.(scores := roster.scores + [0]);
      roster := roster.(strategies := roster.strategies + [HIDDEN]);
      roster := roster.(participantCount := roster.participantCount + 1);
      roster := roster.(entriesRemaining := roster.entriesRemaining + 1);
      roster := roster.(entries := roster.entries[player := entry]);
      t := t.(roster := roster, pool := t.pool + stake);
      tours := tours[id := t];
      wallets := Adjust(wallets, player, -charge);
      return Pass;
    }

    method ClaimRefund(id: nat, player: Key) returns (r: Check)
      requires Valid()
      modifies this
      ensures Follows(r, Step(old(View()), On(id, Order.ClaimRefund(player)), hash), old(View()), View())
      ensures Valid() && Total(View()) == old(Total(View())) && r != Fail(Aborted)
    {
      hide WorldInv, Total;
      Promised(View(), On(id, Order.ClaimRefund(player)), hash);
      if id !in tours { return Fail(AccountMissing); }
      var t := tours[id];
      if player !in t.roster.entries { return Fail(AccountMissing); }
      if t.phase != Registration { return Fail(InvalidState); }
      var entry, stake := t.roster.entries[player], t.terms.stake;
      t := t.(lamports := t.lamports - stake);
      var roster := t.roster;
      roster := roster.(players := roster.players[entry.index := DEFAULT]);
      roster := roster.(strategies := roster.strategies[entry.index := HIDDEN]);
      roster := roster.(participantCount := roster.participantCount - 1);
      roster := roster.(entriesRemaining := roster.entriesRemaining - 1);
      roster := roster.(entries := roster.entries - {player});
      t := t.(roster := roster, pool := t.pool - stake);
      tours := tours[id := t];
      wallets := Adjust(wallets, player, stake + entry.lamports);
      return Pass;
    }

    method CloseRegistration(id: nat) returns (r: Check)
      requires Valid()
      modifies this
      ensures Follows(r, Step(old(View()), On(id, EndRegistration), hash), old(View()), View())
      ensures Valid() && Total(View()) == old(Total(View())) && r != Fail(Aborted)
    {
      hide WorldInv, Total;
      Promised(View(), On(id, EndRegistration), hash);
      if id !in tours { return Fail(AccountMissing); }
      var t := tours[id];
      if t.phase != Registration { return Fail(InvalidState); }
      if now < t.registrationEnds { return Fail(RegistrationOpen); }
      if t.roster.participantCount < config.minParticipants { return Fail(MinParticipantsNotReached); }
      if t.operatorCosts + config.operatorTxFee >= U64_SIZE { return Fail(OverflowError); }
      t := t.(operatorCosts := t.operatorCosts + config.operatorTxFee);
      t := t.(phase := Reveal);
      t := t.(revealEnds := now + t.terms.revealDuration);
      tours := tours[id := t];
      return Pass;
    }

    method RevealStrategy(id: nat, player: Key, choice: Choice, salt: seq<Byte>, code: Option<seq<Byte>>)
      returns (r: Check)
      requires Valid()
      modifies this
      ensures Follows(r, Step(old(View()), On(id, RevealChoice(player, choice, salt, code)), hash), old(View()), View())
      ensures Valid() && Total(View()) == old(Total(View())) && r != Fail(Aborted)
    {
      hide WorldInv, Total, Validate;
      Promised(View(), On(id, RevealChoice(player, choice, salt, code)), hash);
      if id !in tours { return Fail(AccountMissing); }
      var t := tours[id];
      if player !in t.roster.entries { return Fail(AccountMissing); }
      var entry := t.roster.entries[player];
      if t.phase != Reveal { return Fail(InvalidState); }
      if now > t.revealEnds { return Fail(RevealPeriodEnded); }
      if entry.revealed { return Fail(AlreadyRevealed); }
      var bytecode := entry.bytecode;
      if choice.CustomCode? {
        if code.None? { return Fail(InvalidBytecode); }
        var verdict := ValidateBytecode(code.value);
        if verdict.Rejected? { return Fail(InvalidBytecode); }
        bytecode := code.value;
      }
      if hash(CommitmentBytes(hash, choice, bytecode, salt)) != entry.commitment { return Fail(CommitmentMismatch); }
      entry := entry.(bytecode := bytecode, choice := choice, revealed := true);
      var roster := t.roster.(strategies := t.roster.strategies[entry.index := Index(choice)]);
      roster := roster.(revealsCompleted := roster.revealsCompleted + 1);
      roster := roster.(entries := roster.entries[player := entry]);
      tours := tours[id := t.(roster := roster)];
      return Pass;
    }

    method ForfeitUnrevealed(id: nat, player: Key, byteDrawn: Option<Byte>) returns (r: Check)
      requires Valid()
      modifies this
      ensures Follows(r, Step(old(View()), On(id, Order.ForfeitUnrevealed(player, byteDrawn)), hash),
                      old(View()), View())
      ensures Valid() && Total(View()) == old(Total(View())) && r != Fail(Aborted)
    {
      hide WorldInv, Total, FromIndex;
      Promised(View(), On(id, Order.ForfeitUnrevealed(player, byteDrawn)), hash);
      if id !in tours { return Fail(AccountMissing); }
      var t := tours[id];
      if player !in t.roster.entries { return Fail(AccountMissing); }
      var entry := t.roster.entries[player];
      if t.phase != Reveal { return Fail(InvalidState); }
      if now <= t.revealEnds { return Fail(RevealPeriodNotEnded); }
      if t.operatorCosts + config.operatorTxFee >= U64_SIZE { return Fail(OverflowError); }
      t := t.(operatorCosts := t.operatorCosts + config.operatorTxFee);
      if entry.revealed { return Fail(AlreadyRevealed); }
      if byteDrawn.None? { return Fail(SlotHashUnavailable); }
      var choice := FromIndex(byteDrawn.value % 9);
      if choice.None? { return Fail(InvalidState); }
      entry := entry.(choice := choice.value, revealed := true);
      var roster := t.roster.(strategies := t.roster.strategies[entry.index := Index(choice.value)]);
      roster := roster.(revealsCompleted := roster.revealsCompleted + 1);
      roster := roster.(entries := roster.entries[player := entry]);
      tours := tours[id := t.(roster := roster)];
      return Pass;
    }

    method CloseReveal(id: nat, refund: Option<EntryRef>, slot: Option<Seed>) returns (r: Check)
      requires Valid()
      modifies this
      ensures Follows(r, Step(old(View()), EndReveal(id, refund, slot), hash), old(View()), View())
      ensures Valid() <==> !(r == Pass && Foreign(old(View()), EndReveal(id, refund, slot)))
      ensures Total(View()) == old(Total(View())) && r != Fail(Aborted)
    {
      hide WorldInv, Total, Protocol.CloseReveal, Inv, Erase, EntryAt;
      Promised(View(), EndReveal(id, refund, slot), hash);
      if id !in tours { return Fail(AccountMissing); }
      var supplied: Option<Supplied> := None;
      if refund.Some? {
        var entry := LoadEntry(tours, orphans, refund.value);
        assert entry == EntryAt(View(), refund.value);
        if entry.None? { return Fail(AccountMissing); }
        supplied := Some(Supplied(refund.value.tour == id, refund.value.player, entry.value));
      }
      TournamentInv(View(), id);
      var t, payee, paid, check := CloseField(tours[id], config, now, supplied, slot);
      if check.Fail? { return check; }
      var erasing := tours[id].roster.participantCount % 2 == 1 && refund.Some? && refund.value.tour != id;
      tours := tours[id := t];
      wallets := Adjust(wallets, payee, paid);
      if erasing {
        ghost var w := View();
        tours, orphans := EraseEntry(tours, orphans, refund.value);
        assert View() == Erase(w, refund.value);
      }
      return Pass;
    }

    method RunMatches(id: nat, accounts: set<Key>) returns (r: Check)
      requires Valid()
      modifies this
      ensures Follows(r, Step(old(View()), On(id, RunBatch(accounts)), hash), old(View()), View())
      ensures Valid() && Total(View()) == old(Total(View())) && r != Fail(Aborted)
    {
      hide WorldInv, Total, NoneHidden, PlayBatch, Ready, MatchCount;
      Promised(View(), On(id, RunBatch(accounts)), hash);
      if id !in tours { return Fail(AccountMissing); }
      var t := tours[id];
      if t.phase != Running { return Fail(InvalidState); }
      var count := Min(MATCHES_PER_TX, t.draw.matchesTotal - t.draw.matchesCompleted);
      if count == 0 { return Pass; }
      if t.operatorCosts + config.operatorTxFee >= U64_SIZE { return Fail(OverflowError); }
      t := t.(operatorCosts := t.operatorCosts + config.operatorTxFee);
      var hidden := AnyHidden(t.roster);
      if hidden { return Fail(UnrevealedStrategy); }
      RunReady(View(), id);
      var roster, check :=
        PlayMatches(t.roster, t.draw, t.terms.matchesPerPlayer, accounts, t.draw.matchesCompleted, count);
      if check.Fail? { return check; }
      t := t.(roster := roster, draw := t.draw.(matchesCompleted := t.draw.matchesCompleted + count));
      tours := tours[id := t];
      return Pass;
    }

    method FinalizeTournament(id: nat, nextRent: nat) returns (r: Check)
      requires Valid()
      modifies this
      ensures Follows(r, Step(old(View()), Action.FinalizeTournament(id, nextRent), hash), old(View()), View())
      ensures Valid() && Total(View()) == old(Total(View())) && r != Fail(Aborted)
    {
      hide WorldInv, Total, Finalize, Fresh, Inv;
      Promised(View(), Action.FinalizeTournament(id, nextRent), hash);
      if id !in tours { return Fail(AccountMissing); }
      var operator := config.operator;
      if config.currentId + 1 in tours { return Fail(AccountInUse); }
      if Balance(wallets, operator) < nextRent { return Fail(InsufficientFunds); }
      TournamentInv(View(), id);
      var t, c, reimbursement, check := CloseBooks(tours[id], config, now);
      if check.Fail? { return check; }
      FinalizeConfig(tours[id], config, now);
      c := c.(currentId := c.currentId + 1);
      tours := tours[id := t];
      tours := tours[c.currentId := Fresh(c, now, nextRent)];
      config := c;
      wallets := Adjust(wallets, operator, reimbursement - nextRent);
      return Pass;
    }

    method ClaimPayout(id: nat, player: Key) returns (r: Check)
      requires Valid()
      modifies this
      ensures Follows(r, Step(old(View()), On(id, Claim(player)), hash), old(View()), View())
      ensures Valid() && Total(View()) == old(Total(View())) && r != Fail(Aborted)
    {
      hide WorldInv, Total, Quot;
      Promised(View(), On(id, Claim(player)), hash);
      if id !in tours { return Fail(AccountMissing); }
      var t := tours[id];
      if player !in t.roster.entries { return Fail(AccountMissing); }
      var entry := t.roster.entries[player];
      if t.phase != Payout { return Fail(InvalidState); }
      if entry.paidOut { return Fail(AlreadyPaid); }
      if now >= t.prize.payoutStartedAt + CLAIM_EXPIRY_SECONDS { return Fail(ClaimExpired); }
      if entry.score < t.prize.minWinningScore { return Fail(NotWinner); }
      if t.prize.winnerCount == 0 { return Fail(OverflowError); }
      var payout := Quot(t.prize.winnerPool, t.prize.winnerCount);
      if t.roster.entriesRemaining == 0 { return Fail(OverflowError); }
      t := t.(lamports := t.lamports - payout);
      t := t.(prize := t.prize.(claimsProcessed := t.prize.claimsProcessed + 1));
      t := t.(roster := t.roster.(entriesRemaining := t.roster.entriesRemaining - 1));
      t := t.(roster := t.roster.(entries := t.roster.entries - {player}));
      tours := tours[id := t];
      wallets := Adjust(wallets, player, payout + entry.lamports);
      return Pass;
    }

    method CloseEntry(id: nat, player: Key) returns (r: Check)
      requires Valid()
      modifies this
      ensures Follows(r, Step(old(View()), On(id, CloseOne(player)), hash), old(View()), View())
      ensures Valid() && Total(View()) == old(Total(View())) && r != Fail(Aborted)
    {
      hide WorldInv, Total, Protocol.CloseEntry;
      Promised(View(), On(id, CloseOne(player)), hash);
      if id !in tours { return Fail(AccountMissing); }
      var t, c, paid, check := SettleEntry(tours[id], config, now, player);
      if check.Fail? { return check; }
      tours := tours[id := t];
      config := c;
      wallets := Adjust(wallets, player, paid);
      return Pass;
    }

    method CloseTournament(id: nat) returns (r: Check)
      requires Valid()
      modifies this
      ensures Follows(r, Step(old(View()), CloseAll(id), hash), old(View()), View())
      ensures Valid() && Total(View()) == old(Total(View())) && r != Fail(Aborted)
    {
      hide WorldInv, Total;
      Promised(View(), CloseAll(id), hash);
      if id !in tours { return Fail(AccountMissing); }
      var t := tours[id];
      if t.phase != Payout { return Fail(InvalidState); }
      var timeExpired := now >= t.prize.payoutStartedAt + TOURNAMENT_CLOSURE_SECONDS;
      var allClaimed := t.prize.claimsProcessed >= t.prize.winnerCount;
      if !timeExpired && !allClaimed { return Fail(TournamentNotCloseable); }
      if t.roster.entriesRemaining != 0 { return Fail(EntriesRemaining); }
      if config.accumulatedFees + t.lamports >= U64_SIZE { return Fail(OverflowError); }
      config := config.(lamports := config.lamports + t.lamports);
      config := config.(accumulatedFees := config.accumulatedFees + t.lamports);
      orphans := orphans + AccountsOf(id, t.roster.entries);
      tours := tours - {id};
      return Pass;
    }

    method UpdateConfig(u: ConfigUpdate) returns (r: Check)
      requires Valid()
      modifies this
      ensures Follows(r, Step(old(View()), Action.UpdateConfig(u), hash), old(View()), View())
      ensures Valid() && Total(View()) == old(Total(View())) && r != Fail(Aborted)
    {
      hide WorldInv, Total, UpdatedLimits, UpdatedTiming;
      Promised(View(), Action.UpdateConfig(u), hash);
      var c, check := SetLimits(config, u);
      if check.Fail? { return check; }
      c, check := SetTiming(c, u);
      if check.Fail? { return check; }
      config := c;
      return Pass;
    }

    method WithdrawFees() returns (r: Check)
      requires Valid()
      modifies this
      ensures Follows(r, Step(old(View()), Action.WithdrawFees, hash), old(View()), View())
      ensures Valid() && Total(View()) == old(Total(View())) && r != Fail(Aborted)
    {
      hide WorldInv, Total;
      Promised(View(), Action.WithdrawFees, hash);
      if config.accumulatedFees == 0 { return Fail(NoFeesToWithdraw); }
      var amount := Min(config.accumulatedFees, SaturatingSub(config.lamports, config.rentMinimum));
      config := config.(accumulatedFees := config.accumulatedFees - amount);
      config := config.(lamports := config.lamports - amount);
      wallets := Adjust(wallets, config.admin, amount);
      return Pass;
    }
  }

  /** Opens the program with tournament 0. */
  method InitializeConfig(p: InitParams, admin: Key, wallets: Wallets, now: int, configRent: nat, tournamentRent: nat,
                          hash: Hash)
    returns (arena: Arena?, r: Check)
    ensures match Initialize(p, admin, wallets, now, configRent, tournamentRent)
            case Ok(w) =>
              && r == Pass && arena != null && fresh(arena)
              && arena.View() == w && arena.hash == hash && arena.Valid()
            case Err(e) => r == Fail(e) && arena == null
  {
    if p.minParticipants < 2 || p.minParticipants % 2 != 0 { return null, Fail(InvalidMinParticipants); }
    if p.stake == 0 || p.maxParticipants < p.minParticipants || p.registrationDuration <= 0
       || p.matchesPerPlayer == 0 || p.revealDuration <= 0 { return null, Fail(OverflowError); }
    if Balance(wallets, admin) < configRent + tournamentRent { return null, Fail(InsufficientFunds); }
    var c := Config(p.operator, admin, 0, p.stake, p.minParticipants, p.maxParticipants, p.registrationDuration,
                    p.matchesPerPlayer, 0, 0, p.revealDuration, 0, configRent, configRent);
    var paid := Adjust(wallets, admin, -(configRent + tournamentRent));
    InitializeInv(p, admin, wallets, now, configRent, tournamentRent);
    arena := new Arena(World(c, map[0 := Fresh(c, now, tournamentRent)], map[], paid, now), hash);
    r := Pass;
  }
}
