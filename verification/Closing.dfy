/** Running, finalization and payout: the invariant, the winners, and solvency. */
module Closing {
  import opened Rng
  import opened Arith
  import opened Counting
  import opened Schedule
  import opened Accounts
  import opened Rosters
  import opened Replays
  import opened Batches
  import opened Prizes
  import opened Protocol
  import opened Safety

  // ----- running -----

  /** The safety check over all active strategies can never fail in a reachable running state. */
  lemma NoneHiddenWhileRunning(t: Tournament, now: int)
    requires Inv(t, now) && t.phase == Running
    ensures Shaped(t.roster) && NoneHidden(t.roster)
  {
    hide DrawInv;
    AllRevealed(t.roster);
  }

  /** The tournament after a batch of `count` matches ending in roster r. */
  function Advanced(t: Tournament, costs: nat, r: Roster, count: nat): Tournament {
    t.(operatorCosts := costs, roster := r, draw := t.draw.(matchesCompleted := t.draw.matchesCompleted + count))
  }

  lemma AdvancedLive(t: Tournament, costs: nat, r: Roster, count: nat)
    requires LiveInv(t) && RosterInv(r) && SameEntrants(t.roster, r)
    ensures LiveInv(Advanced(t, costs, r, count))
  {
    hide RosterInv;
  }

  lemma AdvancedDraw(t: Tournament, costs: nat, r: Roster, count: nat)
    requires DrawInv(t) && Filled(r) && SameEntrants(t.roster, r)
    requires FixtureOf(r, t.draw) == FixtureOf(t.roster, t.draw)
    requires Synced(r, t.draw, t.draw.matchesCompleted + count)
    requires t.draw.matchesCompleted + count <= t.draw.matchesTotal
    requires var done := t.draw.matchesCompleted;
             Paired(t.roster.participantCount, t.draw.matchesPerPlayer, t.draw.seed, done, done + count)
    ensures DrawInv(Advanced(t, costs, r, count))
  {
    hide Synced, FixtureOf, MatchCount, EffectiveK, Filled, GetPairing;
    var t' := Advanced(t, costs, r, count);
    SyncedIgnoresProgress(r, t.draw, t'.draw, t'.draw.matchesCompleted);
  }

  /** A batch keeps the invariant; in particular the accounts still hold the fold over the matches completed. */
  lemma RunMatchesKeeps(t: Tournament, c: Config, now: int, accounts: set<Key>)
    requires Inv(t, now) && RunMatches(t, c, accounts).Ok?
    ensures Inv(RunMatches(t, c, accounts).value.t, now)
    ensures RunMatches(t, c, accounts).value.t.draw.matchesCompleted
         == t.draw.matchesCompleted + Min(MATCHES_PER_TX, t.draw.matchesTotal - t.draw.matchesCompleted)
  {
    hide PlayBatch, LiveInv, DrawInv, NoneHidden;
    var done := t.draw.matchesCompleted;
    var count := Min(MATCHES_PER_TX, t.draw.matchesTotal - done);
    if count > 0 {
      var r := PlayBatch(t.roster, t.draw, done, count, accounts).value;
      BatchKeeps(t, t.operatorCosts + c.operatorTxFee, count, accounts);
      SameCounts(t.roster, r);
    }
  }

  lemma SameCounts(r: Roster, r': Roster)
    requires SameEntrants(r, r')
    ensures r'.participantCount == r.participantCount && r'.revealsCompleted == r.revealsCompleted
  {}

  lemma LiveSynced(t: Tournament)
    requires LiveInv(t) && DrawInv(t)
    ensures RosterInv(t.roster) && Filled(t.roster) && FixtureOf(t.roster, t.draw).Valid()
    ensures Servable(t.roster.participantCount, t.draw.matchesPerPlayer)
    ensures Synced(t.roster, t.draw, t.draw.matchesCompleted)
  {
    hide RosterInv, Synced, Filled, MatchCount, EffectiveK, Paired, Occupants;
  }

  lemma BatchKeeps(t: Tournament, costs: nat, count: nat, accounts: set<Key>)
    requires LiveInv(t) && DrawInv(t) && t.draw.matchesCompleted + count <= t.draw.matchesTotal
    requires PlayBatch(t.roster, t.draw, t.draw.matchesCompleted, count, accounts).Ok?
    ensures var r := PlayBatch(t.roster, t.draw, t.draw.matchesCompleted, count, accounts).value;
            && SameEntrants(t.roster, r)
            && LiveInv(Advanced(t, costs, r, count)) && DrawInv(Advanced(t, costs, r, count))
  {
    hide PlayBatch, RosterInv, SameEntrants, FixtureOf, Synced, Filled, LiveInv, DrawInv, Servable, Paired;
    LiveSynced(t);
    PlayBatchPaired(t.roster, t.draw, t.draw.matchesCompleted, count, accounts);
    PlayBatchSynced(t.roster, t.draw, t.draw.matchesCompleted, count, accounts);
    var r := PlayBatch(t.roster, t.draw, t.draw.matchesCompleted, count, accounts).value;
    InvIsFilled(r);
    AdvancedLive(t, costs, r, count);
    AdvancedDraw(t, costs, r, count);
  }

  /** The tally depends on the schedule, not on the progress counter. */
  lemma SyncedIgnoresProgress(r: Roster, d: Draw, d': Draw, m: nat)
    requires Filled(r) && d' == d.(matchesCompleted := d'.matchesCompleted)
    ensures FixtureOf(r, d') == FixtureOf(r, d)
    ensures FixtureOf(r, d).Valid() ==> (Synced(r, d, m) <==> Synced(r, d', m))
  {
    hide Replay, Servable;
  }

  lemma RunningReady(t: Tournament, now: int)
    requires Inv(t, now) && t.phase == Running
    ensures Ready(t.roster, t.draw, t.terms.matchesPerPlayer, t.draw.matchesCompleted)
    ensures t.draw.matchesCompleted <= t.draw.matchesTotal
    ensures t.draw.matchesTotal == MatchCount(t.roster.participantCount, t.draw.matchesPerPlayer)
  {
    hide RosterInv, Synced, FixtureOf, MatchCount, EffectiveK, Filled, Paired;
  }

  /** The matches the next batch will play. */
  function NextBatch(t: Tournament): nat
    requires t.draw.matchesCompleted <= t.draw.matchesTotal
  {
    Min(MATCHES_PER_TX, t.draw.matchesTotal - t.draw.matchesCompleted)
  }

  /**
   A batch fails only if the cost counter overflows, an entry account is not supplied, or one of its
   matches has no pair.
   */
  lemma RunMatchesOutcome(t: Tournament, c: Config, now: int, accounts: set<Key>)
    requires Inv(t, now) && t.phase == Running
    ensures t.draw.matchesCompleted <= t.draw.matchesTotal
    ensures Servable(t.roster.participantCount, t.draw.matchesPerPlayer)
    ensures var result, done := RunMatches(t, c, accounts), t.draw.matchesCompleted;
            var n, k, next := t.roster.participantCount, t.draw.matchesPerPlayer, done + NextBatch(t);
            var paired := Paired(n, k, t.draw.seed, done, next);
            || (result.Ok? && paired)
            || (result == Err(OverflowError) && U64_SIZE <= t.operatorCosts + c.operatorTxFee)
            || (result == Err(InvalidEntryAccount) && !(t.roster.entries.Keys <= accounts))
            || (result == Err(InvalidMatch) && !paired)
  {
    hide PlayBatch, Inv, NoneHidden, Ready, MatchCount, Servable, GetPairing;
    NoneHiddenWhileRunning(t, now);
    RunningReady(t, now);
    var count := Min(MATCHES_PER_TX, t.draw.matchesTotal - t.draw.matchesCompleted);
    PlayBatchOutcome(t.roster, t.draw, t.terms.matchesPerPlayer, t.draw.matchesCompleted, count, accounts);
  }

  lemma DrawInProgress(t: Tournament, now: int)
    requires Inv(t, now) && t.phase == Running
    ensures t.draw.matchesCompleted <= t.draw.matchesTotal
  {
    hide LiveInv, Synced, MatchCount, EffectiveK;
  }

  // ----- finalization -----

  /** Active scores are as many as participants. */
  lemma ActiveScoresLength(r: Roster)
    requires RosterInv(r)
    ensures |ActiveScores(r.players, r.scores)| == r.participantCount
  {
    ActiveCount(r);
    ActiveScoresCount(r.players, r.scores, 0);
    CountAll(ActiveScores(r.players, r.scores), 0);
    assert SlotsReaching(r.players, r.scores, 0) == ActiveSlots(r);
  }

  lemma FinalizeShape(t: Tournament, c: Config, now: int)
    requires Inv(t, now) && Finalize(t, c, now).Ok?
    ensures t.phase == Running && FinalCosts(t, c).Ok?
    ensures FinalizeWinners(t, c, now, FinalCosts(t, c).value) == Finalize(t, c, now)
    ensures LiveInv(t) && EvenField(t.roster.participantCount)
  {
    hide LiveInv, DrawInv, FinalizeWinners, FinalCosts;
  }

  /** The winners: at least the top quarter, everyone tied with its last place, nobody else. */
  lemma FinalizeWinnersSelects(t: Tournament, c: Config, now: int, costs: nat)
    requires LiveInv(t) && 0 < t.roster.participantCount && FinalizeWinners(t, c, now, costs).Ok?
    ensures WinnersInv(FinalizeWinners(t, c, now, costs).value.t)
  {
    hide RosterInv, SortDown, ActiveScores, CountAtLeast, SlotsReaching, Settle, TargetWinners, AddFees;
    var r, n := t.roster, t.roster.participantCount;
    var s := ActiveScores(r.players, r.scores);
    ActiveScoresLength(r);
    ThresholdSelects(s);
    var x := Threshold(SortDown(s), TargetWinners(n));
    SortDownCount(s, x);
    ActiveScoresCount(r.players, r.scores, x);
    ActiveScoresCount(r.players, r.scores, x + 1);
    SettleShares(t.pool, t.terms.houseFeeBps, costs, t.lamports, t.rentMinimum, CountAtLeast(SortDown(s), x));
  }

  lemma SettleShares(pool: nat, bps: nat, costs: nat, lamports: nat, rent: nat, winners: nat)
    requires Settle(pool, bps, costs, lamports, rent, winners).Ok?
    ensures var s := Settle(pool, bps, costs, lamports, rent, winners).value;
            0 < winners && s.winnerPool == Quot(s.winnerPool, winners) * winners
  {
    hide Distributable, HouseFee, Quot, Rem;
    var raw := Distributable(pool, HouseFee(pool, bps), costs, lamports, rent);
    DivModUnique(Quot(raw, winners), 0, winners);
  }

  /** Right after finalization every winner is open and nothing has been claimed. */
  lemma AllWinnersOpen(t: Tournament)
    requires Linked(t.roster) && Filled(t.roster) && WinnersInv(t)
    ensures |OpenWinners(t)| == t.prize.winnerCount
  {
    hide WinnersInv, Range;
    var r, x := t.roster, t.prize.minWinningScore;
    forall p | p in r.entries
      ensures p in OpenWinners(t) <==> r.entries[p].index in SlotsReaching(r.players, r.scores, x)
    {
      assert EntryLinked(r, p);
    }
    SlotsMatchEntries(r, OpenWinners(t), SlotsReaching(r.players, r.scores, x));
    WinnersCount(t);
  }

  lemma WinnersCount(t: Tournament)
    requires WinnersInv(t)
    ensures t.prize.winnerCount == |SlotsReaching(t.roster.players, t.roster.scores, t.prize.minWinningScore)|
  {}

  lemma FinalizeKeeps(t: Tournament, c: Config, now: int)
    requires Inv(t, now) && Finalize(t, c, now).Ok?
    ensures var t' := Finalize(t, c, now).value.t;
            Inv(t', now) && t'.phase == Payout && |OpenWinners(t')| == t'.prize.winnerCount
  {
    FinalizeShape(t, c, now);
    hide Finalize, FinalCosts, WinnersInv, OpenWinners, DrawInv, LiveInv, Inv;
    var costs := FinalCosts(t, c).value;
    var t' := Finalize(t, c, now).value.t;
    FinalizeWinnersSelects(t, c, now, costs);
    FinalizeRoster(t, c, now, costs);
    AllWinnersOpen(t');
    FinalizeCovered(t, c, now, costs);
    FinalizedInv(t', now);
  }

  lemma FinalizeRoster(t: Tournament, c: Config, now: int, costs: nat)
    requires LiveInv(t) && FinalizeWinners(t, c, now, costs).Ok?
    ensures var t' := FinalizeWinners(t, c, now, costs).value.t;
            && t'.phase == Payout && t'.roster == t.roster && t'.prize.claimsProcessed == 0
            && Linked(t'.roster) && Filled(t'.roster) && t'.roster.entriesRemaining == |t'.roster.entries|
  {
    hide Linked, Filled, SortDown, ActiveScores, CountAtLeast, Settle;
  }

  lemma FinalizeCovered(t: Tournament, c: Config, now: int, costs: nat)
    requires LiveInv(t) && FinalizeWinners(t, c, now, costs).Ok?
    ensures var t' := FinalizeWinners(t, c, now, costs).value.t; t'.prize.winnerPool <= t'.lamports
  {
    hide RosterInv, Settle, Winners;
    InvIsShaped(t.roster);
    SettleCovers(t.pool, t.terms.houseFeeBps, costs, t.lamports, t.rentMinimum, Winners(t.roster).1);
  }

  lemma FinalizedInv(t: Tournament, now: int)
    requires t.phase == Payout && Linked(t.roster) && t.roster.entriesRemaining == |t.roster.entries|
    requires EvenField(t.roster.participantCount) && WinnersInv(t)
    requires t.prize.claimsProcessed == 0 && |OpenWinners(t)| == t.prize.winnerCount
    requires t.prize.winnerPool <= t.lamports
    ensures Inv(t, now)
  {
    hide Linked, WinnersInv, OpenWinners, Share;
    SharesAddUp(t);
  }

  /** The account covers rent and one share for every open winner. */
  ghost predicate Solvent(t: Tournament) {
    t.rentMinimum + Share(t) * |OpenWinners(t)| <= t.lamports
  }

  /** Balance at least rent plus pool when finalization starts. */
  predicate Funded(t: Tournament) { t.rentMinimum + t.pool <= t.lamports }

  /** A funded tournament is solvent after finalization. */
  lemma FinalizeSolvent(t: Tournament, c: Config, now: int)
    requires Inv(t, now) && Funded(t) && Finalize(t, c, now).Ok? && t.lamports < U64_SIZE
    ensures Solvent(Finalize(t, c, now).value.t)
  {
    hide Finalize, FinalizeWinners, FinalCosts, OpenWinners, Settle, Share, LiveInv, Inv, Winners, WinnersInv;
    FinalizeShape(t, c, now);
    LiveFacts(t);
    FinalizeKeeps(t, c, now);
    var costs := FinalCosts(t, c).value;
    var t' := Finalize(t, c, now).value.t;
    WinnersEffect(t, c, now, costs);
    SettleShares(t.pool, t.terms.houseFeeBps, costs, t.lamports, t.rentMinimum, Winners(t.roster).1);
    SettleLimits(t.pool, t.terms.houseFeeBps, costs, t.lamports, t.rentMinimum, Winners(t.roster).1);
    SettleSolvent(t.pool, t.terms.houseFeeBps, costs, t.lamports, t.rentMinimum, Winners(t.roster).1);
    PayoutShares(t', now);
  }

  lemma SettleLimits(pool: nat, bps: nat, costs: nat, lamports: nat, rent: nat, winners: nat)
    requires Settle(pool, bps, costs, lamports, rent, winners).Ok?
    ensures pool * bps < U64_SIZE
  {
    hide Distributable, HouseFee, Quot, Rem;
  }

  lemma PayoutShares(t: Tournament, now: int)
    requires Inv(t, now) && t.phase == Payout
    ensures Share(t) * t.prize.winnerCount == t.prize.winnerPool
  {
    hide Linked, ClaimsInv, Covered, Share, SlotsReaching;
  }

  lemma SharesAddUp(t: Tournament)
    requires WinnersInv(t)
    ensures Share(t) * t.prize.winnerCount == t.prize.winnerPool
  {}

  /** Exactly when finalization leaves the winner pool covered, for any balance above rent. */
  lemma FinalizeSolventIff(t: Tournament, c: Config, now: int)
    requires Inv(t, now) && t.rentMinimum <= t.lamports && Finalize(t, c, now).Ok?
    ensures Shaped(t.roster)
    ensures var costs := FinalCosts(t, c).value;
            var fee := HouseFee(t.pool, t.terms.houseFeeBps);
            var raw := Distributable(t.pool, fee, costs, t.lamports, t.rentMinimum);
            Solvent(Finalize(t, c, now).value.t) <==>
              || Funded(t)
              || (fee == 0 && costs == 0)
              || (raw < Winners(t.roster).1 && t.rentMinimum + fee + raw <= t.lamports)
  {
    hide Finalize, FinalizeWinners, FinalCosts, OpenWinners, Settle, Share, LiveInv, Inv, Winners, WinnersInv;
    hide HouseFee, Distributable;
    FinalizeShape(t, c, now);
    LiveFacts(t);
    FinalizeKeeps(t, c, now);
    var costs := FinalCosts(t, c).value;
    var t' := Finalize(t, c, now).value.t;
    WinnersEffect(t, c, now, costs);
    SettleSolventIff(t.pool, t.terms.houseFeeBps, costs, t.lamports, t.rentMinimum, Winners(t.roster).1);
    PayoutShares(t', now);
  }

  /**
   What finalization does to the accounts, in plain arithmetic: the costs grow by one fee for itself, one for
   each open entry and one for the account; house fee and dust go to the fee counter, the reimbursement to
   the operator, and the winner pool stays.
   */
  lemma FinalizeExact(t: Tournament, c: Config, now: int)
    requires Inv(t, now) && Finalize(t, c, now).Ok?
    ensures var e := Finalize(t, c, now).value;
            var costs := t.operatorCosts + (t.roster.participantCount + 2) * c.operatorTxFee;
            var fee := t.pool * t.terms.houseFeeBps / 10000;
            var dust := e.config.accumulatedFees - c.accumulatedFees - fee;
            && e.t.operatorCosts == costs && e.wallet == c.operator
            && 0 <= dust < e.t.prize.winnerCount
            && e.config.lamports == c.lamports + fee + dust
            && e.config == c.(accumulatedFees := e.config.accumulatedFees, lamports := e.config.lamports)
            && e.t.prize.winnerPool + dust == Capped(t.pool - fee - costs, t.lamports - t.rentMinimum)
            && e.delta == Capped(costs, t.lamports - fee - dust - t.rentMinimum)
            && e.t.lamports == t.lamports - fee - dust - e.delta
            && e.t.prize.payoutStartedAt == now
  {
    hide Inv, Finalize, FinalizeWinners, Settle, Winners, LiveInv, FinalCosts, Capped;
    FinalizeShape(t, c, now);
    LiveFacts(t);
    FinalCostsExact(t, c);
    var costs := FinalCosts(t, c).value;
    WinnersEffect(t, c, now, costs);
    SettleExact(t.pool, t.terms.houseFeeBps, costs, t.lamports, t.rentMinimum, Winners(t.roster).1);
    FeeIsQuotient(t.pool * t.terms.houseFeeBps, Settled(t, costs).houseFee);
  }

  lemma FinalCostsExact(t: Tournament, c: Config)
    requires FinalCosts(t, c).Ok?
    ensures FinalCosts(t, c).value == t.operatorCosts + (t.roster.entriesRemaining + 2) * c.operatorTxFee
  {
    FinalFees(t.operatorCosts, t.roster.entriesRemaining, c.operatorTxFee);
  }

  /** Finalization with winners, amount by amount of its settlement. */
  lemma WinnersEffect(t: Tournament, c: Config, now: int, costs: nat)
    requires Shaped(t.roster) && FinalizeWinners(t, c, now, costs).Ok?
    ensures Settle(t.pool, t.terms.houseFeeBps, costs, t.lamports, t.rentMinimum, Winners(t.roster).1).Ok?
    ensures var e, s := FinalizeWinners(t, c, now, costs).value, Settled(t, costs);
            && e.t.operatorCosts == costs && e.wallet == c.operator && e.delta == s.reimbursement
            && e.config == c.(accumulatedFees := c.accumulatedFees + s.houseFee + s.dust,
                              lamports := c.lamports + s.houseFee + s.dust)
            && e.t.prize.winnerCount == Winners(t.roster).1 && e.t.prize.winnerPool == s.winnerPool
            && e.t.lamports == s.left && e.t.rentMinimum == t.rentMinimum && e.t.prize.payoutStartedAt == now
  {
    hide Settle, Winners;
  }

  /** The division a successful finalization makes. */
  function Settled(t: Tournament, costs: nat): Split
    requires Shaped(t.roster)
    requires Settle(t.pool, t.terms.houseFeeBps, costs, t.lamports, t.rentMinimum, Winners(t.roster).1).Ok?
  {
    Settle(t.pool, t.terms.houseFeeBps, costs, t.lamports, t.rentMinimum, Winners(t.roster).1).value
  }

  lemma FeeIsQuotient(product: nat, fee: nat)
    requires 10000 * fee <= product < 10000 * (fee + 1)
    ensures product / 10000 == fee
  {}

  lemma LiveFacts(t: Tournament)
    requires LiveInv(t)
    ensures Shaped(t.roster) && t.roster.entriesRemaining == t.roster.participantCount && t.terms.houseFeeBps <= 10000
  {
    hide Filled, Revealed, EntryLinked;
  }

  lemma FinalFees(costs: nat, n: nat, fee: nat)
    ensures costs + fee + (n + 1) * fee == costs + (n + 2) * fee
  {
    assert (n + 2) * fee == (n + 1) * fee + fee;
  }

  /** Finalizing a reachable tournament never divides by zero or takes an account below zero. */
  lemma FinalizeNeverAborts(t: Tournament, c: Config, now: int)
    requires Inv(t, now)
    ensures Finalize(t, c, now) != Err(Aborted)
  {
    hide DrawInv, LiveInv, FinalizeWinners;
    if t.phase == Running && FinalCosts(t, c).Ok? {
      WinnersNeverAbort(t, c, now, FinalCosts(t, c).value);
    }
  }

  lemma WinnersNeverAbort(t: Tournament, c: Config, now: int, costs: nat)
    requires LiveInv(t) && 0 < t.roster.participantCount
    ensures FinalizeWinners(t, c, now, costs) != Err(Aborted)
  {
    InvIsShaped(t.roster);
    hide RosterInv, Winners, Settle;
    WinnersPositive(t.roster);
    SettleNeverAborts(t.pool, t.terms.houseFeeBps, costs, t.lamports, t.rentMinimum, Winners(t.roster).1);
  }

  lemma InvIsShaped(r: Roster)
    requires RosterInv(r)
    ensures Shaped(r)
  {}

  lemma WinnersPositive(r: Roster)
    requires RosterInv(r) && Shaped(r) && 0 < r.participantCount
    ensures 0 < Winners(r).1
  {
    hide RosterInv, SortDown, ActiveScores, CountAtLeast;
    var s := ActiveScores(r.players, r.scores);
    ActiveScoresLength(r);
    ThresholdSelects(s);
    SortDownCount(s, Winners(r).0);
  }

  lemma SettleNeverAborts(pool: nat, bps: nat, costs: nat, lamports: nat, rent: nat, winners: nat)
    requires bps <= 10000 && 0 < winners && pool <= lamports
    ensures Settle(pool, bps, costs, lamports, rent, winners) != Err(Aborted)
  {
    hide HouseFee, Quot, Rem;
    HouseFeeBound(pool, bps);
    var raw := Distributable(pool, HouseFee(pool, bps), costs, lamports, rent);
    DivModIdentity(raw, winners);
    assert Rem(raw, winners) <= raw;
  }

  // ----- payout -----

  lemma CloseOutWinners(t: Tournament, p: Key, amount: nat, claim: bool)
    requires p in t.roster.entries && 0 < t.roster.entriesRemaining && amount <= t.lamports
    ensures OpenWinners(CloseOut(t, p, amount, claim)) == OpenWinners(t) - {p}
    ensures |OpenWinners(t)| == |OpenWinners(t) - {p}| + (if p in OpenWinners(t) then 1 else 0)
    ensures Share(CloseOut(t, p, amount, claim)) == Share(t)
  {
    hide Quot;
    assert p !in OpenWinners(t) ==> OpenWinners(t) - {p} == OpenWinners(t);
  }

  lemma CloseOutWinnersInv(t: Tournament, p: Key, amount: nat, claim: bool)
    requires p in t.roster.entries && 0 < t.roster.entriesRemaining && amount <= t.lamports && WinnersInv(t)
    ensures WinnersInv(CloseOut(t, p, amount, claim))
  {
    hide Share, SlotsReaching, TargetWinners, OpenWinners;
    CloseOutWinners(t, p, amount, claim);
  }

  lemma CloseOutClaims(t: Tournament, now: int, p: Key, amount: nat, claim: bool)
    requires p in t.roster.entries && 0 < t.roster.entriesRemaining && amount <= t.lamports && ClaimsInv(t, now)
    requires claim ==> p in OpenWinners(t)
    requires p in OpenWinners(t) && !claim ==> now >= Expiry(t)
    ensures ClaimsInv(CloseOut(t, p, amount, claim), now)
  {
    CloseOutWinners(t, p, amount, claim);
    hide OpenWinners, Share;
  }

  /** Closing an entry keeps the payout invariant if winners are counted, or closed after expiry. */
  lemma CloseOutKeeps(t: Tournament, now: int, p: Key, amount: nat, claim: bool)
    requires PayoutInv(t, now) && t.phase == Payout && p in t.roster.entries && amount <= t.lamports
    requires claim ==> p in OpenWinners(t)
    requires p in OpenWinners(t) && !claim ==> now >= Expiry(t)
    requires if p in OpenWinners(t) then amount <= Share(t) else amount == 0
    ensures 0 < t.roster.entriesRemaining && Inv(CloseOut(t, p, amount, claim), now)
  {
    hide Linked, OpenWinners, WinnersInv, ClaimsInv, Covered, Share;
    CloseSlotLinked(t.roster, p);
    CloseOutWinnersInv(t, p, amount, claim);
    CloseOutClaims(t, now, p, amount, claim);
    CloseOutCovered(t, p, amount, claim);
  }

  lemma CloseOutCovered(t: Tournament, p: Key, amount: nat, claim: bool)
    requires p in t.roster.entries && 0 < t.roster.entriesRemaining && amount <= t.lamports
    requires Covered(t) && (if p in OpenWinners(t) then amount <= Share(t) else amount == 0)
    ensures Covered(CloseOut(t, p, amount, claim))
  {
    CloseOutWinners(t, p, amount, claim);
    hide OpenWinners, Share;
    if p in OpenWinners(t) { StakeOut(Share(t), |OpenWinners(t)|); }
  }

  lemma CloseOutSolvent(t: Tournament, p: Key, amount: nat, claim: bool)
    requires p in t.roster.entries && 0 < t.roster.entriesRemaining && amount <= t.lamports
    requires Solvent(t) && (if p in OpenWinners(t) then amount <= Share(t) else amount == 0)
    ensures Solvent(CloseOut(t, p, amount, claim))
  {
    CloseOutWinners(t, p, amount, claim);
    hide OpenWinners, Share;
    var k := |OpenWinners(t)|;
    if p in OpenWinners(t) { StakeOut(Share(t), k); }
  }

  /** An open winner's share is in the account; a solvent account has it above rent. */
  lemma ShareCovered(t: Tournament, p: Key)
    requires p in OpenWinners(t)
    ensures Covered(t) ==> Share(t) <= t.lamports
    ensures Solvent(t) ==> t.rentMinimum + Share(t) <= t.lamports
  {
    hide Share;
    assert OpenWinners(t) != {};
    MulMonotone(1, |OpenWinners(t)|, Share(t));
    MulCommutes(|OpenWinners(t)|, Share(t));
  }

  lemma WinnerIsOpen(t: Tournament, p: Key)
    requires p in t.roster.entries
    ensures p in OpenWinners(t) <==> IsWinner(t, t.roster.entries[p])
  {}

  lemma ClaimPayoutKeeps(t: Tournament, c: Config, now: int, p: Key)
    requires Inv(t, now) && ClaimPayout(t, c, now, p).Ok?
    ensures Inv(ClaimPayout(t, c, now, p).value.t, now)
    ensures Solvent(t) ==> Solvent(ClaimPayout(t, c, now, p).value.t)
  {
    hide OpenWinners, Share, Solvent, PayoutInv, CloseOut;
    WinnerIsOpen(t, p);
    CloseOutKeeps(t, now, p, Share(t), true);
    if Solvent(t) { CloseOutSolvent(t, p, Share(t), true); }
  }

  /** In a reachable payout state an open entry has not been paid. */
  lemma OpenEntryUnpaid(t: Tournament, now: int, p: Key)
    requires PayoutInv(t, now) && p in t.roster.entries
    ensures !t.roster.entries[p].paidOut && 0 < t.roster.entriesRemaining && 0 < t.prize.winnerCount
  {
    assert EntryLinked(t.roster, p);
    assert |t.roster.entries.Keys| > 0;
  }

  lemma CloseEntryKeeps(t: Tournament, c: Config, now: int, p: Key)
    requires Inv(t, now) && CloseEntry(t, c, now, p).Ok?
    ensures Inv(CloseEntry(t, c, now, p).value.t, now)
    ensures Solvent(t) ==> Solvent(CloseEntry(t, c, now, p).value.t)
  {
    WinnerIsOpen(t, p);
    OpenEntryUnpaid(t, now, p);
    hide OpenWinners, Share, Solvent, PayoutInv, CloseOut;
    var winner := p in OpenWinners(t);
    var amount := if winner then Min(Share(t), SaturatingSub(t.lamports, t.rentMinimum)) else 0;
    var claim := winner && now < Expiry(t);
    CloseOutKeeps(t, now, p, amount, claim);
    if Solvent(t) { CloseOutSolvent(t, p, amount, claim); }
  }

  /**
   An open winner who claims in time always receives exactly one share and the entry's rent. Being closed
   by the operator pays the same exactly when a share can be spared above rent.
   */
  lemma InTimeWinnerPaid(t: Tournament, c: Config, now: int, p: Key)
    requires Inv(t, now) && t.phase == Payout && p in OpenWinners(t) && now < Expiry(t)
    ensures ClaimPayout(t, c, now, p).Ok? && CloseEntry(t, c, now, p).Ok?
    ensures ClaimPayout(t, c, now, p).value.wallet == p
    ensures ClaimPayout(t, c, now, p).value.delta == Share(t) + t.roster.entries[p].lamports
    ensures CloseEntry(t, c, now, p) == ClaimPayout(t, c, now, p)
       <==> Share(t) == 0 || t.rentMinimum + Share(t) <= t.lamports
    ensures Solvent(t) ==> CloseEntry(t, c, now, p) == ClaimPayout(t, c, now, p)
  {
    ShareCovered(t, p);
    OpenEntryUnpaid(t, now, p);
    WinnerIsOpen(t, p);
    hide OpenWinners, Share, Solvent, WinnersInv, ClaimsInv, Linked;
  }

  /** Once all entries are closed, the time-or-claims condition of closing the tournament holds by itself. */
  lemma CloseTournamentReady(t: Tournament, c: Config, now: int)
    requires Inv(t, now) && t.phase == Payout && t.roster.entriesRemaining == 0
    requires c.accumulatedFees + t.lamports < U64_SIZE
    ensures CloseTournament(t, c, now).Ok?
  {
    assert t.roster.entries.Keys == {};
    assert OpenWinners(t) == {};
  }
}
