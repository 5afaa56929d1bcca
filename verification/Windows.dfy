/** When each instruction is open, in seconds from the events that start the clocks, and what expires. */
module Windows {
  import opened Options
  import opened Rng
  import opened Schedule
  import opened Codec
  import opened Accounts
  import opened Ledger
  import opened Rosters
  import opened Batches
  import opened Prizes
  import opened Protocol
  import opened Safety
  import opened Closing
  import opened Worlds
  import opened Runs

  /** 30 days. */
  const THIRTY_DAYS: int := 30 * 24 * 60 * 60

  /** Initialization is accepted exactly for parameters in range and an admin who can pay both rents. */
  lemma InitializeAccepts(p: InitParams, admin: Key, wallets: Wallets, now: int, configRent: nat, tournamentRent: nat)
    ensures Initialize(p, admin, wallets, now, configRent, tournamentRent).Ok? <==>
            && 2 <= p.minParticipants <= p.maxParticipants && p.minParticipants % 2 == 0 && 0 < p.stake
            && 0 < p.registrationDuration && 0 < p.matchesPerPlayer && 0 < p.revealDuration
            && configRent + tournamentRent <= Balance(wallets, admin)
  {}

  /** The first tournament runs on the parameters of the initialization. */
  lemma FirstTerms(p: InitParams, admin: Key, wallets: Wallets, now: int, configRent: nat, tournamentRent: nat)
    requires Initialize(p, admin, wallets, now, configRent, tournamentRent).Ok?
    ensures var w := Initialize(p, admin, wallets, now, configRent, tournamentRent).value;
            var c, t := w.config, w.tours[0];
            && w.tours.Keys == {0} && t.phase == Registration && t.roster == EMPTY_ROSTER && t.pool == 0
            && t.registrationEnds == now + p.registrationDuration && t.terms.revealDuration == p.revealDuration
            && t.terms.stake == p.stake && t.terms.matchesPerPlayer == p.matchesPerPlayer && t.terms.houseFeeBps == 0
            && c.operator == p.operator && c.admin == admin && c.minParticipants == p.minParticipants
            && c.maxParticipants == p.maxParticipants && c.accumulatedFees == 0 && c.operatorTxFee == 0
            && c.stake == p.stake && c.registrationDuration == p.registrationDuration
            && c.revealDuration == p.revealDuration && c.matchesPerPlayer == p.matchesPerPlayer
            && Balance(w.wallets, admin) == Balance(wallets, admin) - configRent - tournamentRent
            && c.lamports == configRent && t.lamports == tournamentRent
  {}

  /** Every later one runs on the config values of the moment its predecessor was finalized. */
  lemma NextTerms(w: World, id: nat, nextRent: nat)
    requires id in w.tours && CommitFinal(w, id, nextRent).Ok?
    ensures var w', c := CommitFinal(w, id, nextRent).value, w.config;
            && w'.config.currentId == c.currentId + 1 && w'.config.currentId in w'.tours
            && var t := w'.tours[w'.config.currentId];
               && t.phase == Registration && t.registrationEnds == w.now + c.registrationDuration
               && t.terms.stake == c.stake && t.terms.houseFeeBps == c.houseFeeBps
               && t.terms.matchesPerPlayer == c.matchesPerPlayer && t.terms.revealDuration == c.revealDuration
  {
    hide Finalize;
    FinalKeepsParameters(w.tours[id], w.config, w.now);
  }

  lemma FinalKeepsParameters(t: Tournament, c: Config, now: int)
    requires Finalize(t, c, now).Ok?
    ensures var c' := Finalize(t, c, now).value.config;
            c' == c.(accumulatedFees := c'.accumulatedFees, lamports := c'.lamports)
  {
    hide Winners, Settle, FinalCosts;
  }

  /** Registration closes from its end on, with enough participants, and starts a reveal window of the agreed length. */
  lemma RegistrationWindow(t: Tournament, c: Config, now: int)
    requires t.phase == Registration && t.operatorCosts + c.operatorTxFee < U64_SIZE
    ensures CloseRegistration(t, c, now).Ok?
       <==> t.registrationEnds <= now && c.minParticipants <= t.roster.participantCount
    ensures CloseRegistration(t, c, now).Ok? ==>
              CloseRegistration(t, c, now).value.t.revealEnds == now + t.terms.revealDuration
  {}

  /** A player may join exactly until the vector is full, whatever was refunded before; the stake is the price. */
  lemma JoiningWindow(t: Tournament, c: Config, p: Key, commitment: seq<Byte>, topUp: nat, newRent: nat, entryRent: nat)
    requires t.phase == Registration && p != DEFAULT && p !in t.roster.entries
    ensures Enter(t, c, p, commitment, topUp, newRent, entryRent).Ok? <==> |t.roster.players| < c.maxParticipants
    ensures Enter(t, c, p, commitment, topUp, newRent, entryRent).Ok? ==>
              var e := Enter(t, c, p, commitment, topUp, newRent, entryRent).value;
              && e.wallet == p && e.delta == -(t.terms.stake + topUp + entryRent)
              && p in e.t.roster.entries && e.t.roster.entries[p].commitment == commitment
              && !e.t.roster.entries[p].revealed && e.t.roster.entries[p].index == |t.roster.players|
              && e.t.lamports == t.lamports + t.terms.stake + topUp && e.t.pool == t.pool + t.terms.stake
  {}

  /**
   A commitment made with a strategy and a salt can be revealed with them at any time up to the deadline, and
   what is then stored, in the entry and as a byte in the vector, is what was committed to.
   */
  lemma CommittedReveals(t: Tournament, c: Config, now: int, p: Key, choice: Choice, salt: seq<Byte>,
                         code: seq<Byte>, hash: Hash)
    requires Inv(t, now) && t.phase == Reveal && now <= t.revealEnds && p in t.roster.entries
    requires !t.roster.entries[p].revealed && (choice.CustomCode? ==> Validate(code).Accepted?)
    requires t.roster.entries[p].commitment
          == hash(if choice.CustomCode? then [9] + hash(code) + salt else [Index(choice)] + salt)
    ensures RevealStrategy(t, c, now, p, choice, salt, Some(code), hash).Ok?
    ensures var r := RevealStrategy(t, c, now, p, choice, salt, Some(code), hash).value.t.roster;
            && p in r.entries && r.entries[p].revealed && r.entries[p].choice == choice
            && (choice.CustomCode? ==> r.entries[p].bytecode == code)
            && r.strategies == t.roster.strategies[t.roster.entries[p].index := Index(choice)]
            && r.revealsCompleted == t.roster.revealsCompleted + 1
  {
    hide Validate, RosterInv, Untouched, Index;
    CustomByte();
    LiveInvOfPhase(t, now);
    IndexInRange(t, p);
  }

  lemma CustomByte()
    ensures Index(CustomCode) == 9
  {}

  lemma IndexInRange(t: Tournament, p: Key)
    requires LiveInv(t) && p in t.roster.entries
    ensures t.roster.entries[p].index < |t.roster.strategies|
  {
    assert EntryLinked(t.roster, p);
  }

  /** After the deadline nothing can be revealed; only then can the rest be forfeited and the phase closed. */
  lemma RevealDeadline(t: Tournament, c: Config, now: int, p: Key, choice: Choice, salt: seq<Byte>,
                       code: Option<seq<Byte>>, drawn: Option<Byte>, refund: Option<Supplied>, slot: Option<Seed>,
                       hash: Hash)
    requires t.phase == Reveal && p in t.roster.entries
    ensures t.revealEnds < now ==> RevealStrategy(t, c, now, p, choice, salt, code, hash) == Err(RevealPeriodEnded)
    ensures now <= t.revealEnds ==>
              && Forfeit(t, c, now, p, drawn) == Err(RevealPeriodNotEnded)
              && CloseReveal(t, c, now, refund, slot) == Err(RevealPeriodNotEnded)
  {
    hide Validate, CommitmentBytes, EvenOut;
  }

  /** After the deadline every unrevealed entry can be given the builtin its byte of the slot hash stands for. */
  lemma ForfeitAssigns(t: Tournament, c: Config, now: int, p: Key, drawn: Byte)
    requires Inv(t, now) && t.phase == Reveal && t.revealEnds < now && p in t.roster.entries
    requires !t.roster.entries[p].revealed && t.operatorCosts + c.operatorTxFee < U64_SIZE
    ensures Forfeit(t, c, now, p, Some(drawn)).Ok?
    ensures var e := Forfeit(t, c, now, p, Some(drawn)).value;
            var r := e.t.roster;
            && p in r.entries && r.entries[p].revealed && r.entries[p].choice.Standard?
            && r.strategies == t.roster.strategies[t.roster.entries[p].index := drawn % 9]
            && Index(r.entries[p].choice) == drawn % 9 && e.t.pool == t.pool && e.t.lamports == t.lamports
            && e.t.operatorCosts == t.operatorCosts + c.operatorTxFee
  {
    hide RosterInv, Untouched, FromIndex;
    LiveInvOfPhase(t, now);
    IndexInRange(t, p);
  }

  /** What the end of the reveal phase fixes: the seed drawn, the schedule of the field, and the round tier. */
  lemma DrawFixed(t: Tournament, seed: Seed)
    ensures var t', n := StartRunning(t, seed), t.roster.participantCount;
            && t'.phase == Running && t'.draw.seed == seed && t'.roster == t.roster
            && t'.draw.matchesPerPlayer == EffectiveK(n, t.terms.matchesPerPlayer)
            && t'.draw.matchesTotal == MatchCount(n, t'.draw.matchesPerPlayer)
            && t'.draw.matchesCompleted == t.draw.matchesCompleted
            && (t'.draw.roundTier == 0 <==> n <= 1000) && (t'.draw.roundTier == 1 <==> 1000 < n)
  {
    hide MatchCount, EffectiveK;
  }

  /** A batch plays five matches, or what is left. */
  lemma BatchSize(t: Tournament, c: Config, now: int, accounts: set<Key>)
    requires Inv(t, now) && RunMatches(t, c, accounts).Ok?
    ensures var done, total := t.draw.matchesCompleted, t.draw.matchesTotal;
            RunMatches(t, c, accounts).value.t.draw.matchesCompleted == if done + 5 <= total then done + 5 else total
  {
    hide Inv, RunMatches;
    RunningOnlyIn(t, c, accounts);
    DrawInProgress(t, now);
    RunMatchesKeeps(t, c, now, accounts);
  }

  lemma RunningOnlyIn(t: Tournament, c: Config, accounts: set<Key>)
    requires RunMatches(t, c, accounts).Ok?
    ensures t.phase == Running
  {
    hide PlayBatch, NoneHidden;
  }

  /** A field that is empty when the reveal phase closes runs with no matches at all. */
  lemma EmptyFieldStarts(t: Tournament, c: Config, now: int, refund: Option<Supplied>, slot: Option<Seed>)
    requires t.phase == Reveal && t.revealEnds < now && t.operatorCosts + c.operatorTxFee < U64_SIZE
    requires t.roster.participantCount == t.roster.revealsCompleted == 0
    ensures CloseReveal(t, c, now, refund, slot).Ok?
    ensures var e := CloseReveal(t, c, now, refund, slot).value;
            && e.delta == 0 && e.t.phase == Running && e.t.draw.matchesTotal == e.t.draw.matchesCompleted == 0
            && e.t.roster == t.roster && e.t.pool == t.pool && e.t.lamports == t.lamports
  {}

  /** Finalizing it reimburses the operator and leaves the account its rent, the rest going to the fees. */
  lemma EmptyFieldSwept(t: Tournament, c: Config, now: int, costs: nat)
    requires FinalizeEmpty(t, c, now, costs).Ok?
    ensures var e := FinalizeEmpty(t, c, now, costs).value;
            var spare := Capped(t.lamports, t.lamports - t.rentMinimum);
            && e.wallet == c.operator && e.delta == Capped(costs, spare)
            && e.config.accumulatedFees == c.accumulatedFees + spare - e.delta
            && e.config.lamports == c.lamports + spare - e.delta && e.t.lamports == t.lamports - spare
            && e.t.phase == Payout && e.t.prize.winnerCount == e.t.prize.winnerPool == 0
            && e.t.prize.payoutStartedAt == now && e.t.operatorCosts == costs
  {}

  /** Claims are open for exactly thirty days after finalization. */
  lemma ClaimWindow(t: Tournament, c: Config, now: int, p: Key)
    requires Inv(t, now) && t.phase == Payout && p in OpenWinners(t)
    ensures ClaimPayout(t, c, now, p).Ok? <==> now < t.prize.payoutStartedAt + THIRTY_DAYS
    ensures ClaimPayout(t, c, now, p).Err? ==> ClaimPayout(t, c, now, p) == Err(ClaimExpired)
  {
    if now < t.prize.payoutStartedAt + THIRTY_DAYS {
      InTimeWinnerPaid(t, c, now, p);
    } else {
      OpenEntryUnpaid(t, now, p);
    }
    hide OpenWinners, Share, PayoutInv;
  }

  /** From then on a winner's share, as far as it can be spared above rent, goes to the fees and not to the player. */
  lemma ExpiredShare(t: Tournament, c: Config, now: int, p: Key)
    requires Inv(t, now) && t.phase == Payout && p in OpenWinners(t) && t.prize.payoutStartedAt + THIRTY_DAYS <= now
    requires c.accumulatedFees + t.lamports < U64_SIZE
    ensures CloseEntry(t, c, now, p).Ok?
    ensures var e := CloseEntry(t, c, now, p).value;
            var share := Capped(Share(t), t.lamports - t.rentMinimum);
            && e.wallet == p && e.delta == t.roster.entries[p].lamports
            && e.config == c.(accumulatedFees := c.accumulatedFees + share, lamports := c.lamports + share)
            && e.t.lamports == t.lamports - share && e.t.prize == t.prize
  {
    OpenEntryUnpaid(t, now, p);
    WinnerIsOpen(t, p);
    hide OpenWinners, Share, PayoutInv;
  }

  /** Whoever did not win gets the entry's rent back and nothing else, at any time. */
  lemma LoserClosed(t: Tournament, c: Config, now: int, p: Key)
    requires Inv(t, now) && t.phase == Payout && p in t.roster.entries && p !in OpenWinners(t)
    ensures CloseEntry(t, c, now, p).Ok? && ClaimPayout(t, c, now, p).Err?
    ensures var e := CloseEntry(t, c, now, p).value;
            && e.wallet == p && e.delta == t.roster.entries[p].lamports && e.config == c
            && e.t.lamports == t.lamports && e.t.prize == t.prize
  {
    OpenEntryUnpaid(t, now, p);
    WinnerIsOpen(t, p);
    hide OpenWinners, Share, PayoutInv;
  }

  /** A tournament in payout can be closed exactly when no entry is left, and leaves all it holds to the fees. */
  lemma ClosingExact(t: Tournament, c: Config, now: int)
    requires Inv(t, now) && t.phase == Payout && c.accumulatedFees + t.lamports < U64_SIZE
    ensures CloseTournament(t, c, now).Ok? <==> t.roster.entriesRemaining == 0
    ensures CloseTournament(t, c, now).Ok? ==>
              CloseTournament(t, c, now).value ==
                c.(accumulatedFees := c.accumulatedFees + t.lamports, lamports := c.lamports + t.lamports)
  {
    hide Inv;
    if t.roster.entriesRemaining == 0 { CloseTournamentReady(t, c, now); }
  }

  // ----- config updates -----

  /** Every supplied value is in range. */
  predicate Acceptable(c: Config, u: ConfigUpdate) {
    && (u.houseFeeBps.Some? ==> u.houseFeeBps.value <= 10000) && (u.stake.Some? ==> 0 < u.stake.value)
    && (u.minParticipants.Some? ==> 2 <= u.minParticipants.value && u.minParticipants.value % 2 == 0)
    && (u.maxParticipants.Some? ==>
          (if u.minParticipants.Some? then u.minParticipants.value else c.minParticipants) <= u.maxParticipants.value)
    && (u.registrationDuration.Some? ==> 0 < u.registrationDuration.value)
    && (u.matchesPerPlayer.Some? ==> 0 < u.matchesPerPlayer.value)
    && (u.revealDuration.Some? ==> 0 < u.revealDuration.value)
    && (u.operatorTxFee.Some? ==> u.operatorTxFee.value <= 100_000_000)
  }

  /** A field takes the value supplied for it, and keeps its own if none is. */
  predicate Takes<T(==)>(before: T, after: T, supplied: Option<T>) {
    if supplied.Some? then after == supplied.value else after == before
  }

  /** An update is accepted exactly if every value is, and sets each parameter to its own value and nothing else. */
  lemma UpdateExact(c: Config, u: ConfigUpdate)
    ensures Updated(c, u).Ok? <==> Acceptable(c, u)
    ensures Updated(c, u).Ok? ==>
              var c' := Updated(c, u).value;
              && Takes(c.operator, c'.operator, u.operator) && Takes(c.houseFeeBps, c'.houseFeeBps, u.houseFeeBps)
              && Takes(c.stake, c'.stake, u.stake) && Takes(c.minParticipants, c'.minParticipants, u.minParticipants)
              && Takes(c.registrationDuration, c'.registrationDuration, u.registrationDuration)
              && Takes(c.matchesPerPlayer, c'.matchesPerPlayer, u.matchesPerPlayer)
              && Takes(c.revealDuration, c'.revealDuration, u.revealDuration)
              && Takes(c.operatorTxFee, c'.operatorTxFee, u.operatorTxFee)
              && c'.maxParticipants == (if u.maxParticipants.Some? then u.maxParticipants.value else c.maxParticipants)
              && c'.admin == c.admin && c'.accumulatedFees == c.accumulatedFees && c'.currentId == c.currentId
              && c'.lamports == c.lamports && c'.rentMinimum == c.rentMinimum
  {}
}
