/** The instructions that act on one tournament: each succeeds as a whole or leaves everything unchanged. */
module Protocol {
  import opened Options
  import opened Rng
  import opened Arith
  import opened Schedule
  import opened Codec
  import opened Accounts
  import opened Rosters
  import opened Batches
  import opened Prizes

  /** What a successful instruction leaves: the tournament, the config, and the net change of one wallet. */
  datatype Effect = Effect(t: Tournament, config: Config, wallet: Key, delta: int)

  /** The tournament's operator costs grow by one transaction fee. */
  function Charge(t: Tournament, c: Config): Result<Tournament> {
    var costs :- CheckedAdd(t.operatorCosts, c.operatorTxFee);
    Ok(t.(operatorCosts := costs))
  }

  // ----- registration -----

  /**
   Joins with a stake. `topUp` is what the framework adds when it grows the account,
   `newRent` the rent minimum of the grown account, `entryRent` the rent of the new entry.
   */
  function Enter(t: Tournament, c: Config, p: Key, commitment: seq<Byte>, topUp: nat, newRent: nat, entryRent: nat)
    : Result<Effect>
  {
    var r := t.roster;
    :- Require(p != DEFAULT, AccountMissing);
    :- Require(p !in r.entries, AccountInUse);
    :- Require(t.phase == Registration, RegistrationClosed);
    :- Require(|r.players| < c.maxParticipants, TournamentFull);
    var stake := t.terms.stake;
    Ok(Effect(t.(roster := Enrol(r, p, commitment, entryRent), pool := t.pool + stake,
                 lamports := t.lamports + stake + topUp, rentMinimum := newRent),
              c, p, -(stake + topUp + entryRent)))
  }

  /** The account can give back one stake for slot i, and every counter can be lowered. */
  predicate Vacatable(t: Tournament, i: nat) {
    && i < |t.roster.players| && i < |t.roster.strategies|
    && t.terms.stake <= t.lamports && t.terms.stake <= t.pool
    && 0 < t.roster.participantCount && 0 < t.roster.entriesRemaining
  }

  predicate Refundable(t: Tournament, p: Key) { p in t.roster.entries && Vacatable(t, t.roster.entries[p].index) }

  /** The slot of p blanked, its stake taken out of pool and balance. */
  function TakeOut(t: Tournament, p: Key): Tournament
    requires Refundable(t, p)
  {
    t.(roster := Blank(t.roster, p), pool := t.pool - t.terms.stake, lamports := t.lamports - t.terms.stake)
  }

  function Refund(t: Tournament, c: Config, p: Key): Result<Effect> {
    var r := t.roster;
    :- Require(p in r.entries, AccountMissing);
    :- Require(t.phase == Registration, InvalidState);
    :- Require(Refundable(t, p), Aborted);
    Ok(Effect(TakeOut(t, p), c, p, t.terms.stake + r.entries[p].lamports))
  }

  function CloseRegistration(t: Tournament, c: Config, now: int): Result<Effect> {
    var r := t.roster;
    :- Require(t.phase == Registration, InvalidState);
    :- Require(now >= t.registrationEnds, RegistrationOpen);
    :- Require(r.participantCount >= c.minParticipants, MinParticipantsNotReached);
    var t' :- Charge(t, c);
    Ok(Effect(t'.(phase := Reveal, revealEnds := now + t.terms.revealDuration), c, c.operator, 0))
  }

  // ----- reveal -----

  /** The bytes a player commits to: the strategy index and the salt, with the program's hash in between if custom. */
  function CommitmentBytes(hash: seq<Byte> -> seq<Byte>, choice: Choice, code: seq<Byte>, salt: seq<Byte>): seq<Byte> {
    if choice.CustomCode? then [Index(choice)] + hash(code) + salt else [Index(choice)] + salt
  }

  function RevealStrategy(t: Tournament, c: Config, now: int, p: Key, choice: Choice, salt: seq<Byte>,
                          code: Option<seq<Byte>>, hash: seq<Byte> -> seq<Byte>): Result<Effect>
  {
    var r := t.roster;
    :- Require(p in r.entries, AccountMissing);
    var e := r.entries[p];
    :- Require(t.phase == Reveal, InvalidState);
    :- Require(now <= t.revealEnds, RevealPeriodEnded);
    :- Require(!e.revealed, AlreadyRevealed);
    :- Require(choice.CustomCode? ==> code.Some? && Validate(code.value).Accepted?, InvalidBytecode);
    var program := if choice.CustomCode? then code.value else e.bytecode;
    :- Require(hash(CommitmentBytes(hash, choice, program, salt)) == e.commitment, CommitmentMismatch);
    :- Require(e.index < |r.strategies|, Aborted);
    Ok(Effect(t.(roster := MarkRevealed(r, p, choice, program)), c, c.operator, 0))
  }

  /** After the deadline an unrevealed entry is given a builtin drawn from the slot hash. */
  function Forfeit(t: Tournament, c: Config, now: int, p: Key, slot: Option<Byte>): Result<Effect> {
    var r := t.roster;
    :- Require(p in r.entries, AccountMissing);
    :- Require(t.phase == Reveal, InvalidState);
    :- Require(now > t.revealEnds, RevealPeriodNotEnded);
    var t' :- Charge(t, c);
    :- Require(!r.entries[p].revealed, AlreadyRevealed);
    :- Require(slot.Some?, SlotHashUnavailable);
    :- Require(r.entries[p].index < |r.strategies|, Aborted);
    var choice := FromIndex(slot.value % 9);
    :- Require(choice.Some?, InvalidState);
    Ok(Effect(t'.(roster := MarkRevealed(r, p, choice.value, r.entries[p].bytecode)), c, c.operator, 0))
  }

  /** The last slot in use. */
  function LastActive(players: seq<Key>): (i: Option<nat>)
    ensures i.Some? ==> i.value < |players| && players[i.value] != DEFAULT
    ensures i.Some? ==> forall j :: i.value < j < |players| ==> players[j] == DEFAULT
    ensures i.None? ==> forall j :: 0 <= j < |players| ==> players[j] == DEFAULT
  {
    if players == [] then None
    else if players[|players| - 1] != DEFAULT then Some(|players| - 1)
    else LastActive(players[..|players| - 1])
  }

  /** An entry account handed to `close_reveal`, and whether it is one of the tournament being closed. */
  datatype Supplied = Supplied(own: bool, player: Key, entry: Entry)

  /**
   With an odd count the last active registrant is refunded. The supplied entry must carry that player
   and slot number; nothing compares its tournament.
   */
  function EvenOut(t: Tournament, c: Config, refund: Option<Supplied>): Result<Effect> {
    var r := t.roster;
    if r.participantCount % 2 == 0 then Ok(Effect(t, c, c.operator, 0))
    else
      var last := LastActive(r.players);
      :- Require(last.Some?, InvalidState);
      var p := r.players[last.value];
      :- Require(refund.Some? && refund.value.player == p, InvalidEntryAccount);
      :- Require(refund.value.entry.index == last.value, InvalidEntryAccount);
      :- Require(Vacatable(t, last.value) && 0 < r.revealsCompleted, Aborted);
      var open := if refund.value.own then r.entries - {p} else r.entries;
      Ok(Effect(t.(roster := Vacate(r, last.value).(entries := open, revealsCompleted := r.revealsCompleted - 1),
                   pool := t.pool - t.terms.stake, lamports := t.lamports - t.terms.stake),
                c, p, t.terms.stake + refund.value.entry.lamports))
  }

  function StartRunning(t: Tournament, seed: Seed): Tournament {
    var n := t.roster.participantCount;
    var k := EffectiveK(n, t.terms.matchesPerPlayer);
    t.(phase := Running,
       draw := Draw(seed, k, MatchCount(n, k), t.draw.matchesCompleted, if n <= 1000 then 0 else 1))
  }

  function StartEmpty(t: Tournament): Tournament {
    t.(phase := Running, draw := t.draw.(matchesTotal := 0, matchesCompleted := 0))
  }

  function CloseReveal(t: Tournament, c: Config, now: int, refund: Option<Supplied>, slot: Option<Seed>)
    : Result<Effect>
  {
    var r := t.roster;
    :- Require(t.phase == Reveal, InvalidState);
    :- Require(now > t.revealEnds, RevealPeriodNotEnded);
    var t1 :- Charge(t, c);
    :- Require(r.revealsCompleted == r.participantCount, UnprocessedForfeits);
    if r.participantCount == 0 then Ok(Effect(StartEmpty(t1), c, c.operator, 0))
    else
      var e :- EvenOut(t1, c, refund);
      if e.t.roster.participantCount == 0 then Ok(e.(t := StartEmpty(e.t)))
      else
        :- Require(slot.Some?, SlotHashUnavailable);
        Ok(e.(t := StartRunning(e.t, slot.value)))
  }

  // ----- running -----

  /** No slot in use still carries the sentinel. */
  predicate NoneHidden(r: Roster)
    requires Shaped(r)
  {
    forall i :: 0 <= i < |r.players| && r.players[i] != DEFAULT ==> r.strategies[i] != HIDDEN
  }

  /** The next batch of at most five matches. */
  function RunMatches(t: Tournament, c: Config, accounts: set<Key>): Result<Effect> {
    var d := t.draw;
    :- Require(t.phase == Running, InvalidState);
    :- Require(d.matchesCompleted <= d.matchesTotal, Aborted);
    var count := Min(MATCHES_PER_TX, d.matchesTotal - d.matchesCompleted);
    if count == 0 then Ok(Effect(t, c, c.operator, 0))
    else
      var t' :- Charge(t, c);
      :- Require(Shaped(t.roster), Aborted);
      :- Require(NoneHidden(t.roster), UnrevealedStrategy);
      var r :- PlayBatch(t.roster, d, d.matchesCompleted, count, accounts);
      Ok(Effect(t'.(roster := r, draw := d.(matchesCompleted := d.matchesCompleted + count)), c, c.operator, 0))
  }

  // ----- finalization -----

  /** This transaction's fee, and one for closing each open entry and the tournament itself. */
  function FinalCosts(t: Tournament, c: Config): Result<nat> {
    var costs :- CheckedAdd(t.operatorCosts, c.operatorTxFee);
    var later := (t.roster.entriesRemaining + 1) * c.operatorTxFee;
    :- Require(later < U64_SIZE, OverflowError);
    CheckedAdd(costs, later)
  }

  function AddFees(c: Config, amount: nat): Result<Config> {
    var fees :- CheckedAdd(c.accumulatedFees, amount);
    Ok(c.(accumulatedFees := fees, lamports := c.lamports + amount))
  }

  /** Nobody is left: reimburse the operator, sweep the rest above rent into the fees. */
  function FinalizeEmpty(t: Tournament, c: Config, now: int, costs: nat): Result<Effect> {
    var reimbursement := Min(costs, SaturatingSub(t.lamports, t.rentMinimum));
    var sweep := SaturatingSub(t.lamports - reimbursement, t.rentMinimum);
    var c' :- AddFees(c, sweep);
    Ok(Effect(t.(phase := Payout, operatorCosts := costs, prize := Prize(0, 0, 0, t.prize.claimsProcessed, now),
                 lamports := t.lamports - reimbursement - sweep),
              c', c.operator, reimbursement))
  }

  /** The lowest winning score and how many active players reach it. */
  function Winners(r: Roster): (nat, nat)
    requires Shaped(r)
  {
    var sorted := SortDown(ActiveScores(r.players, r.scores));
    var least := Threshold(sorted, TargetWinners(r.participantCount));
    (least, CountAtLeast(sorted, least))
  }

  function FinalizeWinners(t: Tournament, c: Config, now: int, costs: nat): Result<Effect> {
    var r := t.roster;
    :- Require(Shaped(r), Aborted);
    var (least, winners) := Winners(r);
    var s :- Settle(t.pool, t.terms.houseFeeBps, costs, t.lamports, t.rentMinimum, winners);
    var c' :- AddFees(c, s.houseFee + s.dust);
    Ok(Effect(t.(phase := Payout, operatorCosts := costs, lamports := s.left,
                 prize := Prize(least, winners, s.winnerPool, t.prize.claimsProcessed, now)),
              c', c.operator, s.reimbursement))
  }

  function Finalize(t: Tournament, c: Config, now: int): Result<Effect> {
    var r := t.roster;
    :- Require(t.phase == Running, InvalidState);
    :- Require(t.draw.matchesCompleted >= t.draw.matchesTotal, MatchesIncomplete);
    var costs :- FinalCosts(t, c);
    if r.participantCount == 0 then FinalizeEmpty(t, c, now, costs) else FinalizeWinners(t, c, now, costs)
  }

  // ----- payout -----

  function Expiry(t: Tournament): int { t.prize.payoutStartedAt + CLAIM_EXPIRY_SECONDS }

  function Share(t: Tournament): nat {
    if t.prize.winnerCount == 0 then 0 else Quot(t.prize.winnerPool, t.prize.winnerCount)
  }

  predicate IsWinner(t: Tournament, e: Entry) { e.score >= t.prize.minWinningScore }

  /** Closes the entry of p, paying `amount` out of the tournament, counted as a claim or not. */
  function CloseOut(t: Tournament, p: Key, amount: nat, claim: bool): Tournament
    requires p in t.roster.entries && 0 < t.roster.entriesRemaining && amount <= t.lamports
  {
    t.(roster := CloseSlot(t.roster, p), lamports := t.lamports - amount,
       prize := t.prize.(claimsProcessed := t.prize.claimsProcessed + if claim then 1 else 0))
  }

  function ClaimPayout(t: Tournament, c: Config, now: int, p: Key): Result<Effect> {
    var r := t.roster;
    :- Require(p in r.entries, AccountMissing);
    var e := r.entries[p];
    :- Require(t.phase == Payout, InvalidState);
    :- Require(!e.paidOut, AlreadyPaid);
    :- Require(now < Expiry(t), ClaimExpired);
    :- Require(IsWinner(t, e), NotWinner);
    :- Require(t.prize.winnerCount > 0, OverflowError);
    :- Require(Share(t) <= t.lamports, Aborted);
    :- Require(0 < r.entriesRemaining, OverflowError);
    Ok(Effect(CloseOut(t, p, Share(t), true), c, p, Share(t) + e.lamports))
  }

  /** Closes any entry; an unpaid winner's share goes to the player, or to the fees once claims have expired. */
  function CloseEntry(t: Tournament, c: Config, now: int, p: Key): Result<Effect> {
    var r := t.roster;
    :- Require(p in r.entries, AccountMissing);
    var e := r.entries[p];
    :- Require(t.phase == Payout, InvalidState);
    :- Require(0 < r.entriesRemaining, OverflowError);
    if !e.paidOut && t.prize.winnerCount > 0 && IsWinner(t, e) then
      var transfer := Min(Share(t), SaturatingSub(t.lamports, t.rentMinimum));
      if now >= Expiry(t) then
        var c' :- AddFees(c, transfer);
        Ok(Effect(CloseOut(t, p, transfer, false), c', p, e.lamports))
      else
        Ok(Effect(CloseOut(t, p, transfer, true), c, p, transfer + e.lamports))
    else
      Ok(Effect(CloseOut(t, p, 0, false), c, p, e.lamports))
  }

  /** Closing needs all entries closed, and either all winners paid or the closure delay passed. */
  function CloseTournament(t: Tournament, c: Config, now: int): Result<Config> {
    var r := t.roster;
    :- Require(t.phase == Payout, InvalidState);
    :- Require(now >= t.prize.payoutStartedAt + TOURNAMENT_CLOSURE_SECONDS
               || t.prize.claimsProcessed >= t.prize.winnerCount, TournamentNotCloseable);
    :- Require(r.entriesRemaining == 0, EntriesRemaining);
    AddFees(c, t.lamports)
  }

  /** A tournament created with the current config values. */
  function Fresh(c: Config, now: int, rent: nat): Tournament {
    Tournament(Registration, Terms(c.stake, c.houseFeeBps, c.matchesPerPlayer, c.revealDuration),
               now + c.registrationDuration, 0, EMPTY_ROSTER,
               Draw(seq(32, _ => 0), c.matchesPerPlayer, 0, 0, 0), Prize(0, 0, 0, 0, 0), 0, 0, rent, rent)
  }
}
