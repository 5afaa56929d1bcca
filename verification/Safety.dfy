/** What every instruction keeps about a tournament, phase by phase. */
module Safety {
  import opened Options
  import opened Rng
  import opened Arith
  import opened Schedule
  import opened Codec
  import opened Accounts
  import opened Rosters
  import opened Replays
  import opened Batches
  import opened Prizes
  import opened Protocol

  /** No match has been played. */
  predicate Untouched(r: Roster) {
    && (forall i :: 0 <= i < |r.scores| ==> r.scores[i] == 0)
    && (forall p :: p in r.entries ==> r.entries[p].matchesPlayed == 0)
  }

  /** The pool is one stake per participant and the account holds at least the pool. */
  ghost predicate LiveInv(t: Tournament) {
    && 0 < t.terms.stake && t.terms.houseFeeBps <= 10000
    && RosterInv(t.roster) && |t.roster.players| < U16_SIZE
    && t.pool == t.terms.stake * t.roster.participantCount <= t.lamports
    && t.prize.claimsProcessed == 0
  }

  predicate EvenField(n: nat) { 2 <= n && n % 2 == 0 }

  /** The schedule is that of the active players; every match played had a pair, and the accounts hold their tally. */
  ghost predicate DrawInv(t: Tournament) {
    var n, k := t.roster.participantCount, t.draw.matchesPerPlayer;
    && k == EffectiveK(n, t.terms.matchesPerPlayer)
    && t.draw.matchesTotal == MatchCount(n, k)
    && t.draw.matchesCompleted <= t.draw.matchesTotal
    && Filled(t.roster) && FixtureOf(t.roster, t.draw).Valid()
    && Paired(n, k, t.draw.seed, 0, t.draw.matchesCompleted)
    && Synced(t.roster, t.draw, t.draw.matchesCompleted)
  }

  /** Open entries that reach the threshold. */
  function OpenWinners(t: Tournament): set<Key> {
    set p | p in t.roster.entries && t.roster.entries[p].score >= t.prize.minWinningScore
  }

  /** Winners are the top quarter with ties; their shares divide the winner pool exactly. */
  ghost predicate WinnersInv(t: Tournament) {
    var r, x := t.roster, t.prize.minWinningScore;
    && Shaped(r)
    && t.prize.winnerCount == |SlotsReaching(r.players, r.scores, x)|
    && |SlotsReaching(r.players, r.scores, x + 1)| < TargetWinners(r.participantCount)
    && TargetWinners(r.participantCount) <= t.prize.winnerCount <= r.participantCount
    && t.prize.winnerPool == Share(t) * t.prize.winnerCount
  }

  /** Every winner is open, paid as a claim, or was closed after the claims had expired. */
  ghost predicate ClaimsInv(t: Tournament, now: int) {
    && t.prize.claimsProcessed + |OpenWinners(t)| <= t.prize.winnerCount
    && (t.prize.claimsProcessed + |OpenWinners(t)| == t.prize.winnerCount || now >= Expiry(t))
  }

  /** The account holds one share for every open winner. */
  ghost predicate Covered(t: Tournament) { Share(t) * |OpenWinners(t)| <= t.lamports }

  ghost predicate PayoutInv(t: Tournament, now: int) {
    && Linked(t.roster) && t.roster.entriesRemaining == |t.roster.entries|
    && EvenField(t.roster.participantCount) && WinnersInv(t) && ClaimsInv(t, now) && Covered(t)
  }

  ghost predicate Inv(t: Tournament, now: int) {
    match t.phase
    case Registration =>
      LiveInv(t) && Untouched(t.roster) && t.draw.matchesCompleted == 0 && t.roster.revealsCompleted == 0
    case Reveal =>
      LiveInv(t) && Untouched(t.roster) && t.draw.matchesCompleted == 0 && 2 <= t.roster.participantCount
    case Running =>
      && LiveInv(t) && EvenField(t.roster.participantCount) && DrawInv(t)
      && t.roster.revealsCompleted == t.roster.participantCount
    case Payout => PayoutInv(t, now)
  }

  /** Time only helps. */
  lemma LaterInv(t: Tournament, now: int, later: int)
    requires Inv(t, now) && now <= later
    ensures Inv(t, later)
  {
    hide LiveInv, DrawInv, WinnersInv, Linked, Untouched, Covered;
  }

  // ----- registration -----

  lemma FreshInv(c: Config, now: int, rent: nat)
    requires 0 < c.stake && c.houseFeeBps <= 10000
    ensures Inv(Fresh(c, now, rent), now)
  {
    EmptyInv();
  }

  lemma EnterKeeps(t: Tournament, c: Config, now: int, p: Key, commitment: seq<Byte>,
                   topUp: nat, newRent: nat, entryRent: nat)
    requires Inv(t, now) && Enter(t, c, p, commitment, topUp, newRent, entryRent).Ok?
    ensures Inv(Enter(t, c, p, commitment, topUp, newRent, entryRent).value.t, now)
  {
    hide RosterInv;
    EnrolKeeps(t.roster, p, commitment, entryRent);
    MulCommutes(t.terms.stake, t.roster.participantCount);
    assert t.terms.stake * (t.roster.participantCount + 1) == t.terms.stake * t.roster.participantCount + t.terms.stake;
  }

  /** A live tournament can always give a stake back. */
  lemma AlwaysRefundable(t: Tournament, p: Key)
    requires LiveInv(t) && p in t.roster.entries
    ensures Refundable(t, p)
  {
    assert EntryLinked(t.roster, p);
    assert |t.roster.entries.Keys| > 0;
    MulMonotone(1, t.roster.participantCount, t.terms.stake);
    MulCommutes(t.roster.participantCount, t.terms.stake);
  }

  lemma DischargeKeeps(r: Roster, p: Key)
    requires RosterInv(r) && Untouched(r) && p in r.entries
    ensures 0 < r.participantCount && 0 < r.entriesRemaining && (r.entries[p].revealed ==> 0 < r.revealsCompleted)
    ensures r.entries[p].index < |r.players| && r.entries[p].index < |r.strategies|
    ensures var r' := Discharge(r, p);
            && RosterInv(r') && Untouched(r')
            && r'.participantCount == r.participantCount - 1 && |r'.players| == |r.players|
  {
    assert EntryLinked(r, p);
    hide EntryLinked;
    BlankKeeps(r, p);
    hide RosterInv;
  }

  /** Discharging an entry keeps the pool at one stake per participant. */
  lemma TakeOutKeeps(t: Tournament, p: Key)
    requires LiveInv(t) && Untouched(t.roster) && p in t.roster.entries
    ensures Refundable(t, p) && (t.roster.entries[p].revealed ==> 0 < t.roster.revealsCompleted)
    ensures var t' := TakeOut(t, p).(roster := Discharge(t.roster, p)); LiveInv(t') && Untouched(t'.roster)
  {
    hide RosterInv, Untouched, Discharge;
    AlwaysRefundable(t, p);
    DischargeKeeps(t.roster, p);
    StakeOut(t.terms.stake, t.roster.participantCount);
  }

  lemma StakeOut(stake: nat, n: nat)
    requires 0 < n
    ensures stake * n == stake * (n - 1) + stake
  {}

  lemma RefundKeeps(t: Tournament, c: Config, now: int, p: Key)
    requires Inv(t, now) && Refund(t, c, p).Ok?
    ensures Inv(Refund(t, c, p).value.t, now)
  {
    hide RosterInv, Untouched, LiveInv;
    LiveInvOfPhase(t, now);
    TakeOutKeeps(t, p);
    assert TakeOut(t, p).roster == Discharge(t.roster, p);
  }

  lemma LiveInvOfPhase(t: Tournament, now: int)
    requires Inv(t, now) && t.phase != Payout
    ensures LiveInv(t)
  {
    hide LiveInv, DrawInv;
  }

  /** A registrant's refund cannot fail during registration. */
  lemma RefundSucceeds(t: Tournament, c: Config, now: int, p: Key)
    requires Inv(t, now) && t.phase == Registration && p in t.roster.entries
    ensures Refund(t, c, p).Ok? && Refund(t, c, p).value.wallet == p
    ensures Refund(t, c, p).value.delta == t.terms.stake + t.roster.entries[p].lamports
  {
    AlwaysRefundable(t, p);
  }

  lemma CloseRegistrationKeeps(t: Tournament, c: Config, now: int)
    requires Inv(t, now) && 2 <= c.minParticipants && CloseRegistration(t, c, now).Ok?
    ensures Inv(CloseRegistration(t, c, now).value.t, now)
  {
    hide RosterInv;
  }

  // ----- reveal -----

  lemma MarkRevealedLive(t: Tournament, p: Key, choice: Choice, code: seq<Byte>)
    requires LiveInv(t) && Untouched(t.roster) && p in t.roster.entries && !t.roster.entries[p].revealed
    requires choice.CustomCode? ==> Validate(code).Accepted?
    ensures t.roster.entries[p].index < |t.roster.strategies|
    ensures var t' := t.(roster := MarkRevealed(t.roster, p, choice, code)); LiveInv(t') && Untouched(t'.roster)
  {
    hide RosterInv;
    RevealKeeps(t.roster, p, choice, code);
  }

  lemma RevealStrategyKeeps(t: Tournament, c: Config, now: int, p: Key, choice: Choice, salt: seq<Byte>,
                            code: Option<seq<Byte>>, hash: seq<Byte> -> seq<Byte>)
    requires Inv(t, now) && RevealStrategy(t, c, now, p, choice, salt, code, hash).Ok?
    ensures Inv(RevealStrategy(t, c, now, p, choice, salt, code, hash).value.t, now)
  {
    hide RosterInv, Validate;
    MarkRevealedLive(t, p, choice, if choice.CustomCode? then code.value else t.roster.entries[p].bytecode);
  }

  lemma ForfeitKeeps(t: Tournament, c: Config, now: int, p: Key, slot: Option<Byte>)
    requires Inv(t, now) && Forfeit(t, c, now, p, slot).Ok?
    ensures Inv(Forfeit(t, c, now, p, slot).value.t, now)
  {
    hide RosterInv, FromIndex;
    MarkRevealedLive(t, p, FromIndex(slot.value % 9).value, t.roster.entries[p].bytecode);
  }

  /** With an odd count the search for the last active slot finds an open entry of that slot. */
  lemma LastActiveFound(t: Tournament)
    requires LiveInv(t) && 0 < t.roster.participantCount
    ensures var last := LastActive(t.roster.players);
            && last.Some?
            && t.roster.players[last.value] in t.roster.entries
            && t.roster.entries[t.roster.players[last.value]].index == last.value
  {
    ActiveCount(t.roster);
    assert LastActive(t.roster.players).None? ==> ActiveSlots(t.roster) == {};
  }

  /** The supplied entry is the tournament's own entry of that player. */
  predicate Owned(t: Tournament, s: Supplied) {
    s.own && s.player in t.roster.entries && s.entry == t.roster.entries[s.player]
  }

  lemma EvenOutIsDischarge(t: Tournament, c: Config, refund: Option<Supplied>)
    requires t.roster.participantCount % 2 == 1 && EvenOut(t, c, refund).Ok? && Owned(t, refund.value)
    requires forall q :: q in t.roster.entries ==> t.roster.entries[q].revealed
    ensures var p := refund.value.player;
            && p in t.roster.entries && Refundable(t, p) && 0 < t.roster.revealsCompleted
            && EvenOut(t, c, refund).value
            == Effect(TakeOut(t, p).(roster := Discharge(t.roster, p)), c, p,
                      t.terms.stake + t.roster.entries[p].lamports)
  {}

  lemma EvenOrLess(n: nat)
    requires 2 <= n
    ensures EvenField(if n % 2 == 1 then n - 1 else n)
  {}

  lemma LiveAllRevealed(t: Tournament)
    requires LiveInv(t) && t.roster.revealsCompleted == t.roster.participantCount
    ensures forall p :: p in t.roster.entries ==> t.roster.entries[p].revealed
  {
    hide RosterInv;
    AllRevealed(t.roster);
  }

  lemma EvenOutKeeps(t: Tournament, c: Config, refund: Option<Supplied>)
    requires LiveInv(t) && Untouched(t.roster) && 2 <= t.roster.participantCount
    requires t.roster.revealsCompleted == t.roster.participantCount && EvenOut(t, c, refund).Ok?
    requires t.roster.participantCount % 2 == 1 ==> Owned(t, refund.value)
    ensures var t' := EvenOut(t, c, refund).value.t;
            && LiveInv(t') && Untouched(t'.roster) && EvenField(t'.roster.participantCount)
            && t'.roster.revealsCompleted == t'.roster.participantCount
            && t'.draw == t.draw && t'.phase == t.phase && t'.terms == t.terms && t'.prize == t.prize
  {
    hide RosterInv, Untouched, LiveInv, EvenField, Owned, Vacatable;
    LiveAllRevealed(t);
    EvenOrLess(t.roster.participantCount);
    if t.roster.participantCount % 2 == 1 {
      hide EvenOut;
      EvenOutIsDischarge(t, c, refund);
      TakeOutKeeps(t, refund.value.player);
    }
  }

  /** The odd-player refund fails only if the operator supplies the wrong entry. */
  lemma EvenOutSucceeds(t: Tournament, c: Config, refund: Option<Supplied>)
    requires LiveInv(t) && 2 <= t.roster.participantCount && t.roster.revealsCompleted == t.roster.participantCount
    ensures EvenOut(t, c, refund).Ok? || EvenOut(t, c, refund) == Err(InvalidEntryAccount)
  {
    LastActiveFound(t);
    AlwaysRefundable(t, t.roster.players[LastActive(t.roster.players).value]);
  }

  /** With an odd count it succeeds exactly for an entry, of whatever tournament, with the last player and slot. */
  lemma EvenOutAccepts(t: Tournament, c: Config, refund: Option<Supplied>)
    requires LiveInv(t) && 2 <= t.roster.participantCount && t.roster.revealsCompleted == t.roster.participantCount
    requires t.roster.participantCount % 2 == 1
    ensures LastActive(t.roster.players).Some?
    ensures var last := LastActive(t.roster.players).value;
            EvenOut(t, c, refund).Ok? <==>
              refund.Some? && refund.value.player == t.roster.players[last] && refund.value.entry.index == last
  {
    LastActiveFound(t);
    EvenOutSucceeds(t, c, refund);
  }

  /** Before the first match the accounts hold the empty tally. */
  lemma StartsSynced(r: Roster, d: Draw)
    requires RosterInv(r) && Untouched(r) && FixtureOf(r, d).Valid()
    ensures Synced(r, d, 0)
  {
    hide Servable;
    forall p | p in r.entries ensures r.entries[p].index < |r.players| { assert EntryLinked(r, p); }
  }

  /** Closing the reveal phase with an entry of the tournament itself, or with an even field. */
  lemma CloseRevealKeeps(t: Tournament, c: Config, now: int, refund: Option<Supplied>, slot: Option<Seed>)
    requires Inv(t, now) && CloseReveal(t, c, now, refund, slot).Ok?
    requires t.roster.participantCount % 2 == 1 && refund.Some? ==> Owned(t, refund.value)
    ensures Inv(CloseReveal(t, c, now, refund, slot).value.t, now)
    ensures CloseReveal(t, c, now, refund, slot).value.t.phase == Running
  {
    hide RosterInv, EvenOut, MatchCount, EffectiveK, Servable, Synced, FixtureOf;
    var t1 := Charge(t, c).value;
    EvenOutNeeds(t1, c, refund);
    EvenOutKeeps(t1, c, refund);
    var t2 := EvenOut(t1, c, refund).value.t;
    var t3 := StartRunning(t2, slot.value);
    assert EvenField(t2.roster.participantCount);
    StartRunningDraw(t2, slot.value);
  }

  lemma EvenOutNeeds(t: Tournament, c: Config, refund: Option<Supplied>)
    requires EvenOut(t, c, refund).Ok?
    ensures t.roster.participantCount % 2 == 1 ==> refund.Some?
  {}

  /**
   An entry of another tournament is accepted just as well, and leaves the player's own entry open on a
   blank slot.
   */
  lemma ForeignRefundBreaks(t: Tournament, c: Config, now: int, refund: Option<Supplied>, slot: Option<Seed>)
    requires Inv(t, now) && CloseReveal(t, c, now, refund, slot).Ok?
    requires t.roster.participantCount % 2 == 1 && refund.Some? && !refund.value.own
    ensures var t' := CloseReveal(t, c, now, refund, slot).value.t;
            && t'.roster.entries == t.roster.entries && t'.roster.participantCount == t.roster.participantCount - 1
            && !Linked(t'.roster) && !Inv(t', now)
  {
    hide RosterInv, EntryLinked;
    var t' := CloseReveal(t, c, now, refund, slot).value.t;
    LastActiveFound(t);
    StillOpen(t'.roster, t.roster.players[LastActive(t.roster.players).value]);
    hide Inv, CloseReveal;
    if Inv(t', now) { InvLinked(t', now); }
  }

  lemma InvLinked(t: Tournament, now: int)
    requires Inv(t, now)
    ensures Linked(t.roster)
  {
    hide Linked, Untouched, DrawInv, WinnersInv, ClaimsInv, Covered;
  }

  lemma StillOpen(r: Roster, p: Key)
    requires p in r.entries && r.entries[p].index < |r.players| && r.players[r.entries[p].index] == DEFAULT
    ensures !Linked(r)
  {
    if Shaped(r) { assert !EntryLinked(r, p); }
  }

  lemma StartRunningDraw(t: Tournament, seed: Seed)
    requires LiveInv(t) && Untouched(t.roster) && t.draw.matchesCompleted == 0
    ensures DrawInv(StartRunning(t, seed))
  {
    hide RosterInv, MatchCount, EffectiveK, Servable, Synced, Untouched;
    var t' := StartRunning(t, seed);
    InvIsFilled(t.roster);
    EffectiveServable(t.roster.participantCount, t.terms.matchesPerPlayer);
    StartsSynced(t'.roster, t'.draw);
  }
}
