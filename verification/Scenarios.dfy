/** Runs from initialization to states in which the code does less than its documentation says. */
module Scenarios {
  import opened Options
  import opened Rng
  import opened Arith
  import opened Counting
  import opened Schedule
  import opened Accounts
  import opened Ledger
  import opened Rosters
  import opened Prizes
  import opened Protocol
  import opened Safety
  import opened Closing
  import opened Worlds
  import opened Runs
  import opened Conservation
  import opened Guarantees
  import opened Fairness
  import opened Progress

  // ----- single steps -----

  /** Only tournament id changes, to t, and lamports are conserved. */
  ghost predicate Moved(w: World, w': World, id: nat, t: Tournament) {
    && WorldInv(w') && Total(w') == Total(w) && w'.config == w.config && w'.now == w.now
    && w'.tours == w.tours[id := t]
  }

  lemma EnterStep(w: World, id: nat, p: Key, rent: nat, hash: Hash) returns (a: Action, w': World)
    requires WorldInv(w) && id in w.tours && w.tours[id].phase == Registration
    requires p != DEFAULT && p !in w.tours[id].roster.entries && |w.tours[id].roster.players| < w.config.maxParticipants
    requires w.tours[id].terms.stake <= Balance(w.wallets, p)
    ensures !a.EndReveal? && w' == Apply(w, a, hash)
    ensures var t := w.tours[id];
            Moved(w, w', id, t.(roster := Enrol(t.roster, p, [], 0), pool := t.pool + t.terms.stake,
                                lamports := t.lamports + t.terms.stake, rentMinimum := rent))
    ensures forall q ::
              Balance(w'.wallets, q) == Balance(w.wallets, q) - (if q == p then w.tours[id].terms.stake else 0)
  {
    hide WorldInv, Total, Enrol;
    a := On(id, EnterTournament(p, [], 0, rent, 0));
    StepKeeps(w, a, hash);
    ValidConserves(w, a, hash);
    w' := Apply(w, a, hash);
  }

  lemma RefundStep(w: World, id: nat, p: Key, hash: Hash) returns (a: Action, w': World)
    requires WorldInv(w) && id in w.tours && w.tours[id].phase == Registration && p in w.tours[id].roster.entries
    ensures !a.EndReveal? && w' == Apply(w, a, hash) && Refundable(w.tours[id], p)
    ensures Moved(w, w', id, TakeOut(w.tours[id], p))
    ensures forall q :: Balance(w.wallets, q) <= Balance(w'.wallets, q)
  {
    hide WorldInv, Total, Inv, TakeOut;
    a := On(id, ClaimRefund(p));
    TournamentInv(w, id);
    RefundSucceeds(w.tours[id], w.config, w.now, p);
    StepKeeps(w, a, hash);
    ValidConserves(w, a, hash);
    w' := Apply(w, a, hash);
  }

  lemma CloseRegistrationStep(w: World, id: nat, hash: Hash) returns (a: Action, w': World)
    requires WorldInv(w) && id in w.tours && w.tours[id].phase == Registration && w.tours[id].registrationEnds <= w.now
    requires w.config.minParticipants <= w.tours[id].roster.participantCount
    requires w.tours[id].operatorCosts + w.config.operatorTxFee < U64_SIZE
    ensures !a.EndReveal? && w' == Apply(w, a, hash) && w'.wallets == w.wallets
    ensures var t := w.tours[id];
            Moved(w, w', id, t.(operatorCosts := t.operatorCosts + w.config.operatorTxFee, phase := Reveal,
                                revealEnds := w.now + t.terms.revealDuration))
  {
    hide WorldInv, Total;
    a := On(id, EndRegistration);
    StepKeeps(w, a, hash);
    ValidConserves(w, a, hash);
    w' := Apply(w, a, hash);
  }

  lemma TickStep(w: World, seconds: nat, hash: Hash)
    requires WorldInv(w)
    ensures Apply(w, Tick(seconds), hash) == w.(now := w.now + seconds) && WorldInv(w.(now := w.now + seconds))
    ensures Total(w.(now := w.now + seconds)) == Total(w)
  {
    hide WorldInv, Total;
    StepKeeps(w, Tick(seconds), hash);
    ValidConserves(w, Tick(seconds), hash);
  }

  // ----- three players -----

  datatype Cast = Cast(a: Key, b: Key, c: Key) {
    /** Three players, none of them the default key. */
    predicate Valid() { a != b && a != c && b != c && Avoids(DEFAULT) }

    predicate Avoids(k: Key) { a != k && b != k && c != k }
  }

  /** The slots and entries of three players who joined in this order. */
  predicate Joined(r: Roster, cast: Cast) {
    && r.players == [cast.a, cast.b, cast.c] && r.entries.Keys == {cast.a, cast.b, cast.c}
    && r.entries[cast.a].index == 0 && r.entries[cast.b].index == 1 && r.entries[cast.c].index == 2
    && r.participantCount == 3 && r.revealsCompleted == 0
  }

  function Trio(cast: Cast): Roster {
    Enrol(Enrol(Enrol(EMPTY_ROSTER, cast.a, [], 0), cast.b, [], 0), cast.c, [], 0)
  }

  lemma TrioJoined(cast: Cast)
    requires cast.Valid()
    ensures Joined(Trio(cast), cast)
  {}

  /** An empty tournament that all three can afford to join. */
  predicate Inviting(w: World, id: nat, cast: Cast) {
    && id in w.tours && w.tours[id].phase == Registration && w.tours[id].roster == EMPTY_ROSTER
    && 3 <= w.config.maxParticipants && cast.Valid()
    && w.tours[id].terms.stake <= Balance(w.wallets, cast.a) && w.tours[id].terms.stake <= Balance(w.wallets, cast.b)
    && w.tours[id].terms.stake <= Balance(w.wallets, cast.c)
  }

  /** All three join; each join may change the rent minimum of the grown account. */
  lemma AllJoin(w: World, id: nat, cast: Cast, rent: nat, hash: Hash) returns (actions: seq<Action>, w': World)
    requires WorldInv(w) && Inviting(w, id, cast)
    ensures OwnIds(actions) && w' == RunAll(w, actions, hash)
    ensures var t := w.tours[id];
            Moved(w, w', id, t.(roster := Trio(cast), pool := t.pool + 3 * t.terms.stake,
                                lamports := t.lamports + 3 * t.terms.stake, rentMinimum := rent))
    ensures forall q :: Balance(w.wallets, q) - w.tours[id].terms.stake <= Balance(w'.wallets, q)
  {
    hide WorldInv, Total, Apply, RunAll, Balance;
    var a1, w1 := EnterStep(w, id, cast.a, rent, hash);
    var a2, w2 := EnterStep(w1, id, cast.b, rent, hash);
    var a3, w3 := EnterStep(w2, id, cast.c, rent, hash);
    actions, w' := [a1] + ([a2] + [a3]), w3;
    Prepended(w, a1, [a2] + [a3], hash);
    Prepended(w1, a2, [a3], hash);
    SingleStep(w2, a3, hash);
    assert w'.tours[id].roster == Trio(cast);
  }

  /** Registration is closed as soon as it may be, and the reveal deadline passes. */
  lemma PassDeadlines(w: World, id: nat, hash: Hash) returns (actions: seq<Action>, w': World)
    requires WorldInv(w) && id in w.tours && w.tours[id].phase == Registration
    requires w.config.minParticipants <= w.tours[id].roster.participantCount
    requires w.tours[id].operatorCosts + w.config.operatorTxFee < U64_SIZE
    ensures OwnIds(actions) && w' == RunAll(w, actions, hash) && WorldInv(w') && Total(w') == Total(w)
    ensures w'.config == w.config && w'.wallets == w.wallets && w'.tours == w.tours[id := w'.tours[id]]
    ensures id in w'.tours
    ensures var t, t' := w.tours[id], w'.tours[id];
            && t'.revealEnds < w'.now
            && t' == t.(operatorCosts := t.operatorCosts + w.config.operatorTxFee, phase := Reveal,
                        revealEnds := t'.revealEnds)
  {
    hide WorldInv, Total, Apply, RunAll;
    var t := w.tours[id];
    var wait := if w.now < t.registrationEnds then t.registrationEnds - w.now else 0;
    TickStep(w, wait, hash);
    var w1 := w.(now := w.now + wait);
    var a, w2 := CloseRegistrationStep(w1, id, hash);
    var more := if w2.now <= w2.tours[id].revealEnds then w2.tours[id].revealEnds - w2.now + 1 else 0;
    TickStep(w2, more, hash);
    w' := w2.(now := w2.now + more);
    actions := [Tick(wait)] + ([a] + [Tick(more)]);
    Prepended(w, Tick(wait), [a] + [Tick(more)], hash);
    Prepended(w1, a, [Tick(more)], hash);
    SingleStep(w2, Tick(more), hash);
  }

  // ----- the opening -----

  datatype Start = Start(
    params: InitParams, admin: Key, wallets: Wallets, now: int, configRent: nat, tournamentRent: nat, fee: nat)

  function Opened(s: Start): Result<World> {
    Initialize(s.params, s.admin, s.wallets, s.now, s.configRent, s.tournamentRent)
  }

  const NO_UPDATE := ConfigUpdate(None, None, None, None, None, None, None, None, None)

  /** Initialization, and the operator's transaction fee. */
  function FeeAction(s: Start): Action { UpdateConfig(NO_UPDATE.(operatorTxFee := Some(s.fee))) }

  /** Initialization succeeds, the three can pay two stakes each, and there are fewer than 2^64 lamports. */
  ghost predicate Suitable(s: Start, cast: Cast) {
    && Opened(s).Ok? && s.params.minParticipants == 2 && 3 <= s.params.maxParticipants && s.fee <= 100_000_000
    && cast.Valid() && cast.Avoids(s.admin) && cast.Avoids(s.params.operator) && Sum(s.wallets) < U64_SIZE
    && (forall q :: q in {cast.a, cast.b, cast.c} ==> 2 * s.params.stake <= Balance(s.wallets, q))
  }

  lemma Opening(s: Start, cast: Cast, hash: Hash) returns (w: World)
    requires Suitable(s, cast)
    ensures w == Apply(Opened(s).value, FeeAction(s), hash) && WorldInv(w) && Total(w) == Sum(s.wallets)
    ensures Inviting(w, 0, cast) && w.config.minParticipants == 2 && w.config.operatorTxFee == s.fee
    ensures w.config.operator == s.params.operator && w.config.currentId == 0 && w.config.houseFeeBps == 0
    ensures w.config.stake == s.params.stake
    ensures forall q :: q in {cast.a, cast.b, cast.c} ==> 2 * s.params.stake <= Balance(w.wallets, q)
    ensures var t := w.tours[0];
            && t.terms.stake == s.params.stake && t.terms.houseFeeBps == 0 && t.pool == 0 && t.operatorCosts == 0
            && t.lamports == s.tournamentRent
  {
    hide WorldInv, Total, Sum;
    var p := s.params;
    InitializeInv(p, s.admin, s.wallets, s.now, s.configRent, s.tournamentRent);
    InitializeConserves(p, s.admin, s.wallets, s.now, s.configRent, s.tournamentRent);
    StepKeeps(Opened(s).value, FeeAction(s), hash);
    ValidConserves(Opened(s).value, FeeAction(s), hash);
    w := Apply(Opened(s).value, FeeAction(s), hash);
    forall q | q in {cast.a, cast.b, cast.c} ensures Balance(w.wallets, q) == Balance(s.wallets, q) {
      OthersUntouched(s.wallets, s.admin, -(s.configRent + s.tournamentRent), q);
    }
    var three := {cast.a, cast.b, cast.c};
    assert cast.a in three && cast.b in three && cast.c in three;
  }

  lemma OthersUntouched(wallets: Wallets, k: Key, delta: int, q: Key)
    requires 0 <= Balance(wallets, k) + delta && q != k
    ensures Balance(Adjust(wallets, k, delta), q) == Balance(wallets, q)
  {}

  // ----- a refunded first slot -----

  /** The slots and entries after the first of the three has been refunded. */
  predicate Gapped(r: Roster, cast: Cast) {
    && r.players == [DEFAULT, cast.b, cast.c] && r.entries.Keys == {cast.b, cast.c}
    && r.entries[cast.b].index == 1 && r.entries[cast.c].index == 2 && r.participantCount == 2
  }

  lemma TrioGapped(cast: Cast)
    requires cast.Valid()
    ensures cast.a in Trio(cast).entries && Trio(cast).entries[cast.a].index == 0
    ensures |Trio(cast).players| == |Trio(cast).strategies| == 3
    ensures Trio(cast).entriesRemaining == Trio(cast).participantCount == 3
    ensures Gapped(Blank(Trio(cast), cast.a), cast) && Blank(Trio(cast), cast.a).revealsCompleted == 0
  {
    TrioJoined(cast);
  }

  lemma CarriedGapped(t: Tournament, t': Tournament, cast: Cast)
    requires Carried(t, t') && Gapped(t.roster, cast)
    ensures Gapped(t'.roster, cast)
  {}

  lemma TwoPlayers(configK: nat)
    ensures MatchesFor(2, configK) == 1
  {
    OnceEach(1);
    assert MatchCount(2, 1) == 1;
  }

  /** The first tournament holds the gapped field, funded as the joins left it, and the three can pay another stake. */
  ghost predicate Scene(w: World, s: Start, cast: Cast, rent: nat) {
    && w.tours.Keys == {0} && w.config.currentId == 0 && w.config.minParticipants == 2 && 3 <= w.config.maxParticipants
    && w.config.houseFeeBps == 0 && w.config.operatorTxFee == s.fee && w.config.operator == s.params.operator
    && w.config.stake == s.params.stake
    && (forall q :: q in {cast.a, cast.b, cast.c} ==> s.params.stake <= Balance(w.wallets, q))
    && var t := w.tours[0];
       && Gapped(t.roster, cast) && t.terms.stake == s.params.stake && t.terms.houseFeeBps == 0
       && t.pool == 2 * s.params.stake && t.lamports == s.tournamentRent + 2 * s.params.stake && t.rentMinimum == rent
  }

  lemma SceneOnward(w: World, w': World, s: Start, cast: Cast, rent: nat)
    requires Scene(w, s, cast, rent) && Onward(w, w', 0)
    ensures Scene(w', s, cast, rent)
  {
    hide Balance, Gapped, Budget;
    CarriedGapped(w.tours[0], w'.tours[0], cast);
    forall q | q in {cast.a, cast.b, cast.c} ensures s.params.stake <= Balance(w'.wallets, q) {
      assert Balance(w.wallets, q) <= Balance(w'.wallets, q);
    }
  }

  /** All three join the first tournament and the first of them takes the stake back. */
  lemma MakeGap(s: Start, cast: Cast, rent: nat, hash: Hash) returns (actions: seq<Action>, w: World)
    requires Suitable(s, cast)
    ensures OwnIds(actions) && w == RunAll(Opened(s).value, actions, hash)
    ensures WorldInv(w) && Total(w) < U64_SIZE && Scene(w, s, cast, rent)
    ensures w.tours[0].phase == Registration && w.tours[0].roster.revealsCompleted == 0 && w.tours[0].operatorCosts == 0
  {
    hide WorldInv, Total, Apply, RunAll, Sum, Balance, Opened, Trio, Blank, Gapped;
    var w0 := Opening(s, cast, hash);
    OneTournament(s, hash);
    var joins, w1 := AllJoin(w0, 0, cast, rent, hash);
    TrioGapped(cast);
    var a, w2 := RefundStep(w1, 0, cast.a, hash);
    actions, w := [FeeAction(s)] + (joins + [a]), w2;
    Prepended(Opened(s).value, FeeAction(s), joins + [a], hash);
    RunConcat(w0, joins, [a], hash);
    SingleStep(w1, a, hash);
  }

  lemma OneTournament(s: Start, hash: Hash)
    requires Opened(s).Ok?
    ensures Apply(Opened(s).value, FeeAction(s), hash).tours.Keys == {0}
  {}

  /** Both deadlines pass; what the operator can still spend is nine fees. */
  lemma RevealGap(w: World, s: Start, cast: Cast, rent: nat, seed: Seed, hash: Hash)
    returns (actions: seq<Action>, w': World)
    requires WorldInv(w) && Total(w) < U64_SIZE && Scene(w, s, cast, rent) && s.fee <= 100_000_000
    requires w.tours[0].phase == Registration && w.tours[0].roster.revealsCompleted == 0
    requires w.tours[0].operatorCosts == 0
    ensures OwnIds(actions) && w' == RunAll(w, actions, hash) && Scene(w', s, cast, rent)
    ensures Manageable(w', 0, 0) && w'.tours[0].phase == Reveal && w'.tours[0].revealEnds < w'.now
    ensures PairedWith(w'.tours[0], seed) && Budget(w'.tours[0], w'.config) == 9 * s.fee
  {
    hide WorldInv, Total, RunAll, EffectiveK, MatchCount, AllPaired, Servable, MatchesFor, OwnIds;
    actions, w' := PassDeadlines(w, 0, hash);
    TwoPlayers(w'.tours[0].terms.matchesPerPlayer);
    TournamentPaired(2, w'.tours[0].terms.matchesPerPlayer, seed);
  }

  /** The gapped field is closed, revealed and played to the end. */
  lemma PlayGap(s: Start, cast: Cast, rent: nat, seed: Seed, hash: Hash) returns (actions: seq<Action>, w: World)
    requires Suitable(s, cast)
    ensures OwnIds(actions) && w == RunAll(Opened(s).value, actions, hash)
    ensures Manageable(w, 0, 0) && Complete(w.tours[0], w.now) && Scene(w, s, cast, rent)
    ensures Budget(w.tours[0], w.config) <= 9 * s.fee
  {
    hide WorldInv, Total, Affordable, RunAll, Sum, Opened, Scene, PairedWith, PairedAhead, Budget, Servable;
    var gap, w1 := MakeGap(s, cast, rent, hash);
    var passed, w2 := RevealGap(w1, s, cast, rent, seed, hash);
    var finish;
    finish, w := PlayOn(w2, s, cast, rent, seed, hash);
    actions := gap + (passed + finish);
    RunConcat(Opened(s).value, gap, passed + finish, hash);
    RunConcat(w1, passed, finish, hash);
  }

  lemma PlayOn(w: World, s: Start, cast: Cast, rent: nat, seed: Seed, hash: Hash)
    returns (actions: seq<Action>, w': World)
    requires Manageable(w, 0, 0) && Scene(w, s, cast, rent) && w.tours[0].phase == Reveal
    requires w.tours[0].revealEnds < w.now
    requires PairedWith(w.tours[0], seed)
    ensures OwnIds(actions) && w' == RunAll(w, actions, hash)
    ensures Manageable(w', 0, 0) && Complete(w'.tours[0], w'.now) && Scene(w', s, cast, rent)
    ensures Budget(w'.tours[0], w'.config) <= Budget(w.tours[0], w.config)
  {
    hide WorldInv, Total, Affordable, RunAll, Scene, PairedWith, PairedAhead, Budget, Servable, Carried, Balance, Inv;
    SceneCount(w, s, cast, rent);
    var started, w1 := ToRunning(w, 0, 0, seed, hash);
    SceneOnward(w, w1, s, cast, rent);
    var played;
    played, w' := PlayAll(w1, 0, 0, hash);
    SceneOnward(w1, w', s, cast, rent);
    TournamentInv(w', 0);
    actions := started + played;
    RunConcat(w, started, played, hash);
  }

  lemma SceneCount(w: World, s: Start, cast: Cast, rent: nat)
    requires Scene(w, s, cast, rent)
    ensures 0 in w.tours && w.tours[0].roster.participantCount == 2
  {}

  /** In a complete field of two whose first slot is blank, nobody has played and nobody has a point. */
  lemma NobodyPlays(t: Tournament, now: int, p: Key)
    requires Complete(t, now) && t.roster.participantCount == 2 && p in t.roster.entries
    requires 0 < |t.roster.players| && t.roster.players[0] == DEFAULT
    ensures t.roster.entries[p].matchesPlayed == 0 && t.roster.entries[p].score == 0
  {
    hide Inv, Range;
    TurnoutExact(t, now, p);
    CounterIsFold(t, now, p);
    assert t.roster.entries[p].index == 1 ==> Rivals(t.roster, 1) == {};
    ScoreBounds(t, now, p);
  }

  /** ... so finalization makes both players winners with no points. */
  lemma BothWin(t: Tournament, c: Config, now: int)
    requires Complete(t, now) && t.roster.participantCount == 2 && Finalize(t, c, now).Ok?
    requires 0 < |t.roster.players| && t.roster.players[0] == DEFAULT
    ensures var t' := Finalize(t, c, now).value.t;
            t'.prize.winnerCount == |OpenWinners(t')| == 2 && t'.prize.minWinningScore == 0
  {
    hide Inv, Finalize, OpenWinners, RosterInv, SlotsReaching, TargetWinners, Share;
    var t' := Finalize(t, c, now).value.t;
    RunningSchedule(t, now);
    FinalizeKeeps(t, c, now);
    FinalRoster(t, c, now);
    forall i | 0 <= i < |t.roster.players| && t.roster.players[i] != DEFAULT ensures SlotScore(t.roster, i) == 0 {
      SlotHasEntry(t.roster, i);
      CounterIsFold(t, now, t.roster.players[i]);
      NobodyPlays(t, now, t.roster.players[i]);
      ScoresAreFold(t, now);
    }
    NoPoints(t', now);
  }

  function SlotScore(r: Roster, i: nat): nat { if i < |r.scores| then r.scores[i] else 0 }

  lemma FinalRoster(t: Tournament, c: Config, now: int)
    requires Inv(t, now) && Finalize(t, c, now).Ok?
    ensures Finalize(t, c, now).value.t.roster == t.roster && RosterInv(t.roster)
  {
    hide Inv, Settle, Winners, FinalCosts, RosterInv;
    FinalizeShape(t, c, now);
    RosterOf(t);
  }

  lemma RosterOf(t: Tournament)
    requires LiveInv(t)
    ensures RosterInv(t.roster)
  {
    hide RosterInv;
  }

  /** Where nobody has a point, everybody wins. */
  lemma NoPoints(t: Tournament, now: int)
    requires Inv(t, now) && t.phase == Payout && RosterInv(t.roster)
    requires forall i :: 0 <= i < |t.roster.players| && t.roster.players[i] != DEFAULT ==> SlotScore(t.roster, i) == 0
    ensures t.prize.minWinningScore == 0 && t.prize.winnerCount == t.roster.participantCount
  {
    hide Inv, Range, RosterInv, Linked;
    PayoutWinners(t, now);
    SomeWinner(t, now);
    ActiveCount(t.roster);
    var r, x := t.roster, t.prize.minWinningScore;
    var reaching := SlotsReaching(r.players, r.scores, x);
    assert reaching != {};
    var i :| i in reaching;
    assert SlotScore(r, i) == 0;
    assert reaching == ActiveSlots(r);
  }

  lemma SomeWinner(t: Tournament, now: int)
    requires Inv(t, now) && t.phase == Payout
    ensures 0 < t.prize.winnerCount
  {
    hide Linked, ClaimsInv, Covered, SlotsReaching;
  }

  /** The last join raised the rent minimum by a stake that nobody deposited, and there are costs to reimburse. */
  predicate Short(s: Start, rent: nat) {
    rent == s.tournamentRent + s.params.stake && 0 < s.fee && 9 * s.fee <= s.params.stake && 2 <= s.params.stake
  }

  /**
   From every suitable start a run leads to a complete schedule in which nobody has played, although one
   match each was scheduled; finalizing it makes both players winners with no points. If the account was short
   of its rent it then lacks part of the winner pool.
   */
  lemma NobodyPlaysBothWin(s: Start, cast: Cast, rent: nat, seed: Seed, hash: Hash)
    returns (actions: seq<Action>, w: World)
    requires Suitable(s, cast)
    ensures OwnIds(actions) && w == RunAll(Opened(s).value, actions, hash) && 0 in w.tours
    ensures var t := w.tours[0];
            && Complete(t, w.now) && !Compact(t.roster) && Degree(t) == 1
            && (forall p :: p in t.roster.entries ==> t.roster.entries[p].matchesPlayed == 0)
            && Finalize(t, w.config, w.now).Ok?
            && var t' := Finalize(t, w.config, w.now).value.t;
               && t'.prize.winnerCount == |OpenWinners(t')| == 2 && t'.prize.minWinningScore == 0
               && (Short(s, rent) ==> !Funded(t) && !Solvent(t'))
  {
    hide RunAll, Sum, Opened, WorldInv, Total, Inv, Finalize;
    hide OpenWinners, Balance, Budget, Affordable, Solvent, Suitable;
    actions, w := PlayGap(s, cast, rent, seed, hash);
    var t := w.tours[0];
    FeesFit(w, 0);
    FinalizeSucceeds(t, w.config, w.now);
    BothWin(t, w.config, w.now);
    forall p | p in t.roster.entries ensures t.roster.entries[p].matchesPlayed == 0 { NobodyPlays(t, w.now, p); }
    assert t.roster.players[0] == DEFAULT;
    if Short(s, rent) {
      ShortByAStake(t, w.config, w.now, s.params.stake);
    }
  }

  /** A field of two whose account is one stake short of rent plus pool, with costs to reimburse, ends insolvent. */
  lemma ShortByAStake(t: Tournament, c: Config, now: int, stake: nat)
    requires Complete(t, now) && Finalize(t, c, now).Ok? && t.terms.houseFeeBps == 0
    requires Finalize(t, c, now).value.t.prize.winnerCount == 2
    requires t.pool == 2 * stake && t.lamports == t.rentMinimum + stake && 2 <= stake
    requires 0 < c.operatorTxFee && Budget(t, c) <= stake && t.roster.participantCount == 2
    ensures !Funded(t) && !Solvent(Finalize(t, c, now).value.t)
  {
    hide Inv, Finalize, Solvent, Winners;
    FinalizeSolventIff(t, c, now);
    CostsWithin(t, c, now);
    FinalCount(t, c, now);
    assert HouseFee(t.pool, 0) == 0;
  }

  lemma CostsWithin(t: Tournament, c: Config, now: int)
    requires Complete(t, now) && Finalize(t, c, now).Ok?
    ensures FinalCosts(t, c).Ok? && FinalCosts(t, c).value == Budget(t, c)
    ensures 0 < c.operatorTxFee ==> 0 < FinalCosts(t, c).value
  {
    hide Inv, Finalize, LiveInv, MatchesFor;
    FinalizeShape(t, c, now);
    RunningCounts(t, now);
    LastFees(t.operatorCosts, t.roster.entriesRemaining, c.operatorTxFee);
  }

  lemma LastFees(costs: nat, n: nat, fee: nat)
    ensures costs + fee + (n + 1) * fee == costs + (n + 2) * fee
    ensures fee <= (n + 2) * fee
  {
    MulMonotone(1, n + 2, fee);
    assert (n + 2) * fee == (n + 1) * fee + fee;
  }

  lemma FinalCount(t: Tournament, c: Config, now: int)
    requires Inv(t, now) && Finalize(t, c, now).Ok?
    ensures Shaped(t.roster) && Winners(t.roster).1 == Finalize(t, c, now).value.t.prize.winnerCount
  {
    hide Inv, Settle, Winners, FinalCosts, LiveInv, Finalize;
    FinalizeShape(t, c, now);
  }

  // ----- a refund entry of another tournament -----

  lemma FinalConfig(t: Tournament, c: Config, now: int)
    requires Finalize(t, c, now).Ok?
    ensures var c' := Finalize(t, c, now).value.config;
            c' == c.(accumulatedFees := c'.accumulatedFees, lamports := c'.lamports)
  {
    hide Winners, Settle, FinalCosts;
  }

  /** The first tournament is in payout with the entry of c open in slot 2; the second invites the same three. */
  ghost predicate Sequel(w: World, s: Start, cast: Cast) {
    && WorldInv(w) && Total(w) < U64_SIZE && w.tours.Keys == {0, 1} && Inviting(w, 1, cast)
    && w.tours[1].terms.houseFeeBps == 0 && w.tours[1].operatorCosts == 0
    && w.config.minParticipants == 2 && w.config.operatorTxFee == s.fee
    && cast.c in w.tours[0].roster.entries && w.tours[0].roster.entries[cast.c].index == 2
  }

  lemma FinishFirst(w: World, s: Start, cast: Cast, rent: nat, hash: Hash) returns (a: Action, w': World)
    requires Manageable(w, 0, 0) && Complete(w.tours[0], w.now) && Scene(w, s, cast, rent)
    requires cast.Valid() && cast.Avoids(s.params.operator)
    ensures !a.EndReveal? && w' == Apply(w, a, hash) && Sequel(w', s, cast)
  {
    hide WorldInv, Total, Inv, Finalize, Affordable, CommitFinal, Balance, Apply;
    a := FinalizeTournament(0, 0);
    w' := FinalStep(w, 0, 0, hash);
    var t := w.tours[0];
    FeesFit(w, 0);
    FinalizeSucceeds(t, w.config, w.now);
    FinalizeWallet(t, w.config, w.now);
    FinalCommits(w, 0, 0);
    FinalConfig(t, w.config, w.now);
    FinalRoster(t, w.config, w.now);
    var three := {cast.a, cast.b, cast.c};
    assert cast.a in three && cast.b in three && cast.c in three;
  }

  /** All three join the second tournament, its deadlines pass, and everybody is revealed. */
  lemma MeetAgain(w: World, s: Start, cast: Cast, hash: Hash) returns (actions: seq<Action>, w': World)
    requires Sequel(w, s, cast) && s.fee <= 100_000_000
    ensures OwnIds(actions) && w' == RunAll(w, actions, hash) && WorldInv(w') && w'.tours.Keys == {0, 1}
    ensures Due(w', 1) && w'.tours[1].roster.players == [cast.a, cast.b, cast.c]
    ensures w'.tours[1].roster.participantCount == 3
    ensures w'.tours[0] == w.tours[0]
  {
    hide WorldInv, Total, Apply, RunAll, Balance, Trio, Enrol, Budget;
    var joins, w1 := AllJoin(w, 1, cast, 0, hash);
    TrioJoined(cast);
    var passed, w2 := PassDeadlines(w1, 1, hash);
    ThreeAffordable(w2.tours[1], w2.config, s.fee);
    var forfeits, w3 := RevealAll(w2, 1, 0, hash);
    actions, w' := joins + (passed + forfeits), w3;
    RunConcat(w, joins, passed + forfeits, hash);
    RunConcat(w1, passed, forfeits, hash);
    ChargesOnce(w3.tours[1], w3.config);
  }

  lemma ThreeAffordable(t: Tournament, c: Config, fee: nat)
    requires t.phase == Reveal && t.roster.participantCount == 3 && t.roster.revealsCompleted == 0
    requires t.operatorCosts == fee == c.operatorTxFee <= 100_000_000 && t.terms.houseFeeBps == 0
    ensures Affordable(t, c)
  {
    TwoPlayers(t.terms.matchesPerPlayer);
    hide MatchesFor;
  }

  lemma ChargesOnce(t: Tournament, c: Config)
    requires Affordable(t, c) && t.phase == Reveal && t.roster.revealsCompleted == t.roster.participantCount
    ensures t.operatorCosts + c.operatorTxFee < U64_SIZE
  {
    hide MatchesFor;
    FeeCovered(t.operatorCosts, c.operatorTxFee, Outstanding(t), 1);
  }

  /**
   From every suitable start a run with own refunds only leads to a world in which closing the reveal phase
   of tournament 1 with c's entry of tournament 0 succeeds. Whatever happens afterwards, tournament 0 counts
   an entry that no longer exists and can never be closed.
   */
  lemma ForeignRefundAccepted(s: Start, cast: Cast, seed: Seed, hash: Hash)
    returns (actions: seq<Action>, w: World, w': World)
    requires Suitable(s, cast)
    ensures OwnIds(actions) && w == RunAll(Opened(s).value, actions, hash) && WorldInv(w)
    ensures Foreign(w, EndReveal(1, Some(EntryRef(0, cast.c)), Some(seed)))
    ensures Step(w, EndReveal(1, Some(EntryRef(0, cast.c)), Some(seed)), hash) == Ok(w')
    ensures forall later :: Stuck(RunAll(w', later, hash), 0) && !WorldInv(RunAll(w', later, hash))
  {
    hide RunAll, Opened, WorldInv, Sequel, Scene, Sum, Balance, Step, Stuck, Manageable, Complete, CommitReveal;
    var played, w1 := PlayGap(s, cast, 0, seed, hash);
    var final, w2 := FinishFirst(w1, s, cast, 0, hash);
    var again;
    again, w := MeetAgain(w2, s, cast, hash);
    actions := played + ([final] + again);
    RunConcat(Opened(s).value, played, [final] + again, hash);
    Prepended(w1, final, again, hash);
    var a := EndReveal(1, Some(EntryRef(0, cast.c)), Some(seed));
    TwinOfThree(w2, w, s, cast);
    ForeignAcceptedIff(w, 1, EntryRef(0, cast.c), seed, hash);
    RefundedIsStep(w, a, hash);
    ForeignStuck(w, a);
    w' := Refunded(w, a);
    forall later ensures Stuck(RunAll(w', later, hash), 0) && !WorldInv(RunAll(w', later, hash)) {
      StuckForever(w', later, hash, 0);
    }
  }

  lemma TwinOfThree(w: World, w': World, s: Start, cast: Cast)
    requires Sequel(w, s, cast) && w'.tours.Keys == {0, 1} && w'.tours[0] == w.tours[0]
    requires w'.tours[1].roster.players == [cast.a, cast.b, cast.c]
    ensures LastSlotTwin(w', 1, EntryRef(0, cast.c))
  {
    hide WorldInv, Total;
    assert LastActive(w'.tours[1].roster.players) == Some(2);
  }

  /** Such a tournament cannot be closed. */
  lemma StuckStays(w: World, id: nat, hash: Hash)
    requires Stuck(w, id)
    ensures || Step(w, CloseAll(id), hash) == Err(EntriesRemaining)
            || Step(w, CloseAll(id), hash) == Err(TournamentNotCloseable)
  {}

  // ----- a suitable start -----

  const EXAMPLE_WALLETS: Wallets := map[][1 := 200][2 := 200][3 := 200][9 := 5000]

  /** Players 1, 2 and 3 with 200 lamports each, stake 50, operator 8, admin 9, a fee of 5 per transaction. */
  const EXAMPLE := Start(InitParams(8, 50, 2, 5000, 60, 10, 60), 9, EXAMPLE_WALLETS, 0, 1000, 1000, 5)

  lemma ExampleSuits()
    ensures Suitable(EXAMPLE, Cast(1, 2, 3)) && Short(EXAMPLE, 1050)
  {
    hide Sum;
    var none: Wallets := map[];
    NoCoins();
    SumUpdate(none, 1, 200);
    SumUpdate(none[1 := 200], 2, 200);
    SumUpdate(none[1 := 200][2 := 200], 3, 200);
    SumUpdate(none[1 := 200][2 := 200][3 := 200], 9, 5000);
  }

  lemma NoCoins()
    ensures Sum<Key>(map[]) == 0
  {}
}
