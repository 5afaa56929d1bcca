/** Consequences over whole runs: one fold of matches, lasting solvency, no aborts, binding commitments. */
module Guarantees {
  import opened Options
  import opened Rng
  import opened Counting
  import opened Schedule
  import opened Codec
  import opened Accounts
  import opened Ledger
  import opened Rosters
  import opened Replays
  import opened Batches
  import opened Prizes
  import opened Protocol
  import opened Safety
  import opened Closing
  import opened Worlds
  import opened Runs

  // ----- reachable states -----

  /**
   From initialization on, whatever is attempted in whatever order, the invariant holds unless a refund
   was foreign.
   */
  lemma Reachable(p: InitParams, admin: Key, wallets: Wallets, now: int, configRent: nat, tournamentRent: nat,
                  actions: seq<Action>, hash: Hash)
    requires Initialize(p, admin, wallets, now, configRent, tournamentRent).Ok?
    ensures var w := Initialize(p, admin, wallets, now, configRent, tournamentRent).value;
            WorldInv(RunAll(w, actions, hash)) <==> OwnRun(w, actions, hash)
  {
    hide WorldInv, Initialize, RunAll, OwnRun;
    InitializeInv(p, admin, wallets, now, configRent, tournamentRent);
    RunKeeps(Initialize(p, admin, wallets, now, configRent, tournamentRent).value, actions, hash);
  }

  /** Slots in use whose strategy has been revealed. */
  function RevealedSlots(r: Roster): set<int>
    requires Shaped(r)
  {
    set i | i in ActiveSlots(r) && r.strategies[i] != HIDDEN
  }

  lemma RevealedCount(r: Roster)
    requires RosterInv(r)
    ensures r.revealsCompleted == |RevealedSlots(r)|
  {
    hide Range, Validate;
    forall p | p in r.entries ensures p in Revealed(r.entries) <==> r.entries[p].index in RevealedSlots(r) {
      assert EntryLinked(r, p);
    }
    SlotsMatchEntries(r, Revealed(r.entries), RevealedSlots(r));
  }

  /** Before payout every counter is the number it stands for, read off the slot vectors alone. */
  lemma CountersExact(t: Tournament, now: int)
    requires Inv(t, now) && t.phase != Payout
    ensures |t.roster.players| == |t.roster.scores| == |t.roster.strategies|
    ensures t.roster.participantCount == t.roster.entriesRemaining == |ActiveSlots(t.roster)|
    ensures t.roster.revealsCompleted == |RevealedSlots(t.roster)|
    ensures t.pool == t.terms.stake * |ActiveSlots(t.roster)| <= t.lamports
  {
    hide Inv, Range, EntryLinked, Filled, Blanked, Revealed, RevealedSlots, ActiveSlots;
    LiveInvOfPhase(t, now);
    ActiveCount(t.roster);
    RevealedCount(t.roster);
  }

  /** Once running, the field is even and nonempty; the empty-field branches are never taken. */
  lemma FieldNeverEmpty(t: Tournament, c: Config, now: int)
    requires Inv(t, now) && (t.phase == Running || t.phase == Payout)
    ensures EvenField(t.roster.participantCount)
    ensures Finalize(t, c, now).Ok? ==> Finalize(t, c, now) == FinalizeWinners(t, c, now, FinalCosts(t, c).value)
  {
    hide LiveInv, DrawInv, WinnersInv, Linked, ClaimsInv, Covered, FinalizeWinners;
  }

  // ----- how a tournament evolves -----

  function Rank(p: Phase): nat {
    match p
    case Registration => 0
    case Reveal => 1
    case Running => 2
    case Payout => 3
  }

  /** While running, the fixture is fixed and matches only accumulate. */
  ghost predicate SameDraw(t: Tournament, t': Tournament) {
    && Filled(t.roster) && Filled(t'.roster)
    && FixtureOf(t'.roster, t'.draw) == FixtureOf(t.roster, t.draw) && t'.roster.players == t.roster.players
    && t'.roster.strategies == t.roster.strategies
    && t'.draw.matchesTotal == t.draw.matchesTotal && t.draw.matchesCompleted <= t'.draw.matchesCompleted
  }

  /** During payout the outcome is fixed, entries only close and claims only accumulate. */
  ghost predicate SameOutcome(t: Tournament, t': Tournament) {
    && t'.prize == t.prize.(claimsProcessed := t'.prize.claimsProcessed)
    && t.prize.claimsProcessed <= t'.prize.claimsProcessed
    && t'.roster.players == t.roster.players && t'.roster.scores == t.roster.scores
    && t'.rentMinimum == t.rentMinimum && t'.roster.entries.Keys <= t.roster.entries.Keys
    && (Solvent(t) ==> Solvent(t'))
  }

  /** The roster as the whole schedule leaves it: one fold over all match indices. */
  ghost function PlayedOut(t: Tournament): Roster
    requires Filled(t.roster) && FixtureOf(t.roster, t.draw).Valid()
  {
    t.roster.(scores := Replay(FixtureOf(t.roster, t.draw), t.draw.matchesTotal).scores)
  }

  /** The outcome of a running tournament is fixed in advance by its players and its fixture. */
  ghost predicate Decided(t: Tournament, t': Tournament) {
    && Filled(t.roster) && FixtureOf(t.roster, t.draw).Valid() && Shaped(PlayedOut(t))
    && t'.roster.players == t.roster.players && t'.roster.scores == PlayedOut(t).scores
    && (t'.prize.minWinningScore, t'.prize.winnerCount) == Winners(PlayedOut(t))
  }

  /** Phases never go back; terms never change. */
  ghost predicate Evolves(t: Tournament, t': Tournament) {
    && Rank(t.phase) <= Rank(t'.phase) && t'.terms == t.terms
    && (t.phase == Running && t'.phase == Running ==> SameDraw(t, t'))
    && (t.phase == Running && t'.phase == Payout ==> Decided(t, t'))
    && (t.phase == Payout ==> SameOutcome(t, t'))
  }

  lemma EvolvesTransitive(t0: Tournament, t1: Tournament, t2: Tournament)
    requires Evolves(t0, t1) && Evolves(t1, t2)
    ensures Evolves(t0, t2)
  {
    hide Solvent, Filled, Decided, SameDraw, SameOutcome;
    if t0.phase == Running && t1.phase == Running && t2.phase == Running { SameDrawTransitive(t0, t1, t2); }
    if t0.phase == Running && t1.phase == Running && t2.phase == Payout { DecidedBefore(t0, t1, t2); }
    if t0.phase == Running && t1.phase == Payout { DecidedAfter(t0, t1, t2); }
    if t0.phase == Payout { SameOutcomeTransitive(t0, t1, t2); }
  }

  lemma SameDrawTransitive(t0: Tournament, t1: Tournament, t2: Tournament)
    requires SameDraw(t0, t1) && SameDraw(t1, t2)
    ensures SameDraw(t0, t2)
  {
    hide FixtureOf, Filled;
  }

  lemma SameOutcomeTransitive(t0: Tournament, t1: Tournament, t2: Tournament)
    requires SameOutcome(t0, t1) && SameOutcome(t1, t2)
    ensures SameOutcome(t0, t2)
  {
    hide Solvent;
  }

  lemma DecidedBefore(t0: Tournament, t1: Tournament, t2: Tournament)
    requires SameDraw(t0, t1) && Decided(t1, t2)
    ensures Decided(t0, t2)
  {
    hide Filled, Occupants, Replay, Servable, SortDown, ActiveScores, CountAtLeast, TargetWinners;
  }

  lemma DecidedAfter(t0: Tournament, t1: Tournament, t2: Tournament)
    requires Decided(t0, t1) && SameOutcome(t1, t2)
    ensures Decided(t0, t2)
  {
    hide Filled, Winners, PlayedOut, Solvent;
  }

  lemma EvolvesReflexive(t: Tournament, now: int)
    requires Inv(t, now)
    ensures Evolves(t, t)
  {
    hide Solvent, FixtureOf, RosterInv, Synced, Linked;
    if t.phase == Running { InvIsFilled(t.roster); }
  }

  lemma BatchSameDraw(t: Tournament, c: Config, now: int, accounts: set<Key>)
    requires Inv(t, now) && RunMatches(t, c, accounts).Ok?
    ensures SameDraw(t, RunMatches(t, c, accounts).value.t)
    ensures RunMatches(t, c, accounts).value.t.terms == t.terms && RunMatches(t, c, accounts).value.t.phase == Running
  {
    hide PlayBatch, LiveInv, DrawInv, NoneHidden, FixtureOf, Filled;
    DrawIsReady(t, now);
    var count := Min(MATCHES_PER_TX, t.draw.matchesTotal - t.draw.matchesCompleted);
    if count > 0 {
      BatchFixture(t, count, accounts);
      var t' := RunMatches(t, c, accounts).value.t;
      SyncedIgnoresProgress(t'.roster, t.draw, t'.draw, 0);
    }
  }

  lemma DrawIsReady(t: Tournament, now: int)
    requires Inv(t, now) && t.phase == Running
    ensures LiveInv(t) && DrawInv(t) && Filled(t.roster)
  {
    hide LiveInv, Synced, FixtureOf, Filled;
  }

  lemma BatchFixture(t: Tournament, count: nat, accounts: set<Key>)
    requires LiveInv(t) && DrawInv(t) && PlayBatch(t.roster, t.draw, t.draw.matchesCompleted, count, accounts).Ok?
    ensures var r := PlayBatch(t.roster, t.draw, t.draw.matchesCompleted, count, accounts).value;
            Filled(r) && FixtureOf(r, t.draw) == FixtureOf(t.roster, t.draw) && r.players == t.roster.players
            && r.strategies == t.roster.strategies
  {
    PlayBatchSynced(t.roster, t.draw, t.draw.matchesCompleted, count, accounts);
  }

  lemma CloseOutOutcome(t: Tournament, p: Key, amount: nat, claim: bool)
    requires p in t.roster.entries && 0 < t.roster.entriesRemaining && amount <= t.lamports
    requires Solvent(t) ==> Solvent(CloseOut(t, p, amount, claim))
    ensures SameOutcome(t, CloseOut(t, p, amount, claim))
  {
    hide Solvent;
  }

  lemma InstructionEvolves(t: Tournament, c: Config, now: int, o: Order, hash: Hash)
    requires Inv(t, now) && Instruction(t, c, now, o, hash).Ok?
    ensures Evolves(t, Instruction(t, c, now, o, hash).value.t)
  {
    hide Inv, SameDraw, Solvent, Enrol, Blank, MarkRevealed, PlayBatch, FromIndex, Share, Vacatable;
    hide RunMatches, CloseSlot;
    match o
    case RunBatch(accounts) =>
      RunningOnly(t, c, accounts);
      BatchSameDraw(t, c, now, accounts);
    case Claim(p) =>
      ClaimPayoutKeeps(t, c, now, p);
      CloseOutOutcome(t, p, Share(t), true);
    case CloseOne(p) =>
      CloseEntryKeeps(t, c, now, p);
      CloseEntryOutcome(t, c, now, p);
    case _ =>
  }

  lemma RunningOnly(t: Tournament, c: Config, accounts: set<Key>)
    requires RunMatches(t, c, accounts).Ok?
    ensures t.phase == Running
  {}

  lemma CloseRevealTerms(t: Tournament, c: Config, now: int, refund: Option<Supplied>, slot: Option<Seed>)
    requires CloseReveal(t, c, now, refund, slot).Ok?
    ensures CloseReveal(t, c, now, refund, slot).value.t.terms == t.terms
  {
    hide Vacate, LastActive, Vacatable;
  }

  lemma CloseEntryOutcome(t: Tournament, c: Config, now: int, p: Key)
    requires CloseEntry(t, c, now, p).Ok?
    requires Solvent(t) ==> Solvent(CloseEntry(t, c, now, p).value.t)
    ensures t.phase == Payout && SameOutcome(t, CloseEntry(t, c, now, p).value.t)
    ensures CloseEntry(t, c, now, p).value.t.terms == t.terms && CloseEntry(t, c, now, p).value.t.phase == Payout
  {
    hide Solvent, Share;
  }

  lemma StepEvolves(w: World, a: Action, hash: Hash, id: nat)
    requires WorldInv(w) && !(Foreign(w, a) && Step(w, a, hash).Ok?) && id in w.tours && id in Apply(w, a, hash).tours
    ensures Evolves(w.tours[id], Apply(w, a, hash).tours[id])
  {
    hide Inv, Instruction, CloseReveal, Evolves, Finalize, CloseTournament, Withdraw, Updated, ConfigInv;
    assert TourInv(w, id);
    var t := w.tours[id];
    EvolvesReflexive(t, w.now);
    match a
    case On(i, o) =>
      if i == id && Step(w, a, hash).Ok? {
        InstructionEvolves(t, w.config, w.now, o, hash);
      }
    case EndReveal(i, refund, slot) =>
      if i == id && Step(w, a, hash).Ok? {
        RevealEvolves(t, w.config, w.now, Resolve(w, id, refund).value, slot);
      }
    case FinalizeTournament(i, nextRent) =>
      if i == id && Step(w, a, hash).Ok? {
        FinalizeEvolves(t, w.config, w.now);
      }
    case _ =>
  }

  lemma RevealEvolves(t: Tournament, c: Config, now: int, refund: Option<Supplied>, slot: Option<Seed>)
    requires CloseReveal(t, c, now, refund, slot).Ok?
    ensures Evolves(t, CloseReveal(t, c, now, refund, slot).value.t)
  {
    hide CloseReveal;
    CloseRevealConfig(t, c, now, refund, slot);
    CloseRevealTerms(t, c, now, refund, slot);
  }

  lemma FinalizeEvolves(t: Tournament, c: Config, now: int)
    requires Inv(t, now) && Finalize(t, c, now).Ok?
    ensures Evolves(t, Finalize(t, c, now).value.t)
  {
    hide Inv, Decided, Finalize;
    FinalizeConfig(t, c, now);
    FinalizeTerms(t, c, now);
    FinalizeDecides(t, c, now);
  }

  lemma FinalizeTerms(t: Tournament, c: Config, now: int)
    requires Finalize(t, c, now).Ok?
    ensures Finalize(t, c, now).value.t.terms == t.terms && t.draw.matchesTotal <= t.draw.matchesCompleted
  {
    hide Winners, Settle, FinalCosts;
  }

  lemma FinalizeDecides(t: Tournament, c: Config, now: int)
    requires Inv(t, now) && Finalize(t, c, now).Ok?
    ensures Decided(t, Finalize(t, c, now).value.t)
  {
    hide Inv, Winners, Settle, FinalCosts, Replay, FixtureOf, Filled, Finalize;
    FinalizeShape(t, c, now);
    FinalizeTerms(t, c, now);
    DrawInProgress(t, now);
    ScoresAreFold(t, now);
    assert PlayedOut(t) == t.roster;
  }

  /** Across any run a tournament that still exists has only evolved. */
  lemma {:induction false} RunEvolves(w: World, actions: seq<Action>, hash: Hash, id: nat)
    requires WorldInv(w) && OwnRun(w, actions, hash) && id in w.tours && id in RunAll(w, actions, hash).tours
    ensures Evolves(w.tours[id], RunAll(w, actions, hash).tours[id])
    decreases |actions|
  {
    hide WorldInv, Apply, Step, Foreign, Evolves;
    if actions == [] {
      TournamentEvolves(w, id);
    } else {
      var w1 := Apply(w, actions[0], hash);
      StepKeeps(w, actions[0], hash);
      NeverReopens(w, id);
      if id in w1.tours {
        StepEvolves(w, actions[0], hash, id);
        RunEvolves(w1, actions[1..], hash, id);
        EvolvesTransitive(w.tours[id], w1.tours[id], RunAll(w, actions, hash).tours[id]);
      } else {
        ClosedStaysClosed(w, actions[0], hash, id);
        GoneForever(w1, actions[1..], hash, id);
      }
    }
  }

  lemma TournamentEvolves(w: World, id: nat)
    requires WorldInv(w) && id in w.tours
    ensures Evolves(w.tours[id], w.tours[id])
  {
    hide Evolves, Inv;
    assert TourInv(w, id);
    EvolvesReflexive(w.tours[id], w.now);
  }

  lemma NeverReopens(w: World, id: nat)
    requires WorldInv(w) && id in w.tours
    ensures id <= w.config.currentId
  {
    hide Inv;
    assert TourInv(w, id);
  }

  /** The current id never decreases, so a closed tournament keeps an id that is never used again. */
  lemma ClosedStaysClosed(w: World, a: Action, hash: Hash, id: nat)
    requires id <= w.config.currentId
    ensures w.config.currentId <= Apply(w, a, hash).config.currentId
    ensures id !in w.tours ==> id !in Apply(w, a, hash).tours
  {
    hide Instruction, CloseReveal, Finalize;
    if Step(w, a, hash).Ok? {
      match a
      case On(i, o) => InstructionConfig(w.tours[i], w.config, w.now, o, hash);
      case EndReveal(i, refund, slot) =>
        CloseRevealConfig(w.tours[i], w.config, w.now, Resolve(w, i, refund).value, slot);
      case FinalizeTournament(i, nextRent) => FinalizeConfig(w.tours[i], w.config, w.now);
      case _ =>
    }
  }

  lemma {:induction false} GoneForever(w: World, actions: seq<Action>, hash: Hash, id: nat)
    requires id !in w.tours && id <= w.config.currentId
    ensures id !in RunAll(w, actions, hash).tours
    decreases |actions|
  {
    hide Apply;
    if actions != [] {
      ClosedStaysClosed(w, actions[0], hash, id);
      GoneForever(Apply(w, actions[0], hash), actions[1..], hash, id);
    }
  }

  // ----- matches -----

  /** In every running state both copies of the scores are the fold over the matches completed. */
  lemma ScoresAreFold(t: Tournament, now: int)
    requires Inv(t, now) && t.phase == Running
    ensures Filled(t.roster) && Shaped(t.roster) && FixtureOf(t.roster, t.draw).Valid()
    ensures t.roster.scores == Replay(FixtureOf(t.roster, t.draw), t.draw.matchesCompleted).scores
    ensures forall p :: p in t.roster.entries ==>
              && t.roster.entries[p].index < |t.roster.scores|
              && t.roster.entries[p].score == t.roster.scores[t.roster.entries[p].index]
  {
    hide Replay, FixtureOf, Servable, EffectiveK, MatchCount;
    forall p | p in t.roster.entries
      ensures t.roster.entries[p].index < |t.roster.scores|
      ensures t.roster.entries[p].score == t.roster.scores[t.roster.entries[p].index]
    {
      assert EntryLinked(t.roster, p);
    }
  }

  /**
   Whatever the batches, the interleaving and the other tournaments, a schedule that has been
   played to the end leaves the scores of one fold over all match indices.
   */
  lemma OneFold(w: World, actions: seq<Action>, hash: Hash, id: nat)
    requires WorldInv(w) && OwnRun(w, actions, hash) && id in w.tours && w.tours[id].phase == Running
    requires var w' := RunAll(w, actions, hash);
             && id in w'.tours && w'.tours[id].phase == Running
             && w'.tours[id].draw.matchesCompleted == w'.tours[id].draw.matchesTotal
    ensures var t, t' := w.tours[id], RunAll(w, actions, hash).tours[id];
            && Filled(t.roster) && FixtureOf(t.roster, t.draw).Valid()
            && t'.roster.scores == Replay(FixtureOf(t.roster, t.draw), t.draw.matchesTotal).scores
  {
    RunKeeps(w, actions, hash);
    RunEvolves(w, actions, hash, id);
    var w' := RunAll(w, actions, hash);
    assert TourInv(w, id) && TourInv(w', id);
    hide RunAll, OwnRun, WorldInv, Inv, FixtureOf, Replay;
    ScoresAreFold(w.tours[id], w.now);
    ScoresAreFold(w'.tours[id], w'.now);
  }

  /**
   Two runs from the same running world that both bring the tournament to payout, whatever their batches and
   whatever else happens in them, end with the same scores, threshold, number of winners and winning slots.
   */
  lemma OneOutcome(w: World, actions: seq<Action>, actions': seq<Action>, hash: Hash, id: nat)
    requires WorldInv(w) && OwnRun(w, actions, hash) && OwnRun(w, actions', hash)
    requires id in w.tours && w.tours[id].phase == Running
    requires id in RunAll(w, actions, hash).tours && RunAll(w, actions, hash).tours[id].phase == Payout
    requires id in RunAll(w, actions', hash).tours && RunAll(w, actions', hash).tours[id].phase == Payout
    ensures Decided(w.tours[id], RunAll(w, actions, hash).tours[id])
    ensures var t, t' := RunAll(w, actions, hash).tours[id], RunAll(w, actions', hash).tours[id];
            && t.prize.minWinningScore == t'.prize.minWinningScore && t.prize.winnerCount == t'.prize.winnerCount
            && t.roster.players == t'.roster.players && t.roster.scores == t'.roster.scores
            && |t.roster.players| == |t.roster.scores|
            && t.prize.winnerCount == |SlotsReaching(t.roster.players, t.roster.scores, t.prize.minWinningScore)|
  {
    hide WorldInv, RunAll, OwnRun, Filled, Winners, PlayedOut, Inv, SlotsReaching;
    RunEvolves(w, actions, hash, id);
    RunEvolves(w, actions', hash, id);
    RunKeeps(w, actions, hash);
    var w' := RunAll(w, actions, hash);
    TournamentInv(w', id);
    PayoutWinners(w'.tours[id], w'.now);
  }

  lemma PayoutWinners(t: Tournament, now: int)
    requires Inv(t, now) && t.phase == Payout
    ensures |t.roster.players| == |t.roster.scores|
    ensures t.prize.winnerCount == |SlotsReaching(t.roster.players, t.roster.scores, t.prize.minWinningScore)|
  {
    hide Linked, ClaimsInv, Covered, SlotsReaching;
  }

  /** The top quarter: at least a quarter of the field reaches the threshold, less than a quarter exceeds it. */
  lemma TopQuarter(t: Tournament, now: int)
    requires Inv(t, now) && t.phase == Payout
    ensures |t.roster.players| == |t.roster.scores|
    ensures var r, x := t.roster, t.prize.minWinningScore;
            && t.prize.winnerCount == |SlotsReaching(r.players, r.scores, x)|
            && r.participantCount <= 4 * t.prize.winnerCount
            && 4 * |SlotsReaching(r.players, r.scores, x + 1)| < r.participantCount
  {
    hide Linked, ClaimsInv, Covered, SlotsReaching, TargetWinners;
  }

  /** However large the field, no entry exceeds 199 matches or 250 points per match. */
  lemma ScoreBounds(t: Tournament, now: int, p: Key)
    requires Inv(t, now) && t.phase == Running && p in t.roster.entries
    ensures t.roster.entries[p].matchesPlayed <= 199
    ensures t.roster.entries[p].score <= MAX_MATCH_SCORE * t.roster.entries[p].matchesPlayed
  {
    hide Inv, Ready;
    RunningReady(t, now);
    EntryBounds(t.roster, t.draw, t.terms.matchesPerPlayer, t.draw.matchesCompleted, p);
  }

  // ----- payouts -----

  /**
   After any finalization, funded or not, and in every later state, every open winner of the tournament
   can claim exactly the share fixed at finalization until claims expire.
   */
  lemma WinnersCanClaim(w: World, actions: seq<Action>, hash: Hash, id: nat, p: Key)
    requires WorldInv(w) && OwnRun(w, actions, hash) && id in w.tours && w.tours[id].phase == Payout
    requires var w' := RunAll(w, actions, hash);
             id in w'.tours && p in OpenWinners(w'.tours[id]) && w'.now < Expiry(w'.tours[id])
    ensures var w' := RunAll(w, actions, hash);
            var t' := w'.tours[id];
            && p in t'.roster.entries && ClaimPayout(t', w'.config, w'.now, p).Ok?
            && ClaimPayout(t', w'.config, w'.now, p).value.delta == Share(w.tours[id]) + t'.roster.entries[p].lamports
  {
    hide WorldInv, RunAll, OwnRun, Solvent, OpenWinners, Inv;
    var w' := RunAll(w, actions, hash);
    RunKeeps(w, actions, hash);
    RunEvolves(w, actions, hash, id);
    TournamentInv(w', id);
    InTimeWinnerPaid(w'.tours[id], w'.config, w'.now, p);
  }

  /** Once solvent in payout, solvent in every later state of every run until the account is closed. */
  lemma SolventForever(w: World, actions: seq<Action>, hash: Hash, id: nat)
    requires WorldInv(w) && OwnRun(w, actions, hash)
    requires id in w.tours && w.tours[id].phase == Payout && Solvent(w.tours[id])
    requires id in RunAll(w, actions, hash).tours
    ensures RunAll(w, actions, hash).tours[id].phase == Payout && Solvent(RunAll(w, actions, hash).tours[id])
    ensures Share(RunAll(w, actions, hash).tours[id]) == Share(w.tours[id])
  {
    hide WorldInv, RunAll, OwnRun, Solvent;
    RunEvolves(w, actions, hash, id);
  }

  /**
   A funded finalization is followed by solvency for good: in every later state the operator closing an
   open winner in time pays exactly what the winner's own claim would.
   */
  lemma FundedWinnersPaid(w: World, nextRent: nat, actions: seq<Action>, hash: Hash, id: nat, p: Key)
    requires WorldInv(w) && id in w.tours && Funded(w.tours[id]) && w.tours[id].lamports < U64_SIZE
    requires Step(w, FinalizeTournament(id, nextRent), hash).Ok?
    requires OwnRun(Step(w, FinalizeTournament(id, nextRent), hash).value, actions, hash)
    requires var w1 := Step(w, FinalizeTournament(id, nextRent), hash).value;
             var w' := RunAll(w1, actions, hash);
             id in w'.tours && p in OpenWinners(w'.tours[id]) && w'.now < Expiry(w'.tours[id])
    ensures var w1 := Step(w, FinalizeTournament(id, nextRent), hash).value;
            var w' := RunAll(w1, actions, hash);
            var t' := w'.tours[id];
            id in w1.tours && p in t'.roster.entries
            && CloseEntry(t', w'.config, w'.now, p).Ok?
            && CloseEntry(t', w'.config, w'.now, p).value.delta == Share(w1.tours[id]) + t'.roster.entries[p].lamports
            && CloseEntry(t', w'.config, w'.now, p) == ClaimPayout(t', w'.config, w'.now, p)
  {
    var w1 := Step(w, FinalizeTournament(id, nextRent), hash).value;
    FinalizeStepSolvent(w, nextRent, hash, id);
    StepKeeps(w, FinalizeTournament(id, nextRent), hash);
    hide Step, WorldInv, Solvent, RunAll, OwnRun, Inv, OpenWinners;
    var w' := RunAll(w1, actions, hash);
    RunKeeps(w1, actions, hash);
    SolventForever(w1, actions, hash, id);
    TournamentInv(w', id);
    InTimeWinnerPaid(w'.tours[id], w'.config, w'.now, p);
  }

  lemma FinalizeStepSolvent(w: World, nextRent: nat, hash: Hash, id: nat)
    requires WorldInv(w) && id in w.tours && Funded(w.tours[id]) && w.tours[id].lamports < U64_SIZE
    requires Step(w, FinalizeTournament(id, nextRent), hash).Ok?
    ensures var w1 := Step(w, FinalizeTournament(id, nextRent), hash).value;
            id in w1.tours && w1.tours[id].phase == Payout && Solvent(w1.tours[id])
  {
    hide Inv, Solvent, Finalize, Funded;
    assert TourInv(w, id);
    FinalizeSolvent(w.tours[id], w.config, w.now);
    FinalizeConfig(w.tours[id], w.config, w.now);
  }

  /** A tournament in payout with all entries closed can be closed: never "not closeable". */
  lemma AlwaysCloseable(w: World, hash: Hash, id: nat)
    requires WorldInv(w) && id in w.tours && w.tours[id].phase == Payout && w.tours[id].roster.entriesRemaining == 0
    requires w.config.accumulatedFees + w.tours[id].lamports < U64_SIZE
    ensures Step(w, CloseAll(id), hash).Ok?
  {
    hide Inv, WorldInv, CloseTournament, Commit, CommitReveal, CommitFinal, Instruction, Updated, Withdraw;
    TournamentInv(w, id);
    CloseTournamentReady(w.tours[id], w.config, w.now);
  }

  // ----- no aborts -----

  /** In a reachable state no instruction indexes out of bounds, divides by zero or underflows. */
  lemma InstructionNeverAborts(t: Tournament, c: Config, now: int, o: Order, hash: Hash)
    requires Inv(t, now)
    ensures Instruction(t, c, now, o, hash) != Err(Aborted)
  {
    hide Inv, Validate, Share, RunMatches, RosterInv, FromIndex, OpenWinners;
    match o
    case EnterTournament(_, _, _, _, _) =>
    case ClaimRefund(p) => if t.phase == Registration && p in t.roster.entries { RefundSucceeds(t, c, now, p); }
    case EndRegistration =>
    case RevealChoice(p, _, _, _) => if t.phase == Reveal && p in t.roster.entries { LiveEntryInRange(t, now, p); }
    case ForfeitUnrevealed(p, _) => if t.phase == Reveal && p in t.roster.entries { LiveEntryInRange(t, now, p); }
    case RunBatch(accounts) =>
      if t.phase == Running { RunMatchesOutcome(t, c, now, accounts); } else { RunsOnlyRunning(t, c, accounts); }
    case Claim(p) =>
      if t.phase == Payout && p in t.roster.entries && IsWinner(t, t.roster.entries[p]) {
        WinnerIsOpen(t, p);
        PayoutCovered(t, now);
        ShareCovered(t, p);
      }
    case CloseOne(_) =>
  }

  lemma RunsOnlyRunning(t: Tournament, c: Config, accounts: set<Key>)
    requires t.phase != Running
    ensures RunMatches(t, c, accounts) == Err(InvalidState)
  {}

  lemma PayoutCovered(t: Tournament, now: int)
    requires Inv(t, now) && t.phase == Payout
    ensures Covered(t)
  {
    hide Linked, WinnersInv, ClaimsInv, Covered;
  }

  lemma LiveEntryInRange(t: Tournament, now: int, p: Key)
    requires Inv(t, now) && t.phase == Reveal && p in t.roster.entries
    ensures t.roster.entries[p].index < |t.roster.strategies|
  {
    assert EntryLinked(t.roster, p);
  }

  lemma CloseRevealNeverAborts(t: Tournament, c: Config, now: int, refund: Option<Supplied>, slot: Option<Seed>)
    requires Inv(t, now)
    ensures CloseReveal(t, c, now, refund, slot) != Err(Aborted)
  {
    hide RosterInv, EvenOut, DrawInv;
    if t.phase == Reveal && Charge(t, c).Ok? && t.roster.revealsCompleted == t.roster.participantCount {
      EvenOutSucceeds(Charge(t, c).value, c, refund);
    }
  }

  /** No step of any kind, with whatever accounts and amounts, aborts in a reachable world. */
  lemma StepNeverAborts(w: World, a: Action, hash: Hash)
    requires WorldInv(w)
    ensures Step(w, a, hash) != Err(Aborted)
  {
    hide WorldInv, Instruction, CloseReveal, Finalize;
    match a
    case On(id, o) =>
      if id in w.tours {
        TournamentInv(w, id);
        InstructionNeverAborts(w.tours[id], w.config, w.now, o, hash);
      }
    case EndReveal(id, refund, slot) =>
      if id in w.tours && Resolve(w, id, refund).Ok? {
        TournamentInv(w, id);
        CloseRevealNeverAborts(w.tours[id], w.config, w.now, Resolve(w, id, refund).value, slot);
      }
    case FinalizeTournament(id, _) =>
      if id in w.tours {
        TournamentInv(w, id);
        FinalizeNeverAborts(w.tours[id], w.config, w.now);
      }
    case _ =>
  }

  /** ... so none aborts in any run from initialization on. */
  lemma NeverAborts(p: InitParams, admin: Key, wallets: Wallets, now: int, configRent: nat, tournamentRent: nat,
                    actions: seq<Action>, a: Action, hash: Hash)
    requires Initialize(p, admin, wallets, now, configRent, tournamentRent).Ok?
    requires OwnRun(Initialize(p, admin, wallets, now, configRent, tournamentRent).value, actions, hash)
    ensures var w := Initialize(p, admin, wallets, now, configRent, tournamentRent).value;
            Step(RunAll(w, actions, hash), a, hash) != Err(Aborted)
  {
    hide WorldInv, Initialize, RunAll, OwnRun, Step;
    Reachable(p, admin, wallets, now, configRent, tournamentRent, actions, hash);
    var w := Initialize(p, admin, wallets, now, configRent, tournamentRent).value;
    StepNeverAborts(RunAll(w, actions, hash), a, hash);
  }

  // ----- commitments -----

  /** The hash does not collide on x and y. */
  predicate NoCollision(hash: Hash, x: seq<Byte>, y: seq<Byte>) { hash(x) == hash(y) ==> x == y }

  /** Committed bytes determine the strategy, the salt and, for custom strategies, the program. */
  lemma CommitmentBinds(hash: Hash, choice: Choice, code: seq<Byte>, salt: seq<Byte>,
                        choice': Choice, code': seq<Byte>, salt': seq<Byte>)
    requires |salt| == |salt'| == 16 && |hash(code)| == |hash(code')| == 32
    requires CommitmentBytes(hash, choice, code, salt) == CommitmentBytes(hash, choice', code', salt')
    requires NoCollision(hash, code, code')
    ensures choice == choice' && salt == salt' && (choice.CustomCode? ==> code == code')
  {
    var x := CommitmentBytes(hash, choice, code, salt);
    var y := CommitmentBytes(hash, choice', code', salt');
    assert x[0] == Index(choice) && y[0] == Index(choice');
    IndexInjective(choice, choice');
    if choice.CustomCode? {
      assert x[1..33] == hash(code) && y[1..33] == hash(code');
      assert x[33..] == salt && y[33..] == salt';
    } else {
      assert x[1..] == salt && y[1..] == salt';
    }
  }

  lemma IndexInjective(c: Choice, c': Choice)
    requires Index(c) == Index(c')
    ensures c == c'
  {}

  /** An entry can be revealed in one way only, unless the hash collides on the bytes at hand. */
  lemma RevealBinds(t: Tournament, c: Config, now: int, p: Key, hash: Hash,
                    choice: Choice, salt: seq<Byte>, code: Option<seq<Byte>>,
                    choice': Choice, salt': seq<Byte>, code': Option<seq<Byte>>)
    requires RevealStrategy(t, c, now, p, choice, salt, code, hash).Ok?
    requires RevealStrategy(t, c, now, p, choice', salt', code', hash).Ok?
    requires |salt| == |salt'| == 16
    requires var program := if choice.CustomCode? then code.value else t.roster.entries[p].bytecode;
             var program' := if choice'.CustomCode? then code'.value else t.roster.entries[p].bytecode;
             && |hash(program)| == |hash(program')| == 32 && NoCollision(hash, program, program')
             && NoCollision(hash, CommitmentBytes(hash, choice, program, salt),
                            CommitmentBytes(hash, choice', program', salt'))
    ensures choice == choice' && salt == salt' && (choice.CustomCode? ==> code == code')
  {
    hide CommitmentBytes, Validate;
    var program := if choice.CustomCode? then code.value else t.roster.entries[p].bytecode;
    var program' := if choice'.CustomCode? then code'.value else t.roster.entries[p].bytecode;
    CommitmentBinds(hash, choice, program, salt, choice', program', salt');
  }
}
