/** What holds in every state of every run, across successive tournaments. */
module Runs {
  import opened Options
  import opened Rng
  import opened Counting
  import opened Codec
  import opened Accounts
  import opened Ledger
  import opened Rosters
  import opened Batches
  import opened Prizes
  import opened Protocol
  import opened Safety
  import opened Closing
  import opened Worlds

  type Hash = seq<Byte> -> seq<Byte>

  // ----- the invariant -----

  /** The config account holds its rent and the recorded fees, to the lamport; its parameters passed the checks. */
  predicate ConfigInv(c: Config) {
    && c.rentMinimum + c.accumulatedFees == c.lamports
    && c.houseFeeBps <= 10000 && 0 < c.stake
    && 2 <= c.minParticipants && c.minParticipants % 2 == 0
  }

  /** Exactly the current tournament is before payout. */
  ghost predicate TourInv(w: World, id: nat)
    requires id in w.tours
  {
    && Inv(w.tours[id], w.now) && id <= w.config.currentId
    && (w.tours[id].phase != Payout <==> id == w.config.currentId)
  }

  ghost predicate WorldInv(w: World) {
    && ConfigInv(w.config) && w.config.currentId in w.tours && w.orphans == map[]
    && forall id :: id in w.tours ==> TourInv(w, id)
  }

  /** An instruction on one tournament keeps its invariant, never leaves payout and never enters it. */
  lemma InstructionKeeps(t: Tournament, c: Config, now: int, o: Order, hash: Hash)
    requires Inv(t, now) && ConfigInv(c) && Instruction(t, c, now, o, hash).Ok?
    ensures Inv(Instruction(t, c, now, o, hash).value.t, now)
  {
    hide Inv, Enter, Refund, CloseRegistration, RevealStrategy, Forfeit, RunMatches, ClaimPayout, CloseEntry;
    match o
    case EnterTournament(p, commitment, topUp, newRent, entryRent) =>
      EnterKeeps(t, c, now, p, commitment, topUp, newRent, entryRent);
    case ClaimRefund(p) => RefundKeeps(t, c, now, p);
    case EndRegistration => CloseRegistrationKeeps(t, c, now);
    case RevealChoice(p, choice, salt, code) => RevealStrategyKeeps(t, c, now, p, choice, salt, code, hash);
    case ForfeitUnrevealed(p, b) => ForfeitKeeps(t, c, now, p, b);
    case RunBatch(accounts) => RunMatchesKeeps(t, c, now, accounts);
    case Claim(p) => ClaimPayoutKeeps(t, c, now, p);
    case CloseOne(p) => CloseEntryKeeps(t, c, now, p);
  }

  /** Only expired shares reach the config here, as fees and balance alike; payout is neither entered nor left. */
  lemma InstructionConfig(t: Tournament, c: Config, now: int, o: Order, hash: Hash)
    requires Instruction(t, c, now, o, hash).Ok?
    ensures var e := Instruction(t, c, now, o, hash).value;
            && (e.t.phase == Payout <==> t.phase == Payout)
            && (ConfigInv(c) ==> ConfigInv(e.config)) && e.config.currentId == c.currentId
  {
    hide Enrol, Blank, MarkRevealed, CloseSlot, PlayBatch, NoneHidden, FromIndex, Share, Vacatable;
  }

  lemma CloseRevealConfig(t: Tournament, c: Config, now: int, refund: Option<Supplied>, slot: Option<Seed>)
    requires CloseReveal(t, c, now, refund, slot).Ok?
    ensures CloseReveal(t, c, now, refund, slot).value.config == c
    ensures t.phase == Reveal && CloseReveal(t, c, now, refund, slot).value.t.phase == Running
    ensures 0 <= CloseReveal(t, c, now, refund, slot).value.delta
  {
    hide Vacate, LastActive, Vacatable;
  }

  /** Committing an effect that keeps the tournament and the config keeps the world. */
  lemma CommitKeeps(w: World, id: nat, e: Effect)
    requires WorldInv(w) && id in w.tours && Commit(w, id, Ok(e)).Ok?
    requires Inv(e.t, w.now) && ConfigInv(e.config) && e.config.currentId == w.config.currentId
    requires e.t.phase == Payout <==> w.tours[id].phase == Payout
    ensures WorldInv(Commit(w, id, Ok(e)).value)
  {
    hide Inv, ConfigInv;
    assert TourInv(w, id);
    var w' := Commit(w, id, Ok(e)).value;
    forall i | i in w'.tours ensures TourInv(w', i) {
      assert TourInv(w, i);
    }
  }

  lemma OnKeeps(w: World, id: nat, o: Order, hash: Hash)
    requires WorldInv(w) && id in w.tours && Commit(w, id, Instruction(w.tours[id], w.config, w.now, o, hash)).Ok?
    ensures WorldInv(Commit(w, id, Instruction(w.tours[id], w.config, w.now, o, hash)).value)
  {
    hide Inv, ConfigInv, Instruction;
    assert TourInv(w, id);
    InstructionKeeps(w.tours[id], w.config, w.now, o, hash);
    InstructionConfig(w.tours[id], w.config, w.now, o, hash);
    CommitKeeps(w, id, Instruction(w.tours[id], w.config, w.now, o, hash).value);
  }

  // ----- refunds with an entry of another tournament -----

  lemma EndRevealKeeps(w: World, id: nat, refund: Option<EntryRef>, slot: Option<Seed>)
    requires WorldInv(w) && id in w.tours && CommitReveal(w, id, refund, slot).Ok?
    requires !Foreign(w, EndReveal(id, refund, slot))
    ensures WorldInv(CommitReveal(w, id, refund, slot).value)
  {
    hide Inv, ConfigInv, CloseReveal;
    assert TourInv(w, id);
    var supplied := Resolve(w, id, refund).value;
    CloseRevealKeeps(w.tours[id], w.config, w.now, supplied, slot);
    CloseRevealConfig(w.tours[id], w.config, w.now, supplied, slot);
    CommitKeeps(w, id, CloseReveal(w.tours[id], w.config, w.now, supplied, slot).value);
  }

  /** The reveal phase of tournament id may be closed: the deadline is over and everybody is revealed. */
  predicate Due(w: World, id: nat) {
    && id in w.tours && w.tours[id].phase == Reveal && w.tours[id].revealEnds < w.now
    && w.tours[id].operatorCosts + w.config.operatorTxFee < U64_SIZE
    && w.tours[id].roster.revealsCompleted == w.tours[id].roster.participantCount
  }

  /** The account exists, and carries the player and the slot number of the last active registrant of tournament id. */
  predicate LastSlotTwin(w: World, id: nat, ref: EntryRef)
    requires id in w.tours
  {
    var players := w.tours[id].roster.players;
    var last := LastActive(players);
    && EntryAt(w, ref).Some? && last.Some?
    && ref.player == players[last.value] && EntryAt(w, ref).value.index == last.value
  }

  /** When the phase is due with an odd count, a foreign refund is accepted exactly for such an account. */
  lemma ForeignAcceptedIff(w: World, id: nat, ref: EntryRef, seed: Seed, hash: Hash)
    requires WorldInv(w) && Due(w, id) && Foreign(w, EndReveal(id, Some(ref), Some(seed)))
    ensures Step(w, EndReveal(id, Some(ref), Some(seed)), hash).Ok? <==> LastSlotTwin(w, id, ref)
  {
    hide WorldInv, CloseReveal, Erase;
    DueAccepts(w, id, Resolve(w, id, Some(ref)), seed);
  }

  lemma DueAccepts(w: World, id: nat, supplied: Result<Option<Supplied>>, seed: Seed)
    requires WorldInv(w) && Due(w, id) && w.tours[id].roster.participantCount % 2 == 1
    requires supplied.Ok? ==> supplied.value.Some?
    ensures LastActive(w.tours[id].roster.players).Some?
    ensures var players := w.tours[id].roster.players;
            var last := LastActive(players).value;
            supplied.Ok? ==>
              var s := supplied.value.value;
              var result := CloseReveal(w.tours[id], w.config, w.now, supplied.value, Some(seed));
              && (result.Ok? <==> s.player == players[last] && s.entry.index == last)
              && (result.Ok? ==> 0 <= result.value.delta)
  {
    hide WorldInv, EvenOut, RosterInv, StartRunning, StartEmpty, LastActive;
    var t := w.tours[id];
    TournamentInv(w, id);
    var t1 := Charge(t, w.config).value;
    EvenOutAccepts(t1, w.config, if supplied.Ok? then supplied.value else None);
    if supplied.Ok? && CloseReveal(t, w.config, w.now, supplied.value, Some(seed)).Ok? {
      CloseRevealConfig(t, w.config, w.now, supplied.value, Some(seed));
    }
  }

  lemma TournamentInv(w: World, id: nat)
    requires WorldInv(w) && id in w.tours
    ensures Inv(w.tours[id], w.now)
  {
    hide Inv;
    assert TourInv(w, id);
  }

  /** More entries are counted than exist: the count can no longer reach zero. */
  predicate Stuck(w: World, id: nat) {
    && id in w.tours && w.tours[id].phase == Payout
    && |w.tours[id].roster.entries| < w.tours[id].roster.entriesRemaining
  }

  lemma StuckBreaks(w: World, id: nat)
    requires Stuck(w, id)
    ensures !WorldInv(w)
  {
    hide Linked, WinnersInv, ClaimsInv, Covered;
    assert !TourInv(w, id);
  }

  /** The world after an accepted refund. */
  function Refunded(w: World, a: Action): World
    requires a.EndReveal? && a.id in w.tours && CommitReveal(w, a.id, a.refund, a.slot).Ok?
  {
    CommitReveal(w, a.id, a.refund, a.slot).value
  }

  lemma RefundedIsStep(w: World, a: Action, hash: Hash)
    requires Foreign(w, a) && Step(w, a, hash).Ok?
    ensures CommitReveal(w, a.id, a.refund, a.slot).Ok? && Step(w, a, hash).value == Refunded(w, a)
  {
    hide CommitReveal;
  }

  /** The older tournament loses an entry it still counts; the newer one keeps an entry on a blank slot. */
  lemma ForeignStuck(w: World, a: Action)
    requires WorldInv(w) && Foreign(w, a) && CommitReveal(w, a.id, a.refund, a.slot).Ok?
    ensures Stuck(Refunded(w, a), a.refund.value.tour) && a.refund.value.tour in w.tours
    ensures w.tours[a.refund.value.tour].phase == Payout
    ensures a.refund.value.player in w.tours[a.refund.value.tour].roster.entries
    ensures a.id in Refunded(w, a).tours && !Linked(Refunded(w, a).tours[a.id].roster)
  {
    hide Inv, ConfigInv, CloseReveal, Linked;
    var id, ref := a.id, a.refund.value;
    assert TourInv(w, id) && TourInv(w, ref.tour);
    var supplied := Resolve(w, id, a.refund).value;
    CloseRevealConfig(w.tours[id], w.config, w.now, supplied, a.slot);
    ForeignRefundBreaks(w.tours[id], w.config, w.now, supplied, a.slot);
    DrainedCount(w.tours[ref.tour], w.now, ref.player);
  }

  lemma DrainedCount(t: Tournament, now: int, p: Key)
    requires Inv(t, now) && t.phase == Payout && p in t.roster.entries
    ensures |Drained(t, p).roster.entries| < Drained(t, p).roster.entriesRemaining
  {
    hide Linked, WinnersInv, ClaimsInv, Covered;
    assert Drained(t, p).roster.entries.Keys == t.roster.entries.Keys - {p};
  }

  lemma StuckInstruction(t: Tournament, c: Config, now: int, o: Order, hash: Hash)
    requires t.phase == Payout && |t.roster.entries| < t.roster.entriesRemaining && Instruction(t, c, now, o, hash).Ok?
    ensures var t' := Instruction(t, c, now, o, hash).value.t;
            t'.phase == Payout && |t'.roster.entries| < t'.roster.entriesRemaining
  {
    hide Enrol, Blank, MarkRevealed, PlayBatch, NoneHidden, FromIndex, Share, Validate;
    var t' := Instruction(t, c, now, o, hash).value.t;
    assert t'.roster.entries.Keys == t.roster.entries.Keys - {o.player};
  }

  lemma StuckReveal(w: World, a: Action, hash: Hash, id: nat)
    requires Stuck(w, id) && a.EndReveal? && Step(w, a, hash).Ok?
    ensures Stuck(Step(w, a, hash).value, id)
  {
    hide CloseReveal;
    CloseRevealConfig(w.tours[a.id], w.config, w.now, Resolve(w, a.id, a.refund).value, a.slot);
    if Foreign(w, a) && a.refund.value.tour == id {
      var t, p := w.tours[id], a.refund.value.player;
      SubsetCardinality(Drained(t, p).roster.entries.Keys, t.roster.entries.Keys);
    }
  }

  lemma StuckStep(w: World, a: Action, hash: Hash, id: nat)
    requires Stuck(w, id)
    ensures Stuck(Apply(w, a, hash), id)
  {
    hide Instruction, CommitReveal, Finalize, Updated, Withdraw;
    if Step(w, a, hash).Ok? {
      match a
      case On(i, o) => if i == id { StuckInstruction(w.tours[id], w.config, w.now, o, hash); }
      case EndReveal(_, _, _) => StuckReveal(w, a, hash, id);
      case FinalizeTournament(i, _) => FinalizeConfig(w.tours[i], w.config, w.now);
      case _ =>
    }
  }

  /** Whatever is attempted afterwards, such a tournament is never closed again. */
  lemma {:induction false} StuckForever(w: World, actions: seq<Action>, hash: Hash, id: nat)
    requires Stuck(w, id)
    ensures Stuck(RunAll(w, actions, hash), id) && !WorldInv(RunAll(w, actions, hash))
    decreases |actions|
  {
    hide WorldInv, Apply, Stuck;
    StuckBreaks(w, id);
    if actions != [] {
      StuckStep(w, actions[0], hash, id);
      StuckForever(Apply(w, actions[0], hash), actions[1..], hash, id);
    }
  }

  lemma FinalizeConfig(t: Tournament, c: Config, now: int)
    requires Finalize(t, c, now).Ok?
    ensures var c' := Finalize(t, c, now).value.config;
            && t.phase == Running && Finalize(t, c, now).value.t.phase == Payout
            && (ConfigInv(c) ==> ConfigInv(c')) && c'.currentId == c.currentId
            && c'.stake == c.stake && c'.houseFeeBps == c.houseFeeBps
  {
    hide Winners, Settle, FinalCosts;
  }

  lemma FinalKeeps(w: World, id: nat, nextRent: nat)
    requires WorldInv(w) && id in w.tours && CommitFinal(w, id, nextRent).Ok?
    ensures WorldInv(CommitFinal(w, id, nextRent).value)
  {
    hide Inv, Finalize, Fresh;
    assert TourInv(w, id);
    FinalizeConfig(w.tours[id], w.config, w.now);
    FinalizeKeeps(w.tours[id], w.config, w.now);
    var w' := CommitFinal(w, id, nextRent).value;
    FreshInv(w'.config, w.now, nextRent);
    FreshPhase(w'.config, w.now, nextRent);
    forall i | i in w'.tours ensures TourInv(w', i) {
      if i in w.tours { assert TourInv(w, i); }
    }
  }

  lemma FreshPhase(c: Config, now: int, rent: nat)
    ensures Fresh(c, now, rent).phase == Registration
  {}

  /** A tournament that may be closed has no entries left. */
  lemma ClosedIsEmpty(t: Tournament, c: Config, now: int)
    requires Inv(t, now) && CloseTournament(t, c, now).Ok?
    ensures t.roster.entries == map[]
  {
    hide WinnersInv, ClaimsInv, Linked, LiveInv, DrawInv, Covered;
    assert t.roster.entries.Keys == {};
  }

  lemma CloseKeeps(w: World, id: nat)
    requires WorldInv(w) && id in w.tours && CommitClose(w, id).Ok?
    ensures WorldInv(CommitClose(w, id).value)
  {
    hide Inv, CloseTournament;
    assert TourInv(w, id);
    ClosedIsEmpty(w.tours[id], w.config, w.now);
    ClosedConfig(w.tours[id], w.config, w.now);
    var w' := CommitClose(w, id).value;
    assert w'.orphans == map[];
    forall i | i in w'.tours ensures TourInv(w', i) {
      assert TourInv(w, i);
    }
  }

  lemma ClosedConfig(t: Tournament, c: Config, now: int)
    requires CloseTournament(t, c, now).Ok?
    ensures var c' := CloseTournament(t, c, now).value;
            t.phase == Payout && c'.currentId == c.currentId && (ConfigInv(c) ==> ConfigInv(c'))
  {}

  lemma TickKeeps(w: World, seconds: nat)
    requires WorldInv(w)
    ensures WorldInv(w.(now := w.now + seconds))
  {
    hide Inv, ConfigInv;
    var w' := w.(now := w.now + seconds);
    forall i | i in w'.tours ensures TourInv(w', i) {
      assert TourInv(w, i);
      LaterInv(w.tours[i], w.now, w'.now);
    }
  }

  /** Changing nothing but config parameters and wallets keeps every tournament. */
  lemma ConfigKeeps(w: World, c: Config, wallets: Wallets)
    requires WorldInv(w) && ConfigInv(c) && c.currentId == w.config.currentId
    ensures WorldInv(w.(config := c, wallets := wallets))
  {
    hide Inv, ConfigInv;
    var w' := w.(config := c, wallets := wallets);
    forall i | i in w'.tours ensures TourInv(w', i) {
      assert TourInv(w, i);
    }
  }

  /** Every step that refunds with an entry of its own tournament keeps the invariant, succeeding or failing. */
  lemma StepKeeps(w: World, a: Action, hash: Hash)
    requires WorldInv(w) && !(Foreign(w, a) && Step(w, a, hash).Ok?)
    ensures WorldInv(Apply(w, a, hash))
  {
    hide Instruction, Commit, CommitReveal, CommitFinal, CommitClose, TourInv, Foreign;
    if Step(w, a, hash).Ok? {
      match a
      case Tick(seconds) => TickKeeps(w, seconds);
      case UpdateConfig(update) => ConfigKeeps(w, Updated(w.config, update).value, w.wallets);
      case WithdrawFees =>
        var (c, amount) := Withdraw(w.config).value;
        ConfigKeeps(w, c, Adjust(w.wallets, w.config.admin, amount));
      case On(id, order) => OnKeeps(w, id, order, hash);
      case EndReveal(id, refund, slot) => EndRevealKeeps(w, id, refund, slot);
      case FinalizeTournament(id, nextRent) => FinalKeeps(w, id, nextRent);
      case CloseAll(id) => CloseKeeps(w, id);
    }
  }

  /** ... and a step that succeeds keeps it only then. */
  lemma StepKeepsIff(w: World, a: Action, hash: Hash)
    requires WorldInv(w) && Step(w, a, hash).Ok?
    ensures WorldInv(Step(w, a, hash).value) <==> !Foreign(w, a)
  {
    hide WorldInv, Step, Stuck, Refunded, CommitReveal;
    if Foreign(w, a) {
      RefundedIsStep(w, a, hash);
      ForeignStuck(w, a);
      StuckBreaks(Step(w, a, hash).value, a.refund.value.tour);
    } else {
      StepKeeps(w, a, hash);
    }
  }

  /** No refund along the run is made with an entry of another tournament. */
  ghost predicate OwnRun(w: World, actions: seq<Action>, hash: Hash)
    decreases |actions|
  {
    actions == []
    || (&& !(Foreign(w, actions[0]) && Step(w, actions[0], hash).Ok?)
        && OwnRun(Apply(w, actions[0], hash), actions[1..], hash))
  }

  /** What a caller can check: the refund entry named with each closing of a reveal phase is that tournament's. */
  predicate OwnIds(actions: seq<Action>) {
    forall i :: 0 <= i < |actions| && actions[i].EndReveal? && actions[i].refund.Some? ==>
      actions[i].refund.value.tour == actions[i].id
  }

  lemma {:induction false} OwnIdsSuffice(w: World, actions: seq<Action>, hash: Hash)
    requires OwnIds(actions)
    ensures OwnRun(w, actions, hash)
    decreases |actions|
  {
    hide Apply, Step;
    if actions != [] { OwnIdsSuffice(Apply(w, actions[0], hash), actions[1..], hash); }
  }

  /**
   Safety over whole runs: a sequence of attempted instructions keeps the invariant exactly when no refund
   is foreign.
   */
  lemma {:induction false} RunKeeps(w: World, actions: seq<Action>, hash: Hash)
    requires WorldInv(w)
    ensures WorldInv(RunAll(w, actions, hash)) <==> OwnRun(w, actions, hash)
    decreases |actions|
  {
    hide WorldInv, Step, Stuck, Refunded, CommitReveal;
    if actions != [] {
      var a, w1 := actions[0], Apply(w, actions[0], hash);
      if Foreign(w, a) && Step(w, a, hash).Ok? {
        RefundedIsStep(w, a, hash);
        ForeignStuck(w, a);
        StuckForever(w1, actions[1..], hash, a.refund.value.tour);
      } else {
        StepKeeps(w, a, hash);
        RunKeeps(w1, actions[1..], hash);
      }
    }
  }

  lemma InitializeInv(p: InitParams, admin: Key, wallets: Wallets, now: int, configRent: nat, tournamentRent: nat)
    requires Initialize(p, admin, wallets, now, configRent, tournamentRent).Ok?
    ensures WorldInv(Initialize(p, admin, wallets, now, configRent, tournamentRent).value)
  {
    hide Inv, Fresh;
    var w := Initialize(p, admin, wallets, now, configRent, tournamentRent).value;
    FreshInv(w.config, now, tournamentRent);
    FreshPhase(w.config, now, tournamentRent);
  }

  /** The cap on withdrawals never binds: the whole recorded amount is paid. */
  lemma WithdrawPaysAll(w: World, hash: Hash)
    requires WorldInv(w) && 0 < w.config.accumulatedFees
    ensures Step(w, WithdrawFees, hash).Ok?
    ensures var w' := Step(w, WithdrawFees, hash).value;
            && w'.config.accumulatedFees == 0
            && Balance(w'.wallets, w.config.admin) == Balance(w.wallets, w.config.admin) + w.config.accumulatedFees
  {
    hide TourInv;
  }
}
