/** No instruction creates or destroys lamports. */
module Conservation {
  import opened Options
  import opened Rng
  import opened Codec
  import opened Accounts
  import opened Ledger
  import opened Rosters
  import opened Batches
  import opened Prizes
  import opened Protocol
  import opened Safety
  import opened Worlds
  import opened Runs

  /** An effect moves lamports between the tournament, its entries, the config and one wallet. */
  ghost predicate Balanced(t: Tournament, c: Config, e: Effect) {
    Held(e.t) + e.config.lamports + e.delta == Held(t) + c.lamports
  }

  lemma EnterBalanced(t: Tournament, c: Config, p: Key, commitment: seq<Byte>, topUp: nat, newRent: nat, entryRent: nat)
    requires Enter(t, c, p, commitment, topUp, newRent, entryRent).Ok?
    ensures Balanced(t, c, Enter(t, c, p, commitment, topUp, newRent, entryRent).value)
  {
    hide EntryRents;
    var e := Enter(t, c, p, commitment, topUp, newRent, entryRent).value;
    EntryAdded(t.roster.entries, p, e.t.roster.entries[p]);
  }

  lemma TakeOutBalanced(t: Tournament, p: Key)
    requires Refundable(t, p)
    ensures Held(TakeOut(t, p)) + t.terms.stake + t.roster.entries[p].lamports == Held(t)
  {
    hide EntryRents;
    EntryRemoved(t.roster.entries, p);
  }

  lemma MarkRevealedBalanced(r: Roster, p: Key, choice: Choice, code: seq<Byte>)
    requires p in r.entries && r.entries[p].index < |r.strategies|
    ensures EntryRents(MarkRevealed(r, p, choice, code).entries) == EntryRents(r.entries)
  {
    hide EntryRents;
    EntryAdded(r.entries, p, MarkRevealed(r, p, choice, code).entries[p]);
  }

  /** What a refund at the end of the reveal phase pays out of entries of other tournaments. */
  function PaidElsewhere(t: Tournament, refund: Option<Supplied>): nat {
    if t.roster.participantCount % 2 == 1 && refund.Some? && !refund.value.own then refund.value.entry.lamports else 0
  }

  lemma EvenOutBalanced(t: Tournament, c: Config, refund: Option<Supplied>)
    requires EvenOut(t, c, refund).Ok? && (refund.Some? && refund.value.own ==> Owned(t, refund.value))
    ensures var e := EvenOut(t, c, refund).value;
            e.config == c && Held(e.t) + e.delta == Held(t) + PaidElsewhere(t, refund)
  {
    hide EntryRents, LastActive;
    if t.roster.participantCount % 2 == 1 && refund.value.own { EntryRemoved(t.roster.entries, refund.value.player); }
  }

  lemma CloseRevealBalanced(t: Tournament, c: Config, now: int, refund: Option<Supplied>, slot: Option<Seed>)
    requires CloseReveal(t, c, now, refund, slot).Ok? && (refund.Some? && refund.value.own ==> Owned(t, refund.value))
    ensures var e := CloseReveal(t, c, now, refund, slot).value;
            e.config == c && Held(e.t) + e.delta == Held(t) + PaidElsewhere(t, refund)
  {
    hide EntryRents, EvenOut;
    if t.roster.participantCount != 0 {
      EvenOutBalanced(Charge(t, c).value, c, refund);
    }
  }

  lemma SameRents(r: Roster, r': Roster)
    requires SameEntrants(r, r')
    ensures EntryRents(r'.entries) == EntryRents(r.entries)
  {
    assert Rents(r'.entries) == Rents(r.entries) by {
      forall p | p in r.entries ensures r'.entries[p].lamports == r.entries[p].lamports {
        assert SameEntrant(r.entries[p], r'.entries[p]);
      }
    }
  }

  lemma {:induction false} BatchRents(r: Roster, d: Draw, m: nat, count: nat, accounts: set<Key>)
    requires PlayBatch(r, d, m, count, accounts).Ok?
    ensures EntryRents(PlayBatch(r, d, m, count, accounts).value.entries) == EntryRents(r.entries)
    decreases count
  {
    hide PlayMatch, EntryRents, SameEntrants;
    if count > 0 {
      var r1 := PlayMatch(r, d, m, accounts).value;
      PlayMatchEntrants(r, d, m, accounts);
      SameRents(r, r1);
      BatchRents(r1, d, m + 1, count - 1, accounts);
    }
  }

  lemma RunMatchesBalanced(t: Tournament, c: Config, accounts: set<Key>)
    requires RunMatches(t, c, accounts).Ok?
    ensures Balanced(t, c, RunMatches(t, c, accounts).value)
  {
    hide PlayBatch, EntryRents, NoneHidden;
    var count := Min(MATCHES_PER_TX, t.draw.matchesTotal - t.draw.matchesCompleted);
    if count > 0 {
      BatchRents(t.roster, t.draw, t.draw.matchesCompleted, count, accounts);
    }
  }

  lemma FinalizeBalanced(t: Tournament, c: Config, now: int)
    requires Finalize(t, c, now).Ok?
    ensures Balanced(t, c, Finalize(t, c, now).value)
  {
    hide EntryRents, Winners, Settle;
    if t.roster.participantCount != 0 {
      var costs, winners := FinalCosts(t, c).value, Winners(t.roster).1;
      SettleConserves(t.pool, t.terms.houseFeeBps, costs, t.lamports, t.rentMinimum, winners);
    }
  }

  lemma CloseOutBalanced(t: Tournament, p: Key, amount: nat, claim: bool)
    requires p in t.roster.entries && 0 < t.roster.entriesRemaining && amount <= t.lamports
    ensures Held(CloseOut(t, p, amount, claim)) + amount + t.roster.entries[p].lamports == Held(t)
  {
    hide EntryRents;
    EntryRemoved(t.roster.entries, p);
  }

  lemma ClaimBalanced(t: Tournament, c: Config, now: int, p: Key)
    requires ClaimPayout(t, c, now, p).Ok?
    ensures Balanced(t, c, ClaimPayout(t, c, now, p).value)
  {
    hide CloseOut, Held, Share;
    CloseOutBalanced(t, p, Share(t), true);
  }

  lemma CloseEntryBalanced(t: Tournament, c: Config, now: int, p: Key)
    requires CloseEntry(t, c, now, p).Ok?
    ensures Balanced(t, c, CloseEntry(t, c, now, p).value)
  {
    hide CloseOut, Held, Share;
    var transfer := Min(Share(t), SaturatingSub(t.lamports, t.rentMinimum));
    CloseOutBalanced(t, p, transfer, true);
    CloseOutBalanced(t, p, transfer, false);
    CloseOutBalanced(t, p, 0, false);
  }

  lemma InstructionBalanced(t: Tournament, c: Config, now: int, o: Order, hash: Hash)
    requires Instruction(t, c, now, o, hash).Ok?
    ensures Balanced(t, c, Instruction(t, c, now, o, hash).value)
  {
    hide Enter, TakeOut, MarkRevealed, RunMatches, ClaimPayout, CloseEntry, EntryRents, FromIndex;
    match o
    case EnterTournament(p, commitment, topUp, newRent, entryRent) =>
      EnterBalanced(t, c, p, commitment, topUp, newRent, entryRent);
    case ClaimRefund(p) => TakeOutBalanced(t, p);
    case EndRegistration =>
    case RevealChoice(p, choice, salt, code) =>
      var program := if choice.CustomCode? then code.value else t.roster.entries[p].bytecode;
      MarkRevealedBalanced(t.roster, p, choice, program);
    case ForfeitUnrevealed(p, b) =>
      MarkRevealedBalanced(t.roster, p, FromIndex(b.value % 9).value, t.roster.entries[p].bytecode);
    case RunBatch(accounts) => RunMatchesBalanced(t, c, accounts);
    case Claim(p) => ClaimBalanced(t, c, now, p);
    case CloseOne(p) => CloseEntryBalanced(t, c, now, p);
  }

  // ----- the whole world -----

  /** All lamports: config, tournaments with their entries, orphaned entries, and wallets. */
  ghost function Total(w: World): int {
    w.config.lamports + TournamentsHold(w.tours) + OrphanRents(w.orphans) + Sum(w.wallets)
  }

  predicate PoolHeld(t: Tournament) { t.phase != Payout ==> t.pool <= t.lamports }

  /** What holds in every run whatever entries refunds are made with. */
  ghost predicate Sane(w: World) {
    && ConfigInv(w.config)
    && (forall ref :: ref in w.orphans ==> ref.tour !in w.tours && ref.tour <= w.config.currentId)
    && (forall id :: id in w.tours ==> id <= w.config.currentId && PoolHeld(w.tours[id]))
  }

  lemma WorldIsSane(w: World)
    requires WorldInv(w)
    ensures Sane(w)
  {
    hide Inv, ConfigInv;
    forall id | id in w.tours ensures id <= w.config.currentId && PoolHeld(w.tours[id]) {
      assert TourInv(w, id);
      LiveHoldsPool(w.tours[id], w.now);
    }
  }

  lemma LiveHoldsPool(t: Tournament, now: int)
    requires Inv(t, now)
    ensures PoolHeld(t)
  {
    hide RosterInv, DrawInv, PayoutInv;
  }

  lemma InstructionHoldsPool(t: Tournament, c: Config, now: int, o: Order, hash: Hash)
    requires PoolHeld(t) && Instruction(t, c, now, o, hash).Ok?
    ensures PoolHeld(Instruction(t, c, now, o, hash).value.t)
  {
    hide Enrol, Blank, MarkRevealed, CloseSlot, PlayBatch, NoneHidden, FromIndex, Share, Validate;
  }

  lemma CloseRevealHoldsPool(t: Tournament, c: Config, now: int, refund: Option<Supplied>, slot: Option<Seed>)
    requires PoolHeld(t) && CloseReveal(t, c, now, refund, slot).Ok?
    ensures PoolHeld(CloseReveal(t, c, now, refund, slot).value.t)
  {
    hide Vacate, LastActive;
  }

  lemma CommitSane(w: World, id: nat, e: Effect)
    requires Sane(w) && id in w.tours && Commit(w, id, Ok(e)).Ok?
    requires PoolHeld(e.t) && ConfigInv(e.config) && e.config.currentId == w.config.currentId
    ensures Sane(Commit(w, id, Ok(e)).value)
  {
    hide ConfigInv, PoolHeld;
  }

  lemma EraseSane(w: World, ref: EntryRef)
    requires Sane(w)
    ensures Sane(Erase(w, ref))
  {
    hide ConfigInv;
  }

  lemma FinalSane(w: World, id: nat, nextRent: nat)
    requires Sane(w) && id in w.tours && CommitFinal(w, id, nextRent).Ok?
    ensures Sane(CommitFinal(w, id, nextRent).value)
  {
    hide Finalize, Fresh;
    FinalizeConfig(w.tours[id], w.config, w.now);
    FreshHoldsPool(CommitFinal(w, id, nextRent).value.config, w.now, nextRent);
  }

  lemma FreshHoldsPool(c: Config, now: int, rent: nat)
    ensures PoolHeld(Fresh(c, now, rent))
  {}

  lemma CloseSane(w: World, id: nat)
    requires Sane(w) && id in w.tours && CommitClose(w, id).Ok?
    ensures Sane(CommitClose(w, id).value)
  {
    hide CloseTournament, ConfigInv;
    ClosedConfig(w.tours[id], w.config, w.now);
  }

  lemma StepSane(w: World, a: Action, hash: Hash)
    requires Sane(w)
    ensures Sane(Apply(w, a, hash))
  {
    hide Instruction, CloseReveal, Commit, CommitFinal, CommitClose, Erase, PoolHeld;
    if Step(w, a, hash).Ok? {
      match a
      case On(id, o) =>
        var r := Instruction(w.tours[id], w.config, w.now, o, hash);
        CommitOk(w, id, r);
        InstructionConfig(w.tours[id], w.config, w.now, o, hash);
        InstructionHoldsPool(w.tours[id], w.config, w.now, o, hash);
        CommitSane(w, id, r.value);
      case EndReveal(id, refund, slot) => RevealSane(w, id, refund, slot);
      case FinalizeTournament(id, nextRent) => FinalSane(w, id, nextRent);
      case CloseAll(id) => CloseSane(w, id);
      case _ =>
    }
  }

  lemma RevealSane(w: World, id: nat, refund: Option<EntryRef>, slot: Option<Seed>)
    requires Sane(w) && id in w.tours && CommitReveal(w, id, refund, slot).Ok?
    ensures Sane(CommitReveal(w, id, refund, slot).value)
  {
    hide CloseReveal, Commit, Erase, PoolHeld, Sane;
    var supplied := Resolve(w, id, refund).value;
    var r := CloseReveal(w.tours[id], w.config, w.now, supplied, slot);
    CommitOk(w, id, r);
    SaneTournament(w, id);
    CloseRevealConfig(w.tours[id], w.config, w.now, supplied, slot);
    CloseRevealHoldsPool(w.tours[id], w.config, w.now, supplied, slot);
    CommitSane(w, id, r.value);
    if refund.Some? { EraseSane(Commit(w, id, r).value, refund.value); }
  }

  lemma SaneTournament(w: World, id: nat)
    requires Sane(w) && id in w.tours
    ensures PoolHeld(w.tours[id]) && id <= w.config.currentId && ConfigInv(w.config)
    ensures forall ref :: ref in w.orphans ==> ref.tour != id
  {
    hide PoolHeld, ConfigInv;
  }

  lemma CommitTotal(w: World, id: nat, e: Effect)
    requires id in w.tours && Commit(w, id, Ok(e)).Ok?
    ensures Total(Commit(w, id, Ok(e)).value)
         == Total(w) + (Held(e.t) + e.config.lamports + e.delta) - (Held(w.tours[id]) + w.config.lamports)
  {
    hide Held, TournamentsHold, Sum, OrphanRents;
    TournamentUpdated(w.tours, id, e.t);
    AdjustSum(w.wallets, e.wallet, e.delta);
  }

  /** Erasing an entry account takes its rent out of the total, wherever it lives. */
  lemma EraseTotal(w: World, ref: EntryRef)
    requires EntryAt(w, ref).Some?
    ensures Total(Erase(w, ref)) == Total(w) - EntryAt(w, ref).value.lamports
  {
    hide TournamentsHold, Sum, OrphanRents;
    if ref.tour in w.tours && ref.player in w.tours[ref.tour].roster.entries {
      DrainedTotal(w.tours, ref.tour, ref.player);
    } else {
      OrphanRemoved(w.orphans, ref);
    }
  }

  /** The entry a refund names is still there after the rest of the step, if it is foreign. */
  lemma ForeignEntryStays(w: World, id: nat, e: Effect, ref: EntryRef)
    requires Commit(w, id, Ok(e)).Ok? && ref.tour != id
    ensures EntryAt(Commit(w, id, Ok(e)).value, ref) == EntryAt(w, ref)
  {}

  /** Refunds only move lamports too, even out of another tournament's entry or an orphan. */
  lemma RevealTotal(w: World, id: nat, refund: Option<EntryRef>, slot: Option<Seed>)
    requires Sane(w) && id in w.tours && CommitReveal(w, id, refund, slot).Ok?
    ensures Total(CommitReveal(w, id, refund, slot).value) == Total(w)
  {
    hide Held, Total, CloseReveal, Sane, Commit, Erase;
    SaneTournament(w, id);
    var supplied := Resolve(w, id, refund).value;
    var r := CloseReveal(w.tours[id], w.config, w.now, supplied, slot);
    CommitOk(w, id, r);
    var e := r.value;
    CloseRevealBalanced(w.tours[id], w.config, w.now, supplied, slot);
    CommitTotal(w, id, e);
    if Foreign(w, EndReveal(id, refund, slot)) {
      ForeignEntryStays(w, id, e, refund.value);
      EraseTotal(Commit(w, id, r).value, refund.value);
    }
  }

  lemma DrainedTotal(tours: map<nat, Tournament>, id: nat, p: Key)
    requires id in tours && p in tours[id].roster.entries
    ensures TournamentsHold(tours[id := Drained(tours[id], p)])
         == TournamentsHold(tours) - tours[id].roster.entries[p].lamports
  {
    hide TournamentsHold, EntryRents;
    TournamentUpdated(tours, id, Drained(tours[id], p));
    EntryRemoved(tours[id].roster.entries, p);
  }

  lemma FinalTotal(w: World, id: nat, nextRent: nat)
    requires id in w.tours && CommitFinal(w, id, nextRent).Ok?
    ensures Total(CommitFinal(w, id, nextRent).value) == Total(w)
  {
    hide Held, TournamentsHold, Sum, Finalize, Commit, OrphanRents;
    var c := w.config;
    var e := Finalize(w.tours[id], c, w.now).value;
    FinalizeBalanced(w.tours[id], c, w.now);
    var e' := e.(config := e.config.(currentId := c.currentId + 1), delta := e.delta - nextRent);
    CommitTotal(w, id, e');
    var w1 := Commit(w, id, Ok(e')).value;
    var next := Fresh(e'.config, w.now, nextRent);
    CommitTours(w, id, e');
    TournamentUpdated(w1.tours, e'.config.currentId, next);
    FreshHeld(e'.config, w.now, nextRent);
  }

  lemma CommitTours(w: World, id: nat, e: Effect)
    requires Commit(w, id, Ok(e)).Ok?
    ensures Commit(w, id, Ok(e)).value.tours == w.tours[id := e.t] && Commit(w, id, Ok(e)).value.orphans == w.orphans
  {}

  lemma FreshHeld(c: Config, now: int, rent: nat)
    ensures Held(Fresh(c, now, rent)) == rent
  {
    assert Rents(map[]) == map[];
  }

  lemma CloseTotal(w: World, id: nat)
    requires Sane(w) && id in w.tours && CommitClose(w, id).Ok?
    ensures Total(CommitClose(w, id).value) == Total(w)
  {
    hide TournamentsHold, Sum, OrphanRents, EntryRents, Sane, AccountsOf;
    SaneTournament(w, id);
    TournamentClosed(w.tours, id);
    OrphansAdded(w.orphans, id, w.tours[id].roster.entries);
  }

  /** Conservation per step, failed or not. */
  lemma StepConserves(w: World, a: Action, hash: Hash)
    requires Sane(w)
    ensures Total(Apply(w, a, hash)) == Total(w)
  {
    hide Instruction, Commit, CommitReveal, CommitFinal, CommitClose, Sane, TournamentsHold, Sum, Held, OrphanRents;
    if Step(w, a, hash).Ok? {
      match a
      case Tick(_) =>
      case UpdateConfig(_) =>
      case WithdrawFees => AdjustSum(w.wallets, w.config.admin, Withdraw(w.config).value.1);
      case On(id, order) =>
        var r := Instruction(w.tours[id], w.config, w.now, order, hash);
        CommitOk(w, id, r);
        InstructionBalanced(w.tours[id], w.config, w.now, order, hash);
        CommitTotal(w, id, r.value);
      case EndReveal(id, refund, slot) => RevealTotal(w, id, refund, slot);
      case FinalizeTournament(id, nextRent) => FinalTotal(w, id, nextRent);
      case CloseAll(id) => CloseTotal(w, id);
    }
  }

  lemma CommitOk(w: World, id: nat, r: Result<Effect>)
    requires Commit(w, id, r).Ok?
    ensures r.Ok? && r == Ok(r.value)
  {}

  /** ... and over every run, foreign refunds and orphaned entries included. */
  lemma {:induction false} RunConserves(w: World, actions: seq<Action>, hash: Hash)
    requires Sane(w)
    ensures Total(RunAll(w, actions, hash)) == Total(w) && Sane(RunAll(w, actions, hash))
    decreases |actions|
  {
    hide Sane, Apply, Total;
    if actions != [] {
      StepSane(w, actions[0], hash);
      StepConserves(w, actions[0], hash);
      RunConserves(Apply(w, actions[0], hash), actions[1..], hash);
    }
  }

  lemma ValidConserves(w: World, a: Action, hash: Hash)
    requires WorldInv(w)
    ensures Total(Apply(w, a, hash)) == Total(w)
  {
    hide WorldInv, Sane, Total, Apply;
    WorldIsSane(w);
    StepConserves(w, a, hash);
  }

  /** Initialization only moves the two rents out of the admin's wallet. */
  lemma InitializeConserves(p: InitParams, admin: Key, wallets: Wallets, now: int, configRent: nat, tournamentRent: nat)
    requires Initialize(p, admin, wallets, now, configRent, tournamentRent).Ok?
    ensures Total(Initialize(p, admin, wallets, now, configRent, tournamentRent).value) == Sum(wallets)
  {
    hide Held, Sum, Fresh, OrphanRents;
    var w := Initialize(p, admin, wallets, now, configRent, tournamentRent).value;
    AdjustSum(wallets, admin, -(configRent + tournamentRent));
    FreshHeld(w.config, now, tournamentRent);
    TournamentUpdated(map[], 0, Fresh(w.config, now, tournamentRent));
    assert map[][0 := Fresh(w.config, now, tournamentRent)] == w.tours;
    NoTournaments();
    NoOrphans();
  }

  lemma NoOrphans()
    ensures OrphanRents(map[]) == 0
  {
    var none: map<EntryRef, Entry> := map[];
    assert (map ref | ref in none :: none[ref].lamports) == map[];
  }

  lemma NoTournaments()
    ensures TournamentsHold(map[]) == 0
  {
    assert Holdings(map[]) == map[];
  }

  // ----- balances and their width -----

  lemma SumBounds<K>(m: map<K, nat>, k: K)
    requires k in m
    ensures m[k] <= Sum(m)
  {
    SumRemove(m, k);
  }

  /** No account ever holds more than there is. */
  lemma BalancesFit(w: World, id: nat)
    requires id in w.tours
    ensures w.config.lamports + w.tours[id].lamports <= Total(w)
  {
    hide Sum, OrphanRents;
    SumBounds(Holdings(w.tours), id);
  }

  /**
   From initialization on, in every run, the lamports in all accounts are those the wallets started with.
   If these fit 64 bits, so does every balance, pool and fee counter: the unchecked additions cannot wrap.
   */
  lemma ReachableTotal(p: InitParams, admin: Key, wallets: Wallets, now: int, configRent: nat, tournamentRent: nat,
                       actions: seq<Action>, hash: Hash, id: nat)
    requires Initialize(p, admin, wallets, now, configRent, tournamentRent).Ok?
    ensures var w := RunAll(Initialize(p, admin, wallets, now, configRent, tournamentRent).value, actions, hash);
            && Total(w) == Sum(wallets)
            && w.config.accumulatedFees + w.config.rentMinimum == w.config.lamports
            && (id in w.tours ==> w.config.lamports + w.tours[id].lamports <= Sum(wallets))
            && (id in w.tours && w.tours[id].phase != Payout ==> w.tours[id].pool <= w.tours[id].lamports)
  {
    hide Initialize, RunAll, Total, Sum, Sane, WorldInv;
    var w0 := Initialize(p, admin, wallets, now, configRent, tournamentRent).value;
    InitializeInv(p, admin, wallets, now, configRent, tournamentRent);
    InitializeConserves(p, admin, wallets, now, configRent, tournamentRent);
    WorldIsSane(w0);
    RunConserves(w0, actions, hash);
    var w := RunAll(w0, actions, hash);
    SaneConfig(w);
    if id in w.tours {
      BalancesFit(w, id);
      SaneTournament(w, id);
    }
  }

  lemma SaneConfig(w: World)
    requires Sane(w)
    ensures ConfigInv(w.config)
  {}
}
