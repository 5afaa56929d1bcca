/** The whole program as a state machine: config, all tournaments, wallets and the clock. */
module Worlds {
  import opened Options
  import opened Rng
  import opened Accounts
  import opened Ledger
  import opened Protocol

  /** Entry accounts live with their tournament, or among the orphans once it is closed. */
  datatype World = World(
    config: Config, tours: map<nat, Tournament>, orphans: map<EntryRef, Entry>, wallets: Wallets, now: int)

  /** Optional new values of the config parameters. */
  datatype ConfigUpdate = ConfigUpdate(
    operator: Option<Key>, houseFeeBps: Option<nat>, stake: Option<nat>, minParticipants: Option<nat>,
    maxParticipants: Option<U16>, registrationDuration: Option<int>, matchesPerPlayer: Option<nat>,
    revealDuration: Option<int>, operatorTxFee: Option<nat>)

  /** Instructions on one tournament that touch nothing but it, the config and one wallet. */
  datatype Order =
    | EnterTournament(player: Key, commitment: seq<Byte>, topUp: nat, newRent: nat, entryRent: nat)
    | ClaimRefund(player: Key)
    | EndRegistration
    | RevealChoice(player: Key, choice: Choice, salt: seq<Byte>, code: Option<seq<Byte>>)
    | ForfeitUnrevealed(player: Key, byteDrawn: Option<Byte>)
    | RunBatch(accounts: set<Key>)
    | Claim(player: Key)
    | CloseOne(player: Key)

  datatype Action =
    | Tick(seconds: nat)
    | UpdateConfig(update: ConfigUpdate)
    | WithdrawFees
    | On(id: nat, order: Order)
    | EndReveal(id: nat, refund: Option<EntryRef>, slot: Option<Seed>)
    | FinalizeTournament(id: nat, nextRent: nat)
    | CloseAll(id: nat)

  function Or<T>(o: Option<T>, d: T): T { if o.Some? then o.value else d }

  /** Operator, fee, stake and participant limits; the upper limit is checked against the new lower one. */
  function UpdatedLimits(c: Config, u: ConfigUpdate): Result<Config> {
    var least := Or(u.minParticipants, 2);
    :- Require(Or(u.houseFeeBps, 0) <= 10000, OverflowError);
    :- Require(Or(u.stake, 1) > 0, OverflowError);
    :- Require(least >= 2 && least % 2 == 0, InvalidMinParticipants);
    var minimum := Or(u.minParticipants, c.minParticipants);
    :- Require(u.maxParticipants.Some? ==> u.maxParticipants.value >= minimum, OverflowError);
    Ok(c.(operator := Or(u.operator, c.operator), houseFeeBps := Or(u.houseFeeBps, c.houseFeeBps),
          stake := Or(u.stake, c.stake), minParticipants := minimum,
          maxParticipants := Or(u.maxParticipants, c.maxParticipants)))
  }

  /** Durations, matches per player and the capped transaction fee. */
  function UpdatedTiming(c: Config, u: ConfigUpdate): Result<Config> {
    var fee := Or(u.operatorTxFee, 0);
    :- Require(Or(u.registrationDuration, 1) > 0, OverflowError);
    :- Require(Or(u.matchesPerPlayer, 1) > 0 && Or(u.revealDuration, 1) > 0, OverflowError);
    :- Require(fee <= 100_000_000, OverflowError);
    Ok(c.(registrationDuration := Or(u.registrationDuration, c.registrationDuration),
          matchesPerPlayer := Or(u.matchesPerPlayer, c.matchesPerPlayer),
          revealDuration := Or(u.revealDuration, c.revealDuration),
          operatorTxFee := Or(u.operatorTxFee, c.operatorTxFee)))
  }

  /** Every supplied value is checked; one bad value rejects the whole update. */
  function Updated(c: Config, u: ConfigUpdate): Result<Config> {
    var c' :- UpdatedLimits(c, u);
    UpdatedTiming(c', u)
  }

  /** The config after a withdrawal and the amount paid, capped to keep the account above rent. */
  function Withdraw(c: Config): Result<(Config, nat)> {
    var amount := Min(c.accumulatedFees, SaturatingSub(c.lamports, c.rentMinimum));
    :- Require(c.accumulatedFees > 0, NoFeesToWithdraw);
    Ok((c.(accumulatedFees := c.accumulatedFees - amount, lamports := c.lamports - amount), amount))
  }

  /** Commits an effect on tournament `id`; the wallet must be able to bear its change. */
  function Commit(w: World, id: nat, r: Result<Effect>): Result<World> {
    var e :- r;
    :- Require(0 <= Balance(w.wallets, e.wallet) + e.delta, InsufficientFunds);
    Ok(World(e.config, w.tours[id := e.t], w.orphans, Adjust(w.wallets, e.wallet, e.delta), w.now))
  }

  /** The entry account with an address. */
  function EntryAt(w: World, ref: EntryRef): Option<Entry> {
    if ref.tour in w.tours && ref.player in w.tours[ref.tour].roster.entries
    then Some(w.tours[ref.tour].roster.entries[ref.player])
    else if ref in w.orphans then Some(w.orphans[ref])
    else None
  }

  /** Loads the entry account a caller names, if any. */
  function Resolve(w: World, id: nat, refund: Option<EntryRef>): Result<Option<Supplied>> {
    match refund
    case None => Ok(None)
    case Some(ref) =>
      var entry := EntryAt(w, ref);
      if entry.Some? then Ok(Some(Supplied(ref.tour == id, ref.player, entry.value))) else Err(AccountMissing)
  }

  /** The entry account of p is emptied and erased; the tournament that owns it is not told. */
  function Drained(t: Tournament, p: Key): Tournament { t.(roster := t.roster.(entries := t.roster.entries - {p})) }

  /** Erases an entry account wherever it lives. */
  function Erase(w: World, ref: EntryRef): World {
    if ref.tour in w.tours && ref.player in w.tours[ref.tour].roster.entries
    then w.(tours := w.tours[ref.tour := Drained(w.tours[ref.tour], ref.player)])
    else w.(orphans := w.orphans - {ref})
  }

  /** The step refunds with an entry of another tournament. */
  predicate Foreign(w: World, a: Action) {
    && a.EndReveal? && a.id in w.tours && w.tours[a.id].roster.participantCount % 2 == 1
    && a.refund.Some? && a.refund.value.tour != a.id
  }

  function CommitReveal(w: World, id: nat, refund: Option<EntryRef>, slot: Option<Seed>): Result<World>
    requires id in w.tours
  {
    var supplied :- Resolve(w, id, refund);
    var w' :- Commit(w, id, CloseReveal(w.tours[id], w.config, w.now, supplied, slot));
    Ok(if Foreign(w, EndReveal(id, refund, slot)) then Erase(w', refund.value) else w')
  }

  /** Finalizes tournament `id` and opens the next one, whose rent the operator pays up front. */
  function CommitFinal(w: World, id: nat, nextRent: nat): Result<World>
    requires id in w.tours
  {
    var c := w.config;
    :- Require(c.currentId + 1 !in w.tours, AccountInUse);
    :- Require(nextRent <= Balance(w.wallets, c.operator), InsufficientFunds);
    var e :- Finalize(w.tours[id], c, w.now);
    var c' := e.config.(currentId := c.currentId + 1);
    var next := Fresh(c', w.now, nextRent);
    var w' :- Commit(w, id, Ok(e.(config := c', delta := e.delta - nextRent)));
    Ok(w'.(tours := w'.tours[c'.currentId := next]))
  }

  /** The tournament's account is closed; entry accounts it no longer counts are left behind. */
  function CommitClose(w: World, id: nat): Result<World>
    requires id in w.tours
  {
    var c' :- CloseTournament(w.tours[id], w.config, w.now);
    Ok(w.(config := c', tours := w.tours - {id}, orphans := w.orphans + AccountsOf(id, w.tours[id].roster.entries)))
  }

  function Instruction(t: Tournament, c: Config, now: int, o: Order, hash: seq<Byte> -> seq<Byte>): Result<Effect> {
    match o
    case EnterTournament(p, commitment, topUp, newRent, entryRent) =>
      Enter(t, c, p, commitment, topUp, newRent, entryRent)
    case ClaimRefund(p) => Refund(t, c, p)
    case EndRegistration => CloseRegistration(t, c, now)
    case RevealChoice(p, choice, salt, code) => RevealStrategy(t, c, now, p, choice, salt, code, hash)
    case ForfeitUnrevealed(p, b) => Forfeit(t, c, now, p, b)
    case RunBatch(accounts) => RunMatches(t, c, accounts)
    case Claim(p) => ClaimPayout(t, c, now, p)
    case CloseOne(p) => CloseEntry(t, c, now, p)
  }

  /** One atomic step; `hash` is the commitment hash. */
  function Step(w: World, a: Action, hash: seq<Byte> -> seq<Byte>): Result<World> {
    match a
    case Tick(seconds) => Ok(w.(now := w.now + seconds))
    case UpdateConfig(update) =>
      var c' :- Updated(w.config, update);
      Ok(w.(config := c'))
    case WithdrawFees =>
      var (c', amount) :- Withdraw(w.config);
      Ok(w.(config := c', wallets := Adjust(w.wallets, w.config.admin, amount)))
    case On(id, order) =>
      :- Require(id in w.tours, AccountMissing);
      Commit(w, id, Instruction(w.tours[id], w.config, w.now, order, hash))
    case EndReveal(id, refund, slot) =>
      :- Require(id in w.tours, AccountMissing);
      CommitReveal(w, id, refund, slot)
    case FinalizeTournament(id, nextRent) =>
      :- Require(id in w.tours, AccountMissing);
      CommitFinal(w, id, nextRent)
    case CloseAll(id) =>
      :- Require(id in w.tours, AccountMissing);
      CommitClose(w, id)
  }

  /** A failed instruction leaves everything unchanged. */
  function Apply(w: World, a: Action, hash: seq<Byte> -> seq<Byte>): World {
    var r := Step(w, a, hash);
    if r.Ok? then r.value else w
  }

  function RunAll(w: World, actions: seq<Action>, hash: seq<Byte> -> seq<Byte>): World
    decreases |actions|
  {
    if actions == [] then w else RunAll(Apply(w, actions[0], hash), actions[1..], hash)
  }

  datatype InitParams = InitParams(
    operator: Key, stake: nat, minParticipants: nat, maxParticipants: U16, registrationDuration: int,
    matchesPerPlayer: nat, revealDuration: int)

  /** The config with tournament 0 open; the admin has paid both rents. */
  function Initialize(p: InitParams, admin: Key, wallets: Wallets, now: int, configRent: nat, tournamentRent: nat)
    : Result<World>
  {
    var least := p.minParticipants;
    :- Require(least >= 2 && least % 2 == 0, InvalidMinParticipants);
    :- Require(p.stake > 0 && p.maxParticipants >= least && p.registrationDuration > 0
               && p.matchesPerPlayer > 0 && p.revealDuration > 0, OverflowError);
    :- Require(configRent + tournamentRent <= Balance(wallets, admin), InsufficientFunds);
    var c := Config(p.operator, admin, 0, p.stake, least, p.maxParticipants, p.registrationDuration,
                    p.matchesPerPlayer, 0, 0, p.revealDuration, 0, configRent, configRent);
    var paid := Adjust(wallets, admin, -(configRent + tournamentRent));
    Ok(World(c, map[0 := Fresh(c, now, tournamentRent)], map[], paid, now))
  }
}
