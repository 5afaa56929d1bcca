/** Stakes are never stuck: past registration every tournament can be brought to its end. */
module Progress {
  import opened Options
  import opened Rng
  import opened Arith
  import opened Counting
  import opened Pairs
  import opened Schedule
  import opened Accounts
  import opened Ledger
  import opened Rosters
  import opened Batches
  import opened Prizes
  import opened Protocol
  import opened Safety
  import opened Closing
  import opened Worlds
  import opened Runs
  import opened Conservation
  import opened Guarantees

  /** The field that is left when an odd player is sent home. */
  function EvenDown(n: nat): nat { n - n % 2 }

  function MatchesFor(n: nat, configK: nat): nat { MatchCount(n, EffectiveK(n, configK)) }

  /** Transactions the operator may still charge for, at most. */
  function Outstanding(t: Tournament): int {
    var n := t.roster.participantCount;
    match t.phase
    case Registration => 0
    case Reveal => n - t.roster.revealsCompleted + MatchesFor(EvenDown(n), t.terms.matchesPerPlayer) + n + 3
    case Running => t.draw.matchesTotal - t.draw.matchesCompleted + n + 2
    case Payout => 0
  }

  /** What the operator's costs can still grow to. */
  function Budget(t: Tournament, c: Config): int { t.operatorCosts + Outstanding(t) * c.operatorTxFee }

  /** The amounts still to be computed stay within 64 bits. */
  predicate Affordable(t: Tournament, c: Config) {
    t.pool * t.terms.houseFeeBps < U64_SIZE && Budget(t, c) < U64_SIZE
  }

  /** A valid world whose amounts fit 64 bits, and an operator who can pay the next account's rent. */
  ghost predicate Manageable(w: World, id: nat, nextRent: nat) {
    && WorldInv(w) && id in w.tours && Total(w) < U64_SIZE && nextRent <= Balance(w.wallets, w.config.operator)
    && Affordable(w.tours[id], w.config)
  }

  /** The same slots, the same open entries in them, the same balance. */
  ghost predicate Carried(t: Tournament, t': Tournament) {
    && t'.roster.players == t.roster.players && t'.roster.entries.Keys == t.roster.entries.Keys
    && (forall p :: p in t.roster.entries ==> t'.roster.entries[p].index == t.roster.entries[p].index)
    && t'.roster.participantCount == t.roster.participantCount
    && t'.terms == t.terms && t'.pool == t.pool && t'.lamports == t.lamports && t'.rentMinimum == t.rentMinimum
  }

  /** Only tournament id has moved on, and nobody has paid. */
  ghost predicate Onward(w: World, w': World, id: nat) {
    && id in w.tours && w'.config == w.config && w'.tours.Keys == w.tours.Keys
    && (forall i :: i in w.tours && i != id ==> w'.tours[i] == w.tours[i])
    && (forall q :: Balance(w.wallets, q) <= Balance(w'.wallets, q))
    && Carried(w.tours[id], w'.tours[id]) && Budget(w'.tours[id], w.config) <= Budget(w.tours[id], w.config)
  }

  lemma OnwardTransitive(w0: World, w1: World, w2: World, id: nat)
    requires Onward(w0, w1, id) && Onward(w1, w2, id)
    ensures Onward(w0, w2, id)
  {
    forall q ensures Balance(w0.wallets, q) <= Balance(w2.wallets, q) {
      assert Balance(w0.wallets, q) <= Balance(w1.wallets, q) && Balance(w1.wallets, q) <= Balance(w2.wallets, q);
    }
    hide Balance, Budget;
  }

  lemma OnwardReflexive(w: World, id: nat)
    requires id in w.tours
    ensures Onward(w, w, id)
  {
    hide Budget;
  }

  // ----- runs -----

  lemma {:induction false} RunConcat(w: World, first: seq<Action>, second: seq<Action>, hash: Hash)
    ensures RunAll(w, first + second, hash) == RunAll(RunAll(w, first, hash), second, hash)
    decreases |first|
  {
    hide Apply;
    if first == [] {
      assert first + second == second;
    } else {
      RunConcat(Apply(w, first[0], hash), first[1..], second, hash);
      assert (first + second)[1..] == first[1..] + second;
    }
  }

  lemma Prepended(w: World, a: Action, rest: seq<Action>, hash: Hash)
    ensures RunAll(w, [a] + rest, hash) == RunAll(Apply(w, a, hash), rest, hash)
  {
    hide Apply;
    assert ([a] + rest)[1..] == rest;
  }

  lemma SingleStep(w: World, a: Action, hash: Hash)
    ensures RunAll(w, [a], hash) == Apply(w, a, hash)
  {
    hide Apply;
    Prepended(w, a, [], hash);
    assert [a] + [] == [a];
  }

  /** An instruction that succeeds and does not debit its wallet takes the world one step on. */
  lemma StepTaken(w: World, id: nat, nextRent: nat, a: Action, e: Effect, hash: Hash) returns (w1: World)
    requires Manageable(w, id, nextRent) && Step(w, a, hash) == Commit(w, id, Ok(e)) && !Foreign(w, a)
    requires 0 <= e.delta && e.config == w.config && Affordable(e.t, w.config)
    requires Budget(e.t, w.config) <= Budget(w.tours[id], w.config)
    ensures w1 == Apply(w, a, hash) && Manageable(w1, id, nextRent) && w1.tours == w.tours[id := e.t] && w1.now == w.now
    ensures Carried(w.tours[id], e.t) ==> Onward(w, w1, id)
  {
    hide WorldInv, Total, Affordable, Step, Foreign, Carried, Budget;
    StepKeeps(w, a, hash);
    ValidConserves(w, a, hash);
    w1 := Apply(w, a, hash);
  }

  // ----- payout -----

  lemma CloseEntrySucceeds(t: Tournament, c: Config, now: int, p: Key)
    requires Inv(t, now) && t.phase == Payout && p in t.roster.entries && c.accumulatedFees + t.lamports < U64_SIZE
    ensures CloseEntry(t, c, now, p).Ok?
    ensures var e := CloseEntry(t, c, now, p).value;
            0 <= e.delta && e.t.roster.entries == t.roster.entries - {p} && e.t.phase == Payout
  {
    hide Share, Linked, WinnersInv, ClaimsInv, Covered;
    assert p in t.roster.entries.Keys;
  }

  lemma FeesFit(w: World, id: nat)
    requires WorldInv(w) && id in w.tours && Total(w) < U64_SIZE
    ensures w.config.accumulatedFees + w.tours[id].lamports < U64_SIZE
  {
    hide TourInv, Total;
    BalancesFit(w, id);
  }

  lemma CloseEmptied(w: World, id: nat, hash: Hash)
    requires WorldInv(w) && id in w.tours && w.tours[id].phase == Payout && Total(w) < U64_SIZE
    requires w.tours[id].roster.entries.Keys == {}
    ensures id !in RunAll(w, [CloseAll(id)], hash).tours
  {
    hide WorldInv, Total, Step, Apply;
    FeesFit(w, id);
    TournamentInv(w, id);
    NothingRemains(w.tours[id], w.now);
    AlwaysCloseable(w, hash, id);
    ClosesIt(w, hash, id);
    SingleStep(w, CloseAll(id), hash);
  }

  /** Every open entry can be closed, and then the account. */
  lemma {:induction false} FinishPayout(w: World, id: nat, hash: Hash) returns (actions: seq<Action>)
    requires WorldInv(w) && id in w.tours && w.tours[id].phase == Payout && Total(w) < U64_SIZE
    ensures OwnIds(actions) && id !in RunAll(w, actions, hash).tours
    decreases if id in w.tours then |w.tours[id].roster.entries| else 0
  {
    hide WorldInv, Total, Apply, RunAll;
    var open := w.tours[id].roster.entries;
    if open.Keys == {} {
      CloseEmptied(w, id, hash);
      actions := [CloseAll(id)];
    } else {
      var p :| p in open.Keys;
      var w1 := PayoutStep(w, id, hash, p);
      assert w1.tours[id].roster.entries.Keys == open.Keys - {p};
      var rest := FinishPayout(w1, id, hash);
      actions := [On(id, CloseOne(p))] + rest;
      Prepended(w, On(id, CloseOne(p)), rest, hash);
    }
  }

  lemma NothingRemains(t: Tournament, now: int)
    requires Inv(t, now) && t.phase == Payout && t.roster.entries.Keys == {}
    ensures t.roster.entriesRemaining == 0
  {
    hide Linked, WinnersInv, ClaimsInv, Covered;
  }

  lemma ClosesIt(w: World, hash: Hash, id: nat)
    requires Step(w, CloseAll(id), hash).Ok?
    ensures id !in Apply(w, CloseAll(id), hash).tours
  {
    hide CloseTournament;
  }

  lemma EntryIsStep(w: World, id: nat, p: Key, hash: Hash)
    requires id in w.tours
    ensures Step(w, On(id, CloseOne(p)), hash) == Commit(w, id, CloseEntry(w.tours[id], w.config, w.now, p))
  {
    hide CloseEntry, Commit;
  }

  lemma PayoutStep(w: World, id: nat, hash: Hash, p: Key) returns (w1: World)
    requires WorldInv(w) && id in w.tours && w.tours[id].phase == Payout && Total(w) < U64_SIZE
    requires p in w.tours[id].roster.entries
    ensures w1 == Apply(w, On(id, CloseOne(p)), hash)
    ensures WorldInv(w1) && Total(w1) < U64_SIZE && id in w1.tours && w1.tours[id].phase == Payout
    ensures w1.tours[id].roster.entries == w.tours[id].roster.entries - {p}
  {
    hide WorldInv, Total, CloseEntry, Step;
    FeesFit(w, id);
    TournamentInv(w, id);
    CloseEntrySucceeds(w.tours[id], w.config, w.now, p);
    EntryIsStep(w, id, p, hash);
    StepKeeps(w, On(id, CloseOne(p)), hash);
    ValidConserves(w, On(id, CloseOne(p)), hash);
    w1 := Apply(w, On(id, CloseOne(p)), hash);
  }

  // ----- running -----

  /** The pairs the tournament still needs. */
  ghost predicate PairedAhead(t: Tournament)
    requires Servable(t.roster.participantCount, t.draw.matchesPerPlayer)
  {
    var d := t.draw;
    Paired(t.roster.participantCount, d.matchesPerPlayer, d.seed, d.matchesCompleted, d.matchesTotal)
  }

  lemma RunningServable(t: Tournament, now: int)
    requires Inv(t, now) && t.phase == Running
    ensures Servable(t.roster.participantCount, t.draw.matchesPerPlayer)
  {
    hide LiveInv, Synced, Paired, Filled, MatchCount, Servable;
  }

  /** A batch with all entries supplied and all its pairs goes through and charges one fee. */
  lemma BatchProceeds(t: Tournament, c: Config, now: int)
    requires Inv(t, now) && t.phase == Running && Affordable(t, c) && t.draw.matchesCompleted < t.draw.matchesTotal
    requires Servable(t.roster.participantCount, t.draw.matchesPerPlayer) && PairedAhead(t)
    ensures RunMatches(t, c, t.roster.entries.Keys).Ok?
    ensures var e := RunMatches(t, c, t.roster.entries.Keys).value;
            && e.delta == 0 && e.config == c && e.t.phase == Running && Affordable(e.t, c) && Carried(t, e.t)
            && Budget(e.t, c) <= Budget(t, c)
            && e.t.draw == t.draw.(matchesCompleted := e.t.draw.matchesCompleted)
            && t.draw.matchesCompleted < e.t.draw.matchesCompleted <= t.draw.matchesTotal
  {
    hide Inv, RunMatches, GetPairing, Servable, Carried;
    RunningCounts(t, now);
    FeeCovered(t.operatorCosts, c.operatorTxFee, Outstanding(t), 1);
    RunMatchesOutcome(t, c, now, t.roster.entries.Keys);
    RunMatchesKeeps(t, c, now, t.roster.entries.Keys);
    BatchLeaves(t, c, t.roster.entries.Keys);
    var t' := RunMatches(t, c, t.roster.entries.Keys).value.t;
    SpendOne(t.operatorCosts, c.operatorTxFee, Outstanding(t), Outstanding(t'));
  }

  lemma FeeCovered(costs: nat, fee: nat, outstanding: int, due: nat)
    requires due <= outstanding && costs + outstanding * fee < U64_SIZE
    ensures costs + due * fee < U64_SIZE
  {
    MulMonotone(due, outstanding, fee);
  }

  lemma SpendOne(costs: nat, fee: nat, before: int, after: int)
    requires 0 <= after < before
    ensures costs + fee + after * fee <= costs + before * fee
  {
    MulMonotone(after + 1, before, fee);
    assert (after + 1) * fee == after * fee + fee;
  }

  lemma BatchLeaves(t: Tournament, c: Config, accounts: set<Key>)
    requires RunMatches(t, c, accounts).Ok? && t.draw.matchesCompleted < t.draw.matchesTotal
    ensures var e := RunMatches(t, c, accounts).value;
            && e.delta == 0 && e.config == c && e.t.phase == Running && Carried(t, e.t)
            && e.t.draw == t.draw.(matchesCompleted := e.t.draw.matchesCompleted)
            && e.t.operatorCosts == t.operatorCosts + c.operatorTxFee && e.t.pool == t.pool && e.t.terms == t.terms
            && e.t.roster.participantCount == t.roster.participantCount
  {
    hide PlayBatch, NoneHidden;
    var count := Min(MATCHES_PER_TX, t.draw.matchesTotal - t.draw.matchesCompleted);
    BatchEntrants(t.roster, t.draw, t.draw.matchesCompleted, count, accounts);
    assert forall p :: p in t.roster.entries ==>
      SameEntrant(t.roster.entries[p], RunMatches(t, c, accounts).value.t.roster.entries[p]);
  }

  lemma {:induction false} BatchEntrants(r: Roster, d: Draw, m: nat, count: nat, accounts: set<Key>)
    requires PlayBatch(r, d, m, count, accounts).Ok?
    ensures SameEntrants(r, PlayBatch(r, d, m, count, accounts).value)
    decreases count
  {
    hide PlayMatch, SameEntrants;
    if count > 0 {
      var r1 := PlayMatch(r, d, m, accounts).value;
      PlayMatchEntrants(r, d, m, accounts);
      BatchEntrants(r1, d, m + 1, count - 1, accounts);
      SameEntrantsTransitive(r, r1, PlayBatch(r, d, m, count, accounts).value);
    } else {
      SameEntrantsReflexive(r);
    }
  }

  /** A complete schedule of an affordable tournament can be finalized. */
  lemma FinalizeSucceeds(t: Tournament, c: Config, now: int)
    requires Inv(t, now) && t.phase == Running && Affordable(t, c) && t.draw.matchesCompleted == t.draw.matchesTotal
    requires c.accumulatedFees + t.lamports < U64_SIZE
    ensures Finalize(t, c, now).Ok? && 0 <= Finalize(t, c, now).value.delta
    ensures Finalize(t, c, now).value.t.phase == Payout
  {
    hide Inv, FinalizeWinners;
    RunningCounts(t, now);
    var n, fee := t.roster.entriesRemaining, c.operatorTxFee;
    FeeCovered(t.operatorCosts, fee, Outstanding(t), n + 2);
    assert (n + 2) * fee == fee + (n + 1) * fee;
    WinnersSettle(t, c, now, FinalCosts(t, c).value);
  }

  lemma RunningCounts(t: Tournament, now: int)
    requires Inv(t, now) && t.phase == Running
    ensures LiveInv(t) && 2 <= t.roster.participantCount == t.roster.entriesRemaining
  {
    hide Linked, Filled, Blanked, Revealed, DrawInv;
  }

  lemma WinnersSettle(t: Tournament, c: Config, now: int, costs: nat)
    requires LiveInv(t) && 0 < t.roster.participantCount && t.pool * t.terms.houseFeeBps < U64_SIZE
    requires c.accumulatedFees + t.lamports < U64_SIZE
    ensures FinalizeWinners(t, c, now, costs).Ok? && 0 <= FinalizeWinners(t, c, now, costs).value.delta
    ensures FinalizeWinners(t, c, now, costs).value.t.phase == Payout
  {
    hide RosterInv, Winners, Settle;
    InvIsShaped(t.roster);
    WinnersPositive(t.roster);
    SettleSucceeds(t.pool, t.terms.houseFeeBps, costs, t.lamports, t.rentMinimum, Winners(t.roster).1);
  }

  lemma SettleSucceeds(pool: nat, bps: nat, costs: nat, lamports: nat, rent: nat, winners: nat)
    requires bps <= 10000 && 0 < winners && pool <= lamports < U64_SIZE && pool * bps < U64_SIZE
    ensures Settle(pool, bps, costs, lamports, rent, winners).Ok?
    ensures var s := Settle(pool, bps, costs, lamports, rent, winners).value; s.houseFee + s.dust <= lamports
  {
    hide HouseFee, Quot, Rem;
    HouseFeeBound(pool, bps);
    var raw := Distributable(pool, HouseFee(pool, bps), costs, lamports, rent);
    DivModIdentity(raw, winners);
    assert Rem(raw, winners) <= raw;
  }

  lemma FinalCommits(w: World, id: nat, nextRent: nat)
    requires id in w.tours && w.config.currentId + 1 !in w.tours && id <= w.config.currentId
    requires nextRent <= Balance(w.wallets, w.config.operator)
    requires Finalize(w.tours[id], w.config, w.now).Ok?
    requires var e := Finalize(w.tours[id], w.config, w.now).value;
             0 <= e.delta && e.wallet == w.config.operator
    ensures CommitFinal(w, id, nextRent).Ok?
    ensures var w1, e := CommitFinal(w, id, nextRent).value, Finalize(w.tours[id], w.config, w.now).value;
            && w1.config == e.config.(currentId := w.config.currentId + 1) && w1.now == w.now
            && w1.tours == w.tours[id := e.t][w1.config.currentId := Fresh(w1.config, w.now, nextRent)]
            && (forall q :: q != w.config.operator ==> Balance(w1.wallets, q) == Balance(w.wallets, q))
  {
    hide Finalize, Fresh;
  }

  lemma FinalIsStep(w: World, id: nat, nextRent: nat, hash: Hash)
    requires id in w.tours && CommitFinal(w, id, nextRent).Ok?
    ensures Apply(w, FinalizeTournament(id, nextRent), hash) == CommitFinal(w, id, nextRent).value
    ensures !Foreign(w, FinalizeTournament(id, nextRent))
  {
    hide CommitFinal;
  }

  lemma FinalStep(w: World, id: nat, nextRent: nat, hash: Hash) returns (w1: World)
    requires Manageable(w, id, nextRent) && w.tours[id].phase == Running
    requires w.tours[id].draw.matchesCompleted == w.tours[id].draw.matchesTotal
    ensures w1 == Apply(w, FinalizeTournament(id, nextRent), hash)
    ensures CommitFinal(w, id, nextRent).Ok? && w1 == CommitFinal(w, id, nextRent).value
    ensures WorldInv(w1) && Total(w1) < U64_SIZE && id in w1.tours && w1.tours[id].phase == Payout
  {
    hide WorldInv, Total, Finalize, Affordable, CommitFinal, Apply, Foreign, Fresh;
    FeesFit(w, id);
    TournamentInv(w, id);
    NextIsFree(w, id);
    FinalizeSucceeds(w.tours[id], w.config, w.now);
    FinalizeWallet(w.tours[id], w.config, w.now);
    FinalCommits(w, id, nextRent);
    FinalIsStep(w, id, nextRent, hash);
    StepKeeps(w, FinalizeTournament(id, nextRent), hash);
    ValidConserves(w, FinalizeTournament(id, nextRent), hash);
    w1 := Apply(w, FinalizeTournament(id, nextRent), hash);
  }

  lemma NextIsFree(w: World, id: nat)
    requires WorldInv(w) && id in w.tours
    ensures w.config.currentId + 1 !in w.tours && id <= w.config.currentId
  {
    hide Inv;
    assert TourInv(w, id);
    assert w.config.currentId + 1 in w.tours ==> TourInv(w, w.config.currentId + 1);
  }

  lemma FinalizeWallet(t: Tournament, c: Config, now: int)
    requires Finalize(t, c, now).Ok?
    ensures Finalize(t, c, now).value.wallet == c.operator
  {
    hide Winners, Settle, FinalCosts;
  }

  lemma BatchIsStep(w: World, id: nat, accounts: set<Key>, hash: Hash)
    requires id in w.tours
    ensures Step(w, On(id, RunBatch(accounts)), hash) == Commit(w, id, RunMatches(w.tours[id], w.config, accounts))
  {
    hide RunMatches, Commit;
  }

  /** The tournament runs and still has all the pairs it needs. */
  ghost predicate Playable(w: World, id: nat, nextRent: nat) {
    && Manageable(w, id, nextRent) && w.tours[id].phase == Running
    && Servable(w.tours[id].roster.participantCount, w.tours[id].draw.matchesPerPlayer) && PairedAhead(w.tours[id])
  }

  lemma BatchStep(w: World, id: nat, nextRent: nat, hash: Hash) returns (w1: World)
    requires Playable(w, id, nextRent) && w.tours[id].draw.matchesCompleted < w.tours[id].draw.matchesTotal
    ensures w1 == Apply(w, On(id, RunBatch(w.tours[id].roster.entries.Keys)), hash)
    ensures Playable(w1, id, nextRent) && Onward(w, w1, id) && w1.now == w.now
    ensures w1.tours[id].draw == w.tours[id].draw.(matchesCompleted := w1.tours[id].draw.matchesCompleted)
    ensures w.tours[id].draw.matchesCompleted < w1.tours[id].draw.matchesCompleted
  {
    hide WorldInv, Total, RunMatches, Affordable, Step, Commit, Servable, GetPairing, Onward;
    TournamentInv(w, id);
    BatchProceeds(w.tours[id], w.config, w.now);
    var keys := w.tours[id].roster.entries.Keys;
    BatchIsStep(w, id, keys, hash);
    w1 := StepTaken(w, id, nextRent, On(id, RunBatch(keys)), RunMatches(w.tours[id], w.config, keys).value, hash);
  }

  /** Batches until the schedule is complete. */
  lemma {:induction false} PlayAll(w: World, id: nat, nextRent: nat, hash: Hash)
    returns (actions: seq<Action>, w1: World)
    requires Playable(w, id, nextRent)
    ensures OwnIds(actions) && w1 == RunAll(w, actions, hash) && Playable(w1, id, nextRent) && Onward(w, w1, id)
    ensures w1.tours[id].draw.matchesCompleted == w1.tours[id].draw.matchesTotal && w1.now == w.now
    decreases if id in w.tours then w.tours[id].draw.matchesTotal - w.tours[id].draw.matchesCompleted else 0
  {
    hide Apply, RunAll, Playable, Onward;
    PlayableProgress(w, id, nextRent);
    if w.tours[id].draw.matchesCompleted < w.tours[id].draw.matchesTotal {
      var a := On(id, RunBatch(w.tours[id].roster.entries.Keys));
      var w' := BatchStep(w, id, nextRent, hash);
      var rest;
      rest, w1 := PlayAll(w', id, nextRent, hash);
      actions := [a] + rest;
      Prepended(w, a, rest, hash);
      OnwardTransitive(w, w', w1, id);
    } else {
      actions, w1 := [], w;
      NoActions(w, hash);
      OnwardReflexive(w, id);
    }
  }

  lemma PlayableProgress(w: World, id: nat, nextRent: nat)
    requires Playable(w, id, nextRent)
    ensures id in w.tours && w.tours[id].draw.matchesCompleted <= w.tours[id].draw.matchesTotal
  {
    hide WorldInv, Total, Affordable, PairedAhead, Servable, Inv;
    TournamentInv(w, id);
    DrawInProgress(w.tours[id], w.now);
  }

  lemma NoActions(w: World, hash: Hash)
    ensures RunAll(w, [], hash) == w
  {}

  /** A tournament with all its pairs can be played out, finalized and closed. */
  lemma FinishRunning(w: World, id: nat, nextRent: nat, hash: Hash) returns (actions: seq<Action>)
    requires Playable(w, id, nextRent)
    ensures OwnIds(actions) && id !in RunAll(w, actions, hash).tours
  {
    hide Apply, RunAll, Affordable, WorldInv, Total, Onward, CommitFinal, PairedAhead;
    var played, w1 := PlayAll(w, id, nextRent, hash);
    var w2 := FinalStep(w1, id, nextRent, hash);
    var rest := FinishPayout(w2, id, hash);
    var a := FinalizeTournament(id, nextRent);
    actions := played + ([a] + rest);
    RunConcat(w, played, [a] + rest, hash);
    Prepended(w1, a, rest, hash);
  }

  // ----- a missing pair -----

  function Lookup(t: Tournament, m: nat): Option<Pair>
    requires Servable(t.roster.participantCount, t.draw.matchesPerPlayer)
  {
    GetPairing(t.roster.participantCount, t.draw.matchesPerPlayer, t.draw.seed, m)
  }

  /** Match m, still to be played, has no pair. */
  ghost predicate Blocked(w: World, id: nat, m: nat) {
    && id in w.tours && w.tours[id].phase == Running
    && w.tours[id].draw.matchesCompleted <= m < w.tours[id].draw.matchesTotal
    && Servable(w.tours[id].roster.participantCount, w.tours[id].draw.matchesPerPlayer)
    && Lookup(w.tours[id], m).None?
  }

  /** While a tournament runs no reveal phase is open anywhere. */
  lemma NoneForeign(w: World, a: Action, hash: Hash, id: nat)
    requires WorldInv(w) && id in w.tours && w.tours[id].phase == Running
    ensures a.EndReveal? ==> Step(w, a, hash).Err?
  {
    hide Inv;
    assert TourInv(w, id);
    if a.EndReveal? && a.id in w.tours {
      assert TourInv(w, a.id);
      RevealOnly(w, a);
    }
  }

  lemma RevealOnly(w: World, a: Action)
    requires a.EndReveal? && a.id in w.tours && w.tours[a.id].phase != Reveal
    ensures CommitReveal(w, a.id, a.refund, a.slot).Err?
  {}

  lemma BlockedBatch(t: Tournament, c: Config, now: int, accounts: set<Key>, m: nat)
    requires Inv(t, now) && t.phase == Running && RunMatches(t, c, accounts).Ok?
    requires t.draw.matchesCompleted <= m < t.draw.matchesTotal
    requires Servable(t.roster.participantCount, t.draw.matchesPerPlayer)
    requires Lookup(t, m).None?
    ensures var t' := RunMatches(t, c, accounts).value.t;
            && t'.phase == Running && t'.draw.matchesCompleted <= m
            && t'.draw == t.draw.(matchesCompleted := t'.draw.matchesCompleted)
            && t'.roster.participantCount == t.roster.participantCount
  {
    hide Inv, RunMatches, GetPairing, Servable;
    RunMatchesOutcome(t, c, now, accounts);
    RunMatchesKeeps(t, c, now, accounts);
    BatchLeaves(t, c, accounts);
  }

  lemma BlockedInstruction(t: Tournament, c: Config, now: int, o: Order, hash: Hash)
    requires t.phase == Running && !o.RunBatch?
    ensures Instruction(t, c, now, o, hash).Err?
  {}

  lemma BlockedOn(w: World, i: nat, o: Order, hash: Hash, id: nat, m: nat)
    requires WorldInv(w) && Blocked(w, id, m) && i in w.tours
    requires Commit(w, i, Instruction(w.tours[i], w.config, w.now, o, hash)).Ok?
    ensures Blocked(Commit(w, i, Instruction(w.tours[i], w.config, w.now, o, hash)).value, id, m)
  {
    hide WorldInv, Instruction, GetPairing, Servable, RunMatches;
    if i == id {
      TournamentInv(w, id);
      if o.RunBatch? {
        BatchIsInstruction(w.tours[id], w.config, w.now, o, hash);
        BlockedBatch(w.tours[id], w.config, w.now, o.accounts, m);
      } else {
        BlockedInstruction(w.tours[id], w.config, w.now, o, hash);
      }
    }
  }

  lemma BatchIsInstruction(t: Tournament, c: Config, now: int, o: Order, hash: Hash)
    requires o.RunBatch?
    ensures Instruction(t, c, now, o, hash) == RunMatches(t, c, o.accounts)
  {
    hide RunMatches;
  }

  lemma BlockedClose(w: World, i: nat, id: nat, m: nat)
    requires Blocked(w, id, m) && i in w.tours && CommitClose(w, i).Ok?
    ensures Blocked(CommitClose(w, i).value, id, m)
  {
    hide GetPairing, Servable, AccountsOf;
  }

  lemma BlockedElsewhere(w: World, w': World, id: nat, m: nat)
    requires Blocked(w, id, m) && w'.tours == w.tours
    ensures Blocked(w', id, m)
  {}

  lemma BlockedStep(w: World, a: Action, hash: Hash, id: nat, m: nat)
    requires WorldInv(w) && Blocked(w, id, m)
    ensures WorldInv(Apply(w, a, hash)) && Blocked(Apply(w, a, hash), id, m)
  {
    hide WorldInv, Instruction, Commit, CommitFinal, CommitReveal, CommitClose, Updated, Withdraw, Blocked;
    StillRunning(w, id, m);
    NoneForeign(w, a, hash, id);
    StepKeeps(w, a, hash);
    if Step(w, a, hash).Ok? {
      match a
      case On(i, o) => BlockedOn(w, i, o, hash, id, m);
      case FinalizeTournament(i, nextRent) => BlockedFinal(w, i, nextRent, id, m);
      case CloseAll(i) => BlockedClose(w, i, id, m);
      case _ => BlockedElsewhere(w, Apply(w, a, hash), id, m);
    }
  }

  lemma StillRunning(w: World, id: nat, m: nat)
    requires Blocked(w, id, m)
    ensures id in w.tours && w.tours[id].phase == Running
  {}

  lemma BlockedFinal(w: World, i: nat, nextRent: nat, id: nat, m: nat)
    requires WorldInv(w) && Blocked(w, id, m) && i in w.tours && CommitFinal(w, i, nextRent).Ok?
    ensures Blocked(CommitFinal(w, i, nextRent).value, id, m)
  {
    hide WorldInv, Finalize, Fresh, GetPairing, Servable;
    NextIsFree(w, id);
    FinalizeTerms(w.tours[i], w.config, w.now);
  }

  /** With one pair missing ahead, no run whatever, with whatever refunds, gets the tournament past its matches. */
  lemma {:induction false} BlockedForever(w: World, actions: seq<Action>, hash: Hash, id: nat, m: nat)
    requires WorldInv(w) && Blocked(w, id, m)
    ensures Blocked(RunAll(w, actions, hash), id, m)
    decreases |actions|
  {
    hide WorldInv, Blocked, Apply;
    if actions != [] {
      BlockedStep(w, actions[0], hash, id, m);
      BlockedForever(Apply(w, actions[0], hash), actions[1..], hash, id, m);
    }
  }

  /**
   A running tournament in a manageable world can be brought to its end exactly when every match still to
   be played has a pair: something to evaluate as soon as the reveal phase has closed.
   */
  lemma CanFinishIff(w: World, id: nat, nextRent: nat, hash: Hash)
    requires Manageable(w, id, nextRent) && w.tours[id].phase == Running
    ensures Servable(w.tours[id].roster.participantCount, w.tours[id].draw.matchesPerPlayer)
    ensures (exists actions :: id !in RunAll(w, actions, hash).tours) <==> PairedAhead(w.tours[id])
  {
    hide WorldInv, Total, Affordable, Blocked, GetPairing, Servable, RunAll;
    var t := w.tours[id];
    TournamentInv(w, id);
    RunningServable(t, w.now);
    if !PairedAhead(t) { PairMissing(t); }
    if PairedAhead(t) {
      var actions := FinishRunning(w, id, nextRent, hash);
      assert id !in RunAll(w, actions, hash).tours;
    } else {
      var m: nat :| t.draw.matchesCompleted <= m < t.draw.matchesTotal
        && Lookup(t, m).None?;
      forall actions ensures id in RunAll(w, actions, hash).tours {
        IsBlocked(w, id, m);
        BlockedForever(w, actions, hash, id, m);
        StillRunning(RunAll(w, actions, hash), id, m);
      }
    }
  }

  lemma PairMissing(t: Tournament)
    requires Servable(t.roster.participantCount, t.draw.matchesPerPlayer) && !PairedAhead(t)
    ensures exists m: nat :: t.draw.matchesCompleted <= m < t.draw.matchesTotal && Lookup(t, m).None?
  {
    hide GetPairing, Servable;
    var m: nat :| && t.draw.matchesCompleted <= m < t.draw.matchesTotal
      && GetPairing(t.roster.participantCount, t.draw.matchesPerPlayer, t.draw.seed, m).None?;
    assert Lookup(t, m).None?;
  }

  lemma IsBlocked(w: World, id: nat, m: nat)
    requires id in w.tours && w.tours[id].phase == Running
    requires w.tours[id].draw.matchesCompleted <= m < w.tours[id].draw.matchesTotal
    requires Servable(w.tours[id].roster.participantCount, w.tours[id].draw.matchesPerPlayer)
    requires Lookup(w.tours[id], m).None?
    ensures Blocked(w, id, m)
  {}

  // ----- reveal -----

  lemma RevealCounts(t: Tournament, now: int)
    requires Inv(t, now) && t.phase == Reveal
    ensures LiveInv(t) && 2 <= t.roster.participantCount && t.roster.revealsCompleted <= t.roster.participantCount
    ensures t.roster.participantCount == |t.roster.entries| && t.roster.revealsCompleted == |Revealed(t.roster.entries)|
    ensures t.draw.matchesCompleted == 0
  {
    hide Linked, Filled, Blanked, Untouched;
    SubsetCardinality(Revealed(t.roster.entries), t.roster.entries.Keys);
  }

  /** While reveals are missing some entry is unrevealed and can be forfeited. */
  lemma ForfeitProceeds(t: Tournament, c: Config, now: int) returns (p: Key)
    requires Inv(t, now) && t.phase == Reveal && t.revealEnds < now && Affordable(t, c)
    requires t.roster.revealsCompleted != t.roster.participantCount
    ensures Forfeit(t, c, now, p, Some(0)).Ok?
    ensures var e := Forfeit(t, c, now, p, Some(0)).value;
            && e.delta == 0 && e.config == c && Affordable(e.t, c) && Carried(t, e.t) && Budget(e.t, c) <= Budget(t, c)
            && e.t.phase == Reveal && e.t.revealEnds == t.revealEnds
            && e.t.roster.revealsCompleted == t.roster.revealsCompleted + 1
  {
    hide Inv, LiveInv, FromIndex, MatchesFor;
    RevealCounts(t, now);
    assert Revealed(t.roster.entries) != t.roster.entries.Keys;
    p :| p in t.roster.entries.Keys && p !in Revealed(t.roster.entries);
    LiveEntryInRange(t, now, p);
    FeeCovered(t.operatorCosts, c.operatorTxFee, Outstanding(t), 1);
    SpendOne(t.operatorCosts, c.operatorTxFee, Outstanding(t), Outstanding(t) - 1);
  }

  /** The last active player's own entry, as the closing of the reveal phase wants it. */
  ghost function LastEntry(t: Tournament, id: nat): Option<EntryRef> {
    var last := LastActive(t.roster.players);
    if last.None? then None else Some(EntryRef(id, t.roster.players[last.value]))
  }

  ghost function LastSupplied(t: Tournament): Option<Supplied> {
    var last := LastActive(t.roster.players);
    if last.None? || t.roster.players[last.value] !in t.roster.entries then None
    else Some(Supplied(true, t.roster.players[last.value], t.roster.entries[t.roster.players[last.value]]))
  }

  lemma EvenOutProceeds(t: Tournament, c: Config)
    requires LiveInv(t) && 2 <= t.roster.participantCount && t.roster.revealsCompleted == t.roster.participantCount
    ensures EvenOut(t, c, LastSupplied(t)).Ok?
    ensures var e := EvenOut(t, c, LastSupplied(t)).value;
            && 0 <= e.delta && e.t.roster.participantCount == EvenDown(t.roster.participantCount) && e.t.pool <= t.pool
            && e.t.terms == t.terms && e.t.operatorCosts == t.operatorCosts && e.t.draw == t.draw && e.config == c
            && (t.roster.participantCount % 2 == 0 ==> e.t == t)
  {
    hide LiveInv, LastActive;
    LastActiveFound(t);
    EvenOutSucceeds(t, c, LastSupplied(t));
  }

  /** Once everybody is revealed the phase can be closed and leaves an affordable schedule of the even field. */
  lemma RevealCloses(t: Tournament, c: Config, now: int, seed: Seed)
    requires Inv(t, now) && t.phase == Reveal && t.revealEnds < now && Affordable(t, c)
    requires t.roster.revealsCompleted == t.roster.participantCount
    ensures CloseReveal(t, c, now, LastSupplied(t), Some(seed)).Ok?
    ensures var e := CloseReveal(t, c, now, LastSupplied(t), Some(seed)).value;
            var n := EvenDown(t.roster.participantCount);
            && 0 <= e.delta && e.config == c && e.t.phase == Running
            && Affordable(e.t, c) && Budget(e.t, c) <= Budget(t, c)
            && e.t.roster.participantCount == n && e.t.draw.seed == seed && e.t.draw.matchesCompleted == 0
            && e.t.draw.matchesPerPlayer == EffectiveK(n, t.terms.matchesPerPlayer)
            && e.t.draw.matchesTotal == MatchCount(n, e.t.draw.matchesPerPlayer)
            && (t.roster.participantCount % 2 == 0 ==> Carried(t, e.t))
  {
    hide Inv, LiveInv, EvenOut, LastSupplied, Outstanding, MatchCount, EffectiveK;
    RevealCounts(t, now);
    OutstandingReveal(t);
    FeeCovered(t.operatorCosts, c.operatorTxFee, Outstanding(t), 1);
    var t1 := Charge(t, c).value;
    ChargedLive(t, c);
    EvenOutProceeds(t1, c);
    var t2 := EvenOut(t1, c, LastSupplied(t)).value.t;
    StartAffordable(t, t2, c, seed);
  }

  lemma ChargedLive(t: Tournament, c: Config)
    requires LiveInv(t) && Charge(t, c).Ok?
    ensures LiveInv(Charge(t, c).value) && LastSupplied(Charge(t, c).value) == LastSupplied(t)
  {
    hide RosterInv, LastActive;
  }

  lemma OutstandingReveal(t: Tournament)
    requires t.phase == Reveal && t.roster.revealsCompleted == t.roster.participantCount
    ensures var n := t.roster.participantCount;
            Outstanding(t) == MatchesFor(EvenDown(n), t.terms.matchesPerPlayer) + n + 3
  {}

  lemma StartAffordable(t: Tournament, t2: Tournament, c: Config, seed: Seed)
    requires var n := t.roster.participantCount;
             Affordable(t, c) && Outstanding(t) == MatchesFor(EvenDown(n), t.terms.matchesPerPlayer) + n + 3
    requires t2.roster.participantCount == EvenDown(t.roster.participantCount)
    requires t2.pool <= t.pool && t2.terms == t.terms
    requires t2.operatorCosts == t.operatorCosts + c.operatorTxFee && t2.draw.matchesCompleted == 0
    ensures Affordable(StartRunning(t2, seed), c) && Budget(StartRunning(t2, seed), c) <= Budget(t, c)
  {
    hide MatchCount, EffectiveK;
    MulMonotone(t2.pool, t.pool, t.terms.houseFeeBps);
    SpendOne(t.operatorCosts, c.operatorTxFee, Outstanding(t), Outstanding(StartRunning(t2, seed)));
  }

  lemma ForfeitStep(w: World, id: nat, nextRent: nat, hash: Hash) returns (a: Action, w1: World)
    requires Manageable(w, id, nextRent) && w.tours[id].phase == Reveal && w.tours[id].revealEnds < w.now
    requires w.tours[id].roster.revealsCompleted != w.tours[id].roster.participantCount
    ensures !a.EndReveal? && w1 == Apply(w, a, hash) && Manageable(w1, id, nextRent) && Onward(w, w1, id)
    ensures w1.tours[id].phase == Reveal && w1.tours[id].revealEnds < w1.now
    ensures w1.tours[id].roster.revealsCompleted == w.tours[id].roster.revealsCompleted + 1
  {
    hide WorldInv, Total, Forfeit, Affordable, Step, Commit, Onward;
    TournamentInv(w, id);
    var p := ForfeitProceeds(w.tours[id], w.config, w.now);
    a := On(id, ForfeitUnrevealed(p, Some(0)));
    ForfeitIsStep(w, id, p, hash);
    w1 := StepTaken(w, id, nextRent, a, Forfeit(w.tours[id], w.config, w.now, p, Some(0)).value, hash);
  }

  lemma ForfeitIsStep(w: World, id: nat, p: Key, hash: Hash)
    requires id in w.tours
    ensures Step(w, On(id, ForfeitUnrevealed(p, Some(0))), hash)
         == Commit(w, id, Forfeit(w.tours[id], w.config, w.now, p, Some(0)))
  {
    hide Forfeit, Commit;
  }

  /** Forfeits for everybody missing. */
  lemma {:induction false} RevealAll(w: World, id: nat, nextRent: nat, hash: Hash)
    returns (actions: seq<Action>, w1: World)
    requires Manageable(w, id, nextRent) && w.tours[id].phase == Reveal && w.tours[id].revealEnds < w.now
    ensures OwnIds(actions) && w1 == RunAll(w, actions, hash) && Manageable(w1, id, nextRent) && Onward(w, w1, id)
    ensures w1.tours[id].phase == Reveal && w1.tours[id].revealEnds < w1.now
    ensures w1.tours[id].roster.revealsCompleted == w1.tours[id].roster.participantCount
    decreases if id in w.tours then w.tours[id].roster.participantCount - w.tours[id].roster.revealsCompleted else 0
  {
    hide Apply, RunAll, Affordable, WorldInv, Total, Onward, LiveInv, Inv, Revealed;
    var t := w.tours[id];
    TournamentInv(w, id);
    RevealCounts(t, w.now);
    if t.roster.revealsCompleted != t.roster.participantCount {
      var a, w' := ForfeitStep(w, id, nextRent, hash);
      OnwardCount(w, w', id);
      var rest;
      rest, w1 := RevealAll(w', id, nextRent, hash);
      actions := [a] + rest;
      Prepended(w, a, rest, hash);
      OnwardTransitive(w, w', w1, id);
    } else {
      actions, w1 := [], w;
      NoActions(w, hash);
      OnwardReflexive(w, id);
    }
  }

  /** The pairs of the field that closing the reveal phase with this seed would leave. */
  ghost predicate PairedWith(t: Tournament, seed: Seed) {
    var n := EvenDown(t.roster.participantCount);
    var k := EffectiveK(n, t.terms.matchesPerPlayer);
    Servable(n, k) && AllPaired(n, k, seed)
  }

  lemma CloseStep(w: World, id: nat, nextRent: nat, seed: Seed, hash: Hash) returns (a: Action, w1: World)
    requires Manageable(w, id, nextRent) && w.tours[id].phase == Reveal && w.tours[id].revealEnds < w.now
    requires w.tours[id].roster.revealsCompleted == w.tours[id].roster.participantCount && PairedWith(w.tours[id], seed)
    ensures OwnIds([a]) && w1 == Apply(w, a, hash) && Playable(w1, id, nextRent)
    ensures w.tours[id].roster.participantCount % 2 == 0 ==> Onward(w, w1, id)
  {
    hide WorldInv, Total, CloseReveal, Affordable, Step, Commit, LastSupplied, LastActive, Onward;
    hide MatchCount, EffectiveK, Servable, GetPairing;
    var t := w.tours[id];
    TournamentInv(w, id);
    RevealCloses(t, w.config, w.now, seed);
    a := EndReveal(id, LastEntry(t, id), Some(seed));
    CloseIsStep(w, id, seed, hash);
    w1 := StepTaken(w, id, nextRent, a, CloseReveal(t, w.config, w.now, LastSupplied(t), Some(seed)).value, hash);
  }

  lemma CloseIsStep(w: World, id: nat, seed: Seed, hash: Hash)
    requires id in w.tours && Inv(w.tours[id], w.now) && w.tours[id].phase == Reveal
    ensures Step(w, EndReveal(id, LastEntry(w.tours[id], id), Some(seed)), hash)
         == Commit(w, id, CloseReveal(w.tours[id], w.config, w.now, LastSupplied(w.tours[id]), Some(seed)))
  {
    hide CloseReveal, Commit, LiveInv, Inv, LastActive;
    RevealCounts(w.tours[id], w.now);
    LastActiveFound(w.tours[id]);
  }

  lemma CarriedPaired(t: Tournament, t': Tournament, seed: Seed)
    requires Carried(t, t') && PairedWith(t, seed)
    ensures PairedWith(t', seed)
  {
    hide AllPaired, Servable, EffectiveK;
  }

  /** Forfeits for everybody missing and the close of the phase. */
  lemma ToRunning(w: World, id: nat, nextRent: nat, seed: Seed, hash: Hash)
    returns (actions: seq<Action>, w1: World)
    requires Manageable(w, id, nextRent) && w.tours[id].phase == Reveal && w.tours[id].revealEnds < w.now
    requires PairedWith(w.tours[id], seed)
    ensures OwnIds(actions) && w1 == RunAll(w, actions, hash) && Playable(w1, id, nextRent)
    ensures w.tours[id].roster.participantCount % 2 == 0 ==> Onward(w, w1, id)
  {
    hide Apply, RunAll, Manageable, PairedWith, Carried, Playable;
    var forfeits, w' := RevealAll(w, id, nextRent, hash);
    OnwardCount(w, w', id);
    CarriedPaired(w.tours[id], w'.tours[id], seed);
    var a;
    a, w1 := CloseStep(w', id, nextRent, seed, hash);
    actions := forfeits + [a];
    RunConcat(w, forfeits, [a], hash);
    SingleStep(w', a, hash);
    if w.tours[id].roster.participantCount % 2 == 0 { OnwardTransitive(w, w', w1, id); }
  }

  lemma OnwardCount(w: World, w': World, id: nat)
    requires Onward(w, w', id)
    ensures w'.tours[id].roster.participantCount == w.tours[id].roster.participantCount
    ensures Carried(w.tours[id], w'.tours[id])
  {}

  lemma WaitStep(w: World, id: nat, nextRent: nat, seconds: nat, hash: Hash)
    requires Manageable(w, id, nextRent)
    ensures Apply(w, Tick(seconds), hash) == w.(now := w.now + seconds)
    ensures Manageable(w.(now := w.now + seconds), id, nextRent)
  {
    hide WorldInv, Total;
    StepKeeps(w, Tick(seconds), hash);
    ValidConserves(w, Tick(seconds), hash);
  }

  /**
   From every manageable world, a tournament past registration that has its pairs, or during the reveal phase
   will have them with the seed drawn, has a sequence of instructions after which its account is gone.
   */
  lemma CanFinish(w: World, id: nat, nextRent: nat, seed: Seed, hash: Hash) returns (actions: seq<Action>)
    requires Manageable(w, id, nextRent) && w.tours[id].phase != Registration
    requires w.tours[id].phase == Reveal ==> PairedWith(w.tours[id], seed)
    requires w.tours[id].phase == Running ==> Playable(w, id, nextRent)
    ensures OwnIds(actions) && id !in RunAll(w, actions, hash).tours
  {
    hide Apply, RunAll, Affordable, WorldInv, Total, PairedWith, PairedAhead;
    var t := w.tours[id];
    match t.phase
    case Running => actions := FinishRunning(w, id, nextRent, hash);
    case Payout => actions := FinishPayout(w, id, hash);
    case Reveal =>
      var seconds := if w.now <= t.revealEnds then t.revealEnds - w.now + 1 else 0;
      WaitStep(w, id, nextRent, seconds, hash);
      var w0 := w.(now := w.now + seconds);
      var started, w1 := ToRunning(w0, id, nextRent, seed, hash);
      var rest := FinishRunning(w1, id, nextRent, hash);
      actions := [Tick(seconds)] + (started + rest);
      Prepended(w, Tick(seconds), started + rest, hash);
      RunConcat(w0, started, rest, hash);
  }

  /** Up to 5000 players every schedule has its pairs, so no stake is ever stuck. */
  lemma SmallFieldFinishes(w: World, id: nat, nextRent: nat, seed: Seed, hash: Hash) returns (actions: seq<Action>)
    requires Manageable(w, id, nextRent) && w.tours[id].phase != Registration
    requires w.tours[id].roster.participantCount <= 5000
    ensures OwnIds(actions) && id !in RunAll(w, actions, hash).tours
  {
    hide Apply, RunAll, Affordable, WorldInv, Total, AllPaired, EffectiveK, MatchCount, Servable;
    var t := w.tours[id];
    TournamentInv(w, id);
    if t.phase == Reveal {
      RevealCounts(t, w.now);
      TournamentPaired(EvenDown(t.roster.participantCount), t.terms.matchesPerPlayer, seed);
    }
    if t.phase == Running {
      RunningServable(t, w.now);
      SmallFieldPaired(t, w.now);
    }
    actions := CanFinish(w, id, nextRent, seed, hash);
  }

  lemma SmallFieldPaired(t: Tournament, now: int)
    requires Inv(t, now) && t.phase == Running && t.roster.participantCount <= 5000
    requires Servable(t.roster.participantCount, t.draw.matchesPerPlayer)
    ensures PairedAhead(t)
  {
    hide LiveInv, Synced, Filled, EffectiveK, MatchCount, Servable, GetPairing;
    TournamentPaired(t.roster.participantCount, t.terms.matchesPerPlayer, t.draw.seed);
  }
}
