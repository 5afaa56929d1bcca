/** What the operator is owed: one transaction fee for each instruction that served the tournament. */
module Costs {
  import opened Options
  import opened Rng
  import opened Accounts
  import opened Rosters
  import opened Batches
  import opened Protocol
  import opened Safety
  import opened Closing
  import opened Worlds
  import opened Runs
  import opened Guarantees

  /** The instructions of the operator that are charged when they succeed; a batch with nothing to play is free. */
  predicate Chargeable(t: Tournament, o: Order) {
    o.EndRegistration? || o.ForfeitUnrevealed? || (o.RunBatch? && t.draw.matchesCompleted != t.draw.matchesTotal)
  }

  /** How many fees a successful step charges to t: finalization pays for itself and for all closings to come. */
  function FeesFor(t: Tournament, a: Action, id: nat): nat {
    match a
    case On(i, o) => if i == id && Chargeable(t, o) then 1 else 0
    case EndReveal(i, _, _) => if i == id then 1 else 0
    case FinalizeTournament(i, _) => if i == id then t.roster.participantCount + 2 else 0
    case _ => 0
  }

  function FeesOf(w: World, a: Action, hash: Hash, id: nat): int {
    if id !in w.tours || Step(w, a, hash).Err? then 0
    else FeesFor(w.tours[id], a, id) * w.config.operatorTxFee
  }

  lemma InstructionCosts(t: Tournament, c: Config, now: int, o: Order, hash: Hash)
    requires Inv(t, now) && Instruction(t, c, now, o, hash).Ok?
    ensures Instruction(t, c, now, o, hash).value.t.operatorCosts
         == t.operatorCosts + (if Chargeable(t, o) then c.operatorTxFee else 0)
  {
    hide Inv, Enrol, Blank, MarkRevealed, CloseSlot, PlayBatch, NoneHidden, FromIndex, Share, Vacatable;
    if o.RunBatch? && t.phase == Running { DrawInProgress(t, now); }
  }

  lemma CloseRevealCosts(t: Tournament, c: Config, now: int, refund: Option<Supplied>, slot: Option<Seed>)
    requires CloseReveal(t, c, now, refund, slot).Ok?
    ensures CloseReveal(t, c, now, refund, slot).value.t.operatorCosts == t.operatorCosts + c.operatorTxFee
  {
    hide Vacate, LastActive, Vacatable;
  }

  lemma StepCosts(w: World, a: Action, hash: Hash, id: nat)
    requires WorldInv(w) && id in w.tours && id in Apply(w, a, hash).tours
    ensures Apply(w, a, hash).tours[id].operatorCosts == w.tours[id].operatorCosts + FeesOf(w, a, hash, id)
  {
    hide WorldInv, Inv, Instruction, CloseReveal, Finalize, CloseTournament, Updated, Withdraw, Chargeable;
    TournamentInv(w, id);
    if Step(w, a, hash).Ok? {
      match a
      case On(i, o) => if i == id { InstructionCosts(w.tours[id], w.config, w.now, o, hash); }
      case EndReveal(i, refund, slot) =>
        if i == id { CloseRevealCosts(w.tours[id], w.config, w.now, Resolve(w, id, refund).value, slot); }
      case FinalizeTournament(i, _) => if i == id { FinalizeExact(w.tours[id], w.config, w.now); }
      case _ =>
    }
  }

  /** The fees charged to tournament id along a run. */
  ghost function FeesCharged(w: World, actions: seq<Action>, hash: Hash, id: nat): int
    decreases |actions|
  {
    if actions == [] then 0
    else FeesOf(w, actions[0], hash, id) + FeesCharged(Apply(w, actions[0], hash), actions[1..], hash, id)
  }

  /** Over any run the recorded costs grow by exactly the fees of the instructions that were charged. */
  lemma {:induction false} RunCosts(w: World, actions: seq<Action>, hash: Hash, id: nat)
    requires WorldInv(w) && OwnRun(w, actions, hash) && id in w.tours && id in RunAll(w, actions, hash).tours
    ensures RunAll(w, actions, hash).tours[id].operatorCosts
         == w.tours[id].operatorCosts + FeesCharged(w, actions, hash, id)
    decreases |actions|
  {
    hide WorldInv, Apply, Step, Foreign, FeesOf;
    if actions != [] {
      var w1 := Apply(w, actions[0], hash);
      StepKeeps(w, actions[0], hash);
      NeverReopens(w, id);
      if id in w1.tours {
        StepCosts(w, actions[0], hash, id);
        RunCosts(w1, actions[1..], hash, id);
      } else {
        ClosedStaysClosed(w, actions[0], hash, id);
        GoneForever(w1, actions[1..], hash, id);
      }
    }
  }
}
