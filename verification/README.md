# Prisoner's Arena: a verified model

Prisoner's Arena is an on-chain tournament of the iterated prisoner's dilemma. Players stake, commit to a strategy
(one of nine builtins or a small bytecode program), reveal it, are paired by a deterministic schedule, play, and the
top quarter shares the pool. This project models the three parts of the program and proves what they promise.

**Scheduler** (`Squares`, `Feistel`, `Pairs`, `Offsets`, `Schedule`, `Degrees`, `Listing`). A match index is sent
through a six-round additive Feistel network with cycle-walking and then read as a pair of players, either by
unranking (round-robin) or through sampled offsets on a circle. Proved: the network is a permutation for all keys, the
1000-step walk limit cannot be reached for up to 250000 matches, and every player's number of matches is exact in a
schedule of any size whose lookups all yield a pair.

**Strategies and matches** (`Moves`, `Vm`, `Machine`, `Codec`, `Aligned`, `Strategies`, `Game`, `Parity`, `Laws`,
`PavlovMatches`, `Opcodes`). The bytecode machine, its validator, the builtin strategies and the round loop. Proved:
the array machine with fuel refines a fuel-free semantics, the validator accepts exactly the encodings of valid
programs, six published listings (and a corrected seventh) can replace their builtin in any match, what every opcode
computes, and what scores each strategy can end with against every opponent.

**Protocol** (`Accounts`, `Ledger`, `Rosters`, `Replays`, `Turnout`, `Batches`, `Prizes`, `Protocol`, `Safety`,
`Closing`, `Worlds`, `Runs`, `Conservation`, `Guarantees`, `Fairness`, `Points`, `Windows`, `Costs`, `Scenarios`,
`Progress`, `Arena`). Config, successive tournaments, entries, wallets and the clock as one state machine of atomic
steps; `Arena` is the same program as an object whose methods update the accounts in place, each proved to follow the
step it refines and to keep the object valid; its indexing and subtractions are unguarded where the code's are. Proved
over all runs: the accounting invariants, conservation of lamports, agreement of both score copies with one fold over
the match indices, who plays how many matches and wins which points, every amount of a settlement, the choice of
winners, that every open winner can claim, solvency, that nothing aborts, and exactly when a tournament past
registration can be finished.

`Rng`, `Arith`, `Counting` and `Options` hold the generator and shared arithmetic. All widths are explicit: 64-bit
checked additions fail with an overflow error, and a panic or an unchecked subtraction below zero is the error
`Aborted`, which the reachable states are proved to avoid.

Points where the code decides and its documentation says otherwise:

- With an odd K the circular schedule gives K + 1 matches, not K; degrees are stated as 2 * ceil(K / 2).
- The published Pavlov listing is not Pavlov: both of its jumps land on byte 15. `PavlovPublished` says exactly when
  it moves differently, `PavlovMatchIff` in which matches that shows, and `PavlovCorrected` proves the listing with
  offsets 11 and 2.
- The validator bounds jump targets but does not align them; `MisalignedJumpAccepted` is an accepted program that
  jumps into an immediate, `AlignedProgramFaults` says what alignment would guarantee.
- Blank (refunded) slots keep their numbers, and pairings below the participant count are used as slot numbers, so a
  match drawn with a blank slot is skipped and a player in a slot above the count never plays. `TurnoutIff` gives
  the exact condition for everybody to play the scheduled number of matches, `TurnoutExact` the number otherwise,
  and `NobodyPlaysBothWin` a run from initialization to a field of two in which nobody plays.
- Above 5000 players, a size the code admits, the walk may give up on a match index; its batch then fails for good.
  `BlockedForever` and `CanFinishIff` make a missing pair the exact condition for a tournament to be stuck.
- `close_reveal` compares the refund entry's player and index but not its tournament. With an entry of an older
  tournament the step succeeds, the older account can never be closed, and the player's own entry stays open on a
  blank slot (`ForeignRefundAccepted`, again with the run that leads there). `ForeignAcceptedIff` says exactly which
  entries are accepted; `StepKeepsIff` and `RunKeeps` make this the only way out of the invariant; the theorems over
  runs carry the condition `OwnRun`, which `OwnIdsSuffice` reduces to a check of ids.
- Whether an account holds rent plus the whole pool depends on how the account framework tops up rent when it grows
  the account. It is a hypothesis (`Funded`) of solvency above rent only; `FinalizeSolventIff` gives the exact
  condition and `NobodyPlaysBothWin` an account that misses it. Claims do not need it (`WinnersCanClaim`).

## Model

| member | source | states |
|---|---|---|
| Squares.NewtonFloor | crates/match-logic/src/pairing.rs:136-143 | Newton's loop from x = n terminates at the floor square root (least-counting reference `FloorSqrt`) |
| Squares.NewtonSumFits | crates/match-logic/src/pairing.rs:138-141 | the sum x + n/x of a step never exceeds n + 1, so it cannot overflow the argument's word |
| Squares.IsqrtCeil | crates/match-logic/src/pairing.rs:132-149 | the result is the least h with h * h >= n, for every n below 2^32 - 1 |
| Feistel.ForwardBackward | crates/match-logic/src/pairing.rs:173-186 | for all keys the rounds permute [0, half * half): an explicit inverse undoes them on both sides |
| Feistel.FibonacciNetwork | crates/match-logic/src/pairing.rs:173-186 | on the keys that make its effect plain, six rounds take (l, r) to (13 l + 8 r, 8 l + 5 r) modulo the side: which coordinate each round adds to which |
| Feistel.RoundFnPasses | crates/match-logic/src/pairing.rs:152-154 | the round function with key 0x10000 returns every input below the side |
| Feistel.RoundFnKey | crates/match-logic/src/pairing.rs:152-154 | the key f * 2^48 alone turns by f |
| Feistel.KeysFromStream | crates/match-logic/src/pairing.rs:157-164 | the round keys are the first six words of stream 2^32 - 1 of the seed |
| Feistel.PermuteInjective | crates/match-logic/src/pairing.rs:166-193 | wherever the capped walk returns, values are in the domain and two indices never share one, for every domain size |
| Feistel.PermuteGivesUp | crates/match-logic/src/pairing.rs:174-192 | the walk gives up exactly if the first 1000 iterates all miss the domain |
| Feistel.StaysOutBounded | crates/match-logic/src/pairing.rs:174-191 | an orbit leaves the domain for at most half * half - domain steps (pigeonhole) |
| Feistel.PermuteTotalIfOverhangSmall | crates/match-logic/src/pairing.rs:174-192 | the cap cannot fire while fewer than 1000 grid points lie outside the domain |
| Feistel.OverhangBound | crates/match-logic/src/pairing.rs:171-171 | the grid exceeds the domain by at most 2 * half - 2 points |
| Feistel.PermuteTotal | crates/match-logic/src/pairing.rs:167-193 | for domains up to 250000 and all keys the walk always returns |
| Feistel.TotalIsPermutation | crates/match-logic/src/pairing.rs:166-193 | wherever the walk always returns, for a domain of any size, the map is a permutation of it |
| Feistel.PermuteIsPermutation | crates/match-logic/src/pairing.rs:166-193 | so up to 250000 the map is total, injective and onto [0, domain) |
| Feistel.ApplyRounds | crates/match-logic/src/pairing.rs:175-186 | one pass of the round loop computes the network function |
| Feistel.FeistelPermute | crates/match-logic/src/pairing.rs:167-193 | the walk loop returns the specified permutation value or nothing after 1000 steps |
| Pairs.UnrankRank | crates/match-logic/src/pairing.rs:226-228 | unranking inverts rank = b(b-1)/2 + a on every pair a < b |
| Pairs.UnrankInRange | crates/match-logic/src/pairing.rs:254-258 | ranks below C(n,2) are exactly those of pairs of players below n |
| Pairs.EstimateExact | crates/match-logic/src/pairing.rs:239-247 | the square-root estimate is already the row, so neither correction loop has work to do |
| Pairs.Choose2IsTriangle | crates/match-logic/src/pairing.rs:242-249 | the 32-bit products of the row bounds fit up to row 65536 |
| Pairs.UnrankPair | crates/match-logic/src/pairing.rs:229-251 | the loop form returns the unique pair of that rank |
| Offsets.Available | crates/match-logic/src/pairing.rs:198-198 | d is available exactly when 2 * d < n |
| Offsets.OffsetsToUse | crates/match-logic/src/pairing.rs:125-126 | never more than available or than ceil(k/2), and exactly ceil(k/2) once n >= k + 2 |
| Offsets.FloydDistinct | crates/match-logic/src/pairing.rs:207-220 | whatever is drawn, the sample stays distinct, in range, and grows by one per step |
| Offsets.FloydReaches | crates/match-logic/src/pairing.rs:195-220 | the sampling is onto: every set of m offsets arises from some draws within their ranges |
| Offsets.OffsetsFromStream | crates/match-logic/src/pairing.rs:204-222 | the offsets of a schedule are that sample of stream 0 of the seed |
| Offsets.OffsetsCorrect | crates/match-logic/src/pairing.rs:195-224 | the offsets have the intended number, are strictly increasing and satisfy 0 < 2d < n |
| Offsets.SortIsPermutation | crates/match-logic/src/pairing.rs:222-222 | sorting only reorders |
| Offsets.SortPrefix | crates/match-logic/src/pairing.rs:222-222 | the used part of the buffer is sorted in place |
| Offsets.ComputeOffsets | crates/match-logic/src/pairing.rs:197-224 | the 50-slot buffer ends up holding exactly the specified offsets |
| Schedule.EffectiveK | crates/match-logic/src/pairing.rs:13-22 | up to 200 players K is a full round-robin; above, the configured K where it lies in [49, 99], else the nearer end |
| Schedule.LookupProper | crates/match-logic/src/pairing.rs:75-98 | any pair a lookup returns is ordered, distinct and below n, in schedules of every size |
| Schedule.LookupTotal | crates/match-logic/src/pairing.rs:75-98 | in a schedule of up to 250000 matches every index below the total yields a pair |
| Schedule.SmallPaired | crates/match-logic/src/pairing.rs:75-98 | up to 250000 matches a schedule has all its pairs |
| Schedule.OverhangPaired | crates/match-logic/src/pairing.rs:171-192 | so has one of any size with fewer than 1000 grid points beyond its matches |
| Schedule.TournamentPaired | crates/match-logic/src/pairing.rs:13-22 | and so has every tournament of up to 5000 players |
| Schedule.TournamentSize | crates/match-logic/src/pairing.rs:115-129 | 2 to 5000 players with the adaptive K stay within 250000 matches and the 50 offsets |
| Schedule.TournamentLookup | programs/prisoners-arena/src/instructions/tournament.rs:384-392 | so every match index of such a tournament yields two distinct players |
| Schedule.ShuffleKeepsCounts | crates/match-logic/src/pairing.rs:89-97 | in a schedule of any size that has all its pairs, shuffling changes nothing about how often any set of pairs occurs |
| Schedule.ShuffleNeverAdds | crates/match-logic/src/pairing.rs:166-193 | in a schedule of any size, even where the walk gives up, no set of pairs occurs more often than canonically |
| Degrees.CircularDegree | crates/match-logic/src/pairing.rs:261-271 | in circular mode every player occurs in exactly 2 * ceil(k/2) matches, at any size at which all lookups yield a pair |
| Degrees.CircularNoRepeat | crates/match-logic/src/pairing.rs:261-271 | no two matches of a circular schedule pair the same two players |
| Degrees.RoundRobinPairCount | crates/match-logic/src/pairing.rs:120-123 | in round-robin mode every unordered pair occurs exactly ceil(k/(n-1)) times, at any such size |
| Degrees.RoundRobinDegree | crates/match-logic/src/pairing.rs:253-258 | so every player has (n-1) * ceil(k/(n-1)) matches, at least k |
| Degrees.TournamentDegree | crates/match-logic/src/pairing.rs:13-22 | under the adaptive K exactly n - 1 or 2 * ceil(k/2), never more than 199, at any such size |
| Degrees.ConfiguredDegree | crates/match-logic/src/pairing.rs:13-22 | above 200 players a configured K from 49 to 99 gives every player K matches, or K + 1 if K is odd |
| Degrees.DegreeAtMost | crates/match-logic/src/pairing.rs:13-22 | in a tournament of any size no player is drawn more than 199 times |
| Listing.ListMatchesLookup | crates/match-logic/src/pairing.rs:37-72 | where all lookups yield a pair the full list has the computed length and its i-th element is the i-th lookup: nothing is dropped |
| Listing.MatchCountFits | crates/match-logic/src/pairing.rs:115-129 | match counts fit 32 bits for all players up to 65536 and K up to 65535 |
| Listing.ScheduleFits | crates/match-logic/src/pairing.rs:115-129 | under the adaptive K every schedule of up to 65536 players stays inside the lookup's 32-bit range |
| Listing.DeriveFeistelKeys | crates/match-logic/src/pairing.rs:157-164 | the key loop draws the six specified keys |
| Listing.GetPairingForMatch | crates/match-logic/src/pairing.rs:75-98 | the executable lookup, composed of the loops above, equals the specified one |
| Vm.FuelSuffices | crates/match-logic/src/vm.rs:188-192 | one unit of fuel per remaining byte gives the fuel-free result, from any state |
| Vm.FuelNeverFires | crates/match-logic/src/vm.rs:176-192 | programs of up to 128 bytes never exhaust fuel, on all histories and generators |
| Vm.FuelBoundTight | crates/match-logic/src/vm.rs:188-192 | a 129-byte program loses its move to the fuel limit |
| Machine.Push | crates/match-logic/src/vm.rs:367-374 | appends to the stack, or reports overflow at eight and changes nothing |
| Machine.Pop | crates/match-logic/src/vm.rs:377-383 | takes the top, or reports underflow |
| Machine.Dispatch | crates/match-logic/src/vm.rs:194-357 | one instruction on the array stack agrees with the step semantics and leaves the stack pointer within 0..8; what the step computes is fixed by the Opcodes rows |
| Machine.ExecuteInner | crates/match-logic/src/vm.rs:176-362 | the fetch loop returns the move and generator of the fueled semantics |
| Opcodes.Arithmetic | crates/match-logic/src/vm.rs:259-278 | for all operands ADD, SUB and MUL saturate to a byte, SUB taking the upper from the lower: programs given byte by byte, probed for their value |
| Opcodes.Comparison | crates/match-logic/src/vm.rs:280-299 | GT, LT and EQ compare the lower operand with the upper and leave 1 or 0 |
| Opcodes.Logic | crates/match-logic/src/vm.rs:307-319 | AND and OR treat every nonzero byte as true |
| Opcodes.Recall | crates/match-logic/src/vm.rs:222-234 | OPP_N and MY_N read the move n rounds back, older ones as cooperation; NOT negates |
| Opcodes.Reading | crates/match-logic/src/vm.rs:210-251 | OPP_LAST, MY_LAST, the defection counts capped at 255 and ROUND, on all histories |
| Opcodes.ScoreReading | crates/match-logic/src/vm.rs:343-354 | SCORE_LAST is 3 at first, then 3, 0, 5 or 1 by the last round |
| Opcodes.RandomListing | crates/match-logic/src/vm.rs:253-257 | RAND, PUSH 50, LT, NOT, RETURN is the builtin Random on every generator |
| Opcodes.Doubling | crates/match-logic/src/vm.rs:321-326 | DUP leaves the value twice |
| Opcodes.Terminals | crates/match-logic/src/vm.rs:196-202 | COOP and DEFECT play at once, RETURN defects for every nonzero byte |
| Opcodes.Jumps | crates/match-logic/src/vm.rs:328-341 | jumps count from the byte after the offset; the conditional one is taken for every nonzero byte |
| Opcodes.StackLimit | crates/match-logic/src/vm.rs:367-383 | one to eight pushed values can be returned, none or nine cannot |
| Opcodes.NoOpcode | crates/match-logic/src/vm.rs:356-356 | bytes above 0x18 fault |
| Codec.DecodeEncode | crates/match-logic/src/vm.rs:107-150 | encoding then decoding gives back the program: a byte string has at most one decoding |
| Codec.EncodeDecode | crates/match-logic/src/vm.rs:107-150 | decoding then encoding gives back the bytes |
| Codec.SweepAccepts | crates/match-logic/src/vm.rs:104-156 | from any offset the sweep accepts exactly decodable suffixes with fitting jumps and a terminal |
| Codec.ValidateAccepts | crates/match-logic/src/vm.rs:88-157 | accepted byte strings are exactly the encodings, of 1 to 64 bytes, of valid programs |
| Codec.RejectionJustified | crates/match-logic/src/vm.rs:96-157 | every rejection is justified: the error it names is at the offset it names, length errors are exactly 0 and above 64 bytes |
| Codec.TerminalNeeded | crates/match-logic/src/vm.rs:112-118 | accepted programs contain a COOP, DEFECT or RETURN; those rejected for lack of one contain none |
| Codec.JumpLimit | crates/match-logic/src/vm.rs:128-138 | a jump may reach the end of the program and not beyond |
| Codec.ValidateBytecode | crates/match-logic/src/vm.rs:96-157 | the loop returns the specified verdict, including which error at which offset |
| Aligned.AlignedProgramFaults | crates/match-logic/src/vm.rs:188-361 | with aligned jumps a run fails only by underflow, overflow or falling off the end |
| Aligned.MisalignedJumpAccepted | crates/match-logic/src/vm.rs:128-138 | the validator accepts a program that jumps into an immediate and hits an unknown opcode |
| Game.RoundCountFrom | crates/match-logic/src/game.rs:69-80 | the drawn count stays between the current round and the maximum |
| Game.MatchSetup | crates/match-logic/src/game.rs:100-106 | 20 to 50 rounds up to 1000 participants, 10 to 30 above |
| Game.MatchLength | crates/match-logic/src/game.rs:69-80 | 20 to 50 rounds with a 5 percent chance to end after each, or 10 to 30 with 7 percent above 1000 participants, read off the draws: each earlier draw is at least the chance, a count below the maximum ends with one below it |
| Game.DetermineRoundCount | crates/match-logic/src/game.rs:69-80 | the drawing loop returns the specified count and generator |
| Game.Play | crates/match-logic/src/game.rs:114-140 | the round number equals the length of both histories and of the record |
| Game.ExecutePlayer | crates/match-logic/src/strategy.rs:233-247 | dispatches to the builtin or to the array machine; a fault plays Cooperate |
| Game.RunMatch | crates/match-logic/src/game.rs:93-148 | the round loop returns the specified match result |
| Parity.MatchAlike | crates/match-logic/src/game.rs:114-140 | players that move alike in every reachable situation give identical match results in either or both seats |
| Parity.TitForTatListing | crates/match-logic/src/vm.rs:856-860 | the two-byte listing moves like TitForTat on all histories |
| Parity.GrimListing | crates/match-logic/src/vm.rs:862-869 | the listing moves like GrimTrigger on all histories |
| Parity.SuspiciousListing | crates/match-logic/src/vm.rs:871-886 | the listing moves like SuspiciousTitForTat when the round is the history length |
| Parity.TwoTatsListing | crates/match-logic/src/vm.rs:888-907 | the listing moves like TitForTwoTats when the round is the history length |
| Parity.ListingsInterchangeable | crates/match-logic/src/vm.rs:844-907 | the six listings are interchangeable with their builtins |
| Parity.PavlovPublished | crates/match-logic/src/vm.rs:909-934 | the published listing moves like Pavlov exactly when the last round was not a betrayed cooperation |
| PavlovMatches.ListedLikePavlov | crates/match-logic/src/vm.rs:909-934 | after any number of rounds, against anyone in either seat, the published listing has played exactly like Pavlov, or the records differ once Pavlov was betrayed |
| PavlovMatches.PavlovMatchIff | crates/match-logic/src/vm.rs:909-934 | replacing Pavlov by its published listing leaves a match unchanged if and only if Pavlov's match has no betrayed cooperation before its last round |
| PavlovMatches.DefectorTellsApart | crates/match-logic/src/vm.rs:909-934 | every match against AlwaysDefect tells the two apart |
| Parity.PavlovCorrected | crates/match-logic/src/strategy.rs:127-151 | with jump offsets 11 and 2 the listing is Pavlov |
| Parity.ListingParity | crates/match-logic/src/game.rs:93-148 | a builtin may be replaced by its listing in either seat against anyone: the whole match result is unchanged |
| Laws.ScoreLaw | crates/match-logic/src/lib.rs:25-32 | in every match the margin is 5 per excess defection and each round hands out 2 to 6 points |
| Laws.TotalsExact | crates/match-logic/src/lib.rs:25-32 | both totals of every match exactly, from the numbers of rounds with each pair of moves |
| Laws.ConstantTotals | crates/match-logic/src/lib.rs:25-32 | over R rounds two defectors end at R each, two cooperators at 3R, a defector takes 5R off a cooperator |
| Laws.RecordFaithful | crates/match-logic/src/game.rs:123-139 | the recorded rounds are the histories with their payoffs, running and final totals |
| Laws.MatchScoreRange | crates/match-logic/src/game.rs:93-148 | 10 to 50 rounds and at most 250 points per player |
| Laws.TitForTatMargin | crates/match-logic/src/strategy.rs:99-107 | against every opponent TitForTat ends level or exactly 5 behind |
| Laws.SuspiciousMargin | crates/match-logic/src/strategy.rs:154-166 | SuspiciousTitForTat ends level or exactly 5 ahead |
| Laws.GrimMargin | crates/match-logic/src/strategy.rs:110-122 | GrimTrigger is never more than 5 behind |
| Laws.TwoTatsMargin | crates/match-logic/src/strategy.rs:180-193 | TitForTwoTats never ends ahead |
| Laws.ConstantMargins | crates/match-logic/src/strategy.rs:75-76 | AlwaysDefect never ends behind, AlwaysCooperate never ahead |
| Laws.GradualBudget | crates/match-logic/src/strategy.rs:195-221 | after n defections of the opponent Gradual has made at most 1 + 2 + ... + n |
| Laws.GradualMove | crates/match-logic/src/strategy.rs:214-220 | in every round of every match Gradual cooperates exactly when it has answered n defections with 1 + 2 + ... + n |
| Laws.GradualCatchesUp | crates/match-logic/src/strategy.rs:195-221 | after any number of rounds Gradual owes nothing, or has defected ever since the round in which it last did not |
| Rosters.EnrolKeeps | programs/prisoners-arena/src/instructions/player.rs:81-102 | joining keeps vectors, entries and counters in agreement |
| Rosters.BlankKeeps | programs/prisoners-arena/src/instructions/player.rs:259-267 | so does blanking a slot and closing its entry |
| Rosters.RevealKeeps | programs/prisoners-arena/src/instructions/player.rs:192-201 | so does recording a revealed strategy |
| Rosters.ActiveCount | programs/prisoners-arena/src/state.rs:111-112 | the participant count is the number of slots in use |
| Rosters.AllRevealed | programs/prisoners-arena/src/instructions/tournament.rs:124-128 | once reveals equal participants no slot in use is hidden |
| Protocol.LastActive | programs/prisoners-arena/src/instructions/tournament.rs:144-146 | finds the last slot in use, or none if there is none |
| Replays.ReplayBounds | programs/prisoners-arena/src/instructions/tournament.rs:445-464 | a slot has at most 250 points per match, plays only matches it is drawn in, and none when blank |
| Replays.TournamentBounds | programs/prisoners-arena/src/instructions/tournament.rs:445-464 | in a field of any size at most 199 matches per slot and 250 points per match, so no score or counter addition overflows |
| Points.PlayMatchPoints | programs/prisoners-arena/src/instructions/tournament.rs:408-464 | a match gives the lower slot the points of the first and the higher slot those of the second player, as announced by the strategy bytes in the vector, and nobody else anything |
| Points.AnnouncedPlays | programs/prisoners-arena/src/state.rs:308-329 | the player an entry fields is the builtin its slot's byte stands for, or its program |
| Points.DefectorGains | programs/prisoners-arena/src/instructions/tournament.rs:434-443 | a slot with byte 1 gains 5 per round from a slot with byte 2, which gains nothing |
| Points.LeadByByte | crates/match-logic/src/strategy.rs:99-193 | what a match can do to a slot by its byte, against every opponent in either seat: TitForTat level or 5 behind, and so on |
| Points.ListingScores | programs/prisoners-arena/src/state.rs:308-312 | a custom entry holding a listing scores as that builtin |
| Points.ReplayPoints | programs/prisoners-arena/src/instructions/tournament.rs:445-464 | the fold gives every slot the sum of its own points |
| Points.ScoreIsSum | programs/prisoners-arena/src/instructions/tournament.rs:445-464 | so every score on the accounts is what its slot won in the matches completed |
| Points.SeatedAsAnnounced | programs/prisoners-arena/src/instructions/tournament.rs:408-432 | a running tournament seats exactly the announced players |
| Turnout.PlayedExact | programs/prisoners-arena/src/instructions/tournament.rs:394-451 | a slot's match counter is exactly the number of drawn matches whose two slots are both in use |
| Turnout.RoundRobinTurnout | programs/prisoners-arena/src/instructions/tournament.rs:394-404 | with blank slots, over a schedule that has its pairs, a round-robin slot plays each opponent in use ceil(k/(n-1)) times |
| Turnout.CircularTurnout | programs/prisoners-arena/src/instructions/tournament.rs:394-404 | with blank slots, over a schedule that has its pairs, a circular slot plays each sampled neighbour in use once |
| Turnout.NeverPlays | programs/prisoners-arena/src/instructions/tournament.rs:384-398 | a slot numbered at or above the participant count never plays |
| Turnout.FullTurnout | programs/prisoners-arena/src/instructions/tournament.rs:384-404 | with all slots below the count in use, each plays every match it is drawn in |
| Fairness.CompletePaired | programs/prisoners-arena/src/instructions/tournament.rs:383-392 | a schedule that has been played to its end had all its pairs, however large the field |
| Fairness.TurnoutIff | programs/prisoners-arena/src/instructions/tournament.rs:384-404 | in a complete schedule of any size every player has played the scheduled number exactly when no slot below the participant count is blank |
| Fairness.PlaysExactlyK | crates/match-logic/src/pairing.rs:24-26 | "exactly K matches each" holds exactly when, besides, the field is at most 200 or K is even |
| Fairness.TurnoutExact | programs/prisoners-arena/src/instructions/tournament.rs:384-404 | every entry's exact match count, whatever slots are blank, in both modes |
| Scenarios.NobodyPlaysBothWin | programs/prisoners-arena/src/instructions/tournament.rs:400-404 | from every suitable start a run reaches a complete field of two with a refunded first slot: nobody has played, both win at score 0, and an account short of its rent ends insolvent |
| Scenarios.NobodyPlays | programs/prisoners-arena/src/instructions/tournament.rs:394-404 | in any complete field of two whose first slot is blank nobody has played or scored |
| Scenarios.ExampleSuits | programs/prisoners-arena/src/instructions/admin.rs:60-139 | a concrete start that suits both runs |
| Batches.PlayMatchSynced | programs/prisoners-arena/src/instructions/tournament.rs:380-466 | one match on the accounts is one step of the fold, blank slots skipped |
| Batches.PlayBatchSynced | programs/prisoners-arena/src/instructions/tournament.rs:375-476 | a batch of any size continues the fold and keeps both score copies equal |
| Batches.PlayBatchSplits | programs/prisoners-arena/src/instructions/tournament.rs:350-381 | cutting a batch in two gives the same accounts |
| Batches.EntryBounds | programs/prisoners-arena/src/instructions/tournament.rs:445-451 | entries of a reachable field of any size stay within 199 matches and 250 points per match |
| Batches.PlayMatchOutcome | programs/prisoners-arena/src/instructions/tournament.rs:383-464 | a match without a pair fails as invalid; one with a pair succeeds exactly if a slot is blank or both entry accounts are supplied |
| Batches.PlayBatchOutcome | programs/prisoners-arena/src/instructions/tournament.rs:375-476 | with all entries supplied a batch of any size succeeds exactly when each of its matches has a pair |
| Batches.PlayBatchPaired | programs/prisoners-arena/src/instructions/tournament.rs:383-392 | all matches of a batch that succeeds had a pair |
| Prizes.ThresholdSelects | programs/prisoners-arena/src/instructions/tournament.rs:623-644 | at least ceil(n/4) scores reach the threshold and fewer than that exceed it |
| Guarantees.TopQuarter | programs/prisoners-arena/src/instructions/tournament.rs:623-644 | in payout at least a quarter of the field reaches the threshold and less than a quarter exceeds it |
| Prizes.ActiveScoresCount | programs/prisoners-arena/src/instructions/tournament.rs:624-628 | counting in the filtered list is counting slots in use |
| Prizes.SettleConserves | programs/prisoners-arena/src/instructions/tournament.rs:646-687 | fee, dust, reimbursement and remaining balance add up to the balance before |
| Prizes.SettleExact | programs/prisoners-arena/src/instructions/tournament.rs:646-687 | every amount of a settlement in plain arithmetic: fee of bps in 10000 rounded down, winner pool plus dust, dust below the number of winners, reimbursement and rest |
| Prizes.SettleFunded | programs/prisoners-arena/src/instructions/tournament.rs:646-687 | a funded account reimburses the costs in full and leaves the winners the pool without fee and costs, or nothing |
| Prizes.SettleSolvent | programs/prisoners-arena/src/instructions/tournament.rs:646-687 | with balance at least rent + pool nothing underflows and rent + winner pool stay; at equality the parts add up to the pool |
| Prizes.SettleCovers | programs/prisoners-arena/src/instructions/tournament.rs:646-687 | a balance of at least the pool holds the whole winner pool after settlement, whatever the rent |
| Prizes.SettleSolventIff | programs/prisoners-arena/src/instructions/tournament.rs:646-687 | exactly when the winner pool stays covered above rent, for any balance above rent |
| Safety.EnterKeeps | programs/prisoners-arena/src/instructions/player.rs:43-112 | entering keeps the tournament invariant |
| Safety.RefundKeeps | programs/prisoners-arena/src/instructions/player.rs:239-277 | refunding keeps it |
| Safety.RefundSucceeds | programs/prisoners-arena/src/instructions/player.rs:239-277 | a registrant's refund of stake and rent cannot fail during registration |
| Safety.CloseRegistrationKeeps | programs/prisoners-arena/src/instructions/tournament.rs:29-67 | closing registration keeps the invariant with at least two participants |
| Safety.RevealStrategyKeeps | programs/prisoners-arena/src/instructions/player.rs:131-211 | an accepted reveal keeps it; stored programs are validated ones |
| Safety.ForfeitKeeps | programs/prisoners-arena/src/instructions/tournament.rs:266-316 | a forfeit keeps it |
| Safety.LastActiveFound | programs/prisoners-arena/src/instructions/tournament.rs:141-163 | the search for the player to refund succeeds and finds an open entry of that slot |
| Safety.CloseRevealKeeps | programs/prisoners-arena/src/instructions/tournament.rs:104-236 | closing the reveal phase with the tournament's own entry, or an even field, leaves an even field of at least two and its schedule |
| Safety.EvenOutAccepts | programs/prisoners-arena/src/instructions/tournament.rs:141-163 | the odd-player refund succeeds exactly for an entry, of whatever tournament, with the last active player and slot |
| Safety.ForeignRefundBreaks | programs/prisoners-arena/src/instructions/tournament.rs:150-189 | an entry of another tournament with the same player and index is accepted and leaves the player's own entry open on a blank slot |
| Closing.NoneHiddenWhileRunning | programs/prisoners-arena/src/instructions/tournament.rs:364-372 | the belt-and-suspenders check can never fail |
| Closing.RunMatchesKeeps | programs/prisoners-arena/src/instructions/tournament.rs:339-486 | a batch advances the counter by at most five and keeps the fold |
| Closing.RunMatchesOutcome | programs/prisoners-arena/src/instructions/tournament.rs:339-486 | a batch fails only for cost overflow, a missing entry account, or a match without a pair |
| Closing.FinalizeKeeps | programs/prisoners-arena/src/instructions/tournament.rs:557-690 | after finalization the winners are the top quarter with ties, every winner's entry is open, and the account holds all their shares |
| Closing.FinalizeExact | programs/prisoners-arena/src/instructions/tournament.rs:557-687 | what finalization does to costs, fee counter, config, operator, winner pool and account, in plain arithmetic |
| Closing.FinalizeSolvent | programs/prisoners-arena/src/instructions/tournament.rs:646-690 | a funded tournament covers rent and one share per open winner |
| Closing.FinalizeSolventIff | programs/prisoners-arena/src/instructions/tournament.rs:646-690 | exactly when finalization leaves the account solvent |
| Closing.FinalizeNeverAborts | programs/prisoners-arena/src/instructions/tournament.rs:641-687 | no division by zero and no subtraction below zero in any reachable state |
| Closing.ClaimPayoutKeeps | programs/prisoners-arena/src/instructions/player.rs:305-355 | a claim keeps the payout invariant and solvency |
| Closing.CloseEntryKeeps | programs/prisoners-arena/src/instructions/tournament.rs:777-830 | closing an entry, before or after expiry, keeps them |
| Closing.InTimeWinnerPaid | programs/prisoners-arena/src/instructions/player.rs:332-345 | a winner who claims in time always gets exactly winner_pool / winner_count and the entry's rent; being closed pays the same exactly when a share can be spared above rent |
| Closing.CloseTournamentReady | programs/prisoners-arena/src/instructions/tournament.rs:866-878 | with all entries closed, time has expired or all winners have claimed |
| Runs.StepKeeps | programs/prisoners-arena/src/lib.rs:27-114 | every instruction, succeeding or failing, keeps the world invariant unless it refunds with an entry of another tournament |
| Runs.StepKeepsIff | programs/prisoners-arena/src/instructions/tournament.rs:91-163 | a successful step keeps the invariant if and only if its refund entry is of its own tournament |
| Runs.ForeignAcceptedIff | programs/prisoners-arena/src/instructions/tournament.rs:150-163 | when a reveal phase is due with an odd count, a refund entry of another tournament is accepted exactly if it exists with the last active player's key and slot number |
| Runs.ForeignStuck | programs/prisoners-arena/src/instructions/tournament.rs:156-187 | after a foreign refund the older tournament counts an entry that is gone |
| Runs.StuckForever | programs/prisoners-arena/src/instructions/tournament.rs:855-878 | such a tournament is never closed again, whatever is attempted |
| Runs.OwnIdsSuffice | programs/prisoners-arena/src/instructions/tournament.rs:91-99 | naming each tournament's own entry is enough, in any run |
| Runs.RunKeeps | programs/prisoners-arena/src/lib.rs:27-114 | a run across successive tournaments ends with the invariant if and only if no refund in it was foreign |
| Runs.InitializeInv | programs/prisoners-arena/src/instructions/admin.rs:60-139 | initialization establishes it |
| Windows.InitializeAccepts | programs/prisoners-arena/src/instructions/admin.rs:74-85 | initialization is accepted exactly for parameters in range and an admin who can pay both rents |
| Windows.FirstTerms | programs/prisoners-arena/src/instructions/admin.rs:60-139 | config and first tournament carry the parameters of the initialization, each its own |
| Windows.NextTerms | programs/prisoners-arena/src/instructions/tournament.rs:693-722 | every later tournament carries the config values of the moment its predecessor was finalized |
| Windows.RegistrationWindow | programs/prisoners-arena/src/instructions/tournament.rs:29-67 | registration closes exactly from its end on with enough participants, and opens a reveal window of the agreed length |
| Windows.JoiningWindow | programs/prisoners-arena/src/instructions/player.rs:43-112 | a player may join exactly until the slot vector is full; stake, commitment and slot are recorded |
| Windows.CommittedReveals | programs/prisoners-arena/src/instructions/player.rs:131-211 | what was committed to can be revealed up to the deadline, and is what is stored |
| Windows.RevealDeadline | programs/prisoners-arena/src/instructions/player.rs:148-152 | after the deadline nothing is revealed; not before it is anything forfeited or the phase closed |
| Windows.ForfeitAssigns | programs/prisoners-arena/src/instructions/tournament.rs:284-306 | after it every unrevealed entry can be given the builtin of its drawn byte modulo 9 |
| Windows.DrawFixed | programs/prisoners-arena/src/instructions/tournament.rs:203-226 | what the end of the reveal phase fixes: seed, K, number of matches, round tier |
| Windows.EmptyFieldStarts | programs/prisoners-arena/src/instructions/tournament.rs:130-139 | a field that is empty when the reveal phase closes runs with no matches |
| Windows.EmptyFieldSwept | programs/prisoners-arena/src/instructions/tournament.rs:593-621 | finalizing it reimburses the operator, leaves the account its rent and the rest to the fees |
| Windows.BatchSize | programs/prisoners-arena/src/instructions/tournament.rs:350-351 | a batch plays five matches or what is left |
| Windows.ClaimWindow | programs/prisoners-arena/src/instructions/player.rs:316-330 | claims are open for exactly thirty days after finalization |
| Windows.ExpiredShare | programs/prisoners-arena/src/instructions/tournament.rs:795-807 | from then on a share goes to the fees and not to the player |
| Windows.LoserClosed | programs/prisoners-arena/src/instructions/tournament.rs:787-827 | whoever did not win gets the rent of the entry and nothing else |
| Windows.ClosingExact | programs/prisoners-arena/src/instructions/tournament.rs:855-889 | a tournament in payout can be closed exactly when no entry is left, and leaves all it holds to the fees |
| Windows.UpdateExact | programs/prisoners-arena/src/instructions/admin.rs:156-224 | an update is accepted exactly if every value is in range, and sets each parameter to its own value and nothing else |
| Costs.StepCosts | programs/prisoners-arena/src/instructions/tournament.rs:358-362 | a step adds one fee for each charged instruction; finalization adds one for itself, one per open entry and one for the account |
| Costs.RunCosts | programs/prisoners-arena/src/instructions/tournament.rs:569-585 | over any run the recorded costs grow by exactly the fees of the instructions charged |
| Runs.WithdrawPaysAll | programs/prisoners-arena/src/instructions/admin.rs:243-263 | the config account holds rent and recorded fees to the lamport, so a withdrawal pays the whole recorded amount |
| Scenarios.ForeignRefundAccepted | programs/prisoners-arena/src/instructions/tournament.rs:150-189 | from every suitable start a run with own refunds reaches a world in which closing tournament 1 with an entry of tournament 0 succeeds and leaves tournament 0 unclosable in every later run |
| Conservation.InstructionBalanced | programs/prisoners-arena/src/instructions/player.rs:239-345 | each instruction only moves lamports between tournament, entries, config and one wallet |
| Conservation.FinalizeBalanced | programs/prisoners-arena/src/instructions/tournament.rs:593-690 | so does finalization |
| Conservation.RevealTotal | programs/prisoners-arena/src/instructions/tournament.rs:165-187 | so does closing the reveal phase, even with an entry of another tournament or one that outlived its tournament |
| Conservation.RunConserves | programs/prisoners-arena/src/lib.rs:27-114 | over every run, foreign refunds and orphaned entries included, the total of all accounts is unchanged |
| Conservation.ReachableTotal | programs/prisoners-arena/src/instructions/admin.rs:60-139 | in every run from initialization on the total is what the wallets started with, and bounds every balance, pool and fee counter |
| Guarantees.Reachable | programs/prisoners-arena/src/instructions/admin.rs:60-139 | a state reached from initialization satisfies the invariant if and only if no refund was foreign |
| Guarantees.CountersExact | programs/prisoners-arena/src/instructions/player.rs:96-102 | before payout: equal vector lengths, both counts are the slots in use, reveals are the revealed slots, pool = stake * participants |
| Guarantees.FieldNeverEmpty | programs/prisoners-arena/src/instructions/tournament.rs:591-621 | running and payout fields are even and at least two; the empty-field branch is never taken |
| Guarantees.RunEvolves | programs/prisoners-arena/src/state.rs:78-86 | over any run phases never go back, terms stay, the fixture stays while running, the outcome stays during payout |
| Guarantees.GoneForever | programs/prisoners-arena/src/instructions/tournament.rs:693-695 | a closed tournament's id is never used again |
| Guarantees.ScoresAreFold | programs/prisoners-arena/src/state.rs:250-251 | in every running state both score copies are the fold over the completed matches |
| Guarantees.OneFold | programs/prisoners-arena/src/instructions/tournament.rs:350-476 | any batching and interleaving that completes leaves the scores of one fold over all match indices |
| Guarantees.OneOutcome | programs/prisoners-arena/src/instructions/tournament.rs:557-690 | two runs from one running world that both reach payout fix the same scores, threshold, number of winners and winning slots, a function of the fixture |
| Guarantees.ScoreBounds | programs/prisoners-arena/src/instructions/tournament.rs:445-451 | however large the field, no entry exceeds 199 matches or 250 points per match |
| Guarantees.WinnersCanClaim | programs/prisoners-arena/src/instructions/player.rs:305-345 | funded or not, in every later state every open winner can claim exactly the share fixed at finalization until claims expire |
| Guarantees.SolventForever | programs/prisoners-arena/src/instructions/tournament.rs:787-825 | once solvent in payout, solvent in every later state until closed, with the same share |
| Guarantees.FundedWinnersPaid | programs/prisoners-arena/src/instructions/tournament.rs:808-820 | after a funded finalization the operator closing a winner in time pays exactly what the claim would, in every later state |
| Guarantees.AlwaysCloseable | programs/prisoners-arena/src/instructions/tournament.rs:855-889 | a payout tournament without open entries can be closed |
| Guarantees.InstructionNeverAborts | programs/prisoners-arena/src/instructions/player.rs:256-267 | no instruction on a reachable tournament, with whatever accounts, indexes out of bounds, divides by zero or underflows |
| Guarantees.StepNeverAborts | programs/prisoners-arena/src/lib.rs:27-114 | the same for every step of the program in every reachable world |
| Guarantees.NeverAborts | programs/prisoners-arena/src/lib.rs:27-114 | the same for every run from initialization on |
| Guarantees.RevealBinds | programs/prisoners-arena/src/instructions/player.rs:157-190 | without a hash collision an entry can be revealed in one way only |
| Progress.FinishPayout | programs/prisoners-arena/src/instructions/tournament.rs:777-904 | in payout all open entries and then the account can be closed |
| Progress.FinishRunning | programs/prisoners-arena/src/instructions/tournament.rs:339-737 | a running tournament of any size that has the pairs it still needs can be played out, finalized and closed |
| Progress.ToRunning | programs/prisoners-arena/src/instructions/tournament.rs:104-316 | after the reveal deadline the missing players can be forfeited and the phase closed |
| Progress.BlockedForever | programs/prisoners-arena/src/instructions/tournament.rs:383-392 | with one pair missing ahead, no run with whatever refunds gets the tournament past its matches |
| Progress.CanFinishIff | programs/prisoners-arena/src/instructions/tournament.rs:339-904 | a running tournament can be finished if and only if every match still to be played has a pair |
| Progress.CanFinish | programs/prisoners-arena/src/instructions/tournament.rs:29-904 | from every valid world with amounts within 64 bits, a tournament past registration that has its pairs, or will have them with the seed drawn, has a sequence of instructions after which its account is gone |
| Progress.SmallFieldFinishes | programs/prisoners-arena/src/instructions/tournament.rs:29-904 | so up to 5000 players every tournament past registration can be finished |
| ArenaProgram.FindLastActive | programs/prisoners-arena/src/instructions/tournament.rs:144-146 | the backward search returns the last slot in use |
| ArenaProgram.CollectScores | programs/prisoners-arena/src/instructions/tournament.rs:624-628 | the filter returns the scores of the slots in use, in order |
| ArenaProgram.CountWinners | programs/prisoners-arena/src/instructions/tournament.rs:641-644 | the count is the number of scores at or above the threshold |
| ArenaProgram.AnyHidden | programs/prisoners-arena/src/instructions/tournament.rs:365-372 | the scan finds a hidden active strategy exactly when there is one |
| ArenaProgram.PlayNext | programs/prisoners-arena/src/instructions/tournament.rs:380-466 | one pass of the batch loop, through the verified lookup, round loop and machine, has the specified effect or error |
| ArenaProgram.PlayMatches | programs/prisoners-arena/src/instructions/tournament.rs:380-476 | the batch loop has the effect of the specified batch, or its first error |
| ArenaProgram.RefundOdd | programs/prisoners-arena/src/instructions/tournament.rs:141-189 | the odd-player refund, with an entry of any tournament, has the specified effect or error |
| ArenaProgram.Start | programs/prisoners-arena/src/instructions/tournament.rs:191-226 | fixes the specified schedule, or an empty one |
| ArenaProgram.CloseField | programs/prisoners-arena/src/instructions/tournament.rs:104-236 | the reveal phase of one tournament is closed with the specified effect or error |
| ArenaProgram.SettleEntry | programs/prisoners-arena/src/instructions/tournament.rs:777-830 | one entry is closed with the specified effect or error |
| ArenaProgram.CloseBooks | programs/prisoners-arena/src/instructions/tournament.rs:557-690 | one tournament is finalized with the specified effect or error |
| ArenaProgram.EraseEntry | programs/prisoners-arena/src/instructions/tournament.rs:176-187 | an entry account is erased wherever it lives |
| ArenaProgram.PayWinners | programs/prisoners-arena/src/instructions/tournament.rs:622-690 | the settlement code computes the specified winners and division |
| ArenaProgram.SweepEmpty | programs/prisoners-arena/src/instructions/tournament.rs:593-621 | the empty-field branch has the specified effect |
| ArenaProgram.Arena.EnterTournament | programs/prisoners-arena/src/instructions/player.rs:43-112 | the accounts become those of the step, or stay unchanged with its error; validity and the total of lamports are kept and nothing aborts |
| ArenaProgram.Arena.ClaimRefund | programs/prisoners-arena/src/instructions/player.rs:239-277 | the same for refunds |
| ArenaProgram.Arena.CloseRegistration | programs/prisoners-arena/src/instructions/tournament.rs:29-67 | the same for closing registration |
| ArenaProgram.Arena.RevealStrategy | programs/prisoners-arena/src/instructions/player.rs:131-211 | the same for reveals |
| ArenaProgram.Arena.ForfeitUnrevealed | programs/prisoners-arena/src/instructions/tournament.rs:266-316 | the same for forfeits |
| ArenaProgram.Arena.CloseReveal | programs/prisoners-arena/src/instructions/tournament.rs:104-236 | the same for closing the reveal phase, with validity lost exactly by a foreign refund |
| ArenaProgram.Arena.RunMatches | programs/prisoners-arena/src/instructions/tournament.rs:339-486 | the same for a batch of matches |
| ArenaProgram.Arena.FinalizeTournament | programs/prisoners-arena/src/instructions/tournament.rs:557-737 | the same for finalization, which also opens the next tournament |
| ArenaProgram.Arena.ClaimPayout | programs/prisoners-arena/src/instructions/player.rs:305-355 | the same for claims |
| ArenaProgram.Arena.CloseEntry | programs/prisoners-arena/src/instructions/tournament.rs:777-830 | the same for closing an entry |
| ArenaProgram.Arena.CloseTournament | programs/prisoners-arena/src/instructions/tournament.rs:855-904 | the same for closing a tournament |
| ArenaProgram.Arena.UpdateConfig | programs/prisoners-arena/src/instructions/admin.rs:156-224 | the same for config updates: one bad value rejects all |
| ArenaProgram.Arena.WithdrawFees | programs/prisoners-arena/src/instructions/admin.rs:243-263 | the same for fee withdrawals |
| ArenaProgram.InitializeConfig | programs/prisoners-arena/src/instructions/admin.rs:60-139 | initialization returns a valid object with the specified world, or its error |

## Left out

- The values of the xorshift generator: it is modelled bit by bit, but nothing is claimed about its words beyond the ranges of its draws and which stream serves what.
- Expected round counts and other floating-point display code.
- SHA-256 and address derivation: the hash is an arbitrary function, an entry belongs to its tournament and player.
- Signer and account constraints, serialization and account growth: what the framework adds or demands when an account grows is an input of the entering step.
- The derivation of the seed and of a forfeiter's strategy byte from slot hashes: both are step inputs that may be unavailable.
- Timestamp overflow: times are unbounded integers.
- The wasm bindings, JSON parsing, descriptions and log messages.
- Byte layouts and sizes of the accounts.
- Which seeds leave a schedule of more than 250000 matches without a pair: the results hold wherever all lookups yield one, which is proved up to 250000 matches or 1000 surplus grid points.
- ArenaProgram.PayWinners: the library sort of the scores is the specification's sort function, because only its order matters.
- Listing.GetPairingForMatch: requires at most 65536 players and a total below 2^32 - 1, the range in which the 32-bit products of the source do not overflow.
- The account that receives the odd-player refund: it is the player named by the entry; the source rejects any other.
- Guarantees.WinnersCanClaim: the handler pays a share that takes the account below its rent minimum; whether the runtime then rejects the transaction is not modelled.
- The width of the tournament id: it is 32 bits in the source and unbounded here.
