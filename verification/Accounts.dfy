/** The accounts of the program: global config, tournaments with their entries, wallets. */
module Accounts {
  import opened Options
  import opened Rng
  import opened Strategies

  /** Public keys; 0 stands for the default key, which no signer can hold. */
  type Key = nat

  const DEFAULT: Key := 0
  /** Sentinel in the strategies vector: not revealed, or slot refunded. */
  const HIDDEN: Byte := 255

  const CLAIM_EXPIRY_SECONDS: int := 2_592_000
  const TOURNAMENT_CLOSURE_SECONDS: int := 2_592_000
  const MATCHES_PER_TX: nat := 5

  const U16_SIZE: nat := 65536
  type U16 = x: nat | x < U16_SIZE

  datatype Error =
    | InvalidState | RegistrationClosed | NotWinner | AlreadyPaid | MatchesIncomplete | NoFeesToWithdraw
    | ClaimExpired | SlotHashUnavailable | TournamentFull | InvalidEntryAccount | InvalidMinParticipants
    | OverflowError | InvalidMatch | RegistrationOpen | EntriesRemaining | TournamentNotCloseable
    | CommitmentMismatch | AlreadyRevealed | RevealPeriodEnded | RevealPeriodNotEnded | UnprocessedForfeits
    | UnrevealedStrategy | MinParticipantsNotReached | InvalidBytecode
    /** An account the framework resolves is missing, already in use, or cannot pay. */
    | AccountMissing | AccountInUse | InsufficientFunds
    /** A panic: an index out of bounds, a division by zero or an unchecked subtraction below zero. */
    | Aborted

  datatype Result<+T> = Ok(value: T) | Err(error: Error) {
    predicate IsFailure() { Err? }
    function PropagateFailure<U>(): Result<U>
      requires Err?
    {
      Err(error)
    }
    function Extract(): T
      requires Ok?
    {
      value
    }
  }

  datatype Check = Pass | Fail(error: Error) {
    predicate IsFailure() { Fail? }
    function PropagateFailure<U>(): Result<U>
      requires Fail?
    {
      Err(error)
    }
  }

  function Require(condition: bool, error: Error): Check { if condition then Pass else Fail(error) }

  /** 64-bit checked addition. */
  function CheckedAdd(a: nat, b: nat): Result<nat> {
    if a + b < U64_SIZE then Ok(a + b) else Err(OverflowError)
  }

  function SaturatingSub(a: nat, b: nat): nat { if a <= b then 0 else a - b }

  function Min(a: nat, b: nat): nat { if a <= b then a else b }

  /** A strategy as stored in an entry: one of the nine builtins, or custom bytecode. */
  datatype Choice = Standard(base: Base) | CustomCode

  function Index(c: Choice): Byte {
    match c
    case CustomCode => 9
    case Standard(base) =>
      match base
      case TitForTat => 0
      case AlwaysDefect => 1
      case AlwaysCooperate => 2
      case GrimTrigger => 3
      case Pavlov => 4
      case SuspiciousTitForTat => 5
      case Random => 6
      case TitForTwoTats => 7
      case Gradual => 8
  }

  function FromIndex(i: Byte): (c: Option<Choice>)
    ensures c.Some? <==> i <= 9
    ensures c.Some? ==> Index(c.value) == i
  {
    if i > 9 then None
    else if i == 9 then Some(CustomCode)
    else
      Some(Standard(if i == 0 then TitForTat else if i == 1 then AlwaysDefect else if i == 2 then AlwaysCooperate
                    else if i == 3 then GrimTrigger else if i == 4 then Pavlov else if i == 5 then SuspiciousTitForTat
                    else if i == 6 then Random else if i == 7 then TitForTwoTats else Gradual))
  }

  /** The 16-bit upper limit on participants bounds every slot vector. */
  datatype Config = Config(
    operator: Key, admin: Key, houseFeeBps: nat, stake: nat, minParticipants: nat, maxParticipants: U16,
    registrationDuration: int, matchesPerPlayer: nat, accumulatedFees: nat, currentId: nat,
    revealDuration: int, operatorTxFee: nat, lamports: nat, rentMinimum: nat)

  /** A player's entry; the bytecode is empty for builtin strategies. */
  datatype Entry = Entry(
    index: nat, commitment: seq<Byte>, choice: Choice, revealed: bool, score: nat, matchesPlayed: nat, paidOut: bool,
    bytecode: seq<Byte>, lamports: nat)

  /** An entry account: its tournament and its player. */
  datatype EntryRef = EntryRef(tour: nat, player: Key)

  /** Slots in entry order, the open entries by player, and the counters kept about them. */
  datatype Roster = Roster(
    players: seq<Key>, scores: seq<nat>, strategies: seq<Byte>, entries: map<Key, Entry>,
    participantCount: nat, entriesRemaining: nat, revealsCompleted: nat)

  /** Parameters snapshotted from the config when the tournament is created. */
  datatype Terms = Terms(stake: nat, houseFeeBps: nat, matchesPerPlayer: nat, revealDuration: int)

  /** The match schedule fixed when the reveal phase closes, and how far it has been played. */
  datatype Draw = Draw(seed: Seed, matchesPerPlayer: nat, matchesTotal: nat, matchesCompleted: nat, roundTier: nat)

  datatype Prize = Prize(
    minWinningScore: nat, winnerCount: nat, winnerPool: nat, claimsProcessed: nat, payoutStartedAt: int)

  datatype Phase = Registration | Reveal | Running | Payout

  datatype Tournament = Tournament(
    phase: Phase, terms: Terms, registrationEnds: int, revealEnds: int, roster: Roster, draw: Draw, prize: Prize,
    pool: nat, operatorCosts: nat, lamports: nat, rentMinimum: nat)
}
