/** One match of `run_matches` on the accounts, and batches of them, against the fold. */
module Batches {
  import opened Options
  import opened Rng
  import opened Schedule
  import opened Strategies
  import opened Game
  import opened Laws
  import opened Accounts
  import opened Rosters
  import opened Replays

  /** Adds a result to an entry with the source's checks. */
  function Scored(e: Entry, points: nat): Result<Entry> {
    var score := e.score + points;
    :- Require(score < U32_SIZE, OverflowError);
    :- Require(e.matchesPlayed + 1 < U16_SIZE, Aborted);
    Ok(e.(score := score, matchesPlayed := e.matchesPlayed + 1))
  }

  /** Both entries and both slots receive their points. */
  function Record(r: Roster, a: nat, b: nat, ea: Entry, eb: Entry, result: MatchResult): Roster
    requires Shaped(r) && a < |r.players| && b < |r.players|
  {
    r.(entries := r.entries[r.players[a] := ea][r.players[b] := eb],
       scores := AddAt(AddAt(r.scores, a, result.totalA), b, result.totalB))
  }

  /** Match `idx`: skipped if a slot is blank, otherwise played between the two entries. */
  function PlayMatch(r: Roster, d: Draw, idx: nat, accounts: set<Key>): Result<Roster> {
    var n := r.participantCount;
    :- Require(Shaped(r) && Servable(n, d.matchesPerPlayer), Aborted);
    var pairing := GetPairing(n, d.matchesPerPlayer, d.seed, idx);
    :- Require(pairing.Some?, InvalidMatch);
    var (a, b) := pairing.value;
    :- Require(a < |r.players| && b < |r.players|, InvalidMatch);
    var pa, pb := r.players[a], r.players[b];
    if pa == DEFAULT || pb == DEFAULT then Ok(r)
    else
      :- Require(pa in accounts && pa in r.entries && pb in accounts && pb in r.entries, InvalidEntryAccount);
      var ea, eb := r.entries[pa], r.entries[pb];
      :- Require(ea.index == a && eb.index == b, InvalidEntryAccount);
      var result := MatchOf(ToPlayer(ea), ToPlayer(eb), d.seed, idx, n);
      var ea' :- Scored(ea, result.totalA);
      var eb' :- Scored(eb, result.totalB);
      :- Require(r.scores[a] + result.totalA < U32_SIZE && r.scores[b] + result.totalB < U32_SIZE, OverflowError);
      Ok(Record(r, a, b, ea', eb', result))
  }

  /** `count` matches from idx on; the first failure fails the batch. */
  function PlayBatch(r: Roster, d: Draw, idx: nat, count: nat, accounts: set<Key>): Result<Roster>
    decreases count
  {
    if count == 0 then Ok(r)
    else
      var r' :- PlayMatch(r, d, idx, accounts);
      PlayBatch(r', d, idx + 1, count - 1, accounts)
  }

  /** The occupants of the slots. */
  function Occupants(r: Roster): seq<Option<Player>>
    requires Filled(r)
  {
    seq(|r.players|, i requires 0 <= i < |r.players| =>
      if r.players[i] == DEFAULT then None else Some(ToPlayer(r.entries[r.players[i]])))
  }

  function FixtureOf(r: Roster, d: Draw): Fixture
    requires Filled(r)
  {
    Fixture(Occupants(r), r.participantCount, d.matchesPerPlayer, d.seed)
  }

  /** The accounts hold exactly the tally of the first m matches. */
  ghost predicate Synced(r: Roster, d: Draw, m: nat)
    requires Filled(r) && FixtureOf(r, d).Valid()
  {
    var t := Replay(FixtureOf(r, d), m);
    && r.scores == t.scores
    && forall p :: p in r.entries ==>
         r.entries[p].index < |t.played| && r.entries[p].matchesPlayed == t.played[r.entries[p].index]
  }

  /** What playing matches leaves alone. */
  ghost predicate SameEntrants(r: Roster, r': Roster) {
    && r'.players == r.players && r'.strategies == r.strategies && r'.entries.Keys == r.entries.Keys
    && r'.participantCount == r.participantCount && r'.entriesRemaining == r.entriesRemaining
    && r'.revealsCompleted == r.revealsCompleted
    && forall p :: p in r.entries ==> SameEntrant(r.entries[p], r'.entries[p])
  }

  ghost predicate SameEntrant(e: Entry, e': Entry) {
    e' == e.(score := e'.score, matchesPlayed := e'.matchesPlayed)
  }

  lemma SameEntrantsTransitive(r0: Roster, r1: Roster, r2: Roster)
    requires SameEntrants(r0, r1) && SameEntrants(r1, r2)
    ensures SameEntrants(r0, r2)
  {
    forall p | p in r0.entries ensures SameEntrant(r0.entries[p], r2.entries[p]) {
      assert SameEntrant(r0.entries[p], r1.entries[p]) && SameEntrant(r1.entries[p], r2.entries[p]);
    }
  }

  lemma SameFixture(r: Roster, r': Roster, d: Draw)
    requires Filled(r) && SameEntrants(r, r')
    ensures Filled(r') && FixtureOf(r', d) == FixtureOf(r, d)
  {
    forall i | 0 <= i < |r.players| && r.players[i] != DEFAULT
      ensures r'.players[i] in r'.entries && SameEntrant(r.entries[r.players[i]], r'.entries[r.players[i]])
    {}
    assert Filled(r');
    assert Occupants(r') == Occupants(r);
  }

  /** A played match only adds points. */
  lemma PlayMatchEntrants(r: Roster, d: Draw, idx: nat, accounts: set<Key>)
    requires PlayMatch(r, d, idx, accounts).Ok?
    ensures SameEntrants(r, PlayMatch(r, d, idx, accounts).value)
  {
    hide GetPairing, MatchOf, Servable;
    var r' := PlayMatch(r, d, idx, accounts).value;
    assert r'.entries.Keys == r.entries.Keys;
  }

  // ----- one match -----

  /** The outcome of a successful call, spelled out. */
  lemma PlayMatchCases(r: Roster, d: Draw, idx: nat, accounts: set<Key>)
    requires PlayMatch(r, d, idx, accounts).Ok?
    ensures Shaped(r) && Servable(r.participantCount, d.matchesPerPlayer)
    ensures var pairing := GetPairing(r.participantCount, d.matchesPerPlayer, d.seed, idx);
            && pairing.Some? && pairing.value.0 < pairing.value.1 < |r.players|
  {
    hide GetPairing, MatchOf, Servable;
    LookupProper(r.participantCount, d.matchesPerPlayer, d.seed, idx);
  }

  lemma RecordLinked(r: Roster, a: nat, b: nat, ea: Entry, eb: Entry, result: MatchResult)
    requires Linked(r) && a < b < |r.players|
    requires r.players[a] in r.entries && r.players[b] in r.entries
    requires r.entries[r.players[a]].index == a && r.entries[r.players[b]].index == b
    requires Scored(r.entries[r.players[a]], result.totalA) == Ok(ea)
    requires Scored(r.entries[r.players[b]], result.totalB) == Ok(eb)
    ensures Linked(Record(r, a, b, ea, eb, result))
  {
    var r' := Record(r, a, b, ea, eb, result);
    assert EntryLinked(r, r.players[a]) && EntryLinked(r, r.players[b]);
    forall q | q in r'.entries ensures EntryLinked(r', q) {
      assert EntryLinked(r, q);
    }
  }

  lemma PlayMatchLinked(r: Roster, d: Draw, idx: nat, accounts: set<Key>)
    requires Linked(r) && Blanked(r) && PlayMatch(r, d, idx, accounts).Ok?
    ensures Linked(PlayMatch(r, d, idx, accounts).value) && Blanked(PlayMatch(r, d, idx, accounts).value)
  {
    hide GetPairing, MatchOf, Servable, Linked, Scored;
    PlayMatchCases(r, d, idx, accounts);
    var (a, b) := GetPairing(r.participantCount, d.matchesPerPlayer, d.seed, idx).value;
    if r.players[a] != DEFAULT && r.players[b] != DEFAULT {
      var ea, eb := r.entries[r.players[a]], r.entries[r.players[b]];
      var result := MatchOf(ToPlayer(ea), ToPlayer(eb), d.seed, idx, r.participantCount);
      RecordLinked(r, a, b, Scored(ea, result.totalA).value, Scored(eb, result.totalB).value, result);
    }
  }

  lemma SameEntrantsCounted(r: Roster, r': Roster)
    requires SameEntrants(r, r') && Counted(r)
    ensures Counted(r')
  {
    assert r'.entries.Keys == r.entries.Keys;
    assert Revealed(r'.entries) == Revealed(r.entries) by {
      forall p | p in r.entries ensures p in Revealed(r'.entries) <==> p in Revealed(r.entries) {
        assert SameEntrant(r.entries[p], r'.entries[p]);
      }
    }
  }

  lemma PlayMatchInv(r: Roster, d: Draw, idx: nat, accounts: set<Key>)
    requires RosterInv(r) && PlayMatch(r, d, idx, accounts).Ok?
    ensures RosterInv(PlayMatch(r, d, idx, accounts).value)
  {
    hide PlayMatch, Linked, Blanked, Counted, SameEntrants;
    var r' := PlayMatch(r, d, idx, accounts).value;
    PlayMatchEntrants(r, d, idx, accounts);
    PlayMatchLinked(r, d, idx, accounts);
    SameEntrantsCounted(r, r');
    SameFixture(r, r', d);
  }

  /** Playing match m on the accounts is one step of the fold. */
  lemma PlayMatchSynced(r: Roster, d: Draw, m: nat, accounts: set<Key>)
    requires RosterInv(r) && FixtureOf(r, d).Valid() && Synced(r, d, m)
    requires PlayMatch(r, d, m, accounts).Ok?
    ensures var r' := PlayMatch(r, d, m, accounts).value;
            Filled(r') && FixtureOf(r', d) == FixtureOf(r, d) && Synced(r', d, m + 1)
  {
    hide GetPairing, MatchOf, Servable, Linked, Counted, Blanked;
    var r' := PlayMatch(r, d, m, accounts).value;
    PlayMatchEntrants(r, d, m, accounts);
    SameFixture(r, r', d);
    PlayMatchCases(r, d, m, accounts);
    PlayMatchAwards(r, d, m, accounts, Replay(FixtureOf(r, d), m));
  }

  lemma PlayMatchAwards(r: Roster, d: Draw, m: nat, accounts: set<Key>, t: Tally)
    requires RosterInv(r) && FixtureOf(r, d).Valid() && Fits(t, FixtureOf(r, d))
    requires r.scores == t.scores
    requires forall p :: p in r.entries ==>
               r.entries[p].index < |t.played| && r.entries[p].matchesPlayed == t.played[r.entries[p].index]
    requires PlayMatch(r, d, m, accounts).Ok?
    ensures var r', t' := PlayMatch(r, d, m, accounts).value, Award(FixtureOf(r, d), t, m);
            && r'.scores == t'.scores
            && forall p :: p in r'.entries ==>
                 r'.entries[p].index < |t'.played| && r'.entries[p].matchesPlayed == t'.played[r'.entries[p].index]
  {
    hide GetPairing, MatchOf, Servable, Counted, Blanked;
    PlayMatchCases(r, d, m, accounts);
    var (a, b) := GetPairing(r.participantCount, d.matchesPerPlayer, d.seed, m).value;
    var r' := PlayMatch(r, d, m, accounts).value;
    forall p | p in r'.entries
      ensures p in r.entries
      ensures r.entries[p].index == a ==> p == r.players[a]
      ensures r.entries[p].index == b ==> p == r.players[b]
    {
      PlayMatchEntrants(r, d, m, accounts);
      assert EntryLinked(r, p);
    }
  }

  // ----- batches -----

  /** Any batch that succeeds continues the fold: its size and its caller's accounts do not matter. */
  lemma {:induction false} PlayBatchSynced(r: Roster, d: Draw, m: nat, count: nat, accounts: set<Key>)
    requires RosterInv(r) && FixtureOf(r, d).Valid() && Synced(r, d, m)
    requires PlayBatch(r, d, m, count, accounts).Ok?
    ensures var r' := PlayBatch(r, d, m, count, accounts).value;
            && RosterInv(r') && SameEntrants(r, r')
            && FixtureOf(r', d) == FixtureOf(r, d) && Synced(r', d, m + count)
    decreases count
  {
    hide PlayMatch, RosterInv, FixtureOf, Synced, SameEntrants, Filled;
    if count > 0 {
      var r1 := PlayMatch(r, d, m, accounts).value;
      InvIsFilled(r);
      PlayMatchInv(r, d, m, accounts);
      PlayMatchEntrants(r, d, m, accounts);
      PlayMatchSynced(r, d, m, accounts);
      PlayBatchSynced(r1, d, m + 1, count - 1, accounts);
      var r' := PlayBatch(r, d, m, count, accounts).value;
      InvIsFilled(r');
      SameEntrantsTransitive(r, r1, r');
    } else {
      SameEntrantsReflexive(r);
    }
  }

  lemma InvIsFilled(r: Roster)
    requires RosterInv(r)
    ensures Filled(r)
  {}

  lemma SameEntrantsReflexive(r: Roster)
    ensures SameEntrants(r, r)
  {}

  /** The next match of the schedule is m, and the accounts hold the tally of those before it. */
  ghost predicate Ready(r: Roster, d: Draw, configK: nat, m: nat) {
    && RosterInv(r) && 2 <= r.participantCount
    && d.matchesPerPlayer == EffectiveK(r.participantCount, configK)
    && m <= MatchCount(r.participantCount, d.matchesPerPlayer)
    && FixtureOf(r, d).Valid() && Synced(r, d, m)
  }

  /** Entries of a field of any size are far from their limits. */
  lemma EntryBounds(r: Roster, d: Draw, configK: nat, m: nat, p: Key)
    requires Ready(r, d, configK, m) && p in r.entries
    ensures r.entries[p].matchesPlayed <= 199 && r.entries[p].score <= MAX_MATCH_SCORE * r.entries[p].matchesPlayed
    ensures r.entries[p].index < |r.scores| && r.scores[r.entries[p].index] == r.entries[p].score
  {
    hide Servable, Counted, Blanked, EffectiveK, MatchCount, Replay;
    assert EntryLinked(r, p);
    TournamentBounds(FixtureOf(r, d), configK, m, r.entries[p].index);
  }

  lemma ReadyLookup(r: Roster, d: Draw, configK: nat, m: nat)
    requires Ready(r, d, configK, m)
    ensures Shaped(r) && Filled(r) && r.participantCount <= |r.players|
    ensures Servable(r.participantCount, d.matchesPerPlayer)
    ensures var pairing := GetPairing(r.participantCount, d.matchesPerPlayer, d.seed, m);
            pairing.Some? ==> Proper(pairing.value, r.participantCount)
  {
    hide GetPairing, Counted, Blanked, EffectiveK, MatchCount, Synced, Servable;
    ActiveCount(r);
    var n, k := r.participantCount, d.matchesPerPlayer;
    if GetPairing(n, k, d.seed, m).Some? { LookupProper(n, k, d.seed, m); }
  }

  /** A match fails only for want of a pair, or if it is to be played and an entry account of it is not supplied. */
  lemma PlayMatchOutcome(r: Roster, d: Draw, configK: nat, m: nat, accounts: set<Key>)
    requires Ready(r, d, configK, m)
    ensures Servable(r.participantCount, d.matchesPerPlayer)
    ensures var result := PlayMatch(r, d, m, accounts);
            match GetPairing(r.participantCount, d.matchesPerPlayer, d.seed, m)
            case None => result == Err(InvalidMatch)
            case Some((a, b)) =>
              && r.participantCount <= |r.players| && a < b < |r.players|
              && var skipped := r.players[a] == DEFAULT || r.players[b] == DEFAULT;
                 && (result.Ok? <==> skipped || (r.players[a] in accounts && r.players[b] in accounts))
                 && (result.Err? ==> result == Err(InvalidEntryAccount))
                 && (skipped ==> result == Ok(r))
  {
    hide GetPairing, MatchOf, Servable, EffectiveK, MatchCount, Ready;
    ReadyLookup(r, d, configK, m);
    var n, pairing := r.participantCount, GetPairing(r.participantCount, d.matchesPerPlayer, d.seed, m);
    if pairing.Some? {
      var (a, b) := pairing.value;
      if r.players[a] != DEFAULT && r.players[b] != DEFAULT {
        var ea, eb := r.entries[r.players[a]], r.entries[r.players[b]];
        EntryBounds(r, d, configK, m, r.players[a]);
        EntryBounds(r, d, configK, m, r.players[b]);
        MatchScoreRange(ToPlayer(ea), ToPlayer(eb), d.seed, m, n);
      }
    }
  }

  /** Playing the next match leaves the one after it ready. */
  lemma ReadyNext(r: Roster, d: Draw, configK: nat, m: nat, accounts: set<Key>)
    requires Ready(r, d, configK, m) && m < MatchCount(r.participantCount, d.matchesPerPlayer)
    requires PlayMatch(r, d, m, accounts).Ok?
    ensures var r' := PlayMatch(r, d, m, accounts).value;
            Ready(r', d, configK, m + 1) && SameEntrants(r, r')
  {
    hide PlayMatch, RosterInv, FixtureOf, Synced, Filled, EffectiveK, MatchCount;
    InvIsFilled(r);
    PlayMatchInv(r, d, m, accounts);
    PlayMatchEntrants(r, d, m, accounts);
    PlayMatchSynced(r, d, m, accounts);
  }

  /** All matches of a batch that succeeds had a pair. */
  lemma {:induction false} PlayBatchPaired(r: Roster, d: Draw, m: nat, count: nat, accounts: set<Key>)
    requires Servable(r.participantCount, d.matchesPerPlayer) && PlayBatch(r, d, m, count, accounts).Ok?
    ensures Paired(r.participantCount, d.matchesPerPlayer, d.seed, m, m + count)
    decreases count
  {
    hide PlayMatch, Servable, GetPairing, SameEntrants;
    if count > 0 {
      var r1 := PlayMatch(r, d, m, accounts).value;
      PlayMatchCases(r, d, m, accounts);
      PlayMatchCount(r, d, m, accounts);
      PlayBatchPaired(r1, d, m + 1, count - 1, accounts);
    }
  }

  lemma PlayMatchCount(r: Roster, d: Draw, m: nat, accounts: set<Key>)
    requires PlayMatch(r, d, m, accounts).Ok?
    ensures PlayMatch(r, d, m, accounts).value.participantCount == r.participantCount
  {
    hide PlayMatch;
    PlayMatchEntrants(r, d, m, accounts);
  }

  /** With all entries supplied a batch succeeds exactly when each of its matches has a pair. */
  lemma {:induction false} PlayBatchOutcome(r: Roster, d: Draw, configK: nat, m: nat, count: nat, accounts: set<Key>)
    requires Ready(r, d, configK, m) && m + count <= MatchCount(r.participantCount, d.matchesPerPlayer)
    ensures Servable(r.participantCount, d.matchesPerPlayer)
    ensures var result, n, k := PlayBatch(r, d, m, count, accounts), r.participantCount, d.matchesPerPlayer;
            || (result.Ok? && Paired(n, k, d.seed, m, m + count))
            || (result == Err(InvalidEntryAccount) && !(r.entries.Keys <= accounts))
            || (result == Err(InvalidMatch) && !Paired(n, k, d.seed, m, m + count))
    decreases count
  {
    hide PlayMatch, Ready, MatchCount, GetPairing, Servable;
    ReadyLookup(r, d, configK, m);
    if count > 0 {
      PlayMatchOutcome(r, d, configK, m, accounts);
      assert forall i :: 0 <= i < |r.players| && r.players[i] != DEFAULT ==> r.players[i] in r.entries;
      if PlayMatch(r, d, m, accounts).Ok? {
        ReadyNext(r, d, configK, m, accounts);
        PlayBatchOutcome(PlayMatch(r, d, m, accounts).value, d, configK, m + 1, count - 1, accounts);
      }
    }
  }

  /** Splitting a batch anywhere gives the same accounts. */
  lemma {:induction false} PlayBatchSplits(r: Roster, d: Draw, m: nat, c1: nat, c2: nat, accounts: set<Key>)
    ensures PlayBatch(r, d, m, c1 + c2, accounts)
         == match PlayBatch(r, d, m, c1, accounts)
            case Err(e) => Err(e)
            case Ok(r1) => PlayBatch(r1, d, m + c1, c2, accounts)
    decreases c1
  {
    hide PlayMatch;
    if c1 > 0 && PlayMatch(r, d, m, accounts).Ok? {
      PlayBatchSplits(PlayMatch(r, d, m, accounts).value, d, m + 1, c1 - 1, c2, accounts);
    }
  }
}
