/** The slot vectors, the open entries, and the agreement every instruction keeps between them. */
module Rosters {
  import opened Rng
  import opened Counting
  import opened Codec
  import opened Strategies
  import opened Accounts

  const EMPTY_ROSTER := Roster([], [], [], map[], 0, 0, 0)

  // ----- updates made by the instructions -----

  /** A new slot at the end of all three vectors and an open entry pointing at it. */
  function Enrol(r: Roster, p: Key, commitment: seq<Byte>, rent: nat): Roster {
    var e := Entry(|r.players|, commitment, Standard(TitForTat), false, 0, 0, false, [], rent);
    Roster(r.players + [p], r.scores + [0], r.strategies + [HIDDEN], r.entries[p := e],
           r.participantCount + 1, r.entriesRemaining + 1, r.revealsCompleted)
  }

  /** Slot i is blanked and both counts lowered. */
  function Vacate(r: Roster, i: nat): Roster
    requires i < |r.players| && i < |r.strategies| && 0 < r.participantCount && 0 < r.entriesRemaining
  {
    Roster(r.players[i := DEFAULT], r.scores, r.strategies[i := HIDDEN], r.entries,
           r.participantCount - 1, r.entriesRemaining - 1, r.revealsCompleted)
  }

  /** The slot of p is blanked and its entry closed. */
  function Blank(r: Roster, p: Key): Roster
    requires p in r.entries && r.entries[p].index < |r.players| && r.entries[p].index < |r.strategies|
    requires 0 < r.participantCount && 0 < r.entriesRemaining
  {
    Vacate(r, r.entries[p].index).(entries := r.entries - {p})
  }

  /** The same with the reveal counter lowered if the entry had revealed. */
  function Discharge(r: Roster, p: Key): Roster
    requires p in r.entries && r.entries[p].index < |r.players| && r.entries[p].index < |r.strategies|
    requires 0 < r.participantCount && 0 < r.entriesRemaining && (r.entries[p].revealed ==> 0 < r.revealsCompleted)
  {
    if r.entries[p].revealed then Blank(r, p).(revealsCompleted := r.revealsCompleted - 1) else Blank(r, p)
  }

  function MarkRevealed(r: Roster, p: Key, choice: Choice, code: seq<Byte>): Roster
    requires p in r.entries && r.entries[p].index < |r.strategies|
  {
    var e := r.entries[p];
    r.(entries := r.entries[p := e.(choice := choice, revealed := true, bytecode := code)],
       strategies := r.strategies[e.index := Index(choice)],
       revealsCompleted := r.revealsCompleted + 1)
  }

  /** An entry is closed after payout; the slot vectors stay. */
  function CloseSlot(r: Roster, p: Key): Roster
    requires p in r.entries && 0 < r.entriesRemaining
  {
    r.(entries := r.entries - {p}, entriesRemaining := r.entriesRemaining - 1)
  }

  // ----- invariants -----

  predicate Shaped(r: Roster) { |r.players| == |r.scores| == |r.strategies| }

  /** An open entry and its slot agree on player, score and revealed strategy. */
  predicate EntryLinked(r: Roster, p: Key)
    requires Shaped(r) && p in r.entries
  {
    var e := r.entries[p];
    && p != DEFAULT && e.index < |r.players| && r.players[e.index] == p
    && e.score == r.scores[e.index] && !e.paidOut
    && r.strategies[e.index] == (if e.revealed then Index(e.choice) else HIDDEN)
    && (e.revealed && e.choice.CustomCode? ==> Validate(e.bytecode).Accepted?)
  }

  ghost predicate Linked(r: Roster) {
    Shaped(r) && forall p :: p in r.entries ==> EntryLinked(r, p)
  }

  /** Every slot that is not blank belongs to an open entry. */
  predicate Filled(r: Roster) {
    forall i :: 0 <= i < |r.players| && r.players[i] != DEFAULT ==>
      r.players[i] in r.entries && r.entries[r.players[i]].index == i
  }

  /** Blank slots carry the sentinel strategy and no points. */
  predicate Blanked(r: Roster) {
    && Shaped(r)
    && forall i :: 0 <= i < |r.players| && r.players[i] == DEFAULT ==> r.strategies[i] == HIDDEN && r.scores[i] == 0
  }

  function Revealed(entries: map<Key, Entry>): set<Key> { set p | p in entries && entries[p].revealed }

  predicate Counted(r: Roster) {
    && r.participantCount == r.entriesRemaining == |r.entries|
    && r.revealsCompleted == |Revealed(r.entries)|
  }

  /** What holds until the payout phase. */
  ghost predicate RosterInv(r: Roster) { Linked(r) && Filled(r) && Blanked(r) && Counted(r) }

  /** The slots in use. */
  function ActiveSlots(r: Roster): set<int> { set i | i in Range(0, |r.players|) && r.players[i] != DEFAULT }

  // ----- preservation -----

  lemma EmptyInv()
    ensures RosterInv(EMPTY_ROSTER)
  {}

  lemma EnrolLinked(r: Roster, p: Key, commitment: seq<Byte>, rent: nat)
    requires Linked(r) && p != DEFAULT && p !in r.entries
    ensures Linked(Enrol(r, p, commitment, rent))
  {
    var r' := Enrol(r, p, commitment, rent);
    forall q | q in r'.entries ensures EntryLinked(r', q) {
      if q != p { assert EntryLinked(r, q); }
    }
  }

  lemma EnrolFilled(r: Roster, p: Key, commitment: seq<Byte>, rent: nat)
    requires Linked(r) && Filled(r) && Blanked(r) && p != DEFAULT && p !in r.entries
    ensures Filled(Enrol(r, p, commitment, rent)) && Blanked(Enrol(r, p, commitment, rent))
  {
    hide EntryLinked;
  }

  lemma EnrolCounted(r: Roster, p: Key, commitment: seq<Byte>, rent: nat)
    requires Counted(r) && p !in r.entries
    ensures Counted(Enrol(r, p, commitment, rent))
  {
    var r' := Enrol(r, p, commitment, rent);
    assert Revealed(r'.entries) == Revealed(r.entries);
    assert r'.entries.Keys == r.entries.Keys + {p};
  }

  lemma EnrolKeeps(r: Roster, p: Key, commitment: seq<Byte>, rent: nat)
    requires RosterInv(r) && p != DEFAULT && p !in r.entries
    ensures RosterInv(Enrol(r, p, commitment, rent))
  {
    hide Linked, Filled, Blanked, Counted, Enrol;
    EnrolLinked(r, p, commitment, rent);
    EnrolFilled(r, p, commitment, rent);
    EnrolCounted(r, p, commitment, rent);
  }

  lemma BlankLinked(r: Roster, p: Key)
    requires Linked(r) && p in r.entries && 0 < r.participantCount && 0 < r.entriesRemaining
    requires r.entries[p].index < |r.players|
    ensures Linked(Blank(r, p))
  {
    var r' := Blank(r, p);
    assert EntryLinked(r, p);
    forall q | q in r'.entries ensures EntryLinked(r', q) {
      assert EntryLinked(r, q);
    }
  }

  lemma BlankFilled(r: Roster, p: Key)
    requires RosterInv(r) && p in r.entries && r.entries[p].index < |r.players|
    requires 0 < r.participantCount && 0 < r.entriesRemaining
    requires r.scores[r.entries[p].index] == 0
    ensures Filled(Blank(r, p)) && Blanked(Blank(r, p))
  {
    assert EntryLinked(r, p);
    hide EntryLinked;
  }

  lemma BlankKeeps(r: Roster, p: Key)
    requires RosterInv(r) && p in r.entries && r.scores[r.entries[p].index] == 0
    ensures 0 < r.participantCount && 0 < r.entriesRemaining && (r.entries[p].revealed ==> 0 < r.revealsCompleted)
    ensures r.entries[p].index < |r.players| == |r.strategies| && RosterInv(Discharge(r, p))
  {
    assert EntryLinked(r, p);
    assert |r.entries.Keys| > 0;
    var r' := Blank(r, p);
    BlankLinked(r, p);
    BlankFilled(r, p);
    assert r'.entries.Keys == r.entries.Keys - {p};
    assert Revealed(r'.entries) == Revealed(r.entries) - {p};
    assert r.entries[p].revealed ==> p in Revealed(r.entries);
  }

  lemma RevealLinked(r: Roster, p: Key, choice: Choice, code: seq<Byte>)
    requires Linked(r) && p in r.entries && r.entries[p].index < |r.strategies|
    requires choice.CustomCode? ==> Validate(code).Accepted?
    ensures Linked(MarkRevealed(r, p, choice, code))
  {
    hide Validate;
    assert EntryLinked(r, p);
    var r' := MarkRevealed(r, p, choice, code);
    forall q | q in r'.entries ensures EntryLinked(r', q) {
      assert EntryLinked(r, q);
    }
  }

  lemma RevealCounted(r: Roster, p: Key, choice: Choice, code: seq<Byte>)
    requires Counted(r) && p in r.entries && !r.entries[p].revealed && r.entries[p].index < |r.strategies|
    ensures Counted(MarkRevealed(r, p, choice, code))
  {
    var r' := MarkRevealed(r, p, choice, code);
    assert r'.entries.Keys == r.entries.Keys;
    assert Revealed(r'.entries) == Revealed(r.entries) + {p};
  }

  lemma RevealKeeps(r: Roster, p: Key, choice: Choice, code: seq<Byte>)
    requires RosterInv(r) && p in r.entries && !r.entries[p].revealed
    requires choice.CustomCode? ==> Validate(code).Accepted?
    ensures r.entries[p].index < |r.strategies| && RosterInv(MarkRevealed(r, p, choice, code))
  {
    hide Validate, Revealed;
    assert EntryLinked(r, p);
    RevealLinked(r, p, choice, code);
    RevealCounted(r, p, choice, code);
    hide EntryLinked, Linked, Counted;
  }

  lemma CloseSlotLinked(r: Roster, p: Key)
    requires Linked(r) && p in r.entries && r.entriesRemaining == |r.entries|
    ensures 0 < r.entriesRemaining
    ensures Linked(CloseSlot(r, p)) && CloseSlot(r, p).entriesRemaining == |CloseSlot(r, p).entries|
  {
    assert |r.entries.Keys| > 0;
    var r' := CloseSlot(r, p);
    assert r'.entries.Keys == r.entries.Keys - {p};
    forall q | q in r'.entries ensures EntryLinked(r', q) {
      assert EntryLinked(r, q);
    }
  }

  // ----- consequences -----

  /** Open entries and active slots correspond one to one. */
  lemma SlotsMatchEntries(r: Roster, chosen: set<Key>, slots: set<int>)
    requires Linked(r) && Filled(r) && chosen <= r.entries.Keys && slots <= ActiveSlots(r)
    requires forall p :: p in r.entries ==> (p in chosen <==> r.entries[p].index in slots)
    ensures |chosen| == |slots|
  {
    hide Range;
    var m := map p | p in chosen :: r.entries[p].index as int;
    forall p, q | p in m && q in m && m[p] == m[q] ensures p == q {
      assert EntryLinked(r, p) && EntryLinked(r, q);
    }
    forall i | i in slots ensures i in m.Values {
      var p := r.players[i];
      assert p in m && m[p] == i;
    }
    assert m.Keys == chosen && m.Values == slots;
    InjectiveCardinality(m);
  }

  lemma ActiveCount(r: Roster)
    requires RosterInv(r)
    ensures |ActiveSlots(r)| == r.participantCount <= |r.players|
  {
    hide Range;
    forall p | p in r.entries ensures r.entries[p].index in ActiveSlots(r) {
      assert EntryLinked(r, p);
    }
    SlotsMatchEntries(r, r.entries.Keys, ActiveSlots(r));
    SubsetCardinality(ActiveSlots(r), Range(0, |r.players|));
  }

  /** Once as many strategies are revealed as there are participants, no active slot is hidden. */
  lemma AllRevealed(r: Roster)
    requires RosterInv(r) && r.revealsCompleted == r.participantCount
    ensures forall p :: p in r.entries ==> r.entries[p].revealed
    ensures forall i :: 0 <= i < |r.players| && r.players[i] != DEFAULT ==> r.strategies[i] != HIDDEN
  {
    SubsetCardinality(Revealed(r.entries), r.entries.Keys);
    assert forall p :: p in r.entries ==> p in Revealed(r.entries);
    forall i | 0 <= i < |r.players| && r.players[i] != DEFAULT ensures r.strategies[i] != HIDDEN {
      assert EntryLinked(r, r.players[i]);
    }
  }
}
