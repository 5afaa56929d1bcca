/** Sums over account maps, for conservation of lamports. */
module Ledger {
  import opened Accounts

  ghost function Sum<K>(m: map<K, nat>): nat
    decreases |m|
  {
    if m == map[] then 0
    else
      var k :| k in m;
      m[k] + Sum(m - {k})
  }

  /** The sum does not depend on the order in which keys are taken. */
  lemma {:induction false} SumRemove<K>(m: map<K, nat>, k: K)
    requires k in m
    ensures Sum(m) == m[k] + Sum(m - {k})
    decreases |m|
  {
    var j :| j in m && Sum(m) == m[j] + Sum(m - {j});
    if j != k {
      SumRemove(m - {j}, k);
      SumRemove(m - {k}, j);
      assert (m - {j}) - {k} == (m - {k}) - {j};
    }
  }

  lemma SumUpdate<K>(m: map<K, nat>, k: K, v: nat)
    ensures Sum(m[k := v]) == Sum(m) - (if k in m then m[k] else 0) + v
  {
    var m' := m[k := v];
    SumRemove(m', k);
    if k in m {
      SumRemove(m, k);
      assert m' - {k} == m - {k};
    } else {
      assert m' - {k} == m;
    }
  }

  type Wallets = map<Key, nat>

  function Balance(w: Wallets, k: Key): nat { if k in w then w[k] else 0 }

  /** Net change of one wallet; no change leaves the map alone. */
  function Adjust(w: Wallets, k: Key, delta: int): Wallets
    requires 0 <= Balance(w, k) + delta
  {
    if delta == 0 then w else w[k := Balance(w, k) + delta]
  }

  lemma AdjustSum(w: Wallets, k: Key, delta: int)
    requires 0 <= Balance(w, k) + delta
    ensures Sum(Adjust(w, k, delta)) == Sum(w) + delta
  {
    SumUpdate(w, k, Balance(w, k) + delta);
  }

  function Rents(entries: map<Key, Entry>): map<Key, nat> { map p | p in entries :: entries[p].lamports }

  /** Rent held by the open entries. */
  ghost function EntryRents(entries: map<Key, Entry>): nat { Sum(Rents(entries)) }

  lemma EntryAdded(entries: map<Key, Entry>, p: Key, e: Entry)
    ensures EntryRents(entries[p := e])
         == EntryRents(entries) - (if p in entries then entries[p].lamports else 0) + e.lamports
  {
    assert Rents(entries[p := e]) == Rents(entries)[p := e.lamports];
    SumUpdate(Rents(entries), p, e.lamports);
  }

  lemma EntryRemoved(entries: map<Key, Entry>, p: Key)
    requires p in entries
    ensures EntryRents(entries - {p}) == EntryRents(entries) - entries[p].lamports
  {
    assert Rents(entries - {p}) == Rents(entries) - {p};
    SumRemove(Rents(entries), p);
  }

  /** The accounts of the entries of tournament id. */
  function AccountsOf(id: nat, entries: map<Key, Entry>): map<EntryRef, Entry> {
    map p | p in entries :: EntryRef(id, p) := entries[p]
  }

  /** Rent held by entries that have outlived their tournament. */
  ghost function OrphanRents(orphans: map<EntryRef, Entry>): nat {
    Sum(map ref | ref in orphans :: orphans[ref].lamports)
  }

  lemma OrphanRemoved(orphans: map<EntryRef, Entry>, ref: EntryRef)
    requires ref in orphans
    ensures OrphanRents(orphans - {ref}) == OrphanRents(orphans) - orphans[ref].lamports
  {
    var rents := map r | r in orphans :: orphans[r].lamports;
    assert (map r | r in orphans - {ref} :: (orphans - {ref})[r].lamports) == rents - {ref};
    SumRemove(rents, ref);
  }

  lemma OneAccountLess(orphans: map<EntryRef, Entry>, id: nat, entries: map<Key, Entry>, p: Key)
    requires p in entries && forall ref :: ref in orphans ==> ref.tour != id
    ensures EntryRef(id, p) in orphans + AccountsOf(id, entries)
    ensures (orphans + AccountsOf(id, entries))[EntryRef(id, p)] == entries[p]
    ensures orphans + AccountsOf(id, entries - {p}) == (orphans + AccountsOf(id, entries)) - {EntryRef(id, p)}
  {
    assert EntryRef(id, p) in AccountsOf(id, entries);
    assert AccountsOf(id, entries - {p}) == AccountsOf(id, entries) - {EntryRef(id, p)};
  }

  /** Entries orphaned by the closing of their tournament keep their rent. */
  lemma {:induction false} OrphansAdded(orphans: map<EntryRef, Entry>, id: nat, entries: map<Key, Entry>)
    requires forall ref :: ref in orphans ==> ref.tour != id
    ensures OrphanRents(orphans + AccountsOf(id, entries)) == OrphanRents(orphans) + EntryRents(entries)
    decreases |entries|
  {
    hide OrphanRents, EntryRents;
    if entries.Keys == {} {
      NoRents(entries);
      assert orphans + AccountsOf(id, entries) == orphans;
    } else {
      var p :| p in entries.Keys;
      hide AccountsOf;
      OneAccountLess(orphans, id, entries, p);
      OrphansAdded(orphans, id, entries - {p});
      OrphanRemoved(orphans + AccountsOf(id, entries), EntryRef(id, p));
      EntryRemoved(entries, p);
    }
  }

  lemma NoRents(entries: map<Key, Entry>)
    requires entries.Keys == {}
    ensures EntryRents(entries) == 0
  {
    assert Rents(entries) == map[];
  }

  /** Lamports a tournament accounts for: its own balance and its entries' rent. */
  ghost function Held(t: Tournament): nat { t.lamports + EntryRents(t.roster.entries) }

  ghost function Holdings(tours: map<nat, Tournament>): map<nat, nat> { map id | id in tours :: Held(tours[id]) }

  ghost function TournamentsHold(tours: map<nat, Tournament>): nat { Sum(Holdings(tours)) }

  lemma TournamentUpdated(tours: map<nat, Tournament>, id: nat, t: Tournament)
    ensures TournamentsHold(tours[id := t])
         == TournamentsHold(tours) - (if id in tours then Held(tours[id]) else 0) + Held(t)
  {
    hide Held;
    assert Holdings(tours[id := t]) == Holdings(tours)[id := Held(t)];
    SumUpdate(Holdings(tours), id, Held(t));
  }

  lemma TournamentClosed(tours: map<nat, Tournament>, id: nat)
    requires id in tours
    ensures TournamentsHold(tours - {id}) == TournamentsHold(tours) - Held(tours[id])
  {
    hide Held;
    assert Holdings(tours - {id}) == Holdings(tours) - {id};
    SumRemove(Holdings(tours), id);
  }
}
