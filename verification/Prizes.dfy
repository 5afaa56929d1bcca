/** Who wins, and how the pool is divided at finalization. */
module Prizes {
  import opened Rng
  import opened Arith
  import opened Counting
  import opened Schedule
  import opened Accounts

  // ----- the threshold -----

  /** Scores of the slots in use, in slot order. */
  function ActiveScores(players: seq<Key>, scores: seq<nat>): seq<nat>
    requires |players| == |scores|
  {
    if players == [] then []
    else
      var last := |players| - 1;
      ActiveScores(players[..last], scores[..last]) + (if players[last] != DEFAULT then [scores[last]] else [])
  }

  function CountAtLeast(s: seq<nat>, x: nat): nat {
    if s == [] then 0 else CountAtLeast(s[..|s| - 1], x) + (if s[|s| - 1] >= x then 1 else 0)
  }

  function InsertDown(s: seq<nat>, x: nat): seq<nat> {
    if s == [] then [x]
    else if s[|s| - 1] >= x then s + [x]
    else InsertDown(s[..|s| - 1], x) + [s[|s| - 1]]
  }

  function SortDown(s: seq<nat>): seq<nat> {
    if s == [] then [] else InsertDown(SortDown(s[..|s| - 1]), s[|s| - 1])
  }

  predicate Descending(s: seq<nat>) { forall i, j :: 0 <= i < j < |s| ==> s[i] >= s[j] }

  function TargetWinners(n: nat): (target: nat)
    ensures 1 <= target && n <= 4 * target
    ensures 0 < n ==> 4 * (target - 1) < n
  {
    if n == 0 then 1 else CeilDiv(n, 4)
  }

  function Threshold(sorted: seq<nat>, target: nat): nat
    requires 1 <= target
  {
    if target - 1 < |sorted| then sorted[target - 1] else 0
  }

  lemma {:induction false} CountConcat(s: seq<nat>, t: seq<nat>, x: nat)
    ensures CountAtLeast(s + t, x) == CountAtLeast(s, x) + CountAtLeast(t, x)
    decreases |t|
  {
    if t == [] {
      assert s + t == s;
    } else {
      CountConcat(s, t[..|t| - 1], x);
      assert (s + t)[..|s + t| - 1] == s + t[..|t| - 1];
    }
  }

  lemma CountSnoc(s: seq<nat>, y: nat, x: nat)
    ensures CountAtLeast(s + [y], x) == CountAtLeast(s, x) + (if y >= x then 1 else 0)
  {
    assert (s + [y])[..|s|] == s;
  }

  lemma {:induction false} InsertDownCount(s: seq<nat>, y: nat, x: nat)
    ensures CountAtLeast(InsertDown(s, y), x) == CountAtLeast(s, x) + (if y >= x then 1 else 0)
    ensures |InsertDown(s, y)| == |s| + 1
  {
    hide CountAtLeast;
    if s == [] {
      CountSnoc([], y, x);
      assert [] + [y] == [y];
    } else if s[|s| - 1] >= y {
      CountSnoc(s, y, x);
    } else {
      var front, top := s[..|s| - 1], s[|s| - 1];
      assert s == front + [top];
      InsertDownCount(front, y, x);
      CountSnoc(front, top, x);
      CountSnoc(InsertDown(front, y), top, x);
    }
  }

  lemma {:induction false} SortDownCount(s: seq<nat>, x: nat)
    ensures CountAtLeast(SortDown(s), x) == CountAtLeast(s, x)
    ensures |SortDown(s)| == |s|
  {
    if s != [] {
      hide InsertDown;
      SortDownCount(s[..|s| - 1], x);
      InsertDownCount(SortDown(s[..|s| - 1]), s[|s| - 1], x);
    }
  }

  lemma {:induction false} InsertDownDescends(s: seq<nat>, x: nat)
    requires Descending(s)
    ensures Descending(InsertDown(s, x)) && |InsertDown(s, x)| > 0
    ensures InsertDown(s, x)[|InsertDown(s, x)| - 1] == if s == [] || s[|s| - 1] >= x then x else s[|s| - 1]
  {
    if s != [] && s[|s| - 1] < x {
      InsertDownDescends(s[..|s| - 1], x);
    }
  }

  lemma {:induction false} SortDownDescends(s: seq<nat>)
    ensures Descending(SortDown(s))
  {
    if s != [] {
      hide InsertDown, Descending;
      SortDownDescends(s[..|s| - 1]);
      InsertDownDescends(SortDown(s[..|s| - 1]), s[|s| - 1]);
    }
  }

  lemma {:induction false} CountAll(s: seq<nat>, x: nat)
    requires forall i :: 0 <= i < |s| ==> s[i] >= x
    ensures CountAtLeast(s, x) == |s|
  {
    if s != [] { CountAll(s[..|s| - 1], x); }
  }

  lemma {:induction false} CountNone(s: seq<nat>, x: nat)
    requires forall i :: 0 <= i < |s| ==> s[i] < x
    ensures CountAtLeast(s, x) == 0
  {
    if s != [] { CountNone(s[..|s| - 1], x); }
  }

  lemma {:induction false} CountBound(s: seq<nat>, x: nat)
    ensures CountAtLeast(s, x) <= |s|
  {
    if s != [] { CountBound(s[..|s| - 1], x); }
  }

  /** In a descending list, position j is an order statistic. */
  lemma OrderStatistic(s: seq<nat>, j: nat)
    requires Descending(s) && j < |s|
    ensures CountAtLeast(s, s[j]) >= j + 1
    ensures CountAtLeast(s, s[j] + 1) <= j
  {
    hide CountAtLeast;
    var x := s[j];
    assert s == s[..j + 1] + s[j + 1..] == s[..j] + s[j..];
    CountConcat(s[..j + 1], s[j + 1..], x);
    CountAll(s[..j + 1], x);
    CountConcat(s[..j], s[j..], x + 1);
    CountNone(s[j..], x + 1);
    CountBound(s[..j], x + 1);
  }

  /** The top quarter, rounded up: at least that many reach the threshold, fewer exceed it. */
  lemma ThresholdSelects(s: seq<nat>)
    requires s != []
    ensures var x := Threshold(SortDown(s), TargetWinners(|s|));
            && TargetWinners(|s|) <= CountAtLeast(s, x) <= |s|
            && CountAtLeast(s, x + 1) < TargetWinners(|s|)
            && 4 * TargetWinners(|s|) >= |s| && TargetWinners(|s|) <= |s|
  {
    hide CountAtLeast, SortDown, Descending, TargetWinners;
    var t, target := SortDown(s), TargetWinners(|s|);
    SortDownDescends(s);
    SortDownCount(s, 0);
    var x := t[target - 1];
    OrderStatistic(t, target - 1);
    SortDownCount(s, x);
    SortDownCount(s, x + 1);
    CountBound(s, x);
  }

  /** Slots in use that reach a score. */
  function SlotsReaching(players: seq<Key>, scores: seq<nat>, x: nat): set<int>
    requires |players| == |scores|
  {
    set i | i in Range(0, |players|) && players[i] != DEFAULT && scores[i] >= x
  }

  lemma LastSlot(players: seq<Key>, scores: seq<nat>, x: nat)
    requires 0 < |players| == |scores|
    ensures var last := |players| - 1;
            |SlotsReaching(players, scores, x)| == |SlotsReaching(players[..last], scores[..last], x)|
              + (if players[last] != DEFAULT && scores[last] >= x then 1 else 0)
  {
    hide Range;
    var last := |players| - 1;
    var before, all := SlotsReaching(players[..last], scores[..last], x), SlotsReaching(players, scores, x);
    if players[last] != DEFAULT && scores[last] >= x {
      assert all == before + {last};
    } else {
      assert all == before;
    }
  }

  /** Counting in the list of active scores is counting slots. */
  lemma {:induction false} ActiveScoresCount(players: seq<Key>, scores: seq<nat>, x: nat)
    requires |players| == |scores|
    ensures CountAtLeast(ActiveScores(players, scores), x) == |SlotsReaching(players, scores, x)|
    decreases |players|
  {
    if players != [] {
      hide CountAtLeast, SlotsReaching;
      var last := |players| - 1;
      var rest := ActiveScores(players[..last], scores[..last]);
      ActiveScoresCount(players[..last], scores[..last], x);
      LastSlot(players, scores, x);
      if players[last] != DEFAULT { CountSnoc(rest, scores[last], x); } else { assert rest + [] == rest; }
    } else {
      assert SlotsReaching(players, scores, x) == {};
    }
  }

  // ----- the division of the pool -----

  datatype Split = Split(houseFee: nat, dust: nat, reimbursement: nat, winnerPool: nat, left: nat)

  function HouseFee(pool: nat, bps: nat): nat { pool * bps / 10000 }

  /** What is left of the pool for the winners, capped by what the account can spare. */
  function Distributable(pool: nat, fee: nat, costs: nat, lamports: nat, rent: nat): nat {
    Min(SaturatingSub(SaturatingSub(pool, fee), costs), SaturatingSub(lamports, rent))
  }

  function Settle(pool: nat, bps: nat, costs: nat, lamports: nat, rent: nat, winners: nat): Result<Split> {
    var product := pool * bps;
    :- Require(product < U64_SIZE, OverflowError);
    :- Require(winners > 0, Aborted);
    var fee := HouseFee(pool, bps);
    var raw := Distributable(pool, fee, costs, lamports, rent);
    var perWinner := Quot(raw, winners);
    var dust := Rem(raw, winners);
    var feeTotal :- CheckedAdd(fee, dust);
    :- Require(feeTotal <= lamports, Aborted);
    var afterFees := lamports - feeTotal;
    var reimbursement := Min(costs, SaturatingSub(afterFees, rent));
    Ok(Split(fee, dust, reimbursement, perWinner * winners, afterFees - reimbursement))
  }

  lemma HouseFeeBound(pool: nat, bps: nat)
    requires bps <= 10000
    ensures HouseFee(pool, bps) <= pool
  {
    MulMonotone(bps, 10000, pool);
    MulCommutes(bps, pool);
  }

  /** Lamports only move: fee, dust, reimbursement and what stays add up to what was there. */
  lemma SettleConserves(pool: nat, bps: nat, costs: nat, lamports: nat, rent: nat, winners: nat)
    requires Settle(pool, bps, costs, lamports, rent, winners).Ok?
    ensures var s := Settle(pool, bps, costs, lamports, rent, winners).value;
            s.houseFee + s.dust + s.reimbursement + s.left == lamports
  {
    hide Distributable, HouseFee, Quot, Rem;
  }

  /** The smaller of the two, and nothing below zero. */
  function Capped(x: int, y: int): int { if x <= y then (if x < 0 then 0 else x) else if y < 0 then 0 else y }

  /**
   Every amount of a settlement, in plain arithmetic: the fee is the share of bps in 10000 rounded down, the
   winners divide what is left after fee and costs or what the account can spare, the remainder of that
   division is dust, and the operator gets the costs as far as they are there.
   */
  lemma SettleExact(pool: nat, bps: nat, costs: nat, lamports: nat, rent: nat, winners: nat)
    requires bps <= 10000 && Settle(pool, bps, costs, lamports, rent, winners).Ok?
    ensures var s := Settle(pool, bps, costs, lamports, rent, winners).value;
            && 10000 * s.houseFee <= pool * bps < 10000 * (s.houseFee + 1)
            && s.winnerPool + s.dust == Capped(pool - s.houseFee - costs, lamports - rent)
            && s.dust < winners && (exists share: nat :: s.winnerPool == share * winners)
            && s.reimbursement == Capped(costs, lamports - s.houseFee - s.dust - rent)
            && s.left == lamports - s.houseFee - s.dust - s.reimbursement
  {
    hide Quot, Rem;
    HouseFeeBound(pool, bps);
    FeeRounded(pool, bps);
    hide HouseFee;
    var raw := Distributable(pool, HouseFee(pool, bps), costs, lamports, rent);
    DivModIdentity(raw, winners);
    assert Settle(pool, bps, costs, lamports, rent, winners).value.winnerPool == Quot(raw, winners) * winners;
  }

  lemma FeeRounded(pool: nat, bps: nat)
    ensures 10000 * HouseFee(pool, bps) <= pool * bps < 10000 * (HouseFee(pool, bps) + 1)
  {
    DivModIdentity(pool * bps, 10000);
  }

  /** A funded account pays the costs in full and leaves the winners the pool without fee and costs, or nothing. */
  lemma SettleFunded(pool: nat, bps: nat, costs: nat, lamports: nat, rent: nat, winners: nat)
    requires bps <= 10000 && rent + pool <= lamports && Settle(pool, bps, costs, lamports, rent, winners).Ok?
    ensures var s := Settle(pool, bps, costs, lamports, rent, winners).value;
            if s.houseFee + costs <= pool
            then s.winnerPool + s.dust == pool - s.houseFee - costs && s.reimbursement == costs
            else s.winnerPool == s.dust == 0
  {
    hide Settle;
    SettleExact(pool, bps, costs, lamports, rent, winners);
  }

  /** A funded account survives settlement with the whole winner pool above rent. */
  lemma SettleSolvent(pool: nat, bps: nat, costs: nat, lamports: nat, rent: nat, winners: nat)
    requires bps <= 10000 && 0 < winners && pool * bps < U64_SIZE && lamports < U64_SIZE
    requires rent + pool <= lamports
    ensures Settle(pool, bps, costs, lamports, rent, winners).Ok?
    ensures var s := Settle(pool, bps, costs, lamports, rent, winners).value;
            && rent + s.winnerPool <= s.left
            && s.winnerPool / winners * winners == s.winnerPool
            && (lamports == rent + pool ==> s.houseFee + s.dust + s.reimbursement + s.winnerPool == pool)
  {
    hide HouseFee, Quot, Rem;
    HouseFeeBound(pool, bps);
    var raw := Distributable(pool, HouseFee(pool, bps), costs, lamports, rent);
    DivModIdentity(raw, winners);
    DivModUnique(Quot(raw, winners), 0, winners);
  }

  /** Whatever the rent, a balance of at least the pool still holds the winner pool after settlement. */
  lemma SettleCovers(pool: nat, bps: nat, costs: nat, lamports: nat, rent: nat, winners: nat)
    requires bps <= 10000 && pool <= lamports && Settle(pool, bps, costs, lamports, rent, winners).Ok?
    ensures var s := Settle(pool, bps, costs, lamports, rent, winners).value; s.winnerPool <= s.left
  {
    hide HouseFee, Quot, Rem;
    HouseFeeBound(pool, bps);
    var raw := Distributable(pool, HouseFee(pool, bps), costs, lamports, rent);
    DivModIdentity(raw, winners);
  }

  /** Exactly when settlement leaves the winner pool covered above rent. */
  lemma SettleSolventIff(pool: nat, bps: nat, costs: nat, lamports: nat, rent: nat, winners: nat)
    requires bps <= 10000 && rent <= lamports && Settle(pool, bps, costs, lamports, rent, winners).Ok?
    ensures var s := Settle(pool, bps, costs, lamports, rent, winners).value;
            var fee := HouseFee(pool, bps);
            var raw := Distributable(pool, fee, costs, lamports, rent);
            rent + s.winnerPool <= s.left <==>
              || rent + pool <= lamports
              || (fee == 0 && costs == 0)
              || (raw < winners && rent + fee + raw <= lamports)
  {
    hide HouseFee, Quot, Rem;
    HouseFeeBound(pool, bps);
    var raw := Distributable(pool, HouseFee(pool, bps), costs, lamports, rent);
    DivModIdentity(raw, winners);
    QuotZero(raw, winners);
  }

  lemma QuotZero(v: nat, h: nat)
    requires 0 < h
    ensures Quot(v, h) == 0 <==> v < h
    ensures Quot(v, h) > 0 ==> Quot(v, h) * h > 0
  {
    DivModIdentity(v, h);
    if 0 < Quot(v, h) { MulMonotone(1, Quot(v, h), h); }
  }
}
