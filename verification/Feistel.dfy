/** The keyed permutation of match indices: a Feistel network with capped cycle-walking. */
module Feistel {
  import opened Options
  import opened Rng
  import opened Arith
  import opened Squares
  import opened Counting

  const ROUND_COUNT: nat := 6
  const WALK_CAP: nat := 1000

  datatype Point = Point(left: nat, right: nat)

  /** Round keys together with the side of the grid they act on. */
  datatype Network = Network(keys: seq<nat>, half: nat) {
    predicate Valid() { 0 < half }

    predicate OnGrid(p: Point) { p.left < half && p.right < half }

    function Area(): nat { half * half }

    /** Mixes `input` with `key`; 64-bit wrapping arithmetic, then a 32-bit truncation. */
    function RoundFn(input: nat, key: nat): (r: nat)
      requires Valid()
      ensures r < half
    {
      var odd := if key % 2 == 0 then key + 1 else key;
      ((((input * odd) % U64_SIZE + key / U32_SIZE) % U64_SIZE) / 0x1_0000) % U32_SIZE % half
    }

    /** Moves one coordinate by f around the cycle of length half. */
    function Turn(x: nat, f: nat): (r: nat)
      requires Valid()
      ensures r < half
    {
      (x + f) % half
    }

    function Round(p: Point, i: nat): Point
      requires Valid() && i < |keys|
    {
      if i % 2 == 0
      then p.(right := Turn(p.right, RoundFn(p.left, keys[i])))
      else p.(left := Turn(p.left, RoundFn(p.right, keys[i])))
    }

    function Unround(p: Point, i: nat): Point
      requires Valid() && i < |keys|
    {
      if i % 2 == 0
      then p.(right := Turn(p.right, half - RoundFn(p.left, keys[i])))
      else p.(left := Turn(p.left, half - RoundFn(p.right, keys[i])))
    }

    /** The first i rounds. */
    function Rounds(p: Point, i: nat): Point
      requires Valid() && i <= |keys|
    {
      if i == 0 then p else Round(Rounds(p, i - 1), i - 1)
    }

    /** Undoes the first i rounds, last one first. */
    function Unrounds(p: Point, i: nat): Point
      requires Valid() && i <= |keys|
      decreases i
    {
      if i == 0 then p else Unrounds(Unround(p, i - 1), i - 1)
    }

    function Split(v: nat): Point
      requires Valid()
    {
      Point(v / half, v % half)
    }

    function Join(p: Point): nat { p.left * half + p.right }

    function Forward(v: nat): nat
      requires Valid()
    {
      Join(Rounds(Split(v), |keys|))
    }

    function Backward(v: nat): nat
      requires Valid()
    {
      Join(Unrounds(Split(v), |keys|))
    }

    function Iterate(v: nat, n: nat): nat
      requires Valid()
    {
      if n == 0 then v else Forward(Iterate(v, n - 1))
    }

    /** Re-enters the network until the value falls below `domain`, at most `cap` times. */
    function Walk(v: nat, domain: nat, cap: nat): Option<nat>
      requires Valid()
      decreases cap
    {
      if cap == 0 then None
      else
        var w := Forward(v);
        if w < domain then Some(w) else Walk(w, domain, cap - 1)
    }
  }

  function DeriveKeys(seed: Seed): (keys: seq<nat>)
    ensures |keys| == ROUND_COUNT
  {
    DrawKeys(New(seed, U32_SIZE - 1), ROUND_COUNT)
  }

  function DrawKeys(rng: SeededRng, n: nat): (keys: seq<nat>)
    ensures |keys| == n
    decreases n
  {
    if n == 0 then [] else var (next, key) := NextU64(rng); [key] + DrawKeys(next, n - 1)
  }

  function Permute(idx: nat, domain: nat, keys: seq<nat>): Option<nat> {
    if domain <= 1 then Some(0)
    else
      SideIsPositive(domain);
      Network(keys, CeilSqrt(domain)).Walk(idx, domain, WALK_CAP)
  }

  lemma SideIsPositive(domain: nat)
    requires 1 <= domain
    ensures 1 <= CeilSqrt(domain)
  {}

  // ----- the rounds permute the grid -----

  lemma TurnBack(net: Network, x: nat, f: nat)
    requires net.Valid() && x < net.half && f < net.half
    ensures net.Turn(net.Turn(x, f), net.half - f) == x
    ensures net.Turn(net.Turn(x, net.half - f), f) == x
  {
    var h := net.half;
    ModTwice(x + f, h);
    ModTwice((x + f) % h + (h - f), h);
    ModTwice(x + (h - f), h);
    ModTwice((x + (h - f)) % h + f, h);
  }

  lemma RoundInverse(net: Network, p: Point, i: nat)
    requires net.Valid() && net.OnGrid(p) && i < |net.keys|
    ensures net.OnGrid(net.Round(p, i)) && net.OnGrid(net.Unround(p, i))
    ensures net.Unround(net.Round(p, i), i) == p
    ensures net.Round(net.Unround(p, i), i) == p
  {
    hide net.RoundFn, net.Turn;
    if i % 2 == 0 {
      TurnBack(net, p.right, net.RoundFn(p.left, net.keys[i]));
    } else {
      TurnBack(net, p.left, net.RoundFn(p.right, net.keys[i]));
    }
  }

  lemma {:induction false} RoundsInverse(net: Network, p: Point, i: nat)
    requires net.Valid() && net.OnGrid(p) && i <= |net.keys|
    ensures net.OnGrid(net.Rounds(p, i)) && net.Unrounds(net.Rounds(p, i), i) == p
  {
    if i > 0 {
      RoundsInverse(net, p, i - 1);
      RoundInverse(net, net.Rounds(p, i - 1), i - 1);
    }
  }

  lemma {:induction false} UnroundsInverse(net: Network, p: Point, i: nat)
    requires net.Valid() && net.OnGrid(p) && i <= |net.keys|
    ensures net.OnGrid(net.Unrounds(p, i)) && net.Rounds(net.Unrounds(p, i), i) == p
    decreases i
  {
    if i > 0 {
      RoundInverse(net, p, i - 1);
      UnroundsInverse(net, net.Unround(p, i - 1), i - 1);
    }
  }

  lemma SplitJoin(net: Network, p: Point)
    requires net.Valid() && net.OnGrid(p)
    ensures net.Join(p) < net.Area() && net.Split(net.Join(p)) == p
  {
    DivModUnique(p.left, p.right, net.half);
    GridBound(p.left, p.right, net.half, net.half);
  }

  lemma JoinSplit(net: Network, v: nat)
    requires net.Valid() && v < net.Area()
    ensures net.OnGrid(net.Split(v)) && net.Join(net.Split(v)) == v
  {
    DivModIdentity(v, net.half);
    DivBelow(v, net.half, net.half);
  }

  /** The network permutes [0, half * half): Backward undoes Forward on both sides. */
  lemma ForwardBackward(net: Network, v: nat)
    requires net.Valid() && v < net.Area()
    ensures net.Forward(v) < net.Area() && net.Backward(net.Forward(v)) == v
    ensures net.Backward(v) < net.Area() && net.Forward(net.Backward(v)) == v
  {
    JoinSplit(net, v);
    var p, n := net.Split(v), |net.keys|;
    RoundsInverse(net, p, n);
    SplitJoin(net, net.Rounds(p, n));
    UnroundsInverse(net, p, n);
    SplitJoin(net, net.Unrounds(p, n));
  }

  // ----- what the rounds compute -----

  /** Residues may be taken before adding. */
  lemma AddResidues(x: nat, y: nat, h: nat)
    requires 0 < h
    ensures (x % h + y % h) % h == (x + y) % h
  {
    DivModIdentity(x, h);
    DivModIdentity(y, h);
    var q := x / h + y / h;
    assert x + y == q * h + (x % h + y % h);
    ModTwice(x % h + y % h, h);
    if x % h + y % h < h {
      DivModUnique(q, x % h + y % h, h);
    } else {
      assert q * h + h == (q + 1) * h;
      DivModUnique(q + 1, x % h + y % h - h, h);
    }
  }

  /** Where nothing wraps, the round function is a quotient by 2^16. */
  lemma RoundFnPlain(net: Network, x: nat, key: nat, product: nat, c: nat)
    requires net.Valid() && product == x * (if key % 2 == 0 then key + 1 else key)
    requires product + key / U32_SIZE < U64_SIZE
    requires (product + key / U32_SIZE) / 0x1_0000 == c < net.half <= 0x1_0000
    ensures net.RoundFn(x, key) == c
  {
    ModSmall(product, U64_SIZE);
    ModSmall(product + key / U32_SIZE, U64_SIZE);
    ModSmall(c, U32_SIZE);
    ModSmall(c, net.half);
  }

  /** With the key 0x10000 the round function passes small inputs on. */
  lemma RoundFnPasses(net: Network, x: nat)
    requires net.Valid() && net.half <= 0x1_0000 && x < net.half
    ensures net.RoundFn(x, 0x1_0000) == x
  {
    hide net.RoundFn;
    DivModUnique(x, x, 0x1_0000);
    RoundFnPlain(net, x, 0x1_0000, x * 0x1_0001, x);
  }

  /** The key f * 2^48 alone, at input 0, turns by f. */
  lemma RoundFnKey(net: Network, f: nat)
    requires net.Valid() && net.half <= 0x1_0000 && f < net.half
    ensures net.RoundFn(0, f * 0x1_0000_0000_0000) == f
  {
    hide net.RoundFn;
    DivModUnique(f * 0x1_0000, 0, U32_SIZE);
    DivModUnique(f, 0, 0x1_0000);
    RoundFnPlain(net, 0, f * 0x1_0000_0000_0000, 0, f);
  }

  /** Six rounds with the key 0x10000 add left to right and right to left in turn. */
  const SUM_KEYS: seq<nat> := [0x1_0000, 0x1_0000, 0x1_0000, 0x1_0000, 0x1_0000, 0x1_0000]

  lemma SumRound(net: Network, x: nat, y: nat, i: nat)
    requires net.Valid() && net.half <= 0x1_0000 && net.keys == SUM_KEYS && i < 6
    ensures var h := net.half;
            net.Round(Point(x % h, y % h), i) ==
              if i % 2 == 0 then Point(x % h, (x + y) % h) else Point((x + y) % h, y % h)
  {
    hide net.RoundFn;
    var h := net.half;
    AddResidues(y, x, h);
    AddResidues(x, y, h);
    RoundFnPasses(net, x % h);
    RoundFnPasses(net, y % h);
  }

  /**
   The whole network on a key that makes its effect plain: six alternating additions are a Fibonacci step,
   taking (l, r) to (13 l + 8 r, 8 l + 5 r) modulo the side of the grid.
   */
  lemma FibonacciNetwork(half: nat, l: nat, r: nat)
    requires 0 < half <= 0x1_0000 && l < half && r < half
    ensures Network(SUM_KEYS, half).Forward(l * half + r) == (13 * l + 8 * r) % half * half + (8 * l + 5 * r) % half
  {
    var net := Network(SUM_KEYS, half);
    hide net.Round;
    DivModUnique(l, r, half);
    ModSmall(l, half);
    ModSmall(r, half);
    SumRound(net, l, r, 0);
    SumRound(net, l, l + r, 1);
    SumRound(net, 2 * l + r, l + r, 2);
    SumRound(net, 2 * l + r, 3 * l + 2 * r, 3);
    SumRound(net, 5 * l + 3 * r, 3 * l + 2 * r, 4);
    SumRound(net, 5 * l + 3 * r, 8 * l + 5 * r, 5);
    SixRounds(net, net.Split(l * half + r));
  }

  lemma SixRounds(net: Network, p: Point)
    requires net.Valid() && |net.keys| == 6
    ensures net.Rounds(p, 6)
         == net.Round(net.Round(net.Round(net.Round(net.Round(net.Round(p, 0), 1), 2), 3), 4), 5)
  {
    hide net.Round;
    var p1, p2, p3 := net.Rounds(p, 1), net.Rounds(p, 2), net.Rounds(p, 3);
    var p4, p5 := net.Rounds(p, 4), net.Rounds(p, 5);
    assert net.Rounds(p, 0) == p;
    assert p1 == net.Round(p, 0) && p2 == net.Round(p1, 1) && p3 == net.Round(p2, 2);
    assert p4 == net.Round(p3, 3) && p5 == net.Round(p4, 4);
  }

  /** The generator after i words. */
  function AfterWords(rng: SeededRng, i: nat): SeededRng
    decreases i
  {
    if i == 0 then rng else AfterWords(NextU64(rng).0, i - 1)
  }

  lemma {:induction false} DrawnKey(rng: SeededRng, n: nat, i: nat)
    requires i < n
    ensures DrawKeys(rng, n)[i] == NextU64(AfterWords(rng, i)).1
    decreases n
  {
    hide NextU64;
    if i > 0 { DrawnKey(NextU64(rng).0, n - 1, i - 1); }
  }

  /** The six round keys are the first six words of the seed's last stream, 2^32 - 1, which no match uses. */
  lemma KeysFromStream(seed: Seed, i: nat)
    requires i < 6
    ensures |DeriveKeys(seed)| == 6
    ensures DeriveKeys(seed)[i] == NextU64(AfterWords(New(seed, 0xFFFF_FFFF), i)).1
  {
    hide NextU64, New, DrawKeys;
    DrawnKey(New(seed, 0xFFFF_FFFF), 6, i);
  }

  // ----- cycle-walking -----

  lemma {:induction false} IterateStaysOnGrid(net: Network, v: nat, n: nat)
    requires net.Valid() && v < net.Area()
    ensures net.Iterate(v, n) < net.Area()
  {
    if n > 0 {
      IterateStaysOnGrid(net, v, n - 1);
      ForwardBackward(net, net.Iterate(v, n - 1));
    }
  }

  lemma {:induction false} IterateInjective(net: Network, v: nat, w: nat, n: nat)
    requires net.Valid() && v < net.Area() && w < net.Area()
    requires net.Iterate(v, n) == net.Iterate(w, n)
    ensures v == w
  {
    if n > 0 {
      IterateStaysOnGrid(net, v, n - 1);
      IterateStaysOnGrid(net, w, n - 1);
      ForwardBackward(net, net.Iterate(v, n - 1));
      ForwardBackward(net, net.Iterate(w, n - 1));
      IterateInjective(net, v, w, n - 1);
    }
  }

  lemma {:induction false} IterateAdds(net: Network, v: nat, a: nat, b: nat)
    requires net.Valid()
    ensures net.Iterate(net.Iterate(v, a), b) == net.Iterate(v, a + b)
  {
    if b > 0 {
      IterateAdds(net, v, a, b - 1);
    }
  }

  /** Every iterate of v from the first to the (n-1)-th is out of the domain. */
  ghost predicate StaysOut(net: Network, v: nat, domain: nat, n: nat)
    requires net.Valid()
  {
    forall t :: 1 <= t < n ==> domain <= net.Iterate(v, t)
  }

  /** A successful walk returns the first iterate that falls into the domain. */
  lemma {:induction false} WalkIsFirstReturn(net: Network, v: nat, domain: nat, done: nat, cap: nat)
    returns (n: nat)
    requires net.Valid() && StaysOut(net, v, domain, done + 1)
    requires net.Walk(net.Iterate(v, done), domain, cap).Some?
    ensures done < n <= done + cap && StaysOut(net, v, domain, n)
    ensures net.Walk(net.Iterate(v, done), domain, cap) == Some(net.Iterate(v, n))
    ensures net.Iterate(v, n) < domain
    decreases cap
  {
    if net.Iterate(v, done + 1) < domain {
      n := done + 1;
    } else {
      n := WalkIsFirstReturn(net, v, domain, done + 1, cap - 1);
    }
  }

  /** First returns from two points of the domain to one value start at the same point. */
  lemma FirstReturnInjective(net: Network, v: nat, w: nat, domain: nat, a: nat, b: nat)
    requires net.Valid() && v < domain && w < domain && domain <= net.Area()
    requires 1 <= a <= b && StaysOut(net, w, domain, b)
    requires net.Iterate(v, a) == net.Iterate(w, b)
    ensures v == w
  {
    IterateAdds(net, w, b - a, a);
    IterateStaysOnGrid(net, w, b - a);
    IterateInjective(net, v, net.Iterate(w, b - a), a);
  }

  /** Two distinct points outside the domain on the same orbit never coincide before it returns. */
  lemma OrbitDoesNotRepeat(net: Network, v: nat, domain: nat, a: nat, b: nat)
    requires net.Valid() && v < domain <= net.Area()
    requires 1 <= a < b && StaysOut(net, v, domain, b)
    ensures net.Iterate(v, a) != net.Iterate(v, b)
  {
    if net.Iterate(v, a) == net.Iterate(v, b) {
      IterateAdds(net, v, b - a, a);
      IterateStaysOnGrid(net, v, b - a);
      IterateInjective(net, v, net.Iterate(v, b - a), a);
      assert false;
    }
  }

  /** Pigeonhole: an orbit can stay out of the domain for at most Area - domain steps. */
  lemma StaysOutBounded(net: Network, v: nat, domain: nat, n: nat)
    requires net.Valid() && v < domain <= net.Area()
    requires StaysOut(net, v, domain, n + 1)
    ensures n <= net.Area() - domain
  {
    hide net.Forward, net.Area, net.Iterate, Range;
    var orbit := map t | t in Range(1, n + 1) :: net.Iterate(v, t) as int;
    forall a, b | a in orbit && b in orbit && orbit[a] == orbit[b] ensures a == b {
      if a < b { OrbitDoesNotRepeat(net, v, domain, a, b); }
      if b < a { OrbitDoesNotRepeat(net, v, domain, b, a); }
    }
    InjectiveCardinality(orbit);
    assert orbit.Keys == Range(1, n + 1);
    forall x | x in orbit.Values ensures x in Range(domain, net.Area()) {
      var t :| t in orbit && orbit[t] == x;
      IterateStaysOnGrid(net, v, t);
    }
    SubsetCardinality(orbit.Values, Range(domain, net.Area()));
  }

  lemma {:induction false} WalkReturns(net: Network, v: nat, domain: nat, done: nat, cap: nat)
    requires net.Valid() && v < domain <= net.Area()
    requires StaysOut(net, v, domain, done + 1)
    requires net.Area() - domain < done + cap
    ensures net.Walk(net.Iterate(v, done), domain, cap).Some?
    decreases cap
  {
    hide net.Forward, net.Area;
    StaysOutBounded(net, v, domain, done);
    if domain <= net.Iterate(v, done + 1) {
      WalkReturns(net, v, domain, done + 1, cap - 1);
    }
  }

  lemma {:induction false} WalkGivesUp(net: Network, v: nat, domain: nat, done: nat, cap: nat)
    requires net.Valid()
    ensures net.Walk(net.Iterate(v, done), domain, cap).None?
       <==> forall t :: done < t <= done + cap ==> domain <= net.Iterate(v, t)
    decreases cap
  {
    hide net.Forward;
    if cap > 0 {
      var w := net.Iterate(v, done + 1);
      assert w == net.Forward(net.Iterate(v, done));
      WalkGivesUp(net, v, domain, done + 1, cap - 1);
    }
  }

  /** The lookup gives up exactly if the first 1000 iterates of the index all miss the domain. */
  lemma PermuteGivesUp(idx: nat, domain: nat, keys: seq<nat>)
    requires 1 < domain
    ensures 1 <= CeilSqrt(domain)
    ensures Permute(idx, domain, keys).None?
       <==> forall t :: 1 <= t <= 1000 ==> domain <= Network(keys, CeilSqrt(domain)).Iterate(idx, t)
  {
    SideIsPositive(domain);
    var net := Network(keys, CeilSqrt(domain));
    hide CeilSqrt;
    assert net.Iterate(idx, 0) == idx;
    WalkGivesUp(net, idx, domain, 0, WALK_CAP);
  }

  // ----- the permutation theorem -----

  /** Wherever two in-range indices both get a value, the values are in range and differ. */
  lemma PermuteInjective(i: nat, j: nat, domain: nat, keys: seq<nat>)
    requires i < domain && j < domain
    requires Permute(i, domain, keys).Some? && Permute(j, domain, keys).Some?
    ensures Permute(i, domain, keys).value < domain
    ensures Permute(i, domain, keys) == Permute(j, domain, keys) ==> i == j
  {
    if domain > 1 {
      SideIsPositive(domain);
      var net := Network(keys, CeilSqrt(domain));
      var a := WalkIsFirstReturn(net, i, domain, 0, WALK_CAP);
      var b := WalkIsFirstReturn(net, j, domain, 0, WALK_CAP);
      if net.Iterate(i, a) == net.Iterate(j, b) {
        if a <= b {
          FirstReturnInjective(net, i, j, domain, a, b);
        } else {
          FirstReturnInjective(net, j, i, domain, b, a);
        }
      }
    }
  }

  /** The grid exceeds the domain by at most 2 * half - 2 points. */
  lemma OverhangBound(domain: nat)
    requires 1 <= domain
    ensures CeilSqrt(domain) * CeilSqrt(domain) - domain <= 2 * CeilSqrt(domain) - 2
  {
    var h := CeilSqrt(domain);
    SideIsPositive(domain);
    assert (h - 1) * (h - 1) < domain;
    assert h * h == (h - 1) * (h - 1) + 2 * h - 1;
  }

  /** The cap cannot fire while fewer grid points than the cap lie outside the domain. */
  lemma PermuteTotalIfOverhangSmall(i: nat, domain: nat, keys: seq<nat>)
    requires i < domain
    requires CeilSqrt(domain) * CeilSqrt(domain) - domain < 1000
    ensures Permute(i, domain, keys).Some?
  {
    if domain > 1 {
      SideIsPositive(domain);
      var net := Network(keys, CeilSqrt(domain));
      WalkReturns(net, i, domain, 0, WALK_CAP);
    }
  }

  /** For every domain up to 250000 and every key set the permutation is total. */
  lemma PermuteTotal(i: nat, domain: nat, keys: seq<nat>)
    requires i < domain <= 250_000
    ensures Permute(i, domain, keys).Some?
  {
    OverhangBound(domain);
    assert 500 < CeilSqrt(domain) ==> 500 * 500 < domain;
    PermuteTotalIfOverhangSmall(i, domain, keys);
  }

  /** The permutation as a finite map, wherever it is total. */
  ghost function PermuteMap(domain: nat, keys: seq<nat>): map<int, int> {
    map i | i in Range(0, domain) && Permute(i, domain, keys).Some? :: Permute(i, domain, keys).value
  }

  lemma PermuteMapInjective(domain: nat, keys: seq<nat>)
    ensures Injective(PermuteMap(domain, keys))
    ensures PermuteMap(domain, keys).Values <= Range(0, domain)
  {
    hide Permute, Range;
    var m := PermuteMap(domain, keys);
    forall i, j | i in m && j in m && m[i] == m[j] ensures i == j {
      PermuteInjective(i, j, domain, keys);
    }
    forall y | y in m.Values ensures y in Range(0, domain) {
      var i :| i in m && m[i] == y;
      PermuteInjective(i, i, domain, keys);
    }
  }

  /** Wherever the walk always returns, the map is a permutation of [0, domain): total, injective and onto. */
  lemma TotalIsPermutation(domain: nat, keys: seq<nat>)
    requires forall i: nat :: i < domain ==> Permute(i, domain, keys).Some?
    ensures PermuteMap(domain, keys).Keys == PermuteMap(domain, keys).Values == Range(0, domain)
    ensures Permutation(PermuteMap(domain, keys))
  {
    hide Permute, Range;
    var m := PermuteMap(domain, keys);
    assert m.Keys == Range(0, domain);
    PermuteMapInjective(domain, keys);
    PermutationIsOnto(m);
  }

  /** ... which it does for up to 250000 indices. */
  lemma PermuteIsPermutation(domain: nat, keys: seq<nat>)
    requires domain <= 250_000
    ensures PermuteMap(domain, keys).Keys == PermuteMap(domain, keys).Values == Range(0, domain)
    ensures Permutation(PermuteMap(domain, keys))
  {
    hide Permute, PermuteMap;
    forall i: nat | i < domain ensures Permute(i, domain, keys).Some? { PermuteTotal(i, domain, keys); }
    TotalIsPermutation(domain, keys);
  }

  // ----- the executable form -----

  /** One pass of all rounds over a value, updating its two coordinates in turn. */
  method ApplyRounds(v: nat, net: Network) returns (w: nat)
    requires net.Valid()
    ensures w == net.Forward(v)
  {
    hide net.RoundFn, net.Turn;
    var left: nat, right: nat := v / net.half, v % net.half;
    for i := 0 to |net.keys|
      invariant Point(left, right) == net.Rounds(net.Split(v), i)
    {
      if i % 2 == 0 {
        right := net.Turn(right, net.RoundFn(left, net.keys[i]));
      } else {
        left := net.Turn(left, net.RoundFn(right, net.keys[i]));
      }
    }
    w := left * net.half + right;
  }

  method FeistelPermute(idx: nat, domain: nat, keys: seq<nat>) returns (r: Option<nat>)
    requires domain < U32_SIZE - 1
    ensures r == Permute(idx, domain, keys)
  {
    if domain <= 1 {
      return Some(0);
    }
    SideIsPositive(domain);
    var half := IsqrtCeil(domain);
    var net := Network(keys, half);
    var val: nat := idx;
    for step := 0 to WALK_CAP
      invariant net.Walk(idx, domain, WALK_CAP) == net.Walk(val, domain, WALK_CAP - step)
    {
      val := ApplyRounds(val, net);
      if val < domain {
        return Some(val);
      }
    }
    r := None;
  }
}
