/**
 * Directions: the compass ordering the bot uses, the random permutation of the
 * eight directions drawn at start-up, the cones of directions toward a
 * destination, and the directions an enemy threatens.
 */
module Directions {
  import opened Engine
  import Arith

  /** ACTUAL_DIRECTIONS, clockwise from north. */
  const ActualDirections: seq<Direction> := [North, NorthEast, East, SouthEast, South, SouthWest, West, NorthWest]

  /** dirToInt: the position in ActualDirections, and -1 for CENTER. */
  function DirToInt(d: Direction): (r: int)
    ensures d == Center <==> r == -1
    ensures d != Center ==> 0 <= r < 8 && ActualDirections[r] == d
  {
    match d
    case North => 0
    case NorthEast => 1
    case East => 2
    case SouthEast => 3
    case South => 4
    case SouthWest => 5
    case West => 6
    case NorthWest => 7
    case Center => -1
  }

  /** dirToInt inverts the indexing of ActualDirections. */
  lemma DirToIntOfActual(i: int)
    requires 0 <= i < 8
    ensures DirToInt(ActualDirections[i]) == i
  {
  }

  // ---------------------------------------------------------------------------
  // initRandomDirections
  // ---------------------------------------------------------------------------

  function Factorial(n: nat): (f: nat)
    ensures f >= 1
  {
    if n == 0 then 1 else n * Factorial(n - 1)
  }

  /**
   * The digits of `index` in the factorial number system, for n positions: the
   * first digit is index % n, below n, and the rest are the digits of index / n
   * for n-1 positions.
   */
  function Digits(index: nat, n: nat): (ds: seq<nat>)
    ensures |ds| == n
  {
    if n == 0 then [] else [index % n] + Digits(index / n, n - 1)
  }

  /** One step of Digits, with the digit and the quotient named. */
  lemma DigitsStep(index: nat, n: nat, sel: nat, q: nat)
    requires n >= 1 && sel == index % n && q == index / n
    ensures Digits(index, n) == [sel] + Digits(q, n - 1)
    ensures sel < n
  {
  }

  /** Digit k of n positions is below n - k. */
  lemma {:induction false} DigitsBounded(index: nat, n: nat)
    ensures forall k :: 0 <= k < n ==> Digits(index, n)[k] < n - k
    decreases n
  {
    if n > 0 {
      DigitsBounded(index / n, n - 1);
      var ds := Digits(index, n);
      assert forall k :: 1 <= k < n ==> ds[k] == Digits(index / n, n - 1)[k - 1];
    }
  }

  /** The index a digit sequence stands for: the first digit plus n times the index of the rest. */
  function FromDigits(ds: seq<nat>, n: nat): nat
    requires |ds| == n
    decreases n
  {
    if n == 0 then 0 else ds[0] + n * FromDigits(ds[1..], n - 1)
  }

  /** The index is read back from its digits. */
  lemma {:induction false} DigitsRoundTrip(index: nat, n: nat)
    requires index < Factorial(n)
    ensures FromDigits(Digits(index, n), n) == index
    decreases n
  {
    if n > 0 {
      var q, sel := index / n, index % n;
      var ds := Digits(index, n);
      DigitsStep(index, n, sel, q);
      assert ds[0] == sel && ds[1..] == Digits(q, n - 1);
      FactorialDigit(index, n);
      DigitsRoundTrip(q, n - 1);
      calc {
        FromDigits(ds, n);
        ds[0] + n * FromDigits(ds[1..], n - 1);
        sel + n * q;
        index;
      }
    }
  }

  /** Reading the first digit off an index: it is the remainder, and the rest is the quotient. */
  lemma FromDigitsStep(ds: seq<nat>, n: nat, index: nat)
    requires n >= 1 && Fits(ds, n) && index == FromDigits(ds, n)
    ensures index % n == ds[0] && index / n == FromDigits(ds[1..], n - 1)
  {
    Arith.DivMod(index, n, FromDigits(ds[1..], n - 1), ds[0]);
  }

  /** Different indices below n! have different digits. */
  lemma DigitsInjective(index: nat, index': nat, n: nat)
    requires index < Factorial(n) && index' < Factorial(n)
    requires Digits(index, n) == Digits(index', n)
    ensures index == index'
  {
    DigitsRoundTrip(index, n);
    DigitsRoundTrip(index', n);
  }

  /** The digits of the factorial number system: the remainder and a quotient below (n-1)!. */
  lemma FactorialDigit(index: nat, n: nat)
    requires n >= 1 && index < Factorial(n)
    ensures index == n * (index / n) + index % n
    ensures index / n < Factorial(n - 1)
  {
    var q := index / n;
    assert index == n * q + index % n;
    if q >= Factorial(n - 1) {
      assert n * q >= n * Factorial(n - 1);
      assert false;
    }
  }

  /** Removing position k from a sequence. */
  function Without(s: seq<int>, k: int): (r: seq<int>)
    requires 0 <= k < |s|
    ensures |r| == |s| - 1
  {
    s[..k] + s[k + 1..]
  }

  predicate Fits(ds: seq<nat>, n: int)
  {
    |ds| == n && forall k :: 0 <= k < |ds| ==> ds[k] < n - k
  }

  /**
   * The permutation a digit sequence selects: the last position takes element ds[0]
   * of what remains, and the positions before it are chosen from the rest by the
   * remaining digits.
   */
  function Select(avail: seq<int>, ds: seq<nat>): (r: seq<int>)
    requires Fits(ds, |avail|)
    ensures |r| == |avail|
    decreases |avail|
  {
    if avail == [] then []
    else
      assert forall k :: 0 <= k < |ds| - 1 ==> ds[1..][k] == ds[k + 1];
      Select(Without(avail, ds[0]), ds[1..]) + [avail[ds[0]]]
  }

  /** The permutation the factorial number system assigns to index. */
  function Pick(avail: seq<int>, index: nat): (r: seq<int>)
    ensures |r| == |avail|
  {
    DigitsBounded(index, |avail|);
    Select(avail, Digits(index, |avail|))
  }

  /** Select rearranges its input. */
  lemma {:induction false} SelectPermutes(avail: seq<int>, ds: seq<nat>)
    requires Fits(ds, |avail|)
    ensures multiset(Select(avail, ds)) == multiset(avail)
    decreases |avail|
  {
    if avail != [] {
      var sel := ds[0];
      assert forall k :: 0 <= k < |ds| - 1 ==> ds[1..][k] == ds[k + 1];
      SelectPermutes(Without(avail, sel), ds[1..]);
      assert avail == avail[..sel] + [avail[sel]] + avail[sel + 1..];
    }
  }

  predicate Distinct(s: seq<int>)
  {
    forall a, b :: 0 <= a < b < |s| ==> s[a] != s[b]
  }

  lemma WithoutDistinct(s: seq<int>, k: int)
    requires Distinct(s) && 0 <= k < |s|
    ensures Distinct(Without(s, k))
  {
    var rest := Without(s, k);
    forall a, b | 0 <= a < b < |rest|
      ensures rest[a] != rest[b]
    {
      var ia := if a < k then a else a + 1;
      var ib := if b < k then b else b + 1;
      assert rest[a] == s[ia] && rest[b] == s[ib];
    }
  }

  /** Over distinct elements, different digit sequences select different permutations. */
  lemma {:induction false} SelectInjective(avail: seq<int>, ds: seq<nat>, ds': seq<nat>)
    requires Distinct(avail) && Fits(ds, |avail|) && Fits(ds', |avail|)
    requires Select(avail, ds) == Select(avail, ds')
    ensures ds == ds'
    decreases |avail|
  {
    if avail != [] {
      var n := |avail|;
      var p := Select(avail, ds);
      assert forall k :: 0 <= k < |ds| - 1 ==> ds[1..][k] == ds[k + 1];
      assert forall k :: 0 <= k < |ds'| - 1 ==> ds'[1..][k] == ds'[k + 1];
      assert avail[ds[0]] == p[n - 1] == avail[ds'[0]];
      assert ds[0] == ds'[0];
      var rest := Without(avail, ds[0]);
      assert Select(rest, ds[1..]) == p[..n - 1] == Select(rest, ds'[1..]);
      WithoutDistinct(avail, ds[0]);
      SelectInjective(rest, ds[1..], ds'[1..]);
      assert ds == [ds[0]] + ds[1..] && ds' == [ds'[0]] + ds'[1..];
    }
  }

  /** Pick rearranges its input. */
  lemma PickPermutes(avail: seq<int>, index: nat)
    ensures multiset(Pick(avail, index)) == multiset(avail)
  {
    DigitsBounded(index, |avail|);
    SelectPermutes(avail, Digits(index, |avail|));
  }

  /** Over n distinct elements, different indices below n! give different permutations. */
  lemma PickInjective(avail: seq<int>, index: nat, index': nat)
    requires Distinct(avail)
    requires index < Factorial(|avail|) && index' < Factorial(|avail|)
    requires Pick(avail, index) == Pick(avail, index')
    ensures index == index'
  {
    DigitsBounded(index, |avail|);
    DigitsBounded(index', |avail|);
    SelectInjective(avail, Digits(index, |avail|), Digits(index', |avail|));
    DigitsInjective(index, index', |avail|);
  }

  /** The unused direction indices in lo..hi-1, in ascending order. */
  function Free(used: seq<bool>, lo: int, hi: int): (r: seq<int>)
    requires 0 <= lo && hi <= |used|
    ensures |r| <= if lo < hi then hi - lo else 0
    decreases hi - lo
  {
    if lo >= hi then [] else (if !used[lo] then [lo] else []) + Free(used, lo + 1, hi)
  }

  lemma {:induction false} FreeSplit(used: seq<bool>, lo: int, mid: int, hi: int)
    requires 0 <= lo <= mid <= hi <= |used|
    ensures Free(used, lo, hi) == Free(used, lo, mid) + Free(used, mid, hi)
    decreases mid - lo
  {
    if lo < mid {
      FreeSplit(used, lo + 1, mid, hi);
    }
  }

  /** Marking an index outside lo..hi-1 leaves that range's free list alone. */
  lemma {:induction false} FreeFrame(used: seq<bool>, j: int, lo: int, hi: int)
    requires 0 <= j < |used| && 0 <= lo && hi <= |used| && (j < lo || hi <= j)
    ensures Free(used[j := true], lo, hi) == Free(used, lo, hi)
    decreases hi - lo
  {
    if lo < hi {
      FreeFrame(used, j, lo + 1, hi);
    }
  }

  /** The free list splits around a free index j. */
  lemma FreeAround(used: seq<bool>, j: int)
    requires 0 <= j < |used| && !used[j]
    ensures Free(used, 0, |used|) == Free(used, 0, j) + [j] + Free(used, j + 1, |used|)
  {
    FreeSplit(used, 0, j, |used|);
    FreeSplit(used, j, j + 1, |used|);
  }

  /** Once j is marked, the free list is the parts before and after it. */
  lemma FreeAroundMarked(used: seq<bool>, j: int)
    requires 0 <= j < |used|
    ensures Free(used[j := true], 0, |used|) == Free(used, 0, j) + Free(used, j + 1, |used|)
  {
    var used' := used[j := true];
    FreeSplit(used', 0, j, |used|);
    FreeSplit(used', j, j + 1, |used|);
    FreeFrame(used, j, 0, j);
    FreeFrame(used, j, j + 1, |used|);
  }

  /** Removing the middle element of a + [x] + b. */
  lemma WithoutMiddle(a: seq<int>, x: int, b: seq<int>)
    ensures (a + [x] + b)[|a|] == x
    ensures Without(a + [x] + b, |a|) == a + b
  {
    assert (a + [x] + b)[..|a|] == a;
    assert (a + [x] + b)[|a| + 1..] == b;
  }

  /** Marking the free index j removes it from the free list, at its position. */
  lemma MarkRemoves(used: seq<bool>, j: int)
    requires 0 <= j < |used| && !used[j]
    ensures |Free(used, 0, j)| < |Free(used, 0, |used|)|
    ensures Free(used, 0, |used|)[|Free(used, 0, j)|] == j
    ensures Free(used[j := true], 0, |used|) == Without(Free(used, 0, |used|), |Free(used, 0, j)|)
  {
    FreeAround(used, j);
    FreeAroundMarked(used, j);
    WithoutMiddle(Free(used, 0, j), j, Free(used, j + 1, |used|));
  }

  /** The indices of ACTUAL_DIRECTIONS, 0 to 7 in order. */
  function AllIndices(): (r: seq<int>)
    ensures |r| == 8 && forall k :: 0 <= k < 8 ==> r[k] == k
  {
    seq(8, k => k)
  }

  /** With nothing from lo on used, the free list from lo is lo, lo+1, ... in order. */
  lemma {:induction false} NoneUsedFrom(used: seq<bool>, lo: int)
    requires 0 <= lo <= |used| && forall j :: lo <= j < |used| ==> !used[j]
    ensures |Free(used, lo, |used|)| == |used| - lo
    ensures forall k :: 0 <= k < |used| - lo ==> Free(used, lo, |used|)[k] == lo + k
    decreases |used| - lo
  {
    if lo < |used| {
      NoneUsedFrom(used, lo + 1);
    }
  }

  lemma NoneUsed(used: seq<bool>)
    requires |used| == 8 && forall j :: 0 <= j < 8 ==> !used[j]
    ensures Free(used, 0, |used|) == AllIndices()
  {
    NoneUsedFrom(used, 0);
  }

  /** One step of Select, unfolded. */
  lemma SelectStep(avail: seq<int>, ds: seq<nat>)
    requires avail != [] && Fits(ds, |avail|)
    ensures Fits(ds[1..], |avail| - 1) && ds[0] < |avail|
    ensures Select(avail, ds) == Select(Without(avail, ds[0]), ds[1..]) + [avail[ds[0]]]
  {
    assert forall k :: 0 <= k < |ds| - 1 ==> ds[1..][k] == ds[k + 1];
  }

  /**
   * The inner loop of initRandomDirections: the first direction, in order, with
   * `selected` unused directions before it. One exists because `selected` is below
   * the number still unused.
   */
  method FindUnused(used: seq<bool>, selected: nat) returns (j: int)
    requires selected < |Free(used, 0, |used|)|
    ensures 0 <= j < |used| && !used[j] && |Free(used, 0, j)| == selected
  {
    var count := 0;
    j := 0;
    while j < |used|
      invariant 0 <= j <= |used|
      invariant count == |Free(used, 0, j)| <= selected
    {
      FreeSplit(used, 0, j, j + 1);
      if !used[j] {
        count := count + 1;
        if count > selected {
          return;
        }
      }
      j := j + 1;
    }
    assert false;
  }

  /**
   * One round of the outer loop keeps the permutation still to be chosen, by the
   * remaining digits `rest`, in step with the slots filled.
   */
  lemma RoundKeeps(used: seq<bool>, slots: seq<int>, rest: seq<nat>, i: int, j: int)
    requires 1 <= i <= |slots| && |Free(used, 0, |used|)| == i && Fits(rest, i)
    requires 0 <= j < |used| && !used[j] && |Free(used, 0, j)| == rest[0]
    ensures |Free(used[j := true], 0, |used|)| == i - 1 && Fits(rest[1..], i - 1)
    ensures Select(Free(used, 0, |used|), rest) + slots[i..]
      == Select(Free(used[j := true], 0, |used|), rest[1..]) + slots[i - 1 := j][i - 1..]
  {
    var free := Free(used, 0, |used|);
    MarkRemoves(used, j);
    SelectStep(free, rest);
    var tail := Select(Without(free, rest[0]), rest[1..]);
    assert Select(free, rest) == tail + [j];
    assert slots[i - 1 := j][i - 1..] == [j] + slots[i..];
  }

  /**
   * The outer loop of initRandomDirections from round i down: `rest` are the digits
   * still to be used, `index` the part of the draw not yet consumed, and the slots
   * from i on are already filled. The slots end up holding the permutation `ds`
   * selects from `all`.
   */
  method ChooseRounds(used0: seq<bool>, slots0: seq<int>, index0: nat, i0: int,
                      ghost all: seq<int>, ghost ds: seq<nat>, ghost rest0: seq<nat>) returns (perm: seq<int>)
    requires 0 <= i0 <= |used0| && |slots0| == |used0|
    requires |Free(used0, 0, |used0|)| == i0
    requires Fits(rest0, i0) && index0 == FromDigits(rest0, i0)
    requires Fits(ds, |all|) && Select(all, ds) == Select(Free(used0, 0, |used0|), rest0) + slots0[i0..]
    ensures perm == Select(all, ds)
  {
    var used, slots, index, i := used0, slots0, index0, i0;
    ghost var rest := rest0;
    while i >= 1
      invariant 0 <= i <= |used| && |slots| == |used|
      invariant |Free(used, 0, |used|)| == i
      invariant Fits(rest, i) && index == FromDigits(rest, i)
      invariant Select(all, ds) == Select(Free(used, 0, |used|), rest) + slots[i..]
    {
      FromDigitsStep(rest, i, index);
      var selected := index % i;
      index := index / i;
      var j := FindUnused(used, selected);
      RoundKeeps(used, slots, rest, i, j);
      used := used[j := true];
      slots := slots[i - 1 := j];
      rest := rest[1..];
      i := i - 1;
    }
    assert Free(used, 0, |used|) == [] && rest == [];
    perm := slots;
  }

  /**
   * initRandomDirections for the draw `index` (gen.nextInt(8!)): position i-1 takes
   * the (index % i)-th unused direction, for i from 8 down to 1. Every step finds an
   * unused direction, so the result is the factorial-number-system permutation of
   * ACTUAL_DIRECTIONS for index, given as direction indices.
   */
  method InitRandomDirections(index: nat) returns (perm: seq<int>)
    requires index < Factorial(8)
    ensures perm == Pick(AllIndices(), index)
    ensures multiset(perm) == multiset(AllIndices())
  {
    var used := seq(8, _ => false);
    var slots := seq(8, _ => -1);
    DigitsBounded(index, 8);
    DigitsRoundTrip(index, 8);
    NoneUsed(used);
    perm := ChooseRounds(used, slots, index, 8, AllIndices(), Digits(index, 8), Digits(index, 8));
    PickPermutes(AllIndices(), index);
  }

  // ---------------------------------------------------------------------------
  // Cones toward a destination
  // ---------------------------------------------------------------------------

  /** The number of single rotations between two directions, the short way round. */
  function Gap(d: Dir, e: Dir): (g: int)
    ensures 0 <= g <= 4
  {
    var cw := if e >= d then e - d else e - d + 8;
    if cw <= 4 then cw else 8 - cw
  }

  /** getDirectionsStrictlyToward: the direction and its two neighbours. */
  function StrictlyToward(d: Dir): (r: seq<Dir>)
    ensures |r| == 3 && r[0] == d
    ensures forall e: Dir :: e in r <==> Gap(d, e) <= 1
  {
    [d, RotateLeft(d), RotateRight(d)]
  }

  /** getDirectionsWeaklyToward: the strict cone, then the two directions at right angles. */
  function WeaklyToward(d: Dir): (r: seq<Dir>)
    ensures |r| == 5 && r[..3] == StrictlyToward(d)
    ensures forall e: Dir :: e in r <==> Gap(d, e) <= 2
  {
    WeakCone(d);
    [d, RotateLeft(d), RotateRight(d), RotateLeft(RotateLeft(d)), RotateRight(RotateRight(d))]
  }

  lemma WeakCone(d: Dir)
    ensures var cone := [d, RotateLeft(d), RotateRight(d), RotateLeft(RotateLeft(d)), RotateRight(RotateRight(d))];
      forall e: Dir :: e in cone <==> Gap(d, e) <= 2
  {
    var l, r := RotateLeft(d), RotateRight(d);
    var ll, rr := RotateLeft(l), RotateRight(r);
    assert l == if d == 0 then 7 else d - 1;
    assert r == if d == 7 then 0 else d + 1;
    assert ll == if l == 0 then 7 else l - 1;
    assert rr == if r == 7 then 0 else r + 1;
  }

  predicate DistinctDirs(s: seq<Dir>)
  {
    forall a, b :: 0 <= a < b < |s| ==> s[a] != s[b]
  }

  /** No direction appears twice in either cone. */
  lemma TowardDistinct(d: Dir)
    ensures DistinctDirs(StrictlyToward(d)) && DistinctDirs(WeaklyToward(d))
  {
    var l, r := RotateLeft(d), RotateRight(d);
    assert l == if d == 0 then 7 else d - 1;
    assert r == if d == 7 then 0 else d + 1;
    assert RotateLeft(l) == if l == 0 then 7 else l - 1;
    assert RotateRight(r) == if r == 7 then 0 else r + 1;
  }

  // ---------------------------------------------------------------------------
  // dirsAwayFrom
  // ---------------------------------------------------------------------------

  /** A nearby robot as dirsAwayFrom sees it: its type's damage and its location. */
  datatype Threat = Threat(damage: int, loc: Loc)

  predicate Dangerous(t: Threat, curLoc: Loc)
  {
    t.damage > 0 && DistSq(t.loc, curLoc) <= 25
  }

  /** Direction i is marked because of robot t: t is dangerous and i is within one rotation of t's direction toward us. */
  predicate Marks(t: Threat, curLoc: Loc, dirFrom: Loc -> Dir, i: Dir)
  {
    Dangerous(t, curLoc) && Gap(dirFrom(t.loc), i) <= 1
  }

  function CountTrue(s: seq<bool>): (n: nat)
    ensures n <= |s|
  {
    if s == [] then 0 else (if s[0] then 1 else 0) + CountTrue(s[1..])
  }

  lemma {:induction false} CountTrueSet(s: seq<bool>, i: int)
    requires 0 <= i < |s|
    ensures CountTrue(s[i := true]) == CountTrue(s) + (if s[i] then 0 else 1)
    decreases |s|
  {
    if i > 0 {
      assert s[i := true][1..] == s[1..][i - 1 := true];
      CountTrueSet(s[1..], i - 1);
    }
  }

  lemma {:induction false} CountTrueNone(s: seq<bool>)
    requires forall i :: 0 <= i < |s| ==> !s[i]
    ensures CountTrue(s) == 0
    decreases |s|
  {
    if s != [] {
      CountTrueNone(s[1..]);
    }
  }

  lemma {:induction false} CountTrueAll(s: seq<bool>)
    requires CountTrue(s) == |s|
    ensures forall i :: 0 <= i < |s| ==> s[i]
    decreases |s|
  {
    if s != [] {
      CountTrueAll(s[1..]);
      assert forall i :: 1 <= i < |s| ==> s[i] == s[1..][i - 1];
    }
  }

  /** The ccw and cw neighbours dirsAwayFrom marks beside a direction, wrapping at 0 and 7. */
  function Neighbours(d: Dir): (r: (Dir, Dir))
    ensures r.0 != d && r.1 != d && r.0 != r.1
    ensures forall i: Dir :: Gap(d, i) <= 1 <==> i == r.0 || i == d || i == r.1
  {
    if d == 0 then (7, 1) else if d == 7 then (6, 0) else (d - 1, d + 1)
  }

  function B(b: bool): nat { if b then 1 else 0 }

  /**
   * Marking a direction and its two neighbours; the count of marked entries grows
   * by one per entry of the three that was unmarked.
   */
  function MarkCone(result: seq<bool>, d: Dir): (r: seq<bool>)
    requires |result| == 8
    ensures |r| == 8
    ensures forall i: Dir :: r[i] <==> result[i] || Gap(d, i) <= 1
    ensures CountTrue(r) == CountTrue(result) + B(!result[Neighbours(d).0]) + B(!result[d]) + B(!result[Neighbours(d).1])
  {
    var (ccw, cw) := Neighbours(d);
    CountTrueSet(result, ccw);
    CountTrueSet(result[ccw := true], d);
    CountTrueSet(result[ccw := true][d := true], cw);
    result[ccw := true][d := true][cw := true]
  }

  /**
   * dirsAwayFrom, with `dirFrom(l)` the engine's l.directionTo(curLoc): entry i is
   * true exactly when some robot that deals damage, within distance squared 25,
   * approaches along a direction within one rotation of i. The count of marked
   * entries is kept so the loop can stop once all eight are marked, which does not
   * change the result.
   */
  method DirsAwayFrom(robots: seq<Threat>, curLoc: Loc, dirFrom: Loc -> Dir) returns (result: seq<bool>)
    ensures |result| == 8
    ensures forall i: Dir :: result[i] <==> exists k :: 0 <= k < |robots| && Marks(robots[k], curLoc, dirFrom, i)
  {
    result := seq(8, _ => false);
    if |robots| == 0 {
      return;
    }
    var total := 0;
    CountTrueNone(result);
    var n := |robots|;
    while n > 0
      invariant 0 <= n <= |robots| && |result| == 8
      invariant total == CountTrue(result)
      invariant forall i: Dir :: result[i] <==> exists k :: n <= k < |robots| && Marks(robots[k], curLoc, dirFrom, i)
    {
      n := n - 1;
      var t := robots[n];
      if t.damage <= 0 || DistSq(t.loc, curLoc) > 25 {
        continue;
      }
      var asInt := dirFrom(t.loc);
      var (ccw, cw) := Neighbours(asInt);
      total := total + B(!result[ccw]) + B(!result[asInt]) + B(!result[cw]);
      result := MarkCone(result, asInt);
      if total == 8 {
        CountTrueAll(result);
        return;
      }
    }
  }
}
