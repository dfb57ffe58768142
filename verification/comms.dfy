/**
 * The shared-array protocol: 64 sixteen-bit words visible to every robot of a team.
 * Words 0-3 hold our archons' beacons, 4-7 the enemy archons' beacons, 8-21 two
 * banks of seven unit counters (even rounds use 8-14, odd rounds 15-21).
 */
module Communication {
  import opened Wrappers
  import opened Engine
  import Arith

  const ArrayLength: int := 64
  const WordLimit: int := 0x10000

  const ArchonIndexOffset: int := 0
  const ArchonIndexLength: int := 4
  const EnemyArchonIndexOffset: int := ArchonIndexOffset + ArchonIndexLength
  const EnemyArchonIndexLength: int := 4
  const UnitCountOffset: int := EnemyArchonIndexOffset + EnemyArchonIndexLength
  const UnitCountLength: int := 14
  const OddUnitCountOffset: int := 7
  const NumUnitTypes: int := 7
  /** RobotType.ARCHON.ordinal(), from the engine's declaration order. */
  const ArchonOrdinal: int := 0

  predicate IsWord(v: int) { 0 <= v < WordLimit }

  /** The shared array: exactly 64 words, each in 0..0xFFFF. */
  type SharedArray = a: seq<int> | |a| == ArrayLength && forall i :: 0 <= i < |a| ==> IsWord(a[i])
    witness seq(64, i => 0)

  /**
   * rc.writeSharedArray: the engine refuses (throws) an index outside 0..63 or a
   * value outside 0..0xFFFF; that refusal is None.
   */
  function Write(a: SharedArray, index: int, value: int): (r: Option<SharedArray>)
    ensures r.Some? <==> 0 <= index < ArrayLength && IsWord(value)
    ensures r.Some? ==> r.value[index] == value
    ensures r.Some? ==> forall i :: 0 <= i < ArrayLength && i != index ==> r.value[i] == a[i]
  {
    if 0 <= index < ArrayLength && IsWord(value) then Some(a[index := value]) else None
  }

  predicate InBounds(c: Consts, l: Loc)
  {
    0 <= l.x < c.mapMaxWidth && 0 <= l.y < c.mapMaxHeight
  }

  // ---------------------------------------------------------------- sparse codec

  /** writeInterestingLocationSparse's word: x*H + y + 1, so that 0 stays "absent". */
  function EncodeSparse(c: Consts, l: Loc): int
  {
    l.x * c.mapMaxHeight + l.y + 1
  }

  /** readInterestingLocationSparse's decoding of one word. */
  function DecodeSparse(c: Consts, w: int): (r: Option<Loc>)
    requires ValidConsts(c) && IsWord(w)
    ensures w == 0 <==> r.None?
  {
    if w == 0 then None
    else
      var e := w - 1;
      Some(Loc(e / c.mapMaxHeight, e % c.mapMaxHeight))
  }

  lemma SparseRoundTrip(c: Consts, l: Loc)
    requires ValidConsts(c) && InBounds(c, l)
    ensures 1 <= EncodeSparse(c, l) <= c.mapMaxWidth * c.mapMaxHeight
    ensures DecodeSparse(c, EncodeSparse(c, l)) == Some(l)
  {
    var h := c.mapMaxHeight;
    Arith.MulMono(l.x, c.mapMaxWidth - 1, h);
    assert (c.mapMaxWidth - 1) * h == c.mapMaxWidth * h - h;
    Arith.DivMod(l.x * h + l.y, h, l.x, l.y);
  }

  function WriteSparse(c: Consts, a: SharedArray, index: int, l: Loc): Option<SharedArray>
  {
    Write(a, index, EncodeSparse(c, l))
  }

  function ReadSparse(c: Consts, a: SharedArray, index: int): Option<Loc>
    requires ValidConsts(c) && 0 <= index < ArrayLength
  {
    DecodeSparse(c, a[index])
  }

  /** A sparse write of an in-bounds location is accepted and reads back as that location. */
  lemma SparseWriteRead(c: Consts, a: SharedArray, index: int, l: Loc)
    requires ValidConsts(c) && InBounds(c, l) && 0 <= index < ArrayLength
    ensures WriteSparse(c, a, index, l).Some?
    ensures ReadSparse(c, WriteSparse(c, a, index, l).value, index) == Some(l)
  {
    SparseRoundTrip(c, l);
  }

  // --------------------------------------------------------- coarse-expiry codec

  /** TIMESTAMP_GRANULARITY: how many coarse timestamps a game is cut into. */
  function Granularity(c: Consts): (g: int)
    requires ValidConsts(c)
    ensures g >= 1
    ensures c.mapMaxWidth * c.mapMaxHeight * g <= 0xFFFF
  {
    Arith.DivTimes(0xFFFF, c.mapMaxWidth * c.mapMaxHeight);
    0xFFFF / (c.mapMaxWidth * c.mapMaxHeight)
  }

  /** The coarse timestamp of a round: G*round/(MAX_ROUNDS+1). */
  function Timestamp(c: Consts, round: nat): int
    requires ValidConsts(c)
  {
    Granularity(c) * round / (c.maxRounds + 1)
  }

  lemma TimestampBelowGranularity(c: Consts, round: nat)
    requires ValidConsts(c) && round <= c.maxRounds
    ensures 0 <= Timestamp(c, round) < Granularity(c)
  {
    Arith.ScaledBelow(Granularity(c), round, c.maxRounds);
  }

  lemma TimestampMonotone(c: Consts, r1: nat, r2: nat)
    requires ValidConsts(c) && r1 <= r2
    ensures Timestamp(c, r1) <= Timestamp(c, r2)
  {
    var g := Granularity(c);
    Arith.MulMono(r1, r2, g);
    assert g * r1 <= g * r2;
    Arith.DivMono(g * r1, g * r2, c.maxRounds + 1);
  }

  /** writeInterestingLocationWithCoarseExpiry's word: (x*H + y)*G + ts + 1. */
  function EncodeBeacon(c: Consts, l: Loc, round: nat): int
    requires ValidConsts(c)
  {
    (l.x * c.mapMaxHeight + l.y) * Granularity(c) + Timestamp(c, round) + 1
  }

  /**
   * readInterestingLocationWithCoarseExpiry's decoding: absent for word 0, and
   * expired when the current timestamp is more than one ahead of the stored one.
   */
  function DecodeBeacon(c: Consts, w: int, round: nat): (r: Option<Loc>)
    requires ValidConsts(c) && IsWord(w)
    ensures w == 0 ==> r.None?
    ensures w != 0 && Timestamp(c, round) - (w - 1) % Granularity(c) > 1 ==> r.None?
  {
    if w == 0 then None
    else
      var g := Granularity(c);
      var e := w - 1;
      var stored := e % g;
      if Timestamp(c, round) - stored > 1 then None
      else
        var cell := e / g;
        Some(Loc(cell / c.mapMaxHeight, cell % c.mapMaxHeight))
  }

  /** The cell number x*h + y of a cell of a w by h grid lies in 0 .. w*h - 1. */
  lemma CellBelow(x: int, y: int, w: int, h: int)
    requires 0 <= x < w && 0 <= y < h
    ensures 0 <= x * h + y <= w * h - 1
  {
    Arith.MulMono(x, w - 1, h);
    assert (w - 1) * h == w * h - h;
    Arith.MulMono(0, x, h);
  }

  /** A cell number scaled by g, plus a timestamp below g, plus one, lies in 1 .. n*g. */
  lemma ScaledCell(cell: int, n: int, g: int, ts: int)
    requires 0 <= cell <= n - 1 && 0 <= ts < g
    ensures 1 <= cell * g + ts + 1 <= n * g
  {
    Arith.MulMono(cell, n - 1, g);
    assert (n - 1) * g == n * g - g;
    Arith.MulMono(0, cell, g);
  }

  /** A beacon word for an in-bounds location written within the game is nonzero and fits 16 bits. */
  lemma BeaconFits(c: Consts, l: Loc, round: nat)
    requires ValidConsts(c) && InBounds(c, l) && round <= c.maxRounds
    ensures 1 <= EncodeBeacon(c, l, round)
    ensures EncodeBeacon(c, l, round) <= c.mapMaxWidth * c.mapMaxHeight * Granularity(c) <= 0xFFFF
  {
    TimestampBelowGranularity(c, round);
    CellBelow(l.x, l.y, c.mapMaxWidth, c.mapMaxHeight);
    ScaledCell(l.x * c.mapMaxHeight + l.y, c.mapMaxWidth * c.mapMaxHeight, Granularity(c), Timestamp(c, round));
  }

  /**
   * Reading back a beacon: it yields exactly the written location while the reading
   * round's timestamp is at most one past the writing round's, and nothing after.
   */
  lemma BeaconRoundTrip(c: Consts, l: Loc, writeRound: nat, readRound: nat)
    requires ValidConsts(c) && InBounds(c, l) && writeRound <= c.maxRounds
    ensures IsWord(EncodeBeacon(c, l, writeRound))
    ensures DecodeBeacon(c, EncodeBeacon(c, l, writeRound), readRound)
         == if Timestamp(c, readRound) - Timestamp(c, writeRound) > 1 then None else Some(l)
  {
    BeaconFits(c, l, writeRound);
    TimestampBelowGranularity(c, writeRound);
    var h, g := c.mapMaxHeight, Granularity(c);
    var cell := l.x * h + l.y;
    var ts := Timestamp(c, writeRound);
    Arith.DivMod(cell * g + ts, g, cell, ts);
    Arith.DivMod(cell, h, l.x, l.y);
  }

  function WriteBeacon(c: Consts, a: SharedArray, index: int, l: Loc, round: nat): Option<SharedArray>
    requires ValidConsts(c)
  {
    Write(a, index, EncodeBeacon(c, l, round))
  }

  function ReadBeacon(c: Consts, a: SharedArray, index: int, round: nat): Option<Loc>
    requires ValidConsts(c) && 0 <= index < ArrayLength
  {
    DecodeBeacon(c, a[index], round)
  }

  // ------------------------------------------------------------- archon slots

  /** The number of present entries. */
  function NumPresent(s: seq<Option<Loc>>): (n: nat)
    ensures n <= |s|
  {
    if |s| == 0 then 0 else (if s[0].Some? then 1 else 0) + NumPresent(s[1..])
  }

  /** The position a present slot takes in the compacted array: the number of present slots before it. */
  function Rank(s: seq<Option<Loc>>, i: int): nat
    requires 0 <= i <= |s|
  {
    NumPresent(s[..i])
  }

  /** Copies the present entries, in slot order, into an array of exactly that length. */
  function Compact(s: seq<Option<Loc>>): (r: seq<Loc>)
  {
    if |s| == 0 then []
    else if s[0].Some? then [s[0].value] + Compact(s[1..])
    else Compact(s[1..])
  }

  lemma {:induction false} CompactLength(s: seq<Option<Loc>>)
    ensures |Compact(s)| == NumPresent(s)
  {
    if |s| > 0 { CompactLength(s[1..]); }
  }

  /** A present slot lands at its rank in the compacted array. */
  lemma {:induction false} CompactRank(s: seq<Option<Loc>>, i: int)
    requires 0 <= i < |s| && s[i].Some?
    ensures Rank(s, i) < |Compact(s)| && Compact(s)[Rank(s, i)] == s[i].value
  {
    var t := s[1..];
    if i == 0 {
      assert s[..0] == [];
    } else {
      CompactRank(t, i - 1);
      assert s[..i][1..] == t[..i - 1];
      assert t[i - 1] == s[i];
    }
  }

  /** Every entry of the compacted array comes from a present slot. */
  lemma {:induction false} CompactSource(s: seq<Option<Loc>>, k: int)
    requires 0 <= k < |Compact(s)|
    ensures exists i :: 0 <= i < |s| && s[i] == Some(Compact(s)[k])
  {
    var t := s[1..];
    if s[0].Some? && k == 0 {
      assert s[0] == Some(Compact(s)[k]);
    } else {
      var k' := if s[0].Some? then k - 1 else k;
      assert Compact(s)[k] == Compact(t)[k'];
      CompactSource(t, k');
      var j :| 0 <= j < |t| && t[j] == Some(Compact(t)[k']);
      assert s[j + 1] == t[j];
    }
  }

  /** The decoded beacons of four consecutive slots starting at base. */
  function Slots(c: Consts, a: SharedArray, base: int, round: nat): (s: seq<Option<Loc>>)
    requires ValidConsts(c) && 0 <= base <= ArrayLength - 4
    ensures |s| == 4
    ensures forall i :: 0 <= i < 4 ==> s[i] == ReadBeacon(c, a, base + i, round)
  {
    [ReadBeacon(c, a, base, round), ReadBeacon(c, a, base + 1, round),
     ReadBeacon(c, a, base + 2, round), ReadBeacon(c, a, base + 3, round)]
  }

  /**
   * readArchonLocations (base 0) and readEnemyArchonLocations (base 4): the live
   * beacons of the four slots, in slot order, with no gaps.
   */
  function ReadLocations(c: Consts, a: SharedArray, base: int, round: nat): (r: seq<Loc>)
    requires ValidConsts(c) && (base == ArchonIndexOffset || base == EnemyArchonIndexOffset)
    ensures |r| == NumPresent(Slots(c, a, base, round))
    ensures forall i :: 0 <= i < 4 && Slots(c, a, base, round)[i].Some? ==>
      var k := Rank(Slots(c, a, base, round), i);
      k < |r| && r[k] == Slots(c, a, base, round)[i].value
    ensures forall k :: 0 <= k < |r| ==>
      exists i :: 0 <= i < 4 && Slots(c, a, base, round)[i] == Some(r[k])
  {
    var s := Slots(c, a, base, round);
    CompactLength(s);
    assert forall i :: 0 <= i < 4 && s[i].Some? ==>
      Rank(s, i) < |Compact(s)| && Compact(s)[Rank(s, i)] == s[i].value by {
      forall i | 0 <= i < 4 && s[i].Some? { CompactRank(s, i); }
    }
    assert forall k :: 0 <= k < |Compact(s)| ==> exists i :: 0 <= i < 4 && s[i] == Some(Compact(s)[k]) by {
      forall k | 0 <= k < |Compact(s)| { CompactSource(s, k); }
    }
    Compact(s)
  }

  /** A recursion over the slots from k on, finding the first free (absent or expired) one. */
  function FirstFreeFrom(c: Consts, a: SharedArray, k: int, round: nat): (r: int)
    requires ValidConsts(c) && 0 <= k <= ArchonIndexLength
    ensures k <= r <= ArchonIndexLength
    ensures forall j :: k <= j < r ==> ReadBeacon(c, a, j, round).Some?
    ensures r < ArchonIndexLength ==> ReadBeacon(c, a, r, round).None?
    decreases ArchonIndexLength - k
  {
    if k == ArchonIndexLength then k
    else if ReadBeacon(c, a, k, round).None? then k
    else FirstFreeFrom(c, a, k + 1, round)
  }

  /** initArchonIndex: the first of our four archon slots with no live beacon, or 4 if all are live. */
  function InitArchonIndex(c: Consts, a: SharedArray, round: nat): (r: int)
    requires ValidConsts(c)
    ensures 0 <= r <= ArchonIndexLength
    ensures forall j :: 0 <= j < r ==> ReadBeacon(c, a, j, round).Some?
    ensures r < ArchonIndexLength ==> ReadBeacon(c, a, r, round).None?
  {
    FirstFreeFrom(c, a, 0, round)
  }

  /**
   * writeArchonLocation: picks this archon's slot on first use (myIndex == -1) and
   * writes its beacon there; returns the slot kept for later turns.
   */
  function WriteArchonLocation(c: Consts, a: SharedArray, myIndex: int, here: Loc, round: nat)
    : (r: (int, Option<SharedArray>))
    requires ValidConsts(c)
    ensures myIndex != -1 ==> r.0 == myIndex
    ensures myIndex == -1 ==> r.0 == InitArchonIndex(c, a, round)
    ensures 0 <= r.0 < ArrayLength && InBounds(c, here) && round <= c.maxRounds ==>
      r.1.Some? && ReadBeacon(c, r.1.value, r.0, round) == Some(here)
    ensures r.1.Some? ==> forall i :: 0 <= i < ArrayLength && i != r.0 ==> r.1.value[i] == a[i]
  {
    var idx := if myIndex == -1 then InitArchonIndex(c, a, round) else myIndex;
    var w := WriteBeacon(c, a, idx, here, round);
    assert 0 <= idx < ArrayLength && InBounds(c, here) && round <= c.maxRounds ==>
      w.Some? && ReadBeacon(c, w.value, idx, round) == Some(here) by {
      if 0 <= idx < ArrayLength && InBounds(c, here) && round <= c.maxRounds {
        WriteReadSameRound(c, a, idx, here, round);
      }
    }
    (idx, w)
  }

  /** A beacon written this round reads back as the location in the same round. */
  lemma WriteReadSameRound(c: Consts, a: SharedArray, index: int, l: Loc, round: nat)
    requires ValidConsts(c) && InBounds(c, l) && round <= c.maxRounds && 0 <= index < ArrayLength
    ensures WriteBeacon(c, a, index, l, round).Some?
    ensures ReadBeacon(c, WriteBeacon(c, a, index, l, round).value, index, round) == Some(l)
  {
    BeaconRoundTrip(c, l, round, round);
  }

  /** The slot writeEnemyArchonLocation uses for an archon ID: 4 + ID/2 - 1. */
  function EnemyArchonSlot(id: nat): int
  {
    EnemyArchonIndexOffset + id / 2 - 1
  }

  /** Archon IDs 2..9 fall in the enemy slots 4..7, two consecutive IDs per slot. */
  lemma EnemyArchonSlotRange(id: nat)
    requires 2 <= id <= 9
    ensures EnemyArchonIndexOffset <= EnemyArchonSlot(id) < EnemyArchonIndexOffset + EnemyArchonIndexLength
    ensures EnemyArchonSlot(id) == EnemyArchonIndexOffset + (id - 2) / 2
  {}

  function WriteEnemyArchonLocation(c: Consts, a: SharedArray, id: nat, l: Loc, round: nat)
    : (r: Option<SharedArray>)
    requires ValidConsts(c)
    ensures 2 <= id <= 9 && InBounds(c, l) && round <= c.maxRounds ==>
      r.Some? && ReadBeacon(c, r.value, EnemyArchonSlot(id), round) == Some(l)
    ensures r.Some? ==> forall i :: 0 <= i < ArrayLength && i != EnemyArchonSlot(id) ==> r.value[i] == a[i]
  {
    var w := WriteBeacon(c, a, EnemyArchonSlot(id), l, round);
    assert 2 <= id <= 9 && InBounds(c, l) && round <= c.maxRounds ==>
      w.Some? && ReadBeacon(c, w.value, EnemyArchonSlot(id), round) == Some(l) by {
      if 2 <= id <= 9 && InBounds(c, l) && round <= c.maxRounds {
        WriteReadSameRound(c, a, EnemyArchonSlot(id), l, round);
      }
    }
    w
  }

  // -------------------------------------------------------------- unit counts

  /** The bank the current round accumulates into: 0 on even rounds, 7 on odd ones. */
  function CurrentBank(round: nat): int
  {
    if round % 2 == 1 then OddUnitCountOffset else 0
  }

  /** The bank getLastTurnUnitCount reads: the one the previous round accumulated into. */
  function LastBank(round: nat): int
  {
    if round % 2 == 0 then OddUnitCountOffset else 0
  }

  predicate InCurrentBank(round: nat, i: int)
  {
    UnitCountOffset + CurrentBank(round) <= i < UnitCountOffset + CurrentBank(round) + NumUnitTypes
  }

  /** The round-parity guard of clearUnitCounts: skip when another archon has already started counting. */
  predicate ClearIsSkipped(a: SharedArray, round: nat, archonCount: int)
  {
    var reported := a[UnitCountOffset + CurrentBank(round) + ArchonOrdinal];
    archonCount > 1 && reported > 0 && reported < archonCount
  }

  /** clearUnitCounts: zeroes the current bank, unless the quorum check says it was already cleared. */
  function ClearUnitCounts(a: SharedArray, round: nat, archonCount: int): (r: SharedArray)
    ensures ClearIsSkipped(a, round, archonCount) ==> r == a
    ensures !ClearIsSkipped(a, round, archonCount) ==>
      forall i :: 0 <= i < ArrayLength ==> r[i] == (if InCurrentBank(round, i) then 0 else a[i])
  {
    if ClearIsSkipped(a, round, archonCount) then a
    else
      seq(ArrayLength, i requires 0 <= i < ArrayLength => if InCurrentBank(round, i) then 0 else a[i])
  }

  /** incrementUnitCount: adds one to this type's counter in the current bank (the engine refuses 0x10000). */
  function IncrementUnitCount(a: SharedArray, round: nat, ordinal: int): (r: Option<SharedArray>)
    requires 0 <= ordinal < NumUnitTypes
    ensures var slot := UnitCountOffset + CurrentBank(round) + ordinal;
      && (r.Some? <==> a[slot] < 0xFFFF)
      && (r.Some? ==> r.value[slot] == a[slot] + 1)
      && (r.Some? ==> forall i :: 0 <= i < ArrayLength && i != slot ==> r.value[i] == a[i])
  {
    var slot := UnitCountOffset + CurrentBank(round) + ordinal;
    Write(a, slot, a[slot] + 1)
  }

  /** getLastTurnUnitCount: the seven counters of the other bank. */
  function GetLastTurnUnitCount(a: SharedArray, round: nat): (r: seq<int>)
    ensures |r| == NumUnitTypes
    ensures forall i :: 0 <= i < NumUnitTypes ==> r[i] == a[UnitCountOffset + LastBank(round) + i]
  {
    seq(NumUnitTypes, i requires 0 <= i < NumUnitTypes => a[UnitCountOffset + LastBank(round) + i])
  }

  /** The two banks are disjoint and lie in 8..21, away from the archon slots. */
  lemma BanksDisjoint(round: nat)
    ensures CurrentBank(round) != CurrentBank(round + 1)
    ensures CurrentBank(round) == LastBank(round + 1)
    ensures forall i :: InCurrentBank(round, i) ==> !InCurrentBank(round + 1, i)
    ensures forall i :: InCurrentBank(round, i) ==> 8 <= i < UnitCountOffset + UnitCountLength
  {}

  /**
   * What one robot adds in round r is what everyone reads as "last turn" in round
   * r+1: that counter is one higher, the other six unchanged.
   */
  lemma IncrementVisibleNextRound(a: SharedArray, round: nat, ordinal: int)
    requires 0 <= ordinal < NumUnitTypes
    requires IncrementUnitCount(a, round, ordinal).Some?
    ensures var before := GetLastTurnUnitCount(a, round + 1);
      var after := GetLastTurnUnitCount(IncrementUnitCount(a, round, ordinal).value, round + 1);
      && after[ordinal] == before[ordinal] + 1
      && forall i :: 0 <= i < NumUnitTypes && i != ordinal ==> after[i] == before[i]
  {
    BanksDisjoint(round);
  }
}
