/**
 * The nearest-candidate scans the bot repeats: walk an array from its last
 * element down to its first, skip what does not qualify, and keep a new best only
 * when its key is strictly smaller. Ties therefore go to the highest index.
 */
module Select {
  import opened Wrappers

  predicate AnyOk<T>(s: seq<T>, ok: T -> bool)
  {
    exists k :: 0 <= k < |s| && ok(s[k])
  }

  /**
   * j is the index a descending strict-minimum scan settles on: it qualifies, no
   * qualifying element has a smaller key, and every qualifying element above j
   * has a strictly larger one.
   */
  predicate IsBest<T>(s: seq<T>, ok: T -> bool, key: T -> int, j: int)
  {
    && 0 <= j < |s|
    && ok(s[j])
    && (forall k :: 0 <= k < |s| && ok(s[k]) ==> key(s[j]) <= key(s[k]))
    && (forall k :: j < k < |s| && ok(s[k]) ==> key(s[j]) < key(s[k]))
  }

  /** The best index among s[i..] after the scan has visited s[|s|-1] down to s[i]. */
  function Scan<T>(s: seq<T>, ok: T -> bool, key: T -> int, i: nat): (r: Option<nat>)
    requires i <= |s|
    ensures r.Some? ==> i <= r.value < |s| && ok(s[r.value])
    decreases |s| - i
  {
    if i == |s| then None
    else
      var b := Scan(s, ok, key, i + 1);
      if ok(s[i]) && (b.None? || key(s[i]) < key(s[b.value])) then Some(i) else b
  }

  /** The suffix scan finds something exactly when the suffix has a candidate, and what it finds is best there. */
  lemma {:induction false} ScanSuffix<T>(s: seq<T>, ok: T -> bool, key: T -> int, i: nat)
    requires i <= |s|
    ensures Scan(s, ok, key, i).None? <==> forall k :: i <= k < |s| ==> !ok(s[k])
    ensures Scan(s, ok, key, i).Some? ==>
      var j := Scan(s, ok, key, i).value;
      && (forall k :: i <= k < |s| && ok(s[k]) ==> key(s[j]) <= key(s[k]))
      && (forall k :: j < k < |s| && ok(s[k]) ==> key(s[j]) < key(s[k]))
    decreases |s| - i
  {
    if i < |s| {
      ScanSuffix(s, ok, key, i + 1);
    }
  }

  /** The whole scan finds a candidate exactly when there is one, and it is the best. */
  lemma ScanIsBest<T>(s: seq<T>, ok: T -> bool, key: T -> int)
    ensures Scan(s, ok, key, 0).None? <==> !AnyOk(s, ok)
    ensures Scan(s, ok, key, 0).Some? ==> IsBest(s, ok, key, Scan(s, ok, key, 0).value)
  {
    ScanSuffix(s, ok, key, 0);
  }

  /** The best index is unique. */
  lemma BestUnique<T>(s: seq<T>, ok: T -> bool, key: T -> int, j: int, j': int)
    requires IsBest(s, ok, key, j) && IsBest(s, ok, key, j')
    ensures j == j'
  {
  }

  /**
   * Once the best of s[i..] has a key no lower element can beat, the rest of the
   * scan keeps it: this is what lets the source stop early.
   */
  lemma {:induction false} ScanStable<T>(s: seq<T>, ok: T -> bool, key: T -> int, i: nat, b: nat)
    requires i <= |s| && Scan(s, ok, key, i) == Some(b)
    requires forall k :: 0 <= k < i && ok(s[k]) ==> key(s[b]) <= key(s[k])
    ensures Scan(s, ok, key, 0) == Some(b)
    decreases i
  {
    if i > 0 {
      assert Scan(s, ok, key, i - 1) == Some(b);
      ScanStable(s, ok, key, i - 1, b);
    }
  }

  /** Taking the same element out of two permutations of each other leaves permutations. */
  lemma RemoveOne<T>(s: seq<T>, t: seq<T>, k: int)
    requires multiset(s) == multiset(t) && s != [] && 0 <= k < |t| && t[k] == s[0]
    ensures multiset(s[1..]) == multiset(t[..k] + t[k + 1..])
  {
    var x := s[0];
    assert s == [x] + s[1..];
    assert t == t[..k] + [x] + t[k + 1..];
    calc {
      multiset(s[1..]);
      multiset(s) - multiset{x};
      multiset(t) - multiset{x};
      multiset(t[..k]) + multiset(t[k + 1..]);
      multiset(t[..k] + t[k + 1..]);
    }
  }
}
