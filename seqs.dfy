/**
 * The table operations the pipeline borrows from pandas, stated on
 * sequences of rows: boolean filtering (`df[mask]`), counting,
 * `drop_duplicates(subset=key)` (first occurrence kept), a left `merge`,
 * `dict(zip(keys, values))` (last occurrence wins), `unique()` and
 * `value_counts()`.
 */
module Seqs {
  import opened Wrappers

  // ---------------------------------------------------------------------------
  // Subsequences
  // ---------------------------------------------------------------------------

  /** `r` is `s` with some elements removed, `idx` giving where each element of `r` came from. */
  ghost predicate SubsequenceVia<T>(r: seq<T>, s: seq<T>, idx: seq<int>) {
    && |idx| == |r|
    && (forall k :: 0 <= k < |idx| ==> 0 <= idx[k] < |s| && r[k] == s[idx[k]])
    && (forall k, l :: 0 <= k < l < |idx| ==> idx[k] < idx[l])
  }

  ghost predicate IsSubsequence<T>(r: seq<T>, s: seq<T>) {
    exists idx :: SubsequenceVia(r, s, idx)
  }

  lemma SubsequenceTransitive<T>(a: seq<T>, b: seq<T>, c: seq<T>)
    requires IsSubsequence(a, b) && IsSubsequence(b, c)
    ensures IsSubsequence(a, c)
  {
    var ab :| SubsequenceVia(a, b, ab);
    var bc :| SubsequenceVia(b, c, bc);
    var ac := seq(|ab|, k requires 0 <= k < |ab| => bc[ab[k]]);
    assert SubsequenceVia(a, c, ac);
  }

  // ---------------------------------------------------------------------------
  // Filtering and counting
  // ---------------------------------------------------------------------------

  /** `df[df.apply(p)]`: the elements satisfying `p`, in their original order. */
  function Filter<T>(s: seq<T>, p: T -> bool): (r: seq<T>)
    ensures |r| <= |s|
    ensures forall k :: 0 <= k < |r| ==> p(r[k]) && r[k] in s
  {
    if s == [] then []
    else Filter(s[..|s| - 1], p) + (if p(s[|s| - 1]) then [s[|s| - 1]] else [])
  }

  /** Positions of `s` whose element satisfies `p`, in increasing order. */
  ghost function FilterIndices<T>(s: seq<T>, p: T -> bool): seq<int> {
    if s == [] then []
    else FilterIndices(s[..|s| - 1], p) + (if p(s[|s| - 1]) then [|s| - 1] else [])
  }

  /** Filtering keeps the order of the kept elements: the result is a subsequence. */
  lemma {:induction false} FilterSubsequence<T>(s: seq<T>, p: T -> bool)
    ensures SubsequenceVia(Filter(s, p), s, FilterIndices(s, p))
    ensures IsSubsequence(Filter(s, p), s)
  {
    if s != [] {
      var init := s[..|s| - 1];
      FilterSubsequence(init, p);
    }
  }

  /** Every element satisfying `p` survives the filter. */
  lemma {:induction false} FilterKeeps<T>(s: seq<T>, p: T -> bool, x: T)
    requires x in s && p(x)
    ensures x in Filter(s, p)
  {
    var init := s[..|s| - 1];
    if x != s[|s| - 1] {
      assert x in init by {
        var i :| 0 <= i < |s| && s[i] == x;
        assert init[i] == x;
      }
      FilterKeeps(init, p, x);
    }
  }

  /** Number of elements satisfying `p`. */
  function CountWhere<T>(s: seq<T>, p: T -> bool): (n: nat)
    ensures n <= |s|
  {
    if s == [] then 0
    else CountWhere(s[..|s| - 1], p) + (if p(s[|s| - 1]) then 1 else 0)
  }

  lemma {:induction false} FilterLength<T>(s: seq<T>, p: T -> bool)
    ensures |Filter(s, p)| == CountWhere(s, p)
  {
    if s != [] {
      FilterLength(s[..|s| - 1], p);
    }
  }

  /** Filtering twice is filtering once by the conjunction. */
  lemma {:induction false} FilterFilter<T>(s: seq<T>, p: T -> bool, q: T -> bool, both: T -> bool)
    requires forall x :: both(x) == (p(x) && q(x))
    ensures Filter(Filter(s, p), q) == Filter(s, both)
  {
    if s != [] {
      var init, last := s[..|s| - 1], s[|s| - 1];
      FilterFilter(init, p, q, both);
      var f := Filter(init, p);
      assert both(last) == (p(last) && q(last));
      assert Filter(s, both) == Filter(init, both) + (if both(last) then [last] else []);
      if p(last) {
        var g := f + [last];
        assert Filter(s, p) == g;
        assert g[..|g| - 1] == f;
        assert Filter(g, q) == Filter(f, q) + (if q(last) then [last] else []);
      } else {
        assert Filter(s, p) == f + [];
        assert f + [] == f;
      }
    }
  }

  /** `df[mask]` for a mask computed row by row. */
  function Select<T>(s: seq<T>, mask: seq<bool>): (r: seq<T>)
    requires |mask| == |s|
    ensures |r| <= |s|
  {
    if s == [] then []
    else Select(s[..|s| - 1], mask[..|s| - 1]) + (if mask[|s| - 1] then [s[|s| - 1]] else [])
  }

  /** A mask that agrees with a predicate selects what the predicate filters. */
  lemma {:induction false} SelectIsFilter<T>(s: seq<T>, mask: seq<bool>, p: T -> bool)
    requires |mask| == |s|
    requires forall i :: 0 <= i < |s| ==> mask[i] == p(s[i])
    ensures Select(s, mask) == Filter(s, p)
  {
    if s != [] {
      SelectIsFilter(s[..|s| - 1], mask[..|s| - 1], p);
    }
  }

  // ---------------------------------------------------------------------------
  // Keys
  // ---------------------------------------------------------------------------

  predicate HasKey<T, K(==)>(s: seq<T>, key: T -> K, k: K) {
    exists j :: 0 <= j < |s| && key(s[j]) == k
  }

  predicate UniqueKeys<T, K(==)>(s: seq<T>, key: T -> K) {
    forall i, j :: 0 <= i < j < |s| ==> key(s[i]) != key(s[j])
  }

  ghost function KeySet<T, K>(s: seq<T>, key: T -> K): set<K> {
    set i | 0 <= i < |s| :: key(s[i])
  }

  lemma HasKeyAppend<T, K>(a: seq<T>, b: seq<T>, key: T -> K, k: K)
    ensures HasKey(a + b, key, k) <==> HasKey(a, key, k) || HasKey(b, key, k)
  {
    if HasKey(a + b, key, k) {
      var j :| 0 <= j < |a + b| && key((a + b)[j]) == k;
      if j >= |a| {
        assert b[j - |a|] == (a + b)[j];
      }
    }
    if HasKey(b, key, k) {
      var j :| 0 <= j < |b| && key(b[j]) == k;
      assert (a + b)[|a| + j] == b[j];
    }
    if HasKey(a, key, k) {
      var j :| 0 <= j < |a| && key(a[j]) == k;
      assert (a + b)[j] == a[j];
    }
  }

  lemma HasKeyInit<T, K>(s: seq<T>, key: T -> K, k: K)
    requires s != []
    ensures HasKey(s, key, k) <==> HasKey(s[..|s| - 1], key, k) || key(s[|s| - 1]) == k
  {
    assert s == s[..|s| - 1] + [s[|s| - 1]];
    HasKeyAppend(s[..|s| - 1], [s[|s| - 1]], key, k);
  }

  /** The first element with key `k`, if any. */
  function FindFirst<T, K(==)>(s: seq<T>, key: T -> K, k: K): (r: Option<T>)
    ensures r.Some? <==> HasKey(s, key, k)
    ensures r.Some? ==> key(r.value) == k && r.value in s
  {
    if s == [] then None
    else
      HasKeyInit(s, key, k);
      match FindFirst(s[..|s| - 1], key, k)
      case Some(x) => Some(x)
      case None => if key(s[|s| - 1]) == k then Some(s[|s| - 1]) else None
  }

  /** `FindFirst` returns the element at the first position carrying the key. */
  lemma {:induction false} FindFirstIsFirst<T, K>(s: seq<T>, key: T -> K, k: K)
    requires HasKey(s, key, k)
    ensures exists i :: 0 <= i < |s| && s[i] == FindFirst(s, key, k).value && key(s[i]) == k
              && !HasKey(s[..i], key, k)
  {
    var init := s[..|s| - 1];
    HasKeyInit(s, key, k);
    if HasKey(init, key, k) {
      FindFirstIsFirst(init, key, k);
      var i :| 0 <= i < |init| && init[i] == FindFirst(init, key, k).value && key(init[i]) == k
               && !HasKey(init[..i], key, k);
      assert init[..i] == s[..i];
    } else {
      assert s[..|s| - 1] == init;
    }
  }

  // ---------------------------------------------------------------------------
  // drop_duplicates(subset=key): the first row of each key, in order
  // ---------------------------------------------------------------------------

  function DedupBy<T, K(==)>(s: seq<T>, key: T -> K): (r: seq<T>)
    ensures |r| <= |s|
  {
    if s == [] then []
    else
      var init := s[..|s| - 1];
      DedupBy(init, key) + (if HasKey(init, key, key(s[|s| - 1])) then [] else [s[|s| - 1]])
  }

  /** Deduplication keeps every key and invents none. */
  lemma {:induction false} DedupKeys<T, K>(s: seq<T>, key: T -> K, k: K)
    ensures HasKey(DedupBy(s, key), key, k) <==> HasKey(s, key, k)
  {
    if s != [] {
      var init, last := s[..|s| - 1], s[|s| - 1];
      DedupKeys(init, key, k);
      HasKeyInit(s, key, k);
      var tail := if HasKey(init, key, key(last)) then [] else [last];
      HasKeyAppend(DedupBy(init, key), tail, key, k);
      if tail != [] {
        assert HasKey(tail, key, k) <==> key(last) == k by {
          if key(last) == k { assert key(tail[0]) == k; }
        }
      }
    }
  }

  /** After deduplication no key occurs twice. */
  lemma {:induction false} DedupUnique<T, K>(s: seq<T>, key: T -> K)
    ensures UniqueKeys(DedupBy(s, key), key)
  {
    if s != [] {
      var init, last := s[..|s| - 1], s[|s| - 1];
      DedupUnique(init, key);
      var d := DedupBy(init, key);
      if !HasKey(init, key, key(last)) {
        DedupKeys(init, key, key(last));
        var r := d + [last];
        forall i, j | 0 <= i < j < |r|
          ensures key(r[i]) != key(r[j])
        {
          if j == |d| {
            assert r[i] == d[i];
          } else {
            assert r[i] == d[i] && r[j] == d[j];
          }
        }
      }
    }
  }

  /** One row per distinct key: the length is the number of distinct keys. */
  lemma {:induction false} DedupCount<T, K>(s: seq<T>, key: T -> K)
    ensures |DedupBy(s, key)| == |KeySet(s, key)|
  {
    if s == [] {
      assert KeySet(s, key) == {};
    } else {
      var init, last := s[..|s| - 1], s[|s| - 1];
      DedupCount(init, key);
      assert KeySet(s, key) == KeySet(init, key) + {key(last)} by {
        forall x | x in KeySet(s, key)
          ensures x in KeySet(init, key) + {key(last)}
        {
          var i :| 0 <= i < |s| && key(s[i]) == x;
          if i < |s| - 1 {
            assert init[i] == s[i];
          }
        }
        forall x | x in KeySet(init, key)
          ensures x in KeySet(s, key)
        {
          var i :| 0 <= i < |init| && key(init[i]) == x;
          assert s[i] == init[i];
        }
      }
      if HasKey(init, key, key(last)) {
        var j :| 0 <= j < |init| && key(init[j]) == key(last);
        assert key(last) in KeySet(init, key);
      } else {
        assert key(last) !in KeySet(init, key);
      }
    }
  }

  /** Positions of the first occurrence of each key, in increasing order. */
  ghost function DedupIndices<T, K>(s: seq<T>, key: T -> K): seq<int> {
    if s == [] then []
    else
      var init := s[..|s| - 1];
      DedupIndices(init, key) + (if HasKey(init, key, key(s[|s| - 1])) then [] else [|s| - 1])
  }

  /** The kept rows are, in order, the first row of each key. */
  lemma {:induction false} DedupFirstOccurrences<T, K>(s: seq<T>, key: T -> K)
    ensures SubsequenceVia(DedupBy(s, key), s, DedupIndices(s, key))
    ensures forall k :: 0 <= k < |DedupIndices(s, key)| ==>
              0 <= DedupIndices(s, key)[k] < |s| &&
              !HasKey(s[..DedupIndices(s, key)[k]], key, key(s[DedupIndices(s, key)[k]]))
    ensures IsSubsequence(DedupBy(s, key), s)
  {
    if s != [] {
      var init := s[..|s| - 1];
      DedupFirstOccurrences(init, key);
      var idx := DedupIndices(s, key);
      forall k | 0 <= k < |idx|
        ensures 0 <= idx[k] < |s| && !HasKey(s[..idx[k]], key, key(s[idx[k]]))
      {
        if idx[k] < |s| - 1 {
          assert s[..idx[k]] == init[..idx[k]];
        } else {
          assert s[..idx[k]] == init;
        }
      }
    }
  }

  lemma FindFirstAppendOne<T, K>(a: seq<T>, x: T, key: T -> K, k: K)
    ensures FindFirst(a + [x], key, k) ==
      (if FindFirst(a, key, k).Some? then FindFirst(a, key, k)
       else if key(x) == k then Some(x) else None)
  {
    assert (a + [x])[..|a|] == a;
  }

  /** Looking a key up before or after deduplication finds the same row. */
  lemma {:induction false} DedupFindFirst<T, K>(s: seq<T>, key: T -> K, k: K)
    ensures FindFirst(DedupBy(s, key), key, k) == FindFirst(s, key, k)
  {
    if s != [] {
      var init, last := s[..|s| - 1], s[|s| - 1];
      DedupFindFirst(init, key, k);
      if !HasKey(init, key, key(last)) {
        FindFirstAppendOne(DedupBy(init, key), last, key, k);
      } else {
        assert DedupBy(s, key) == DedupBy(init, key);
        HasKeyInit(s, key, k);
        if key(last) == k {
          assert HasKey(init, key, k);
        }
      }
    }
  }

  // ---------------------------------------------------------------------------
  // merge(how="left")
  // ---------------------------------------------------------------------------

  /** The rows of `s` whose key is `k`, in order. */
  function Matches<T, K(==)>(s: seq<T>, key: T -> K, k: K): (r: seq<T>)
    ensures forall x :: x in r ==> key(x) == k
  {
    if s == [] then []
    else Matches(s[..|s| - 1], key, k) + (if key(s[|s| - 1]) == k then [s[|s| - 1]] else [])
  }

  /** One base row merged with its matches: once per match, or once unmatched. */
  function MergeRow<B, A, K(==)>(b: B, aux: seq<A>, bkey: B -> K, akey: A -> K,
                                 combine: (B, Option<A>) -> B): seq<B>
  {
    var ms := Matches(aux, akey, bkey(b));
    if ms == [] then [combine(b, None)]
    else seq(|ms|, i requires 0 <= i < |ms| => combine(b, Some(ms[i])))
  }

  /** `base.merge(aux, on=key, how="left")`, with `combine` filling the new columns. */
  function LeftMerge<B, A, K(==)>(base: seq<B>, aux: seq<A>, bkey: B -> K, akey: A -> K,
                                  combine: (B, Option<A>) -> B): seq<B>
  {
    if base == [] then []
    else LeftMerge(base[..|base| - 1], aux, bkey, akey, combine)
         + MergeRow(base[|base| - 1], aux, bkey, akey, combine)
  }

  lemma {:induction false} MatchesUnique<T, K>(s: seq<T>, key: T -> K, k: K)
    requires UniqueKeys(s, key)
    ensures Matches(s, key, k) == (match FindFirst(s, key, k) case None => [] case Some(x) => [x])
  {
    if s != [] {
      var init, last := s[..|s| - 1], s[|s| - 1];
      assert UniqueKeys(init, key) by {
        forall i, j | 0 <= i < j < |init| ensures key(init[i]) != key(init[j]) {
          assert init[i] == s[i] && init[j] == s[j];
        }
      }
      MatchesUnique(init, key, k);
    }
  }

  /**
   * A left merge on an auxiliary table whose keys are unique keeps the base
   * rows, in order, each combined with its single match (or with none).
   */
  lemma {:induction false} LeftMergeUnique<B, A, K>(base: seq<B>, aux: seq<A>, bkey: B -> K, akey: A -> K,
                                                    combine: (B, Option<A>) -> B)
    requires UniqueKeys(aux, akey)
    ensures |LeftMerge(base, aux, bkey, akey, combine)| == |base|
    ensures forall i :: 0 <= i < |base| ==>
              LeftMerge(base, aux, bkey, akey, combine)[i] == combine(base[i], FindFirst(aux, akey, bkey(base[i])))
  {
    if base != [] {
      var init, last := base[..|base| - 1], base[|base| - 1];
      LeftMergeUnique(init, aux, bkey, akey, combine);
      MatchesUnique(aux, akey, bkey(last));
      var front := LeftMerge(init, aux, bkey, akey, combine);
      var m := LeftMerge(base, aux, bkey, akey, combine);
      assert MergeRow(last, aux, bkey, akey, combine) == [combine(last, FindFirst(aux, akey, bkey(last)))];
      assert m == front + [combine(last, FindFirst(aux, akey, bkey(last)))];
      forall i | 0 <= i < |base|
        ensures m[i] == combine(base[i], FindFirst(aux, akey, bkey(base[i])))
      {
        if i < |base| - 1 {
          assert m[i] == front[i] && base[i] == init[i];
        }
      }
    }
  }

  /**
   * Deduplicating the auxiliary table first and then merging keeps the base
   * rows, in order, each combined with the FIRST auxiliary row of its key.
   */
  lemma DedupThenMerge<B, A, K>(base: seq<B>, aux: seq<A>, bkey: B -> K, akey: A -> K,
                                combine: (B, Option<A>) -> B)
    ensures |LeftMerge(base, DedupBy(aux, akey), bkey, akey, combine)| == |base|
    ensures forall i :: 0 <= i < |base| ==>
              LeftMerge(base, DedupBy(aux, akey), bkey, akey, combine)[i] == combine(base[i], FindFirst(aux, akey, bkey(base[i])))
  {
    var d := DedupBy(aux, akey);
    DedupUnique(aux, akey);
    LeftMergeUnique(base, d, bkey, akey, combine);
    forall i | 0 <= i < |base|
      ensures FindFirst(d, akey, bkey(base[i])) == FindFirst(aux, akey, bkey(base[i]))
    {
      DedupFindFirst(aux, akey, bkey(base[i]));
    }
  }

  // ---------------------------------------------------------------------------
  // dict(zip(keys, values)): the last occurrence of a key wins
  // ---------------------------------------------------------------------------

  function ZipMap<T, K(==), V>(s: seq<T>, key: T -> K, val: T -> V): map<K, V> {
    if s == [] then map[]
    else ZipMap(s[..|s| - 1], key, val)[key(s[|s| - 1]) := val(s[|s| - 1])]
  }

  /** The last element with key `k`, if any. */
  function FindLast<T, K(==)>(s: seq<T>, key: T -> K, k: K): (r: Option<T>)
    ensures r.Some? ==> key(r.value) == k && r.value in s
  {
    if s == [] then None
    else if key(s[|s| - 1]) == k then Some(s[|s| - 1])
    else FindLast(s[..|s| - 1], key, k)
  }

  /** The dictionary maps each key to the value of the key's last row. */
  lemma {:induction false} ZipMapLastWins<T, K, V>(s: seq<T>, key: T -> K, val: T -> V, k: K)
    ensures k in ZipMap(s, key, val) <==> FindLast(s, key, k).Some?
    ensures k in ZipMap(s, key, val) ==> ZipMap(s, key, val)[k] == val(FindLast(s, key, k).value)
  {
    if s != [] {
      ZipMapLastWins(s[..|s| - 1], key, val, k);
    }
  }

  lemma {:induction false} FindLastHasKey<T, K>(s: seq<T>, key: T -> K, k: K)
    ensures FindLast(s, key, k).Some? <==> HasKey(s, key, k)
  {
    if s != [] {
      FindLastHasKey(s[..|s| - 1], key, k);
      HasKeyInit(s, key, k);
    }
  }

  /** With unique keys the first and the last row of a key are the same row. */
  lemma {:induction false} FindLastUnique<T, K>(s: seq<T>, key: T -> K, k: K)
    requires UniqueKeys(s, key)
    ensures FindLast(s, key, k) == FindFirst(s, key, k)
  {
    if s != [] {
      var init, last := s[..|s| - 1], s[|s| - 1];
      assert UniqueKeys(init, key) by {
        forall i, j | 0 <= i < j < |init| ensures key(init[i]) != key(init[j]) {
          assert init[i] == s[i] && init[j] == s[j];
        }
      }
      FindLastUnique(init, key, k);
    }
  }

  // ---------------------------------------------------------------------------
  // value_counts(): how many times each non-null value occurs
  // ---------------------------------------------------------------------------

  function Occurrences<T(==)>(s: seq<T>, x: T): (n: nat)
    ensures n <= |s|
    ensures n > 0 <==> x in s
  {
    if s == [] then 0
    else Occurrences(s[..|s| - 1], x) + (if s[|s| - 1] == x then 1 else 0)
  }

  /** `series.value_counts().to_dict()`: nulls are not counted. */
  function ValueCounts<T(==,!new)>(s: seq<Option<T>>): (m: map<T, nat>)
    ensures forall k :: k in m <==> Some(k) in s
    ensures forall k :: k in m ==> m[k] == Occurrences(s, Some(k))
  {
    if s == [] then map[]
    else
      var m := ValueCounts(s[..|s| - 1]);
      match s[|s| - 1]
      case None => m
      case Some(k) => m[k := (if k in m then m[k] else 0) + 1]
  }
}
