/** `ORDER BY <text column> DESC`: an insertion sort on a text
    key, compared character by character as SQLite compares text. */
module Ordering {
  import opened Text

  /** Every element's key is at least the key of every later element. */
  predicate Descending<T>(s: seq<T>, key: T -> string) {
    forall i, j :: 0 <= i < j < |s| ==> LexLeq(key(s[j]), key(s[i]))
  }

  /** Puts `x` after every element whose key is no smaller. */
  function InsertDesc<T>(sorted: seq<T>, x: T, key: T -> string): (r: seq<T>)
    ensures multiset(r) == multiset(sorted) + multiset{x}
  {
    if |sorted| == 0 then [x]
    else if LexLeq(key(x), key(sorted[0])) then
      assert sorted == [sorted[0]] + sorted[1..];
      [sorted[0]] + InsertDesc(sorted[1..], x, key)
    else [x] + sorted
  }

  lemma {:induction false} InsertDescending<T>(sorted: seq<T>, x: T, key: T -> string)
    requires Descending(sorted, key)
    ensures Descending(InsertDesc(sorted, x, key), key)
  {
    if |sorted| > 0 {
      if LexLeq(key(x), key(sorted[0])) {
        var tail := InsertDesc(sorted[1..], x, key);
        InsertDescending(sorted[1..], x, key);
        forall j | 0 <= j < |tail| ensures LexLeq(key(tail[j]), key(sorted[0])) {
          assert tail[j] in multiset(tail);
          assert tail[j] == x || tail[j] in multiset(sorted[1..]);
        }
      } else {
        LexTotal(key(x), key(sorted[0]));
        forall j | 0 <= j < |sorted| ensures LexLeq(key(sorted[j]), key(x)) {
          if j > 0 { LexTrans(key(sorted[j]), key(sorted[0]), key(x)); }
        }
      }
    }
  }

  /** The elements of `s`, largest key first. */
  function SortDesc<T>(s: seq<T>, key: T -> string): (r: seq<T>)
    ensures multiset(r) == multiset(s)
    ensures Descending(r, key)
  {
    if |s| == 0 then []
    else
      assert s == s[..|s| - 1] + [s[|s| - 1]];
      InsertDescending(SortDesc(s[..|s| - 1], key), s[|s| - 1], key);
      InsertDesc(SortDesc(s[..|s| - 1], key), s[|s| - 1], key)
  }

  /** Sorting keeps the length and draws every element from the input. */
  lemma {:induction false} SortedFrom<T>(s: seq<T>, key: T -> string)
    ensures |SortDesc(s, key)| == |s|
    ensures forall k :: 0 <= k < |s| ==> SortDesc(s, key)[k] in s
    ensures forall x :: x in s ==> x in SortDesc(s, key)
  {
    var r := SortDesc(s, key);
    assert |r| == |multiset(r)| == |multiset(s)| == |s|;
    forall k | 0 <= k < |s| ensures r[k] in s {
      assert r[k] in multiset(r);
    }
    forall x | x in s ensures x in r {
      assert x in multiset(s);
    }
  }

  // ---------------------------------------------------------------------
  // Ascending order (Rust `sort_by(|a, b| key(a).cmp(key(b)))`)
  // ---------------------------------------------------------------------

  predicate Ascending<T>(s: seq<T>, key: T -> string) {
    forall i, j :: 0 <= i < j < |s| ==> LexLeq(key(s[i]), key(s[j]))
  }

  /** Puts `x` after every element whose key is no larger, so that equal
      keys keep their order (a stable sort). */
  function InsertAsc<T>(sorted: seq<T>, x: T, key: T -> string): (r: seq<T>)
    ensures multiset(r) == multiset(sorted) + multiset{x}
  {
    if |sorted| == 0 then [x]
    else if LexLeq(key(sorted[0]), key(x)) then
      assert sorted == [sorted[0]] + sorted[1..];
      [sorted[0]] + InsertAsc(sorted[1..], x, key)
    else [x] + sorted
  }

  lemma {:induction false} InsertAscending<T>(sorted: seq<T>, x: T, key: T -> string)
    requires Ascending(sorted, key)
    ensures Ascending(InsertAsc(sorted, x, key), key)
  {
    if |sorted| > 0 {
      if LexLeq(key(sorted[0]), key(x)) {
        var tail := InsertAsc(sorted[1..], x, key);
        InsertAscending(sorted[1..], x, key);
        forall j | 0 <= j < |tail| ensures LexLeq(key(sorted[0]), key(tail[j])) {
          assert tail[j] in multiset(tail);
          assert tail[j] == x || tail[j] in multiset(sorted[1..]);
        }
      } else {
        LexTotal(key(x), key(sorted[0]));
        forall j | 0 <= j < |sorted| ensures LexLeq(key(x), key(sorted[j])) {
          if j > 0 { LexTrans(key(x), key(sorted[0]), key(sorted[j])); }
        }
      }
    }
  }

  /** The elements of `s` in ascending key order, equal keys in their
      original order. */
  function SortAsc<T>(s: seq<T>, key: T -> string): (r: seq<T>)
    ensures multiset(r) == multiset(s)
    ensures Ascending(r, key)
  {
    if |s| == 0 then []
    else
      assert s == s[..|s| - 1] + [s[|s| - 1]];
      InsertAscending(SortAsc(s[..|s| - 1], key), s[|s| - 1], key);
      InsertAsc(SortAsc(s[..|s| - 1], key), s[|s| - 1], key)
  }

  /** Rust `dedup_by` on equal keys: of every run of adjacent elements with
      the same key only the first is kept. */
  function DedupAdjacent<T>(s: seq<T>, key: T -> string): (r: seq<T>)
    ensures |r| <= |s|
    ensures |s| > 0 ==> |r| > 0 && key(r[|r| - 1]) == key(s[|s| - 1])
    ensures forall i :: 0 <= i < |r| ==> r[i] in s
  {
    if |s| <= 1 then s
    else
      var n := |s| - 1;
      var r := DedupAdjacent(s[..n], key);
      assert forall i :: 0 <= i < |r| ==> r[i] in s by {
        forall i | 0 <= i < |r| ensures r[i] in s {
          assert r[i] in s[..n];
        }
      }
      if key(s[n]) == key(s[n - 1]) then r else r + [s[n]]
  }

  /** Every key of the input survives deduplication. */
  lemma {:induction false} DedupKeepsKeys<T>(s: seq<T>, key: T -> string, x: T)
    requires x in s
    ensures exists y :: y in DedupAdjacent(s, key) && key(y) == key(x)
    decreases |s|
  {
    var n := |s| - 1;
    var r := DedupAdjacent(s, key);
    if |s| > 1 {
      if x == s[n] {
        assert r[|r| - 1] in r;
      } else {
        assert x in s[..n];
        DedupKeepsKeys(s[..n], key, x);
        var y :| y in DedupAdjacent(s[..n], key) && key(y) == key(x);
        assert y in r;
      }
    } else {
      assert r == s;
    }
  }

  /** Strictly ascending: every key is smaller than every later one, so no
      key occurs twice. */
  predicate StrictlyAscending<T>(s: seq<T>, key: T -> string) {
    forall i, j :: 0 <= i < j < |s| ==> LexLeq(key(s[i]), key(s[j])) && key(s[i]) != key(s[j])
  }

  /** Deduplicating a sorted sequence leaves every key exactly once. */
  lemma {:induction false} DedupSortedUnique<T>(s: seq<T>, key: T -> string)
    requires Ascending(s, key)
    ensures StrictlyAscending(DedupAdjacent(s, key), key)
    decreases |s|
  {
    if |s| > 1 {
      var n := |s| - 1;
      var r := DedupAdjacent(s[..n], key);
      assert Ascending(s[..n], key);
      DedupSortedUnique(s[..n], key);
      if key(s[n]) != key(s[n - 1]) {
        var last := r[|r| - 1];
        assert key(last) == key(s[n - 1]);
        forall i | 0 <= i < |r| ensures LexLeq(key(r[i]), key(s[n])) && key(r[i]) != key(s[n]) {
          if i < |r| - 1 {
            assert LexLeq(key(r[i]), key(last));
          } else {
            LexRefl(key(last));
          }
          LexTrans(key(r[i]), key(last), key(s[n]));
          if key(r[i]) == key(s[n]) {
            LexAntisymmetric(key(last), key(s[n]));
          }
        }
      }
    }
  }

  // ---------------------------------------------------------------------
  // Descending scores (`sort_by(|a, b| b.score.partial_cmp(&a.score))`)
  // ---------------------------------------------------------------------

  predicate ScoresDescending<T>(s: seq<T>, score: T -> real) {
    forall i, j :: 0 <= i < j < |s| ==> score(s[j]) <= score(s[i])
  }

  /** Puts `x` after every element whose score is no smaller. */
  function InsertByScore<T>(sorted: seq<T>, x: T, score: T -> real): (r: seq<T>)
    requires ScoresDescending(sorted, score)
    ensures multiset(r) == multiset(sorted) + multiset{x}
    ensures ScoresDescending(r, score)
    decreases |sorted|
  {
    if |sorted| == 0 then [x]
    else if score(sorted[|sorted| - 1]) >= score(x) then sorted + [x]
    else
      var n := |sorted| - 1;
      assert sorted == sorted[..n] + [sorted[n]];
      var head := InsertByScore(sorted[..n], x, score);
      forall i | 0 <= i < |head| ensures score(head[i]) >= score(sorted[n]) {
        assert head[i] in multiset(head);
        if head[i] != x {
          assert head[i] in multiset(sorted[..n]);
          var k :| 0 <= k < n && sorted[..n][k] == head[i];
          assert sorted[k] == head[i];
        }
      }
      head + [sorted[n]]
  }

  /** The elements of `s`, highest score first. */
  function SortByScore<T>(s: seq<T>, score: T -> real): (r: seq<T>)
    ensures multiset(r) == multiset(s)
    ensures ScoresDescending(r, score)
  {
    if |s| == 0 then []
    else
      assert s == s[..|s| - 1] + [s[|s| - 1]];
      InsertByScore(SortByScore(s[..|s| - 1], score), s[|s| - 1], score)
  }

  // ---------------------------------------------------------------------
  // Distinct keys under permutation
  // ---------------------------------------------------------------------

  /** No key occurs twice. */
  predicate DistinctKeys<T>(s: seq<T>, key: T -> string) {
    forall i, j :: 0 <= i < j < |s| ==> key(s[i]) != key(s[j])
  }

  /** With distinct keys, every element occurs once. */
  lemma {:induction false} DistinctOccursOnce<T>(s: seq<T>, key: T -> string, p: nat)
    requires DistinctKeys(s, key) && p < |s|
    ensures multiset(s)[s[p]] == 1
    decreases |s|
  {
    var n := |s| - 1;
    assert s == s[..n] + [s[n]];
    if p == n {
      assert s[n] !in s[..n];
    } else {
      assert DistinctKeys(s[..n], key);
      assert s[..n][p] == s[p];
      DistinctOccursOnce(s[..n], key, p);
      assert key(s[p]) != key(s[n]);
    }
  }

  /** An element at two positions occurs at least twice. */
  lemma {:induction false} TwiceOccurs<T>(s: seq<T>, i: nat, j: nat)
    requires i < j < |s| && s[i] == s[j]
    ensures multiset(s)[s[i]] >= 2
  {
    assert s == s[..j] + [s[j]] + s[j + 1..];
    assert s[..j][i] == s[i];
    assert s[i] in multiset(s[..j]);
  }

  /** A permutation of a sequence with distinct keys has distinct keys. */
  lemma {:induction false} PermutationDistinctKeys<T>(a: seq<T>, b: seq<T>, key: T -> string)
    requires multiset(a) == multiset(b) && DistinctKeys(a, key)
    ensures DistinctKeys(b, key)
  {
    forall i, j | 0 <= i < j < |b| ensures key(b[i]) != key(b[j]) {
      assert b[i] in multiset(a) && b[j] in multiset(a);
      var p :| 0 <= p < |a| && a[p] == b[i];
      var q :| 0 <= q < |a| && a[q] == b[j];
      if key(b[i]) == key(b[j]) {
        assert p == q;
        TwiceOccurs(b, i, j);
        DistinctOccursOnce(a, key, p);
        assert false;
      }
    }
  }
}
