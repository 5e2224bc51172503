/** Tag-list post-processing shared by the providers: case-insensitive
    de-duplication that keeps first occurrences, and the five-tag cap. */
module TagList {
  import opened Wrappers
  import opened Text

  /** Most tags a provider hands back. */
  const MAX_TAGS: nat := 5

  function Lowers(xs: seq<string>): (r: seq<string>)
    ensures |r| == |xs| && forall i :: 0 <= i < |xs| ==> r[i] == Lower(xs[i])
  {
    seq(|xs|, i requires 0 <= i < |xs| => Lower(xs[i]))
  }

  /** No two elements are equal ignoring case. */
  predicate DistinctIgnoreCase(xs: seq<string>) {
    forall i, j :: 0 <= i < j < |xs| ==> Lower(xs[i]) != Lower(xs[j])
  }

  /** `retain(|t| seen.insert(t.to_lowercase()))`: keeps an element when no
      earlier kept element (and nothing in `seen`) has the same lower-case
      form. */
  function DedupFrom(xs: seq<string>, seen: set<string>): (r: seq<string>)
    ensures |r| <= |xs|
    ensures forall i :: 0 <= i < |r| ==> r[i] in xs && Lower(r[i]) !in seen
    ensures DistinctIgnoreCase(r)
    ensures forall x :: x in xs ==> Lower(x) in seen || Lower(x) in Lowers(r)
  {
    if |xs| == 0 then []
    else if Lower(xs[0]) in seen then DedupFrom(xs[1..], seen)
    else
      var rest := DedupFrom(xs[1..], seen + {Lower(xs[0])});
      assert xs == [xs[0]] + xs[1..];
      DedupCons(xs[0], rest, seen, xs[1..]);
      [xs[0]] + rest
  }

  /** Keeping `x` in front of what the rest kept keeps the three
      properties of `DedupFrom`. */
  lemma {:induction false} DedupCons(x: string, rest: seq<string>, seen: set<string>, tail: seq<string>)
    requires Lower(x) !in seen && DistinctIgnoreCase(rest)
    requires forall i :: 0 <= i < |rest| ==> rest[i] in tail && Lower(rest[i]) !in seen + {Lower(x)}
    requires forall y :: y in tail ==> Lower(y) in seen + {Lower(x)} || Lower(y) in Lowers(rest)
    ensures var r := [x] + rest;
      && (forall i :: 0 <= i < |r| ==> r[i] in [x] + tail && Lower(r[i]) !in seen)
      && DistinctIgnoreCase(r)
      && forall y :: y in [x] + tail ==> Lower(y) in seen || Lower(y) in Lowers(r)
  {
    DedupConsKept(x, rest, seen, tail);
    DedupConsCovers(x, rest, seen, tail);
  }

  lemma {:induction false} DedupConsKept(x: string, rest: seq<string>, seen: set<string>, tail: seq<string>)
    requires Lower(x) !in seen && DistinctIgnoreCase(rest)
    requires forall i :: 0 <= i < |rest| ==> rest[i] in tail && Lower(rest[i]) !in seen + {Lower(x)}
    ensures var r := [x] + rest;
      && (forall i :: 0 <= i < |r| ==> r[i] in [x] + tail && Lower(r[i]) !in seen)
      && DistinctIgnoreCase(r)
  {
    var r := [x] + rest;
    assert forall k :: 1 <= k < |r| ==> r[k] == rest[k - 1];
  }

  lemma {:induction false} DedupConsCovers(x: string, rest: seq<string>, seen: set<string>, tail: seq<string>)
    requires forall y :: y in tail ==> Lower(y) in seen + {Lower(x)} || Lower(y) in Lowers(rest)
    ensures forall y :: y in [x] + tail ==> Lower(y) in seen || Lower(y) in Lowers([x] + rest)
  {
    var r := [x] + rest;
    assert Lowers(r) == [Lower(x)] + Lowers(rest);
    forall y | y in [x] + tail ensures Lower(y) in seen || Lower(y) in Lowers(r) {
      if y != x { assert y in tail; }
    }
  }

  function DedupIgnoreCase(xs: seq<string>): seq<string> {
    DedupFrom(xs, {})
  }

  /** A list without case-insensitive duplicates passes through unchanged. */
  lemma {:induction false} DedupKeepsDistinct(xs: seq<string>, seen: set<string>)
    requires DistinctIgnoreCase(xs)
    requires forall i :: 0 <= i < |xs| ==> Lower(xs[i]) !in seen
    ensures DedupFrom(xs, seen) == xs
  {
    if |xs| > 0 {
      DedupKeepsDistinct(xs[1..], seen + {Lower(xs[0])});
    }
  }

  /** The first tag always survives de-duplication. */
  lemma {:induction false} DedupKeepsFirst(x: string, xs: seq<string>)
    ensures DedupIgnoreCase([x] + xs)[0] == x
  {
  }

  /** At most `n` leading elements (`take(n)`, `truncate(n)`, `[:n]`). */
  function Take<T>(xs: seq<T>, n: nat): (r: seq<T>)
    ensures |r| == if |xs| <= n then |xs| else n
    ensures r == xs[..|r|]
  {
    if |xs| <= n then xs else xs[..n]
  }

  // ---------------------------------------------------------------------
  // First occurrences: an index-based reference for the de-duplication
  // ---------------------------------------------------------------------

  /** No earlier element has the same lower-case form as `xs[i]`. */
  predicate FirstOfItsKind(xs: seq<string>, i: nat)
    requires i < |xs|
  {
    forall j :: 0 <= j < i ==> Lower(xs[j]) != Lower(xs[i])
  }

  /** The elements that are the first of their lower-case form, in order. */
  function FirstOccurrences(xs: seq<string>): seq<string>
    decreases |xs|
  {
    if |xs| == 0 then []
    else FirstOccurrences(xs[..|xs| - 1]) + (if FirstOfItsKind(xs, |xs| - 1) then [xs[|xs| - 1]] else [])
  }

  /** The lower-case forms of the elements. */
  function LowerSet(xs: seq<string>): set<string> {
    set i | 0 <= i < |xs| :: Lower(xs[i])
  }

  lemma {:induction false} LowerSetCons(x: string, xs: seq<string>)
    ensures LowerSet([x] + xs) == {Lower(x)} + LowerSet(xs)
  {
    var ys := [x] + xs;
    forall l | l in LowerSet(ys) ensures l in {Lower(x)} + LowerSet(xs) {
      var i :| 0 <= i < |ys| && l == Lower(ys[i]);
      if i > 0 { assert ys[i] == xs[i - 1]; }
    }
    forall l | l in LowerSet(xs) ensures l in LowerSet(ys) {
      var i :| 0 <= i < |xs| && l == Lower(xs[i]);
      assert ys[i + 1] == xs[i];
    }
    assert Lower(ys[0]) in LowerSet(ys);
  }

  /** One step of the `retain` loop: the head is kept unless its form was
      already seen, and the rest is filtered against the grown set. */
  lemma {:induction false} DedupStep(xs: seq<string>, seen: set<string>)
    requires |xs| > 0
    ensures DedupFrom(xs, seen) == (if Lower(xs[0]) in seen then [] else [xs[0]]) + DedupFrom(xs[1..], if Lower(xs[0]) in seen then seen else seen + {Lower(xs[0])})
  {
    if Lower(xs[0]) in seen {
      assert [] + DedupFrom(xs[1..], seen) == DedupFrom(xs[1..], seen);
    }
  }

  /** The forms seen after the head of `p`, and after the rest of it. */
  lemma {:induction false} SeenAfterHead(p: seq<string>, seen: set<string>)
    requires |p| > 0
    ensures (if Lower(p[0]) in seen then seen else seen + {Lower(p[0])}) + LowerSet(p[1..]) == seen + LowerSet(p)
  {
    assert p == [p[0]] + p[1..];
    LowerSetCons(p[0], p[1..]);
  }

  /** De-duplicating `p + q` de-duplicates `p`, then `q` against every
      form `p` holds. */
  lemma {:induction false} DedupAppend(p: seq<string>, q: seq<string>, seen: set<string>)
    ensures DedupFrom(p + q, seen) == DedupFrom(p, seen) + DedupFrom(q, seen + LowerSet(p))
    decreases |p|
  {
    if |p| == 0 {
      assert p + q == q;
      assert LowerSet(p) == {};
      assert seen + LowerSet(p) == seen;
    } else {
      var a := p[0];
      var p' := p[1..];
      var pq := p + q;
      assert pq[0] == a && pq[1..] == p' + q;
      DedupStep(pq, seen);
      DedupStep(p, seen);
      SeenAfterHead(p, seen);
      var h := if Lower(a) in seen then [] else [a];
      var seen' := if Lower(a) in seen then seen else seen + {Lower(a)};
      DedupAppend(p', q, seen');
      var x, y := DedupFrom(p', seen'), DedupFrom(q, seen + LowerSet(p));
      AppendAssoc(h, x, y);
    }
  }

  /** The last element is the first of its kind exactly when its form is
      not among the forms before it. */
  lemma {:induction false} LastFirstOfItsKind(p: seq<string>, x: string)
    ensures FirstOfItsKind(p + [x], |p|) <==> Lower(x) !in LowerSet(p)
  {
    var xs := p + [x];
    assert forall j :: 0 <= j < |p| ==> xs[j] == p[j];
    if !FirstOfItsKind(xs, |p|) {
      var j :| 0 <= j < |p| && Lower(xs[j]) == Lower(x);
      assert Lower(p[j]) in LowerSet(p);
    }
  }

  lemma {:induction false} DedupSingle(x: string, seen: set<string>)
    ensures DedupFrom([x], seen) == if Lower(x) in seen then [] else [x]
  {
    assert [x][1..] == [];
  }

  /** `retain` with `seen.insert` keeps exactly the first occurrence of
      each lower-case form, in input order. */
  lemma {:induction false} DedupIsFirstOccurrences(xs: seq<string>)
    ensures DedupIgnoreCase(xs) == FirstOccurrences(xs)
    decreases |xs|
  {
    if |xs| > 0 {
      var p := xs[..|xs| - 1];
      var x := xs[|xs| - 1];
      assert xs == p + [x];
      DedupAppend(p, [x], {});
      DedupIsFirstOccurrences(p);
      assert {} + LowerSet(p) == LowerSet(p);
      DedupSingle(x, LowerSet(p));
      LastFirstOfItsKind(p, x);
    }
  }

  /** The tags of several chunks merged: case-insensitive duplicates
      dropped (first occurrence kept), at most five, and an error only when
      no chunk produced a tag. */
  function MergeTags(all: seq<string>): (r: Result<seq<string>>)
    ensures r.Err? <==> |all| == 0
    ensures r.Err? ==> r.error == "No tags generated from any content chunk"
    ensures r.Ok? ==> 1 <= |r.value| <= MAX_TAGS && DistinctIgnoreCase(r.value) && r.value[0] == all[0]
    ensures r.Ok? ==> forall i :: 0 <= i < |r.value| ==> r.value[i] in all
    ensures r.Ok? ==> r.value == Take(FirstOccurrences(all), MAX_TAGS)
  {
    var merged := Take(DedupIgnoreCase(all), MAX_TAGS);
    DedupIsFirstOccurrences(all);
    if |all| == 0 then Err("No tags generated from any content chunk")
    else
      DedupKeepsFirst(all[0], all[1..]);
      assert [all[0]] + all[1..] == all;
      Ok(merged)
  }
}
