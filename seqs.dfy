/** The JavaScript array methods the board relies on (`filter`, `map`, `find`,
    `findIndex`, `splice`, `[...new Set(...)]`), stated over Dafny sequences,
    together with the facts about them that the board's rules rest on. */
module Seqs {
  import opened Optional

  // ---------------------------------------------------------------------------
  // filter
  // ---------------------------------------------------------------------------

  /** `s.filter(p)`: the elements satisfying `p`, in their original order. */
  function Filter<T(==)>(s: seq<T>, p: T -> bool): (r: seq<T>)
    ensures |r| <= |s|
    ensures forall k :: 0 <= k < |r| ==> r[k] in s && p(r[k])
    ensures forall k :: 0 <= k < |s| && p(s[k]) ==> s[k] in r
  {
    if s == [] then [] else (if p(s[0]) then [s[0]] else []) + Filter(s[1..], p)
  }

  /** `filter` keeps every copy of an element satisfying `p` and no copy of
      any other: the result holds, as a multiset, exactly the elements of `s`
      satisfying `p`. */
  lemma {:induction false} FilterKeepsEveryCopy<T>(s: seq<T>, p: T -> bool)
    ensures forall x :: multiset(Filter(s, p))[x] == if p(x) then multiset(s)[x] else 0
    decreases |s|
  {
    if s != [] {
      FilterKeepsEveryCopy(s[1..], p);
      assert s == [s[0]] + s[1..];
      assert multiset(s) == multiset{s[0]} + multiset(s[1..]);
      var own := if p(s[0]) then [s[0]] else [];
      assert Filter(s, p) == own + Filter(s[1..], p);
      assert multiset(Filter(s, p)) == multiset(own) + multiset(Filter(s[1..], p));
    }
  }

  /** `r` is obtained from `s` by deleting elements (order is kept). */
  predicate IsSubseq<T(==)>(r: seq<T>, s: seq<T>)
    decreases |s|
  {
    if s == [] then r == []
    else IsSubseq(r, s[1..]) || (r != [] && r[0] == s[0] && IsSubseq(r[1..], s[1..]))
  }

  lemma {:induction false} FilterIsSubseq<T>(s: seq<T>, p: T -> bool)
    ensures IsSubseq(Filter(s, p), s)
    decreases |s|
  {
    if s != [] {
      FilterIsSubseq(s[1..], p);
      var r := Filter(s, p);
      if p(s[0]) {
        assert r[0] == s[0] && r[1..] == Filter(s[1..], p);
      } else {
        assert r == Filter(s[1..], p);
      }
    }
  }

  lemma {:induction false} IsSubseqTransitive<T>(a: seq<T>, b: seq<T>, c: seq<T>)
    requires IsSubseq(a, b) && IsSubseq(b, c)
    ensures IsSubseq(a, c)
    decreases |c|
  {
    if c != [] {
      if IsSubseq(b, c[1..]) {
        IsSubseqTransitive(a, b, c[1..]);
      } else if IsSubseq(a, b[1..]) {
        IsSubseqTransitive(a, b[1..], c[1..]);
      } else {
        IsSubseqTransitive(a[1..], b[1..], c[1..]);
      }
    }
  }

  lemma {:induction false} FilterIdempotent<T>(s: seq<T>, p: T -> bool)
    ensures Filter(Filter(s, p), p) == Filter(s, p)
    decreases |s|
  {
    if s != [] {
      var rest := Filter(s[1..], p);
      FilterIdempotent(s[1..], p);
      if p(s[0]) {
        assert Filter(s, p) == [s[0]] + rest;
        assert ([s[0]] + rest)[1..] == rest;
      } else {
        assert Filter(s, p) == rest;
      }
    }
  }

  lemma {:induction false} FilterKeepsAll<T>(s: seq<T>, p: T -> bool)
    requires forall k :: 0 <= k < |s| ==> p(s[k])
    ensures Filter(s, p) == s
    decreases |s|
  {
    if s != [] {
      FilterKeepsAll(s[1..], p);
    }
  }

  /** Two predicates that never hold together select at most `|s|` elements
      between them. */
  lemma {:induction false} FilterDisjointCount<T>(s: seq<T>, p: T -> bool, q: T -> bool)
    requires forall k :: 0 <= k < |s| ==> !(p(s[k]) && q(s[k]))
    ensures |Filter(s, p)| + |Filter(s, q)| <= |s|
    decreases |s|
  {
    if s != [] {
      FilterDisjointCount(s[1..], p, q);
    }
  }

  lemma {:induction false} FilterSnoc<T>(s: seq<T>, x: T, p: T -> bool)
    ensures Filter(s + [x], p) == Filter(s, p) + (if p(x) then [x] else [])
    decreases |s|
  {
    if s == [] {
      assert s + [x] == [x];
    } else {
      assert (s + [x])[1..] == s[1..] + [x];
      FilterSnoc(s[1..], x, p);
    }
  }

  // ---------------------------------------------------------------------------
  // map with a conditional update
  // ---------------------------------------------------------------------------

  /** `s.map(x => p(x) ? f(x) : x)`: every element satisfying `p` is replaced
      by its image under `f`; the others stay, in place. */
  function MapWhere<T>(s: seq<T>, p: T -> bool, f: T -> T): (r: seq<T>)
    ensures |r| == |s|
    ensures forall k :: 0 <= k < |s| ==> r[k] == if p(s[k]) then f(s[k]) else s[k]
  {
    if s == [] then [] else [if p(s[0]) then f(s[0]) else s[0]] + MapWhere(s[1..], p, f)
  }

  /** An update that keeps `p` and undoes itself, applied twice, changes nothing. */
  lemma MapWhereTwice<T>(s: seq<T>, p: T -> bool, f: T -> T)
    requires forall k :: 0 <= k < |s| && p(s[k]) ==> p(f(s[k])) && f(f(s[k])) == s[k]
    ensures MapWhere(MapWhere(s, p, f), p, f) == s
  {
    var once := MapWhere(s, p, f);
    var twice := MapWhere(once, p, f);
    forall k | 0 <= k < |s| ensures twice[k] == s[k] {
      if p(s[k]) {
        assert once[k] == f(s[k]);
      }
    }
  }

  // ---------------------------------------------------------------------------
  // findIndex and find
  // ---------------------------------------------------------------------------

  /** `s.findIndex(p)`: the first position satisfying `p`, or -1. */
  function FindIndex<T>(s: seq<T>, p: T -> bool): (i: int)
    ensures -1 <= i < |s|
    ensures i == -1 <==> forall k :: 0 <= k < |s| ==> !p(s[k])
    ensures 0 <= i ==> p(s[i]) && forall k :: 0 <= k < i ==> !p(s[k])
  {
    if s == [] then -1
    else if p(s[0]) then 0
    else
      var j := FindIndex(s[1..], p);
      if j == -1 then -1 else j + 1
  }

  /** `s.find(p)`: the first element satisfying `p`, if any. */
  function Find<T>(s: seq<T>, p: T -> bool): (r: Option<T>)
    ensures r.None? <==> forall k :: 0 <= k < |s| ==> !p(s[k])
    ensures r.Some? ==> p(r.value) && r.value == s[FindIndex(s, p)]
  {
    var i := FindIndex(s, p);
    if i == -1 then None else Some(s[i])
  }

  // ---------------------------------------------------------------------------
  // filter by position
  // ---------------------------------------------------------------------------

  /** `s.filter((_, k) => k !== i)`: drops the element at position `i`, if
      there is one. */
  function WithoutIndex<T>(s: seq<T>, i: int): (r: seq<T>)
    ensures 0 <= i < |s| ==> r == s[..i] + s[i + 1..]
    ensures !(0 <= i < |s|) ==> r == s
    decreases |s|
  {
    if s == [] then [] else (if i == 0 then [] else [s[0]]) + WithoutIndex(s[1..], i - 1)
  }

  // ---------------------------------------------------------------------------
  // splice
  // ---------------------------------------------------------------------------

  /** The position `Array.prototype.splice(start, ...)` works at on an array of
      length `len`: a negative `start` counts from the end, and the result is
      clamped to `[0, len]`. */
  function SpliceStart(len: nat, start: int): (k: nat)
    ensures k <= len
    ensures 0 <= start <= len ==> k == start
    ensures start > len ==> k == len
    ensures start < 0 && len + start >= 0 ==> k == len + start
    ensures len + start < 0 ==> k == 0
  {
    if start < 0 then (if len + start < 0 then 0 else len + start)
    else if start > len then len
    else start
  }

  /** `const [x] = s.splice(from, 1); s.splice(to, 0, x)` on a copy of `s`:
      the element at `from` is taken out and reinserted at `to`. */
  function MoveElement<T>(s: seq<T>, from: nat, to: nat): (r: seq<T>)
    requires from < |s| && to < |s|
    ensures |r| == |s|
    ensures multiset(r) == multiset(s)
  {
    var rest := s[..from] + s[from + 1..];
    assert s == s[..from] + [s[from]] + s[from + 1..];
    assert rest == rest[..to] + rest[to..];
    assert multiset(rest) + multiset{s[from]} == multiset(s);
    assert multiset(rest[..to] + [s[from]] + rest[to..])
        == multiset(rest[..to]) + multiset{s[from]} + multiset(rest[to..]);
    rest[..to] + [s[from]] + rest[to..]
  }

  /** Moving an element by one place swaps it with that neighbour and leaves
      everything else where it was. */
  lemma MoveElementToNeighbour<T>(s: seq<T>, from: nat, to: nat)
    requires from < |s| && to < |s| && (to == from + 1 || to + 1 == from)
    ensures var r := MoveElement(s, from, to);
            && r[to] == s[from] && r[from] == s[to]
            && forall k :: 0 <= k < |s| && k != from && k != to ==> r[k] == s[k]
  {
    var rest := s[..from] + s[from + 1..];
    var r := MoveElement(s, from, to);
    assert r == rest[..to] + [s[from]] + rest[to..];
    forall k | 0 <= k < |s| && k != to
      ensures r[k] == if k < to then rest[k] else rest[k - 1]
    {
    }
  }

  /** Moving the last element to position 0 rotates it to the front. */
  lemma MoveLastToFront<T>(s: seq<T>)
    requires s != []
    ensures MoveElement(s, |s| - 1, 0) == [s[|s| - 1]] + s[..|s| - 1]
  {
    assert s[|s| - 1 + 1..] == [];
  }

  // ---------------------------------------------------------------------------
  // [...new Set(s)]
  // ---------------------------------------------------------------------------

  predicate NoDups<T(==)>(s: seq<T>) {
    forall i, j :: 0 <= i < j < |s| ==> s[i] != s[j]
  }

  lemma {:induction false} NoDupsCount<T>(s: seq<T>, x: T)
    requires NoDups(s)
    ensures multiset(s)[x] <= 1
    decreases |s|
  {
    if s != [] {
      assert s == [s[0]] + s[1..];
      assert NoDups(s[1..]) by {
        forall i, j | 0 <= i < j < |s[1..]| ensures s[1..][i] != s[1..][j] {
          assert s[1..][i] == s[i + 1] && s[1..][j] == s[j + 1];
        }
      }
      NoDupsCount(s[1..], x);
      if s[0] == x {
        assert x !in s[1..];
      }
    }
  }

  /** Rearranging a list without duplicates gives a list without
      duplicates. */
  lemma PermutationKeepsNoDups<T>(s: seq<T>, r: seq<T>)
    requires NoDups(s) && multiset(r) == multiset(s)
    ensures NoDups(r)
  {
    forall i, j | 0 <= i < j < |r| ensures r[i] != r[j] {
      if r[i] == r[j] {
        var x := r[i];
        assert r == r[..i] + [x] + r[i + 1..j] + [x] + r[j + 1..];
        assert multiset(r) == multiset(r[..i]) + multiset{x} + multiset(r[i + 1..j]) + multiset{x} + multiset(r[j + 1..]);
        assert multiset(r)[x] >= 2;
        NoDupsCount(s, x);
      }
    }
  }

  /** The position of the first occurrence of `x` in `s`. */
  function FirstIndex<T(==)>(s: seq<T>, x: T): (i: nat)
    requires x in s
    ensures i < |s| && s[i] == x && x !in s[..i]
  {
    if s[0] == x then 0 else 1 + FirstIndex(s[1..], x)
  }

  /** `[...new Set(s)]`: the distinct elements of `s`, each kept at its first
      occurrence (a JavaScript `Set` iterates in insertion order). */
  function Dedup<T(==)>(s: seq<T>): (r: seq<T>)
    ensures NoDups(r)
    ensures forall k :: 0 <= k < |r| ==> r[k] in s
    ensures forall k :: 0 <= k < |s| ==> s[k] in r
    decreases |s|
  {
    if s == [] then []
    else
      var d := Dedup(s[..|s| - 1]);
      var x := s[|s| - 1];
      assert s == s[..|s| - 1] + [x];
      if x in d then d else d + [x]
  }

  lemma {:induction false} FirstIndexSnoc<T>(s: seq<T>, x: T, y: T)
    requires y in s
    ensures FirstIndex(s + [x], y) == FirstIndex(s, y)
    decreases |s|
  {
    if s[0] != y {
      assert (s + [x])[1..] == s[1..] + [x];
      FirstIndexSnoc(s[1..], x, y);
    }
  }

  /** The distinct elements come out in the order of their first occurrences. */
  lemma {:induction false} DedupFirstOccurrenceOrder<T>(s: seq<T>)
    ensures forall i, j :: 0 <= i < j < |Dedup(s)| ==>
              FirstIndex(s, Dedup(s)[i]) < FirstIndex(s, Dedup(s)[j])
    decreases |s|
  {
    if s != [] {
      var init := s[..|s| - 1];
      var x := s[|s| - 1];
      assert s == init + [x];
      DedupFirstOccurrenceOrder(init);
      var d := Dedup(init);
      var r := Dedup(s);
      forall i | 0 <= i < |d| ensures FirstIndex(s, d[i]) == FirstIndex(init, d[i]) {
        FirstIndexSnoc(init, x, d[i]);
      }
      if x !in d {
        assert r == d + [x];
        var fx := FirstIndex(s, x);
        assert x !in init;
        assert forall k :: 0 <= k < |init| ==> s[k] != x;
        assert fx == |init|;
      }
    }
  }
}
