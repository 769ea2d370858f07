/** Datatypes and sequence facts shared by every part of the model. */
module Prelude {

  datatype Option<+T> = None | Some(value: T)

  datatype Result<+T, +E> = Ok(value: T) | Err(error: E)

  function Min(a: int, b: int): int {
    if a < b then a else b
  }

  function Max(a: int, b: int): int {
    if a < b then b else a
  }

  function Sum(s: seq<int>): int {
    if s == [] then 0 else s[0] + Sum(s[1..])
  }

  lemma {:induction false} SumSnoc(s: seq<int>, x: int)
    ensures Sum(s + [x]) == Sum(s) + x
  {
    if s == [] {
      assert s + [x] == [x];
    } else {
      assert (s + [x])[1..] == s[1..] + [x];
      SumSnoc(s[1..], x);
    }
  }

  /** The consecutive numbers lo, lo+1, ..., lo+n-1. */
  function Iota(lo: nat, n: nat): (s: seq<nat>)
    ensures |s| == n && forall i :: 0 <= i < n ==> s[i] == lo + i
  {
    seq(n, i requires 0 <= i => lo + i)
  }

  /** The set of the numbers from lo up to, not including, hi. */
  function Span(lo: nat, hi: nat): (s: set<nat>)
    ensures forall k :: k in s <==> lo <= k < hi
    decreases hi
  {
    if hi <= lo then {} else Span(lo, hi - 1) + {hi - 1}
  }

  function Reversed<T>(s: seq<T>): seq<T> {
    if s == [] then [] else [s[|s| - 1]] + Reversed(s[..|s| - 1])
  }

  lemma {:induction false} ReversedAt<T>(s: seq<T>, i: nat)
    requires i < |s|
    ensures |Reversed(s)| == |s| && Reversed(s)[i] == s[|s| - 1 - i]
  {
    if i > 0 {
      ReversedAt(s[..|s| - 1], i - 1);
    } else if |s| > 1 {
      ReversedAt(s[..|s| - 1], 0);
    }
  }

  lemma {:induction false} ReversedKeeps<T>(s: seq<T>)
    ensures multiset(Reversed(s)) == multiset(s)
  {
    if s != [] {
      ReversedKeeps(s[..|s| - 1]);
      assert s == s[..|s| - 1] + [s[|s| - 1]];
    }
  }

  function Flatten<T>(ss: seq<seq<T>>): seq<T> {
    if ss == [] then [] else Flatten(ss[..|ss| - 1]) + ss[|ss| - 1]
  }

  lemma SameLength<T>(s: seq<T>, t: seq<T>)
    requires multiset(s) == multiset(t)
    ensures |s| == |t|
  {
    assert |multiset(s)| == |multiset(t)|;
  }

  /** Lists with the same elements still have them when both lose the head of the first. */
  lemma TakeOut<T>(s: seq<T>, t: seq<T>) returns (i: nat)
    requires s != [] && multiset(s) == multiset(t)
    ensures i < |t| && t[i] == s[0]
    ensures t == t[..i] + ([t[i]] + t[i + 1..])
    ensures multiset(s[1..]) == multiset(t[..i] + t[i + 1..])
  {
    assert s[0] in multiset(t);
    i :| 0 <= i < |t| && t[i] == s[0];
    assert s == [s[0]] + s[1..];
    assert t == t[..i] + ([t[i]] + t[i + 1..]);
    var rest := t[..i] + t[i + 1..];
    assert multiset(rest) == multiset(t[..i]) + multiset(t[i + 1..]);
    assert multiset(t) == multiset{s[0]} + multiset(rest);
    assert multiset(s) == multiset{s[0]} + multiset(s[1..]);
    assert multiset(rest) == multiset(t) - multiset{s[0]};
  }

  /** Taking out an element other than the last leaves the last where it is. */
  lemma WithoutInFront<T>(s: seq<T>, i: nat)
    requires i < |s| - 1
    ensures var front := s[..|s| - 1];
      s[..i] + s[i + 1..] == (front[..i] + front[i + 1..]) + [s[|s| - 1]]
  {
    var front := s[..|s| - 1];
    assert s[..i] == front[..i];
    assert s[i + 1..] == front[i + 1..] + [s[|s| - 1]];
  }

  ghost predicate Distinct<T>(s: seq<T>) {
    forall i, j :: 0 <= i < j < |s| ==> s[i] != s[j]
  }

  ghost predicate Apart<T>(s: seq<T>, t: seq<T>) {
    forall i, j :: 0 <= i < |s| && 0 <= j < |t| ==> s[i] != t[j]
  }

  predicate OccursAt(s: string, sub: string, i: int) {
    0 <= i <= |s| - |sub| && s[i..i + |sub|] == sub
  }

  /** Does `sub` occur in `s`? The meaning of Go's strings.Contains. */
  predicate Contains(s: string, sub: string) {
    exists i :: 0 <= i <= |s| - |sub| && OccursAt(s, sub, i)
  }

  lemma OccursAsPrefix(s: string, phrase: string)
    ensures Contains(s, phrase) <==> exists i :: 0 <= i <= |s| && phrase <= s[i..]
  {
    if Contains(s, phrase) {
      var i :| 0 <= i <= |s| - |phrase| && OccursAt(s, phrase, i);
      assert s[i..][..|phrase|] == phrase;
    }
    if i :| 0 <= i <= |s| && phrase <= s[i..] {
      assert s[i..][..|phrase|] == s[i..i + |phrase|];
      assert OccursAt(s, phrase, i);
    }
  }

  lemma SubsetCardinality<T>(a: set<T>, b: set<T>)
    requires a <= b
    ensures |a| <= |b|
  {
    assert b == a + (b - a);
  }
}
