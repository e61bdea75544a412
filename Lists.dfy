/** Sequence operations that the runtime's collections are specified with:
    an insertion-ordered set kept as a duplicate-free sequence (a JavaScript
    `Set`), filtering out one value (`Array.prototype.filter` with `!==`),
    overwriting one slot, and `indexOf`. */
module Lists {

  /** The elements of a sequence, as a set. */
  function Elems<T>(s: seq<T>): set<T> {
    set y | y in s
  }

  /** No element occurs twice. */
  ghost predicate Distinct<T>(s: seq<T>) {
    forall i, j :: 0 <= i < j < |s| ==> s[i] != s[j]
  }

  /** `Set.prototype.add` on an insertion-ordered set: a new element goes to
      the end, an element already present changes nothing. */
  function Insert<T(==)>(s: seq<T>, x: T): (r: seq<T>)
    ensures x in r
    ensures Elems(r) == Elems(s) + {x}
    ensures x in s ==> r == s
    ensures |s| <= |r| && r[..|s|] == s
    ensures Distinct(s) ==> Distinct(r)
  {
    if x in s then s else s + [x]
  }

  /** Adding every element of `xs`, left to right. */
  function InsertAll<T(==)>(s: seq<T>, xs: seq<T>): (r: seq<T>)
    ensures Elems(r) == Elems(s) + Elems(xs)
    ensures |s| <= |r| && r[..|s|] == s
    ensures Distinct(s) ==> Distinct(r)
    decreases |xs|
  {
    if xs == [] then s
    else Insert(InsertAll(s, xs[..|xs| - 1]), xs[|xs| - 1])
  }

  /** Adding one more element at the end of `xs`. */
  lemma InsertAllSnoc<T>(s: seq<T>, xs: seq<T>, x: T)
    ensures InsertAll(s, xs + [x]) == Insert(InsertAll(s, xs), x)
  {
    assert (xs + [x])[..|xs|] == xs;
  }

  /** Every occurrence of `x` removed, the rest kept in order. */
  function Without<T(==)>(s: seq<T>, x: T): (r: seq<T>)
    ensures |r| <= |s|
  {
    if s == [] then []
    else if s[0] == x then Without(s[1..], x)
    else [s[0]] + Without(s[1..], x)
  }

  /** Filtering removes every copy of `x` and keeps every copy of every
      other element. */
  lemma {:induction false} WithoutCounts<T>(s: seq<T>, x: T)
    ensures multiset(Without(s, x)) == multiset(s)[x := 0]
    ensures Elems(Without(s, x)) == Elems(s) - {x}
  {
    if s != [] {
      WithoutCounts(s[1..], x);
      assert s == [s[0]] + s[1..];
      assert Elems(s) == {s[0]} + Elems(s[1..]);
      var rest := Without(s[1..], x);
      if s[0] != x {
        assert Elems([s[0]] + rest) == {s[0]} + Elems(rest);
      }
    }
  }

  /** Filtering distributes over concatenation, so the survivors keep their
      relative order. */
  lemma {:induction false} WithoutAppend<T>(a: seq<T>, b: seq<T>, x: T)
    ensures Without(a + b, x) == Without(a, x) + Without(b, x)
  {
    if a == [] {
      assert a + b == b;
    } else {
      assert (a + b)[1..] == a[1..] + b;
      WithoutAppend(a[1..], b, x);
    }
  }

  /** Filtering twice is filtering once. */
  lemma {:induction false} WithoutIdempotent<T>(s: seq<T>, x: T)
    ensures Without(Without(s, x), x) == Without(s, x)
  {
    if s != [] {
      WithoutIdempotent(s[1..], x);
    }
  }

  /** Filtering out an absent value changes nothing. */
  lemma {:induction false} WithoutAbsent<T>(s: seq<T>, x: T)
    requires x !in s
    ensures Without(s, x) == s
  {
    if s != [] {
      WithoutAbsent(s[1..], x);
      assert s == [s[0]] + s[1..];
    }
  }

  /** Appending a new value and then filtering it out gives the original
      sequence back. */
  lemma RemoveAfterAppend<T>(s: seq<T>, x: T)
    requires x !in s
    ensures Without(s + [x], x) == s
  {
    WithoutAppend(s, [x], x);
    WithoutAbsent(s, x);
    assert [x][1..] == [];
  }

  /** Assigning slot `i` when the sequence is longer than `i`, and leaving it
      alone otherwise. */
  function ReplaceAt<T>(s: seq<T>, i: nat, x: T): (r: seq<T>)
    ensures |r| == |s|
    ensures i < |s| ==> r[i] == x
    ensures forall j :: 0 <= j < |s| && j != i ==> r[j] == s[j]
  {
    if |s| > i then s[i := x] else s
  }

  /** `Array.prototype.indexOf`: the first position of `x`, or -1. */
  function IndexOf<T(==)>(s: seq<T>, x: T): (r: int)
    ensures -1 <= r < |s|
    ensures r == -1 <==> x !in s
    ensures 0 <= r ==> s[r] == x && x !in s[..r]
  {
    if s == [] then -1
    else if s[0] == x then 0
    else
      var k := IndexOf(s[1..], x);
      assert s[1..] == s[1..][..];
      if k == -1 then -1
      else
        assert s[..k + 1] == [s[0]] + s[1..][..k];
        k + 1
  }
}
