/** Values shared by the server and the client models: JavaScript's `null`,
    its truthiness rule for strings, and the duplicate-free lists that stand
    for arrays used as sets and for insertion-ordered `Set`s. */
module Base {

  datatype Option<T> = None | Some(value: T)

  /** A variable that holds a string or `null` is truthy exactly when it holds
      a non-empty string: `""` counts as absent, like `null`. */
  predicate Truthy(v: Option<string>) {
    v.Some? && v.value != ""
  }

  predicate NoDup<T(==)>(s: seq<T>) {
    forall i, j :: 0 <= i < j < |s| ==> s[i] != s[j]
  }

  /** `if (!list.includes(x)) list = [...list, x]`, and equally `set.add(x)` on
      an insertion-ordered set: `x` goes last unless it is already there. */
  function AppendIfAbsent<T(==,!new)>(s: seq<T>, x: T): (r: seq<T>)
    ensures x in r
    ensures forall y :: y in r <==> y in s || y == x
    ensures |s| <= |r| <= |s| + 1 && r[..|s|] == s
    ensures NoDup(s) ==> NoDup(r)
  {
    if x in s then s else s + [x]
  }

  /** `list.filter(y => y !== x)`, and equally `set.delete(x)`: every other
      element stays, in its order. */
  function Without<T(==,!new)>(s: seq<T>, x: T): (r: seq<T>)
    ensures forall y :: y in r <==> y in s && y != x
    ensures |r| <= |s|
    ensures NoDup(s) ==> NoDup(r)
  {
    if s == [] then []
    else if s[0] == x then Without(s[1..], x)
    else
      assert NoDup(s) ==> s[0] !in s[1..];
      [s[0]] + Without(s[1..], x)
  }

  /** `new Set(list)`: the first occurrence of each element, in list order. */
  function Distinct<T(==,!new)>(s: seq<T>): (r: seq<T>)
    ensures NoDup(r)
    ensures forall y :: y in r <==> y in s
    ensures |r| <= |s|
  {
    if s == [] then [] else AppendIfAbsent(Distinct(s[..|s| - 1]), s[|s| - 1])
  }

  /** Removing an element that is absent changes nothing. */
  lemma {:induction false} WithoutAbsent<T(!new)>(s: seq<T>, x: T)
    requires x !in s
    ensures Without(s, x) == s
  {
    if s != [] {
      WithoutAbsent(s[1..], x);
    }
  }

  /** Removing the one occurrence of `x` in a duplicate-free list cuts it out
      and keeps both sides in order. */
  lemma {:induction false} WithoutAt<T(!new)>(s: seq<T>, i: nat)
    requires NoDup(s) && i < |s|
    ensures Without(s, s[i]) == s[..i] + s[i + 1..]
  {
    if i == 0 {
      WithoutAbsent(s[1..], s[0]);
    } else {
      WithoutAt(s[1..], i - 1);
      assert s[1..][i - 1] == s[i];
      assert s[1..][..i - 1] == s[1..i];
      assert s[1..][i - 1 + 1..] == s[i + 1..];
      assert [s[0]] + s[1..i] == s[..i];
    }
  }

  /** Filtering distributes over concatenation. With the one-element cases
      of the definition, `Without(a + [y], x) == Without(a, x) + (if y == x
      then [] else [y])`, this pins the filter down: every other element
      stays, in its order. */
  lemma {:induction false} WithoutAppend<T(!new)>(a: seq<T>, b: seq<T>, x: T)
    ensures Without(a + b, x) == Without(a, x) + Without(b, x)
  {
    if a != [] {
      WithoutAppend(a[1..], b, x);
      assert (a + b)[0] == a[0] && (a + b)[1..] == a[1..] + b;
    } else {
      assert a + b == b;
    }
  }

  /** Every element other than `x` keeps its number of occurrences, and `x`
      has none left. */
  lemma {:induction false} WithoutCount<T(!new)>(s: seq<T>, x: T)
    ensures multiset(Without(s, x)) == multiset(s)[x := 0]
  {
    if s != [] {
      WithoutCount(s[1..], x);
      assert s == [s[0]] + s[1..];
      assert multiset(s) == multiset([s[0]]) + multiset(s[1..]);
      if s[0] == x {
        assert multiset(s)[x := 0] == multiset(s[1..])[x := 0];
      } else {
        assert Without(s, x) == [s[0]] + Without(s[1..], x);
        assert multiset(s)[x := 0] == multiset([s[0]]) + multiset(s[1..])[x := 0];
      }
    }
  }

  /** A list that already has no duplicates is its own `new Set(list)`. */
  lemma {:induction false} DistinctOfNoDup<T(!new)>(s: seq<T>)
    requires NoDup(s)
    ensures Distinct(s) == s
  {
    if s != [] {
      var init := s[..|s| - 1];
      DistinctOfNoDup(init);
      assert s[|s| - 1] !in init;
      assert init + [s[|s| - 1]] == s;
    }
  }
}
