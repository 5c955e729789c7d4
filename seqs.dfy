/** The array operations the components use (`filter`, `find`, `includes`,
    `indexOf`), written once over sequences. */
module Seqs {
  import opened Wrappers

  /** `s.filter(f)`: the elements satisfying f, in their original order. */
  function Filter<T>(f: T -> bool, s: seq<T>): (r: seq<T>)
    ensures |r| <= |s|
    ensures forall x :: x in r ==> x in s && f(x)
    ensures forall x :: x in s && f(x) ==> x in r
  {
    if s == [] then []
    else if f(s[0]) then [s[0]] + Filter(f, s[1..])
    else Filter(f, s[1..])
  }

  /** An element that fails the test makes the filtered array shorter. */
  lemma {:induction false} FilterDropsFailing<T>(f: T -> bool, s: seq<T>, x: T)
    requires x in s && !f(x)
    ensures |Filter(f, s)| < |s|
  {
    if s[0] != x {
      FilterDropsFailing(f, s[1..], x);
    }
  }

  /** Filtering distributes over concatenation (so order is preserved). */
  lemma {:induction false} FilterAppend<T>(f: T -> bool, a: seq<T>, b: seq<T>)
    ensures Filter(f, a + b) == Filter(f, a) + Filter(f, b)
  {
    if a == [] {
      assert a + b == b;
    } else {
      assert (a + b)[1..] == a[1..] + b;
      FilterAppend(f, a[1..], b);
    }
  }

  /** Filtering with a predicate every element satisfies changes nothing. */
  lemma {:induction false} FilterAll<T>(f: T -> bool, s: seq<T>)
    requires forall x :: x in s ==> f(x)
    ensures Filter(f, s) == s
  {
    if s != [] {
      FilterAll(f, s[1..]);
    }
  }

  /** `s[i]`, which is undefined outside the array. */
  function At<T>(s: seq<T>, i: int): (r: Option<T>)
    ensures r.Some? <==> 0 <= i < |s|
    ensures r.Some? ==> r.value == s[i]
  {
    if 0 <= i < |s| then Some(s[i]) else None
  }

  /** `s.find(f)`: the first element satisfying f, if any. */
  function Find<T(==)>(f: T -> bool, s: seq<T>): (r: Option<T>)
    ensures r.None? <==> forall x :: x in s ==> !f(x)
    ensures r.Some? ==> exists i :: 0 <= i < |s| && s[i] == r.value && f(s[i]) &&
                                     forall j :: 0 <= j < i ==> !f(s[j])
  {
    if s == [] then None
    else if f(s[0]) then Some(s[0])
    else
      var r := Find(f, s[1..]);
      assert r.Some? ==> exists i :: 0 <= i < |s| - 1 && s[1..][i] == r.value && f(s[1..][i]) &&
                                     forall j :: 0 <= j < i ==> !f(s[1..][j]);
      if r.Some? then
        var i :| 0 <= i < |s| - 1 && s[1..][i] == r.value && f(s[1..][i]) &&
                 forall j :: 0 <= j < i ==> !f(s[1..][j]);
        assert s[i + 1] == r.value && forall j :: 0 <= j < i + 1 ==> !f(s[j]) by {
          forall j | 0 <= j < i + 1 ensures !f(s[j]) {
            if j > 0 { assert s[j] == s[1..][j - 1]; }
          }
        }
        r
      else r
  }

  /** Two tests that agree everywhere find the same element. */
  lemma {:induction false} FindSame<T>(f: T -> bool, g: T -> bool, s: seq<T>)
    requires forall x :: f(x) == g(x)
    ensures Find(f, s) == Find(g, s)
  {
    if s != [] {
      FindSame(f, g, s[1..]);
    }
  }

  /** Finding in a filtered array is finding with both conditions. */
  lemma {:induction false} FindFilter<T>(g: T -> bool, f: T -> bool, h: T -> bool, s: seq<T>)
    requires forall x :: h(x) == (f(x) && g(x))
    ensures Find(g, Filter(f, s)) == Find(h, s)
  {
    if s != [] {
      FindFilter(g, f, h, s[1..]);
    }
  }

  /** The head of a non-empty filtered array is the first element found. */
  lemma {:induction false} FirstOfFilter<T>(f: T -> bool, s: seq<T>)
    requires Filter(f, s) != []
    ensures Find(f, s) == Some(Filter(f, s)[0])
  {
    if !f(s[0]) {
      FirstOfFilter(f, s[1..]);
    }
  }

  /** `s.indexOf(x)` / `s.findIndex(y => y === x)`: -1 when absent. */
  function IndexOf<T(==)>(s: seq<T>, x: T): (i: int)
    ensures -1 <= i < |s|
    ensures i == -1 <==> x !in s
    ensures 0 <= i ==> s[i] == x && forall j :: 0 <= j < i ==> s[j] != x
  {
    if s == [] then -1
    else if s[0] == x then 0
    else
      var k := IndexOf(s[1..], x);
      if k == -1 then -1 else k + 1
  }

  /** `s.filter(v => v !== x)`: every occurrence of x removed, the rest in order. */
  function Remove<T(==)>(s: seq<T>, x: T): (r: seq<T>)
    ensures x !in r
    ensures forall y :: y in r ==> y in s
    ensures forall y :: y in s && y != x ==> y in r
    ensures |r| <= |s|
  {
    if s == [] then []
    else if s[0] == x then Remove(s[1..], x)
    else [s[0]] + Remove(s[1..], x)
  }

  /** Removing an element that does not occur changes nothing. */
  lemma {:induction false} RemoveAbsent<T>(s: seq<T>, x: T)
    requires x !in s
    ensures Remove(s, x) == s
  {
    if s != [] {
      RemoveAbsent(s[1..], x);
    }
  }

  /** Removal distributes over concatenation. */
  lemma {:induction false} RemoveAppend<T>(a: seq<T>, b: seq<T>, x: T)
    ensures Remove(a + b, x) == Remove(a, x) + Remove(b, x)
  {
    if a == [] {
      assert a + b == b;
    } else {
      assert (a + b)[1..] == a[1..] + b;
      RemoveAppend(a[1..], b, x);
    }
  }

  /** Removal keeps a duplicate-free sequence duplicate-free. */
  lemma {:induction false} RemoveNoDuplicates<T>(s: seq<T>, x: T)
    requires NoDuplicates(s)
    ensures NoDuplicates(Remove(s, x))
  {
    if s != [] {
      assert NoDuplicates(s[1..]) by {
        forall i, j | 0 <= i < j < |s| - 1 ensures s[1..][i] != s[1..][j] {
          assert s[i + 1] != s[j + 1];
        }
      }
      RemoveNoDuplicates(s[1..], x);
      var rest := Remove(s[1..], x);
      if s[0] != x {
        assert s[0] !in s[1..] by {
          forall k | 0 <= k < |s| - 1 ensures s[1..][k] != s[0] {
            assert s[0] != s[k + 1];
          }
        }
        var r := [s[0]] + rest;
        forall i, j | 0 <= i < j < |r| ensures r[i] != r[j] {
          if i == 0 { assert r[j] == rest[j - 1]; assert r[j] in rest; }
          else { assert r[i] == rest[i - 1] && r[j] == rest[j - 1]; }
        }
      }
    }
  }

  /** No element occurs twice. */
  predicate NoDuplicates<T(==)>(s: seq<T>)
  {
    forall i, j :: 0 <= i < j < |s| ==> s[i] != s[j]
  }

  /** `s.some(f)`. */
  function Any<T>(f: T -> bool, s: seq<T>): (r: bool)
    ensures r <==> exists x :: x in s && f(x)
  {
    if s == [] then false
    else f(s[0]) || (assert forall x :: x in s[1..] ==> x in s; Any(f, s[1..]))
  }

  /** `s.every(f)`: true of the empty array. */
  function All<T>(f: T -> bool, s: seq<T>): (r: bool)
    ensures r <==> forall x :: x in s ==> f(x)
  {
    if s == [] then true
    else f(s[0]) && All(f, s[1..])
  }

  /** `Math.min(...xs)` of a non-empty array. */
  function MinOf(xs: seq<int>): (m: int)
    requires |xs| > 0
    ensures m in xs && forall x :: x in xs ==> m <= x
  {
    if |xs| == 1 then xs[0]
    else
      var r := MinOf(xs[1..]);
      assert forall x :: x in xs ==> x == xs[0] || x in xs[1..];
      if xs[0] <= r then xs[0] else r
  }

  /** `Math.max(...xs)` of a non-empty array. */
  function MaxOf(xs: seq<int>): (m: int)
    requires |xs| > 0
    ensures m in xs && forall x :: x in xs ==> x <= m
  {
    if |xs| == 1 then xs[0]
    else
      var r := MaxOf(xs[1..]);
      assert forall x :: x in xs ==> x == xs[0] || x in xs[1..];
      if xs[0] >= r then xs[0] else r
  }
}
