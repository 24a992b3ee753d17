/** Small shared definitions: optional values and facts about sequences. */
module Base {
  datatype Option<+T> = None | Some(value: T)

  /** `b`, stated so that a proof obligation `Whole(b)` is not split into the conjuncts of `b`. */
  predicate Whole(b: bool) { b == true }

  function Max(a: int, b: int): int { if a < b then b else a }

  function Min(a: int, b: int): int { if a < b then a else b }

  /** `q` without the first occurrence of `x`, the rest in order. */
  function Without<T(==)>(q: seq<T>, x: T): (r: seq<T>)
    decreases |q|
  {
    if q == [] then []
    else if q[0] == x then q[1..]
    else [q[0]] + Without(q[1..], x)
  }

  lemma MemberCount<T>(q: seq<T>, x: T)
    ensures x in q <==> multiset(q)[x] > 0
  {
  }

  lemma {:induction false} WithoutCount<T>(q: seq<T>, x: T, y: T)
    ensures multiset(Without(q, x))[y] == if x == y && x in q then multiset(q)[y] - 1 else multiset(q)[y]
    decreases |q|
  {
    if q == [] {
    } else {
      assert q == [q[0]] + q[1..];
      if q[0] == x {
      } else {
        WithoutCount(q[1..], x, y);
      }
    }
  }

  lemma {:induction false} WithoutMembers<T>(q: seq<T>, x: T)
    ensures forall y :: y in Without(q, x) ==> y in q
    ensures forall y :: y in q && y != x ==> y in Without(q, x)
    decreases |q|
  {
    if q == [] || q[0] == x {
    } else {
      WithoutMembers(q[1..], x);
    }
  }

  lemma {:induction false} WithoutMultiset<T>(q: seq<T>, x: T)
    requires x in q
    ensures multiset(Without(q, x)) + multiset([x]) == multiset(q)
    decreases |q|
  {
    assert q == [q[0]] + q[1..];
    if q[0] == x {
    } else {
      WithoutMultiset(q[1..], x);
    }
  }

  lemma WithoutOnce<T>(q: seq<T>, x: T)
    requires multiset(q)[x] <= 1
    ensures x !in Without(q, x)
  {
    WithoutCount(q, x, x);
    assert x in Without(q, x) <==> multiset(Without(q, x))[x] > 0;
    assert x in q <==> multiset(q)[x] > 0;
  }

  lemma WithoutAbsent<T>(q: seq<T>, x: T)
    requires x !in q
    ensures Without(q, x) == q
    decreases |q|
  {
    if q == [] {
    } else {
      WithoutAbsent(q[1..], x);
    }
  }

  /** Removing the element found at position `i` closes the gap. */
  lemma {:induction false} WithoutAt<T>(q: seq<T>, x: T, i: nat)
    requires i < |q| && q[i] == x && x !in q[..i]
    ensures Without(q, x) == q[..i] + q[i + 1..]
  {
    if i == 0 {
      assert q[..0] == [];
    } else {
      var rest := q[1..];
      assert q[..i] == [q[0]] + rest[..i - 1];
      WithoutAt(rest, x, i - 1);
      assert rest[i..] == q[i + 1..];
    }
  }

  /** The position of the first occurrence of `x`, or the length. */
  function IndexOf<T(==)>(q: seq<T>, x: T): (i: nat)
    ensures i <= |q|
    ensures i < |q| <==> x in q
    ensures i < |q| ==> q[i] == x
    ensures x !in q[..i]
  {
    if q == [] then 0
    else if q[0] == x then 0
    else
      var i := 1 + IndexOf(q[1..], x);
      assert q[..i] == [q[0]] + q[1..][..i-1];
      i
  }

  /** Distinct naturals below `n` are at most `n` many. */
  lemma Pigeonhole(s: set<nat>, n: nat)
    requires forall x :: x in s ==> x < n
    ensures |s| <= n
  {
    if n == 0 {
      assert s == {};
    } else {
      var t := s - {n - 1};
      Pigeonhole(t, n - 1);
      assert s <= t + {n - 1};
      CardSubset(s, t + {n - 1});
    }
  }

  lemma CardSubset<T>(a: set<T>, b: set<T>)
    requires a <= b
    ensures |a| <= |b|
  {
    assert b == a + (b - a);
  }

  predicate Distinct(s: seq<nat>) { forall i, j :: 0 <= i < j < |s| ==> s[i] != s[j] }

  ghost function Members(s: seq<nat>): set<nat> { set i | 0 <= i < |s| :: s[i] }

  /** A sequence without repetition has as many entries as elements. */
  lemma {:induction false} DistinctCard(s: seq<nat>)
    requires Distinct(s)
    ensures |Members(s)| == |s|
  {
    if s == [] {
      assert Members(s) == {};
    } else {
      var rest := s[..|s| - 1];
      DistinctCard(rest);
      MembersSnoc(rest, s[|s| - 1]);
      assert s == rest + [s[|s| - 1]];
      assert s[|s| - 1] !in Members(rest);
    }
  }

  lemma MembersSnoc(s: seq<nat>, b: nat)
    ensures Members(s + [b]) == Members(s) + {b}
  {
    assert forall i :: 0 <= i < |s| ==> (s + [b])[i] == s[i];
    assert (s + [b])[|s|] == b;
    forall x | x in Members(s) ensures x in Members(s + [b]) {
      var i :| 0 <= i < |s| && s[i] == x;
      assert (s + [b])[i] == x;
    }
  }

  lemma CountedDistinct(s: seq<nat>)
    requires forall x :: multiset(s)[x] <= 1
    ensures Distinct(s)
  {
    forall i, j | 0 <= i < j < |s| ensures s[i] != s[j] {
      assert s == s[..j] + s[j..];
      MemberCount(s[..j], s[i]);
      MemberCount(s[j..], s[j]);
      assert s[i] in s[..j] && s[j] in s[j..];
      assert multiset(s)[s[i]] <= 1;
    }
  }
}
