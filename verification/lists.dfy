/** Python list operations the program uses on name lists: `list.remove`
    (first occurrence), the ignore-list loop built on it, and the
    order-preserving difference `[x for x in xs if x not in ys]`. */
module Lists {

  /** Concatenation regroups freely; stated once for every list of
      statements, lines or characters. */
  lemma AppendAssociative<T>(a: seq<T>, b: seq<T>, c: seq<T>)
    ensures a + b + c == a + (b + c)
  {
  }

  // ---------------------------------------------------------------------
  // Subsequences and duplicates
  // ---------------------------------------------------------------------

  /** `a` is obtained from `b` by deleting elements, keeping the order. */
  predicate IsSubsequence<T(==)>(a: seq<T>, b: seq<T>)
    decreases |b|
  {
    if |a| == 0 then true
    else if |b| == 0 then false
    else (a[0] == b[0] && IsSubsequence(a[1..], b[1..])) || IsSubsequence(a, b[1..])
  }

  lemma {:induction false} SubsequenceReflexive<T>(a: seq<T>)
    ensures IsSubsequence(a, a)
    decreases |a|
  {
    if |a| > 0 {
      SubsequenceReflexive(a[1..]);
    }
  }

  lemma {:induction false} SubsequenceTransitive<T>(a: seq<T>, b: seq<T>, c: seq<T>)
    requires IsSubsequence(a, b) && IsSubsequence(b, c)
    ensures IsSubsequence(a, c)
    decreases |c|
  {
    if |a| > 0 {
      assert |b| > 0 && |c| > 0;
      if IsSubsequence(b, c[1..]) {
        SubsequenceTransitive(a, b, c[1..]);
      } else {
        assert b[0] == c[0] && IsSubsequence(b[1..], c[1..]);
        if a[0] == b[0] && IsSubsequence(a[1..], b[1..]) {
          SubsequenceTransitive(a[1..], b[1..], c[1..]);
        } else {
          SubsequenceTransitive(a, b[1..], c[1..]);
        }
      }
    }
  }

  lemma {:induction false} SubsequenceMembers<T>(a: seq<T>, b: seq<T>, x: T)
    requires IsSubsequence(a, b) && x in a
    ensures x in b
    decreases |b|
  {
    if a[0] == b[0] && IsSubsequence(a[1..], b[1..]) {
      if x != a[0] {
        SubsequenceMembers(a[1..], b[1..], x);
      }
    } else {
      SubsequenceMembers(a, b[1..], x);
    }
  }

  predicate NoDuplicates<T(==)>(xs: seq<T>)
  {
    forall i, j :: 0 <= i < j < |xs| ==> xs[i] != xs[j]
  }

  lemma {:induction false} NoDuplicatesCount<T>(xs: seq<T>, x: T)
    requires NoDuplicates(xs)
    ensures multiset(xs)[x] <= 1
    decreases |xs|
  {
    if |xs| > 0 {
      assert xs == [xs[0]] + xs[1..];
      assert xs[0] !in xs[1..] by {
        forall k | 0 <= k < |xs[1..]| ensures xs[1..][k] != xs[0] {
          assert xs[1..][k] == xs[k + 1];
        }
      }
      NoDuplicatesCount(xs[1..], x);
    }
  }

  lemma {:induction false} SubsequenceNoDuplicates<T>(a: seq<T>, b: seq<T>)
    requires IsSubsequence(a, b) && NoDuplicates(b)
    ensures NoDuplicates(a)
    decreases |b|
  {
    if |a| > 0 {
      assert NoDuplicates(b[1..]) by {
        forall i, j | 0 <= i < j < |b[1..]| ensures b[1..][i] != b[1..][j] {
          assert b[1..][i] == b[i + 1] && b[1..][j] == b[j + 1];
        }
      }
      if a[0] == b[0] && IsSubsequence(a[1..], b[1..]) {
        SubsequenceNoDuplicates(a[1..], b[1..]);
        forall i, j | 0 <= i < j < |a| ensures a[i] != a[j] {
          if i == 0 {
            assert a[j] == a[1..][j - 1];
            SubsequenceMembers(a[1..], b[1..], a[j]);
            var k :| 0 <= k < |b[1..]| && b[1..][k] == a[j];
            assert b[k + 1] == a[j];
          } else {
            assert a[i] == a[1..][i - 1] && a[j] == a[1..][j - 1];
          }
        }
      } else {
        SubsequenceNoDuplicates(a, b[1..]);
      }
    }
  }

  /** Among the subsequences of a duplicate-free list, the members alone
      determine the subsequence. */
  lemma {:induction false} SubsequenceDeterminedByMembers<T>(a: seq<T>, c: seq<T>, b: seq<T>)
    requires NoDuplicates(b) && IsSubsequence(a, b) && IsSubsequence(c, b)
    requires forall x :: x in a <==> x in c
    ensures a == c
    decreases |b|
  {
    if |b| > 0 {
      assert NoDuplicates(b[1..]) by {
        forall i, j | 0 <= i < j < |b[1..]| ensures b[1..][i] != b[1..][j] {
          assert b[1..][i] == b[i + 1] && b[1..][j] == b[j + 1];
        }
      }
      assert b[0] !in b[1..] by {
        forall k | 0 <= k < |b[1..]| ensures b[1..][k] != b[0] {
          assert b[1..][k] == b[k + 1];
        }
      }
      HeadOrSkip(a, b);
      HeadOrSkip(c, b);
      if b[0] in a {
        assert a[0] == b[0] && IsSubsequence(a[1..], b[1..]);
        assert c[0] == b[0] && IsSubsequence(c[1..], b[1..]);
        SubsequenceNoDuplicates(a, b);
        SubsequenceNoDuplicates(c, b);
        forall x ensures x in a[1..] <==> x in c[1..] {
          MembersAfterHead(a, x);
          MembersAfterHead(c, x);
        }
        SubsequenceDeterminedByMembers(a[1..], c[1..], b[1..]);
        assert a == [a[0]] + a[1..] && c == [c[0]] + c[1..];
      } else {
        SubsequenceDeterminedByMembers(a, c, b[1..]);
      }
    } else {
      assert |a| == 0 && |c| == 0;
    }
  }

  /** A subsequence of a duplicate-free list either starts with the list's
      head or skips it entirely. */
  lemma HeadOrSkip<T>(a: seq<T>, b: seq<T>)
    requires |b| > 0 && b[0] !in b[1..] && IsSubsequence(a, b)
    ensures b[0] in a ==> |a| > 0 && a[0] == b[0] && IsSubsequence(a[1..], b[1..])
    ensures b[0] !in a ==> IsSubsequence(a, b[1..])
  {
    if |a| > 0 && !(a[0] == b[0] && IsSubsequence(a[1..], b[1..])) {
      assert IsSubsequence(a, b[1..]);
      if b[0] in a {
        SubsequenceMembers(a, b[1..], b[0]);
      }
    }
  }

  lemma MembersAfterHead<T>(a: seq<T>, x: T)
    requires |a| > 0 && NoDuplicates(a)
    ensures x in a[1..] <==> x in a && x != a[0]
  {
    if x in a[1..] {
      var k :| 0 <= k < |a[1..]| && a[1..][k] == x;
      assert a[k + 1] == x;
    }
    if x in a && x != a[0] {
      var k :| 0 <= k < |a| && a[k] == x;
      assert a[1..][k - 1] == x;
    }
  }

  // ---------------------------------------------------------------------
  // Removing the first occurrence
  // ---------------------------------------------------------------------

  /** The position Python's `list.remove` deletes: the first equal element. */
  function FirstIndex<T(==)>(xs: seq<T>, x: T): (i: nat)
    requires x in xs
    ensures i < |xs| && xs[i] == x && x !in xs[..i]
    decreases |xs|
  {
    if xs[0] == x then 0
    else
      var j := FirstIndex(xs[1..], x);
      assert xs[..j + 1] == [xs[0]] + xs[1..][..j];
      j + 1
  }

  /** `xs.remove(x)` with the `ValueError` of a missing element swallowed:
      the first equal element is deleted, or nothing when there is none. */
  function RemoveFirst<T(==)>(xs: seq<T>, x: T): (r: seq<T>)
    ensures multiset(r) == multiset(xs) - multiset{x}
    ensures IsSubsequence(r, xs)
    ensures |r| == if x in xs then |xs| - 1 else |xs|
    ensures x !in xs ==> r == xs
    ensures x in xs ==>
              var i := FirstIndex(xs, x);
              r[..i] == xs[..i] && r[i..] == xs[i + 1..]
  {
    if x in xs then
      var i := FirstIndex(xs, x);
      assert xs == xs[..i] + [x] + xs[i + 1..];
      DeleteIsSubsequence(xs, i);
      xs[..i] + xs[i + 1..]
    else
      SubsequenceReflexive(xs);
      xs
  }

  lemma {:induction false} DeleteIsSubsequence<T>(xs: seq<T>, i: nat)
    requires i < |xs|
    ensures IsSubsequence(xs[..i] + xs[i + 1..], xs)
    decreases i
  {
    var r := xs[..i] + xs[i + 1..];
    if i == 0 {
      assert r == xs[1..];
      SubsequenceReflexive(xs[1..]);
    } else {
      DeleteIsSubsequence(xs[1..], i - 1);
      assert r[0] == xs[0];
      assert r[1..] == xs[1..][..i - 1] + xs[1..][i..];
    }
  }

  /** The ignore-list loop: for each piece in turn, `list.remove(piece)`
      with a missing piece silently skipped. Exactly one copy of each piece
      goes, when there is one. */
  function RemoveEach<T(==)>(xs: seq<T>, pieces: seq<T>): (r: seq<T>)
    ensures multiset(r) == multiset(xs) - multiset(pieces)
    ensures IsSubsequence(r, xs)
    ensures |xs| - |pieces| <= |r| <= |xs|
    decreases |pieces|
  {
    if |pieces| == 0 then
      SubsequenceReflexive(xs);
      xs
    else
      var once := RemoveFirst(xs, pieces[0]);
      var r := RemoveEach(once, pieces[1..]);
      assert pieces == [pieces[0]] + pieces[1..];
      DifferenceOfDifference(multiset(xs), multiset{pieces[0]}, multiset(pieces[1..]));
      SubsequenceTransitive(r, once, xs);
      r
  }

  /** One piece is one `list.remove`: its first copy goes, if there is one. */
  lemma RemoveEachSingle<T>(xs: seq<T>, p: T)
    ensures RemoveEach(xs, [p]) == RemoveFirst(xs, p)
  {
    assert [p][1..] == [];
  }

  /** The pieces are removed one after the other: the pieces of `ps + qs`
      remove what those of `ps` remove, then what those of `qs` remove from
      what is left. */
  lemma {:induction false} RemoveEachAppend<T>(xs: seq<T>, ps: seq<T>, qs: seq<T>)
    ensures RemoveEach(xs, ps + qs) == RemoveEach(RemoveEach(xs, ps), qs)
    decreases |ps|
  {
    if |ps| == 0 {
      assert ps + qs == qs;
    } else {
      assert (ps + qs)[0] == ps[0];
      assert (ps + qs)[1..] == ps[1..] + qs;
      RemoveEachAppend(RemoveFirst(xs, ps[0]), ps[1..], qs);
    }
  }

  /** After every piece but the last, the last piece deletes the first
      copy of itself from what is left: the loop's step, read from its end. */
  lemma RemoveEachSnoc<T>(xs: seq<T>, ps: seq<T>, p: T)
    ensures RemoveEach(xs, ps + [p]) == RemoveFirst(RemoveEach(xs, ps), p)
  {
    RemoveEachAppend(xs, ps, [p]);
    RemoveEachSingle(RemoveEach(xs, ps), p);
  }

  lemma DifferenceOfDifference<T>(a: multiset<T>, b: multiset<T>, c: multiset<T>)
    ensures a - b - c == a - (b + c)
  {
    forall x ensures (a - b - c)[x] == (a - (b + c))[x] {
    }
  }

  // ---------------------------------------------------------------------
  // Order-preserving difference
  // ---------------------------------------------------------------------

  /** `[x for x in xs if x not in excluded]`: the elements of `xs` absent
      from `excluded`, in order and with their repetitions. */
  function Without<T(==,!new)>(xs: seq<T>, excluded: seq<T>): (r: seq<T>)
    ensures forall x {:trigger x in r} :: x in r <==> x in xs && x !in excluded
    ensures forall x {:trigger multiset(r)[x]} :: multiset(r)[x] == if x in excluded then 0 else multiset(xs)[x]
    ensures IsSubsequence(r, xs)
    decreases |xs|
  {
    if |xs| == 0 then []
    else
      var rest := Without(xs[1..], excluded);
      assert xs == [xs[0]] + xs[1..];
      if xs[0] in excluded then
        rest
      else
        assert ([xs[0]] + rest)[1..] == rest;
        [xs[0]] + rest
  }

  /** On a duplicate-free list the ignore loop is exactly a difference. */
  lemma RemoveEachDistinct<T(!new)>(xs: seq<T>, pieces: seq<T>)
    requires NoDuplicates(xs)
    ensures RemoveEach(xs, pieces) == Without(xs, pieces)
  {
    var r := RemoveEach(xs, pieces);
    var w := Without(xs, pieces);
    forall x ensures x in r <==> x in w {
      NoDuplicatesCount(xs, x);
      assert x in r <==> multiset(r)[x] > 0;
    }
    SubsequenceDeterminedByMembers(r, w, xs);
  }

  lemma WithoutTwice<T(!new)>(xs: seq<T>, excluded: seq<T>)
    requires NoDuplicates(xs)
    ensures Without(Without(xs, excluded), excluded) == Without(xs, excluded)
  {
    var w := Without(xs, excluded);
    var ww := Without(w, excluded);
    SubsequenceNoDuplicates(w, xs);
    SubsequenceTransitive(ww, w, xs);
    SubsequenceDeterminedByMembers(ww, w, xs);
  }
}
