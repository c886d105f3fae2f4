/**
 * The order `Array.prototype.sort()` uses when no comparator is given:
 * strings compared character by character, a proper prefix first.
 * The sort itself is a built-in of the host, so it is modelled by what it
 * promises (an ordered permutation of its input) through a reference
 * insertion sort; `SortedUnique` shows that every sort that keeps that
 * promise returns the same sequence.
 */
module LexOrder {

  /** `a` comes no later than `b` in character order. */
  predicate LessEq(a: string, b: string) {
    a == [] || (b != [] && (a[0] < b[0] || (a[0] == b[0] && LessEq(a[1..], b[1..]))))
  }

  lemma {:induction false} LessEqReflexive(a: string)
    ensures LessEq(a, a)
  {
    if a != [] {
      LessEqReflexive(a[1..]);
    }
  }

  lemma {:induction false} LessEqTotal(a: string, b: string)
    ensures LessEq(a, b) || LessEq(b, a)
  {
    if a != [] && b != [] && a[0] == b[0] {
      LessEqTotal(a[1..], b[1..]);
    }
  }

  lemma {:induction false} LessEqAntisymmetric(a: string, b: string)
    requires LessEq(a, b) && LessEq(b, a)
    ensures a == b
  {
    if a != [] && b != [] {
      LessEqAntisymmetric(a[1..], b[1..]);
      assert [a[0]] + a[1..] == a && [b[0]] + b[1..] == b;
    }
  }

  lemma {:induction false} LessEqTransitive(a: string, b: string, c: string)
    requires LessEq(a, b) && LessEq(b, c)
    ensures LessEq(a, c)
  {
    if a != [] && b != [] && c != [] && a[0] == b[0] == c[0] {
      LessEqTransitive(a[1..], b[1..], c[1..]);
    }
  }

  /** Ascending order: every earlier line is no later than every later one. */
  predicate Sorted(s: seq<string>) {
    forall i, j :: 0 <= i < j < |s| ==> LessEq(s[i], s[j])
  }

  /** Puts `x` into its place in a sorted sequence. */
  function Insert(x: string, ys: seq<string>): (r: seq<string>)
    requires Sorted(ys)
    ensures Sorted(r)
    ensures multiset(r) == multiset(ys) + multiset{x}
    ensures |r| == |ys| + 1
  {
    if ys == [] then [x]
    else if LessEq(x, ys[0]) then
      assert forall j :: 0 <= j < |ys| ==> LessEq(x, ys[j]) by {
        forall j | 0 <= j < |ys| ensures LessEq(x, ys[j]) {
          if j > 0 { LessEqTransitive(x, ys[0], ys[j]); }
        }
      }
      [x] + ys
    else
      LessEqTotal(x, ys[0]);
      assert ys == [ys[0]] + ys[1..];
      var rest := Insert(x, ys[1..]);
      assert forall j :: 0 <= j < |rest| ==> LessEq(ys[0], rest[j]) by {
        forall j | 0 <= j < |rest| ensures LessEq(ys[0], rest[j]) {
          assert rest[j] in multiset(rest);
          if rest[j] != x {
            assert rest[j] in multiset(ys[1..]);
            var k :| 0 <= k < |ys[1..]| && ys[1..][k] == rest[j];
          }
        }
      }
      [ys[0]] + rest
  }

  /** The lines of one bucket after `sort()`: ascending, and a permutation
      of the lines before. */
  function SortLines(xs: seq<string>): (r: seq<string>)
    ensures Sorted(r)
    ensures multiset(r) == multiset(xs)
    ensures |r| == |xs|
  {
    if xs == [] then []
    else
      assert xs == [xs[0]] + xs[1..];
      Insert(xs[0], SortLines(xs[1..]))
  }

  /** The first line of an ascending sequence is no later than any of its lines. */
  lemma HeadIsLeast(a: seq<string>, x: string)
    requires Sorted(a) && x in multiset(a)
    ensures LessEq(a[0], x)
  {
    var j :| 0 <= j < |a| && a[j] == x;
    if j == 0 { LessEqReflexive(x); }
  }

  lemma SortedTail(a: seq<string>)
    requires Sorted(a) && a != []
    ensures Sorted(a[1..])
  {
    assert forall i, j :: 0 <= i < j < |a| - 1 ==> a[1..][i] == a[i + 1] && a[1..][j] == a[j + 1];
  }

  /** Two ascending permutations of the same lines are the same sequence, so
      the result does not depend on the sorting algorithm. */
  lemma {:induction false} SortedUnique(a: seq<string>, b: seq<string>)
    requires Sorted(a) && Sorted(b)
    requires multiset(a) == multiset(b)
    ensures a == b
  {
    if a != [] {
      SameHeads(a, b);
      SortedTail(a);
      SortedTail(b);
      SortedUnique(a[1..], b[1..]);
      assert a == [a[0]] + a[1..] && b == [b[0]] + b[1..];
    }
  }

  /** Two nonempty ascending permutations of the same lines start with the
      same line, and what follows is again a permutation. */
  lemma SameHeads(a: seq<string>, b: seq<string>)
    requires Sorted(a) && Sorted(b) && a != []
    requires multiset(a) == multiset(b)
    ensures b != [] && a[0] == b[0]
    ensures multiset(a[1..]) == multiset(b[1..])
  {
    assert a[0] in multiset(b);
    assert b[0] in multiset(a);
    HeadIsLeast(a, b[0]);
    HeadIsLeast(b, a[0]);
    LessEqAntisymmetric(a[0], b[0]);
    DropHead(a);
    DropHead(b);
  }

  lemma DropHead(a: seq<string>)
    requires a != []
    ensures multiset(a[1..]) == multiset(a) - multiset{a[0]}
  {
    assert a == [a[0]] + a[1..];
  }
}
