/** Failure-carrying wrappers and facts about collections shared by the modules of the model. */
module Common {

  datatype Option<+T> = None | Some(value: T)

  /** The outcome of an operation that the source ends either with a value or by raising. */
  datatype Result<+T, +E> = Ok(value: T) | Err(error: E)

  /** `set(s)` */
  function SetOf<T(==)>(s: seq<T>): set<T> {
    set x | x in s
  }

  predicate Distinct<T(==)>(s: seq<T>) {
    forall i, j :: 0 <= i < j < |s| ==> s[i] != s[j]
  }

  /** Python's `len(set(xs)) != len(xs)` test for repeats means exactly "two positions hold
      the same value". */
  lemma {:induction false} SetSizeDistinct<T>(s: seq<T>)
    ensures |SetOf(s)| <= |s|
    ensures |SetOf(s)| == |s| <==> Distinct(s)
    decreases |s|
  {
    if s != [] {
      var t := s[1..];
      SetSizeDistinct(t);
      assert SetOf(s) == {s[0]} + SetOf(t) by {
        forall x ensures x in SetOf(s) <==> x in {s[0]} + SetOf(t) {
          if x in s && x != s[0] {
            var i :| 0 <= i < |s| && s[i] == x;
            assert t[i - 1] == x;
          }
        }
      }
      if s[0] in t {
        assert SetOf(s) == SetOf(t);
        var j :| 0 <= j < |t| && t[j] == s[0];
        assert s[0] == s[j + 1];
      } else {
        assert |SetOf(s)| == 1 + |SetOf(t)|;
        if Distinct(t) {
          forall i, j | 0 <= i < j < |s| ensures s[i] != s[j] {
            if i > 0 {
              assert s[i] == t[i - 1] && s[j] == t[j - 1];
            } else {
              assert s[j] == t[j - 1];
            }
          }
        } else {
          var i, j :| 0 <= i < j < |t| && t[i] == t[j];
          assert s[i + 1] == s[j + 1];
        }
      }
    }
  }

  /** A distinct list extended by a value it does not hold stays distinct. */
  lemma DistinctSnoc<T>(before: seq<T>, after: seq<T>, x: T)
    requires Distinct(before) && x !in before
    requires |after| == |before| + 1 && after[..|before|] == before && after[|before|] == x
    ensures Distinct(after)
  {
    forall i, j | 0 <= i < j < |after|
      ensures after[i] != after[j]
    {
      assert after[i] == before[i];
      if j < |before| {
        assert after[j] == before[j];
      }
    }
  }

  /** The prefix of a list's full length is the list. */
  lemma TakeAll<T>(s: seq<T>)
    ensures s[..|s|] == s
  {
  }

  /** A prefix of a prefix is a prefix. */
  lemma PrefixOfPrefix<T>(u: seq<T>, b: seq<T>, j: nat)
    requires |b| <= |u| && u[..|b|] == b && j <= |b|
    ensures u[..j] == b[..j]
  {
    assert u[..j] == u[..|b|][..j];
  }

  /** The concatenation of `f(x)` over the elements `x` of `xs`, in order. */
  function FlatMap<A, T>(xs: seq<A>, f: A -> seq<T>): seq<T>
    decreases |xs|
  {
    if xs == [] then [] else f(xs[0]) + FlatMap(xs[1..], f)
  }

  /** Pieces of a fixed width `w` make `w` elements per element of `xs`. */
  lemma {:induction false} FlatMapLength<A, T>(xs: seq<A>, f: A -> seq<T>, w: nat)
    requires forall x :: |f(x)| == w
    ensures |FlatMap(xs, f)| == w * |xs|
    decreases |xs|
  {
    if xs != [] {
      FlatMapLength(xs[1..], f, w);
    }
  }

  /** With four elements per piece, element `4 * i + k` is element `k` of piece `i`. */
  lemma {:induction false} FlatMapAt<A, T>(xs: seq<A>, f: A -> seq<T>, i: nat, k: nat)
    requires forall x :: |f(x)| == 4
    requires i < |xs| && k < 4
    ensures |FlatMap(xs, f)| == 4 * |xs| && FlatMap(xs, f)[4 * i + k] == f(xs[i])[k]
    decreases i
  {
    FlatMapLength(xs, f, 4);
    var head, rest := f(xs[0]), FlatMap(xs[1..], f);
    assert FlatMap(xs, f) == head + rest;
    if i > 0 {
      FlatMapAt(xs[1..], f, i - 1, k);
      assert xs[1..][i - 1] == xs[i];
      assert (head + rest)[4 * i + k] == rest[4 * (i - 1) + k];
    }
  }

  /** One more element appends its piece. */
  lemma {:induction false} FlatMapSnoc<A, T>(xs: seq<A>, x: A, f: A -> seq<T>)
    ensures FlatMap(xs + [x], f) == FlatMap(xs, f) + f(x)
    decreases |xs|
  {
    if xs != [] {
      assert (xs + [x])[1..] == xs[1..] + [x];
      FlatMapSnoc(xs[1..], x, f);
      AppendAssoc(f(xs[0]), FlatMap(xs[1..], f), f(x));
    } else {
      assert [x][1..] == [];
    }
  }

  /** Sequences with the same head and the same tail are equal. */
  lemma HeadTail<T>(a: seq<T>, b: seq<T>)
    requires a != [] && b != [] && a[0] == b[0] && a[1..] == b[1..]
    ensures a == b
  {
    assert a == [a[0]] + a[1..];
    assert b == [b[0]] + b[1..];
  }

  /** Concatenation is associative. */
  lemma AppendAssoc<T>(a: seq<T>, b: seq<T>, c: seq<T>)
    ensures (a + b) + c == a + (b + c)
  {
  }

  /** A subset is no larger than its superset. */
  lemma {:induction false} SubsetSize<T>(a: set<T>, b: set<T>)
    requires a <= b
    ensures |a| <= |b|
    decreases |a|
  {
    if a != {} {
      var x :| x in a;
      SubsetSize(a - {x}, b - {x});
    }
  }
}
