/** lodash `uniq`: the list without repeats, each value kept at its
    first occurrence, in the original order. */
module UniqList {
  import opened Common

  /** Defined from the end: the last element is kept exactly when it does
      not already occur before it. */
  function Uniq<T(==)>(xs: seq<T>): (r: seq<T>)
    ensures NoDup(r)
    ensures forall i :: 0 <= i < |r| ==> r[i] in xs
    ensures forall i :: 0 <= i < |xs| ==> xs[i] in r
    ensures |r| <= |xs|
  {
    if xs == [] then []
    else
      var init := xs[..|xs| - 1];
      var last := xs[|xs| - 1];
      var u := Uniq(init);
      assert forall i :: 0 <= i < |init| ==> init[i] == xs[i];
      if last in init then u else u + [last]
  }

  /** A list without repeats is its own `uniq`. */
  lemma {:induction false} UniqOfNoDup<T>(xs: seq<T>)
    requires NoDup(xs)
    ensures Uniq(xs) == xs
  {
    if xs != [] {
      var init := xs[..|xs| - 1];
      assert NoDup(init);
      UniqOfNoDup(init);
      assert xs[|xs| - 1] !in init;
      assert init + [xs[|xs| - 1]] == xs;
    }
  }

  /** `uniq` is idempotent. */
  lemma UniqIdempotent<T>(xs: seq<T>)
    ensures Uniq(Uniq(xs)) == Uniq(xs)
  {
    UniqOfNoDup(Uniq(xs));
  }

  /** Appending values can only add to the end: the `uniq` of a list is a
      prefix of the `uniq` of any extension of it. */
  lemma {:induction false} UniqPrefix<T>(a: seq<T>, b: seq<T>)
    ensures Uniq(a) <= Uniq(a + b)
    decreases |b|
  {
    if b != [] {
      var b' := b[..|b| - 1];
      UniqPrefix(a, b');
      assert (a + b)[..|a + b| - 1] == a + b';
    } else {
      assert a + b == a;
    }
  }

  /** Appending values that already occur changes nothing. */
  lemma {:induction false} UniqAbsorbs<T>(a: seq<T>, b: seq<T>)
    requires forall i :: 0 <= i < |b| ==> b[i] in a
    ensures Uniq(a + b) == Uniq(a)
    decreases |b|
  {
    if b != [] {
      var b' := b[..|b| - 1];
      UniqAbsorbs(a, b');
      assert (a + b)[..|a + b| - 1] == a + b';
      assert b[|b| - 1] in a + b';
    } else {
      assert a + b == a;
    }
  }

  /** The first value survives and comes first. */
  lemma {:induction false} UniqHead<T>(xs: seq<T>)
    requires xs != []
    ensures Uniq(xs) != [] && Uniq(xs)[0] == xs[0]
  {
    UniqPrefix([xs[0]], xs[1..]);
    assert [xs[0]] + xs[1..] == xs;
    assert Uniq([xs[0]]) == [xs[0]] by {
      assert [xs[0]][..0] == [];
    }
  }

  /** Merging the same values twice equals merging them once. */
  lemma MergeIdempotent<T>(a: seq<T>, b: seq<T>)
    ensures Uniq(Uniq(a + b) + b) == Uniq(a + b)
  {
    var u := Uniq(a + b);
    forall i | 0 <= i < |b|
      ensures b[i] in u
    {
      assert b[i] == (a + b)[|a| + i];
    }
    UniqAbsorbs(u, b);
    UniqIdempotent(a + b);
  }
}
