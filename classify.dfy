/** `filter_bases`: splits the bases of a snapshot into ours, other
    players' and unclaimed ones, each list in input order. */
module Classify {
  import opened Models

  datatype Side = Ours | Other | Empty

  /** Where `filter_bases` puts one base. The ownership test runs first,
      so when the acting player is 0 an unclaimed base counts as ours. */
  function SideOf(b: Base, ourPlayer: nat): (s: Side)
    ensures s == Ours <==> b.player == ourPlayer
    ensures s == Empty <==> b.player == 0 && b.player != ourPlayer
    ensures s == Other <==> b.player != 0 && b.player != ourPlayer
  {
    if b.player == ourPlayer then Ours
    else if b.player == 0 then Empty
    else Other
  }

  /** The bases of `bases` that land on `side`, in input order. */
  function Select(bases: seq<Base>, ourPlayer: nat, side: Side): (r: seq<Base>)
    ensures |r| <= |bases|
    ensures forall i :: 0 <= i < |r| ==> SideOf(r[i], ourPlayer) == side
  {
    if bases == [] then []
    else
      var last := bases[|bases| - 1];
      Select(bases[..|bases| - 1], ourPlayer, side) + (if SideOf(last, ourPlayer) == side then [last] else [])
  }

  /** The loop of `filter_bases`: one pass, pushing each base onto its list. */
  method FilterBases(bases: seq<Base>, ourPlayer: nat) returns (ours: seq<Base>, other: seq<Base>, empty: seq<Base>)
    ensures ours == Select(bases, ourPlayer, Ours)
    ensures other == Select(bases, ourPlayer, Other)
    ensures empty == Select(bases, ourPlayer, Empty)
    ensures multiset(ours) + multiset(other) + multiset(empty) == multiset(bases)
  {
    ours, other, empty := [], [], [];
    var i := 0;
    while i < |bases|
      invariant 0 <= i <= |bases|
      invariant ours == Select(bases[..i], ourPlayer, Ours)
      invariant other == Select(bases[..i], ourPlayer, Other)
      invariant empty == Select(bases[..i], ourPlayer, Empty)
    {
      var base := bases[i];
      assert bases[..i + 1][..i] == bases[..i];
      if base.player == ourPlayer {
        ours := ours + [base];
      } else if base.player == 0 {
        empty := empty + [base];
      } else {
        other := other + [base];
      }
      i := i + 1;
    }
    assert bases[..i] == bases;
    SelectPartition(bases, ourPlayer);
  }

  /** Every base lands in exactly one of the three lists. */
  lemma {:induction false} SelectPartition(bases: seq<Base>, ourPlayer: nat)
    ensures multiset(Select(bases, ourPlayer, Ours)) + multiset(Select(bases, ourPlayer, Other))
            + multiset(Select(bases, ourPlayer, Empty)) == multiset(bases)
    ensures |Select(bases, ourPlayer, Ours)| + |Select(bases, ourPlayer, Other)|
            + |Select(bases, ourPlayer, Empty)| == |bases|
  {
    if bases != [] {
      var init, last := bases[..|bases| - 1], bases[|bases| - 1];
      SelectPartition(init, ourPlayer);
      var o, t, e := Select(init, ourPlayer, Ours), Select(init, ourPlayer, Other), Select(init, ourPlayer, Empty);
      var o', t', e' := Select(bases, ourPlayer, Ours), Select(bases, ourPlayer, Other), Select(bases, ourPlayer, Empty);
      match SideOf(last, ourPlayer)
      case Ours =>
        assert o' == o + [last] && t' == t && e' == e;
        MultisetStep(o, t, e, init, last, bases);
      case Other =>
        assert o' == o && t' == t + [last] && e' == e;
        MultisetStep(t, o, e, init, last, bases);
      case Empty =>
        assert o' == o && t' == t && e' == e + [last];
        MultisetStep(e, o, t, init, last, bases);
    }
  }

  /** Adding `x` to one part of a three-way split of `init` splits `whole == init + [x]`. */
  lemma MultisetStep(a: seq<Base>, b: seq<Base>, c: seq<Base>, init: seq<Base>, x: Base, whole: seq<Base>)
    requires multiset(a) + multiset(b) + multiset(c) == multiset(init)
    requires |whole| > 0 && init == whole[..|whole| - 1] && x == whole[|whole| - 1]
    ensures multiset(a + [x]) + multiset(b) + multiset(c) == multiset(whole)
    ensures multiset(b) + multiset(a + [x]) + multiset(c) == multiset(whole)
    ensures multiset(b) + multiset(c) + multiset(a + [x]) == multiset(whole)
    ensures |a + [x]| + |b| + |c| == |whole|
  {
    assert whole == init + [x];
    assert |multiset(init)| == |init|;
  }

  /** A base is in a list exactly when it is in the input and belongs on that side. */
  lemma {:induction false} SelectMembership(bases: seq<Base>, ourPlayer: nat, side: Side, b: Base)
    ensures b in Select(bases, ourPlayer, side) <==> b in bases && SideOf(b, ourPlayer) == side
  {
    if bases != [] {
      var init := bases[..|bases| - 1];
      SelectMembership(init, ourPlayer, side, b);
      assert bases == init + [bases[|bases| - 1]];
    }
  }

  /** Selecting from a concatenation concatenates the selections: each list
      keeps the bases in their input order. */
  lemma {:induction false} SelectAppend(a: seq<Base>, b: seq<Base>, ourPlayer: nat, side: Side)
    ensures Select(a + b, ourPlayer, side) == Select(a, ourPlayer, side) + Select(b, ourPlayer, side)
    decreases |b|
  {
    if b == [] {
      assert a + b == a;
    } else {
      var initB := b[..|b| - 1];
      assert (a + b)[..|a + b| - 1] == a + initB;
      SelectAppend(a, initB, ourPlayer, side);
    }
  }

  /** The three lists are pairwise disjoint. */
  lemma SelectDisjoint(bases: seq<Base>, ourPlayer: nat, s1: Side, s2: Side, b: Base)
    requires s1 != s2
    ensures !(b in Select(bases, ourPlayer, s1) && b in Select(bases, ourPlayer, s2))
  {
    SelectMembership(bases, ourPlayer, s1, b);
    SelectMembership(bases, ourPlayer, s2, b);
  }

  /** With acting player 0, no base is classified as unclaimed. */
  lemma {:induction false} PlayerZeroHasNoEmpty(bases: seq<Base>)
    ensures Select(bases, 0, Empty) == []
  {
    if bases != [] {
      PlayerZeroHasNoEmpty(bases[..|bases| - 1]);
    }
  }
}
