/** Filtering and growth of sequences. */
module Sequences {

  /** The elements of `xs` that satisfy `p`, in order. */
  function Keep<T>(p: T -> bool, xs: seq<T>): seq<T>
  {
    if xs == [] then []
    else Keep(p, xs[..|xs| - 1]) + (if p(xs[|xs| - 1]) then [xs[|xs| - 1]] else [])
  }

  lemma {:induction false} KeepAppend<T>(p: T -> bool, xs: seq<T>, ys: seq<T>)
    ensures Keep(p, xs + ys) == Keep(p, xs) + Keep(p, ys)
  {
    if ys == [] {
      assert xs + ys == xs;
    } else {
      var init := ys[..|ys| - 1];
      KeepAppend(p, xs, init);
      assert (xs + ys)[..|xs + ys| - 1] == xs + init;
    }
  }

  lemma {:induction false} KeepAgrees<T>(p: T -> bool, q: T -> bool, xs: seq<T>)
    requires forall i | 0 <= i < |xs| :: p(xs[i]) == q(xs[i])
    ensures Keep(p, xs) == Keep(q, xs)
  {
    if xs != [] { KeepAgrees(p, q, xs[..|xs| - 1]); }
  }

  lemma {:induction false} KeepAll<T>(p: T -> bool, xs: seq<T>)
    requires forall i | 0 <= i < |xs| :: p(xs[i])
    ensures Keep(p, xs) == xs
  {
    if xs != [] {
      KeepAll(p, xs[..|xs| - 1]);
      assert xs == xs[..|xs| - 1] + [xs[|xs| - 1]];
    }
  }

  lemma {:induction false} KeepNone<T>(p: T -> bool, xs: seq<T>)
    requires forall i | 0 <= i < |xs| :: !p(xs[i])
    ensures Keep(p, xs) == []
  {
    if xs != [] { KeepNone(p, xs[..|xs| - 1]); }
  }

  lemma {:induction false} KeepMembers<T>(p: T -> bool, xs: seq<T>, x: T)
    ensures x in Keep(p, xs) <==> x in xs && p(x)
  {
    if xs != [] {
      KeepMembers(p, xs[..|xs| - 1], x);
      assert xs == xs[..|xs| - 1] + [xs[|xs| - 1]];
    }
  }

  /** `after` continues `before` with elements that fail `past`. */
  ghost predicate Grows<T>(past: T -> bool, before: seq<T>, after: seq<T>)
  {
    && |before| <= |after| && after[..|before|] == before
    && forall i | |before| <= i < |after| :: !past(after[i])
  }

  /** What a growing sequence holds of its past never changes. */
  lemma KeepOfGrown<T>(past: T -> bool, p: T -> bool, before: seq<T>, after: seq<T>)
    requires Grows(past, before, after)
    requires forall i | 0 <= i < |after| && p(after[i]) :: past(after[i])
    ensures Keep(p, after) == Keep(p, before)
  {
    var more := after[|before|..];
    assert after == before + more;
    KeepAppend(p, before, more);
    forall i | 0 <= i < |more| ensures !p(more[i]) {
      assert more[i] == after[|before| + i];
    }
    KeepNone(p, more);
  }

  /** `part` is what `whole` holds at the positions `at`, in order. */
  ghost predicate Picked<T>(part: seq<T>, whole: seq<T>, at: seq<nat>)
  {
    && |at| == |part|
    && (forall i | 0 <= i < |at| :: at[i] < |whole| && part[i] == whole[at[i]])
    && (forall i, j | 0 <= i < j < |at| :: at[i] < at[j])
  }

  lemma PickedFromLonger<T>(part: seq<T>, whole: seq<T>, at: seq<nat>)
    requires whole != [] && Picked(part, whole[..|whole| - 1], at)
    ensures Picked(part, whole, at)
    ensures Picked(part + [whole[|whole| - 1]], whole, at + [|whole| - 1])
    ensures forall i | 0 <= i < |at| :: at[i] < |whole| - 1
  {
  }

  /** `at` holds exactly the positions below `n` whose elements satisfy `p`. */
  ghost predicate Positions<T>(p: T -> bool, xs: seq<T>, n: nat, at: seq<nat>)
    requires n <= |xs|
  {
    (forall k | 0 <= k < |at| :: at[k] < n) && forall i: nat | i < n :: i in at <==> p(xs[i])
  }

  lemma NextPosition<T>(p: T -> bool, xs: seq<T>, n: nat, at: seq<nat>)
    requires n < |xs| && Positions(p, xs, n, at)
    ensures Positions(p, xs, n + 1, if p(xs[n]) then at + [n] else at)
  {
    assert n !in at;
  }

  lemma PositionsInLonger<T>(p: T -> bool, xs: seq<T>, n: nat, at: seq<nat>)
    requires n <= |xs| && Positions(p, xs[..n], n, at)
    ensures Positions(p, xs, n, at)
  {
    assert forall i: nat | i < n :: xs[..n][i] == xs[i];
  }

  lemma {:induction false} KeepAtPositions<T>(p: T -> bool, xs: seq<T>) returns (at: seq<nat>)
    ensures Picked(Keep(p, xs), xs, at) && Positions(p, xs, |xs|, at)
  {
    if xs == [] {
      at := [];
    } else {
      hide Picked, Positions;
      var n := |xs| - 1;
      var init := KeepAtPositions(p, xs[..n]);
      PickedFromLonger(Keep(p, xs[..n]), xs, init);
      PositionsInLonger(p, xs, n, init);
      NextPosition(p, xs, n, init);
      at := if p(xs[n]) then init + [n] else init;
      if !p(xs[n]) { assert Keep(p, xs) == Keep(p, xs[..n]); }
    }
  }

  /** Filtering keeps exactly the positions whose elements satisfy `p`. */
  lemma KeepPicks<T>(p: T -> bool, xs: seq<T>) returns (at: seq<nat>)
    ensures Picked(Keep(p, xs), xs, at)
    ensures forall i: nat | i < |xs| :: i in at <==> p(xs[i])
  {
    at := KeepAtPositions(p, xs);
  }

  /** A text without colons is found again in front of a colon. */
  lemma SplitAtColon(a: string, x: string, b: string, y: string)
    requires ':' !in a && ':' !in b && a + ":" + x == b + ":" + y
    ensures a == b && x == y
  {
    var s, t := a + ":" + x, b + ":" + y;
    assert s[|a|] == ':' && t[|b|] == ':';
    assert forall k | 0 <= k < |a| :: s[k] == a[k] != ':';
    assert forall k | 0 <= k < |b| :: t[k] == b[k] != ':';
    assert |a| == |b|;
    assert s[..|a|] == a && t[..|b|] == b && s[|a| + 1..] == x && t[|b| + 1..] == y;
  }
}
