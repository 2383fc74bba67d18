/** The order of strings by their characters, and stable sorting by a string key. */
module Order {

  /** Whether `a` comes before `b`, character by character. */
  predicate Less(a: string, b: string)
  {
    b != "" && (a == "" || a[0] < b[0] || (a[0] == b[0] && Less(a[1..], b[1..])))
  }

  lemma {:induction false} LessIsIrreflexive(a: string)
    ensures !Less(a, a)
  {
    if a != "" { LessIsIrreflexive(a[1..]); }
  }

  lemma {:induction false} LessIsTransitive(a: string, b: string, c: string)
    requires Less(a, b) && Less(b, c)
    ensures Less(a, c)
  {
    if a != "" && a[0] == b[0] == c[0] { LessIsTransitive(a[1..], b[1..], c[1..]); }
  }

  lemma {:induction false} LessIsTotal(a: string, b: string)
    ensures Less(a, b) || a == b || Less(b, a)
  {
    if a != "" && b != "" && a[0] == b[0] {
      LessIsTotal(a[1..], b[1..]);
      if a[1..] == b[1..] { assert a == [a[0]] + a[1..] == b; }
    }
  }

  lemma LessIsAsymmetric(a: string, b: string)
    requires Less(a, b)
    ensures !Less(b, a)
  {
    if Less(b, a) {
      LessIsTransitive(a, b, a);
      LessIsIrreflexive(a);
    }
  }

  // --- Sorting ---------------------------------------------------------------------------------

  ghost predicate Sorted<T>(key: T -> string, xs: seq<T>)
  {
    forall i, j | 0 <= i < j < |xs| :: !Less(key(xs[j]), key(xs[i]))
  }

  ghost predicate DistinctKeys<T>(key: T -> string, xs: seq<T>)
  {
    forall i, j | 0 <= i < j < |xs| :: key(xs[i]) != key(xs[j])
  }

  function Insert<T>(key: T -> string, x: T, xs: seq<T>): seq<T>
  {
    if xs == [] then [x]
    else if Less(key(xs[0]), key(x)) then [xs[0]] + Insert(key, x, xs[1..])
    else [x] + xs
  }

  /** The stable sort of a sequence by a key. */
  function Sort<T>(key: T -> string, xs: seq<T>): seq<T>
  {
    if xs == [] then [] else Insert(key, xs[0], Sort(key, xs[1..]))
  }

  lemma AfterTheLeast<T>(key: T -> string, x: T, xs: seq<T>, j: nat)
    requires Sorted(key, xs) && j < |xs| && !Less(key(xs[0]), key(x))
    ensures !Less(key(xs[j]), key(x))
  {
    if Less(key(xs[j]), key(x)) {
      LessIsTotal(key(xs[j]), key(xs[0]));
      if Less(key(xs[0]), key(xs[j])) { LessIsTransitive(key(xs[0]), key(xs[j]), key(x)); }
    }
  }

  lemma {:induction false} InsertKeepsSorted<T>(key: T -> string, x: T, xs: seq<T>)
    requires Sorted(key, xs)
    ensures Sorted(key, Insert(key, x, xs))
    ensures multiset(Insert(key, x, xs)) == multiset(xs) + multiset{x}
  {
    if xs != [] {
      assert xs == [xs[0]] + xs[1..];
      if Less(key(xs[0]), key(x)) {
        InsertKeepsSorted(key, x, xs[1..]);
        var rest := Insert(key, x, xs[1..]);
        LessIsAsymmetric(key(xs[0]), key(x));
        forall j | 0 <= j < |rest| ensures !Less(key(rest[j]), key(xs[0])) {
          assert rest[j] in multiset(rest);
          assert rest[j] == x || rest[j] in xs[1..];
        }
      } else {
        forall j | 0 <= j < |xs| ensures !Less(key(xs[j]), key(x)) {
          AfterTheLeast(key, x, xs, j);
        }
      }
    }
  }

  lemma {:induction false} SortSorts<T>(key: T -> string, xs: seq<T>)
    ensures Sorted(key, Sort(key, xs))
    ensures multiset(Sort(key, xs)) == multiset(xs)
  {
    if xs != [] {
      SortSorts(key, xs[1..]);
      InsertKeepsSorted(key, xs[0], Sort(key, xs[1..]));
      assert xs == [xs[0]] + xs[1..];
    }
  }

  lemma SameLeast<T>(key: T -> string, xs: seq<T>, ys: seq<T>)
    requires xs != [] && ys != [] && DistinctKeys(key, xs)
    requires Sorted(key, xs) && Sorted(key, ys) && multiset(xs) == multiset(ys)
    ensures xs[0] == ys[0]
  {
    assert xs[0] in multiset(ys) && ys[0] in multiset(xs);
    var j :| 0 <= j < |ys| && ys[j] == xs[0];
    var i :| 0 <= i < |xs| && xs[i] == ys[0];
    LessIsTotal(key(xs[0]), key(ys[0]));
  }

  /** With distinct keys there is only one sorted arrangement, so sorting forgets the input order. */
  lemma {:induction false} SortedArrangementIsUnique<T>(key: T -> string, xs: seq<T>, ys: seq<T>)
    requires Sorted(key, xs) && Sorted(key, ys) && multiset(xs) == multiset(ys) && DistinctKeys(key, xs)
    ensures xs == ys
  {
    assert |multiset(ys)| == |multiset(xs)|;
    if xs != [] {
      SameLeast(key, xs, ys);
      assert xs == [xs[0]] + xs[1..] && ys == [ys[0]] + ys[1..];
      assert multiset(xs[1..]) == multiset(xs) - multiset{xs[0]};
      assert multiset(ys[1..]) == multiset(ys) - multiset{ys[0]};
      SortedArrangementIsUnique(key, xs[1..], ys[1..]);
    }
  }

  lemma {:induction false} InsertKeepsDistinct<T(!new)>(key: T -> string, x: T, xs: seq<T>)
    requires DistinctKeys(key, xs) && forall i | 0 <= i < |xs| :: key(xs[i]) != key(x)
    ensures DistinctKeys(key, Insert(key, x, xs))
    ensures forall y :: y in Insert(key, x, xs) <==> y == x || y in xs
  {
    if xs != [] && Less(key(xs[0]), key(x)) {
      InsertKeepsDistinct(key, x, xs[1..]);
      var rest := Insert(key, x, xs[1..]);
      forall j | 0 <= j < |rest| ensures key(rest[j]) != key(xs[0]) {
        assert rest[j] == x || rest[j] in xs[1..];
      }
      assert xs == [xs[0]] + xs[1..];
    }
  }

  /** Sorting keeps distinct keys distinct and the elements the same. */
  lemma {:induction false} SortKeepsDistinct<T(!new)>(key: T -> string, xs: seq<T>)
    requires DistinctKeys(key, xs)
    ensures DistinctKeys(key, Sort(key, xs))
    ensures forall y :: y in Sort(key, xs) <==> y in xs
  {
    if xs != [] {
      SortKeepsDistinct(key, xs[1..]);
      var rest := Sort(key, xs[1..]);
      forall i | 0 <= i < |rest| ensures key(rest[i]) != key(xs[0]) {
        assert rest[i] in xs[1..];
      }
      InsertKeepsDistinct(key, xs[0], rest);
      assert xs == [xs[0]] + xs[1..];
    }
  }

  lemma TailElements<T(!new)>(key: T -> string, xs: seq<T>)
    requires DistinctKeys(key, xs) && xs != []
    ensures forall x :: x in xs[1..] <==> x in xs && x != xs[0]
  {
    assert xs == [xs[0]] + xs[1..];
  }

  lemma SameFirst<T(!new)>(key: T -> string, xs: seq<T>, ys: seq<T>)
    requires Sorted(key, xs) && DistinctKeys(key, xs) && Sorted(key, ys) && DistinctKeys(key, ys)
    requires xs != [] && ys != [] && forall x :: x in xs <==> x in ys
    ensures xs[0] == ys[0]
  {
    assert xs[0] in ys && ys[0] in xs;
    var j :| 0 <= j < |ys| && ys[j] == xs[0];
    var i :| 0 <= i < |xs| && xs[i] == ys[0];
    LessIsTotal(key(xs[0]), key(ys[0]));
  }

  /** Two sorted sequences with distinct keys and the same elements are the same. */
  lemma {:induction false} SortedSetsAreEqual<T(!new)>(key: T -> string, xs: seq<T>, ys: seq<T>)
    requires Sorted(key, xs) && DistinctKeys(key, xs) && Sorted(key, ys) && DistinctKeys(key, ys)
    requires forall x :: x in xs <==> x in ys
    ensures xs == ys
  {
    if xs == [] {
      assert forall i | 0 <= i < |ys| :: ys[i] in xs;
    } else {
      assert xs[0] in ys;
      SameFirst(key, xs, ys);
      TailElements(key, xs);
      TailElements(key, ys);
      SortedSetsAreEqual(key, xs[1..], ys[1..]);
      assert xs == [xs[0]] + xs[1..] && ys == [ys[0]] + ys[1..];
    }
  }
}
