/** Sorting by a comparison, and why the sorted arrangement of a bag is unique. */
module Sorting {

  ghost predicate Sorted<T>(s: seq<T>, leq: (T, T) -> bool) {
    forall i, j :: 0 <= i < j < |s| ==> leq(s[i], s[j])
  }

  /** `leq` compares any two values, transitively. */
  ghost predicate Compares<T(!new)>(leq: (T, T) -> bool) {
    && (forall x, y :: leq(x, y) || leq(y, x))
    && (forall x, y, z :: leq(x, y) && leq(y, z) ==> leq(x, z))
  }

  /** Elements of `s` that compare both ways are the same. */
  ghost predicate Separates<T>(s: seq<T>, leq: (T, T) -> bool) {
    forall x, y :: x in s && y in s && leq(x, y) && leq(y, x) ==> x == y
  }

  function Insert<T>(x: T, s: seq<T>, leq: (T, T) -> bool): (r: seq<T>)
    ensures multiset(r) == multiset{x} + multiset(s)
  {
    if s == [] then [x]
    else if leq(x, s[0]) then [x] + s
    else
      assert s == [s[0]] + s[1..];
      [s[0]] + Insert(x, s[1..], leq)
  }

  /** A stable sort. */
  function Sort<T>(s: seq<T>, leq: (T, T) -> bool): (r: seq<T>)
    ensures multiset(r) == multiset(s)
    ensures |r| == |s|
  {
    if s == [] then []
    else
      assert s == [s[0]] + s[1..];
      var r := Insert(s[0], Sort(s[1..], leq), leq);
      assert |multiset(r)| == |r| && |multiset(s)| == |s|;
      r
  }

  // ----- sorting something that stands for something else

  function Image<A, B>(s: seq<A>, f: A -> B): (r: seq<B>)
    ensures |r| == |s| && forall i :: 0 <= i < |s| ==> r[i] == f(s[i])
  {
    seq(|s|, i requires 0 <= i < |s| => f(s[i]))
  }

  lemma {:induction false} ImageCons<A, B>(x: A, s: seq<A>, f: A -> B)
    ensures Image([x] + s, f) == [f(x)] + Image(s, f)
  {
  }

  /** Among proper elements `f` turns the one comparison into the other. */
  ghost predicate Mirrors<A(!new), B>(proper: A -> bool, f: A -> B, leqA: (A, A) -> bool, leqB: (B, B) -> bool) {
    forall x, y :: proper(x) && proper(y) ==> leqA(x, y) == leqB(f(x), f(y))
  }

  predicate All<A>(s: seq<A>, proper: A -> bool) {
    forall i :: 0 <= i < |s| ==> proper(s[i])
  }

  lemma {:induction false} InsertKeepsAll<A>(x: A, s: seq<A>, leq: (A, A) -> bool, proper: A -> bool)
    requires proper(x) && All(s, proper)
    ensures All(Insert(x, s, leq), proper)
  {
    if s != [] && !leq(x, s[0]) {
      InsertKeepsAll(x, s[1..], leq, proper);
    }
  }

  lemma {:induction false} SortKeepsAll<A>(s: seq<A>, leq: (A, A) -> bool, proper: A -> bool)
    requires All(s, proper)
    ensures All(Sort(s, leq), proper)
  {
    if s != [] {
      SortKeepsAll(s[1..], leq, proper);
      InsertKeepsAll(s[0], Sort(s[1..], leq), leq, proper);
    }
  }

  lemma {:induction false} ImageRest<A, B>(s: seq<A>, f: A -> B)
    requires s != []
    ensures Image(s, f)[0] == f(s[0]) && Image(s, f)[1..] == Image(s[1..], f)
  {
  }

  lemma {:induction false} InsertMapped<A(!new), B>(
    x: A, s: seq<A>, proper: A -> bool, f: A -> B, leqA: (A, A) -> bool, leqB: (B, B) -> bool)
    requires Mirrors(proper, f, leqA, leqB) && proper(x) && All(s, proper)
    ensures Image(Insert(x, s, leqA), f) == Insert(f(x), Image(s, f), leqB)
  {
    if s == [] {
      ImageCons(x, [], f);
      assert [x] + [] == [x];
    } else {
      ImageRest(s, f);
      if leqA(x, s[0]) {
        ImageCons(x, s, f);
      } else {
        InsertMapped(x, s[1..], proper, f, leqA, leqB);
        ImageCons(s[0], Insert(x, s[1..], leqA), f);
      }
    }
  }

  /** Sorting commutes with a map that keeps the comparison. */
  lemma {:induction false} SortMapped<A(!new), B>(
    s: seq<A>, proper: A -> bool, f: A -> B, leqA: (A, A) -> bool, leqB: (B, B) -> bool)
    requires Mirrors(proper, f, leqA, leqB) && All(s, proper)
    ensures Image(Sort(s, leqA), f) == Sort(Image(s, f), leqB)
  {
    if s != [] {
      SortMapped(s[1..], proper, f, leqA, leqB);
      SortKeepsAll(s[1..], leqA, proper);
      InsertMapped(s[0], Sort(s[1..], leqA), proper, f, leqA, leqB);
      ImageRest(s, f);
    }
  }

  lemma SameElements<T>(a: seq<T>, b: seq<T>)
    requires multiset(a) == multiset(b)
    ensures |a| == |b| && forall x :: x in a <==> x in b
  {
    assert |multiset(a)| == |a| && |multiset(b)| == |b|;
    assert forall x :: x in a <==> x in multiset(a);
    assert forall x :: x in b <==> x in multiset(b);
  }

  lemma {:induction false} InsertSorts<T(!new)>(x: T, s: seq<T>, leq: (T, T) -> bool)
    requires Sorted(s, leq) && Compares(leq)
    ensures Sorted(Insert(x, s, leq), leq)
  {
    if s != [] && !leq(x, s[0]) {
      var r := Insert(x, s[1..], leq);
      InsertSorts(x, s[1..], leq);
      BelowInserted(s[0], x, s[1..], leq);
      ConsSorts(s[0], r, leq);
    } else {
      ConsSorts(x, s, leq);
    }
  }

  lemma {:induction false} BelowInserted<T(!new)>(low: T, x: T, s: seq<T>, leq: (T, T) -> bool)
    requires leq(low, x) && forall i :: 0 <= i < |s| ==> leq(low, s[i])
    ensures forall i :: 0 <= i < |Insert(x, s, leq)| ==> leq(low, Insert(x, s, leq)[i])
  {
    if s != [] && !leq(x, s[0]) {
      BelowInserted(low, x, s[1..], leq);
    }
  }

  lemma {:induction false} ConsSorts<T(!new)>(x: T, s: seq<T>, leq: (T, T) -> bool)
    requires Sorted(s, leq) && Compares(leq) && (s != [] ==> leq(x, s[0]))
    ensures Sorted([x] + s, leq)
  {
    forall i | 0 <= i < |s|
      ensures leq(x, s[i])
    {
      assert i > 0 ==> leq(s[0], s[i]);
    }
  }

  lemma {:induction false} SortSorts<T(!new)>(s: seq<T>, leq: (T, T) -> bool)
    requires Compares(leq)
    ensures Sorted(Sort(s, leq), leq)
  {
    if s != [] {
      SortSorts(s[1..], leq);
      InsertSorts(s[0], Sort(s[1..], leq), leq);
    }
  }

  lemma {:induction false} HeadsAgree<T>(a: seq<T>, b: seq<T>, leq: (T, T) -> bool)
    requires Sorted(a, leq) && Sorted(b, leq) && multiset(a) == multiset(b) && a != [] && b != []
    requires Separates(a, leq)
    ensures a[0] == b[0]
  {
    SameElements(a, b);
    assert a[0] in b && b[0] in a;
  }

  lemma {:induction false} TailBag<T>(a: seq<T>)
    requires a != []
    ensures multiset(a[1..]) == multiset(a) - multiset{a[0]}
  {
    assert a == [a[0]] + a[1..];
  }

  /** One bag has one sorted arrangement. */
  lemma {:induction false} SortedUnique<T>(a: seq<T>, b: seq<T>, leq: (T, T) -> bool)
    requires Sorted(a, leq) && Sorted(b, leq) && multiset(a) == multiset(b)
    requires Separates(a, leq)
    ensures a == b
  {
    SameElements(a, b);
    if a != [] {
      HeadsAgree(a, b, leq);
      TailBag(a);
      TailBag(b);
      SortedUnique(a[1..], b[1..], leq);
      assert a == [a[0]] + a[1..] && b == [b[0]] + b[1..];
    }
  }

  lemma SortOfBag<T(!new)>(a: seq<T>, b: seq<T>, leq: (T, T) -> bool)
    requires multiset(a) == multiset(b) && Compares(leq) && Separates(a, leq)
    ensures Sort(a, leq) == Sort(b, leq)
  {
    SortSorts(a, leq);
    SortSorts(b, leq);
    SeparatesPermuted(a, Sort(a, leq), leq);
    SortedUnique(Sort(a, leq), Sort(b, leq), leq);
  }

  lemma SeparatesPermuted<T>(a: seq<T>, b: seq<T>, leq: (T, T) -> bool)
    requires multiset(a) == multiset(b) && Separates(a, leq)
    ensures Separates(b, leq)
  {
    SameElements(a, b);
    forall x, y | x in b && y in b && leq(x, y) && leq(y, x)
      ensures x == y
    {
      assert x in a && y in a;
    }
  }

  // ----- strings in dictionary order

  predicate LexLeq(a: string, b: string) {
    a == "" || (b != "" && (a[0] < b[0] || (a[0] == b[0] && LexLeq(a[1..], b[1..]))))
  }

  lemma LexTotal(a: string, b: string)
    ensures LexLeq(a, b) || LexLeq(b, a)
  {
  }

  lemma {:induction false} LexAntisymmetric(a: string, b: string)
    requires LexLeq(a, b) && LexLeq(b, a)
    ensures a == b
  {
    if a != "" {
      LexAntisymmetric(a[1..], b[1..]);
      assert a == [a[0]] + a[1..] && b == [b[0]] + b[1..];
    }
  }

  lemma {:induction false} LexTransitive(a: string, b: string, c: string)
    requires LexLeq(a, b) && LexLeq(b, c)
    ensures LexLeq(a, c)
  {
    if a != "" && a[0] == b[0] == c[0] {
      LexTransitive(a[1..], b[1..], c[1..]);
    }
  }
}
