/**
 The order canonical arrays and objects come out in, said of the values themselves
 (`codex-rs/app-server-protocol/src/schema_fixtures.rs`).
 */
module CanonicalOrder {
  import opened Text
  import opened Json
  import opened JsonText
  import opened Sorting
  import opened Canonical

  // ----- ascending text

  /** Character by character, a prefix coming first. */
  ghost predicate Ascends(a: string, b: string) {
    exists k :: DecidesAt(a, b, k)
  }

  /** The texts agree up to `k`, where the first ends or has the smaller character. */
  predicate DecidesAt(a: string, b: string, k: int) {
    0 <= k <= |a| && k <= |b| && a[..k] == b[..k] && (k == |a| || (k < |b| && a[k] < b[k]))
  }

  lemma {:induction false} LexIsAscending(a: string, b: string)
    ensures LexLeq(a, b) <==> Ascends(a, b)
    decreases |a|
  {
    forall k | DecidesAt(a, b, k) && k > 0 ensures a[0] == b[0] {
      assert a[..k][0] == b[..k][0];
    }
    if a == "" {
      assert DecidesAt(a, b, 0);
    } else if b != "" && a[0] < b[0] {
      assert DecidesAt(a, b, 0);
    } else if b != "" && a[0] == b[0] {
      LexIsAscending(a[1..], b[1..]);
      if k :| DecidesAt(a[1..], b[1..], k) {
        assert a[..k + 1] == [a[0]] + a[1..][..k] && b[..k + 1] == [b[0]] + b[1..][..k];
        assert DecidesAt(a, b, k + 1);
      }
      if k :| DecidesAt(a, b, k) {
        assert a[1..][..k - 1] == a[..k][1..] && b[1..][..k - 1] == b[..k][1..];
        assert DecidesAt(a[1..], b[1..], k - 1);
      }
    }
  }

  lemma {:induction false} LexAfterPrefix(p: string, a: string, b: string)
    ensures LexLeq(p + a, p + b) <==> LexLeq(a, b)
    decreases |p|
  {
    if p == "" {
      assert p + a == a && p + b == b;
    } else {
      assert (p + a)[1..] == p[1..] + a && (p + b)[1..] == p[1..] + b;
      LexAfterPrefix(p[1..], a, b);
    }
  }

  // ----- what arrays are sorted by

  predicate HasString(ms: seq<Member>, key: string) {
    Get(ms, key).Some? && Get(ms, key).value.Str?
  }

  /** Scalars, and objects with a string under `$ref` or `title`. */
  predicate IsSortable(v: Value) {
    match v
    case Arr(_) => false
    case Obj(ms) => HasString(ms, "$ref") || HasString(ms, "title")
    case _ => true
  }

  /** Booleans first, then numbers, nulls, references, strings, and objects with a title. */
  function Rank(v: Value): nat
    requires IsSortable(v)
  {
    match v
    case Bool(_) => 0
    case Number(_) => 1
    case Null => 2
    case Obj(ms) => if HasString(ms, "$ref") then 3 else 5
    case Str(_) => 4
  }

  /** What values of one rank are compared by. */
  function Label(v: Value): string
    requires IsSortable(v)
  {
    match v
    case Bool(b) => if b then "true" else "false"
    case Number(text) => text
    case Null => ""
    case Obj(ms) => if HasString(ms, "$ref") then Get(ms, "$ref").value.s else Get(ms, "title").value.s
    case Str(s) => s
  }

  ghost predicate InOrder(x: Value, y: Value)
    requires IsSortable(x) && IsSortable(y)
  {
    if Rank(x) != Rank(y) then Rank(x) < Rank(y)
    else if Label(x) != Label(y) then Ascends(Label(x), Label(y))
    else Ascends(Print(x), Print(y))
  }

  function Prefix(rank: nat): string {
    if rank == 0 then "b:" else if rank == 1 then "n:" else if rank == 2 then "null"
    else if rank == 3 then "ref:" else if rank == 4 then "s:" else "title:"
  }

  lemma {:induction false} KeyIsPrefixed(v: Value)
    ensures IsSortable(v) <==> SortKey(v).Some?
    ensures IsSortable(v) ==> KeyOf(v) == Prefix(Rank(v)) + Label(v)
  {
  }

  lemma {:induction false} PrefixesAscend(i: nat, j: nat, a: string, b: string)
    requires i < j <= 5
    ensures LexLeq(Prefix(i) + a, Prefix(j) + b) && !LexLeq(Prefix(j) + b, Prefix(i) + a)
  {
    var x, y := Prefix(i) + a, Prefix(j) + b;
    if i == 1 && j == 2 {
      assert x[0] == y[0] && x[1..][0] == ':' && y[1..][0] == 'u';
    } else {
      assert x[0] == Prefix(i)[0] && y[0] == Prefix(j)[0];
    }
  }

  lemma {:induction false} ItemsInOrder(x: Value, y: Value)
    requires IsSortable(x) && IsSortable(y)
    ensures ItemLeq(x, y) <==> InOrder(x, y)
  {
    KeyIsPrefixed(x);
    KeyIsPrefixed(y);
    if Rank(x) < Rank(y) {
      PrefixesAscend(Rank(x), Rank(y), Label(x), Label(y));
    } else if Rank(y) < Rank(x) {
      PrefixesAscend(Rank(y), Rank(x), Label(y), Label(x));
    } else {
      SameRankInOrder(x, y, Prefix(Rank(x)));
    }
  }

  lemma {:induction false} SameRankInOrder(x: Value, y: Value, prefix: string)
    requires IsSortable(x) && IsSortable(y) && Rank(x) == Rank(y)
    requires KeyOf(x) == prefix + Label(x) && KeyOf(y) == prefix + Label(y)
    ensures ItemLeq(x, y) <==> InOrder(x, y)
  {
    LexAfterPrefix(prefix, Label(x), Label(y));
    LexIsAscending(Label(x), Label(y));
    LexIsAscending(Print(x), Print(y));
    assert KeyOf(x)[|prefix|..] == Label(x) && KeyOf(y)[|prefix|..] == Label(y);
  }

  // ----- arrays

  /**
   A canonical array holds the canonical elements: in the order above when every element is
   a scalar, a reference or titled, and in their own order when one is not.
   */
  lemma {:induction false} ArraysComeInOrder(items: seq<Value>)
    requires forall x :: x in items ==> Distinct(x)
    ensures Canon(Arr(items)).Arr?
    ensures var out := Canon(Arr(items)).items;
      if forall x :: x in items ==> IsSortable(x) then
        && multiset(out) == multiset(CanonItems(items))
        && (forall x :: x in out ==> IsSortable(x))
        && (forall i, j :: 0 <= i < j < |out| ==> InOrder(out[i], out[j]))
      else out == CanonItems(items)
  {
    var cs := CanonItems(items);
    CanonOfArray(items, cs);
    AllKeyedKept(items);
    SortableIsKeyed(items);
    if AllKeyed(items) {
      SortedInOrder(cs, Sort(cs, ItemLeq));
    }
  }

  lemma {:induction false} CanonOfArray(items: seq<Value>, cs: seq<Value>)
    requires cs == CanonItems(items)
    ensures Canon(Arr(items)) == Arr(if AllKeyed(cs) then Sort(cs, ItemLeq) else cs)
  {
  }

  lemma {:induction false} SortableIsKeyed(items: seq<Value>)
    ensures AllKeyed(items) <==> forall x :: x in items ==> IsSortable(x)
  {
    forall x | x in items ensures IsSortable(x) <==> SortKey(x).Some? { KeyIsPrefixed(x); }
    if AllKeyed(items) {
      forall x | x in items ensures IsSortable(x) {
        var i :| 0 <= i < |items| && items[i] == x;
      }
    } else {
      var i :| 0 <= i < |items| && SortKey(items[i]).None?;
      assert items[i] in items;
    }
  }

  lemma {:induction false} SortedInOrder(cs: seq<Value>, out: seq<Value>)
    requires AllKeyed(cs) && out == Sort(cs, ItemLeq)
    ensures forall x :: x in out ==> IsSortable(x)
    ensures forall i, j :: 0 <= i < j < |out| ==> InOrder(out[i], out[j])
  {
    ItemsCompare();
    SortSorts(cs, ItemLeq);
    SameElements(out, cs);
    SortableIsKeyed(cs);
    forall i, j | 0 <= i < j < |out|
      ensures IsSortable(out[i]) && IsSortable(out[j]) && InOrder(out[i], out[j])
    {
      assert out[i] in out && out[j] in out;
      ItemsInOrder(out[i], out[j]);
    }
  }

  /** An array of strings comes out in ascending order, with every string as often as before. */
  lemma {:induction false} StringsComeAscending(items: seq<Value>)
    requires forall x :: x in items ==> x.Str?
    ensures Canon(Arr(items)).Arr? && multiset(Canon(Arr(items)).items) == multiset(items)
    ensures var out := Canon(Arr(items)).items;
      && (forall i :: 0 <= i < |out| ==> out[i].Str?)
      && (forall i, j :: 0 <= i < j < |out| ==> Ascends(out[i].s, out[j].s))
  {
    assert CanonItems(items) == items;
    ArraysComeInOrder(items);
    var out := Canon(Arr(items)).items;
    SameElements(out, items);
    forall i, j | 0 <= i < j < |out|
      ensures out[i].Str? && out[j].Str? && Ascends(out[i].s, out[j].s)
    {
      assert out[i] in out && out[j] in out && InOrder(out[i], out[j]);
      LexIsAscending(out[i].s, out[i].s);
      LexTotal(out[i].s, out[i].s);
    }
  }

  // ----- objects

  /** A canonical object has the same keys, ascending, each with the canonical form of its value. */
  lemma {:induction false} ObjectsComeInOrder(ms: seq<Member>)
    requires UniqueKeys(ms)
    ensures Canon(Obj(ms)).Obj?
    ensures var out := Canon(Obj(ms)).members;
      && (forall i, j :: 0 <= i < j < |out| ==> Ascends(out[i].key, out[j].key) && out[i].key != out[j].key)
      && (forall k :: Get(out, k) == match Get(ms, k) { case Some(v) => Some(Canon(v)) case None => None })
  {
    var cs := CanonMembers(ms);
    var out := Sort(cs, MemberLeq);
    KeysCompare();
    SortSorts(cs, MemberLeq);
    GetSorted(ms, "");
    forall i, j | 0 <= i < j < |out|
      ensures Ascends(out[i].key, out[j].key) && out[i].key != out[j].key
    {
      assert MemberLeq(out[i], out[j]);
      LexIsAscending(out[i].key, out[j].key);
    }
    forall k
      ensures Get(out, k) == match Get(ms, k) { case Some(v) => Some(Canon(v)) case None => None }
    {
      GetSorted(ms, k);
    }
  }
}
