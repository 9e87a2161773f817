/**
 `canonicalize_json`: the normal form schema fixtures are compared in
 (`codex-rs/app-server-protocol/src/schema_fixtures.rs`).
 */
module Canonical {
  import opened Text
  import opened Json
  import opened JsonText
  import opened Sorting

  // ----- the operation

  /** `schema_array_item_sort_key`. */
  function SortKey(v: Value): Option<string> {
    match v
    case Null => Some("null")
    case Bool(b) => Some(if b then "b:true" else "b:false")
    case Number(text) => Some("n:" + text)
    case Str(s) => Some("s:" + s)
    case Obj(ms) =>
      (match Get(ms, "$ref")
       case Some(Str(r)) => Some("ref:" + r)
       case _ =>
         match Get(ms, "title")
         case Some(Str(t)) => Some("title:" + t)
         case _ => None)
    case Arr(_) => None
  }

  predicate AllKeyed(items: seq<Value>) {
    forall i :: 0 <= i < |items| ==> SortKey(items[i]).Some?
  }

  function KeyOf(v: Value): string {
    match SortKey(v) case Some(k) => k case None => ""
  }

  /** By key, then by printed text. */
  predicate ItemLeq(x: Value, y: Value) {
    if KeyOf(x) == KeyOf(y) then LexLeq(Print(x), Print(y)) else LexLeq(KeyOf(x), KeyOf(y))
  }

  predicate MemberLeq(m: Member, n: Member) {
    LexLeq(m.key, n.key)
  }

  function Canon(v: Value): Value
    decreases v, 1
  {
    match v
    case Arr(items) =>
      var cs := CanonItems(items);
      if AllKeyed(cs) then Arr(Sort(cs, ItemLeq)) else Arr(cs)
    case Obj(ms) => Obj(Sort(CanonMembers(ms), MemberLeq))
    case _ => v
  }

  function CanonItems(items: seq<Value>): (r: seq<Value>)
    ensures |r| == |items|
    decreases items, 0
  {
    seq(|items|, i requires 0 <= i < |items| => Canon(items[i]))
  }

  function CanonMembers(ms: seq<Member>): (r: seq<Member>)
    ensures |r| == |ms|
    decreases ms, 0
  {
    seq(|ms|, i requires 0 <= i < |ms| => Member(ms[i].key, Canon(ms[i].value)))
  }

  /** The recursive procedure. */
  method CanonicalizeJson(value: Value) returns (r: Value)
    ensures r == Canon(value)
    decreases value, 1
  {
    match value
    case Arr(items) => r := CanonicalizeArray(items);
    case Obj(ms) => r := CanonicalizeObject(ms);
    case _ => r := value;
  }

  /** An item with the two strings it is sorted by. */
  datatype Keyed = Keyed(item: Value, key: string, stable: string)

  predicate KeyedLeq(a: Keyed, b: Keyed) {
    if a.key == b.key then LexLeq(a.stable, b.stable) else LexLeq(a.key, b.key)
  }

  function ItemOf(k: Keyed): Value {
    k.item
  }

  function KeyedItem(v: Value): Keyed {
    Keyed(v, KeyOf(v), Print(v))
  }

  predicate WellKeyed(k: Keyed) {
    k == KeyedItem(k.item)
  }

  /** Sorting items with their keys precomputed is sorting the items. */
  lemma {:induction false} KeyedSort(keyed: seq<Keyed>, items: seq<Value>)
    requires |keyed| == |items| && forall i :: 0 <= i < |items| ==> keyed[i] == KeyedItem(items[i])
    ensures Image(Sort(keyed, KeyedLeq), ItemOf) == Sort(items, ItemLeq)
  {
    SortMapped(keyed, WellKeyed, ItemOf, KeyedLeq, ItemLeq);
    assert Image(keyed, ItemOf) == items;
  }

  /** Sorts items by key and printed text, but gives up at the first one without a key. */
  method SortIfKeyed(items: seq<Value>) returns (r: Value)
    ensures r == if AllKeyed(items) then Arr(Sort(items, ItemLeq)) else Arr(items)
  {
    var sortable: seq<Keyed> := [];
    for i := 0 to |items|
      invariant |sortable| == i
      invariant forall k :: 0 <= k < i ==> SortKey(items[k]).Some? && sortable[k] == KeyedItem(items[k])
    {
      if SortKey(items[i]).None? {
        return Arr(items);
      }
      sortable := sortable + [Keyed(items[i], SortKey(items[i]).value, Print(items[i]))];
    }
    KeyedSort(sortable, items);
    r := Arr(Image(Sort(sortable, KeyedLeq), ItemOf));
  }

  /** Canonicalises the items, then sorts them if they all have keys. */
  method CanonicalizeArray(items: seq<Value>) returns (r: Value)
    ensures r == Canon(Arr(items))
    decreases items, 0
  {
    var done: seq<Value> := [];
    for i := 0 to |items|
      invariant done == CanonItems(items)[..i]
    {
      var c := CanonicalizeJson(items[i]);
      done := done + [c];
    }
    assert done == CanonItems(items);
    r := SortIfKeyed(done);
  }

  function CanonMember(m: Member): Member {
    Member(m.key, Canon(m.value))
  }

  lemma {:induction false} MembersSort(ms: seq<Member>)
    ensures Image(Sort(ms, MemberLeq), CanonMember) == Sort(CanonMembers(ms), MemberLeq)
  {
    SortMapped(ms, (m: Member) => true, CanonMember, MemberLeq, MemberLeq);
    assert Image(ms, CanonMember) == CanonMembers(ms);
  }

  /** Sorts the entries, then canonicalises their values. */
  method CanonicalizeObject(ms: seq<Member>) returns (r: Value)
    ensures r == Canon(Obj(ms))
    decreases ms, 0
  {
    var entries := Sort(ms, MemberLeq);
    SameElements(entries, ms);
    var sorted: seq<Member> := [];
    for i := 0 to |entries|
      invariant sorted == Image(entries, CanonMember)[..i]
    {
      assert entries[i] in ms;
      var c := CanonicalizeJson(entries[i].value);
      sorted := sorted + [Member(entries[i].key, c)];
    }
    assert sorted == Image(entries, CanonMember);
    MembersSort(ms);
    r := Obj(sorted);
  }

  // ----- values that differ only in order

  function Without<T>(s: seq<T>, j: nat): seq<T>
    requires j < |s|
  {
    s[..j] + s[j + 1..]
  }

  /**
   The same value up to the order of object members and of arrays whose elements
   all have a sort key, at every depth.
   */
  ghost predicate SameUpToOrder(v: Value, w: Value)
    decreases v, 1
  {
    match v
    case Arr(a) =>
      w.Arr? && (if AllKeyed(a) && AllKeyed(w.items) then ItemsMatch(a, w.items)
                 else |a| == |w.items| && forall i :: 0 <= i < |a| ==> SameUpToOrder(a[i], w.items[i]))
    case Obj(ms) => w.Obj? && MembersMatch(ms, w.members)
    case _ => v == w
  }

  /** The elements of `a` can be paired one to one with those of `b`. */
  ghost predicate ItemsMatch(a: seq<Value>, b: seq<Value>)
    decreases a, 0
  {
    if a == [] then b == []
    else exists j :: 0 <= j < |b| && SameUpToOrder(a[0], b[j]) && ItemsMatch(a[1..], Without(b, j))
  }

  ghost predicate MembersMatch(a: seq<Member>, b: seq<Member>)
    decreases a, 0
  {
    if a == [] then b == []
    else exists j :: 0 <= j < |b| && a[0].key == b[j].key && SameUpToOrder(a[0].value, b[j].value)
                  && MembersMatch(a[1..], Without(b, j))
  }

  /** A JSON value as serde holds it: no repeated keys, numbers that print. */
  predicate Proper(v: Value) {
    Distinct(v) && NumbersPrint(v)
  }

  // ----- ordering facts

  lemma KeysCompare()
    ensures Compares(MemberLeq)
  {
    forall m: Member, n: Member ensures MemberLeq(m, n) || MemberLeq(n, m) { LexTotal(m.key, n.key); }
    forall l: Member, m: Member, n: Member | MemberLeq(l, m) && MemberLeq(m, n) ensures MemberLeq(l, n) {
      LexTransitive(l.key, m.key, n.key);
    }
  }

  lemma {:induction false} ItemTotal(x: Value, y: Value)
    ensures ItemLeq(x, y) || ItemLeq(y, x)
  {
    LexTotal(KeyOf(x), KeyOf(y));
    LexTotal(Print(x), Print(y));
  }

  lemma {:induction false} ItemTransitive(x: Value, y: Value, z: Value)
    requires ItemLeq(x, y) && ItemLeq(y, z)
    ensures ItemLeq(x, z)
  {
    if KeyOf(x) == KeyOf(y) == KeyOf(z) {
      LexTransitive(Print(x), Print(y), Print(z));
    } else if KeyOf(x) != KeyOf(y) && KeyOf(y) != KeyOf(z) {
      LexTransitive(KeyOf(x), KeyOf(y), KeyOf(z));
      if KeyOf(x) == KeyOf(z) {
        LexAntisymmetric(KeyOf(x), KeyOf(y));
      }
    }
  }

  lemma ItemsCompare()
    ensures Compares(ItemLeq)
  {
    forall x: Value, y: Value ensures ItemLeq(x, y) || ItemLeq(y, x) { ItemTotal(x, y); }
    forall x: Value, y: Value, z: Value | ItemLeq(x, y) && ItemLeq(y, z) ensures ItemLeq(x, z) {
      ItemTransitive(x, y, z);
    }
  }

  /** The tie-break text separates different values. */
  lemma {:induction false} ItemsSeparate(items: seq<Value>)
    requires forall x :: x in items ==> Proper(x)
    ensures Separates(items, ItemLeq)
  {
    forall x, y | x in items && y in items && ItemLeq(x, y) && ItemLeq(y, x)
      ensures x == y
    {
      if KeyOf(x) != KeyOf(y) {
        LexAntisymmetric(KeyOf(x), KeyOf(y));
      } else {
        LexAntisymmetric(Print(x), Print(y));
        PrintInjective(x, "", y, "");
      }
    }
  }

  lemma {:induction false} MembersSeparate(ms: seq<Member>)
    requires UniqueKeys(ms)
    ensures Separates(ms, MemberLeq)
  {
    forall m, n | m in ms && n in ms && MemberLeq(m, n) && MemberLeq(n, m)
      ensures m == n
    {
      LexAntisymmetric(m.key, n.key);
      GetUnique(ms, m);
      GetUnique(ms, n);
    }
  }

  // ----- what canonicalising keeps

  lemma {:induction false} UniquePermuted(a: seq<Member>, b: seq<Member>)
    requires UniqueKeys(a) && multiset(a) == multiset(b)
    ensures UniqueKeys(b)
    ensures forall k :: Get(a, k) == Get(b, k)
  {
    SameElements(a, b);
    forall i, j | 0 <= i < j < |b|
      ensures b[i].key != b[j].key
    {
      if b[i].key == b[j].key {
        GetUnique(a, b[i]);
        GetUnique(a, b[j]);
        TwiceInBag(b, i, j);
        OnceInBag(a, b[i]);
      }
    }
    forall k
      ensures Get(a, k) == Get(b, k)
    {
      if Get(a, k).Some? {
        GetUnique(b, Member(k, Get(a, k).value));
      }
    }
  }

  lemma {:induction false} TwiceInBag<T>(s: seq<T>, i: nat, j: nat)
    requires i < j < |s| && s[i] == s[j]
    ensures multiset(s)[s[i]] >= 2
  {
    assert s == s[..j] + [s[j]] + s[j + 1..];
    assert s[i] in s[..j];
  }

  lemma {:induction false} OnceInBag(ms: seq<Member>, m: Member)
    requires UniqueKeys(ms) && m in ms
    ensures multiset(ms)[m] == 1
  {
    assert ms == [ms[0]] + ms[1..];
    if m == ms[0] {
      assert m !in ms[1..];
    } else {
      OnceInBag(ms[1..], m);
    }
  }

  lemma {:induction false} GetCanon(ms: seq<Member>, k: string)
    ensures Get(CanonMembers(ms), k) == match Get(ms, k) { case Some(v) => Some(Canon(v)) case None => None }
  {
    if ms != [] {
      assert CanonMembers(ms)[1..] == CanonMembers(ms[1..]);
      GetCanon(ms[1..], k);
    }
  }

  /** Sorting does not disturb lookups. */
  lemma {:induction false} GetSorted(ms: seq<Member>, k: string)
    requires UniqueKeys(ms)
    ensures UniqueKeys(Sort(CanonMembers(ms), MemberLeq))
    ensures Get(Sort(CanonMembers(ms), MemberLeq), k) ==
      match Get(ms, k) { case Some(v) => Some(Canon(v)) case None => None }
  {
    GetCanon(ms, k);
    UniquePermuted(CanonMembers(ms), Sort(CanonMembers(ms), MemberLeq));
  }

  function StringAt(ms: seq<Member>, k: string): Option<string> {
    match Get(ms, k) case Some(Str(s)) => Some(s) case _ => None
  }

  lemma {:induction false} StringKept(ms: seq<Member>, k: string)
    requires UniqueKeys(ms)
    ensures StringAt(Sort(CanonMembers(ms), MemberLeq), k) == StringAt(ms, k)
  {
    GetSorted(ms, k);
  }

  lemma {:induction false} KeyFromStrings(a: seq<Member>, b: seq<Member>)
    requires StringAt(a, "$ref") == StringAt(b, "$ref") && StringAt(a, "title") == StringAt(b, "title")
    ensures SortKey(Obj(a)) == SortKey(Obj(b))
  {
  }

  /** Canonicalising keeps sort keys, so it does not matter that keys are taken afterwards. */
  lemma {:induction false} KeyKept(v: Value)
    requires Distinct(v)
    ensures SortKey(Canon(v)) == SortKey(v)
  {
    if v.Obj? {
      StringKept(v.members, "$ref");
      StringKept(v.members, "title");
      KeyFromStrings(v.members, Sort(CanonMembers(v.members), MemberLeq));
    }
  }

  lemma {:induction false} AllKeyedKept(items: seq<Value>)
    requires forall x :: x in items ==> Distinct(x)
    ensures AllKeyed(CanonItems(items)) <==> AllKeyed(items)
  {
    forall i | 0 <= i < |items|
      ensures SortKey(CanonItems(items)[i]) == SortKey(items[i])
    {
      KeyKept(items[i]);
    }
  }

  lemma {:induction false} CanonProper(v: Value)
    requires Proper(v)
    ensures Proper(Canon(v))
    decreases v, 1
  {
    match v
    case Arr(items) => ItemsProper(items);
    case Obj(ms) => MembersProper(ms);
    case _ =>
  }

  lemma {:induction false} ItemsProper(items: seq<Value>)
    requires Proper(Arr(items))
    ensures Proper(Canon(Arr(items)))
    decreases Arr(items), 0
  {
    var cs := CanonItems(items);
    forall x | x in cs
      ensures Proper(x)
    {
      var i :| 0 <= i < |items| && x == cs[i];
      assert items[i] in Children(Arr(items));
      CanonProper(items[i]);
    }
    SameElements(cs, Sort(cs, ItemLeq));
    ProperArray(cs);
    ProperArray(Sort(cs, ItemLeq));
  }

  lemma {:induction false} ProperArray(items: seq<Value>)
    requires forall x :: x in items ==> Proper(x)
    ensures Proper(Arr(items))
  {
    assert forall x :: x in Children(Arr(items)) ==> x in items;
  }

  lemma {:induction false} MembersProper(ms: seq<Member>)
    requires Proper(Obj(ms))
    ensures Proper(Canon(Obj(ms)))
    decreases Obj(ms), 0
  {
    var cs := CanonMembers(ms);
    forall m | m in cs
      ensures Proper(m.value)
    {
      var i :| 0 <= i < |ms| && m == cs[i];
      assert Children(Obj(ms))[i] == ms[i].value;
      CanonProper(ms[i].value);
    }
    GetSorted(ms, "");
    SameElements(cs, Sort(cs, MemberLeq));
    ProperObject(Sort(cs, MemberLeq));
  }

  lemma {:induction false} ProperObject(ms: seq<Member>)
    requires UniqueKeys(ms) && forall m :: m in ms ==> Proper(m.value)
    ensures Proper(Obj(ms))
  {
    forall c | c in Children(Obj(ms))
      ensures Proper(c)
    {
      var i :| 0 <= i < |ms| && c == ms[i].value;
      assert ms[i] in ms;
    }
  }

  // ----- equal normal forms, one way: order does not matter

  lemma {:induction false} BagWithout<T>(s: seq<T>, j: nat)
    requires j < |s|
    ensures multiset(s) == multiset{s[j]} + multiset(Without(s, j))
  {
    assert s == s[..j] + [s[j]] + s[j + 1..];
  }

  lemma {:induction false} ProperItems(v: Value)
    requires Proper(v) && v.Arr?
    ensures forall x :: x in v.items ==> Proper(x)
  {
    assert forall x :: x in v.items ==> x in Children(v);
  }

  lemma {:induction false} ProperMembers(v: Value)
    requires Proper(v) && v.Obj?
    ensures UniqueKeys(v.members) && forall m :: m in v.members ==> Proper(m.value)
  {
    forall m | m in v.members
      ensures Proper(m.value)
    {
      ChildOf(v, m);
    }
  }

  lemma {:induction false} CanonItemsProper(items: seq<Value>)
    requires forall x :: x in items ==> Proper(x)
    ensures forall x :: x in CanonItems(items) ==> Proper(x)
  {
    forall i | 0 <= i < |items|
      ensures Proper(CanonItems(items)[i])
    {
      CanonProper(items[i]);
    }
  }

  /** Two fully keyed arrays have one normal form when their elements' normal forms are one bag. */
  lemma {:induction false} ArraysFromBag(a: seq<Value>, b: seq<Value>)
    requires forall x :: x in a ==> Proper(x)
    requires forall x :: x in b ==> Proper(x)
    requires AllKeyed(a) && AllKeyed(b)
    ensures Canon(Arr(a)) == Canon(Arr(b)) <==> multiset(CanonItems(a)) == multiset(CanonItems(b))
  {
    AllKeyedKept(a);
    AllKeyedKept(b);
    if multiset(CanonItems(a)) == multiset(CanonItems(b)) {
      ItemsCompare();
      CanonItemsProper(a);
      ItemsSeparate(CanonItems(a));
      SortOfBag(CanonItems(a), CanonItems(b), ItemLeq);
    }
  }

  lemma {:induction false} ObjectsFromBag(a: seq<Member>, b: seq<Member>)
    requires UniqueKeys(a) && UniqueKeys(b)
    ensures Canon(Obj(a)) == Canon(Obj(b)) <==> multiset(CanonMembers(a)) == multiset(CanonMembers(b))
  {
    if multiset(CanonMembers(a)) == multiset(CanonMembers(b)) {
      OneBagOneObject(a, b);
    } else {
      ObjectKeepsBag(a);
      ObjectKeepsBag(b);
    }
  }

  lemma {:induction false} OneBagOneObject(a: seq<Member>, b: seq<Member>)
    requires UniqueKeys(a) && multiset(CanonMembers(a)) == multiset(CanonMembers(b))
    ensures Canon(Obj(a)) == Canon(Obj(b))
  {
    OneBagOneOrder(CanonMembers(a), CanonMembers(b));
  }

  lemma {:induction false} OneBagOneOrder(a: seq<Member>, b: seq<Member>)
    requires UniqueKeys(a) && multiset(a) == multiset(b)
    ensures Sort(a, MemberLeq) == Sort(b, MemberLeq)
  {
    KeysCompare();
    MembersSeparate(a);
    SortOfBag(a, b, MemberLeq);
  }

  lemma {:induction false} ObjectKeepsBag(a: seq<Member>)
    ensures Canon(Obj(a)).Obj? && multiset(Canon(Obj(a)).members) == multiset(CanonMembers(a))
  {
  }

  lemma {:induction false} CanonItemsCons(a: seq<Value>)
    requires a != []
    ensures CanonItems(a) == [Canon(a[0])] + CanonItems(a[1..])
    ensures multiset(CanonItems(a)) == multiset{Canon(a[0])} + multiset(CanonItems(a[1..]))
  {
    assert CanonItems(a) == [Canon(a[0])] + CanonItems(a[1..]);
  }

  lemma {:induction false} CanonItemsWithout(b: seq<Value>, j: nat)
    requires j < |b|
    ensures multiset(CanonItems(b)) == multiset{Canon(b[j])} + multiset(CanonItems(Without(b, j)))
  {
    assert CanonItems(Without(b, j)) == Without(CanonItems(b), j);
    BagWithout(CanonItems(b), j);
  }

  lemma {:induction false} CanonMembersCons(a: seq<Member>)
    requires a != []
    ensures multiset(CanonMembers(a)) == multiset{Member(a[0].key, Canon(a[0].value))} + multiset(CanonMembers(a[1..]))
  {
    assert CanonMembers(a) == [Member(a[0].key, Canon(a[0].value))] + CanonMembers(a[1..]);
  }

  lemma {:induction false} CanonMembersWithout(b: seq<Member>, j: nat)
    requires j < |b|
    ensures multiset(CanonMembers(b)) ==
      multiset{Member(b[j].key, Canon(b[j].value))} + multiset(CanonMembers(Without(b, j)))
  {
    assert CanonMembers(Without(b, j)) == Without(CanonMembers(b), j);
    BagWithout(CanonMembers(b), j);
  }

  lemma {:induction false} CanonPlainArray(a: seq<Value>)
    requires forall x :: x in a ==> Proper(x)
    ensures AllKeyed(Canon(Arr(a)).items) <==> AllKeyed(a)
    ensures !AllKeyed(a) ==> Canon(Arr(a)) == Arr(CanonItems(a))
  {
    AllKeyedKept(a);
    var cs := CanonItems(a);
    if AllKeyed(a) {
      SameElements(cs, Sort(cs, ItemLeq));
      assert forall x :: x in cs ==> SortKey(x).Some?;
    }
  }

  /** Values that differ only in order have the same normal form. */
  lemma {:induction false} OrderDoesNotMatter(v: Value, w: Value)
    requires Proper(v) && Proper(w) && SameUpToOrder(v, w)
    ensures Canon(v) == Canon(w)
    decreases v, 1
  {
    match v
    case Arr(a) =>
      ProperItems(v);
      ProperItems(w);
      if AllKeyed(a) && AllKeyed(w.items) {
        MatchedItemsAreOneBag(a, w.items);
        ArraysFromBag(a, w.items);
      } else {
        ElementwiseSame(a, w.items);
      }
    case Obj(ms) =>
      ProperMembers(v);
      ProperMembers(w);
      MatchedMembersAreOneBag(ms, w.members);
      ObjectsFromBag(ms, w.members);
    case _ =>
  }

  lemma {:induction false} ElementwiseSame(a: seq<Value>, b: seq<Value>)
    requires forall x :: x in a ==> Proper(x)
    requires forall x :: x in b ==> Proper(x)
    requires |a| == |b| && forall i :: 0 <= i < |a| ==> SameUpToOrder(a[i], b[i])
    ensures Canon(Arr(a)) == Canon(Arr(b))
    decreases a, 0
  {
    forall i | 0 <= i < |a|
      ensures CanonItems(a)[i] == CanonItems(b)[i]
    {
      OrderDoesNotMatter(a[i], b[i]);
    }
    assert CanonItems(a) == CanonItems(b);
  }

  lemma {:induction false} MatchedItemsAreOneBag(a: seq<Value>, b: seq<Value>)
    requires forall x :: x in a ==> Proper(x)
    requires forall x :: x in b ==> Proper(x)
    requires ItemsMatch(a, b)
    ensures multiset(CanonItems(a)) == multiset(CanonItems(b))
    decreases a, 0
  {
    if a != [] {
      var j :| 0 <= j < |b| && SameUpToOrder(a[0], b[j]) && ItemsMatch(a[1..], Without(b, j));
      OrderDoesNotMatter(a[0], b[j]);
      MatchedItemsAreOneBag(a[1..], Without(b, j));
      CanonItemsCons(a);
      CanonItemsWithout(b, j);
    }
  }

  lemma {:induction false} MatchedMembersAreOneBag(a: seq<Member>, b: seq<Member>)
    requires forall m :: m in a ==> Proper(m.value)
    requires forall m :: m in b ==> Proper(m.value)
    requires MembersMatch(a, b)
    ensures multiset(CanonMembers(a)) == multiset(CanonMembers(b))
    decreases a, 0
  {
    if a != [] {
      var j :| 0 <= j < |b| && a[0].key == b[j].key && SameUpToOrder(a[0].value, b[j].value)
            && MembersMatch(a[1..], Without(b, j));
      OrderDoesNotMatter(a[0].value, b[j].value);
      MatchedMembersAreOneBag(a[1..], Without(b, j));
      CanonMembersCons(a);
      CanonMembersWithout(b, j);
    }
  }

  // ----- the other way: nothing else is identified

  /** Values with the same normal form differ only in order. */
  lemma {:induction false} OnlyOrderIsForgotten(v: Value, w: Value)
    requires Proper(v) && Proper(w) && Canon(v) == Canon(w)
    ensures SameUpToOrder(v, w)
    decreases v, 1
  {
    match v
    case Arr(a) =>
      ProperItems(v);
      ProperItems(w);
      CanonPlainArray(a);
      CanonPlainArray(w.items);
      if AllKeyed(a) {
        ArraysFromBag(a, w.items);
        OneBagIsMatched(a, w.items);
      } else {
        forall i | 0 <= i < |a|
          ensures SameUpToOrder(a[i], w.items[i])
        {
          assert CanonItems(a)[i] == CanonItems(w.items)[i];
          OnlyOrderIsForgotten(a[i], w.items[i]);
        }
      }
    case Obj(ms) =>
      ProperMembers(v);
      ProperMembers(w);
      ObjectsFromBag(ms, w.members);
      OneBagIsMatchedMembers(ms, w.members);
    case _ =>
  }

  lemma {:induction false} OneBagIsMatched(a: seq<Value>, b: seq<Value>)
    requires forall x :: x in a ==> Proper(x)
    requires forall x :: x in b ==> Proper(x)
    requires multiset(CanonItems(a)) == multiset(CanonItems(b))
    ensures ItemsMatch(a, b)
    decreases a, 0
  {
    SameElements(CanonItems(a), CanonItems(b));
    if a != [] {
      assert CanonItems(a)[0] in CanonItems(b);
      var j :| 0 <= j < |b| && CanonItems(b)[j] == CanonItems(a)[0];
      OnlyOrderIsForgotten(a[0], b[j]);
      CanonItemsCons(a);
      CanonItemsWithout(b, j);
      assert multiset(CanonItems(a[1..])) == multiset(CanonItems(a)) - multiset{Canon(a[0])};
      OneBagIsMatched(a[1..], Without(b, j));
    }
  }

  lemma {:induction false} OneBagIsMatchedMembers(a: seq<Member>, b: seq<Member>)
    requires forall m :: m in a ==> Proper(m.value)
    requires forall m :: m in b ==> Proper(m.value)
    requires multiset(CanonMembers(a)) == multiset(CanonMembers(b))
    ensures MembersMatch(a, b)
    decreases a, 0
  {
    SameElements(CanonMembers(a), CanonMembers(b));
    if a != [] {
      assert CanonMembers(a)[0] in CanonMembers(b);
      var j :| 0 <= j < |b| && CanonMembers(b)[j] == CanonMembers(a)[0];
      OnlyOrderIsForgotten(a[0].value, b[j].value);
      CanonMembersCons(a);
      CanonMembersWithout(b, j);
      assert multiset(CanonMembers(a[1..])) ==
        multiset(CanonMembers(a)) - multiset{Member(a[0].key, Canon(a[0].value))};
      OneBagIsMatchedMembers(a[1..], Without(b, j));
    }
  }

  // ----- the normal form theorem

  /** A fixpoint is reached in one step. */
  lemma {:induction false} CanonIdempotent(v: Value)
    requires Proper(v)
    ensures Canon(Canon(v)) == Canon(v)
    decreases v
  {
    match v
    case Arr(items) =>
      ProperItems(v);
      var cs := CanonItems(items);
      forall x | x in cs
        ensures Canon(x) == x
      {
        var i :| 0 <= i < |items| && x == cs[i];
        CanonIdempotent(items[i]);
      }
      CanonArrayFixed(items);
    case Obj(ms) =>
      ProperMembers(v);
      var cs := CanonMembers(ms);
      forall m | m in cs
        ensures Canon(m.value) == m.value
      {
        var i :| 0 <= i < |ms| && m == cs[i];
        CanonIdempotent(ms[i].value);
      }
      CanonObjectFixed(ms);
    case _ =>
  }

  lemma {:induction false} CanonArrayFixed(items: seq<Value>)
    requires forall x :: x in items ==> Proper(x)
    requires forall x :: x in CanonItems(items) ==> Canon(x) == x
    ensures Canon(Canon(Arr(items))) == Canon(Arr(items))
  {
    var cs := CanonItems(items);
    var out := Canon(Arr(items)).items;
    SameElements(cs, Sort(cs, ItemLeq));
    assert CanonItems(out) == out by {
      forall i | 0 <= i < |out| ensures CanonItems(out)[i] == out[i] { assert out[i] in cs; }
    }
    CanonPlainArray(items);
    if AllKeyed(items) {
      AllKeyedKept(items);
      ItemsCompare();
      CanonItemsProper(items);
      ItemsSeparate(cs);
      SortOfBag(cs, out, ItemLeq);
    }
  }

  lemma {:induction false} CanonObjectFixed(ms: seq<Member>)
    requires UniqueKeys(ms)
    requires forall m :: m in CanonMembers(ms) ==> Canon(m.value) == m.value
    ensures Canon(Canon(Obj(ms))) == Canon(Obj(ms))
  {
    var cs := CanonMembers(ms);
    var out := Sort(cs, MemberLeq);
    assert Canon(Obj(ms)) == Obj(out);
    assert Canon(Obj(out)) == Obj(out) by {
      SortedAreFixed(cs);
      SortMembersTwice(cs);
      FixedObject(out);
    }
  }

  lemma {:induction false} SortMembersTwice(cs: seq<Member>)
    requires UniqueKeys(cs)
    ensures Sort(Sort(cs, MemberLeq), MemberLeq) == Sort(cs, MemberLeq)
  {
    OneBagOneOrder(cs, Sort(cs, MemberLeq));
  }

  lemma {:induction false} FixedObject(out: seq<Member>)
    requires CanonMembers(out) == out && Sort(out, MemberLeq) == out
    ensures Canon(Obj(out)) == Obj(out)
  {
  }

  lemma {:induction false} SortedAreFixed(cs: seq<Member>)
    requires forall m :: m in cs ==> Canon(m.value) == m.value
    ensures CanonMembers(Sort(cs, MemberLeq)) == Sort(cs, MemberLeq)
  {
    var out := Sort(cs, MemberLeq);
    SameElements(cs, out);
    forall i | 0 <= i < |out|
      ensures CanonMembers(out)[i] == out[i]
    {
      assert out[i] in cs;
    }
  }

  /**
   Two values have the same normal form exactly when they differ only in the order
   of object members and of fully keyed arrays; the normal form is one such value.
   */
  lemma {:induction false} CanonIsNormalForm(v: Value, w: Value)
    requires Proper(v) && Proper(w)
    ensures Canon(v) == Canon(w) <==> SameUpToOrder(v, w)
    ensures Canon(Canon(v)) == Canon(v)
    ensures SameUpToOrder(v, Canon(v))
  {
    if Canon(v) == Canon(w) {
      OnlyOrderIsForgotten(v, w);
    }
    if SameUpToOrder(v, w) {
      OrderDoesNotMatter(v, w);
    }
    CanonProper(v);
    CanonIdempotent(v);
    OnlyOrderIsForgotten(v, Canon(v));
  }
}
