/** What schemas mean once references are followed, before and after flattening. */
module SchemaMeaning {
  import opened Text
  import opened Json
  import opened SchemaRefs

  /** What a schema says once references are followed; `Cut` where the depth runs out. */
  datatype Meaning =
    | Cut
    | Dangling
    | Scalar(v: Value)
    | Items(items: seq<Meaning>)
    | Fields(keys: seq<string>, values: seq<Meaning>)

  /** Follows references up to `depth` deep; an object with `$ref` means its target. */
  function Unfold(root: Value, v: Value, depth: nat): Meaning
    decreases depth, v
  {
    match OwnRef(v)
    case Some(r) =>
      if depth == 0 then Cut
      else (match Resolve(root, r) case Some(t) => Unfold(root, t, depth - 1) case None => Dangling)
    case None =>
      match v
      case Arr(items) => Items(seq(|items|, i requires 0 <= i < |items| => Unfold(root, items[i], depth)))
      case Obj(ms) =>
        Fields(seq(|ms|, i requires 0 <= i < |ms| => ms[i].key),
               seq(|ms|, i requires 0 <= i < |ms| => Unfold(root, ms[i].value, depth)))
      case _ => Scalar(v)
  }

  /** Everything `v` refers to is in `kept`. */
  ghost predicate Within(kept: iset<string>, v: Value) {
    Distinct(v) && forall r :: r in Refs(v) ==> r in kept
  }

  /** `q` leads to `t` in the old document and to its rewritten copy in the flat one. */
  ghost predicate Leads(root: Value, flat: Value, kept: iset<string>, q: string, t: Value) {
    Resolve(root, q) == Some(t) && Resolve(flat, Flat(q)) == Some(FlatValue(t)) && Within(kept, t)
  }

  /** Every reference in `kept` leads on, staying in `kept`. */
  ghost predicate Follows(root: Value, flat: Value, kept: iset<string>) {
    forall q {:trigger LeadsOn(root, flat, kept, q)} :: q in kept ==> LeadsOn(root, flat, kept, q)
  }

  ghost predicate LeadsOn(root: Value, flat: Value, kept: iset<string>, q: string) {
    exists t :: Leads(root, flat, kept, q, t)
  }

  lemma {:induction false} ChildRewritten(v: Value, i: nat)
    requires Distinct(v) && OwnRef(v).None? && i < |Children(v)|
    ensures |Children(FlatValue(v))| == |Children(v)|
    ensures Children(FlatValue(v))[i] == FlatValue(Children(v)[i])
  {
    if v.Obj? {
      GetUnique(v.members, v.members[i]);
    }
  }

  lemma {:induction false} FlatOwnRef(v: Value)
    ensures OwnRef(FlatValue(v)) == match OwnRef(v) { case Some(r) => Some(Flat(r)) case None => None }
  {
    if v.Obj? {
      RefRewritten(v.members, V2_PREFIX, DEFINITIONS_PREFIX);
    }
  }

  lemma {:induction false} ChildWithin(kept: iset<string>, v: Value, i: nat)
    requires Within(kept, v) && i < |Children(v)|
    ensures Within(kept, Children(v)[i])
  {
    assert Children(v)[i] in Children(v);
  }

  lemma {:induction false} OwnRefWithin(kept: iset<string>, v: Value)
    requires Within(kept, v) && OwnRef(v).Some?
    ensures OwnRef(v).value in kept
  {
    assert OwnRef(v).value in Refs(v);
  }

  lemma {:induction false} CutAlike(root: Value, flat: Value, v: Value, w: Value)
    requires OwnRef(v).Some? && OwnRef(w).Some?
    ensures Unfold(flat, w, 0) == Unfold(root, v, 0)
  {
  }

  lemma {:induction false} UnfoldsTo(root: Value, v: Value, q: string, depth: nat)
    requires OwnRef(v) == Some(q) && Resolve(root, q).Some? && depth > 0
    ensures Unfold(root, v, depth) == Unfold(root, Resolve(root, q).value, depth - 1)
  {
  }

  lemma {:induction false} SameShape(root: Value, flat: Value, v: Value, w: Value, depth: nat)
    requires w == FlatValue(v) && OwnRef(v).None? && OwnRef(w).None?
    requires forall i :: 0 <= i < |Children(v)| ==>
      Unfold(flat, Children(w)[i], depth) == Unfold(root, Children(v)[i], depth)
    ensures Unfold(flat, w, depth) == Unfold(root, v, depth)
  {
    match v
    case Arr(items) =>
      assert forall i :: 0 <= i < |items| ==> Children(v)[i] == items[i] && Children(w)[i] == w.items[i];
      SameItems(root, flat, items, w.items, depth);
    case Obj(ms) =>
      assert forall i :: 0 <= i < |ms| ==> Children(v)[i] == ms[i].value && Children(w)[i] == w.members[i].value;
      SameFields(root, flat, ms, w.members, depth);
    case _ =>
  }

  lemma {:induction false} SameItems(root: Value, flat: Value, a: seq<Value>, b: seq<Value>, depth: nat)
    requires |a| == |b| && forall i :: 0 <= i < |a| ==> Unfold(flat, b[i], depth) == Unfold(root, a[i], depth)
    ensures Unfold(flat, Arr(b), depth) == Unfold(root, Arr(a), depth)
  {
    assert Unfold(flat, Arr(b), depth).items == Unfold(root, Arr(a), depth).items;
  }

  lemma {:induction false} SameFields(root: Value, flat: Value, a: seq<Member>, b: seq<Member>, depth: nat)
    requires |a| == |b| && OwnRef(Obj(a)).None? && OwnRef(Obj(b)).None?
    requires forall i :: 0 <= i < |a| ==>
      a[i].key == b[i].key && Unfold(flat, b[i].value, depth) == Unfold(root, a[i].value, depth)
    ensures Unfold(flat, Obj(b), depth) == Unfold(root, Obj(a), depth)
  {
    assert Unfold(flat, Obj(b), depth).keys == Unfold(root, Obj(a), depth).keys;
    assert Unfold(flat, Obj(b), depth).values == Unfold(root, Obj(a), depth).values;
  }

  /** To every depth, a kept schema means in the flat document what it meant before. */
  lemma {:induction false} MeaningPreserved(root: Value, flat: Value, kept: iset<string>, v: Value, depth: nat)
    requires Follows(root, flat, kept) && Within(kept, v)
    ensures Unfold(flat, FlatValue(v), depth) == Unfold(root, v, depth)
    decreases depth, v
  {
    FlatOwnRef(v);
    if OwnRef(v).Some? {
      OwnRefWithin(kept, v);
      ReferencePreserved(root, flat, kept, OwnRef(v).value, v, FlatValue(v), depth);
    } else {
      ChildrenPreserved(root, flat, kept, v, depth);
      SameShape(root, flat, v, FlatValue(v), depth);
    }
  }

  lemma {:induction false} ReferencePreserved(
    root: Value, flat: Value, kept: iset<string>, q: string, v: Value, w: Value, depth: nat)
    requires Follows(root, flat, kept) && q in kept && OwnRef(v) == Some(q) && OwnRef(w) == Some(Flat(q))
    ensures Unfold(flat, w, depth) == Unfold(root, v, depth)
    decreases depth, v, 0
  {
    if depth == 0 {
      CutAlike(root, flat, v, w);
    } else {
      var d := depth - 1;
      TargetPreserved(root, flat, kept, q, d);
      var t := Resolve(root, q).value;
      UnfoldsTo(root, v, q, depth);
      UnfoldsTo(flat, w, Flat(q), depth);
      assert Unfold(flat, w, depth) == Unfold(flat, FlatValue(t), d);
      assert Unfold(root, v, depth) == Unfold(root, t, d);
    }
  }

  lemma {:induction false} TargetPreserved(root: Value, flat: Value, kept: iset<string>, q: string, depth: nat)
    requires Follows(root, flat, kept) && q in kept
    ensures Resolve(root, q).Some? && Resolve(flat, Flat(q)) == Some(FlatValue(Resolve(root, q).value))
    ensures Unfold(flat, FlatValue(Resolve(root, q).value), depth) == Unfold(root, Resolve(root, q).value, depth)
    decreases depth
  {
    assert LeadsOn(root, flat, kept, q);
    var t :| Leads(root, flat, kept, q, t);
    MeaningPreserved(root, flat, kept, t, depth);
  }

  lemma {:induction false} ChildrenPreserved(root: Value, flat: Value, kept: iset<string>, v: Value, depth: nat)
    requires Follows(root, flat, kept) && Within(kept, v) && OwnRef(v).None?
    ensures |Children(FlatValue(v))| == |Children(v)|
    ensures forall i :: 0 <= i < |Children(v)| ==>
      Unfold(flat, Children(FlatValue(v))[i], depth) == Unfold(root, Children(v)[i], depth)
    decreases depth, v, 0
  {
    forall i | 0 <= i < |Children(v)|
      ensures |Children(FlatValue(v))| == |Children(v)|
      ensures Unfold(flat, Children(FlatValue(v))[i], depth) == Unfold(root, Children(v)[i], depth)
    {
      ChildWithin(kept, v, i);
      ChildRewritten(v, i);
      MeaningPreserved(root, flat, kept, Children(v)[i], depth);
    }
  }

  lemma {:induction false} FollowingPreserved(root: Value, flat: Value, kept: iset<string>, q: string, depth: nat)
    requires Follows(root, flat, kept) && q in kept
    ensures Unfold(flat, RefTo(Flat(q)), depth) == Unfold(root, RefTo(q), depth)
  {
    RefToRefers(q);
    RefToRefers(Flat(q));
    ReferencePreserved(root, flat, kept, q, RefTo(q), RefTo(Flat(q)), depth);
  }
}
