/**
 What stripping method variants does to the references that stay: when each keeps its
 target, when all do, and two schemas for which one does not.
 */
module StripSafety {
  import opened Text
  import opened Json
  import opened SchemaRefs
  import opened Reachability
  import opened StripVariants

  // ----- where one reference leads after stripping

  /** The segments of a local reference. */
  function Segments(q: string): (path: seq<string>)
    requires "#/" <= q
    ensures path != []
  {
    Split(q[2..], '/')
  }

  /** The original position of the `i`th item that stays. */
  function Survivor<T>(items: seq<T>, gone: T -> bool, i: nat): (r: Option<nat>)
    ensures r.Some? ==> i <= r.value < |items|
  {
    if items == [] then None
    else
      var removed := gone(items[0]);
      if !removed && i == 0 then Some(0)
      else
        match Survivor(items[1..], gone, if removed then i else i - 1)
        case Some(k) => Some(k + 1)
        case None => None
  }

  lemma {:induction false} SurvivorStands<T>(items: seq<T>, gone: T -> bool, i: nat)
    ensures var kept, k := Without(items, gone), Survivor(items, gone, i);
      (k.Some? <==> i < |kept|) && (k.Some? ==> kept[i] == items[k.value])
  {
    if items == [] {
    } else if gone(items[0]) {
      SurvivorStands(items[1..], gone, i);
    } else if i > 0 {
      SurvivorStands(items[1..], gone, i - 1);
    }
  }

  /** A position keeps its item exactly when nothing at or before it goes. */
  lemma {:induction false} SurvivorInPlace<T>(items: seq<T>, gone: T -> bool, i: nat)
    requires i < |items|
    ensures Survivor(items, gone, i) == Some(i) <==> forall k :: 0 <= k <= i ==> !gone(items[k])
  {
    if !gone(items[0]) && i > 0 {
      var rest := items[1..];
      SurvivorInPlace(rest, gone, i - 1);
      assert forall k :: 0 < k <= i ==> items[k] == rest[k - 1];
      assert forall k :: 0 <= k <= i - 1 ==> rest[k] == items[k + 1];
    }
  }

  /** What a pointer into the union finds: the whole union, or a survivor in place of the variant meant. */
  predicate UnionLands(items: seq<Value>, methods: set<string>, path: seq<string>) {
    if path == [] then forall v :: v in items ==> !IsMethodVariant(v, methods)
    else
      IsIndex(path[0]) && Index(path[0]) < |items| ==>
        var k := Survivor(items, Removes(methods), Index(path[0]));
        k.Some? && Walk(items[k.value], path[1..]) == Walk(items[Index(path[0])], path[1..])
  }

  /** What a pointer into the definitions finds: the whole map, or a definition that stays. */
  predicate MapLands(defs: seq<Member>, names: set<string>, path: seq<string>) {
    if path == [] then forall m :: m in defs ==> m.key in names else path[0] in names
  }

  /** The reference finds after stripping what it found before; only the union and the definitions move. */
  predicate Lands(schema: Value, methods: set<string>, names: set<string>, q: string)
    requires "#/" <= q && HasUnion(schema)
  {
    var path := Segments(q);
    if path[0] == "oneOf" then UnionLands(Field(schema, "oneOf").value.items, methods, path[1..])
    else if path[0] == "definitions" then
      match Field(schema, "definitions")
      case Some(Obj(defs)) => MapLands(defs, names, path[1..])
      case _ => true
    else true
  }

  lemma {:induction false} NoneGone<T>(items: seq<T>, gone: T -> bool)
    requires forall v :: v in items ==> !gone(v)
    ensures Without(items, gone) == items
  {
    if items != [] {
      NoneGone(items[1..], gone);
      assert items == [items[0]] + items[1..];
    }
  }

  lemma {:induction false} AllVariantsStay(items: seq<Value>, methods: set<string>)
    ensures RetainVariants(items, methods) == items <==> forall v :: v in items ==> !IsMethodVariant(v, methods)
  {
    if v :| v in items && IsMethodVariant(v, methods) {
      RetainedExactly(items, methods, v);
    } else {
      NoneGone(items, Removes(methods));
    }
  }

  lemma {:induction false} NamesStay(ms: seq<Member>, names: set<string>)
    requires forall m :: m in ms ==> m.key in names
    ensures RetainNames(ms, names) == ms
  {
    if ms != [] {
      var first, rest := ms[0], ms[1..];
      NamesStay(rest, names);
      assert ms == [first] + rest;
    }
  }

  lemma {:induction false} AllNamesStay(ms: seq<Member>, names: set<string>)
    ensures RetainNames(ms, names) == ms <==> forall m :: m in ms ==> m.key in names
  {
    if m :| m in ms && m.key !in names {
      assert m !in RetainNames(ms, names);
    } else {
      NamesStay(ms, names);
    }
  }

  lemma {:induction false} UnionLandsExactly(items: seq<Value>, methods: set<string>, path: seq<string>)
    requires Walk(Arr(items), path).Some?
    ensures var after := Arr(RetainVariants(items, methods));
      Walk(after, path) == Walk(Arr(items), path) <==> UnionLands(items, methods, path)
  {
    if path == [] {
      AllVariantsStay(items, methods);
    } else {
      SurvivorStands(items, Removes(methods), Index(path[0]));
    }
  }

  lemma {:induction false} MapLandsExactly(defs: seq<Member>, names: set<string>, path: seq<string>)
    requires Walk(Obj(defs), path).Some?
    ensures Walk(Obj(RetainNames(defs, names)), path) == Walk(Obj(defs), path) <==> MapLands(defs, names, path)
  {
    if path == [] {
      AllNamesStay(defs, names);
    }
  }

  /** What the stripped schema holds under each key. */
  lemma {:induction false} StrippedFields(schema: Value, methods: set<string>, names: set<string>, key: string)
    requires HasUnion(schema)
    ensures var after := Prune(Trimmed(schema, methods), names);
      && after.Obj?
      && Get(after.members, key) ==
        if key == "oneOf" then Some(Arr(RetainVariants(Field(schema, "oneOf").value.items, methods)))
        else if key == "definitions" then
          (match Get(schema.members, key)
           case Some(Obj(defs)) => Some(Obj(RetainNames(defs, names)))
           case other => other)
        else Get(schema.members, key)
  {
  }

  /** For every local reference that resolves: it keeps its target exactly when it lands. */
  lemma {:induction false} LandsExactly(schema: Value, methods: set<string>, names: set<string>, q: string)
    requires HasUnion(schema) && "#/" <= q && Resolve(schema, q).Some?
    ensures var after := Prune(Trimmed(schema, methods), names);
      Resolve(after, q) == Resolve(schema, q) <==> Lands(schema, methods, names, q)
  {
    var path := Segments(q);
    StrippedFields(schema, methods, names, path[0]);
    if path[0] == "oneOf" {
      UnionLandsExactly(Field(schema, "oneOf").value.items, methods, path[1..]);
    } else if path[0] == "definitions" && Field(schema, "definitions").value.Obj? {
      MapLandsExactly(Field(schema, "definitions").value.members, names, path[1..]);
    }
  }

  /** Nothing is left where a pointer into the union leads: no survivor, or not the rest of the path in it. */
  predicate UnionDangles(items: seq<Value>, methods: set<string>, path: seq<string>) {
    && path != [] && IsIndex(path[0])
    && var k := Survivor(items, Removes(methods), Index(path[0]));
       k.None? || Walk(items[k.value], path[1..]).None?
  }

  predicate MapDangles(names: set<string>, path: seq<string>) {
    path != [] && path[0] !in names
  }

  predicate Dangles(schema: Value, methods: set<string>, names: set<string>, q: string)
    requires "#/" <= q && HasUnion(schema)
  {
    var path := Segments(q);
    if path[0] == "oneOf" then UnionDangles(Field(schema, "oneOf").value.items, methods, path[1..])
    else if path[0] == "definitions" then
      match Field(schema, "definitions")
      case Some(Obj(_)) => MapDangles(names, path[1..])
      case _ => false
    else false
  }

  lemma {:induction false} UnionDanglesExactly(items: seq<Value>, methods: set<string>, path: seq<string>)
    requires Walk(Arr(items), path).Some?
    ensures Walk(Arr(RetainVariants(items, methods)), path).None? <==> UnionDangles(items, methods, path)
  {
    if path != [] {
      SurvivorStands(items, Removes(methods), Index(path[0]));
    }
  }

  lemma {:induction false} MapDanglesExactly(defs: seq<Member>, names: set<string>, path: seq<string>)
    requires Walk(Obj(defs), path).Some?
    ensures Walk(Obj(RetainNames(defs, names)), path).None? <==> MapDangles(names, path)
  {
  }

  /** For every local reference that resolves: exactly when nothing is left where it leads. */
  lemma {:induction false} DanglesExactly(schema: Value, methods: set<string>, names: set<string>, q: string)
    requires HasUnion(schema) && "#/" <= q && Resolve(schema, q).Some?
    ensures Resolve(Prune(Trimmed(schema, methods), names), q).None? <==> Dangles(schema, methods, names, q)
  {
    var path := Segments(q);
    StrippedFields(schema, methods, names, path[0]);
    if path[0] == "oneOf" {
      UnionDanglesExactly(Field(schema, "oneOf").value.items, methods, path[1..]);
    } else if path[0] == "definitions" && Field(schema, "definitions").value.Obj? {
      MapDanglesExactly(Field(schema, "definitions").value.members, names, path[1..]);
    }
  }

  // ----- all references of the result

  /** Every local reference left in `after` that resolved before still resolves to something. */
  ghost predicate NothingDangles(before: Value, after: Value) {
    forall q :: q in Refs(after) && "#/" <= q && Resolve(before, q).Some? ==> Resolve(after, q).Some?
  }

  /** Every local reference left in `after` that resolved before still does, to the same schema. */
  ghost predicate KeepsTargets(before: Value, after: Value) {
    forall q :: q in Refs(after) && "#/" <= q && Resolve(before, q).Some? ==> Resolve(after, q) == Resolve(before, q)
  }

  function Head(q: string): string
    requires DEFINITIONS_PREFIX <= q
  {
    FirstSegment(q[|DEFINITIONS_PREFIX|..])
  }

  /** References the traversal does not see: those below nested definition maps. */
  ghost function UnseenRefs(ms: seq<Member>): set<string> {
    (set m, q | m in ms && m.key != "definitions" && q in Refs(m.value) :: q) - OuterRefs(Obj(ms))
  }

  /** The references left when only the definitions in `names` stay. */
  ghost predicate Remains(ms: seq<Member>, defs: seq<Member>, names: set<string>, q: string) {
    || q in OuterRefs(Obj(ms))
    || q in UnseenRefs(ms)
    || q in OwnRefs(Obj(RetainNames(defs, names)))
    || exists m :: m in defs && m.key in names && q in Refs(m.value)
  }

  lemma {:induction false} RefsAfterPrune(ms: seq<Member>, defs: seq<Member>, names: set<string>, q: string)
    requires UniqueKeys(ms) && Get(ms, "definitions") == Some(Obj(defs))
    requires q in Refs(Prune(Obj(ms), names))
    ensures Remains(ms, defs, names, q)
  {
    var kept := RetainNames(defs, names);
    var ms' := Put(ms, "definitions", Obj(kept));
    InsideObject(ms', q);
    if q in OwnRefs(Obj(ms')) {
      assert q in OwnRefs(Obj(ms));
    } else {
      var m :| m in ms' && q in Refs(m.value);
      GetUnique(ms', m);
      if m.key == "definitions" {
        InsideObject(kept, q);
      }
    }
  }

  lemma {:induction false} InsideObject(ms: seq<Member>, q: string)
    requires q in Refs(Obj(ms))
    ensures q in OwnRefs(Obj(ms)) || exists m :: m in ms && q in Refs(m.value)
  {
    if q !in OwnRefs(Obj(ms)) {
      var i := RefInChild(Obj(ms), q);
      assert ms[i] in ms && Children(Obj(ms))[i] == ms[i].value;
    }
  }

  lemma {:induction false} PutKeeps(ms: seq<Member>, key: string, value: Value, m: Member)
    requires m in ms && m.key != key
    ensures m in Put(ms, key, value)
  {
    if ms[0].key != key && m != ms[0] {
      PutKeeps(ms[1..], key, value, m);
    }
  }

  lemma {:induction false} OutsideStays(ms: seq<Member>, defs: seq<Member>, names: set<string>, q: string)
    requires Get(ms, "definitions") == Some(Obj(defs))
    requires q in OuterRefs(Obj(ms)) || q in UnseenRefs(ms)
    ensures q in Refs(Prune(Obj(ms), names))
  {
    var after := Prune(Obj(ms), names);
    assert OwnRefs(after) == OwnRefs(Obj(ms));
    if q !in OwnRefs(after) {
      var m :| m in ms && m.key != "definitions" && q in Refs(m.value);
      PutKeeps(ms, "definitions", Obj(RetainNames(defs, names)), m);
      MemberRefs(after, m);
    }
  }

  lemma {:induction false} DefinitionsMapRefs(ms: seq<Member>, defs: seq<Member>, names: set<string>, q: string)
    requires Get(ms, "definitions") == Some(Obj(defs)) && q in OwnRefs(Obj(RetainNames(defs, names)))
    ensures q in Refs(Prune(Obj(ms), names))
  {
    MemberRefs(Prune(Obj(ms), names), Member("definitions", Obj(RetainNames(defs, names))));
  }

  lemma {:induction false} KeptDefinitionRefs(ms: seq<Member>, defs: seq<Member>, names: set<string>, m: Member)
    requires Get(ms, "definitions") == Some(Obj(defs)) && m in defs && m.key in names
    ensures Refs(m.value) <= Refs(Prune(Obj(ms), names))
  {
    var kept := RetainNames(defs, names);
    MemberRefs(Obj(kept), m);
    MemberRefs(Prune(Obj(ms), names), Member("definitions", Obj(kept)));
  }

  lemma {:induction false} RemainsExactly(ms: seq<Member>, defs: seq<Member>, names: set<string>, q: string)
    requires UniqueKeys(ms) && Get(ms, "definitions") == Some(Obj(defs))
    ensures q in Refs(Prune(Obj(ms), names)) <==> Remains(ms, defs, names, q)
  {
    if q in Refs(Prune(Obj(ms), names)) {
      RefsAfterPrune(ms, defs, names, q);
    } else if q in OuterRefs(Obj(ms)) || q in UnseenRefs(ms) {
      OutsideStays(ms, defs, names, q);
    } else if q in OwnRefs(Obj(RetainNames(defs, names))) {
      DefinitionsMapRefs(ms, defs, names, q);
    } else if m :| m in defs && m.key in names && q in Refs(m.value) {
      KeptDefinitionRefs(ms, defs, names, m);
    }
  }

  /** A reference seen by the traversal, or inside a kept definition, names a kept definition. */
  lemma {:induction false} SeenAreKept(ms: seq<Member>, defs: seq<Member>, names: set<string>, q: string)
    requires IsLeastClosed(LocalEdges(defs), LocalNames(OuterRefs(Obj(ms))), names) && UniqueKeys(defs)
    requires DEFINITIONS_PREFIX <= q
    requires q in OuterRefs(Obj(ms)) || exists m :: m in defs && m.key in names && q in Refs(m.value)
    ensures Head(q) in names
  {
    if q in OuterRefs(Obj(ms)) {
      assert Head(q) in LocalNames(OuterRefs(Obj(ms)));
    } else {
      var m :| m in defs && m.key in names && q in Refs(m.value);
      GetUnique(defs, m);
      assert Head(q) in LocalEdges(defs)[m.key];
    }
  }

  lemma {:induction false} DefinitionSegments(q: string)
    requires DEFINITIONS_PREFIX <= q
    ensures "#/" <= q && Segments(q)[0] == "definitions" && Segments(q)[1..] != [] && Segments(q)[1] == Head(q)
  {
    ResolveDefinition(Null, q);
  }

  lemma {:induction false} DefinitionLands(
    schema: Value, methods: set<string>, defs: seq<Member>, names: set<string>, q: string)
    requires HasUnion(schema) && HasMap(schema, defs) && DEFINITIONS_PREFIX <= q
    ensures "#/" <= q && (Lands(schema, methods, names, q) <==> Head(q) in names)
    ensures Dangles(schema, methods, names, q) <==> Head(q) !in names
  {
    DefinitionSegments(q);
  }

  /** Every unseen reference that resolves names a definition that is kept anyway. */
  ghost predicate UnseenAreCovered(schema: Value, ms: seq<Member>, kept: seq<Member>, names: set<string>) {
    forall q :: q in UnseenRefs(ms) + OwnRefs(Obj(kept)) && DEFINITIONS_PREFIX <= q && Resolve(schema, q).Some? ==>
      Head(q) in names
  }

  /** A local reference that does not name a definition: into the union, or to a whole part of the schema. */
  predicate IsPointer(q: string) {
    "#/" <= q && !(DEFINITIONS_PREFIX <= q)
  }

  /** The remaining pointers find what they found before. */
  ghost predicate PointersLand(
    schema: Value, methods: set<string>, ms: seq<Member>, defs: seq<Member>, names: set<string>)
    requires HasUnion(schema)
  {
    forall q :: Remains(ms, defs, names, q) && IsPointer(q) && Resolve(schema, q).Some? ==>
      Lands(schema, methods, names, q)
  }

  ghost predicate HasMap(schema: Value, defs: seq<Member>) {
    schema.Obj? && Get(schema.members, "definitions") == Some(Obj(defs))
  }

  lemma {:induction false} StrippedIsPruned(schema: Value, methods: set<string>, defs: seq<Member>)
    requires HasUnion(schema) && HasMap(schema, defs)
    ensures var t := Trimmed(schema, methods);
      && HasMap(t, defs)
      && IsLeastClosed(LocalEdges(defs), LocalNames(OuterRefs(t)), Reachable(t))
      && Stripped(schema, methods) == Prune(t, Reachable(t))
  {
    var t := Trimmed(schema, methods);
    ReachIsLeastClosed(LocalEdges(defs), LocalNames(OuterRefs(t)));
  }

  lemma {:induction false} MapKeysUnique(schema: Value, defs: seq<Member>)
    requires HasMap(schema, defs) && Distinct(schema)
    ensures UniqueKeys(schema.members) && UniqueKeys(defs)
  {
    ChildOf(schema, Member("definitions", Obj(defs)));
    assert Distinct(Obj(defs));
  }

  /** Whether one remaining reference lands, by the kind of reference it is. */
  lemma {:induction false} RemainingLands(
    schema: Value, methods: set<string>, ms: seq<Member>, defs: seq<Member>, names: set<string>, q: string)
    requires HasUnion(schema) && HasMap(schema, defs) && UniqueKeys(defs)
    requires IsLeastClosed(LocalEdges(defs), LocalNames(OuterRefs(Obj(ms))), names)
    requires Remains(ms, defs, names, q) && DEFINITIONS_PREFIX <= q && Resolve(schema, q).Some?
    requires UnseenAreCovered(schema, ms, RetainNames(defs, names), names)
    ensures "#/" <= q && Lands(schema, methods, names, q)
  {
    DefinitionLands(schema, methods, defs, names, q);
    if q !in UnseenRefs(ms) + OwnRefs(Obj(RetainNames(defs, names))) {
      SeenAreKept(ms, defs, names, q);
    }
  }

  lemma {:induction false} SafeWhenCovered(
    schema: Value, methods: set<string>, ms: seq<Member>, defs: seq<Member>, names: set<string>)
    requires HasUnion(schema) && HasMap(schema, defs) && UniqueKeys(defs) && UniqueKeys(ms)
    requires Trimmed(schema, methods) == Obj(ms) && Get(ms, "definitions") == Some(Obj(defs))
    requires IsLeastClosed(LocalEdges(defs), LocalNames(OuterRefs(Obj(ms))), names)
    requires UnseenAreCovered(schema, ms, RetainNames(defs, names), names)
    requires PointersLand(schema, methods, ms, defs, names)
    ensures KeepsTargets(schema, Prune(Obj(ms), names))
  {
    forall q | q in Refs(Prune(Obj(ms), names)) && "#/" <= q && Resolve(schema, q).Some?
      ensures Resolve(Prune(Obj(ms), names), q) == Resolve(schema, q)
    {
      RemainsExactly(ms, defs, names, q);
      if DEFINITIONS_PREFIX <= q {
        RemainingLands(schema, methods, ms, defs, names, q);
      }
      LandsExactly(schema, methods, names, q);
    }
  }

  lemma {:induction false} CoveredWhenSafe(
    schema: Value, methods: set<string>, ms: seq<Member>, defs: seq<Member>, names: set<string>)
    requires HasUnion(schema) && HasMap(schema, defs) && UniqueKeys(ms)
    requires Trimmed(schema, methods) == Obj(ms) && Get(ms, "definitions") == Some(Obj(defs))
    requires KeepsTargets(schema, Prune(Obj(ms), names))
    ensures UnseenAreCovered(schema, ms, RetainNames(defs, names), names)
    ensures PointersLand(schema, methods, ms, defs, names)
  {
    forall q | Remains(ms, defs, names, q) && "#/" <= q && Resolve(schema, q).Some?
      ensures Lands(schema, methods, names, q)
    {
      RemainsExactly(ms, defs, names, q);
      LandsExactly(schema, methods, names, q);
    }
    var kept := RetainNames(defs, names);
    forall q | q in UnseenRefs(ms) + OwnRefs(Obj(kept)) && DEFINITIONS_PREFIX <= q && Resolve(schema, q).Some?
      ensures Head(q) in names
    {
      assert Remains(ms, defs, names, q);
      DefinitionLands(schema, methods, defs, names, q);
    }
  }

  /**
   After stripping, every local reference that resolved before finds the same schema,
   exactly when each resolving reference hidden from the traversal names a definition
   that stays and each pointer into the union or to the whole map lands.
   */
  lemma {:induction false} StripIsSafeExactly(
    schema: Value, methods: set<string>, defs: seq<Member>, names: set<string>)
    requires Distinct(schema) && HasUnion(schema) && HasMap(schema, defs)
    requires names == Reachable(Trimmed(schema, methods))
    ensures var ms := Trimmed(schema, methods).members;
      KeepsTargets(schema, Stripped(schema, methods)) <==>
        UnseenAreCovered(schema, ms, RetainNames(defs, names), names) && PointersLand(schema, methods, ms, defs, names)
  {
    var ms := Trimmed(schema, methods).members;
    MapKeysUnique(schema, defs);
    StrippedIsPruned(schema, methods, defs);
    if KeepsTargets(schema, Stripped(schema, methods)) {
      CoveredWhenSafe(schema, methods, ms, defs, names);
    } else if UnseenAreCovered(schema, ms, RetainNames(defs, names), names) {
      if PointersLand(schema, methods, ms, defs, names) {
        SafeWhenCovered(schema, methods, ms, defs, names);
      }
    }
  }

  /** No remaining pointer leads to nothing. */
  ghost predicate PointersResolve(
    schema: Value, methods: set<string>, ms: seq<Member>, defs: seq<Member>, names: set<string>)
    requires HasUnion(schema)
  {
    forall q :: Remains(ms, defs, names, q) && IsPointer(q) && Resolve(schema, q).Some? ==>
      !Dangles(schema, methods, names, q)
  }

  lemma {:induction false} ResolvesWhenCovered(
    schema: Value, methods: set<string>, ms: seq<Member>, defs: seq<Member>, names: set<string>)
    requires HasUnion(schema) && HasMap(schema, defs) && UniqueKeys(defs) && UniqueKeys(ms)
    requires Trimmed(schema, methods) == Obj(ms) && Get(ms, "definitions") == Some(Obj(defs))
    requires IsLeastClosed(LocalEdges(defs), LocalNames(OuterRefs(Obj(ms))), names)
    requires UnseenAreCovered(schema, ms, RetainNames(defs, names), names)
    requires PointersResolve(schema, methods, ms, defs, names)
    ensures NothingDangles(schema, Prune(Obj(ms), names))
  {
    forall q | q in Refs(Prune(Obj(ms), names)) && "#/" <= q && Resolve(schema, q).Some?
      ensures Resolve(Prune(Obj(ms), names), q).Some?
    {
      RemainsExactly(ms, defs, names, q);
      if DEFINITIONS_PREFIX <= q {
        RemainingLands(schema, methods, ms, defs, names, q);
        DefinitionLands(schema, methods, defs, names, q);
      }
      DanglesExactly(schema, methods, names, q);
    }
  }

  lemma {:induction false} CoveredWhenResolves(
    schema: Value, methods: set<string>, ms: seq<Member>, defs: seq<Member>, names: set<string>)
    requires HasUnion(schema) && HasMap(schema, defs) && UniqueKeys(ms)
    requires Trimmed(schema, methods) == Obj(ms) && Get(ms, "definitions") == Some(Obj(defs))
    requires NothingDangles(schema, Prune(Obj(ms), names))
    ensures UnseenAreCovered(schema, ms, RetainNames(defs, names), names)
    ensures PointersResolve(schema, methods, ms, defs, names)
  {
    forall q | Remains(ms, defs, names, q) && "#/" <= q && Resolve(schema, q).Some?
      ensures !Dangles(schema, methods, names, q)
    {
      RemainsExactly(ms, defs, names, q);
      DanglesExactly(schema, methods, names, q);
    }
    var kept := RetainNames(defs, names);
    forall q | q in UnseenRefs(ms) + OwnRefs(Obj(kept)) && DEFINITIONS_PREFIX <= q && Resolve(schema, q).Some?
      ensures Head(q) in names
    {
      assert Remains(ms, defs, names, q);
      DefinitionLands(schema, methods, defs, names, q);
    }
  }

  /**
   After stripping, no local reference that resolved before dangles, exactly when each
   resolving reference hidden from the traversal names a definition that stays and no
   remaining pointer leads to nothing.
   */
  lemma {:induction false} StripDanglesExactly(
    schema: Value, methods: set<string>, defs: seq<Member>, names: set<string>)
    requires Distinct(schema) && HasUnion(schema) && HasMap(schema, defs)
    requires names == Reachable(Trimmed(schema, methods))
    ensures var ms := Trimmed(schema, methods).members;
      NothingDangles(schema, Stripped(schema, methods)) <==>
        && UnseenAreCovered(schema, ms, RetainNames(defs, names), names)
        && PointersResolve(schema, methods, ms, defs, names)
  {
    var ms := Trimmed(schema, methods).members;
    MapKeysUnique(schema, defs);
    StrippedIsPruned(schema, methods, defs);
    if NothingDangles(schema, Stripped(schema, methods)) {
      CoveredWhenResolves(schema, methods, ms, defs, names);
    } else if UnseenAreCovered(schema, ms, RetainNames(defs, names), names) {
      if PointersResolve(schema, methods, ms, defs, names) {
        ResolvesWhenCovered(schema, methods, ms, defs, names);
      }
    }
  }

  // ----- one definitions map

  /** No member anywhere in `v` is a definitions map. */
  predicate NoNestedMaps(v: Value) {
    && (v.Obj? ==> forall m :: m in v.members ==> m.key != "definitions" && m.key != "$defs")
    && forall c :: c in Children(v) ==> NoNestedMaps(c)
  }

  lemma {:induction false} AllSeen(v: Value)
    requires NoNestedMaps(v)
    ensures OuterRefs(v) == Refs(v)
  {
    forall c | c in Children(v)
      ensures OuterRefs(c) == Refs(c)
    {
      AllSeen(c);
    }
    forall q | q in Refs(v)
      ensures q in OuterRefs(v)
    {
      if q !in OwnRefs(v) && v.Obj? {
        InsideObject(v.members, q);
        var m :| m in v.members && q in Refs(m.value);
        ChildOf(v, m);
        assert q in OuterRefs(m.value);
      }
    }
  }

  /** The only definitions map is the root's, and it holds schemas rather than a reference. */
  ghost predicate OnlyRootMap(ms: seq<Member>, defs: seq<Member>) {
    && OwnRef(Obj(defs)).None?
    && forall m :: m in ms && m.key != "definitions" ==> m.key != "$defs" && NoNestedMaps(m.value)
  }

  lemma {:induction false} NothingUnseen(ms: seq<Member>, defs: seq<Member>)
    requires OnlyRootMap(ms, defs)
    ensures UnseenRefs(ms) == {}
  {
    forall m, q | m in ms && m.key != "definitions" && q in Refs(m.value)
      ensures q in OuterRefs(Obj(ms))
    {
      AllSeen(m.value);
    }
  }

  lemma {:induction false} TrimmedOnlyRootMap(schema: Value, methods: set<string>, defs: seq<Member>)
    requires HasUnion(schema) && HasMap(schema, defs) && UniqueKeys(schema.members) && OnlyRootMap(schema.members, defs)
    ensures OnlyRootMap(Trimmed(schema, methods).members, defs)
  {
    var items := Field(schema, "oneOf").value.items;
    assert Member("oneOf", Arr(items)) in schema.members && NoNestedMaps(Arr(items));
    var t := Trimmed(schema, methods);
    forall m | m in t.members && m.key != "definitions"
      ensures m.key != "$defs" && NoNestedMaps(m.value)
    {
      GetUnique(t.members, m);
      if m.key == "oneOf" {
        forall c | c in m.value.items ensures c in Children(Arr(items)) {
          RetainedExactly(items, methods, c);
        }
      }
    }
  }

  lemma {:induction false} OneMapIsCovered(schema: Value, methods: set<string>, defs: seq<Member>, names: set<string>)
    requires Distinct(schema) && HasUnion(schema) && HasMap(schema, defs) && OnlyRootMap(schema.members, defs)
    ensures UnseenAreCovered(schema, Trimmed(schema, methods).members, RetainNames(defs, names), names)
  {
    MapKeysUnique(schema, defs);
    TrimmedOnlyRootMap(schema, methods, defs);
    NothingUnseen(Trimmed(schema, methods).members, defs);
    KeptMapIsNoRef(defs, names);
  }

  lemma {:induction false} KeptMapIsNoRef(defs: seq<Member>, names: set<string>)
    requires OwnRef(Obj(defs)).None?
    ensures OwnRefs(Obj(RetainNames(defs, names))) == {}
  {
    assert Get(RetainNames(defs, names), "$ref") == if "$ref" in names then Get(defs, "$ref") else None;
  }

  /** The definition references of `after` that resolved before find the same schema. */
  ghost predicate DefinitionsHold(before: Value, after: Value) {
    forall q :: q in Refs(after) && DEFINITIONS_PREFIX <= q && Resolve(before, q).Some? ==>
      Resolve(after, q) == Resolve(before, q)
  }

  lemma {:induction false} OneMapHolds(
    schema: Value, methods: set<string>, ms: seq<Member>, defs: seq<Member>, names: set<string>)
    requires HasUnion(schema) && HasMap(schema, defs) && UniqueKeys(defs) && UniqueKeys(ms)
    requires Trimmed(schema, methods) == Obj(ms) && Get(ms, "definitions") == Some(Obj(defs))
    requires IsLeastClosed(LocalEdges(defs), LocalNames(OuterRefs(Obj(ms))), names)
    requires UnseenAreCovered(schema, ms, RetainNames(defs, names), names)
    ensures DefinitionsHold(schema, Prune(Obj(ms), names))
  {
    forall q | q in Refs(Prune(Obj(ms), names)) && DEFINITIONS_PREFIX <= q && Resolve(schema, q).Some?
      ensures Resolve(Prune(Obj(ms), names), q) == Resolve(schema, q)
    {
      RemainsExactly(ms, defs, names, q);
      RemainingLands(schema, methods, ms, defs, names, q);
      LandsExactly(schema, methods, names, q);
    }
  }

  lemma {:induction false} OneMapKeepsReferences(
    schema: Value, methods: set<string>, defs: seq<Member>, names: set<string>)
    requires Distinct(schema) && HasUnion(schema) && HasMap(schema, defs) && OnlyRootMap(schema.members, defs)
    requires names == Reachable(Trimmed(schema, methods))
    ensures DefinitionsHold(schema, Stripped(schema, methods))
  {
    MapKeysUnique(schema, defs);
    StrippedIsPruned(schema, methods, defs);
    OneMapIsCovered(schema, methods, defs, names);
    OneMapHolds(schema, methods, Trimmed(schema, methods).members, defs, names);
  }

  lemma {:induction false} NoMapKeepsReferences(schema: Value, methods: set<string>, names: set<string>)
    requires HasUnion(schema) && Mapless(schema)
    ensures DefinitionsHold(schema, Prune(Trimmed(schema, methods), names))
  {
    forall q | DEFINITIONS_PREFIX <= q && Resolve(schema, q).Some?
      ensures Resolve(Prune(Trimmed(schema, methods), names), q) == Resolve(schema, q)
    {
      DefinitionSegments(q);
      LandsExactly(schema, methods, names, q);
    }
  }

  predicate Mapless(schema: Value) {
    schema.Obj? && (Get(schema.members, "definitions").None? || !Get(schema.members, "definitions").value.Obj?)
  }

  /** Safety is then about the pointers alone. */
  lemma {:induction false} PointersDecide(schema: Value, methods: set<string>, names: set<string>)
    requires HasUnion(schema) && DefinitionsHold(schema, Prune(Trimmed(schema, methods), names))
    ensures var after := Prune(Trimmed(schema, methods), names);
      KeepsTargets(schema, after) <==>
        forall q :: q in Refs(after) && IsPointer(q) && Resolve(schema, q).Some? ==> Lands(schema, methods, names, q)
  {
    forall q | "#/" <= q && Resolve(schema, q).Some?
      ensures var after := Prune(Trimmed(schema, methods), names);
        Resolve(after, q) == Resolve(schema, q) <==> Lands(schema, methods, names, q)
    {
      LandsExactly(schema, methods, names, q);
    }
  }

  /**
   With no definitions map but the root's, every definition reference that resolved
   before finds the same definition after; and all local references do exactly when the
   pointers into the union, or to the whole map, land.
   */
  lemma {:induction false} StripKeepsReferences(schema: Value, methods: set<string>, names: set<string>)
    requires Distinct(schema) && HasUnion(schema) && names == Reachable(Trimmed(schema, methods))
    requires forall defs :: HasMap(schema, defs) ==> OnlyRootMap(schema.members, defs)
    ensures var after := Stripped(schema, methods);
      && DefinitionsHold(schema, after)
      && (KeepsTargets(schema, after) <==>
          forall q :: q in Refs(after) && IsPointer(q) && Resolve(schema, q).Some? ==> Lands(schema, methods, names, q))
  {
    match Get(schema.members, "definitions")
    case Some(Obj(defs)) =>
      assert HasMap(schema, defs);
      OneMapKeepsReferences(schema, methods, defs, names);
      PointersDecide(schema, methods, names);
    case _ =>
      NoMapKeepsReferences(schema, methods, names);
      PointersDecide(schema, methods, names);
  }

  // ----- two schemas that stripping breaks

  /** A union variant for the method `name`. */
  function VariantOf(name: string): Value {
    Obj([Member("properties", Obj([Member("method", Obj([Member("const", Str(name))]))]))])
  }

  lemma {:induction false} VariantIsFound(name: string, methods: set<string>)
    ensures IsMethodVariant(VariantOf(name), methods) <==> name in methods
  {
    var method_ := Obj([Member("const", Str(name))]);
    var props := [Member("method", method_)];
    assert Get(VariantOf(name).members, "properties") == Some(Obj(props));
    assert Get(props, "method") == Some(method_);
    assert Get(method_.members, "const") == Some(Str(name));
  }

  /** `#/oneOf/1`, with the second variant's position taken from the text. */
  lemma {:induction false} SecondVariant(q: string)
    requires q == "#/" + ("oneOf" + ['/'] + "1")
    ensures "#/" <= q && Segments(q) == ["oneOf", "1"] && IsIndex("1") && Index("1") == 1
  {
    SplitHead("oneOf", "1", '/');
    SplitWhole("1", '/');
    assert q[2..] == "oneOf" + ['/'] + "1";
    assert "1"[..0] == "";
    assert ["oneOf"] + ["1"] == ["oneOf", "1"];
  }

  lemma {:induction false} WalkUnion(ms: seq<Member>, items: seq<Value>, i: string)
    requires Get(ms, "oneOf") == Some(Arr(items)) && IsIndex(i)
    ensures Walk(Obj(ms), ["oneOf", i]) == if Index(i) < |items| then Some(items[Index(i)]) else None
  {
    assert ["oneOf", i][1..] == [i];
    assert [i][1..] == [];
    assert Walk(Obj(ms), ["oneOf", i]) == Walk(Arr(items), [i]);
  }

  /** The union and one reference `x` into it; no definitions anywhere. */
  function PointingSchema(q: string, gone: Value, kept: Value): Value {
    Obj([Member("oneOf", Arr([gone, kept])), Member("x", RefTo(q))])
  }

  lemma {:induction false} PointingFields(q: string, gone: Value, kept: Value)
    ensures var ms := PointingSchema(q, gone, kept).members;
      && Get(ms, "oneOf") == Some(Arr([gone, kept])) && Get(ms, "x") == Some(RefTo(q)) && Get(ms, "definitions").None?
  {
    var ms := PointingSchema(q, gone, kept).members;
    assert ms[1..] == [Member("x", RefTo(q))];
    assert ms[1..][1..] == [];
  }

  /** Without a definitions map at all, a pointer to the second variant dangles once the first is removed. */
  lemma {:induction false} ShiftedPointerExample(schema: Value, q: string, kept: Value)
    requires q == "#/" + ("oneOf" + ['/'] + "1") && kept == VariantOf("k")
    requires schema == PointingSchema(q, VariantOf("m"), kept)
    ensures HasUnion(schema) && Mapless(schema) && Resolve(schema, q) == Some(kept)
    ensures var after := Stripped(schema, {"m"});
      q in Refs(after) && Resolve(after, q).None?
  {
    var gone := VariantOf("m");
    PointingFields(q, gone, kept);
    SecondVariant(q);
    WalkUnion(schema.members, [gone, kept], "1");
    OnlySecondStays(gone, kept);
    var t := Trimmed(schema, {"m"});
    assert Get(t.members, "oneOf") == Some(Arr([kept]));
    WalkUnion(t.members, [kept], "1");
    assert Mapless(t) && Stripped(schema, {"m"}) == t;
    assert Get(t.members, "x") == Some(RefTo(q));
    HoldsRef(t, "x", q);
  }

  lemma {:induction false} OnlySecondStays(gone: Value, kept: Value)
    requires gone == VariantOf("m") && kept == VariantOf("k")
    ensures RetainVariants([gone, kept], {"m"}) == [kept]
  {
    VariantIsFound("m", {"m"});
    VariantIsFound("k", {"m"});
    KeepSecond(gone, kept, Removes({"m"}));
  }

  lemma {:induction false} KeepSecond<T>(a: T, b: T, gone: T -> bool)
    requires gone(a) && !gone(b)
    ensures Without([a, b], gone) == [b]
  {
    assert [b][1..] == [];
    assert Without([b], gone) == [b] + Without([], gone);
    assert [a, b][1..] == [b];
    assert Without([a, b], gone) == [] + Without([b], gone);
  }

  lemma {:induction false} HoldsRef(v: Value, key: string, q: string)
    requires v.Obj? && Get(v.members, key) == Some(RefTo(q))
    ensures q in Refs(v)
  {
    RefToRefers(q);
    assert q in Refs(RefTo(q));
    MemberRefs(v, Member(key, RefTo(q)));
  }

  /** A reference `y` to the definition `A`, below a definitions map that is not the root's. */
  function Hiding(q: string): Value {
    Obj([Member("definitions", Obj([Member("y", RefTo(q))]))])
  }

  function HidingMembers(q: string): seq<Member> {
    [Member("oneOf", Arr([])), Member("x", Hiding(q)), Member("definitions", Obj([Member("A", Null)]))]
  }

  lemma {:induction false} HidingFields(q: string)
    ensures var ms := HidingMembers(q);
      && Get(ms, "oneOf") == Some(Arr([])) && Get(ms, "x") == Some(Hiding(q)) && Get(ms, "$ref").None?
      && Get(ms, "definitions") == Some(Obj([Member("A", Null)]))
  {
    var ms := HidingMembers(q);
    assert ms[1..] == [ms[1], ms[2]];
    assert ms[1..][1..] == [ms[2]];
    assert ms[1..][1..][1..] == [];
  }

  /** The traversal skips the hidden map, so it sees no reference at all. */
  lemma {:induction false} HiddenIsUnseen(q: string)
    ensures OuterRefs(Obj(HidingMembers(q))) == {}
  {
    HidingFields(q);
    HidingIsOpaque(q);
    assert OuterRefs(Arr([])) == {};
    NothingOutside(HidingMembers(q));
  }

  lemma {:induction false} HidingIsOpaque(q: string)
    ensures OuterRefs(Hiding(q)) == {}
  {
    assert Get(Hiding(q).members, "$ref").None?;
    NothingOutside(Hiding(q).members);
  }

  lemma {:induction false} NothingOutside(ms: seq<Member>)
    requires Get(ms, "$ref").None?
    requires forall m :: m in ms && m.key != "definitions" && m.key != "$defs" ==> OuterRefs(m.value) == {}
    ensures OuterRefs(Obj(ms)) == {}
  {
  }

  lemma {:induction false} HiddenIsThere(q: string)
    ensures q in Refs(Hiding(q))
  {
    var inner := Obj([Member("y", RefTo(q))]);
    HoldsRef(inner, "y", q);
    MemberRefs(Hiding(q), Member("definitions", inner));
  }

  /** Nothing is removed from the union, yet the only definition goes and the hidden reference dangles. */
  lemma {:induction false} HiddenReferenceExample(schema: Value, q: string, methods: set<string>)
    requires q == DEFINITIONS_PREFIX + "A" && schema == Obj(HidingMembers(q))
    ensures HasUnion(schema) && Resolve(schema, q) == Some(Null)
    ensures var after := Stripped(schema, methods);
      q in Refs(after) && Resolve(after, q).None?
  {
    HiddenIsPruned(schema, q, methods);
    HiddenAfter(schema.members, [Member("A", Null)], {}, q);
    HiddenStays(q, {});
  }

  lemma {:induction false} HiddenIsPruned(schema: Value, q: string, methods: set<string>)
    requires schema == Obj(HidingMembers(q))
    ensures HasUnion(schema) && Stripped(schema, methods) == Prune(schema, {})
  {
    var defs := [Member("A", Null)];
    HidingFields(q);
    HidingIsUntrimmed(schema, q, methods);
    StrippedIsPruned(schema, methods, defs);
    HiddenIsUnseen(q);
    NothingReached(defs, OuterRefs(schema), Reachable(schema));
  }

  lemma {:induction false} HidingIsUntrimmed(schema: Value, q: string, methods: set<string>)
    requires schema == Obj(HidingMembers(q))
    ensures HasUnion(schema) && Trimmed(schema, methods) == schema
  {
    HidingFields(q);
    PutFirst(schema.members, "oneOf", Arr([]));
  }

  lemma {:induction false} PutFirst(ms: seq<Member>, key: string, v: Value)
    requires ms != [] && ms[0] == Member(key, v)
    ensures Put(ms, key, v) == ms
  {
    assert ms == [ms[0]] + ms[1..];
  }

  lemma {:induction false} NothingReached(defs: seq<Member>, outer: set<string>, names: set<string>)
    requires outer == {} && IsLeastClosed(LocalEdges(defs), LocalNames(outer), names)
    ensures names == {}
  {
    assert LocalNames(outer) == {};
    assert Closed(LocalEdges(defs), {});
  }

  lemma {:induction false} HiddenAfter(ms: seq<Member>, defs: seq<Member>, names: set<string>, q: string)
    requires ms == HidingMembers(q) && defs == [Member("A", Null)] && q == DEFINITIONS_PREFIX + "A" && names == {}
    ensures Resolve(Obj(ms), q) == Some(Null) && Resolve(Prune(Obj(ms), names), q).None?
  {
    HidingFields(q);
    ResolvesTo(ms, defs, "A");
    ResolvesTo(Prune(Obj(ms), names).members, RetainNames(defs, names), "A");
  }

  lemma {:induction false} ResolvesTo(ms: seq<Member>, defs: seq<Member>, name: string)
    requires Get(ms, "definitions") == Some(Obj(defs)) && '/' !in name
    ensures Resolve(Obj(ms), DEFINITIONS_PREFIX + name) == Get(defs, name)
  {
    ResolveRoot(Obj(ms), name);
    WalkOne(defs, name);
  }

  lemma {:induction false} HiddenStays(q: string, names: set<string>)
    ensures q in Refs(Prune(Obj(HidingMembers(q)), names))
  {
    HidingFields(q);
    var after := Prune(Obj(HidingMembers(q)), names);
    HiddenIsThere(q);
    MemberRefs(after, Member("x", Hiding(q)));
  }
}
