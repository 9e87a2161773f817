/**
 `build_flat_v2_schema`: the v2 namespace is moved to the root definitions, the
 shared root schemas and everything they still need are pulled in beside it,
 and every reference is rewritten (`codex-rs/app-server-protocol/src/export.rs`).
 */
module Flatten {
  import opened Text
  import opened Json
  import opened SchemaRefs
  import opened SchemaMeaning
  import opened Reachability

  const SHARED := ["ClientRequest", "ServerNotification"]

  datatype FlatError =
    | RootNotAnObject
    | NoDefinitions
    | NoV2Namespace
    | StillNamespaced(references: set<string>)
    | MissingDefinitions(names: set<string>)

  // ----- reachability

  /** `collect_non_v2_refs`: the root definitions a schema names. */
  function NonV2Names(v: Value): (names: set<string>) {
    set r | r in Refs(v) && DEFINITIONS_PREFIX <= r && !(V2_PREFIX <= r) :: r[|DEFINITIONS_PREFIX|..]
  }

  function Deps(defs: seq<Member>, name: string): (names: set<string>) {
    match Get(defs, name) case Some(schema) => NonV2Names(schema) case None => {}
  }

  function Names(defs: seq<Member>): (names: set<string>) {
    set m | m in defs :: m.key
  }

  function DependencyEdges(defs: seq<Member>): (edges: Edges)
    ensures forall n :: n in edges <==> Get(defs, n).Some?
    ensures forall n :: n in edges ==> edges[n] == Deps(defs, n)
  {
    map n | n in Names(defs) :: Deps(defs, n)
  }

  /** `collect_definition_dependencies`. */
  method CollectDefinitionDependencies(defs: seq<Member>, names: set<string>) returns (seen: set<string>)
    ensures seen == Reach(DependencyEdges(defs), names)
  {
    ReachIsLeastClosed(DependencyEdges(defs), names);
    seen := MarkWhenPopped(DependencyEdges(defs), names, Reach(DependencyEdges(defs), names));
  }

  // ----- what the flat bundle should hold

  /** The shared root schemas a bundle has, and the root names they use. */
  function SharedPresent(defs: seq<Member>): (names: set<string>) {
    set n | n in {"ClientRequest", "ServerNotification"} && Get(defs, n).Some?
  }

  function SharedRefs(defs: seq<Member>): (names: set<string>) {
    set n, r | n in SharedPresent(defs) && r in Deps(defs, n) :: r
  }

  /** The root definitions that survive: shared ones and what they reach. */
  ghost function KeptRoots(defs: seq<Member>): set<string> {
    set n | n in SharedPresent(defs) + Reach(DependencyEdges(defs), SharedRefs(defs)) && n != "v2" && Get(defs, n).Some?
  }

  predicate HasDefinitions(bundle: Value) {
    bundle.Obj? && Get(bundle.members, "definitions").Some? && Get(bundle.members, "definitions").value.Obj?
  }

  function Definitions(bundle: Value): seq<Member>
    requires HasDefinitions(bundle)
  {
    Get(bundle.members, "definitions").value.members
  }

  predicate HasV2(bundle: Value) {
    HasDefinitions(bundle) && Get(Definitions(bundle), "v2").Some? && Get(Definitions(bundle), "v2").value.Obj?
  }

  ghost function PartsOf(bundle: Value): Parts
    requires HasV2(bundle)
  {
    var defs := Definitions(bundle);
    Parts(bundle.members, defs, Get(defs, "v2").value.members, KeptRoots(defs))
  }

  /** A bundle taken apart: root members, definitions, v2 definitions, surviving root names. */
  datatype Parts = Parts(root: seq<Member>, defs: seq<Member>, v2: seq<Member>, roots: set<string>) {

    ghost predicate Valid() {
      && UniqueKeys(root) && UniqueKeys(v2)
      && Get(root, "definitions") == Some(Obj(defs)) && Get(defs, "v2") == Some(Obj(v2))
      && SharedPresent(defs) <= roots
      && (forall n :: n in roots ==> n != "v2" && Get(defs, n).Some?)
      && (forall n, d :: n in roots && d in Deps(defs, n) && d != "v2" && Get(defs, d).Some? ==> d in roots)
    }

    /** What ends up under `name`, before references are rewritten. */
    ghost function Kept(name: string): Option<Value> {
      if name in SharedPresent(defs) then Get(defs, name)
      else if Get(v2, name).Some? then Get(v2, name)
      else if name in roots then Get(defs, name)
      else None
    }

    ghost predicate KeptRef(ref: string) {
      exists n :: Kept(n).Some? && ref in Refs(Kept(n).value)
    }

    ghost predicate IsV2Ref(ref: string) {
      exists n :: '/' !in n && Get(v2, n).Some? && ref == V2_PREFIX + n
    }

    ghost predicate IsRootRef(ref: string) {
      exists n :: '/' !in n && Get(defs, n).Some? && ref == DEFINITIONS_PREFIX + n
    }

    /**
     References sit inside definitions only, have one segment and resolve, and v2
     definitions refer only to v2.
     */
    ghost predicate Shaped() {
      && OwnRef(Obj(root)).None? && OwnRef(Obj(defs)).None? && OwnRef(Obj(v2)).None?
      && (forall m :: m in root && m.key != "definitions" ==> Refs(m.value) == {})
      && (forall n, r :: Get(v2, n).Some? && r in Refs(Get(v2, n).value) ==> IsV2Ref(r))
      && (forall n, r :: n in roots && Get(defs, n).Some? && r in Refs(Get(defs, n).value) ==>
            IsV2Ref(r) || IsRootRef(r))
    }

    /** No v2 name is also the name of a surviving root definition. */
    ghost predicate NoClash() {
      forall n :: n in roots ==> Get(v2, n).None?
    }

    /** Something kept points at the namespace object itself. */
    ghost predicate RefersToNamespace() {
      KeptRef(DEFINITIONS_PREFIX + "v2")
    }

    /** Something kept points at the namespace object, and no v2 definition has its name. */
    ghost predicate LosesNamespace() {
      RefersToNamespace() && Get(v2, "v2").None?
    }

    /** The flat definitions are the rewritten copies of everything kept. */
    ghost predicate HasFlatContents(flat: Value) {
      HasDefinitions(flat) && forall n :: Get(Definitions(flat), n) == FlatOption(Kept(n))
    }

    /** The references of `flat` are the rewritten kept references and no others. */
    ghost predicate HasFlatRefs(flat: Value) {
      && (forall r :: r in Refs(flat) ==> exists q :: KeptRef(q) && r == Flat(q))
      && (forall q :: KeptRef(q) ==> Flat(q) in Refs(flat))
    }

    /** Every kept reference resolves, and to the rewritten copy of its old target. */
    ghost predicate PreservesTargets(flat: Value) {
      forall q :: KeptRef(q) ==>
        exists n :: Kept(n).Some? && Resolve(Obj(root), q) == Kept(n) && Resolve(flat, Flat(q)) == FlatOption(Kept(n))
    }

    /** A kept reference, once rewritten, names `name`. */
    ghost predicate LeadsTo(q: string, name: string) {
      && '/' !in name
      && Flat(q) == DEFINITIONS_PREFIX + name
      && (|| (q == V2_PREFIX + name && Get(v2, name).Some?)
          || (q == DEFINITIONS_PREFIX + name && (name in roots || name == "v2")))
    }

    /** Two definitions share the name, and the one the reference meant is not the one that is kept. */
    ghost predicate Redirected(q: string, name: string) {
      if q == V2_PREFIX + name then
        name in SharedPresent(defs) && FlatOption(Get(defs, name)) != FlatOption(Get(v2, name))
      else
        name !in SharedPresent(defs) && Get(v2, name).Some? && FlatOption(Get(v2, name)) != FlatOption(Get(defs, name))
    }

    /** The kept references that change target are the redirected ones and no others. */
    ghost predicate RedirectsExactly(flat: Value) {
      forall q, name :: KeptRef(q) && LeadsTo(q, name) ==>
        (Resolve(flat, Flat(q)) == FlatOption(Resolve(Obj(root), q)) <==> !Redirected(q, name))
    }
  }

  function FlatOption(v: Option<Value>): Option<Value> {
    match v case Some(x) => Some(FlatValue(x)) case None => None
  }

  lemma {:induction false} KeptRootsClosed(defs: seq<Member>, n: string, d: string)
    requires n in KeptRoots(defs) && d in Deps(defs, n) && d != "v2" && Get(defs, d).Some?
    ensures d in KeptRoots(defs)
  {
    var reach := Reach(DependencyEdges(defs), SharedRefs(defs));
    ReachIsLeastClosed(DependencyEdges(defs), SharedRefs(defs));
    if n in SharedPresent(defs) {
      assert d in SharedRefs(defs);
    } else {
      assert Deps(defs, n) <= reach;
    }
  }

  lemma {:induction false} SharedAreKept(defs: seq<Member>)
    ensures SharedPresent(defs) <= KeptRoots(defs)
  {
    assert forall n :: n in SHARED ==> n != "v2";
  }

  lemma {:induction false} NamespaceKeysUnique(bundle: Value, defs: seq<Member>, v2: seq<Member>)
    requires bundle.Obj? && Distinct(bundle)
    requires Get(bundle.members, "definitions") == Some(Obj(defs)) && Get(defs, "v2") == Some(Obj(v2))
    ensures UniqueKeys(bundle.members) && UniqueKeys(v2)
  {
    ChildOf(bundle, Member("definitions", Obj(defs)));
    assert Distinct(Obj(defs));
    ChildOf(Obj(defs), Member("v2", Obj(v2)));
    assert Distinct(Obj(v2));
  }

  lemma {:induction false} PartsAreValid(bundle: Value)
    requires HasV2(bundle) && Distinct(bundle)
    ensures PartsOf(bundle).Valid()
  {
    var defs := Definitions(bundle);
    NamespaceKeysUnique(bundle, defs, Get(defs, "v2").value.members);
    SharedAreKept(defs);
    forall n, d | n in KeptRoots(defs) && d in Deps(defs, n) && d != "v2" && Get(defs, d).Some?
      ensures d in KeptRoots(defs)
    {
      KeptRootsClosed(defs, n, d);
    }
  }

  // ----- what happens to the rest of the root

  /** The title is extended; without one, or with one that is no string, the default is. */
  predicate IsTitled(bundle: Value, flat: Value)
    requires bundle.Obj? && flat.Obj?
  {
    Get(flat.members, "title") == match Get(bundle.members, "title") {
      case Some(Str(s)) => Some(Str(s + "V2"))
      case _ => Some(Str("CodexAppServerProtocol" + "V2"))
    }
  }

  /** A root member as it should be found in the flat bundle. */
  function CarriedOver(bundle: Value, key: string): Option<Value>
    requires bundle.Obj?
  {
    if key == "$ref" && OwnRef(bundle).Some? then Some(Str(Flat(OwnRef(bundle).value)))
    else FlatOption(Get(bundle.members, key))
  }

  /** Every root member but `title` and `definitions` is kept, its references rewritten. */
  ghost predicate CarriesRest(bundle: Value, flat: Value)
    requires bundle.Obj? && flat.Obj?
  {
    forall k :: k != "title" && k != "definitions" ==> Get(flat.members, k) == CarriedOver(bundle, k)
  }

  // ----- the operation

  function TitleOf(root: seq<Member>): string {
    match Get(root, "title") case Some(Str(s)) => s case _ => "CodexAppServerProtocol"
  }

  /** A v2 definition wins its name; a needed root definition takes a name v2 leaves free. */
  function PulledIn(defs: seq<Member>, v2: seq<Member>, names: set<string>, n: string): Option<Value> {
    if Get(v2, n).None? && n in names && n != "v2" then Get(defs, n) else Get(v2, n)
  }

  /** The dependency loop: names already present, and `v2` itself, are skipped. */
  method PullIn(defs: seq<Member>, v2: seq<Member>, names: set<string>) returns (flat: seq<Member>)
    requires UniqueKeys(v2)
    ensures UniqueKeys(flat)
    ensures forall n :: Get(flat, n) == PulledIn(defs, v2, names, n)
  {
    flat := v2;
    var left := names;
    while left != {}
      invariant left <= names
      invariant UniqueKeys(flat)
      invariant forall n :: Get(flat, n) ==
                  (if Get(v2, n).None? && n in names - left && n != "v2" then Get(defs, n) else Get(v2, n))
    {
      var name :| name in left;
      left := left - {name};
      if name != "v2" && Get(flat, name).None? && Get(defs, name).Some? {
        flat := Put(flat, name, Get(defs, name).value);
      }
    }
  }

  /** `flat_definitions.extend(shared_definitions)`. */
  method AddShared(defs: seq<Member>, pulled: seq<Member>) returns (flat: seq<Member>)
    requires UniqueKeys(pulled)
    ensures UniqueKeys(flat)
    ensures forall n :: Get(flat, n) == (if n in SharedPresent(defs) then Get(defs, n) else Get(pulled, n))
  {
    flat := pulled;
    for i := 0 to |SHARED|
      invariant UniqueKeys(flat)
      invariant forall n :: Get(flat, n) ==
                  (if n in SHARED[..i] && Get(defs, n).Some? then Get(defs, n) else Get(pulled, n))
    {
      assert SHARED[..i + 1] == SHARED[..i] + [SHARED[i]];
      if Get(defs, SHARED[i]).Some? {
        flat := Put(flat, SHARED[i], Get(defs, SHARED[i]).value);
      }
    }
    assert SHARED[..|SHARED|] == SHARED;
  }

  /** The flat definitions map, before references are rewritten. */
  method FlatDefinitions(defs: seq<Member>, v2: seq<Member>) returns (flat: seq<Member>)
    requires UniqueKeys(v2)
    ensures UniqueKeys(flat)
    ensures forall n, root :: Get(flat, n) == Parts(root, defs, v2, KeptRoots(defs)).Kept(n)
  {
    var deps := CollectDefinitionDependencies(defs, SharedRefs(defs));
    var pulled := PullIn(defs, v2, deps);
    flat := AddShared(defs, pulled);
  }

  /** The flat bundle before references are rewritten. */
  function FlatRootMembers(root: seq<Member>, flatDefs: seq<Member>): (r: seq<Member>) {
    Put(Put(root, "title", Str(TitleOf(root) + "V2")), "definitions", Obj(flatDefs))
  }

  /** `ensure_referenced_definitions_present`: referenced names the definitions lack. */
  function Missing(schema: Value, defs: seq<Member>): (names: set<string>) {
    set r | r in Refs(schema) && DEFINITIONS_PREFIX <= r && Get(defs, FirstSegment(r[|DEFINITIONS_PREFIX|..])).None?
      :: FirstSegment(r[|DEFINITIONS_PREFIX|..])
  }

  // ----- contents and references of the result

  lemma {:induction false} RootRefsAreDefinitionRefs(root: seq<Member>, flatDefs: seq<Member>, q: string)
    requires UniqueKeys(root) && OwnRef(Obj(root)).None?
    requires forall m :: m in root && m.key != "definitions" ==> Refs(m.value) == {}
    ensures q in Refs(Obj(FlatRootMembers(root, flatDefs))) <==> q in Refs(Obj(flatDefs))
  {
    var root' := FlatRootMembers(root, flatDefs);
    assert OwnRef(Obj(root')).None?;
    RefsOfObject(root', q);
    if m :| m in root' && q in Refs(m.value) {
      GetUnique(root', m);
      NoOtherRefs(root, flatDefs, m);
    }
    assert Member("definitions", Obj(flatDefs)) in root';
  }

  lemma {:induction false} NoOtherRefs(root: seq<Member>, flatDefs: seq<Member>, m: Member)
    requires UniqueKeys(root) && m in FlatRootMembers(root, flatDefs)
    requires forall m :: m in root && m.key != "definitions" ==> Refs(m.value) == {}
    ensures m.key != "definitions" ==> Refs(m.value) == {}
  {
    var titled := Put(root, "title", Str(TitleOf(root) + "V2"));
    if m.key == "title" {
      GetUnique(FlatRootMembers(root, flatDefs), m);
    } else if m.key != "definitions" {
      assert m in titled && m in root;
    }
  }

  lemma {:induction false} DefinitionRefsAreKept(b: Parts, flatDefs: seq<Member>, q: string)
    requires OwnRef(Obj(b.defs)).None? && OwnRef(Obj(b.v2)).None? && UniqueKeys(flatDefs)
    requires forall n :: Get(flatDefs, n) == b.Kept(n)
    ensures OwnRef(Obj(flatDefs)).None?
    ensures q in Refs(Obj(flatDefs)) <==> b.KeptRef(q)
  {
    assert Get(flatDefs, "$ref") == b.Kept("$ref");
    RefsOfObject(flatDefs, q);
    if m :| m in flatDefs && q in Refs(m.value) {
      GetUnique(flatDefs, m);
      assert b.Kept(m.key) == Some(m.value);
    }
    if n :| b.Kept(n).Some? && q in Refs(b.Kept(n).value) {
      assert Member(n, Get(flatDefs, n).value) in flatDefs;
    }
  }

  lemma {:induction false} FlatContents(b: Parts, flatDefs: seq<Member>)
    requires OwnRef(Obj(b.defs)).None? && OwnRef(Obj(b.v2)).None? && UniqueKeys(flatDefs)
    requires forall n :: Get(flatDefs, n) == b.Kept(n)
    ensures b.HasFlatContents(FlatValue(Obj(FlatRootMembers(b.root, flatDefs))))
  {
    var root' := FlatRootMembers(b.root, flatDefs);
    GetRewritten(root', "definitions", V2_PREFIX, DEFINITIONS_PREFIX);
    DefinitionRefsAreKept(b, flatDefs, "");
    forall n
      ensures Get(FlatValue(Obj(flatDefs)).members, n) == FlatOption(b.Kept(n))
    {
      GetRewritten(flatDefs, n, V2_PREFIX, DEFINITIONS_PREFIX);
    }
  }

  lemma {:induction false} FlatRefs(b: Parts, flatDefs: seq<Member>)
    requires b.Valid() && b.Shaped() && UniqueKeys(flatDefs)
    requires forall n :: Get(flatDefs, n) == b.Kept(n)
    ensures b.HasFlatRefs(FlatValue(Obj(FlatRootMembers(b.root, flatDefs))))
  {
    var whole := Obj(FlatRootMembers(b.root, flatDefs));
    forall q
      ensures q in Refs(whole) <==> b.KeptRef(q)
    {
      RootRefsAreDefinitionRefs(b.root, flatDefs, q);
      DefinitionRefsAreKept(b, flatDefs, q);
    }
    RewrittenAreFlat(b, whole);
  }

  lemma {:induction false} FlatRefOrigin(v: Value, r: string) returns (q: string)
    requires r in Refs(FlatValue(v))
    ensures q in Refs(v) && r == Flat(q)
  {
    RefsRewritten(v, V2_PREFIX, DEFINITIONS_PREFIX);
    q :| q in Refs(v) && r == ReplaceAll(q, V2_PREFIX, DEFINITIONS_PREFIX);
  }

  lemma {:induction false} RewrittenAreFlat(b: Parts, whole: Value)
    requires forall q :: q in Refs(whole) <==> b.KeptRef(q)
    ensures b.HasFlatRefs(FlatValue(whole))
  {
    forall r | r in Refs(FlatValue(whole))
      ensures exists q :: b.KeptRef(q) && r == Flat(q)
    {
      var q := FlatRefOrigin(whole, r);
    }
    forall q | b.KeptRef(q)
      ensures Flat(q) in Refs(FlatValue(whole))
    {
      RefsRewritten(whole, V2_PREFIX, DEFINITIONS_PREFIX);
    }
  }

  // ----- where kept references lead

  lemma {:induction false} NamesNoNamespace(name: string)
    requires '/' !in name
    ensures !(V2_PREFIX <= DEFINITIONS_PREFIX + name)
    ensures (DEFINITIONS_PREFIX + name)[|DEFINITIONS_PREFIX|..] == name
    ensures FirstSegment(name) == name
  {
    SplitWhole(name, '/');
    assert |name| > 2 ==> (DEFINITIONS_PREFIX + name)[|V2_PREFIX| - 1] == name[2];
  }

  lemma {:induction false} RefGivesName(v: Value, name: string)
    requires '/' !in name && DEFINITIONS_PREFIX + name in Refs(v)
    ensures name in NonV2Names(v)
  {
    NamesNoNamespace(name);
    var r := DEFINITIONS_PREFIX + name;
    assert r[|DEFINITIONS_PREFIX|..] == name;
  }

  lemma {:induction false} RootRefIsNeeded(b: Parts, n: string, name: string)
    requires b.Valid() && n in b.roots && '/' !in name && name != "v2" && Get(b.defs, name).Some?
    requires DEFINITIONS_PREFIX + name in Refs(Get(b.defs, n).value)
    ensures name in b.roots
  {
    RefGivesName(Get(b.defs, n).value, name);
    assert name in Deps(b.defs, n);
  }

  lemma {:induction false} KeptRefOrigin(b: Parts, q: string) returns (n: string)
    requires b.Valid() && b.Shaped() && b.KeptRef(q) && !b.IsV2Ref(q)
    ensures n in b.roots && q in Refs(Get(b.defs, n).value) && b.IsRootRef(q)
  {
    n :| b.Kept(n).Some? && q in Refs(b.Kept(n).value);
    assert n !in SharedPresent(b.defs) ==> Get(b.v2, n).None?;
  }

  lemma {:induction false} KeptRefLeads(b: Parts, q: string) returns (name: string)
    requires b.Valid() && b.Shaped() && b.KeptRef(q)
    ensures b.LeadsTo(q, name)
  {
    if b.IsV2Ref(q) {
      name :| '/' !in name && Get(b.v2, name).Some? && q == V2_PREFIX + name;
      FlatV2(name);
    } else {
      var n := KeptRefOrigin(b, q);
      name :| '/' !in name && Get(b.defs, name).Some? && q == DEFINITIONS_PREFIX + name;
      FlatRoot(name);
      if name != "v2" {
        RootRefIsNeeded(b, n, name);
      }
    }
  }

  lemma {:induction false} LookUpRoot(v: Value, name: string)
    requires HasDefinitions(v) && '/' !in name
    ensures Resolve(v, DEFINITIONS_PREFIX + name) == Get(Definitions(v), name)
  {
    ResolveRoot(v, name);
  }

  lemma {:induction false} LookUpV2(b: Parts, name: string)
    requires Get(b.root, "definitions") == Some(Obj(b.defs)) && Get(b.defs, "v2") == Some(Obj(b.v2)) && '/' !in name
    ensures Resolve(Obj(b.root), V2_PREFIX + name) == Get(b.v2, name)
  {
    assert Field(Obj(b.root), "definitions") == Some(Obj(b.defs));
    ResolveV2(Obj(b.root), name);
    WalkTwo(b.defs, "v2", b.v2, name);
  }

  lemma {:induction false} KeptTarget(b: Parts, q: string, name: string)
    requires b.Valid() && b.NoClash() && b.LeadsTo(q, name) && q != DEFINITIONS_PREFIX + "v2"
    ensures b.Kept(name).Some? && Resolve(Obj(b.root), q) == b.Kept(name)
  {
    if q == V2_PREFIX + name && Get(b.v2, name).Some? {
      LookUpV2(b, name);
    } else {
      LookUpRoot(Obj(b.root), name);
    }
  }

  lemma {:induction false} TargetsPreserved(b: Parts, flat: Value)
    requires b.Valid() && b.Shaped() && b.NoClash() && !b.RefersToNamespace() && b.HasFlatContents(flat)
    ensures b.PreservesTargets(flat)
  {
    forall q | b.KeptRef(q)
      ensures exists n :: b.Kept(n).Some? && Resolve(Obj(b.root), q) == b.Kept(n)
                       && Resolve(flat, Flat(q)) == FlatOption(b.Kept(n))
    {
      var name := KeptRefLeads(b, q);
      LookUpRoot(flat, name);
      KeptTarget(b, q, name);
    }
  }

  /** With clashes: a kept reference still finds the copy of its target exactly when it is not redirected. */
  lemma {:induction false} RedirectedExactly(b: Parts, flat: Value, q: string, name: string)
    requires b.Valid() && b.HasFlatContents(flat) && b.LeadsTo(q, name)
    requires q != DEFINITIONS_PREFIX + "v2" || Get(b.v2, "v2").Some?
    ensures Resolve(flat, Flat(q)) == FlatOption(Resolve(Obj(b.root), q)) <==> !b.Redirected(q, name)
  {
    LookUpRoot(flat, name);
    if q == V2_PREFIX + name {
      NamesNoNamespace(name);
      LookUpV2(b, name);
    } else {
      LookUpRoot(Obj(b.root), name);
    }
  }

  lemma {:induction false} RedirectsAreExact(b: Parts, flat: Value)
    requires b.Valid() && b.HasFlatContents(flat) && !b.LosesNamespace()
    ensures b.RedirectsExactly(flat)
  {
    forall q, name | b.KeptRef(q) && b.LeadsTo(q, name)
      ensures Resolve(flat, Flat(q)) == FlatOption(Resolve(Obj(b.root), q)) <==> !b.Redirected(q, name)
    {
      RedirectedExactly(b, flat, q, name);
    }
  }

  // ----- when the two final checks pass

  lemma {:induction false} NotMissing(b: Parts, flat: Value, q: string)
    requires b.Valid() && b.Shaped() && b.HasFlatContents(flat) && b.KeptRef(q)
    requires q != DEFINITIONS_PREFIX + "v2" || Get(b.v2, "v2").Some?
    ensures DEFINITIONS_PREFIX <= Flat(q) && !(V2_PREFIX <= Flat(q))
    ensures Get(Definitions(flat), FirstSegment(Flat(q)[|DEFINITIONS_PREFIX|..])).Some?
  {
    var name := KeptRefLeads(b, q);
    NamesNoNamespace(name);
    LeadsToKept(b, q, name);
  }

  lemma {:induction false} LeadsToKept(b: Parts, q: string, name: string)
    requires b.Valid() && b.LeadsTo(q, name) && (q != DEFINITIONS_PREFIX + "v2" || Get(b.v2, "v2").Some?)
    ensures b.Kept(name).Some?
  {
  }

  lemma {:induction false} NamespaceIsMissing(b: Parts, flat: Value)
    requires b.Valid() && b.HasFlatContents(flat) && b.HasFlatRefs(flat)
    requires b.LosesNamespace()
    ensures "v2" in Missing(flat, Definitions(flat))
  {
    var q := DEFINITIONS_PREFIX + "v2";
    FlatRoot("v2");
    NamesNoNamespace("v2");
    assert q in Refs(flat);
    assert "v2" !in SharedPresent(b.defs) && b.Kept("v2").None?;
  }

  lemma {:induction false} OnlyNamespaceMissing(b: Parts, flat: Value, q: string)
    requires b.Valid() && b.Shaped() && b.HasFlatContents(flat) && b.KeptRef(q)
    ensures DEFINITIONS_PREFIX <= Flat(q) && !(V2_PREFIX <= Flat(q))
    ensures var name := FirstSegment(Flat(q)[|DEFINITIONS_PREFIX|..]);
      Get(Definitions(flat), name).None? ==> name == "v2" && b.LosesNamespace()
  {
    if q == DEFINITIONS_PREFIX + "v2" {
      MaybeNamespaceMissing(b, flat, q, "v2");
    } else {
      NotMissing(b, flat, q);
    }
  }

  lemma {:induction false} MaybeNamespaceMissing(b: Parts, flat: Value, q: string, ns: string)
    requires ns == "v2" && q == DEFINITIONS_PREFIX + ns && b.HasFlatContents(flat) && b.KeptRef(q)
    ensures DEFINITIONS_PREFIX <= Flat(q) && !(V2_PREFIX <= Flat(q))
    ensures FirstSegment(Flat(q)[|DEFINITIONS_PREFIX|..]) == ns
    ensures Get(Definitions(flat), ns).None? ==> b.LosesNamespace()
  {
    NamespaceName(q, ns);
  }

  lemma {:induction false} NamespaceName(q: string, name: string)
    requires q == DEFINITIONS_PREFIX + name && '/' !in name
    ensures Flat(q) == q && DEFINITIONS_PREFIX <= q && !(V2_PREFIX <= q)
    ensures FirstSegment(q[|DEFINITIONS_PREFIX|..]) == name
  {
    FlatRoot(name);
    NamesNoNamespace(name);
  }

  /** The flattening succeeds exactly when nothing kept points at the namespace object; else only that is missing. */
  lemma {:induction false} ChecksPassExactly(b: Parts, flat: Value)
    requires b.Valid() && b.Shaped() && b.HasFlatContents(flat) && b.HasFlatRefs(flat)
    ensures forall r :: r in Refs(flat) ==> !(V2_PREFIX <= r)
    ensures Missing(flat, Definitions(flat)) == if b.LosesNamespace() then {"v2"} else {}
  {
    forall r | r in Refs(flat)
      ensures DEFINITIONS_PREFIX <= r && !(V2_PREFIX <= r)
      ensures var name := FirstSegment(r[|DEFINITIONS_PREFIX|..]);
        Get(Definitions(flat), name).None? ==> name == "v2" && b.LosesNamespace()
    {
      var q :| b.KeptRef(q) && r == Flat(q);
      OnlyNamespaceMissing(b, flat, q);
    }
    if b.LosesNamespace() {
      NamespaceIsMissing(b, flat);
    }
  }

  /**
   Flattening a bundle. Whatever succeeds has no namespaced and no dangling
   reference. On bundles of the shape the exporter produces it succeeds exactly
   when nothing kept points at the namespace object; the references that then lead
   elsewhere are those redirected by a name clash, and without clashes there are none.
   */
  method BuildFlatV2Schema(bundle: Value) returns (r: Result<Value, FlatError>)
    requires Distinct(bundle)
    ensures !bundle.Obj? ==> r == Err(RootNotAnObject)
    ensures bundle.Obj? && !HasDefinitions(bundle) ==> r == Err(NoDefinitions)
    ensures HasDefinitions(bundle) && !HasV2(bundle) ==> r == Err(NoV2Namespace)
    ensures r.Ok? ==> HasV2(bundle) && HasDefinitions(r.value)
    ensures r.Ok? ==> forall q :: q in Refs(r.value) && DEFINITIONS_PREFIX <= q ==>
      Get(Definitions(r.value), FirstSegment(q[|DEFINITIONS_PREFIX|..])).Some?
    ensures r.Ok? ==> forall q :: q in Refs(r.value) ==> !(V2_PREFIX <= q)
    ensures r.Ok? ==> IsTitled(bundle, r.value) && CarriesRest(bundle, r.value) && UniqueKeys(r.value.members)
    ensures r.Ok? ==> forall n :: n != "$ref" ==> Get(Definitions(r.value), n) == FlatOption(PartsOf(bundle).Kept(n))
    ensures HasV2(bundle) && PartsOf(bundle).Shaped() ==>
      var b := PartsOf(bundle);
      && (if b.LosesNamespace() then r == Err(MissingDefinitions({"v2"})) else r.Ok?)
      && (r.Ok? ==> b.HasFlatContents(r.value) && b.HasFlatRefs(r.value) && b.RedirectsExactly(r.value))
      && (b.NoClash() && !b.RefersToNamespace() ==> r.Ok? && b.PreservesTargets(r.value))
  {
    if !bundle.Obj? {
      return Err(RootNotAnObject);
    }
    if !HasDefinitions(bundle) {
      return Err(NoDefinitions);
    }
    if !HasV2(bundle) {
      return Err(NoV2Namespace);
    }
    var root, defs := bundle.members, Definitions(bundle);
    var v2 := Get(defs, "v2").value.members;
    ghost var b := PartsOf(bundle);
    PartsAreValid(bundle);
    var flatDefs := FlatDefinitions(defs, v2);
    assert forall n :: Get(flatDefs, n) == b.Kept(n);
    var flat := FlatValue(Obj(FlatRootMembers(root, flatDefs)));
    FlatMembers(root, flatDefs);
    FlatDefined(b, flatDefs);
    if b.Shaped() {
      FlatContents(b, flatDefs);
      FlatRefs(b, flatDefs);
      ChecksPassExactly(b, flat);
      if !b.LosesNamespace() {
        RedirectsAreExact(b, flat);
      }
      if b.NoClash() && !b.RefersToNamespace() {
        TargetsPreserved(b, flat);
      }
    }
    var namespaced := set q | q in Refs(flat) && V2_PREFIX <= q;
    if namespaced != {} {
      var q :| q in namespaced;
      return Err(StillNamespaced(namespaced));
    }
    assert forall q :: q in Refs(flat) ==> q in namespaced || !(V2_PREFIX <= q);
    var missing := Missing(flat, Definitions(flat));
    if missing != {} {
      return Err(MissingDefinitions(missing));
    }
    NothingMissing(flat, Definitions(flat));
    return Ok(flat);
  }

  lemma {:induction false} NothingMissing(schema: Value, defs: seq<Member>)
    requires Missing(schema, defs) == {}
    ensures forall q :: q in Refs(schema) && DEFINITIONS_PREFIX <= q ==>
      Get(defs, FirstSegment(q[|DEFINITIONS_PREFIX|..])).Some?
  {
    forall q | q in Refs(schema) && DEFINITIONS_PREFIX <= q
      ensures Get(defs, FirstSegment(q[|DEFINITIONS_PREFIX|..])).Some?
    {
      var name := FirstSegment(q[|DEFINITIONS_PREFIX|..]);
      assert name !in Missing(schema, defs);
    }
  }

  lemma {:induction false} FlatMembers(root: seq<Member>, flatDefs: seq<Member>)
    requires UniqueKeys(root)
    ensures var flat := FlatValue(Obj(FlatRootMembers(root, flatDefs)));
      HasDefinitions(flat) && IsTitled(Obj(root), flat) && CarriesRest(Obj(root), flat) && UniqueKeys(flat.members)
  {
    var root' := FlatRootMembers(root, flatDefs);
    GetRewritten(root', "definitions", V2_PREFIX, DEFINITIONS_PREFIX);
    TitleRewritten(root, root');
    RestCarried(root, root');
    KeysRewritten(root');
  }

  lemma {:induction false} KeysRewritten(ms: seq<Member>)
    requires UniqueKeys(ms)
    ensures UniqueKeys(FlatValue(Obj(ms)).members)
  {
  }

  lemma {:induction false} TitleRewritten(root: seq<Member>, root': seq<Member>)
    requires Get(root', "title") == Some(Str(TitleOf(root) + "V2"))
    ensures IsTitled(Obj(root), FlatValue(Obj(root')))
  {
    GetRewritten(root', "title", V2_PREFIX, DEFINITIONS_PREFIX);
  }

  lemma {:induction false} RestCarried(root: seq<Member>, root': seq<Member>)
    requires forall k :: k != "title" && k != "definitions" ==> Get(root', k) == Get(root, k)
    ensures CarriesRest(Obj(root), FlatValue(Obj(root')))
  {
    forall k | k != "title" && k != "definitions"
      ensures Get(FlatValue(Obj(root')).members, k) == CarriedOver(Obj(root), k)
    {
      RestRewritten(root, root', k);
    }
  }

  lemma {:induction false} RestRewritten(root: seq<Member>, root': seq<Member>, k: string)
    requires Get(root', k) == Get(root, k) && Get(root', "$ref") == Get(root, "$ref")
    ensures Get(FlatValue(Obj(root')).members, k) == CarriedOver(Obj(root), k)
  {
    if k == "$ref" && OwnRef(Obj(root)).Some? {
      RefRewritten(root', V2_PREFIX, DEFINITIONS_PREFIX);
    } else {
      GetRewritten(root', k, V2_PREFIX, DEFINITIONS_PREFIX);
    }
  }

  lemma {:induction false} FlatDefined(b: Parts, flatDefs: seq<Member>)
    requires forall n :: Get(flatDefs, n) == b.Kept(n)
    ensures var flat := FlatValue(Obj(FlatRootMembers(b.root, flatDefs)));
      HasDefinitions(flat) && forall n :: n != "$ref" ==> Get(Definitions(flat), n) == FlatOption(b.Kept(n))
  {
    GetRewritten(FlatRootMembers(b.root, flatDefs), "definitions", V2_PREFIX, DEFINITIONS_PREFIX);
    forall n | n != "$ref"
      ensures Get(FlatValue(Obj(flatDefs)).members, n) == FlatOption(b.Kept(n))
    {
      GetRewritten(flatDefs, n, V2_PREFIX, DEFINITIONS_PREFIX);
    }
  }

  // ----- meaning

  lemma {:induction false} KeptDistinct(b: Parts, n: string)
    requires Distinct(Obj(b.defs)) && Distinct(Obj(b.v2)) && b.Kept(n).Some?
    ensures Distinct(b.Kept(n).value)
  {
    if Get(b.defs, n).Some? {
      ChildOf(Obj(b.defs), Member(n, Get(b.defs, n).value));
    }
    if Get(b.v2, n).Some? {
      ChildOf(Obj(b.v2), Member(n, Get(b.v2, n).value));
    }
  }

  ghost function KeptRefs(b: Parts): iset<string> {
    iset q | b.KeptRef(q)
  }

  lemma {:induction false} TargetLeads(b: Parts, flat: Value, q: string, n: string)
    requires Distinct(Obj(b.defs)) && Distinct(Obj(b.v2)) && b.Kept(n).Some?
    requires Resolve(Obj(b.root), q) == b.Kept(n) && Resolve(flat, Flat(q)) == FlatOption(b.Kept(n))
    ensures Leads(Obj(b.root), flat, KeptRefs(b), q, b.Kept(n).value)
  {
    KeptDistinct(b, n);
  }

  lemma {:induction false} KeptRefsFollow(b: Parts, flat: Value)
    requires b.PreservesTargets(flat) && Distinct(Obj(b.defs)) && Distinct(Obj(b.v2))
    ensures Follows(Obj(b.root), flat, KeptRefs(b))
  {
    forall q | q in KeptRefs(b)
      ensures LeadsOn(Obj(b.root), flat, KeptRefs(b), q)
    {
      var n :| b.Kept(n).Some? && Resolve(Obj(b.root), q) == b.Kept(n)
               && Resolve(flat, Flat(q)) == FlatOption(b.Kept(n));
      TargetLeads(b, flat, q, n);
    }
  }

  /** To every depth, what a kept definition means is what its rewritten copy means in the flat bundle. */
  lemma {:induction false} DefinitionsKeepTheirMeaning(b: Parts, flat: Value, n: string, depth: nat)
    requires b.PreservesTargets(flat) && Distinct(Obj(b.defs)) && Distinct(Obj(b.v2)) && b.Kept(n).Some?
    ensures Unfold(flat, FlatValue(b.Kept(n).value), depth) == Unfold(Obj(b.root), b.Kept(n).value, depth)
  {
    KeptRefsFollow(b, flat);
    KeptDistinct(b, n);
    MeaningPreserved(Obj(b.root), flat, KeptRefs(b), b.Kept(n).value, depth);
  }

  /** Following a kept reference gives the same schema, to every depth, in both bundles. */
  lemma {:induction false} ReferencesKeepTheirMeaning(b: Parts, flat: Value, q: string, depth: nat)
    requires b.PreservesTargets(flat) && Distinct(Obj(b.defs)) && Distinct(Obj(b.v2)) && b.KeptRef(q)
    ensures Unfold(flat, RefTo(Flat(q)), depth) == Unfold(Obj(b.root), RefTo(q), depth)
  {
    KeptRefsFollow(b, flat);
    FollowingPreserved(Obj(b.root), flat, KeptRefs(b), q, depth);
  }

  /**
   A well-shaped bundle without clashes that cannot be flattened: `ClientRequest`
   points at the v2 namespace object, which resolves before but is not carried over.
   */
  lemma {:induction false} NamespaceReferenceExample(b: Parts, q: string)
    requires q == DEFINITIONS_PREFIX + "v2" && b.v2 == [] && b.defs == ExampleDefinitions(q)
    requires b.root == [Member("definitions", Obj(b.defs))] && b.roots == KeptRoots(b.defs)
    ensures b.Shaped() && b.NoClash()
    ensures b.LosesNamespace()
    ensures Resolve(Obj(b.root), q) == Some(Obj([]))
    ensures HasV2(Obj(b.root)) && PartsOf(Obj(b.root)) == b && Distinct(Obj(b.root))
  {
    ExampleShapedToo(b, q);
    ExampleKeepsRef(b, q);
    ExampleBundle(b, q);
    ExampleTarget(b, q);
    ExampleDistinct(q);
  }

  lemma {:induction false} ExampleShapedToo(b: Parts, q: string)
    requires q == DEFINITIONS_PREFIX + "v2" && b.v2 == [] && b.defs == ExampleDefinitions(q)
    requires b.root == [Member("definitions", Obj(b.defs))] && b.roots == KeptRoots(b.defs)
    ensures b.Shaped()
  {
    ExampleRoots(q);
    ExampleShaped(b, q);
  }

  lemma {:induction false} ExampleTarget(b: Parts, q: string)
    requires q == DEFINITIONS_PREFIX + "v2" && b.defs == ExampleDefinitions(q)
    requires b.root == [Member("definitions", Obj(b.defs))]
    ensures Resolve(Obj(b.root), q) == Some(Obj([]))
  {
    ExampleResolves(b.defs, "v2");
  }

  lemma {:induction false} ExampleKeepsRef(b: Parts, q: string)
    requires q == DEFINITIONS_PREFIX + "v2" && b.defs == ExampleDefinitions(q)
    ensures b.RefersToNamespace()
  {
    ExampleLookups(q);
    KeepsTheRef(b, "ClientRequest", q);
  }

  lemma {:induction false} ExampleBundle(b: Parts, q: string)
    requires q == DEFINITIONS_PREFIX + "v2" && b.v2 == [] && b.defs == ExampleDefinitions(q)
    requires b.root == [Member("definitions", Obj(b.defs))] && b.roots == KeptRoots(b.defs)
    ensures HasV2(Obj(b.root)) && PartsOf(Obj(b.root)) == b
  {
    assert Get(b.root, "definitions") == Some(Obj(b.defs));
    assert Get(b.defs, "v2") == Some(Obj([]));
  }

  lemma {:induction false} ExampleResolves(defs: seq<Member>, name: string)
    requires '/' !in name
    ensures Resolve(Obj([Member("definitions", Obj(defs))]), DEFINITIONS_PREFIX + name) == Get(defs, name)
  {
    assert Get([Member("definitions", Obj(defs))], "definitions") == Some(Obj(defs));
    LookUpRoot(Obj([Member("definitions", Obj(defs))]), name);
  }

  lemma {:induction false} ExampleDistinct(q: string)
    ensures Distinct(Obj([Member("definitions", Obj(ExampleDefinitions(q)))]))
  {
    var defs := Obj(ExampleDefinitions(q));
    assert Children(RefTo(q)) == [Str(q)];
    assert Distinct(RefTo(q)) && Distinct(Obj([]));
    assert Children(defs) == [Obj([]), RefTo(q)];
    assert Children(Obj([Member("definitions", defs)])) == [defs];
  }

  lemma {:induction false} KeepsTheRef(b: Parts, n: string, q: string)
    requires n in SharedPresent(b.defs) && Get(b.defs, n) == Some(RefTo(q)) && Refs(RefTo(q)) == {q}
    ensures b.KeptRef(q)
  {
    assert b.Kept(n) == Some(RefTo(q));
  }

  lemma {:induction false} ExampleShaped(b: Parts, q: string)
    requires q == DEFINITIONS_PREFIX + "v2" && b.v2 == [] && b.defs == ExampleDefinitions(q)
    requires b.root == [Member("definitions", Obj(b.defs))] && b.roots == {"ClientRequest"}
    ensures b.Shaped()
  {
    ExampleLookups(q);
    ExampleRootRef(b.defs, b, q);
  }

  lemma {:induction false} ExampleRootRef(defs: seq<Member>, b: Parts, q: string)
    requires b.defs == defs && Get(defs, "v2").Some? && q == DEFINITIONS_PREFIX + "v2"
    ensures b.IsRootRef(q)
  {
    var n := "v2";
    assert '/' !in n && Get(b.defs, n).Some? && q == DEFINITIONS_PREFIX + n;
  }

  function ExampleDefinitions(q: string): seq<Member> {
    [Member("v2", Obj([])), Member("ClientRequest", RefTo(q))]
  }

  lemma {:induction false} ExampleLookups(q: string)
    requires q == DEFINITIONS_PREFIX + "v2"
    ensures Refs(RefTo(q)) == {q}
    ensures OwnRef(Obj(ExampleDefinitions(q))).None?
    ensures forall n :: Get(ExampleDefinitions(q), n) ==
              (if n == "v2" then Some(Obj([])) else if n == "ClientRequest" then Some(RefTo(q)) else None)
    ensures SharedPresent(ExampleDefinitions(q)) == {"ClientRequest"}
  {
    var defs := ExampleDefinitions(q);
    assert defs[1..] == [defs[1]];
    assert Get(RefTo(q).members, "$ref") == Some(Str(q));
    assert Children(RefTo(q)) == [Str(q)];
    assert Refs(Str(q)) == {};
    forall n
      ensures Get(defs, n) == if n == "v2" then Some(Obj([])) else if n == "ClientRequest" then Some(RefTo(q)) else None
    {
      assert Get(defs[1..], n) == if n == "ClientRequest" then Some(RefTo(q)) else None;
    }
    assert "ClientRequest" in SHARED by { assert SHARED[0] == "ClientRequest"; }
  }

  lemma {:induction false} ExampleRoots(q: string)
    requires q == DEFINITIONS_PREFIX + "v2"
    ensures KeptRoots(ExampleDefinitions(q)) == {"ClientRequest"}
  {
    ExampleLookups(q);
    OneRoot(ExampleDefinitions(q), "ClientRequest");
  }

  lemma {:induction false} OneRoot(defs: seq<Member>, name: string)
    requires name != "v2" && SharedPresent(defs) == {name}
    requires forall n :: Get(defs, n).Some? && n != "v2" <==> n == name
    ensures KeptRoots(defs) == {name}
  {
  }
}
