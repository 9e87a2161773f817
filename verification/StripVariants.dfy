/**
 `strip_method_variants_from_json_schema`: union variants for given methods are
 removed, then definitions nothing refers to any more
 (`codex-rs/app-server-protocol/src/export.rs`).
 */
module StripVariants {
  import opened Text
  import opened Json
  import opened SchemaRefs
  import opened Reachability

  // ----- which variants go

  /** `string_literal`: a `const` string, or else the first `enum` entry when it is a string. */
  function StringLiteral(v: Value): Option<string> {
    match Field(v, "const")
    case Some(Str(s)) => Some(s)
    case _ =>
      match Field(v, "enum")
      case Some(Arr(items)) => if |items| > 0 && items[0].Str? then Some(items[0].s) else None
      case _ => None
  }

  predicate IsMethodVariant(v: Value, methods: set<string>) {
    match Field(v, "properties")
    case Some(Obj(props)) =>
      (match Get(props, "method")
       case Some(m) => StringLiteral(m).Some? && StringLiteral(m).value in methods
       case None => false)
    case _ => false
  }

  /** `Vec::retain`, with what goes rather than what stays. */
  function Without<T>(items: seq<T>, gone: T -> bool): seq<T> {
    if items == [] then [] else (if gone(items[0]) then [] else [items[0]]) + Without(items[1..], gone)
  }

  function RetainVariants(items: seq<Value>, methods: set<string>): seq<Value> {
    Without(items, Removes(methods))
  }

  function Removes(methods: set<string>): Value -> bool {
    v => IsMethodVariant(v, methods)
  }

  lemma {:induction false} WithoutExactly<T>(items: seq<T>, gone: T -> bool, v: T)
    ensures v in Without(items, gone) <==> v in items && !gone(v)
  {
    if items != [] {
      WithoutExactly(items[1..], gone, v);
      assert items == [items[0]] + items[1..];
    }
  }

  lemma {:induction false} RetainedExactly(items: seq<Value>, methods: set<string>, v: Value)
    ensures v in RetainVariants(items, methods) <==> v in items && !IsMethodVariant(v, methods)
  {
    WithoutExactly(items, Removes(methods), v);
  }

  function RetainNames(ms: seq<Member>, names: set<string>): (r: seq<Member>)
    ensures forall m :: m in r <==> m in ms && m.key in names
    ensures forall k :: Get(r, k) == if k in names then Get(ms, k) else None
  {
    if ms == [] then []
    else
      var rest := RetainNames(ms[1..], names);
      if ms[0].key in names then
        var r := [ms[0]] + rest;
        assert r[1..] == rest;
        r
      else rest
  }

  // ----- which definitions stay

  function LocalNames(refs: set<string>): (names: set<string>) {
    set r | r in refs && DEFINITIONS_PREFIX <= r :: FirstSegment(r[|DEFINITIONS_PREFIX|..])
  }

  /** `collect_local_definition_refs_excluding_maps`: nested definition maps are not entered. */
  function OuterRefs(v: Value): (rs: set<string>)
    ensures rs <= Refs(v)
  {
    var own := OwnRefs(v);
    match v
    case Arr(items) => own + set c, r | c in items && r in OuterRefs(c) :: r
    case Obj(ms) =>
      var inner := set m, r | m in ms && m.key != "definitions" && m.key != "$defs" && r in OuterRefs(m.value) :: r;
      assert forall m :: m in ms ==> Refs(m.value) <= Refs(v) by {
        forall m | m in ms { MemberRefs(v, m); }
      }
      own + inner
    case _ => own
  }

  function LocalEdges(defs: seq<Member>): (edges: Edges)
    ensures forall n :: n in edges <==> Get(defs, n).Some?
    ensures forall n :: n in edges ==> edges[n] == LocalNames(Refs(Get(defs, n).value))
  {
    var names := set m | m in defs :: m.key;
    map n | n in names && Get(defs, n).Some? :: LocalNames(Refs(Get(defs, n).value))
  }

  /** `reachable_local_definitions` for the key `definitions`. */
  ghost function Reachable(schema: Value): set<string> {
    match Field(schema, "definitions")
    case Some(Obj(defs)) => Reach(LocalEdges(defs), LocalNames(OuterRefs(schema)))
    case _ => {}
  }

  method ReachableLocalDefinitions(schema: Value) returns (reachable: set<string>)
    ensures reachable == Reachable(schema)
  {
    match Field(schema, "definitions")
    case Some(Obj(defs)) =>
      var start := LocalNames(OuterRefs(schema));
      ReachIsLeastClosed(LocalEdges(defs), start);
      reachable := MarkWhenPushed(LocalEdges(defs), start, Reach(LocalEdges(defs), start));
    case _ =>
      reachable := {};
  }

  // ----- the operation

  predicate HasUnion(schema: Value) {
    Field(schema, "oneOf").Some? && Field(schema, "oneOf").value.Arr?
  }

  /** The schema once the variants are gone. */
  function Trimmed(schema: Value, methods: set<string>): Value
    requires HasUnion(schema)
  {
    Obj(Put(schema.members, "oneOf", Arr(RetainVariants(Field(schema, "oneOf").value.items, methods))))
  }

  ghost function Stripped(schema: Value, methods: set<string>): Value {
    if !HasUnion(schema) then schema
    else Prune(Trimmed(schema, methods), Reachable(Trimmed(schema, methods)))
  }

  /** Drops the definitions not named; a schema without a definitions map is unchanged. */
  function Prune(schema: Value, names: set<string>): Value {
    match Field(schema, "definitions")
    case Some(Obj(defs)) => Obj(Put(schema.members, "definitions", Obj(RetainNames(defs, names))))
    case _ => schema
  }

  /** A map that holds the definitions in `names` and no others. */
  ghost predicate KeepsOnly(map_: Option<Value>, defs: seq<Member>, names: set<string>) {
    && map_.Some? && map_.value.Obj?
    && forall n :: Get(map_.value.members, n) == if n in names then Get(defs, n) else None
  }

  method StripMethodVariants(schema: Value, methods: set<string>) returns (r: Value)
    ensures r == Stripped(schema, methods)
    ensures !HasUnion(schema) ==> r == schema
    ensures HasUnion(schema) ==>
      && Field(r, "oneOf") == Some(Arr(RetainVariants(Field(schema, "oneOf").value.items, methods)))
      && (forall k :: k != "oneOf" && k != "definitions" ==> Field(r, k) == Field(schema, k))
      && match Field(schema, "definitions") {
           case Some(Obj(defs)) => KeepsOnly(Field(r, "definitions"), defs, Reachable(Trimmed(schema, methods)))
           case other => Field(r, "definitions") == other
         }
  {
    if !HasUnion(schema) {
      return schema;
    }
    var trimmed := Trimmed(schema, methods);
    var reachable := ReachableLocalDefinitions(trimmed);
    r := Prune(trimmed, reachable);
  }
}
