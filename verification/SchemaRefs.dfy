/**
 `$ref` strings inside a JSON schema: where they are, what they point at and
 what rewriting them does (`codex-rs/app-server-protocol/src/export.rs`).
 */
module SchemaRefs {
  import opened Text
  import opened Json

  const DEFINITIONS_PREFIX := "#/" + "definitions" + "/"
  const V2_PREFIX := DEFINITIONS_PREFIX + "v2/"

  /** The reference an object carries itself: a `$ref` member that is a string. */
  function OwnRef(v: Value): (r: Option<string>)
    ensures r.Some? <==> v.Obj? && Get(v.members, "$ref").Some? && Get(v.members, "$ref").value.Str?
    ensures r.Some? ==> Get(v.members, "$ref") == Some(Str(r.value))
  {
    match Field(v, "$ref")
    case Some(Str(s)) => Some(s)
    case _ => None
  }

  function OwnRefs(v: Value): (rs: set<string>) {
    if OwnRef(v).Some? then {OwnRef(v).value} else {}
  }

  /** Every reference in `v`, at any depth. */
  function Refs(v: Value): (rs: set<string>)
    ensures forall c, r :: c in Children(v) && r in Refs(c) ==> r in rs
  {
    OwnRefs(v) + set c, r | c in Children(v) && r in Refs(c) :: r
  }

  function RefTo(q: string): Value {
    Obj([Member("$ref", Str(q))])
  }

  lemma {:induction false} RefToRefers(q: string)
    ensures OwnRef(RefTo(q)) == Some(q)
  {
    assert Get(RefTo(q).members, "$ref") == Some(Str(q));
  }

  lemma MemberRefs(v: Value, m: Member)
    requires v.Obj? && m in v.members
    ensures Refs(m.value) <= Refs(v)
  {
    ChildOf(v, m);
  }

  /** The members of an object that hold a given reference, when the object is not itself one. */
  lemma RefsOfObject(ms: seq<Member>, r: string)
    requires OwnRef(Obj(ms)).None?
    ensures r in Refs(Obj(ms)) <==> exists m :: m in ms && r in Refs(m.value)
  {
    if r in Refs(Obj(ms)) {
      var c :| c in Children(Obj(ms)) && r in Refs(c);
      var i :| 0 <= i < |ms| && c == ms[i].value;
      assert ms[i] in ms;
    }
    if m :| m in ms && r in Refs(m.value) {
      MemberRefs(Obj(ms), m);
    }
  }

  // ----- resolving

  predicate IsIndex(s: string) {
    s != "" && (forall k :: 0 <= k < |s| ==> '0' <= s[k] <= '9') && (s[0] == '0' ==> |s| == 1)
  }

  function Index(s: string): nat
    requires forall k :: 0 <= k < |s| ==> '0' <= s[k] <= '9'
  {
    if s == "" then 0 else 10 * Index(s[..|s| - 1]) + (s[|s| - 1] as int - '0' as int)
  }

  /** Follows JSON-pointer segments from `v`; segments are taken as written. */
  function Walk(v: Value, path: seq<string>): Option<Value> {
    if path == [] then Some(v)
    else match v
      case Obj(ms) => (match Get(ms, path[0]) case Some(c) => Walk(c, path[1..]) case None => None)
      case Arr(items) =>
        if IsIndex(path[0]) && Index(path[0]) < |items| then Walk(items[Index(path[0])], path[1..]) else None
      case _ => None
  }

  /** What a local reference points at inside the document `root`. */
  function Resolve(root: Value, ref: string): Option<Value> {
    if "#/" <= ref then Walk(root, Split(ref[2..], '/')) else None
  }

  lemma {:induction false} WalkOne(ms: seq<Member>, a: string)
    ensures Walk(Obj(ms), [a]) == Get(ms, a)
  {
    assert [a][1..] == [];
    if Get(ms, a).Some? {
      assert Walk(Get(ms, a).value, []) == Some(Get(ms, a).value);
    }
  }

  lemma {:induction false} WalkTwo(outer: seq<Member>, a: string, inner: seq<Member>, b: string)
    requires Get(outer, a) == Some(Obj(inner))
    ensures Walk(Obj(outer), [a, b]) == Get(inner, b)
  {
    assert [a, b][1..] == [b];
    WalkOne(inner, b);
  }

  /** The first segment of what follows a prefix. */
  function FirstSegment(s: string): (r: string)
    ensures '/' !in r
  {
    Split(s, '/')[0]
  }

  lemma ResolveDefinition(root: Value, ref: string)
    requires DEFINITIONS_PREFIX <= ref
    ensures Split(ref[2..], '/') == ["definitions"] + Split(ref[|DEFINITIONS_PREFIX|..], '/')
    ensures Resolve(root, ref) ==
      (match Field(root, "definitions")
       case Some(d) => Walk(d, Split(ref[|DEFINITIONS_PREFIX|..], '/'))
       case None => None)
  {
    var rest := ref[|DEFINITIONS_PREFIX|..];
    assert ref == DEFINITIONS_PREFIX + rest;
    assert ref[2..] == "definitions" + ['/'] + rest;
    SplitHead("definitions", rest, '/');
    assert (["definitions"] + Split(rest, '/'))[1..] == Split(rest, '/');
    assert root.Arr? ==> !IsIndex("definitions") by { assert "definitions"[0] == 'd'; }
  }

  // ----- rewriting

  /** `rewrite_ref_prefix`. */
  function Rewrite(v: Value, pattern: string, replacement: string): (r: Value)
    requires pattern != ""
    decreases v
  {
    match v
    case Arr(items) =>
      Arr(seq(|items|, i requires 0 <= i < |items| => Rewrite(items[i], pattern, replacement)))
    case Obj(ms) =>
      Obj(seq(|ms|, i requires 0 <= i < |ms| =>
                Member(ms[i].key,
                       if ms[i].key == "$ref" && ms[i].value.Str?
                       then Str(ReplaceAll(ms[i].value.s, pattern, replacement))
                       else Rewrite(ms[i].value, pattern, replacement))))
    case _ => v
  }

  lemma {:induction false} GetRewritten(ms: seq<Member>, key: string, pattern: string, replacement: string)
    requires pattern != ""
    requires key == "$ref" ==> OwnRef(Obj(ms)).None?
    ensures var ms' := Rewrite(Obj(ms), pattern, replacement).members;
      Get(ms', key) == (match Get(ms, key) case Some(v) => Some(Rewrite(v, pattern, replacement)) case None => None)
  {
    if ms != [] {
      var ms' := Rewrite(Obj(ms), pattern, replacement).members;
      assert ms'[1..] == Rewrite(Obj(ms[1..]), pattern, replacement).members;
      if ms[0].key != key {
        assert Get(ms, "$ref") == Get(ms[1..], "$ref") || ms[0].key == "$ref";
        GetRewritten(ms[1..], key, pattern, replacement);
      }
    }
  }

  lemma {:induction false} RefRewritten(ms: seq<Member>, pattern: string, replacement: string)
    requires pattern != ""
    ensures OwnRef(Rewrite(Obj(ms), pattern, replacement)) ==
      (match OwnRef(Obj(ms)) case Some(r) => Some(ReplaceAll(r, pattern, replacement)) case None => None)
  {
    if ms != [] {
      var ms' := Rewrite(Obj(ms), pattern, replacement).members;
      assert ms'[1..] == Rewrite(Obj(ms[1..]), pattern, replacement).members;
      if ms[0].key != "$ref" {
        RefRewritten(ms[1..], pattern, replacement);
        assert OwnRef(Obj(ms)) == OwnRef(Obj(ms[1..]));
        assert OwnRef(Obj(ms')) == OwnRef(Obj(ms'[1..]));
      }
    }
  }

  function RewriteSet(rs: set<string>, pattern: string, replacement: string): (r: set<string>)
    requires pattern != ""
  {
    set q | q in rs :: ReplaceAll(q, pattern, replacement)
  }

  lemma OwnRefsRewritten(v: Value, pattern: string, replacement: string)
    requires pattern != ""
    ensures OwnRefs(Rewrite(v, pattern, replacement)) == RewriteSet(OwnRefs(v), pattern, replacement)
  {
    if v.Obj? {
      RefRewritten(v.members, pattern, replacement);
    }
  }

  /** Rewriting a value rewrites exactly the references in it. */
  lemma {:induction false} RefsRewritten(v: Value, pattern: string, replacement: string)
    requires pattern != ""
    ensures Refs(Rewrite(v, pattern, replacement)) == RewriteSet(Refs(v), pattern, replacement)
    decreases v
  {
    var w := Rewrite(v, pattern, replacement);
    var cs, ds := Children(v), Children(w);
    forall i | 0 <= i < |cs|
      ensures Refs(ds[i]) == RewriteSet(Refs(cs[i]), pattern, replacement)
    {
      if v.Obj? && v.members[i].key == "$ref" && v.members[i].value.Str? {
        assert Refs(cs[i]) == {} && Refs(ds[i]) == {};
      } else {
        RefsRewritten(cs[i], pattern, replacement);
      }
    }
    OwnRefsRewritten(v, pattern, replacement);
    RefsPointwise(v, w, pattern, replacement);
  }

  lemma {:induction false} RefsPointwise(v: Value, w: Value, pattern: string, replacement: string)
    requires pattern != ""
    requires OwnRefs(w) == RewriteSet(OwnRefs(v), pattern, replacement)
    requires |Children(v)| == |Children(w)|
    requires forall i :: 0 <= i < |Children(v)| ==>
      Refs(Children(w)[i]) == RewriteSet(Refs(Children(v)[i]), pattern, replacement)
    ensures Refs(w) == RewriteSet(Refs(v), pattern, replacement)
  {
    forall r | r in Refs(w)
      ensures r in RewriteSet(Refs(v), pattern, replacement)
    {
      if r !in OwnRefs(w) {
        var i := RefInChild(w, r);
        ChildRef(v, i);
      }
    }
    forall q | q in Refs(v)
      ensures ReplaceAll(q, pattern, replacement) in Refs(w)
    {
      if q !in OwnRefs(v) {
        var i := RefInChild(v, q);
        ChildRef(w, i);
      }
    }
  }

  lemma {:induction false} RefInChild(v: Value, r: string) returns (i: nat)
    requires r in Refs(v) && r !in OwnRefs(v)
    ensures i < |Children(v)| && r in Refs(Children(v)[i])
  {
    var c :| c in Children(v) && r in Refs(c);
    i :| 0 <= i < |Children(v)| && c == Children(v)[i];
  }

  lemma {:induction false} ChildRef(v: Value, i: nat)
    requires i < |Children(v)|
    ensures Refs(Children(v)[i]) <= Refs(v)
  {
    assert Children(v)[i] in Children(v);
  }

  // ----- flattening one reference

  /** What flattening does to a reference string. */
  function Flat(ref: string): string {
    ReplaceAll(ref, V2_PREFIX, DEFINITIONS_PREFIX)
  }

  function FlatValue(v: Value): Value {
    Rewrite(v, V2_PREFIX, DEFINITIONS_PREFIX)
  }

  lemma FlatRoot(name: string)
    requires '/' !in name
    ensures Flat(DEFINITIONS_PREFIX + name) == DEFINITIONS_PREFIX + name
  {
    CountConcat(DEFINITIONS_PREFIX, name, '/');
    SlashCounts();
    ReplaceNothing(DEFINITIONS_PREFIX + name, V2_PREFIX, DEFINITIONS_PREFIX, '/');
  }

  lemma FlatV2(name: string)
    requires '/' !in name
    ensures Flat(V2_PREFIX + name) == DEFINITIONS_PREFIX + name
  {
    SlashCounts();
    assert (V2_PREFIX + name)[|V2_PREFIX|..] == name;
    ReplaceNothing(name, V2_PREFIX, DEFINITIONS_PREFIX, '/');
  }

  lemma SlashCounts()
    ensures Count(DEFINITIONS_PREFIX, '/') == 2 && Count(V2_PREFIX, '/') == 3
  {
    FramedCount("#/", "definitions", "/", '/');
    FramedCount(DEFINITIONS_PREFIX, "v2", "/", '/');
    assert V2_PREFIX == DEFINITIONS_PREFIX + "v2" + "/";
  }

  lemma FramedCount(a: string, plain: string, b: string, c: char)
    requires c !in plain
    ensures Count(a + plain + b, c) == Count(a, c) + Count(b, c)
  {
    CountConcat(a + plain, b, c);
    CountConcat(a, plain, c);
  }

  lemma ResolveRoot(root: Value, name: string)
    requires '/' !in name
    ensures Resolve(root, DEFINITIONS_PREFIX + name) ==
      (match Field(root, "definitions") case Some(d) => Walk(d, [name]) case None => None)
  {
    var ref := DEFINITIONS_PREFIX + name;
    assert ref[|DEFINITIONS_PREFIX|..] == name;
    ResolveDefinition(root, ref);
    SplitWhole(name, '/');
  }

  lemma ResolveV2(root: Value, name: string)
    requires '/' !in name
    ensures Resolve(root, V2_PREFIX + name) ==
      (match Field(root, "definitions") case Some(d) => Walk(d, ["v2", name]) case None => None)
  {
    var ref := V2_PREFIX + name;
    assert V2_PREFIX == DEFINITIONS_PREFIX + "v2" + ['/'];
    assert ref[|DEFINITIONS_PREFIX|..] == "v2" + ['/'] + name;
    ResolveDefinition(root, ref);
    SplitHead("v2", name, '/');
    SplitWhole(name, '/');
  }
}
