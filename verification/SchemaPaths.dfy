/**
 References and rewriting, place by place: which references a schema holds, which of them
 the traversal that skips definition maps sees, and that rewriting touches nothing but
 references (`codex-rs/app-server-protocol/src/export.rs`).
 */
module SchemaPaths {
  import opened Text
  import opened Json
  import opened SchemaRefs
  import opened StripVariants

  lemma {:induction false} Prefixes()
    ensures DEFINITIONS_PREFIX == "#/definitions/" && V2_PREFIX == "#/definitions/v2/"
  {
  }

  /** The value at a place: each number picks an array element or an object member. */
  function Place(v: Value, path: seq<nat>): Option<Value> {
    if path == [] then Some(v)
    else if path[0] < |Children(v)| then Place(Children(v)[path[0]], path[1..])
    else None
  }

  /** The first step goes to a member with this key. */
  predicate StepsInto(v: Value, path: seq<nat>, key: string) {
    path != [] && v.Obj? && path[0] < |v.members| && v.members[path[0]].key == key
  }

  /** The object at the place says `"$ref": r`. */
  predicate RefersAt(v: Value, path: seq<nat>, r: string) {
    match Place(v, path)
    case Some(Obj(ms)) => Get(ms, "$ref") == Some(Str(r))
    case _ => false
  }

  // ----- which references there are

  lemma {:induction false} RefHasPlace(v: Value, r: string) returns (path: seq<nat>)
    requires r in Refs(v)
    ensures RefersAt(v, path, r)
    decreases v
  {
    if OwnRef(v) == Some(r) {
      path := [];
    } else {
      var i := RefInChild(v, r);
      var rest := RefHasPlace(Children(v)[i], r);
      path := [i] + rest;
      assert path[1..] == rest;
    }
  }

  lemma {:induction false} PlaceHasRef(v: Value, path: seq<nat>, r: string)
    requires RefersAt(v, path, r)
    ensures r in Refs(v)
    decreases |path|
  {
    if path != [] {
      PlaceHasRef(Children(v)[path[0]], path[1..], r);
      ChildRef(v, path[0]);
    }
  }

  /** The references of a schema are the strings under `$ref` at any place in it. */
  lemma {:induction false} RefsArePlaced(v: Value, r: string)
    ensures r in Refs(v) <==> exists path :: RefersAt(v, path, r)
  {
    if r in Refs(v) {
      var path := RefHasPlace(v, r);
    }
    if path :| RefersAt(v, path, r) {
      PlaceHasRef(v, path, r);
    }
  }

  // ----- which of them the pruning traversal sees

  /** The way to the place goes through a nested map of definitions. */
  predicate IsHidden(v: Value, path: seq<nat>) {
    && path != [] && path[0] < |Children(v)|
    && (StepsInto(v, path, "definitions") || StepsInto(v, path, "$defs") || IsHidden(Children(v)[path[0]], path[1..]))
  }

  lemma {:induction false} OuterRefHasPlace(v: Value, r: string) returns (path: seq<nat>)
    requires r in OuterRefs(v)
    ensures RefersAt(v, path, r) && !IsHidden(v, path)
    decreases v
  {
    if OwnRef(v) == Some(r) {
      path := [];
    } else {
      var i := OuterChild(v, r);
      var rest := OuterRefHasPlace(Children(v)[i], r);
      path := [i] + rest;
      assert path[1..] == rest;
    }
  }

  lemma {:induction false} OuterChild(v: Value, r: string) returns (i: nat)
    requires r in OuterRefs(v) && OwnRef(v) != Some(r)
    ensures i < |Children(v)| && r in OuterRefs(Children(v)[i])
    ensures v.Obj? ==> v.members[i].key != "definitions" && v.members[i].key != "$defs"
  {
    match v
    case Arr(items) =>
      var c :| c in items && r in OuterRefs(c);
      i :| 0 <= i < |items| && items[i] == c;
    case Obj(ms) =>
      var m :| m in ms && m.key != "definitions" && m.key != "$defs" && r in OuterRefs(m.value);
      i :| 0 <= i < |ms| && ms[i] == m;
  }

  lemma {:induction false} ChildIsSeen(v: Value, i: nat, r: string)
    requires i < |Children(v)| && r in OuterRefs(Children(v)[i])
    requires v.Obj? ==> v.members[i].key != "definitions" && v.members[i].key != "$defs"
    ensures r in OuterRefs(v)
  {
    match v
    case Arr(items) => assert items[i] in items;
    case Obj(ms) => assert ms[i] in ms;
  }

  lemma {:induction false} PlaceIsSeen(v: Value, path: seq<nat>, r: string)
    requires RefersAt(v, path, r) && !IsHidden(v, path)
    ensures r in OuterRefs(v)
    decreases |path|
  {
    if path == [] {
      assert OwnRef(v) == Some(r);
    } else {
      PlaceIsSeen(Children(v)[path[0]], path[1..], r);
      ChildIsSeen(v, path[0], r);
    }
  }

  /** The traversal sees exactly the references that are not below a nested `definitions` or `$defs`. */
  lemma {:induction false} OuterRefsArePlaced(v: Value, r: string)
    ensures r in OuterRefs(v) <==> exists path :: RefersAt(v, path, r) && !IsHidden(v, path)
  {
    if r in OuterRefs(v) {
      var path := OuterRefHasPlace(v, r);
    }
    if path :| RefersAt(v, path, r) && !IsHidden(v, path) {
      PlaceIsSeen(v, path, r);
    }
  }

  // ----- replacing text

  function Interleaved(parts: seq<string>, between: string): string
    requires parts != []
  {
    if |parts| == 1 then parts[0] else parts[0] + (between + Interleaved(parts[1..], between))
  }

  /** The pattern does not start anywhere in the first `n` characters. */
  predicate StartsNowhere(pattern: string, text: string, n: nat)
    requires n <= |text|
  {
    forall k :: 0 <= k < n ==> !(pattern <= text[k..])
  }

  /** The parts between the occurrences of the pattern, each occurrence the leftmost one left. */
  predicate Separated(parts: seq<string>, pattern: string)
    requires parts != []
  {
    if |parts| == 1 then StartsNowhere(pattern, parts[0], |parts[0]|)
    else StartsNowhere(pattern, parts[0] + pattern, |parts[0]|) && Separated(parts[1..], pattern)
  }

  lemma {:induction false} ReplaceHere(pattern: string, rest: string, replacement: string)
    requires pattern != ""
    ensures ReplaceAll(pattern + rest, pattern, replacement) == replacement + ReplaceAll(rest, pattern, replacement)
  {
    assert (pattern + rest)[|pattern|..] == rest;
  }

  lemma {:induction false} ReplaceLater(pattern: string, c: char, text: string, replacement: string)
    requires pattern != "" && !(pattern <= [c] + text)
    ensures ReplaceAll([c] + text, pattern, replacement) == [c] + ReplaceAll(text, pattern, replacement)
  {
    assert ([c] + text)[1..] == text;
  }

  lemma {:induction false} NowhereAfter(pattern: string, c: char, text: string, n: nat)
    requires n <= |text| && StartsNowhere(pattern, [c] + text, n + 1)
    ensures StartsNowhere(pattern, text, n) && !(pattern <= [c] + text)
  {
    assert ([c] + text)[0..] == [c] + text;
    forall k | 0 <= k < n ensures !(pattern <= text[k..]) {
      assert ([c] + text)[k + 1..] == text[k..];
    }
  }

  lemma {:induction false} SkipPart(part: string, pattern: string, rest: string, replacement: string)
    requires pattern != "" && StartsNowhere(pattern, part + pattern, |part|)
    ensures ReplaceAll(part + (pattern + rest), pattern, replacement) ==
      part + (replacement + ReplaceAll(rest, pattern, replacement))
    decreases |part|
  {
    if part == "" {
      assert part + (pattern + rest) == pattern + rest;
      ReplaceHere(pattern, rest, replacement);
      var after := replacement + ReplaceAll(rest, pattern, replacement);
      assert part + after == after;
    } else {
      var c, more := part[0], part[1..];
      assert part == [c] + more;
      SkipPartFrom(c, more, pattern, rest, replacement);
    }
  }

  lemma {:induction false} SkipPartFrom(c: char, more: string, pattern: string, rest: string, replacement: string)
    requires pattern != "" && StartsNowhere(pattern, [c] + more + pattern, |more| + 1)
    ensures ReplaceAll([c] + more + (pattern + rest), pattern, replacement) ==
      [c] + more + (replacement + ReplaceAll(rest, pattern, replacement))
    decreases |more| + 1, 0
  {
    var head, whole := more + pattern, more + (pattern + rest);
    Regroup([c], more, pattern);
    NowhereAfter(pattern, c, head, |more|);
    SkipPart(more, pattern, rest, replacement);
    Regroup(more, pattern, rest);
    NotYet(pattern, [c] + head, rest);
    Regroup([c], head, rest);
    ReplaceLater(pattern, c, whole, replacement);
    Regroup([c], more, pattern + rest);
    Regroup([c], more, replacement + ReplaceAll(rest, pattern, replacement));
  }

  lemma {:induction false} NotYet(pattern: string, text: string, rest: string)
    requires |pattern| <= |text| && !(pattern <= text)
    ensures !(pattern <= text + rest)
  {
    assert (text + rest)[..|pattern|] == text[..|pattern|];
  }

  lemma {:induction false} SkipAll(text: string, pattern: string, replacement: string)
    requires pattern != "" && StartsNowhere(pattern, text, |text|)
    ensures ReplaceAll(text, pattern, replacement) == text
    decreases |text|
  {
    if text != "" {
      var c, more := text[0], text[1..];
      assert text == [c] + more;
      NowhereAfter(pattern, c, more, |more|);
      SkipAll(more, pattern, replacement);
      ReplaceLater(pattern, c, more, replacement);
    }
  }

  /** Replacing puts the replacement for each occurrence, from the left, and keeps all between them. */
  lemma {:induction false} EveryOccurrenceReplaced(parts: seq<string>, pattern: string, replacement: string)
    requires pattern != "" && parts != [] && Separated(parts, pattern)
    ensures ReplaceAll(Interleaved(parts, pattern), pattern, replacement) == Interleaved(parts, replacement)
    decreases |parts|
  {
    if |parts| == 1 {
      SkipAll(parts[0], pattern, replacement);
    } else {
      SkipPart(parts[0], pattern, Interleaved(parts[1..], pattern), replacement);
      EveryOccurrenceReplaced(parts[1..], pattern, replacement);
    }
  }

  /** Every text comes apart in that way. */
  lemma {:induction false} TextComesApart(text: string, pattern: string) returns (parts: seq<string>)
    requires pattern != ""
    ensures parts != [] && Separated(parts, pattern) && Interleaved(parts, pattern) == text
    decreases |text|
  {
    if pattern <= text {
      var rest := TextComesApart(text[|pattern|..], pattern);
      parts := [""] + rest;
      assert parts[1..] == rest && text == pattern + text[|pattern|..];
    } else if text == "" {
      parts := [""];
    } else {
      var rest := TextComesApart(text[1..], pattern);
      parts := [[text[0]] + rest[0]] + rest[1..];
      assert parts[1..] == rest[1..] && text == [text[0]] + text[1..];
      OneMoreInFront(text, rest, parts, pattern);
    }
  }

  lemma {:induction false} NowhereInFront(pattern: string, c: char, text: string, n: nat)
    requires n <= |text| && StartsNowhere(pattern, text, n) && !(pattern <= [c] + text)
    ensures StartsNowhere(pattern, [c] + text, n + 1)
  {
    forall k | 0 <= k < n + 1 ensures !(pattern <= ([c] + text)[k..]) {
      if k == 0 {
        assert ([c] + text)[0..] == [c] + text;
      } else {
        assert ([c] + text)[k..] == text[k - 1..];
      }
    }
  }

  lemma {:induction false} OneMoreInFront(text: string, rest: seq<string>, parts: seq<string>, pattern: string)
    requires pattern != "" && rest != [] && Separated(rest, pattern) && text != "" && !(pattern <= text)
    requires Interleaved(rest, pattern) == text[1..] && parts == [[text[0]] + rest[0]] + rest[1..]
    ensures Separated(parts, pattern) && Interleaved(parts, pattern) == text
  {
    assert parts[1..] == rest[1..] && text == [text[0]] + text[1..];
    if |rest| == 1 {
      NowhereInFront(pattern, text[0], rest[0], |rest[0]|);
    } else {
      var tail := Interleaved(rest[1..], pattern);
      assert text == [text[0]] + (rest[0] + pattern) + tail;
      NowhereInFront(pattern, text[0], rest[0] + pattern, |rest[0]|);
      assert [text[0]] + (rest[0] + pattern) == parts[0] + pattern;
      assert parts[0] + (pattern + tail) == text;
    }
  }

  // ----- rewriting

  /** The place is a string right under the key `$ref`. */
  predicate IsRefText(v: Value, path: seq<nat>) {
    if |path| == 1 then StepsInto(v, path, "$ref")
    else path != [] && path[0] < |Children(v)| && IsRefText(Children(v)[path[0]], path[1..])
  }

  function Keys(ms: seq<Member>): seq<string> {
    seq(|ms|, i requires 0 <= i < |ms| => ms[i].key)
  }

  /** The two values agree at their top: same kind, same size, same keys, same scalar. */
  predicate AgreeOnTop(x: Value, y: Value) {
    match x
    case Arr(items) => y.Arr? && |y.items| == |items|
    case Obj(ms) => y.Obj? && Keys(y.members) == Keys(ms)
    case _ => y == x
  }

  lemma {:induction false} RewrittenTop(v: Value, pattern: string, replacement: string)
    requires pattern != ""
    ensures AgreeOnTop(v, Rewrite(v, pattern, replacement))
  {
    if v.Obj? {
      assert Keys(Rewrite(v, pattern, replacement).members) == Keys(v.members);
    }
  }

  lemma {:induction false} RewrittenChild(v: Value, i: nat, pattern: string, replacement: string)
    requires pattern != "" && i < |Children(v)|
    ensures |Children(Rewrite(v, pattern, replacement))| == |Children(v)|
    ensures Children(Rewrite(v, pattern, replacement))[i] ==
      if v.Obj? && v.members[i].key == "$ref" && v.members[i].value.Str?
      then Str(ReplaceAll(v.members[i].value.s, pattern, replacement))
      else Rewrite(Children(v)[i], pattern, replacement)
  {
  }

  /**
   Rewriting leaves every place where it is, and what is there alone, but for the strings
   under `$ref`: in those every occurrence of the pattern is replaced.
   */
  lemma {:induction false} OnlyReferencesChange(v: Value, path: seq<nat>, pattern: string, replacement: string)
    requires pattern != ""
    ensures var w := Rewrite(v, pattern, replacement);
      match Place(v, path)
      case None => Place(w, path).None?
      case Some(x) =>
        && Place(w, path).Some?
        && if IsRefText(v, path) && x.Str? then Place(w, path) == Some(Str(ReplaceAll(x.s, pattern, replacement)))
           else AgreeOnTop(x, Place(w, path).value)
    decreases |path|
  {
    var w := Rewrite(v, pattern, replacement);
    RewrittenTop(v, pattern, replacement);
    if path != [] && path[0] < |Children(v)| {
      RewrittenChild(v, path[0], pattern, replacement);
      if v.Obj? && v.members[path[0]].key == "$ref" && v.members[path[0]].value.Str? {
        StringIsLeaf(v.members[path[0]].value.s, path[1..]);
        StringIsLeaf(ReplaceAll(v.members[path[0]].value.s, pattern, replacement), path[1..]);
      } else {
        OnlyReferencesChange(Children(v)[path[0]], path[1..], pattern, replacement);
      }
    } else if path != [] {
      assert |Children(w)| == |Children(v)|;
    }
  }

  lemma {:induction false} StringIsLeaf(s: string, path: seq<nat>)
    ensures Place(Str(s), path) == if path == [] then Some(Str(s)) else None
  {
  }

  // ----- which variants go, by JSON pointer

  /** The variant's method is `m`: its `const`, or without one that is a string the first entry of its `enum`. */
  predicate IsForMethod(variant: Value, m: string) {
    match Walk(variant, ["properties", "method", "const"])
    case Some(Str(s)) => s == m
    case _ =>
      match Walk(variant, ["properties", "method", "enum"])
      case Some(Arr(items)) => |items| > 0 && items[0] == Str(m)
      case _ => false
  }

  lemma {:induction false} WalkField(v: Value, key: string, rest: seq<string>)
    requires !IsIndex(key)
    ensures Walk(v, [key] + rest) == match Field(v, key) { case Some(c) => Walk(c, rest) case None => None }
  {
    assert ([key] + rest)[1..] == rest;
  }

  lemma {:induction false} NoIndexes()
    ensures !IsIndex("properties") && !IsIndex("method") && !IsIndex("const") && !IsIndex("enum")
  {
    assert "properties"[0] == 'p' && "method"[0] == 'm' && "const"[0] == 'c' && "enum"[0] == 'e';
  }

  lemma {:induction false} WalkMethod(v: Value, last: string)
    requires !IsIndex(last)
    ensures Walk(v, ["properties", "method", last]) ==
      match Field(v, "properties") {
        case Some(p) => (match Field(p, "method") case Some(m) => Field(m, last) case None => None)
        case None => None
      }
  {
    NoIndexes();
    assert ["properties", "method", last] == ["properties"] + (["method"] + ([last] + []));
    WalkField(v, "properties", ["method"] + ([last] + []));
    match Field(v, "properties")
    case Some(p) =>
      WalkField(p, "method", [last] + []);
      if Field(p, "method").Some? {
        WalkField(Field(p, "method").value, last, []);
      }
    case None =>
  }

  function MethodSchema(v: Value): Option<Value> {
    match Field(v, "properties") case Some(p) => Field(p, "method") case None => None
  }

  lemma {:induction false} MethodIsLiteral(v: Value, m: string)
    ensures IsForMethod(v, m) <==> MethodSchema(v).Some? && StringLiteral(MethodSchema(v).value) == Some(m)
  {
    NoIndexes();
    WalkMethod(v, "const");
    WalkMethod(v, "enum");
  }

  lemma {:induction false} VariantIsFor(v: Value, methods: set<string>)
    ensures IsMethodVariant(v, methods) <==> exists m :: m in methods && IsForMethod(v, m)
  {
    forall m: string { MethodIsLiteral(v, m); }
    assert IsMethodVariant(v, methods) <==>
      MethodSchema(v).Some? && StringLiteral(MethodSchema(v).value).Some?
      && StringLiteral(MethodSchema(v).value).value in methods;
  }

  /** A variant stays exactly when it is for none of the methods. */
  lemma {:induction false} VariantsStayExactly(items: seq<Value>, methods: set<string>, v: Value)
    ensures v in RetainVariants(items, methods) <==> v in items && forall m :: m in methods ==> !IsForMethod(v, m)
  {
    RetainedExactly(items, methods, v);
    VariantIsFor(v, methods);
  }
}
