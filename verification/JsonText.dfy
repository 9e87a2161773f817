/**
 Compact JSON text, as `serde_json::to_string` writes it, and the fact that it
 determines the value. A number is its own text.
 */
module JsonText {
  import opened Json

  predicate IsNumberChar(c: char) {
    '0' <= c <= '9' || c in "+-.eE"
  }

  /** Numbers are written with at least one character, all of them number characters. */
  predicate NumbersPrint(v: Value) {
    && (v.Number? ==> v.text != "" && forall k :: 0 <= k < |v.text| ==> IsNumberChar(v.text[k]))
    && forall c :: c in Children(v) ==> NumbersPrint(c)
  }

  function HexDigit(n: nat): char
    requires n < 16
  {
    if n < 10 then '0' + n as char else 'a' + (n - 10) as char
  }

  function EscapeChar(c: char): (r: string)
    ensures r != "" && r[0] != '"'
  {
    if c == '"' then "\\\""
    else if c == '\\' then "\\\\"
    else if c == 8 as char then "\\b"
    else if c == 12 as char then "\\f"
    else if c == '\n' then "\\n"
    else if c == '\r' then "\\r"
    else if c == '\t' then "\\t"
    else if c < ' ' then "\\u00" + [HexDigit(c as int / 16), HexDigit(c as int % 16)]
    else [c]
  }

  /** The printing functions take what follows, so that no text is ever re-associated. */
  function EscapeTo(s: string, rest: string): string {
    if s == "" then rest else EscapeChar(s[0]) + EscapeTo(s[1..], rest)
  }

  function QuoteTo(s: string, rest: string): string {
    "\"" + EscapeTo(s, "\"" + rest)
  }

  function PrintTo(v: Value, rest: string): string
    decreases v
  {
    match v
    case Null => "null" + rest
    case Bool(b) => (if b then "true" else "false") + rest
    case Number(text) => text + rest
    case Str(s) => QuoteTo(s, rest)
    case Arr(items) => "[" + ItemsTo(items, "]" + rest)
    case Obj(ms) => "{" + MembersTo(ms, "}" + rest)
  }

  function ItemsTo(items: seq<Value>, rest: string): string
    decreases items
  {
    if items == [] then rest
    else PrintTo(items[0], if |items| == 1 then rest else "," + ItemsTo(items[1..], rest))
  }

  function MembersTo(ms: seq<Member>, rest: string): string
    decreases ms
  {
    if ms == [] then rest
    else QuoteTo(ms[0].key, ":" + PrintTo(ms[0].value, if |ms| == 1 then rest else "," + MembersTo(ms[1..], rest)))
  }

  function Print(v: Value): string {
    PrintTo(v, "")
  }

  // ----- reading back

  lemma Tails(a: string, x: string, b: string, y: string)
    requires a + x == b + y && |a| == |b|
    ensures a == b && x == y
  {
    assert a == (a + x)[..|a|] && b == (b + y)[..|b|];
    assert x == (a + x)[|a|..] && y == (b + y)[|b|..];
  }

  lemma EscapeCharInjective(c: char, x: string, d: char, y: string)
    requires EscapeChar(c) + x == EscapeChar(d) + y
    ensures c == d && x == y
  {
    var e, f := EscapeChar(c), EscapeChar(d);
    assert (e + x)[0] == e[0] && (f + y)[0] == f[0];
    if |e| > 1 && |f| > 1 {
      assert (e + x)[1] == e[1] && (f + y)[1] == f[1];
      assert |e| == |f|;
      Tails(e, x, f, y);
      if |e| == 6 {
        assert e[4] == f[4] && e[5] == f[5];
      }
    } else {
      assert |e| == |f| == 1;
      Tails(e, x, f, y);
    }
  }

  lemma {:induction false} EscapeInjective(s: string, x: string, t: string, y: string)
    requires EscapeTo(s, "\"" + x) == EscapeTo(t, "\"" + y)
    ensures s == t && x == y
    decreases |s|
  {
    var l, r := EscapeTo(s, "\"" + x), EscapeTo(t, "\"" + y);
    assert s == "" <==> l[0] == '"';
    assert t == "" <==> r[0] == '"';
    if s == "" {
      Tails("\"", x, "\"", y);
    } else {
      EscapeCharInjective(s[0], EscapeTo(s[1..], "\"" + x), t[0], EscapeTo(t[1..], "\"" + y));
      EscapeInjective(s[1..], x, t[1..], y);
      assert s == [s[0]] + s[1..] && t == [t[0]] + t[1..];
    }
  }

  lemma QuoteInjective(s: string, x: string, t: string, y: string)
    requires QuoteTo(s, x) == QuoteTo(t, y)
    ensures s == t && x == y
  {
    Tails("\"", EscapeTo(s, "\"" + x), "\"", EscapeTo(t, "\"" + y));
    EscapeInjective(s, x, t, y);
  }

  /** What may follow a value inside a document. */
  predicate Stops(x: string) {
    x == "" || x[0] == ',' || x[0] == ']' || x[0] == '}'
  }

  lemma {:induction false} NumberInjective(a: string, x: string, b: string, y: string)
    requires forall k :: 0 <= k < |a| ==> IsNumberChar(a[k])
    requires forall k :: 0 <= k < |b| ==> IsNumberChar(b[k])
    requires Stops(x) && Stops(y) && a + x == b + y
    ensures a == b && x == y
  {
    assert |a| < |a + x| ==> (a + x)[|a|] == x[0];
    assert |b| < |b + y| ==> (b + y)[|b|] == y[0];
    Tails(a, x, b, y);
  }

  /** The first character tells the kind of value. */
  function Kind(v: Value): nat {
    match v
    case Null => 0 case Bool(b) => if b then 1 else 2 case Number(_) => 3
    case Str(_) => 4 case Arr(_) => 5 case Obj(_) => 6
  }

  function KindOfChar(c: char): nat {
    if c == 'n' then 0 else if c == 't' then 1 else if c == 'f' then 2
    else if IsNumberChar(c) then 3 else if c == '"' then 4 else if c == '[' then 5 else if c == '{' then 6 else 7
  }

  lemma FirstChar(v: Value, rest: string)
    requires NumbersPrint(v)
    ensures PrintTo(v, rest) != "" && KindOfChar(PrintTo(v, rest)[0]) == Kind(v)
  {
  }

  /** A value can be read back from its text and what follows. */
  lemma {:induction false} PrintInjective(v: Value, x: string, w: Value, y: string)
    requires NumbersPrint(v) && NumbersPrint(w) && Stops(x) && Stops(y)
    requires PrintTo(v, x) == PrintTo(w, y)
    ensures v == w && x == y
    decreases v
  {
    FirstChar(v, x);
    FirstChar(w, y);
    match v
    case Null => Tails("null", x, "null", y);
    case Bool(b) => Tails(if b then "true" else "false", x, if b then "true" else "false", y);
    case Number(text) => NumberInjective(text, x, w.text, y);
    case Str(s) => QuoteInjective(s, x, w.s, y);
    case Arr(items) =>
      Tails("[", ItemsTo(items, "]" + x), "[", ItemsTo(w.items, "]" + y));
      ItemsInjective(items, x, w.items, y);
    case Obj(ms) =>
      Tails("{", MembersTo(ms, "}" + x), "{", MembersTo(w.members, "}" + y));
      assert forall i :: 0 <= i < |ms| ==> Children(v)[i] == ms[i].value;
      assert forall i :: 0 <= i < |w.members| ==> Children(w)[i] == w.members[i].value;
      MembersInjective(ms, x, w.members, y);
  }

  function AfterItem(items: seq<Value>, rest: string): string
    requires items != []
  {
    if |items| == 1 then rest else "," + ItemsTo(items[1..], rest)
  }

  lemma {:induction false} ItemsUnfold(a: seq<Value>, x: string)
    requires a != []
    ensures ItemsTo(a, "]" + x) == PrintTo(a[0], AfterItem(a, "]" + x))
    ensures AfterItem(a, "]" + x) != "" && Stops(AfterItem(a, "]" + x))
    ensures |a| == 1 <==> AfterItem(a, "]" + x)[0] == ']'
  {
  }

  lemma {:induction false} ItemsFirstChar(a: seq<Value>, x: string)
    requires forall c :: c in a ==> NumbersPrint(c)
    ensures ItemsTo(a, "]" + x) != ""
    ensures a == [] <==> ItemsTo(a, "]" + x)[0] == ']'
  {
    if a != [] {
      ItemsUnfold(a, x);
      FirstChar(a[0], AfterItem(a, "]" + x));
      assert KindOfChar(']') == 7;
    }
  }

  lemma {:induction false} ItemsInjective(a: seq<Value>, x: string, b: seq<Value>, y: string)
    requires forall c :: c in a ==> NumbersPrint(c)
    requires forall c :: c in b ==> NumbersPrint(c)
    requires ItemsTo(a, "]" + x) == ItemsTo(b, "]" + y)
    ensures a == b && x == y
    decreases a, 1
  {
    ItemsFirstChar(a, x);
    ItemsFirstChar(b, y);
    if a == [] {
      Tails("]", x, "]", y);
    } else {
      ItemsUnfold(a, x);
      ItemsUnfold(b, y);
      PrintInjective(a[0], AfterItem(a, "]" + x), b[0], AfterItem(b, "]" + y));
      ItemsRest(a, x, b, y);
      assert a == [a[0]] + a[1..] && b == [b[0]] + b[1..];
    }
  }

  lemma {:induction false} ItemsRest(a: seq<Value>, x: string, b: seq<Value>, y: string)
    requires a != [] && b != []
    requires forall c :: c in a ==> NumbersPrint(c)
    requires forall c :: c in b ==> NumbersPrint(c)
    requires AfterItem(a, "]" + x) == AfterItem(b, "]" + y)
    ensures a[1..] == b[1..] && x == y
    decreases a, 0
  {
    ItemsUnfold(a, x);
    ItemsUnfold(b, y);
    if |a| == 1 {
      Tails("]", x, "]", y);
    } else {
      Tails(",", ItemsTo(a[1..], "]" + x), ",", ItemsTo(b[1..], "]" + y));
      ItemsInjective(a[1..], x, b[1..], y);
    }
  }

  function AfterMember(ms: seq<Member>, rest: string): string
    requires ms != []
  {
    if |ms| == 1 then rest else "," + MembersTo(ms[1..], rest)
  }

  lemma {:induction false} MembersInjective(a: seq<Member>, x: string, b: seq<Member>, y: string)
    requires forall i :: 0 <= i < |a| ==> NumbersPrint(a[i].value)
    requires forall i :: 0 <= i < |b| ==> NumbersPrint(b[i].value)
    requires MembersTo(a, "}" + x) == MembersTo(b, "}" + y)
    ensures a == b && x == y
    decreases a
  {
    assert ("}" + x)[0] == '}' && ("}" + y)[0] == '}';
    assert a != [] ==> MembersTo(a, "}" + x)[0] == '"';
    assert b != [] ==> MembersTo(b, "}" + y)[0] == '"';
    if a == [] {
      Tails("}", x, "}", y);
    } else {
      var p, q := AfterMember(a, "}" + x), AfterMember(b, "}" + y);
      QuoteInjective(a[0].key, ":" + PrintTo(a[0].value, p), b[0].key, ":" + PrintTo(b[0].value, q));
      Tails(":", PrintTo(a[0].value, p), ":", PrintTo(b[0].value, q));
      PrintInjective(a[0].value, p, b[0].value, q);
      assert p[0] == q[0];
      if |a| == 1 {
        Tails("}", x, "}", y);
      } else {
        Tails(",", MembersTo(a[1..], "}" + x), ",", MembersTo(b[1..], "}" + y));
        MembersInjective(a[1..], x, b[1..], y);
      }
      assert a == [a[0]] + a[1..] && b == [b[0]] + b[1..];
    }
  }
}
