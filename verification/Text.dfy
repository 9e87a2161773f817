/** Options, results and the few string operations the other modules share. */
module Text {

  datatype Option<+T> = None | Some(value: T)

  datatype Result<+T, +E> = Ok(value: T) | Err(error: E)

  /** How often `c` occurs in `s`. */
  function Count(s: string, c: char): (n: nat)
    ensures n == 0 <==> c !in s
  {
    if s == [] then 0 else (if s[0] == c then 1 else 0) + Count(s[1..], c)
  }

  lemma CountConcat(a: string, b: string, c: char)
    ensures Count(a + b, c) == Count(a, c) + Count(b, c)
  {
    if a == [] {
      assert a + b == b;
    } else {
      assert (a + b)[1..] == a[1..] + b;
      CountConcat(a[1..], b, c);
    }
  }

  /** Leftmost, non-overlapping replacement of every occurrence of `pattern`. */
  function ReplaceAll(s: string, pattern: string, replacement: string): (r: string)
    requires pattern != ""
    decreases |s|
  {
    if pattern <= s then replacement + ReplaceAll(s[|pattern|..], pattern, replacement)
    else if s == "" then ""
    else [s[0]] + ReplaceAll(s[1..], pattern, replacement)
  }

  /** A string too poor in some character to contain the pattern is left alone. */
  lemma {:induction false} ReplaceNothing(s: string, pattern: string, replacement: string, c: char)
    requires pattern != ""
    requires Count(s, c) < Count(pattern, c)
    ensures ReplaceAll(s, pattern, replacement) == s
    decreases |s|
  {
    if pattern <= s {
      assert s == pattern + s[|pattern|..];
      CountConcat(pattern, s[|pattern|..], c);
    } else if s != "" {
      ReplaceNothing(s[1..], pattern, replacement, c);
    }
  }

  /** The pieces of `s` between occurrences of `c`; never empty. */
  function Split(s: string, c: char): (parts: seq<string>)
    ensures |parts| > 0
    ensures forall p :: p in parts ==> c !in p
  {
    if s == "" then [""]
    else
      var rest := Split(s[1..], c);
      if s[0] == c then [""] + rest else [[s[0]] + rest[0]] + rest[1..]
  }

  lemma {:induction false} SplitHead(a: string, b: string, c: char)
    requires c !in a
    ensures Split(a + [c] + b, c) == [a] + Split(b, c)
  {
    if a == "" {
      assert a + [c] + b == [c] + b;
      assert ([c] + b)[1..] == b;
    } else {
      assert (a + [c] + b)[1..] == a[1..] + [c] + b;
      SplitHead(a[1..], b, c);
      assert [a[0]] + a[1..] == a;
    }
  }

  lemma {:induction false} SplitWhole(s: string, c: char)
    requires c !in s
    ensures Split(s, c) == [s]
  {
    if s != "" {
      SplitWhole(s[1..], c);
      assert [s[0]] + s[1..] == s;
    }
  }

  /** Unicode `White_Space`, the class Rust's `char::is_whitespace` tests. */
  predicate IsWhitespace(c: char) {
    || 9 as char <= c <= 13 as char
    || c == ' '
    || c == 0x85 as char
    || c == 0xA0 as char
    || c == 0x1680 as char
    || 0x2000 as char <= c <= 0x200A as char
    || c == 0x2028 as char
    || c == 0x2029 as char
    || c == 0x202F as char
    || c == 0x205F as char
    || c == 0x3000 as char
  }

  function TrimStart(s: string): (r: string)
    ensures |r| <= |s| && r == s[|s| - |r|..]
    ensures forall k :: 0 <= k < |s| - |r| ==> IsWhitespace(s[k])
    ensures r != "" ==> !IsWhitespace(r[0])
  {
    if s != "" && IsWhitespace(s[0]) then TrimStart(s[1..]) else s
  }

  function TrimEnd(s: string): (r: string)
    ensures |r| <= |s| && r == s[..|r|]
    ensures forall k :: |r| <= k < |s| ==> IsWhitespace(s[k])
    ensures r != "" ==> !IsWhitespace(r[|r| - 1])
  {
    if s != "" && IsWhitespace(s[|s| - 1]) then TrimEnd(s[..|s| - 1]) else s
  }

  function Trim(s: string): (r: string)
    ensures r != "" ==> !IsWhitespace(r[0]) && !IsWhitespace(r[|r| - 1])
  {
    TrimEnd(TrimStart(s))
  }

  predicate AllWhitespace(s: string) {
    forall k :: 0 <= k < |s| ==> IsWhitespace(s[k])
  }

  lemma {:induction false} TrimStartSkips(w: string, s: string)
    requires AllWhitespace(w) && (s != "" ==> !IsWhitespace(s[0]))
    ensures TrimStart(w + s) == s
  {
    if w == "" {
      assert w + s == s;
    } else {
      assert (w + s)[1..] == w[1..] + s;
      TrimStartSkips(w[1..], s);
    }
  }

  lemma {:induction false} TrimEndSkips(s: string, w: string)
    requires AllWhitespace(w) && (s != "" ==> !IsWhitespace(s[|s| - 1]))
    ensures TrimEnd(s + w) == s
  {
    if w == "" {
      assert s + w == s;
    } else {
      assert (s + w)[..|s + w| - 1] == s + w[..|w| - 1];
      TrimEndSkips(s, w[..|w| - 1]);
    }
  }

  /** A string without outer whitespace survives any whitespace put around it. */
  lemma {:induction false} TrimPadded(w: string, s: string, x: string)
    requires AllWhitespace(w) && AllWhitespace(x) && s != "" && Trim(s) == s
    ensures Trim(w + s + x) == s
  {
    assert !IsWhitespace(s[0]) && !IsWhitespace(s[|s| - 1]);
    assert w + s + x == w + (s + x);
    TrimStartSkips(w, s + x);
    TrimEndSkips(s, x);
  }

  lemma {:induction false} TrimNothing(w: string)
    requires AllWhitespace(w)
    ensures Trim(w) == ""
  {
    assert w + "" == w;
    TrimStartSkips(w, "");
  }

  /** Text after a visible character keeps that character from being trimmed away. */
  lemma {:induction false} TrimKeepsInner(w: string, s: string, x: string, c: char, y: string)
    requires AllWhitespace(w) && s != "" && !IsWhitespace(s[0]) && !IsWhitespace(c)
    ensures |Trim(w + s + x + [c] + y)| > |s|
  {
    var t := s + x + [c] + y;
    assert w + s + x + [c] + y == w + t;
    TrimStartSkips(w, t);
    assert t[|s| + |x|] == c;
    assert |TrimEnd(t)| > |s| + |x|;
  }

  lemma {:induction false} TrimStartParts(s: string) returns (w: string)
    ensures AllWhitespace(w) && s == w + TrimStart(s)
  {
    w := s[..|s| - |TrimStart(s)|];
  }

  lemma {:induction false} TrimEndParts(s: string) returns (x: string)
    ensures AllWhitespace(x) && s == TrimEnd(s) + x
  {
    var n := |TrimEnd(s)|;
    x := s[n..];
    assert forall k :: 0 <= k < |x| ==> x[k] == s[n + k];
  }

  /** A trimmed string is what whitespace was removed around. */
  lemma {:induction false} TrimParts(s: string) returns (w: string, x: string)
    ensures AllWhitespace(w) && AllWhitespace(x)
    ensures s == w + Trim(s) + x
  {
    w := TrimStartParts(s);
    x := TrimEndParts(TrimStart(s));
    Regroup(w, Trim(s), x);
  }

  lemma {:induction false} TrimKeepsVisible(r: string)
    requires r != "" ==> !IsWhitespace(r[0]) && !IsWhitespace(r[|r| - 1])
    ensures Trim(r) == r
  {
    assert TrimStart(r) == r;
    assert TrimEnd(r) == r;
  }

  lemma {:induction false} TrimTwice(s: string)
    ensures Trim(Trim(s)) == Trim(s)
  {
    TrimKeepsVisible(Trim(s));
  }

  lemma {:induction false} BlankExactly(s: string)
    ensures Trim(s) == "" <==> AllWhitespace(s)
  {
    if AllWhitespace(s) {
      TrimNothing(s);
    }
    if Trim(s) == "" {
      var w, x := TrimParts(s);
      assert s == w + x;
    }
  }

  lemma {:induction false} RemoveUpdated<K, V>(m: map<K, V>, k: K, v: V)
    ensures m[k := v] - {k} == m - {k}
  {
  }

  lemma {:induction false} Regroup<T>(a: seq<T>, b: seq<T>, c: seq<T>)
    ensures a + b + c == a + (b + c)
  {
  }

  lemma {:induction false} SliceEnds<T>(s: seq<T>, start: nat)
    requires start <= |s|
    ensures s[start..|s|] == s[start..] && s[|s|..] == []
  {
  }

  lemma {:induction false} SliceGrows<T>(s: seq<T>, start: nat, index: nat)
    requires start <= index < |s|
    ensures s[start..index] + [s[index]] == s[start..index + 1]
    ensures s[index..] == [s[index]] + s[index + 1..]
  {
  }
}
