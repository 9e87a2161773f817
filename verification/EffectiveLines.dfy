/**
 Which added lines get a fingerprint, and what is hashed, said of the line as words and
 the whitespace around them (`codex-rs/analytics/src/accepted_lines.rs`).
 */
module EffectiveLines {
  import opened Text
  import opened Chunking
  import opened DiffParser

  // ----- lines as words

  /** Words with a gap before each and one after the last. */
  function Spaced(gaps: seq<string>, words: seq<string>): string
    requires |gaps| == |words| + 1
  {
    if words == [] then gaps[0] else gaps[0] + (words[0] + Spaced(gaps[1..], words[1..]))
  }

  predicate IsWord(w: string) {
    w != "" && forall k :: 0 <= k < |w| ==> !IsWhitespace(w[k])
  }

  /** Gaps are whitespace, at least one character of it between two words. */
  predicate IsLaidOut(gaps: seq<string>, words: seq<string>)
    requires |gaps| == |words| + 1
  {
    && AllWhitespace(gaps[0])
    && (words != [] ==> IsWord(words[0]) && (|words| > 1 ==> gaps[1] != "") && IsLaidOut(gaps[1..], words[1..]))
  }

  /** The words with a single space between each two. */
  function SingleSpaced(words: seq<string>): string {
    Spaced(seq(|words| + 1, i => if 0 < i < |words| then " " else ""), words)
  }

  /** Every line is words laid out. */
  lemma {:induction false} LayOut(line: string) returns (gaps: seq<string>, words: seq<string>)
    ensures |gaps| == |words| + 1 && IsLaidOut(gaps, words) && line == Spaced(gaps, words)
  {
    if line == "" {
      gaps, words := [""], [];
    } else {
      var c := line[0];
      var g, ws := LayOut(line[1..]);
      if IsWhitespace(c) {
        gaps, words := [[c] + g[0]] + g[1..], ws;
        assert gaps[1..] == g[1..];
      } else if g[0] == "" && ws != [] {
        gaps, words := g, [[c] + ws[0]] + ws[1..];
        assert words[1..] == ws[1..];
        assert Spaced(g, ws) == ws[0] + Spaced(g[1..], ws[1..]);
      } else {
        gaps, words := [""] + g, [[c]] + ws;
        assert gaps[1..] == g && words[1..] == ws;
      }
    }
  }

  // ----- splitting finds the words

  lemma {:induction false} ReadGap(gap: string, rest: string)
    requires AllWhitespace(gap)
    ensures WordsFrom("", gap + rest) == WordsFrom("", rest)
    decreases |gap|
  {
    if gap == "" {
      assert gap + rest == rest;
    } else {
      assert (gap + rest)[1..] == gap[1..] + rest;
      ReadGap(gap[1..], rest);
    }
  }

  lemma {:induction false} ReadWord(word: string, w: string, rest: string)
    requires forall k :: 0 <= k < |w| ==> !IsWhitespace(w[k])
    ensures WordsFrom(word, w + rest) == WordsFrom(word + w, rest)
    decreases |w|
  {
    if w == "" {
      assert w + rest == rest && word + w == word;
    } else {
      assert (w + rest)[1..] == w[1..] + rest;
      ReadWord(word + [w[0]], w[1..], rest);
      assert word + [w[0]] + w[1..] == word + w;
    }
  }

  lemma {:induction false} WordEnds(word: string, rest: string)
    requires word != "" && (rest != "" ==> IsWhitespace(rest[0]))
    ensures WordsFrom(word, rest) == [word] + WordsFrom("", rest)
  {
    if rest != "" {
      assert WordsFrom("", rest) == WordsFrom("", rest[1..]);
    }
  }

  lemma {:induction false} WordsFound(gaps: seq<string>, words: seq<string>)
    requires |gaps| == |words| + 1 && IsLaidOut(gaps, words)
    ensures WordsFrom("", Spaced(gaps, words)) == words
    decreases |words|
  {
    if words == [] {
      ReadGap(gaps[0], "");
      assert gaps[0] + "" == gaps[0];
    } else {
      var w, rest := words[0], Spaced(gaps[1..], words[1..]);
      ReadGap(gaps[0], w + rest);
      ReadWord("", w, rest);
      assert "" + w == w;
      GapFollows(gaps[1..], words[1..]);
      WordEnds(w, rest);
      WordsFound(gaps[1..], words[1..]);
      assert words == [w] + words[1..];
    }
  }

  lemma {:induction false} GapFollows(gaps: seq<string>, words: seq<string>)
    requires |gaps| == |words| + 1 && IsLaidOut(gaps, words) && (words != [] ==> gaps[0] != "")
    ensures var text := Spaced(gaps, words); text != "" ==> IsWhitespace(text[0])
  {
  }

  lemma {:induction false} JoinedWithSpaces(words: seq<string>)
    ensures JoinWords(words) == SingleSpaced(words)
    decreases |words|
  {
    var gaps := seq(|words| + 1, i => if 0 < i < |words| then " " else "");
    if |words| == 1 {
      assert gaps[1..] == [""] && words[1..] == [];
      assert Spaced(gaps[1..], words[1..]) == "";
    } else if words != [] {
      var rest := seq(|words|, i => if 0 < i < |words| - 1 then " " else "");
      JoinedWithSpaces(words[1..]);
      assert gaps[1..] == [" "] + rest[1..];
      GapInFront(rest, words[1..], " ");
    }
  }

  lemma {:induction false} GapInFront(gaps: seq<string>, words: seq<string>, gap: string)
    requires |gaps| == |words| + 1 && gaps[0] == ""
    ensures Spaced([gap] + gaps[1..], words) == gap + Spaced(gaps, words)
  {
    assert ([gap] + gaps[1..])[1..] == gaps[1..];
  }

  // ----- how long a text is

  function CountFrom(s: string, least: char): nat {
    if s == "" then 0 else (if s[0] >= least then 1 else 0) + CountFrom(s[1..], least)
  }

  /** Bytes of the UTF-8 encoding: one per character, and one more for each bound it reaches. */
  function Bytes(s: string): nat {
    |s| + CountFrom(s, 0x80 as char) + CountFrom(s, 0x800 as char) + CountFrom(s, 0x10000 as char)
  }

  lemma {:induction false} LengthIsBytes(s: string)
    ensures Utf8Len(s) == Bytes(s)
  {
    if s != "" {
      LengthIsBytes(s[1..]);
    }
  }

  // ----- the fingerprint of a line

  /** More than three bytes, and a letter, digit or underscore among them. */
  ghost predicate IsEffective(env: Env, text: string) {
    Bytes(text) > 3 && exists k :: 0 <= k < |text| && (env.alphanumeric(text[k]) || text[k] == '_')
  }

  /**
   An added line of these words under this path has one fingerprint, of the path and of the
   words with single spaces, exactly when there is a path and the words are effective.
   */
  lemma {:induction false} FingerprintExactly(env: Env, path: Option<string>, gaps: seq<string>, words: seq<string>)
    requires |gaps| == |words| + 1 && IsLaidOut(gaps, words)
    ensures PrintOf(env, path, Spaced(gaps, words)) ==
      if path.Some? && IsEffective(env, SingleSpaced(words))
      then [Fingerprint(env.hash("path", path.value), env.hash("line", SingleSpaced(words)))]
      else []
  {
    WordsFound(gaps, words);
    JoinedWithSpaces(words);
    LengthIsBytes(SingleSpaced(words));
  }

  /** Whitespace makes no difference: two lines of the same words have the same fingerprint. */
  lemma {:induction false} SpacingIsInvisible(
    env: Env, path: Option<string>, gaps: seq<string>, other: seq<string>, words: seq<string>)
    requires |gaps| == |words| + 1 && IsLaidOut(gaps, words) && |other| == |words| + 1 && IsLaidOut(other, words)
    ensures PrintOf(env, path, Spaced(gaps, words)) == PrintOf(env, path, Spaced(other, words))
  {
    FingerprintExactly(env, path, gaps, words);
    FingerprintExactly(env, path, other, words);
  }

  // ----- the path of a target

  /** A target as a diff writes it, whitespace around it aside: with git's prefix, or without. */
  lemma {:induction false} TargetExactly(before: string, target: string, after: string, path: string)
    requires AllWhitespace(before) && AllWhitespace(after)
    requires target != "" && !IsWhitespace(target[0]) && !IsWhitespace(target[|target| - 1])
    ensures target == "a/" + path || target == "b/" + path ==> NormalizeDiffPath(before + target + after) == Some(path)
    ensures target == "/dev/null" ==> NormalizeDiffPath(before + target + after) == None
    ensures target != "/dev/null" && !("a/" <= target) && !("b/" <= target) ==>
      NormalizeDiffPath(before + target + after) == Some(target)
  {
    TrimKeepsVisible(target);
    TrimPadded(before, target, after);
    PrefixedTarget(target, path);
  }

  lemma {:induction false} PrefixedTarget(target: string, path: string)
    requires target != ""
    ensures target == "a/" + path || target == "b/" + path ==> TargetPath(target) == Some(path)
  {
    if target == "a/" + path || target == "b/" + path {
      assert target[0] != '/' && target[2..] == path;
      assert "/dev/null"[0] == '/';
      assert target == "a/" + path ==> target[0] == 'a';
    }
  }
}
