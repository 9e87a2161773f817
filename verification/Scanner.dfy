/**
 The small lexer that finds top-level delimiters in generated TypeScript, and the
 split / filter / join built on it (`codex-rs/app-server-protocol/src/export.rs`).
 */
module Scanner {
  import opened Text

  // ----- the lexer

  /** The state of the scan as a value. */
  datatype Scan = Scan(
    brace: nat, bracket: nat, paren: nat, angle: nat,
    delim: Option<char>, escape: bool, block: bool, line: bool, prev: Option<char>)

  const START := Scan(0, 0, 0, 0, None, false, false, false, None)

  predicate Ignored(s: Scan) {
    s.delim.Some? || s.block || s.line
  }

  predicate TopLevel(s: Scan) {
    s.brace == 0 && s.bracket == 0 && s.paren == 0 && s.angle == 0
  }

  /** Outside strings, comments and brackets: the places where a delimiter counts. */
  predicate Plain(s: Scan) {
    !Ignored(s) && TopLevel(s)
  }

  function Down(n: nat): nat {
    if n > 0 then n - 1 else 0
  }

  function Step(s: Scan, ch: char): Scan {
    if s.line then s.(line := ch != '\n', prev := Some(ch))
    else if s.block then
      if s.prev == Some('*') && ch == '/' then s.(block := false, prev := None) else s.(prev := Some(ch))
    else if s.delim.Some? then
      if s.escape then s.(escape := false, prev := Some(ch))
      else if ch == '\\' then s.(escape := true, prev := Some(ch))
      else if Some(ch) == s.delim then s.(delim := None, prev := Some(ch))
      else s.(prev := Some(ch))
    else if s.prev == Some('/') && ch == '/' then s.(line := true, prev := Some(ch))
    else if s.prev == Some('/') && ch == '*' then s.(block := true, prev := Some(ch))
    else if ch == '"' || ch == '\'' then s.(delim := Some(ch), prev := Some(ch))
    else if ch == '{' then s.(brace := s.brace + 1, prev := Some(ch))
    else if ch == '}' then s.(brace := Down(s.brace), prev := Some(ch))
    else if ch == '[' then s.(bracket := s.bracket + 1, prev := Some(ch))
    else if ch == ']' then s.(bracket := Down(s.bracket), prev := Some(ch))
    else if ch == '(' then s.(paren := s.paren + 1, prev := Some(ch))
    else if ch == ')' then s.(paren := Down(s.paren), prev := Some(ch))
    else if ch == '<' then s.(angle := s.angle + 1, prev := Some(ch))
    else if ch == '>' then s.(angle := Down(s.angle), prev := Some(ch))
    else s.(prev := Some(ch))
  }

  function Run(s: Scan, text: string): Scan
    decreases |text|
  {
    if text == "" then s else Run(Step(s, text[0]), text[1..])
  }

  /** The lexer as the exporter keeps it: fields updated character by character. */
  class ScanState {
    var brace: nat
    var bracket: nat
    var paren: nat
    var angle: nat
    var stringDelim: Option<char>
    var escape: bool
    var blockComment: bool
    var lineComment: bool
    var previousChar: Option<char>

    function View(): Scan
      reads this
    {
      Scan(brace, bracket, paren, angle, stringDelim, escape, blockComment, lineComment, previousChar)
    }

    constructor ()
      ensures View() == START
    {
      brace, bracket, paren, angle := 0, 0, 0, 0;
      stringDelim, escape, blockComment, lineComment, previousChar := None, false, false, false, None;
    }

    method Observe(ch: char)
      modifies this
      ensures View() == Step(old(View()), ch)
    {
      if lineComment {
        if ch == '\n' {
          lineComment := false;
        }
        previousChar := Some(ch);
        return;
      }
      if blockComment {
        if previousChar == Some('*') && ch == '/' {
          blockComment := false;
          previousChar := None;
        } else {
          previousChar := Some(ch);
        }
        return;
      }
      if stringDelim.Some? {
        if escape {
          escape := false;
        } else if ch == '\\' {
          escape := true;
        } else if ch == stringDelim.value {
          stringDelim := None;
        }
        previousChar := Some(ch);
        return;
      }
      if previousChar == Some('/') && ch == '/' {
        lineComment := true;
        previousChar := Some(ch);
        return;
      }
      if previousChar == Some('/') && ch == '*' {
        blockComment := true;
        previousChar := Some(ch);
        return;
      }
      match ch {
        case '"' => stringDelim := Some(ch);
        case '\'' => stringDelim := Some(ch);
        case '{' => brace := brace + 1;
        case '}' => brace := Down(brace);
        case '[' => bracket := bracket + 1;
        case ']' => bracket := Down(bracket);
        case '(' => paren := paren + 1;
        case ')' => paren := Down(paren);
        case '<' => angle := angle + 1;
        case '>' => angle := Down(angle);
        case _ =>
      }
      previousChar := Some(ch);
    }
  }

  // ----- splitting

  /** A trimmed piece, dropped when nothing is left of it. */
  function Piece(text: string): seq<string> {
    if Trim(text) == "" then [] else [Trim(text)]
  }

  /** The pieces from here on, when `pending` has been read since the last delimiter. */
  function PiecesFrom(s: Scan, pending: string, rest: string, delims: set<char>): seq<string>
    decreases |rest|
  {
    if rest == "" then Piece(pending)
    else if Plain(s) && rest[0] in delims then
      Piece(pending) + PiecesFrom(Step(s, rest[0]), "", rest[1..], delims)
    else PiecesFrom(Step(s, rest[0]), pending + [rest[0]], rest[1..], delims)
  }

  function Pieces(text: string, delims: set<char>): seq<string> {
    PiecesFrom(START, "", text, delims)
  }

  /** What one character does to the pieces still to come. */
  lemma {:induction false} ReadOne(s: Scan, pending: string, c: char, rest: string, delims: set<char>)
    ensures PiecesFrom(s, pending, [c] + rest, delims) ==
      if Plain(s) && c in delims then Piece(pending) + PiecesFrom(Step(s, c), "", rest, delims)
      else PiecesFrom(Step(s, c), pending + [c], rest, delims)
  {
    assert ([c] + rest)[1..] == rest;
  }

  lemma {:induction false} NextPieces(
    s: Scan, s': Scan, parts: seq<string>, pending: string, c: char, rest: string,
    delims: set<char>, whole: seq<string>)
    requires s' == Step(s, c) && parts + PiecesFrom(s, pending, [c] + rest, delims) == whole
    ensures if Plain(s) && c in delims then parts + Piece(pending) + PiecesFrom(s', "", rest, delims) == whole
      else parts + PiecesFrom(s', pending + [c], rest, delims) == whole
  {
    ReadOne(s, pending, c, rest, delims);
    Regroup(parts, Piece(pending), PiecesFrom(s', "", rest, delims));
  }

  lemma {:induction false} LastPiece(s: Scan, parts: seq<string>, pending: string, rest: string, delims: set<char>)
    requires rest == ""
    ensures parts + PiecesFrom(s, pending, rest, delims) == parts + Piece(pending)
  {
  }

  method SplitTopLevelMulti(input: string, delims: set<char>) returns (parts: seq<string>)
    ensures parts == Pieces(input, delims)
  {
    var state := new ScanState();
    var start := 0;
    parts := [];
    ghost var s, pending, rest, whole := START, "", input, Pieces(input, delims);
    for index := 0 to |input|
      invariant start <= index && pending == input[start..index] && rest == input[index..]
      invariant s == state.View() && parts + PiecesFrom(s, pending, rest, delims) == whole
    {
      SliceGrows(input, start, index);
      var ch := input[index];
      var cut := Plain(state.View()) && ch in delims;
      state.Observe(ch);
      NextPieces(s, state.View(), parts, pending, ch, input[index + 1..], delims, whole);
      s, rest := state.View(), input[index + 1..];
      if cut {
        parts := parts + Piece(input[start..index]);
        start := index + 1;
        pending := "";
      } else {
        pending := pending + [ch];
      }
    }
    SliceEnds(input, start);
    LastPiece(s, parts, pending, rest, delims);
    parts := parts + Piece(input[start..]);
  }

  // ----- runs of the lexer

  lemma {:induction false} RunAppend(s: Scan, a: string, b: string)
    ensures Run(s, a + b) == Run(Run(s, a), b)
    decreases |a|
  {
    if a == "" {
      assert a + b == b;
    } else {
      assert (a + b)[1..] == a[1..] + b;
      RunAppend(Step(s, a[0]), a[1..], b);
    }
  }

  /** Holds of every state the lexer reaches. */
  predicate Sane(s: Scan) {
    && (s.escape ==> s.delim.Some?)
    && (s.delim.Some? ==> s.delim.value == '"' || s.delim.value == '\'')
  }

  /** The initial state, up to a previous character that starts no comment. */
  predicate Fresh(s: Scan) {
    s.(prev := None) == START && s.prev != Some('/')
  }

  /** A character without meaning to the lexer. */
  predicate Neutral(c: char) {
    !IsWhitespace(c) && c !in "\"'{}[]()<>/*\\"
  }

  lemma RunSane(s: Scan, text: string)
    requires Sane(s)
    ensures Sane(Run(s, text))
    decreases |text|
  {
    if text != "" {
      assert Sane(Step(s, text[0]));
      RunSane(Step(s, text[0]), text[1..]);
    }
  }

  lemma FreshLikeStart(s: Scan, text: string)
    requires Fresh(s) && text != ""
    ensures Run(s, text) == Run(START, text)
  {
    assert Step(s, text[0]) == Step(START, text[0]);
  }

  lemma {:induction false} FreshThroughWhitespace(s: Scan, w: string)
    requires Fresh(s) && AllWhitespace(w)
    ensures Fresh(Run(s, w))
    decreases |w|
  {
    if w != "" {
      assert Fresh(Step(s, w[0]));
      FreshThroughWhitespace(Step(s, w[0]), w[1..]);
    }
  }

  lemma DelimiterRestarts(s: Scan, d: char)
    requires Plain(s) && Sane(s) && Neutral(d)
    ensures Fresh(Step(s, d))
  {
  }

  /** Outside line comments whitespace neither opens nor closes anything. */
  lemma {:induction false} WhitespaceIsIdle(s: Scan, w: string)
    requires Sane(s) && AllWhitespace(w) && (s.line ==> '\n' !in w)
    ensures Plain(Run(s, w)) <==> Plain(s)
    ensures Run(s, w).line == s.line
    decreases |w|
  {
    if w != "" {
      var s' := Step(s, w[0]);
      assert Sane(s') && s'.line == s.line && (Plain(s') <==> Plain(s));
      assert '\n' !in w ==> '\n' !in w[1..];
      WhitespaceIsIdle(s', w[1..]);
    }
  }

  // ----- stretches without a delimiter that counts

  predicate Solid(s: Scan, text: string, delims: set<char>)
    decreases |text|
  {
    text == "" || (!(Plain(s) && text[0] in delims) && Solid(Step(s, text[0]), text[1..], delims))
  }

  lemma {:induction false} SolidAppend(s: Scan, a: string, b: string, delims: set<char>)
    ensures Solid(s, a + b, delims) <==> Solid(s, a, delims) && Solid(Run(s, a), b, delims)
    decreases |a|
  {
    if a == "" {
      assert a + b == b;
    } else {
      assert (a + b)[1..] == a[1..] + b;
      SolidAppend(Step(s, a[0]), a[1..], b, delims);
    }
  }

  lemma {:induction false} ReadSolid(s: Scan, pending: string, a: string, rest: string, delims: set<char>)
    requires Solid(s, a, delims)
    ensures PiecesFrom(s, pending, a + rest, delims) == PiecesFrom(Run(s, a), pending + a, rest, delims)
    decreases |a|
  {
    if a == "" {
      assert a + rest == rest && pending + a == pending;
    } else {
      assert (a + rest)[1..] == a[1..] + rest;
      ReadSolid(Step(s, a[0]), pending + [a[0]], a[1..], rest, delims);
      assert pending + [a[0]] + a[1..] == pending + a;
    }
  }

  lemma {:induction false} WhitespaceSolid(s: Scan, w: string, delims: set<char>)
    requires AllWhitespace(w) && forall d :: d in delims ==> Neutral(d)
    ensures Solid(s, w, delims)
    decreases |w|
  {
    if w != "" {
      WhitespaceSolid(Step(s, w[0]), w[1..], delims);
    }
  }

  // ----- arms

  /** What splitting yields: trimmed, not empty, and with no delimiter that counts inside. */
  predicate IsArm(a: string, delims: set<char>) {
    a != "" && Trim(a) == a && Solid(START, a, delims)
  }

  /** Scanned on its own, the arm ends outside strings, comments and brackets. */
  predicate Closed(a: string) {
    Plain(Run(START, a))
  }

  predicate AllButLastClosed(arms: seq<string>) {
    forall i :: 0 <= i < |arms| - 1 ==> Closed(arms[i])
  }

  /** The scan of `text` from `s` is never inside a line comment. */
  predicate NeverInLineComment(s: Scan, text: string)
    decreases |text|
  {
    !s.line && (text != "" ==> NeverInLineComment(Step(s, text[0]), text[1..]))
  }

  lemma {:induction false} NeverAppend(s: Scan, a: string, b: string)
    ensures NeverInLineComment(s, a + b) <==> NeverInLineComment(s, a) && NeverInLineComment(Run(s, a), b)
    decreases |a|
  {
    if a == "" {
      assert a + b == b;
    } else {
      assert (a + b)[1..] == a[1..] + b;
      NeverAppend(Step(s, a[0]), a[1..], b);
    }
  }

  lemma {:induction false} SolidInside(s: Scan, w: string, a: string, x: string, delims: set<char>)
    requires Fresh(s) && AllWhitespace(w) && Solid(s, w + (a + x), delims)
    ensures Solid(START, a, delims)
  {
    SolidAppend(s, w, a + x, delims);
    SolidAppend(Run(s, w), a, x, delims);
    FreshThroughWhitespace(s, w);
    SolidFromStart(Run(s, w), a, delims);
  }

  lemma {:induction false} ClosedInside(s: Scan, w: string, a: string, x: string)
    requires Fresh(s) && AllWhitespace(w) && AllWhitespace(x) && a != ""
    requires Plain(Run(s, w + (a + x))) && NeverInLineComment(s, w + (a + x))
    ensures Closed(a)
  {
    var s1 := Run(s, w);
    FreshThroughWhitespace(s, w);
    FreshLikeStart(s1, a);
    RunAppend(s, w, a + x);
    RunAppend(s1, a, x);
    NeverAppend(s, w, a + x);
    NeverAppend(s1, a, x);
    RunSane(START, a);
    WhitespaceIsIdle(Run(s1, a), x);
  }

  lemma {:induction false} ArmInside(s: Scan, w: string, a: string, x: string, piece: string, delims: set<char>)
    requires piece == w + (a + x) && AllWhitespace(w) && AllWhitespace(x) && a != ""
    requires Fresh(s) && Solid(s, piece, delims)
    ensures Solid(START, a, delims)
    ensures Plain(Run(s, piece)) && NeverInLineComment(s, piece) ==> Closed(a)
  {
    SolidInside(s, w, a, x, delims);
    if Plain(Run(s, piece)) && NeverInLineComment(s, piece) {
      ClosedInside(s, w, a, x);
    }
  }

  lemma {:induction false} PadsOf(piece: string, a: string) returns (w: string, x: string)
    requires a == Trim(piece)
    ensures AllWhitespace(w) && AllWhitespace(x) && piece == w + (a + x) && Trim(a) == a
  {
    w, x := TrimParts(piece);
    TrimTwice(piece);
    Regroup(w, a, x);
  }

  /** A piece read from a fresh state, cut down to its arm. */
  lemma {:induction false} PieceIsArm(s: Scan, piece: string, a: string, delims: set<char>)
    requires Fresh(s) && Solid(s, piece, delims) && a == Trim(piece) && a != ""
    ensures IsArm(a, delims)
    ensures Plain(Run(s, piece)) && NeverInLineComment(s, piece) ==> Closed(a)
  {
    var w, x := PadsOf(piece, a);
    ArmInside(s, w, a, x, piece, delims);
  }

  lemma {:induction false} SolidFromStart(s: Scan, a: string, delims: set<char>)
    requires Fresh(s) && Solid(s, a, delims)
    ensures Solid(START, a, delims)
  {
    assert Plain(s) == Plain(START);
    if a != "" {
      assert Step(s, a[0]) == Step(START, a[0]);
    }
  }

  /** Splitting yields arms, and without line comments all but the last are closed. */
  lemma {:induction false} PieceThenArms(pending: string, tail: seq<string>, delims: set<char>)
    requires Trim(pending) != "" ==> IsArm(Trim(pending), delims)
    requires forall a :: a in tail ==> IsArm(a, delims)
    ensures forall a :: a in Piece(pending) + tail ==> IsArm(a, delims)
    ensures AllButLastClosed(tail) && (Trim(pending) != "" ==> Closed(Trim(pending))) ==>
      AllButLastClosed(Piece(pending) + tail)
  {
    if Trim(pending) == "" {
      assert Piece(pending) + tail == tail;
    } else {
      var a := Trim(pending);
      if AllButLastClosed(tail) && Closed(a) {
        ArmBefore(a, tail);
      }
    }
  }

  lemma {:induction false} ArmBefore(a: string, tail: seq<string>)
    requires AllButLastClosed(tail) && Closed(a)
    ensures AllButLastClosed([a] + tail)
  {
    forall i | 0 <= i < |tail| ensures Closed(([a] + tail)[i]) {
      if i > 0 {
        assert ([a] + tail)[i] == tail[i - 1];
      }
    }
  }

  /** What is known of the first piece of a scan that started fresh. */
  lemma {:induction false} FirstIsArm(s0: Scan, pending: string, rest: string, delims: set<char>)
    requires Fresh(s0) && Solid(s0, pending, delims)
    ensures Trim(pending) != "" ==> IsArm(Trim(pending), delims)
    ensures Plain(Run(s0, pending)) && NeverInLineComment(s0, pending + rest) && Trim(pending) != "" ==>
      Closed(Trim(pending))
    ensures NeverInLineComment(s0, pending + rest) ==> NeverInLineComment(Run(s0, pending), rest)
  {
    if Trim(pending) != "" {
      PieceIsArm(s0, pending, Trim(pending), delims);
    }
    NeverAppend(s0, pending, rest);
  }

  lemma {:induction false} OneMoreRead(s0: Scan, pending: string, rest: string, delims: set<char>)
    requires Solid(s0, pending, delims) && rest != "" && !(Plain(Run(s0, pending)) && rest[0] in delims)
    ensures Solid(s0, pending + [rest[0]], delims) && Run(s0, pending + [rest[0]]) == Step(Run(s0, pending), rest[0])
    ensures pending + [rest[0]] + rest[1..] == pending + rest
  {
    RunAppend(s0, pending, [rest[0]]);
    SolidAppend(s0, pending, [rest[0]], delims);
    assert Run(Run(s0, pending), [rest[0]]) == Step(Run(s0, pending), rest[0]);
  }

  lemma {:induction false} PiecesFromAreArms(s0: Scan, pending: string, rest: string, delims: set<char>)
    requires Fresh(s0) && Solid(s0, pending, delims) && forall d :: d in delims ==> Neutral(d)
    ensures forall a :: a in PiecesFrom(Run(s0, pending), pending, rest, delims) ==> IsArm(a, delims)
    ensures NeverInLineComment(s0, pending + rest) ==>
      AllButLastClosed(PiecesFrom(Run(s0, pending), pending, rest, delims))
    decreases |rest|
  {
    var s := Run(s0, pending);
    FirstIsArm(s0, pending, rest, delims);
    if rest != "" {
      if Plain(s) && rest[0] in delims {
        RunSane(s0, pending);
        DelimiterRestarts(s, rest[0]);
        PiecesFromAreArms(Step(s, rest[0]), "", rest[1..], delims);
        assert "" + rest[1..] == rest[1..];
        PieceThenArms(pending, PiecesFrom(Step(s, rest[0]), "", rest[1..], delims), delims);
      } else {
        OneMoreRead(s0, pending, rest, delims);
        PiecesFromAreArms(s0, pending + [rest[0]], rest[1..], delims);
      }
    }
  }

  // ----- joining and splitting again

  /** A delimiter with whitespace around it, such as `" | "` or `", "`. */
  datatype Separator = Separator(before: string, delim: char, after: string) {
    predicate Fits(delims: set<char>) {
      && delim in delims && (forall d :: d in delims ==> Neutral(d))
      && AllWhitespace(before) && AllWhitespace(after) && '\n' !in before
    }
    function Text(): string {
      before + [delim] + after
    }
  }

  const UNION := Separator(" ", '|', " ")
  const FIELDS := Separator("", ',', " ")

  function Join(arms: seq<string>, sep: Separator): string {
    if arms == [] then "" else if |arms| == 1 then arms[0] else arms[0] + sep.Text() + Join(arms[1..], sep)
  }

  /** The first piece starts with what is pending. */
  ghost predicate StartsWithPending(pieces: seq<string>, pending: string, more: string) {
    pieces != [] && pieces[0] == Trim(pending + more)
  }

  lemma {:induction false} PieceEndsHere(pending: string, tail: seq<string>)
    requires Trim(pending) != ""
    ensures StartsWithPending(Piece(pending) + tail, pending, "")
  {
    assert pending + "" == pending;
  }

  lemma {:induction false} PieceGoesOn(pieces: seq<string>, pending: string, c: char, m: string)
    requires StartsWithPending(pieces, pending + [c], m)
    ensures StartsWithPending(pieces, pending, [c] + m)
  {
    assert pending + [c] + m == pending + ([c] + m);
  }

  lemma {:induction false} FirstPieceGrows(
    s: Scan, pending: string, rest: string, delims: set<char>) returns (more: string)
    requires Trim(pending) != ""
    ensures StartsWithPending(PiecesFrom(s, pending, rest, delims), pending, more)
    decreases |rest|
  {
    if rest == "" {
      PieceEndsHere(pending, []);
      assert Piece(pending) + [] == Piece(pending);
      more := "";
    } else {
      assert rest == [rest[0]] + rest[1..];
      ReadOne(s, pending, rest[0], rest[1..], delims);
      if Plain(s) && rest[0] in delims {
        PieceEndsHere(pending, PiecesFrom(Step(s, rest[0]), "", rest[1..], delims));
        more := "";
      } else {
        TrimGrows(pending, rest[0]);
        var m := FirstPieceGrows(Step(s, rest[0]), pending + [rest[0]], rest[1..], delims);
        PieceGoesOn(PiecesFrom(s, pending, rest, delims), pending, rest[0], m);
        more := [rest[0]] + m;
      }
    }
  }

  lemma {:induction false} TrimGrows(s: string, c: char)
    requires Trim(s) != ""
    ensures Trim(s + [c]) != ""
  {
    BlankExactly(s);
    BlankExactly(s + [c]);
    var k :| 0 <= k < |s| && !IsWhitespace(s[k]);
    assert (s + [c])[k] == s[k];
  }

  /** Whitespace is read over without ending a piece. */
  lemma {:induction false} ReadWhitespace(s: Scan, pending: string, w: string, rest: string, delims: set<char>)
    requires AllWhitespace(w) && forall d :: d in delims ==> Neutral(d)
    ensures PiecesFrom(s, pending, w + rest, delims) == PiecesFrom(Run(s, w), pending + w, rest, delims)
  {
    WhitespaceSolid(s, w, delims);
    ReadSolid(s, pending, w, rest, delims);
  }

  lemma {:induction false} SeparatorText(sep: Separator, rest: string)
    ensures sep.Text() + rest == sep.before + ([sep.delim] + (sep.after + rest))
  {
  }

  /** After a closed arm the separator is recognised and the next arm starts afresh. */
  lemma {:induction false} SeparatorSplits(
    q: Scan, w: string, a: string, sep: Separator, rest: string, delims: set<char>) returns (s: Scan)
    requires sep.Fits(delims) && Plain(q) && Sane(q) && AllWhitespace(w) && a != "" && Trim(a) == a
    ensures Fresh(s)
    ensures PiecesFrom(q, w + a, sep.Text() + rest, delims) == [a] + PiecesFrom(s, sep.after, rest, delims)
  {
    SeparatorText(sep, rest);
    ReadWhitespace(q, w + a, sep.before, [sep.delim] + (sep.after + rest), delims);
    var q1 := Run(q, sep.before);
    WhitespaceIsIdle(q, sep.before);
    RunSane(q, sep.before);
    ReadOne(q1, w + a + sep.before, sep.delim, sep.after + rest, delims);
    TrimPadded(w, a, sep.before);
    DelimiterRestarts(q1, sep.delim);
    s := AfterDelimiter(Step(q1, sep.delim), sep, rest, delims);
  }

  lemma {:induction false} AfterDelimiter(s1: Scan, sep: Separator, rest: string, delims: set<char>) returns (s: Scan)
    requires sep.Fits(delims) && Fresh(s1)
    ensures Fresh(s)
    ensures PiecesFrom(s1, "", sep.after + rest, delims) == PiecesFrom(s, sep.after, rest, delims)
  {
    ReadWhitespace(s1, "", sep.after, rest, delims);
    assert "" + sep.after == sep.after;
    FreshThroughWhitespace(s1, sep.after);
    s := Run(s1, sep.after);
  }

  /** After an open arm the separator is swallowed, so a longer piece comes out. */
  lemma {:induction false} SeparatorSwallowed(
    q: Scan, w: string, a: string, sep: Separator, rest: string, delims: set<char>)
    requires sep.Fits(delims) && !Plain(q) && Sane(q) && AllWhitespace(w) && a != "" && Trim(a) == a
    ensures PiecesFrom(q, w + a, sep.Text() + rest, delims) != []
    ensures PiecesFrom(q, w + a, sep.Text() + rest, delims)[0] != a
  {
    SeparatorText(sep, rest);
    ReadWhitespace(q, w + a, sep.before, [sep.delim] + (sep.after + rest), delims);
    var q1 := Run(q, sep.before);
    WhitespaceIsIdle(q, sep.before);
    ReadOne(q1, w + a + sep.before, sep.delim, sep.after + rest, delims);
    var pending := w + a + sep.before + [sep.delim];
    TrimKeepsInner(w, a, sep.before, sep.delim, "");
    assert pending + "" == pending;
    var more := FirstPieceGrows(Step(q1, sep.delim), pending, sep.after + rest, delims);
    TrimKeepsInner(w, a, sep.before, sep.delim, more);
  }

  /** Reading an arm from a fresh state ends where reading it alone ends. */
  lemma {:induction false} ReadArm(s: Scan, w: string, a: string, rest: string, delims: set<char>)
    requires Fresh(s) && IsArm(a, delims)
    ensures PiecesFrom(s, w, a + rest, delims) == PiecesFrom(Run(START, a), w + a, rest, delims)
    ensures Sane(Run(START, a))
  {
    FreshSolid(s, a, delims);
    ReadSolid(s, w, a, rest, delims);
    FreshLikeStart(s, a);
    RunSane(START, a);
  }

  lemma {:induction false} ClosedCons(arms: seq<string>)
    requires |arms| > 1
    ensures AllButLastClosed(arms) <==> Closed(arms[0]) && AllButLastClosed(arms[1..])
  {
    if AllButLastClosed(arms) {
      forall i | 0 <= i < |arms[1..]| - 1 ensures Closed(arms[1..][i]) { assert Closed(arms[i + 1]); }
    }
    if Closed(arms[0]) && AllButLastClosed(arms[1..]) {
      forall i | 0 <= i < |arms| - 1 ensures Closed(arms[i]) { assert i > 0 ==> arms[i] == arms[1..][i - 1]; }
    }
  }

  lemma {:induction false} ResplitFrom(s: Scan, w: string, arms: seq<string>, sep: Separator, delims: set<char>)
    requires Fresh(s) && AllWhitespace(w) && sep.Fits(delims)
    requires forall a :: a in arms ==> IsArm(a, delims)
    ensures PiecesFrom(s, w, Join(arms, sep), delims) == arms <==> AllButLastClosed(arms)
    decreases |arms|
  {
    if arms == [] {
      TrimNothing(w);
    } else if |arms| == 1 {
      ResplitOne(s, w, arms[0], delims);
      assert arms == [arms[0]];
    } else {
      var a := arms[0];
      var rest := Join(arms[1..], sep);
      assert Join(arms, sep) == a + (sep.Text() + rest);
      assert a in arms && forall b :: b in arms[1..] ==> b in arms;
      ClosedCons(arms);
      assert arms == [a] + arms[1..];
      if Closed(a) {
        var s' := ArmThenSeparator(s, w, a, sep, rest, delims);
        ResplitFrom(s', sep.after, arms[1..], sep, delims);
      } else {
        ReadArm(s, w, a, sep.Text() + rest, delims);
        SeparatorSwallowed(Run(START, a), w, a, sep, rest, delims);
      }
    }
  }

  lemma {:induction false} ResplitOne(s: Scan, w: string, a: string, delims: set<char>)
    requires Fresh(s) && AllWhitespace(w) && IsArm(a, delims)
    ensures PiecesFrom(s, w, a, delims) == [a]
  {
    ReadArm(s, w, a, "", delims);
    assert a + "" == a;
    PieceOfPadded(w, a);
  }

  lemma {:induction false} PieceOfPadded(w: string, a: string)
    requires AllWhitespace(w) && a != "" && Trim(a) == a
    ensures Piece(w + a) == [a]
  {
    assert w + a + "" == w + a;
    TrimPadded(w, a, "");
  }

  lemma {:induction false} ArmThenSeparator(
    s: Scan, w: string, a: string, sep: Separator, rest: string, delims: set<char>) returns (s': Scan)
    requires Fresh(s) && AllWhitespace(w) && sep.Fits(delims) && IsArm(a, delims) && Closed(a)
    ensures Fresh(s')
    ensures PiecesFrom(s, w, a + (sep.Text() + rest), delims) == [a] + PiecesFrom(s', sep.after, rest, delims)
  {
    ReadArm(s, w, a, sep.Text() + rest, delims);
    s' := SeparatorSplits(Run(START, a), w, a, sep, rest, delims);
  }

  lemma {:induction false} FreshSolid(s: Scan, a: string, delims: set<char>)
    requires Fresh(s) && Solid(START, a, delims)
    ensures Solid(s, a, delims)
  {
    assert Plain(s) == Plain(START);
    if a != "" {
      assert Step(s, a[0]) == Step(START, a[0]);
    }
  }

  /** Joining arms and splitting again gives the same arms exactly when all but the last are closed. */
  lemma {:induction false} ResplitExactly(arms: seq<string>, sep: Separator, delims: set<char>)
    requires sep.Fits(delims) && forall a :: a in arms ==> IsArm(a, delims)
    ensures Pieces(Join(arms, sep), delims) == arms <==> AllButLastClosed(arms)
  {
    ResplitFrom(START, "", arms, sep, delims);
  }

  // ----- filtering

  function Filter(arms: seq<string>, keep: string -> bool): (r: seq<string>)
    ensures forall a :: a in r <==> a in arms && keep(a)
  {
    if arms == [] then [] else (if keep(arms[0]) then [arms[0]] else []) + Filter(arms[1..], keep)
  }

  /** The positions of the arms a filter keeps, in order and none left out. */
  ghost predicate Selects(at: seq<nat>, arms: seq<string>, keep: string -> bool) {
    && (forall k :: 0 <= k < |at| ==> at[k] < |arms|)
    && (forall j, k :: 0 <= j < k < |at| ==> at[j] < at[k])
    && (forall i :: 0 <= i < |arms| ==> (i in at <==> keep(arms[i])))
  }

  function Later(at: seq<nat>): seq<nat> {
    seq(|at|, k requires 0 <= k < |at| => at[k] + 1)
  }

  lemma {:induction false} LaterIn(at: seq<nat>, i: nat)
    ensures i in Later(at) <==> i > 0 && i - 1 in at
  {
    if i > 0 && i - 1 in at {
      var k :| 0 <= k < |at| && at[k] == i - 1;
      assert Later(at)[k] == i;
    }
  }

  lemma {:induction false} SelectsLater(at: seq<nat>, first: string, rest: seq<string>, keep: string -> bool)
    requires Selects(at, rest, keep)
    ensures Selects((if keep(first) then [0] else []) + Later(at), [first] + rest, keep)
  {
    forall i | 0 <= i < |[first] + rest|
      ensures i in (if keep(first) then [0] else []) + Later(at) <==> keep(([first] + rest)[i])
    {
      LaterIn(at, i);
      assert i > 0 ==> ([first] + rest)[i] == rest[i - 1];
    }
  }

  /** The arms at given positions. */
  function PickedAt(arms: seq<string>, at: seq<nat>): seq<string>
    requires forall k :: 0 <= k < |at| ==> at[k] < |arms|
  {
    seq(|at|, k requires 0 <= k < |at| => arms[at[k]])
  }

  lemma {:induction false} PickedLater(at: seq<nat>, first: string, rest: seq<string>)
    requires forall k :: 0 <= k < |at| ==> at[k] < |rest|
    ensures PickedAt([first] + rest, Later(at)) == PickedAt(rest, at)
    ensures PickedAt([first] + rest, [0] + Later(at)) == [first] + PickedAt(rest, at)
  {
  }

  lemma {:induction false} FilterFirst(first: string, rest: seq<string>, keep: string -> bool)
    ensures Filter([first] + rest, keep) == (if keep(first) then [first] else []) + Filter(rest, keep)
  {
    assert ([first] + rest)[1..] == rest;
  }

  lemma {:induction false} FilterSelects(arms: seq<string>, keep: string -> bool) returns (at: seq<nat>)
    ensures Selects(at, arms, keep) && Filter(arms, keep) == PickedAt(arms, at)
  {
    if arms == [] {
      at := [];
    } else {
      var first, rest := arms[0], arms[1..];
      assert arms == [first] + rest;
      var inRest := FilterSelects(rest, keep);
      SelectsLater(inRest, first, rest, keep);
      PickedLater(inRest, first, rest);
      FilterFirst(first, rest, keep);
      at := (if keep(first) then [0] else []) + Later(inRest);
      assert !keep(first) ==> at == Later(inRest);
    }
  }

  /** Splits a body, keeps some arms and joins them. */
  function FilterBody(body: string, keep: string -> bool, sep: Separator, delims: set<char>): string {
    Join(Filter(Pieces(body, delims), keep), sep)
  }

  lemma {:induction false} FilterClosed(arms: seq<string>, keep: string -> bool)
    requires AllButLastClosed(arms)
    ensures AllButLastClosed(Filter(arms, keep))
  {
    if arms != [] {
      FilterClosed(arms[1..], keep);
      if |arms| == 1 {
        assert Filter(arms[1..], keep) == [];
      }
    }
  }

  lemma {:induction false} FilterAgain(arms: seq<string>, keep: string -> bool)
    requires forall a :: a in arms ==> keep(a)
    ensures Filter(arms, keep) == arms
  {
    if arms != [] {
      FilterAgain(arms[1..], keep);
      assert arms == [arms[0]] + arms[1..];
    }
  }

  /**
   For a body whose scan never enters a line comment, the filtered body splits into
   exactly the kept arms, so filtering it again changes nothing.
   */
  lemma {:induction false} FilterIsFaithful(body: string, keep: string -> bool, sep: Separator, delims: set<char>)
    requires sep.Fits(delims) && NeverInLineComment(START, body)
    ensures Pieces(FilterBody(body, keep, sep, delims), delims) == Filter(Pieces(body, delims), keep)
    ensures FilterBody(FilterBody(body, keep, sep, delims), keep, sep, delims) == FilterBody(body, keep, sep, delims)
  {
    var kept := Filter(Pieces(body, delims), keep);
    assert "" + body == body;
    PiecesFromAreArms(START, "", body, delims);
    FilterClosed(Pieces(body, delims), keep);
    ResplitExactly(kept, sep, delims);
    FilterAgain(kept, keep);
  }

  /** For every body: the filtered body splits into the kept arms exactly when all but the last are closed. */
  lemma {:induction false} FilterIsFaithfulExactly(
    body: string, keep: string -> bool, sep: Separator, delims: set<char>)
    requires sep.Fits(delims)
    ensures Pieces(FilterBody(body, keep, sep, delims), delims) == Filter(Pieces(body, delims), keep) <==>
      AllButLastClosed(Filter(Pieces(body, delims), keep))
  {
    assert "" + body == body;
    PiecesFromAreArms(START, "", body, delims);
    ResplitExactly(Filter(Pieces(body, delims), keep), sep, delims);
  }

  // ----- a body with a line comment

  lemma {:induction false} SolidWithout(s: Scan, text: string, delims: set<char>)
    requires forall c :: c in text ==> c !in delims
    ensures Solid(s, text, delims)
    decreases |text|
  {
    if text != "" {
      SolidWithout(Step(s, text[0]), text[1..], delims);
    }
  }

  lemma {:induction false} RunFour(s: Scan, a: char, b: char, c: char, d: char)
    ensures Run(s, [a, b, c, d]) == Step(Step(Step(Step(s, a), b), c), d)
  {
    RunTwo(s, a, b);
    RunTwo(Step(Step(s, a), b), c, d);
    assert [a, b, c, d] == [a, b] + [c, d];
    RunAppend(s, [a, b], [c, d]);
  }

  lemma {:induction false} RunTwo(s: Scan, a: char, b: char)
    ensures Run(s, [a, b]) == Step(Step(s, a), b)
  {
    assert [a, b][1..] == [b];
    assert [b][1..] == "";
    assert Run(Step(s, a), [b]) == Step(Step(s, a), b);
  }

  /** Scanned alone, the commented arm ends inside its comment; a line feed closes it. */
  lemma {:induction false} CommentedArm(a: string)
    requires a == ['A', '/', '/', 'x']
    ensures IsArm(a, {'|'}) && !Closed(a)
    ensures Plain(Run(START, a + "\n")) && Solid(START, a + "\n", {'|'})
  {
    TrimKeepsVisible(a);
    SolidWithout(START, a, {'|'});
    RunFour(START, 'A', '/', '/', 'x');
    assert Run(START, a).line;
    RunAppend(START, a, "\n");
    assert Run(Run(START, a), "\n") == Step(Run(START, a), '\n');
    SolidWithout(START, a + "\n", {'|'});
  }

  lemma {:induction false} LastArm(s: Scan, b: string)
    requires b == "B"
    ensures PiecesFrom(s, "", b, {'|'}) == [b] && IsArm(b, {'|'})
  {
    SolidWithout(s, b, {'|'});
    SolidWithout(START, b, {'|'});
    ReadSolid(s, "", b, "", {'|'});
    assert b + "" == b && "" + b == b;
    TrimKeepsVisible(b);
  }

  lemma {:induction false} CommentedPieces(a: string, b: string)
    requires a == ['A', '/', '/', 'x'] && b == "B"
    ensures Pieces(a + "\n" + (['|'] + b), {'|'}) == [a, b]
  {
    CommentedArm(a);
    var line := a + "\n";
    ReadSolid(START, "", line, ['|'] + b, {'|'});
    assert "" + line == line;
    ReadOne(Run(START, line), line, '|', b, {'|'});
    PieceOfLine(a);
    LastArm(Step(Run(START, line), '|'), b);
  }

  lemma {:induction false} PieceOfLine(a: string)
    requires a != "" && Trim(a) == a
    ensures Piece(a + "\n") == [a]
  {
    assert "" + a + "\n" == a + "\n";
    TrimPadded("", a, "\n");
  }

  /**
   Two arms on two lines, the first with a line comment. Keeping both, the joined body no
   longer has the line feed that ended the comment, and the second arm is lost to it.
   */
  lemma {:induction false} LineCommentExample(a: string, b: string, keep: string -> bool)
    requires a == ['A', '/', '/', 'x'] && b == "B" && keep(a) && keep(b)
    ensures var body := a + "\n" + (['|'] + b);
      && Filter(Pieces(body, {'|'}), keep) == [a, b]
      && Pieces(FilterBody(body, keep, UNION, {'|'}), {'|'}) != [a, b]
  {
    CommentedPieces(a, b);
    CommentedArm(a);
    FilterAgain([a, b], keep);
    assert !AllButLastClosed([a, b]) by { assert [a, b][0] == a; }
    FilterIsFaithfulExactly(a + "\n" + (['|'] + b), keep, UNION, {'|'});
  }

  lemma SeparatorsFit()
    ensures UNION.Fits({'|'}) && FIELDS.Fits({',', ';'})
    ensures UNION.Text() == " | " && FIELDS.Text() == ", "
  {
  }
}
