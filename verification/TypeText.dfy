/**
 TypeScript text as a structure with its own rendering, and what splitting it at
 delimiters gives: the arms the structure has
 (`codex-rs/app-server-protocol/src/export.rs`).
 */
module TypeText {
  import opened Text
  import opened Scanner

  // ----- the structure

  datatype Bracket = Brace | Square | Round | Angle {
    function Open(): char {
      match this case Brace => '{' case Square => '[' case Round => '(' case Angle => '<'
    }
    function Close(): char {
      match this case Brace => '}' case Square => ']' case Round => ')' case Angle => '>'
    }
  }

  /** What stands inside quotes: a character, or a backslash and any character. */
  datatype Letter = One(c: char) | Escaped(c: char)

  datatype Token =
    | Char(c: char)
    | Quoted(quote: char, letters: seq<Letter>)
    | BlockComment(text: string)
    | LineComment(text: string)
    | Group(bracket: Bracket, inner: seq<Token>)

  function Letters(letters: seq<Letter>): string {
    if letters == [] then ""
    else (match letters[0] case One(c) => [c] case Escaped(c) => ['\\', c]) + Letters(letters[1..])
  }

  function Show(t: Token): string {
    match t
    case Char(c) => [c]
    case Quoted(q, letters) => [q] + Letters(letters) + [q]
    case BlockComment(text) => ['/', '*'] + text + ['*', '/']
    case LineComment(text) => ['/', '/'] + text + ['\n']
    case Group(b, inner) => [b.Open()] + Render(inner) + [b.Close()]
  }

  function Render(ts: seq<Token>): string {
    if ts == [] then "" else Show(ts[0]) + Render(ts[1..])
  }

  // ----- which structures are TypeScript

  predicate LettersFit(letters: seq<Letter>, quote: char) {
    forall l :: l in letters && l.One? ==> l.c != quote && l.c != '\\'
  }

  /** No `*` and `/` in a row, counting the `*` that opened the comment. */
  predicate StaysOpen(text: string) {
    && (text != "" ==> text[0] != '/')
    && forall k :: 0 < k < |text| ==> !(text[k - 1] == '*' && text[k] == '/')
  }

  /** A character that is just itself; a closing one, as in an arrow, is that outside brackets of its kind. */
  predicate IsPlainChar(c: char, around: set<Bracket>) {
    c !in "\"'{}[]()<>" || exists b: Bracket :: b !in around && c == b.Close()
  }

  predicate Fine(t: Token, around: set<Bracket>) {
    match t
    case Char(c) => IsPlainChar(c, around)
    case Quoted(q, letters) => (q == '"' || q == '\'') && LettersFit(letters, q)
    case BlockComment(text) => StaysOpen(text)
    case LineComment(text) => '\n' !in text
    case Group(b, inner) => WellFormed(inner, around + {b})
  }

  /** Fine tokens in a row, no slash before something that would make it a comment. */
  predicate WellFormed(ts: seq<Token>, around: set<Bracket>) {
    ts == [] ||
    (&& Fine(ts[0], around) && WellFormed(ts[1..], around)
     && (ts[0] == Char('/') && |ts| > 1 ==> Show(ts[1])[0] != '/' && Show(ts[1])[0] != '*'))
  }

  /** No delimiter stands outside groups, strings and comments. */
  predicate Undivided(ts: seq<Token>, delims: set<char>) {
    forall t :: t in ts && t.Char? ==> t.c !in delims
  }

  predicate IsTypeArm(ts: seq<Token>, delims: set<char>) {
    WellFormed(ts, {}) && Undivided(ts, delims)
  }

  // ----- reading it

  /** Equal up to the character read last. */
  predicate Like(a: Scan, b: Scan) {
    a.(prev := None) == b.(prev := None)
  }

  /** Outside strings and comments, in any brackets. */
  predicate Reading(s: Scan) {
    !Ignored(s) && !s.escape
  }

  /** Read from `s`, the text closes what it opens, and none of it divides. */
  predicate Passes(s: Scan, text: string, delims: set<char>) {
    Like(Run(s, text), s) && Solid(s, text, delims)
  }

  lemma {:induction false} RunOne(s: Scan, c: char, delims: set<char>)
    ensures Run(s, [c]) == Step(s, c)
    ensures Solid(s, [c], delims) <==> !(Plain(s) && c in delims)
  {
    assert [c][1..] == "";
    assert Run(Step(s, c), "") == Step(s, c);
    assert Solid(Step(s, c), "", delims);
  }

  /** Reading in three parts: into something, through it, and out again. */
  lemma {:induction false} Enclosed(s: Scan, a: string, b: string, c: string, delims: set<char>)
    requires Solid(s, a, delims) && Passes(Run(s, a), b, delims)
    ensures Run(s, a + b + c) == Run(Run(Run(s, a), b), c)
    ensures Solid(Run(Run(s, a), b), c, delims) ==> Solid(s, a + b + c, delims)
  {
    Regroup(a, b, c);
    RunAppend(s, a, b + c);
    RunAppend(Run(s, a), b, c);
    SolidAppend(s, a, b + c, delims);
    SolidAppend(Run(s, a), b, c, delims);
  }

  lemma {:induction false} Chained(s: Scan, a: string, b: string, delims: set<char>)
    requires Passes(s, a, delims) && Passes(Run(s, a), b, delims)
    ensures Passes(s, a + b, delims)
  {
    RunAppend(s, a, b);
    SolidAppend(s, a, b, delims);
  }

  lemma {:induction false} LetterPasses(s: Scan, l: Letter, quote: char, delims: set<char>)
    requires s.delim == Some(quote) && !s.escape && !s.block && !s.line
    requires l.One? ==> l.c != quote && l.c != '\\'
    ensures Passes(s, match l { case One(c) => [c] case Escaped(c) => ['\\', c] }, delims)
  {
    match l
    case One(c) => RunOne(s, c, delims);
    case Escaped(c) =>
      RunTwo(s, '\\', c);
      assert ['\\', c][1..] == [c];
      RunOne(Step(s, '\\'), c, delims);
  }

  lemma {:induction false} LettersPass(s: Scan, letters: seq<Letter>, quote: char, delims: set<char>)
    requires s.delim == Some(quote) && !s.escape && !s.block && !s.line && LettersFit(letters, quote)
    ensures Passes(s, Letters(letters), delims)
    decreases |letters|
  {
    if letters != [] {
      var first := match letters[0] { case One(c) => [c] case Escaped(c) => ['\\', c] };
      LetterPasses(s, letters[0], quote, delims);
      LettersPass(Run(s, first), letters[1..], quote, delims);
      Chained(s, first, Letters(letters[1..]), delims);
    }
  }

  lemma {:induction false} QuotedPasses(s: Scan, quote: char, letters: seq<Letter>, delims: set<char>)
    requires Reading(s) && (quote == '"' || quote == '\'') && LettersFit(letters, quote)
    requires forall d :: d in delims ==> Neutral(d)
    ensures Passes(s, Show(Quoted(quote, letters)), delims) && Run(s, Show(Quoted(quote, letters))).prev != Some('/')
  {
    RunOne(s, quote, delims);
    var inside := Step(s, quote);
    LettersPass(inside, letters, quote, delims);
    var last := Run(inside, Letters(letters));
    RunOne(last, quote, delims);
    Enclosed(s, [quote], Letters(letters), [quote], delims);
  }

  /** Inside a block comment, text that does not end it. */
  lemma {:induction false} BlockPasses(s: Scan, text: string, delims: set<char>)
    requires s.block && !s.line && (text != "" ==> !(s.prev == Some('*') && text[0] == '/'))
    requires forall k :: 0 < k < |text| ==> !(text[k - 1] == '*' && text[k] == '/')
    ensures Passes(s, text, delims)
    decreases |text|
  {
    if text != "" {
      var s' := Step(s, text[0]);
      assert s'.prev == Some(text[0]) && Like(s', s);
      forall k | 0 < k < |text[1..]| ensures !(text[1..][k - 1] == '*' && text[1..][k] == '/') {
        assert text[1..][k - 1] == text[k] && text[1..][k] == text[k + 1];
      }
      assert |text| > 1 ==> text[1..][0] == text[1];
      BlockPasses(s', text[1..], delims);
    }
  }

  lemma {:induction false} BlockCommentPasses(s: Scan, text: string, delims: set<char>)
    requires Reading(s) && s.prev != Some('/') && StaysOpen(text) && forall d :: d in delims ==> Neutral(d)
    ensures Passes(s, Show(BlockComment(text)), delims) && Run(s, Show(BlockComment(text))).prev != Some('/')
  {
    var inside := Opens(s, '*', delims);
    BlockPasses(inside, text, delims);
    var last := Run(inside, text);
    RunTwo(last, '*', '/');
    assert ['*', '/'][1..] == ['/'];
    RunOne(Step(last, '*'), '/', delims);
    Enclosed(s, ['/', '*'], text, ['*', '/'], delims);
  }

  lemma {:induction false} Opens(s: Scan, second: char, delims: set<char>) returns (s': Scan)
    requires Reading(s) && s.prev != Some('/') && (second == '*' || second == '/')
    requires forall d :: d in delims ==> Neutral(d)
    ensures s' == Run(s, ['/', second]) && s' == s.(block := second == '*', line := second == '/', prev := Some(second))
    ensures Solid(s, ['/', second], delims)
  {
    s' := Run(s, ['/', second]);
    RunTwo(s, '/', second);
    assert ['/', second][1..] == [second];
    RunOne(Step(s, '/'), second, delims);
  }

  lemma {:induction false} LinePasses(s: Scan, text: string, delims: set<char>)
    requires s.line && '\n' !in text
    ensures Passes(s, text, delims)
    decreases |text|
  {
    if text != "" {
      assert Like(Step(s, text[0]), s) by { assert text[0] in text; }
      LinePasses(Step(s, text[0]), text[1..], delims);
    }
  }

  lemma {:induction false} LineCommentPasses(s: Scan, text: string, delims: set<char>)
    requires Reading(s) && s.prev != Some('/') && '\n' !in text && forall d :: d in delims ==> Neutral(d)
    ensures Passes(s, Show(LineComment(text)), delims) && Run(s, Show(LineComment(text))).prev != Some('/')
  {
    var inside := Opens(s, '/', delims);
    LinePasses(inside, text, delims);
    RunOne(Run(inside, text), '\n', delims);
    Enclosed(s, ['/', '/'], text, ['\n'], delims);
  }

  function Depth(s: Scan, b: Bracket): nat {
    match b case Brace => s.brace case Square => s.bracket case Round => s.paren case Angle => s.angle
  }

  /** A state with one more bracket of a kind open. */
  function Deeper(s: Scan, b: Bracket): Scan {
    match b
    case Brace => s.(brace := s.brace + 1)
    case Square => s.(bracket := s.bracket + 1)
    case Round => s.(paren := s.paren + 1)
    case Angle => s.(angle := s.angle + 1)
  }

  lemma {:induction false} BracketOpens(s: Scan, b: Bracket)
    requires Reading(s)
    ensures Step(s, b.Open()) == Deeper(s, b).(prev := Some(b.Open()))
  {
  }

  lemma {:induction false} BracketCloses(s: Scan, s': Scan, b: Bracket)
    requires Reading(s) && Like(s', Deeper(s, b))
    ensures Like(Step(s', b.Close()), s)
  {
  }

  lemma {:induction false} GroupPasses(s: Scan, b: Bracket, inner: string, delims: set<char>)
    requires Reading(s) && forall d :: d in delims ==> Neutral(d)
    requires Passes(Step(s, b.Open()), inner, delims)
    ensures var text := [b.Open()] + inner + [b.Close()]; Passes(s, text, delims) && Run(s, text).prev != Some('/')
  {
    RunOne(s, b.Open(), delims);
    BracketOpens(s, b);
    var last := Run(Step(s, b.Open()), inner);
    BracketCloses(s, last, b);
    RunOne(last, b.Close(), delims);
    Enclosed(s, [b.Open()], inner, [b.Close()], delims);
  }

  /** Where tokens can be read: no other brackets are open, and a slash read before completes no comment. */
  predicate Ready(s: Scan, ts: seq<Token>, around: set<Bracket>) {
    && Reading(s) && (forall b: Bracket :: b !in around ==> Depth(s, b) == 0)
    && (s.prev == Some('/') && ts != [] ==> Show(ts[0])[0] != '/' && Show(ts[0])[0] != '*')
  }

  lemma {:induction false} CharPasses(s: Scan, c: char, around: set<Bracket>, delims: set<char>)
    requires Ready(s, [Char(c)], around) && IsPlainChar(c, around) && (Plain(s) ==> c !in delims)
    ensures Passes(s, [c], delims) && Run(s, [c]).prev == Some(c)
  {
    RunOne(s, c, delims);
    assert Show([Char(c)][0])[0] == c;
  }

  lemma {:induction false} TokenPasses(s: Scan, t: Token, around: set<Bracket>, delims: set<char>)
    requires Ready(s, [t], around) && Fine(t, around) && forall d :: d in delims ==> Neutral(d)
    requires Plain(s) && t.Char? ==> t.c !in delims
    ensures Passes(s, Show(t), delims)
    ensures Run(s, Show(t)).prev == Some('/') ==> t == Char('/')
    decreases t
  {
    match t
    case Char(c) => CharPasses(s, c, around, delims);
    case Quoted(q, letters) => QuotedPasses(s, q, letters, delims);
    case BlockComment(text) =>
      assert Show([t][0])[0] == '/';
      BlockCommentPasses(s, text, delims);
    case LineComment(text) =>
      assert Show([t][0])[0] == '/';
      LineCommentPasses(s, text, delims);
    case Group(b, inner) =>
      BracketOpens(s, b);
      TokensPass(Step(s, b.Open()), inner, around + {b}, delims);
      GroupPasses(s, b, Render(inner), delims);
  }

  lemma {:induction false} TokensPass(s: Scan, ts: seq<Token>, around: set<Bracket>, delims: set<char>)
    requires Ready(s, ts, around) && WellFormed(ts, around) && forall d :: d in delims ==> Neutral(d)
    requires Plain(s) ==> Undivided(ts, delims)
    ensures Passes(s, Render(ts), delims)
    decreases ts
  {
    if ts != [] {
      assert Undivided(ts, delims) ==> Undivided(ts[1..], delims);
      TokenPasses(s, ts[0], around, delims);
      var s' := Run(s, Show(ts[0]));
      TokensPass(s', ts[1..], around, delims);
      Chained(s, Show(ts[0]), Render(ts[1..]), delims);
    }
  }

  // ----- splitting it

  /** Arms with a delimiter character between each two. */
  function Laid(arms: seq<seq<Token>>, between: seq<char>): string
    requires |arms| == |between| + 1
  {
    if |arms| == 1 then Render(arms[0]) else Render(arms[0]) + ([between[0]] + Laid(arms[1..], between[1..]))
  }

  /** The arms that are not blank, without the whitespace around them. */
  function Trimmed(arms: seq<seq<Token>>): seq<string> {
    if arms == [] then []
    else (if AllWhitespace(Render(arms[0])) then [] else [Trim(Render(arms[0]))]) + Trimmed(arms[1..])
  }

  lemma {:induction false} ReadTypeArm(s: Scan, arm: seq<Token>, rest: string, delims: set<char>)
    requires Fresh(s) && IsTypeArm(arm, delims) && forall d :: d in delims ==> Neutral(d)
    ensures Plain(Run(s, Render(arm))) && Sane(Run(s, Render(arm)))
    ensures PiecesFrom(s, "", Render(arm) + rest, delims) == PiecesFrom(Run(s, Render(arm)), Render(arm), rest, delims)
  {
    TokensPass(s, arm, {}, delims);
    ReadSolid(s, "", Render(arm), rest, delims);
    assert "" + Render(arm) == Render(arm);
  }

  lemma {:induction false} LaidSplits(s: Scan, arms: seq<seq<Token>>, between: seq<char>, delims: set<char>)
    requires Fresh(s) && |arms| == |between| + 1 && forall d :: d in delims ==> Neutral(d)
    requires (forall a :: a in arms ==> IsTypeArm(a, delims)) && (forall c :: c in between ==> c in delims)
    ensures PiecesFrom(s, "", Laid(arms, between), delims) == Trimmed(arms)
    decreases |arms|
  {
    var text := Render(arms[0]);
    BlankExactly(text);
    assert arms == [arms[0]] + arms[1..];
    if |arms| == 1 {
      ReadTypeArm(s, arms[0], "", delims);
      assert text + "" == text;
    } else {
      var rest := Laid(arms[1..], between[1..]);
      ReadTypeArm(s, arms[0], [between[0]] + rest, delims);
      var s' := Run(s, text);
      ReadOne(s', text, between[0], rest, delims);
      DelimiterRestarts(s', between[0]);
      LaidSplits(Step(s', between[0]), arms[1..], between[1..], delims);
    }
  }

  /** Splitting structured text gives its arms: trimmed, the blank ones left out, nothing cut inside. */
  lemma {:induction false} TypeTextSplits(arms: seq<seq<Token>>, between: seq<char>, delims: set<char>)
    requires |arms| == |between| + 1 && forall d :: d in delims ==> Neutral(d)
    requires (forall a :: a in arms ==> IsTypeArm(a, delims)) && (forall c :: c in between ==> c in delims)
    ensures Pieces(Laid(arms, between), delims) == Trimmed(arms)
  {
    LaidSplits(START, arms, between, delims);
  }

  function Rendered(arms: seq<seq<Token>>): seq<string> {
    seq(|arms|, i requires 0 <= i < |arms| => Render(arms[i]))
  }

  predicate IsVisible(text: string) {
    text != "" && !IsWhitespace(text[0]) && !IsWhitespace(text[|text| - 1])
  }

  /** Arms without outer whitespace, joined by a separator, are what splitting gives back. */
  lemma {:induction false} JoinedTypesSplit(arms: seq<seq<Token>>, sep: Separator, delims: set<char>)
    requires sep.Fits(delims) && forall a :: a in arms ==> IsTypeArm(a, delims) && IsVisible(Render(a))
    ensures Pieces(Join(Rendered(arms), sep), delims) == Rendered(arms)
  {
    forall i | 0 <= i < |arms|
      ensures IsArm(Rendered(arms)[i], delims) && Closed(Rendered(arms)[i])
    {
      assert arms[i] in arms;
      TokensPass(START, arms[i], {}, delims);
      TrimKeepsVisible(Render(arms[i]));
    }
    ResplitExactly(Rendered(arms), sep, delims);
  }

  /** Filtering a body of structured text keeps the rendered arms that the filter keeps, in order. */
  lemma {:induction false} FilteredTypeText(
    arms: seq<seq<Token>>, between: seq<char>, keep: string -> bool, sep: Separator, delims: set<char>)
    returns (at: seq<nat>)
    requires |arms| == |between| + 1 && sep.Fits(delims)
    requires (forall a :: a in arms ==> IsTypeArm(a, delims)) && (forall c :: c in between ==> c in delims)
    ensures Selects(at, Trimmed(arms), keep)
    ensures FilterBody(Laid(arms, between), keep, sep, delims) == Join(PickedAt(Trimmed(arms), at), sep)
  {
    TypeTextSplits(arms, between, delims);
    at := FilterSelects(Trimmed(arms), keep);
  }

  // ----- where the lexer and TypeScript differ

  /** A delimiter outside groups, strings and comments cuts a piece off before the text ends. */
  lemma {:induction false} DividedIsCut(s: Scan, pending: string, ts: seq<Token>, tail: string, delims: set<char>)
    requires Plain(s) && Ready(s, ts, {}) && WellFormed(ts, {}) && !Undivided(ts, delims)
    requires Trim(pending) != "" && forall d :: d in delims ==> Neutral(d)
    ensures var pieces := PiecesFrom(s, pending, Render(ts) + tail, delims);
      pieces != [] && |pieces[0]| < |pending| + |Render(ts)|
    decreases |ts|
  {
    var first, rest := Show(ts[0]), Render(ts[1..]) + tail;
    Regroup(first, Render(ts[1..]), tail);
    if ts[0].Char? && ts[0].c in delims {
      ReadOne(s, pending, ts[0].c, rest, delims);
    } else {
      TokenPasses(s, ts[0], {}, delims);
      ReadSolid(s, pending, first, rest, delims);
      StaysVisible(pending, first);
      DividedIsCut(Run(s, first), pending + first, ts[1..], tail, delims);
    }
  }

  lemma {:induction false} StaysVisible(s: string, more: string)
    requires Trim(s) != ""
    ensures Trim(s + more) != ""
  {
    BlankExactly(s);
    BlankExactly(s + more);
    var k :| 0 <= k < |s| && !IsWhitespace(s[k]);
    assert (s + more)[k] == s[k];
  }

  /** The arrow's `>` ends the angle bracket it stands in. */
  lemma {:induction false} ArrowCloses(left: seq<Token>, head: string, delims: set<char>)
    requires WellFormed(left, {Angle}) && head == ['<'] + (Render(left) + ['=', '>'])
    requires forall d :: d in delims ==> Neutral(d)
    ensures Solid(START, head, delims) && Fresh(Run(START, head))
  {
    RunOne(START, '<', delims);
    var s1 := Step(START, '<');
    TokensPass(s1, left, {Angle}, delims);
    ArrowEndsAngle(Run(s1, Render(left)), delims);
    Enclosed(START, ['<'], Render(left), ['=', '>'], delims);
    Regroup(['<'], Render(left), ['=', '>']);
  }

  lemma {:induction false} ArrowEndsAngle(s: Scan, delims: set<char>)
    requires Like(s, START.(angle := 1)) && forall d :: d in delims ==> Neutral(d)
    ensures Solid(s, ['=', '>'], delims) && Fresh(Run(s, ['=', '>']))
  {
    RunTwo(s, '=', '>');
    assert ['=', '>'][1..] == ['>'];
    RunOne(Step(s, '='), '>', delims);
  }

  /** Undivided tokens and a closing `>` finish the piece that is pending. */
  lemma {:induction false} UndividedIsWhole(s: Scan, pending: string, ts: seq<Token>, delims: set<char>)
    requires Fresh(s) && WellFormed(ts, {}) && Undivided(ts, delims) && forall d :: d in delims ==> Neutral(d)
    ensures PiecesFrom(s, pending, Render(ts) + ['>'], delims) == Piece(pending + (Render(ts) + ['>']))
  {
    var text := Render(ts) + ['>'];
    TokensPass(s, ts, {}, delims);
    RunOne(Run(s, Render(ts)), '>', delims);
    SolidAppend(s, Render(ts), ['>'], delims);
    ReadSolid(s, pending, text, "", delims);
    assert text + "" == text;
  }

  /** Once `head` is read and nothing is open, what follows decides. */
  lemma {:induction false} TailDecides(head: string, ts: seq<Token>, text: string, delims: set<char>)
    requires Solid(START, head, delims) && Fresh(Run(START, head)) && head != "" && !IsWhitespace(head[0])
    requires WellFormed(ts, {}) && text == head + (Render(ts) + ['>']) && forall d :: d in delims ==> Neutral(d)
    ensures Pieces(text, delims) == [text] <==> Undivided(ts, delims)
  {
    ReadSolid(START, "", head, Render(ts) + ['>'], delims);
    assert "" + head == head;
    var s := Run(START, head);
    if Undivided(ts, delims) {
      UndividedIsWhole(s, head, ts, delims);
      assert text[0] == head[0] && text[|text| - 1] == '>';
      TrimKeepsVisible(text);
    } else {
      BlankExactly(head);
      DividedIsCut(s, head, ts, ['>'], delims);
      assert |[text][0]| > |head| + |Render(ts)|;
    }
  }

  /**
   A function type as a type argument, `<left=>right>`: it stays in one piece exactly when
   no delimiter stands to the right of its arrow.
   */
  lemma {:induction false} ArrowInAngleExactly(left: seq<Token>, right: seq<Token>, text: string, delims: set<char>)
    requires WellFormed(left, {Angle}) && WellFormed(right, {}) && forall d :: d in delims ==> Neutral(d)
    requires text == ['<'] + (Render(left) + ['=', '>']) + (Render(right) + ['>'])
    ensures Pieces(text, delims) == [text] <==> Undivided(right, delims)
  {
    var head := ['<'] + (Render(left) + ['=', '>']);
    ArrowCloses(left, head, delims);
    TailDecides(head, right, text, delims);
  }

  lemma {:induction false} SlashCommentEnds(a: string)
    requires a == ['/', '*', '/']
    ensures Plain(Run(START, a))
  {
    RunTwo(START, '/', '*');
    assert a == ['/', '*'] + ['/'];
    RunAppend(START, ['/', '*'], ['/']);
    RunOne(Run(START, ['/', '*']), '/', {});
  }

  /** Text without delimiters or outer whitespace is one piece, up to a delimiter or the end. */
  lemma {:induction false} ReadUncut(s: Scan, a: string, rest: string, delims: set<char>)
    requires IsVisible(a) && forall c :: c in a ==> c !in delims
    ensures PiecesFrom(s, "", a + rest, delims) == PiecesFrom(Run(s, a), a, rest, delims) && Piece(a) == [a]
  {
    SolidWithout(s, a, delims);
    ReadSolid(s, "", a, rest, delims);
    assert "" + a == a;
    TrimKeepsVisible(a);
  }

  /** A comment that starts with a slash is taken to end there, so what follows is split. */
  lemma {:induction false} SlashCommentExample(a: string, b: string)
    requires a == ['/', '*', '/'] && b == ['*', '/']
    ensures a + (['|'] + b) == Show(BlockComment(['/', '|']))
    ensures Pieces(a + (['|'] + b), {'|'}) == [a, b]
  {
    SlashCommentEnds(a);
    ReadUncut(START, a, ['|'] + b, {'|'});
    ReadOne(Run(START, a), a, '|', b, {'|'});
    ReadUncut(Step(Run(START, a), '|'), b, "", {'|'});
    assert b + "" == b;
  }
}
