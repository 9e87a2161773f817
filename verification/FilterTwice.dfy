/**
 Filtering a TypeScript body twice: for every text, exactly when filtering leaves it as
 it is (`codex-rs/app-server-protocol/src/export.rs`).
 */
module FilterTwice {
  import opened Text
  import opened Scanner

  // ----- pieces lie in the text, one after the other

  predicate StandsAt(text: string, u: nat, a: string) {
    u + |a| <= |text| && text[u..u + |a|] == a
  }

  /** The strings occur in `text` in order, at least one character apart. */
  ghost predicate Embeds(q: seq<string>, text: string)
    decreases |q|
  {
    q == [] || exists u: nat :: StandsAt(text, u, q[0]) && GoesOn(q, text, u)
  }

  ghost predicate GoesOn(q: seq<string>, text: string, u: nat)
    requires q != [] && u + |q[0]| <= |text|
    decreases |q|, 0
  {
    |q| == 1 || (u + |q[0]| < |text| && Embeds(q[1..], text[u + |q[0]| + 1..]))
  }

  lemma {:induction false} EmbedsLater(q: seq<string>, text: string, k: nat)
    requires k <= |text| && Embeds(q, text[k..])
    ensures Embeds(q, text)
  {
    if q != [] {
      var rest := text[k..];
      var u: nat :| StandsAt(rest, u, q[0]) && GoesOn(q, rest, u);
      var n := |q[0]|;
      assert text[k + u..k + u + n] == rest[u..u + n];
      assert u + n < |rest| ==> text[k + u + n + 1..] == rest[u + n + 1..];
      assert StandsAt(text, k + u, q[0]) && GoesOn(q, text, k + u);
    }
  }

  lemma {:induction false} EmbedsCons(a: string, q: seq<string>, text: string, u: nat, k: nat)
    requires StandsAt(text, u, a)
    requires q != [] ==> u + |a| < k <= |text| && Embeds(q, text[k..])
    ensures Embeds([a] + q, text)
  {
    var all := [a] + q;
    assert all[1..] == q;
    if q != [] {
      var m := u + |a| + 1;
      assert text[m..][k - m..] == text[k..];
      EmbedsLater(q, text[m..], k - m);
    }
    assert GoesOn(all, text, u);
  }

  lemma {:induction false} FilterConcat(a: seq<string>, b: seq<string>, keep: string -> bool)
    ensures Filter(a + b, keep) == Filter(a, keep) + Filter(b, keep)
  {
    if a == [] {
      assert a + b == b;
    } else {
      assert (a + b)[1..] == a[1..] + b;
      FilterConcat(a[1..], b, keep);
    }
  }

  lemma {:induction false} FilterOne(a: string, keep: string -> bool)
    ensures Filter([a], keep) == if keep(a) then [a] else []
  {
    assert [a][1..] == [];
  }

  /** The first piece, if there is one and it is kept, then what is kept of the others. */
  lemma {:induction false} TrimmedStands(pending: string, text: string) returns (u: nat)
    requires pending <= text
    ensures u + |Trim(pending)| <= |pending| && StandsAt(text, u, Trim(pending))
  {
    var w, x := TrimParts(pending);
    u := |w|;
    MiddleStands(w, Trim(pending), x, pending, text);
  }

  lemma {:induction false} MiddleStands(w: string, a: string, x: string, pending: string, text: string)
    requires pending == w + a + x && pending <= text
    ensures |w| + |a| <= |pending| && StandsAt(text, |w|, a)
  {
    assert text[|w|..|w| + |a|] == pending[|w|..|w| + |a|] == a;
  }

  lemma {:induction false} KeptEmbeds(a: string, q: seq<string>, pending: string, text: string)
    requires pending <= text && a == Trim(pending)
    requires q != [] ==> |pending| < |text| && Embeds(q, text[|pending| + 1..])
    ensures Embeds([a] + q, text)
  {
    var u := TrimmedStands(pending, text);
    EmbedsCons(a, q, text, u, if q == [] then 0 else |pending| + 1);
  }

  lemma {:induction false} PieceEmbeds(pending: string, q: seq<string>, text: string, keep: string -> bool)
    requires pending <= text && (q != [] ==> |pending| < |text| && Embeds(q, text[|pending| + 1..]))
    ensures Embeds(Filter(Piece(pending), keep) + q, text)
  {
    var a := Trim(pending);
    FilterOne(a, keep);
    if a != "" && keep(a) {
      KeptEmbeds(a, q, pending, text);
    } else {
      assert [] + q == q;
      if q != [] {
        EmbedsLater(q, text, |pending| + 1);
      }
    }
  }

  lemma {:induction false} PiecesEmbed(s: Scan, pending: string, rest: string, delims: set<char>, keep: string -> bool)
    ensures Embeds(Filter(PiecesFrom(s, pending, rest, delims), keep), pending + rest)
    decreases |rest|
  {
    var text := pending + rest;
    if rest == "" {
      PieceEmbeds(pending, [], text, keep);
      assert Filter(Piece(pending), keep) + [] == Filter(Piece(pending), keep);
    } else if Plain(s) && rest[0] in delims {
      PiecesEmbed(Step(s, rest[0]), "", rest[1..], delims, keep);
      CutEmbeds(pending, rest, PiecesFrom(Step(s, rest[0]), "", rest[1..], delims), keep);
    } else {
      PiecesEmbed(Step(s, rest[0]), pending + [rest[0]], rest[1..], delims, keep);
      assert pending + [rest[0]] + rest[1..] == text;
    }
  }

  lemma {:induction false} CutEmbeds(pending: string, rest: string, others: seq<string>, keep: string -> bool)
    requires rest != "" && Embeds(Filter(others, keep), "" + rest[1..])
    ensures Embeds(Filter(Piece(pending) + others, keep), pending + rest)
  {
    AfterCut(pending, rest, 0);
    PieceEmbeds(pending, Filter(others, keep), pending + rest, keep);
    FilterConcat(Piece(pending), others, keep);
  }

  lemma {:induction false} CutPieces(s: Scan, pending: string, rest: string, delims: set<char>)
    requires rest != "" && Plain(s) && rest[0] in delims
    ensures var others := PiecesFrom(Step(s, rest[0]), "", rest[1..], delims);
      PiecesFrom(s, pending, rest, delims) == if Trim(pending) == "" then others else [Trim(pending)] + others
  {
  }

  /** What is kept after the first piece lies strictly further right. */
  lemma {:induction false} TailEmbeds(
    s: Scan, w: string, p: string, rest: string, delims: set<char>, keep: string -> bool, pieces: seq<string>)
    returns (k: nat)
    requires pieces == PiecesFrom(s, w + p, rest, delims)
    requires |pieces| > 1 && Filter(pieces[1..], keep) != []
    ensures 1 <= k <= |p + rest| && Embeds(Filter(pieces[1..], keep), (p + rest)[k..])
    decreases |rest|
  {
    NotAtTheEnd(s, w + p, rest, delims, pieces);
    if Plain(s) && rest[0] in delims {
      CutPieces(s, w + p, rest, delims);
      if Trim(w + p) == "" {
        var j := TailEmbeds(Step(s, rest[0]), "", "", rest[1..], delims, keep, pieces);
        AfterCut(p, rest, j);
        k := |p| + 1 + j;
      } else {
        OthersEmbed(Step(s, rest[0]), Trim(w + p), p, rest, delims, keep, pieces);
        k := |p| + 1;
      }
    } else {
      OneFurther(w, p, rest);
      k := TailEmbeds(Step(s, rest[0]), w, p + [rest[0]], rest[1..], delims, keep, pieces);
    }
  }

  lemma {:induction false} OthersEmbed(
    s: Scan, a: string, p: string, rest: string, delims: set<char>, keep: string -> bool, pieces: seq<string>)
    requires rest != "" && pieces == [a] + PiecesFrom(s, "", rest[1..], delims)
    ensures Embeds(Filter(pieces[1..], keep), (p + rest)[|p| + 1..])
  {
    assert pieces[1..] == PiecesFrom(s, "", rest[1..], delims);
    PiecesEmbed(s, "", rest[1..], delims, keep);
    AfterCut(p, rest, 0);
    assert rest[1..][0..] == rest[1..];
  }

  lemma {:induction false} NotAtTheEnd(s: Scan, pending: string, rest: string, delims: set<char>, pieces: seq<string>)
    requires pieces == PiecesFrom(s, pending, rest, delims) && |pieces| > 1
    ensures rest != ""
  {
  }

  lemma {:induction false} AfterCut(p: string, rest: string, j: nat)
    requires rest != "" && j <= |rest[1..]|
    ensures |p| + 1 + j <= |p + rest| && (p + rest)[|p| + 1 + j..] == ("" + rest[1..])[j..] == rest[1..][j..]
    ensures j == 0 ==> (p + rest)[|p| + 1..] == "" + rest[1..]
  {
  }

  lemma {:induction false} OneFurther(w: string, p: string, rest: string)
    requires rest != ""
    ensures w + (p + [rest[0]]) == w + p + [rest[0]] && p + [rest[0]] + rest[1..] == p + rest
  {
  }

  // ----- a list of arms does not occur further right in its own join

  /** If `a` recurs `t` further right in `a + before + [d] + ...`, all of it is spaces and delimiters. */
  lemma {:induction false} Periodic(a: string, sep: Separator, t: nat, i: nat)
    requires t == |sep.before| + 1 && AllWhitespace(sep.before) && i < |a|
    requires StandsAt(a + sep.Text(), t, a)
    ensures IsWhitespace(a[i]) || a[i] == sep.delim
    decreases |a| - i
  {
    var x := a + sep.Text();
    assert a[i] == x[t..t + |a|][i] == x[t + i];
    if t + i < |a| {
      Periodic(a, sep, t, t + i);
    } else {
      assert x[t + i] == sep.Text()[t + i - |a|];
    }
  }

  lemma {:induction false} SeparatorChar(sep: Separator, i: nat)
    requires i < |sep.Text()| && AllWhitespace(sep.before) && AllWhitespace(sep.after)
    ensures IsWhitespace(sep.Text()[i]) || i == |sep.before|
  {
  }

  lemma {:induction false} LastChar(a: string, b: string, t: nat)
    requires a != "" && 1 <= t <= |b| && StandsAt(a + b, t, a)
    ensures a[|a| - 1] == b[t - 1]
  {
    var n := |a| - 1;
    assert a[n] == (a + b)[t..t + |a|][n] == (a + b)[t + n];
  }

  lemma {:induction false} NoShift(a: string, sep: Separator, delims: set<char>, t: nat)
    requires sep.Fits(delims) && IsArm(a, delims) && 1 <= t < |sep.Text()|
    ensures !StandsAt(a + sep.Text(), t, a)
  {
    if StandsAt(a + sep.Text(), t, a) {
      LastChar(a, sep.Text(), t);
      VisibleEnds(a);
      SeparatorChar(sep, t - 1);
      Periodic(a, sep, t, 0);
    }
  }

  lemma {:induction false} VisibleEnds(a: string)
    requires a != "" && Trim(a) == a
    ensures !IsWhitespace(a[0]) && !IsWhitespace(a[|a| - 1])
  {
  }

  lemma {:induction false} JoinMany(arms: seq<string>, sep: Separator)
    requires |arms| > 1
    ensures Join(arms, sep) == arms[0] + sep.Text() + Join(arms[1..], sep)
  {
  }

  /** Past the separator, the rest of the text is a suffix of the join of the other arms. */
  lemma {:induction false} PastSeparator(a: string, b: string, c: string, m: nat)
    requires |a| + |b| < m <= |a + b + c|
    ensures 1 <= m - |a| - |b| <= |c| && (a + b + c)[m..] == c[m - |a| - |b|..]
  {
  }

  lemma {:induction false} WithinFirst(a: string, b: string, c: string, t: nat)
    requires StandsAt(a + b + c, t, a) && t <= |b|
    ensures StandsAt(a + b, t, a)
  {
    assert (a + b)[t..t + |a|] == (a + b + c)[t..t + |a|];
  }

  /** The first arm can recur only beyond the separator. */
  lemma {:induction false} ShiftsFar(a: string, sep: Separator, rest: string, delims: set<char>, t: nat)
    requires sep.Fits(delims) && IsArm(a, delims) && t >= 1 && StandsAt(a + sep.Text() + rest, t, a)
    ensures t >= |sep.Text()|
  {
    if t < |sep.Text()| {
      WithinFirst(a, sep.Text(), rest, t);
      NoShift(a, sep, delims, t);
    }
  }

  lemma {:induction false} FirstStands(q: seq<string>, text: string, k: nat) returns (t: nat)
    requires q != [] && k <= |text| && Embeds(q, text[k..])
    ensures t >= k && StandsAt(text, t, q[0])
    ensures |q| > 1 ==> t + |q[0]| < |text| && Embeds(q[1..], text[t + |q[0]| + 1..])
  {
    var rest, n := text[k..], |q[0]|;
    var u: nat :| StandsAt(rest, u, q[0]) && GoesOn(q, rest, u);
    t := k + u;
    assert text[t..t + n] == rest[u..u + n];
    assert u + n < |rest| ==> text[t + n + 1..] == rest[u + n + 1..];
  }

  /** A copy of the list further right holds a copy of its rest further right in the join of the rest. */
  lemma {:induction false} CopyInRest(arms: seq<string>, sep: Separator, delims: set<char>, k: nat) returns (j: nat)
    requires |arms| > 1 && sep.Fits(delims) && IsArm(arms[0], delims)
    requires 1 <= k <= |Join(arms, sep)| && Embeds(arms, Join(arms, sep)[k..])
    ensures 1 <= j <= |Join(arms[1..], sep)| && Embeds(arms[1..], Join(arms[1..], sep)[j..])
  {
    var a, rest := arms[0], Join(arms[1..], sep);
    JoinMany(arms, sep);
    var t := FirstStands(arms, a + sep.Text() + rest, k);
    ShiftsFar(a, sep, rest, delims, t);
    PastSeparator(a, sep.Text(), rest, t + |a| + 1);
    j := t + 1 - |sep.Text()|;
  }

  lemma {:induction false} NoShiftedCopy(arms: seq<string>, sep: Separator, delims: set<char>, k: nat)
    requires arms != [] && sep.Fits(delims) && forall a :: a in arms ==> IsArm(a, delims)
    requires 1 <= k <= |Join(arms, sep)|
    ensures !Embeds(arms, Join(arms, sep)[k..])
    decreases |arms|
  {
    if Embeds(arms, Join(arms, sep)[k..]) {
      if |arms| == 1 {
        var t := FirstStands(arms, Join(arms, sep), k);
      } else {
        var j := CopyInRest(arms, sep, delims, k);
        NoShiftedCopy(arms[1..], sep, delims, j);
      }
    }
  }

  // ----- what filtering leaves alone

  /** If what is kept of the pieces joins to the text itself, nothing was dropped. */
  lemma {:induction false} FirstIsKept(
    s: Scan, w: string, arms: seq<string>, keep: string -> bool, sep: Separator, delims: set<char>, pieces: seq<string>)
    requires AllWhitespace(w) && sep.Fits(delims) && arms != []
    requires forall a :: a in arms ==> IsArm(a, delims)
    requires pieces == PiecesFrom(s, w, Join(arms, sep), delims) && arms == Filter(pieces, keep)
    ensures pieces != [] && pieces[0] == arms[0] && arms[1..] == Filter(pieces[1..], keep)
  {
    var text := Join(arms, sep);
    if !keep(pieces[0]) {
      assert arms == Filter(pieces[1..], keep) && |pieces| > 1;
      assert w + "" == w && "" + text == text;
      var k := TailEmbeds(s, w, "", text, delims, keep, pieces);
      NoShiftedCopy(arms, sep, delims, k);
      assert false;
    }
    assert arms == [pieces[0]] + Filter(pieces[1..], keep);
  }

  lemma {:induction false} AllAreKept(
    s: Scan, w: string, arms: seq<string>, keep: string -> bool, sep: Separator, delims: set<char>)
    requires Fresh(s) && AllWhitespace(w) && sep.Fits(delims)
    requires forall a :: a in arms ==> IsArm(a, delims)
    requires arms == Filter(PiecesFrom(s, w, Join(arms, sep), delims), keep)
    ensures PiecesFrom(s, w, Join(arms, sep), delims) == arms
    decreases |arms|
  {
    if arms == [] {
      TrimNothing(w);
    } else {
      var a := arms[0];
      FirstIsKept(s, w, arms, keep, sep, delims, PiecesFrom(s, w, Join(arms, sep), delims));
      if |arms| == 1 {
        ResplitOne(s, w, a, delims);
        assert arms == [a];
      } else {
        var rest := Join(arms[1..], sep);
        JoinMany(arms, sep);
        Regroup(a, sep.Text(), rest);
        FirstIsClosed(s, w, a, sep, rest, delims);
        var s' := ArmThenSeparator(s, w, a, sep, rest, delims);
        assert ([a] + PiecesFrom(s', sep.after, rest, delims))[1..] == PiecesFrom(s', sep.after, rest, delims);
        AllAreKept(s', sep.after, arms[1..], keep, sep, delims);
        assert arms == [a] + arms[1..];
      }
    }
  }

  lemma {:induction false} FirstIsClosed(s: Scan, w: string, a: string, sep: Separator, rest: string, delims: set<char>)
    requires Fresh(s) && AllWhitespace(w) && sep.Fits(delims) && IsArm(a, delims)
    requires var pieces := PiecesFrom(s, w, a + (sep.Text() + rest), delims); pieces != [] && pieces[0] == a
    ensures Closed(a)
  {
    if !Closed(a) {
      ReadArm(s, w, a, sep.Text() + rest, delims);
      SeparatorSwallowed(Run(START, a), w, a, sep, rest, delims);
    }
  }

  /** Filtering leaves a text alone exactly when every piece is kept and the pieces are joined by the separator. */
  lemma {:induction false} FilterFixesExactly(text: string, keep: string -> bool, sep: Separator, delims: set<char>)
    requires sep.Fits(delims)
    ensures FilterBody(text, keep, sep, delims) == text <==>
      && (forall p :: p in Pieces(text, delims) ==> keep(p))
      && Join(Pieces(text, delims), sep) == text
  {
    var pieces := Pieces(text, delims);
    var kept := Filter(pieces, keep);
    if FilterBody(text, keep, sep, delims) == text {
      assert "" + text == text;
      PiecesFromAreArms(START, "", text, delims);
      AllAreKept(START, "", kept, keep, sep, delims);
      assert pieces == kept;
    } else if forall p :: p in pieces ==> keep(p) {
      FilterAgain(pieces, keep);
    }
  }

  /**
   For every body: filtering it twice is filtering it once, exactly when each piece of
   the filtered body is kept and those pieces are joined by the separator.
   */
  lemma {:induction false} FilterTwiceExactly(body: string, keep: string -> bool, sep: Separator, delims: set<char>)
    requires sep.Fits(delims)
    ensures var once := FilterBody(body, keep, sep, delims);
      FilterBody(once, keep, sep, delims) == once <==>
        && (forall p :: p in Pieces(once, delims) ==> keep(p))
        && Join(Pieces(once, delims), sep) == once
  {
    FilterFixesExactly(FilterBody(body, keep, sep, delims), keep, sep, delims);
  }

  // ----- a body that loses everything the second time

  lemma {:induction false} CommentSwallows(s: Scan, text: string, delims: set<char>)
    requires s.line && '\n' !in text
    ensures Solid(s, text, delims)
    decreases |text|
  {
    if text != "" {
      CommentSwallows(Step(s, text[0]), text[1..], delims);
    }
  }

  /** What follows an arm that ends in a line comment, on the same line, belongs to the arm. */
  lemma {:induction false} MergedPieces(a: string, rest: string, delims: set<char>)
    requires IsArm(a, delims) && Run(START, a).line
    requires rest != "" && '\n' !in rest && !IsWhitespace(rest[|rest| - 1])
    ensures Pieces(a + rest, delims) == [a + rest]
  {
    CommentSwallows(Run(START, a), rest, delims);
    SolidAppend(START, a, rest, delims);
    MergedIsTrimmed(a, rest);
    ResplitOne(START, "", a + rest, delims);
  }

  lemma {:induction false} MergedIsTrimmed(a: string, rest: string)
    requires a != "" && Trim(a) == a && rest != "" && !IsWhitespace(rest[|rest| - 1])
    ensures Trim(a + rest) == a + rest
  {
    VisibleEnds(a);
    TrimKeepsVisible(a + rest);
  }

  lemma {:induction false} EndsInComment(a: string)
    requires a == ['A', '/', '/', 'x']
    ensures IsArm(a, {'|'}) && Run(START, a).line
  {
    CommentedArm(a);
    RunFour(START, 'A', '/', '/', 'x');
  }

  /**
   Two arms, the first with a line comment. Once filtered, they read as one piece; a
   filter that keeps both arms but not that piece leaves nothing the second time.
   */
  lemma {:induction false} TwiceExample(a: string, b: string, keep: string -> bool)
    requires a == ['A', '/', '/', 'x'] && b == "B" && keep(a) && keep(b) && !keep(a + " | B")
    ensures var once := FilterBody(a + "\n" + (['|'] + b), keep, UNION, {'|'});
      once == a + " | B" && FilterBody(once, keep, UNION, {'|'}) == ""
  {
    LineCommentExample(a, b, keep);
    JoinTwo(a, b, " | B");
    EndsInComment(a);
    var rest := " | B";
    assert rest[3] == 'B';
    MergedPieces(a, rest, {'|'});
    FilterOne(a + rest, keep);
  }

  lemma {:induction false} JoinTwo(a: string, b: string, rest: string)
    requires b == "B" && rest == " | B"
    ensures Join([a, b], UNION) == a + rest
  {
    JoinMany([a, b], UNION);
    assert [a, b][1..] == [b];
    Regroup(a, UNION.Text(), b);
    assert UNION.Text() + b == rest;
  }
}
