/**
 Counting accepted lines in a unified diff and fingerprinting the added ones
 (`codex-rs/analytics/src/accepted_lines.rs`), proved against diffs as structures.
 */
module DiffParser {
  import opened Text
  import opened Chunking

  /** The library calls the parser relies on: the digest, and `char::is_alphanumeric`. */
  datatype Env = Env(hash: (string, string) -> string, alphanumeric: char -> bool)

  // ----- lines

  function StripCr(s: string): (r: string)
    ensures r == s || s == r + "\r"
  {
    if s != "" && s[|s| - 1] == '\r' then s[..|s| - 1] else s
  }

  /** `str::lines`: every newline ends a line; a carriage return before it is dropped. */
  function LinesFrom(pending: string, rest: string): seq<string>
    decreases |rest|
  {
    if rest == "" then (if pending == "" then [] else [pending])
    else if rest[0] == '\n' then [StripCr(pending)] + LinesFrom("", rest[1..])
    else LinesFrom(pending + [rest[0]], rest[1..])
  }

  function Lines(text: string): seq<string> {
    LinesFrom("", text)
  }

  // ----- normalising

  function NormalizeDiffPath(path: string): Option<string> {
    TargetPath(Trim(path))
  }

  function TargetPath(p: string): Option<string> {
    if p == "/dev/null" then None
    else if "b/" <= p then Some(p[2..])
    else if "a/" <= p then Some(p[2..])
    else Some(p)
  }

  /** `split_whitespace`, with the word being read so far. */
  function WordsFrom(word: string, rest: string): seq<string>
    decreases |rest|
  {
    if rest == "" then (if word == "" then [] else [word])
    else if IsWhitespace(rest[0]) then (if word == "" then [] else [word]) + WordsFrom("", rest[1..])
    else WordsFrom(word + [rest[0]], rest[1..])
  }

  function JoinWords(words: seq<string>): string {
    if words == [] then "" else if |words| == 1 then words[0] else words[0] + " " + JoinWords(words[1..])
  }

  function Utf8Len(s: string): nat {
    if s == "" then 0
    else (if s[0] < 0x80 as char then 1
          else if s[0] < 0x800 as char then 2
          else if s[0] < 0x10000 as char then 3
          else 4)
         + Utf8Len(s[1..])
  }

  /** Whitespace-normalised text, when long enough and not mere punctuation. */
  function NormalizeEffectiveLine(env: Env, line: string): Option<string> {
    var normalized := JoinWords(WordsFrom("", line));
    if Utf8Len(normalized) <= 3 then None
    else if !exists k :: 0 <= k < |normalized| && (env.alphanumeric(normalized[k]) || normalized[k] == '_') then None
    else Some(normalized)
  }

  // ----- the parser

  datatype Parse = Parse(path: Option<string>, inHunk: bool, added: nat, deleted: nat, prints: Chunk)

  const EMPTY := Parse(None, false, 0, 0, [])

  function PrintOf(env: Env, path: Option<string>, line: string): (r: Chunk) {
    match (path, NormalizeEffectiveLine(env, line))
    case (Some(p), Some(n)) => [Fingerprint(env.hash("path", p), env.hash("line", n))]
    case _ => []
  }

  /** What a line is; inside a hunk the file headers are body lines. */
  datatype LineKind =
    | FileHeader
    | HunkHead
    | NewFile(target: string)
    | OldFile
    | PlusLine(text: string)
    | MinusLine
    | Neither

  function KindOf(inHunk: bool, line: string): LineKind {
    if "diff --git " <= line then FileHeader
    else if "@@ " <= line then HunkHead
    else if !inHunk && "+++ " <= line then NewFile(line[4..])
    else if !inHunk && "--- " <= line then OldFile
    else if "+" <= line then PlusLine(line[1..])
    else if "-" <= line then MinusLine
    else Neither
  }

  function ParseLine(env: Env, st: Parse, line: string): Parse {
    match KindOf(st.inHunk, line)
    case FileHeader => st.(path := None, inHunk := false)
    case HunkHead => st.(inHunk := true)
    case NewFile(target) => st.(path := NormalizeDiffPath(target))
    case PlusLine(text) => st.(added := st.added + 1, prints := st.prints + PrintOf(env, st.path, text))
    case MinusLine => st.(deleted := st.deleted + 1)
    case _ => st
  }

  function ParseLines(env: Env, st: Parse, lines: seq<string>): Parse
    decreases |lines|
  {
    if lines == [] then st else ParseLines(env, ParseLine(env, st, lines[0]), lines[1..])
  }

  method FingerprintsFromUnifiedDiff(env: Env, diff: string) returns (added: nat, deleted: nat, prints: Chunk)
    ensures var st := ParseLines(env, EMPTY, Lines(diff));
      added == st.added && deleted == st.deleted && prints == st.prints
  {
    var currentPath: Option<string> := None;
    var inHunk := false;
    added, deleted, prints := 0, 0, [];
    var lines := Lines(diff);
    for i := 0 to |lines|
      invariant ParseLines(env, EMPTY, lines) ==
                ParseLines(env, Parse(currentPath, inHunk, added, deleted, prints), lines[i..])
    {
      var line := lines[i];
      assert lines[i..][1..] == lines[i + 1..];
      if "diff --git " <= line {
        currentPath := None;
        inHunk := false;
        continue;
      }
      if "@@ " <= line {
        inHunk := true;
        continue;
      }
      if !inHunk && "+++ " <= line {
        currentPath := NormalizeDiffPath(line[4..]);
        continue;
      }
      if !inHunk && "--- " <= line {
        continue;
      }
      if "+" <= line {
        added := added + 1;
        prints := prints + PrintOf(env, currentPath, line[1..]);
        continue;
      }
      if "-" <= line {
        deleted := deleted + 1;
      }
    }
  }

  lemma {:induction false} ParseAppend(env: Env, st: Parse, a: seq<string>, b: seq<string>)
    ensures ParseLines(env, st, a + b) == ParseLines(env, ParseLines(env, st, a), b)
    decreases |a|
  {
    if a == [] {
      assert a + b == b;
    } else {
      assert (a + b)[1..] == a[1..] + b;
      ParseAppend(env, ParseLine(env, st, a[0]), a[1..], b);
    }
  }

  // ----- diffs as structures

  datatype BodyLine = Context(text: string) | Added(text: string) | Deleted(text: string) | Remark(text: string)

  datatype Hunk = Hunk(ranges: string, body: seq<BodyLine>)

  datatype Change = Change(oldTarget: string, newTarget: string, hunks: seq<Hunk>)

  /** A file's part of the diff; renames and mode changes have no content change. */
  datatype FileDiff = FileDiff(names: string, metadata: seq<string>, change: Option<Change>)

  function RenderBody(l: BodyLine): string {
    match l
    case Context(t) => " " + t
    case Added(t) => "+" + t
    case Deleted(t) => "-" + t
    case Remark(t) => "\\" + t
  }

  function BodyLines(body: seq<BodyLine>): seq<string> {
    if body == [] then [] else [RenderBody(body[0])] + BodyLines(body[1..])
  }

  function HunkLines(hunks: seq<Hunk>): seq<string> {
    if hunks == [] then [] else ["@@ " + hunks[0].ranges] + BodyLines(hunks[0].body) + HunkLines(hunks[1..])
  }

  function ChangeLines(c: Option<Change>): seq<string> {
    match c
    case Some(change) => ["--- " + change.oldTarget, "+++ " + change.newTarget] + HunkLines(change.hunks)
    case None => []
  }

  function FileLines(f: FileDiff): seq<string> {
    ["diff --git " + f.names] + f.metadata + ChangeLines(f.change)
  }

  function DiffLines(files: seq<FileDiff>): seq<string> {
    if files == [] then [] else FileLines(files[0]) + DiffLines(files[1..])
  }

  function Unlines(lines: seq<string>): string {
    if lines == [] then "" else lines[0] + "\n" + Unlines(lines[1..])
  }

  function Render(files: seq<FileDiff>): string {
    Unlines(DiffLines(files))
  }

  /** Git's extended header lines: not a file header, not a hunk header, not a change. */
  predicate IsMetadata(line: string) {
    !("diff --git " <= line) && !("@@ " <= line) && !("+" <= line) && !("-" <= line)
  }

  predicate HasMetadata(f: FileDiff) {
    forall m :: m in f.metadata ==> IsMetadata(m)
  }

  ghost predicate WellFormed(files: seq<FileDiff>) {
    && (forall f :: f in files ==> HasMetadata(f))
    && (forall l :: l in DiffLines(files) ==> '\n' !in l)
  }

  // ----- what the parser should find

  datatype Summary = Summary(added: nat, deleted: nat, prints: Chunk)

  function Plus(a: Summary, b: Summary): Summary {
    Summary(a.added + b.added, a.deleted + b.deleted, a.prints + b.prints)
  }

  function LineSummary(env: Env, path: Option<string>, l: BodyLine): Summary {
    match l
    case Added(t) => Summary(1, 0, PrintOf(env, path, t))
    case Deleted(_) => Summary(0, 1, [])
    case _ => Summary(0, 0, [])
  }

  function BodySummary(env: Env, path: Option<string>, body: seq<BodyLine>): Summary {
    if body == [] then Summary(0, 0, []) else Plus(LineSummary(env, path, body[0]), BodySummary(env, path, body[1..]))
  }

  function HunkSummary(env: Env, path: Option<string>, hunks: seq<Hunk>): Summary {
    if hunks == [] then Summary(0, 0, [])
    else Plus(BodySummary(env, path, hunks[0].body), HunkSummary(env, path, hunks[1..]))
  }

  function ChangeSummary(env: Env, change: Option<Change>): Summary {
    match change
    case Some(c) => HunkSummary(env, NormalizeDiffPath(c.newTarget), c.hunks)
    case None => Summary(0, 0, [])
  }

  function DiffSummary(env: Env, files: seq<FileDiff>): Summary {
    if files == [] then Summary(0, 0, []) else Plus(ChangeSummary(env, files[0].change), DiffSummary(env, files[1..]))
  }

  // ----- carriage returns make no difference

  lemma {:induction false} TrimCr(s: string)
    ensures Trim(s + "\r") == Trim(s)
  {
    BlankExactly(s);
    if Trim(s) == "" {
      BlankExactly(s + "\r");
    } else {
      var w, x := TrimParts(s);
      TrimTwice(s);
      assert s + "\r" == w + Trim(s) + (x + "\r");
      TrimPadded(w, Trim(s), x + "\r");
    }
  }

  lemma {:induction false} WordsCr(word: string, s: string)
    ensures WordsFrom(word, s + "\r") == WordsFrom(word, s)
    decreases |s|
  {
    if s == "" {
      assert s + "\r" == "\r";
      assert WordsFrom("", "\r"[1..]) == [];
    } else {
      assert (s + "\r")[1..] == s[1..] + "\r";
      WordsCr("", s[1..]);
      WordsCr(word + [s[0]], s[1..]);
    }
  }

  lemma {:induction false} LineCr(env: Env, s: string)
    ensures NormalizeEffectiveLine(env, StripCr(s)) == NormalizeEffectiveLine(env, s)
  {
    if StripCr(s) != s {
      WordsCr("", StripCr(s));
    }
  }

  lemma {:induction false} PathCr(s: string)
    ensures NormalizeDiffPath(StripCr(s)) == NormalizeDiffPath(s)
  {
    if StripCr(s) != s {
      TrimCr(StripCr(s));
    }
  }

  lemma {:induction false} StripKeepsPrefix(s: string, prefix: string)
    requires prefix != "" && prefix[|prefix| - 1] != '\r'
    ensures prefix <= StripCr(s) <==> prefix <= s
  {
    if prefix <= s {
      assert s[|prefix| - 1] == prefix[|prefix| - 1];
    }
  }

  lemma {:induction false} StripAfter(s: string, prefix: string)
    requires prefix != "" && prefix[|prefix| - 1] != '\r'
    ensures prefix <= StripCr(s) <==> prefix <= s
    ensures prefix <= s ==> StripCr(s)[|prefix|..] == StripCr(s[|prefix|..])
  {
    StripKeepsPrefix(s, prefix);
    var n := |prefix|;
    if prefix <= s {
      assert s[n - 1] == prefix[n - 1];
      if s[|s| - 1] == '\r' {
        assert s[n..][|s| - n - 1] == s[|s| - 1];
        assert s[..|s| - 1][n..] == s[n..][..|s| - n - 1];
      }
    }
  }

  /** A carriage return at the end of a line never changes what the line is. */
  lemma {:induction false} KindCr(inHunk: bool, line: string)
    ensures KindOf(inHunk, StripCr(line)) ==
      match KindOf(inHunk, line) {
        case NewFile(t) => NewFile(StripCr(t))
        case PlusLine(t) => PlusLine(StripCr(t))
        case k => k
      }
  {
    StripKeepsPrefix(line, "diff --git ");
    StripKeepsPrefix(line, "@@ ");
    StripAfter(line, "+++ ");
    StripKeepsPrefix(line, "--- ");
    StripAfter(line, "+");
    StripKeepsPrefix(line, "-");
  }

  lemma {:induction false} ParseCr(env: Env, st: Parse, line: string)
    ensures ParseLine(env, st, StripCr(line)) == ParseLine(env, st, line)
  {
    KindCr(st.inHunk, line);
    match KindOf(st.inHunk, line)
    case NewFile(target) => PathCr(target);
    case PlusLine(text) => LineCr(env, text);
    case _ =>
  }

  lemma {:induction false} ReadLine(pending: string, line: string, rest: string)
    requires '\n' !in line
    ensures LinesFrom(pending, line + "\n" + rest) == [StripCr(pending + line)] + LinesFrom("", rest)
    decreases |line|
  {
    if line == "" {
      assert line + "\n" + rest == ['\n'] + rest;
      assert pending + line == pending;
    } else {
      assert (line + "\n" + rest)[1..] == line[1..] + "\n" + rest;
      ReadLine(pending + [line[0]], line[1..], rest);
      assert pending + [line[0]] + line[1..] == pending + line;
    }
  }

  /** Parsing joined lines is parsing the lines. */
  lemma {:induction false} ParseUnlines(env: Env, st: Parse, lines: seq<string>)
    requires forall l :: l in lines ==> '\n' !in l
    ensures ParseLines(env, st, Lines(Unlines(lines))) == ParseLines(env, st, lines)
    decreases |lines|
  {
    if lines != [] {
      ReadLine("", lines[0], Unlines(lines[1..]));
      assert "" + lines[0] == lines[0];
      ParseCr(env, st, lines[0]);
      ParseUnlines(env, ParseLine(env, st, lines[0]), lines[1..]);
      var ls := Lines(Unlines(lines));
      assert ls[1..] == Lines(Unlines(lines[1..]));
    }
  }

  lemma {:induction false} ReadLast(pending: string, line: string)
    requires '\n' !in line
    ensures LinesFrom(pending, line) == if pending + line == "" then [] else [pending + line]
    decreases |line|
  {
    if line == "" {
      assert pending + line == pending;
    } else {
      ReadLast(pending + [line[0]], line[1..]);
      assert pending + [line[0]] + line[1..] == pending + line;
    }
  }

  /** The last line may lack its newline. */
  lemma {:induction false} ParseUnterminated(env: Env, st: Parse, lines: seq<string>, last: string)
    requires '\n' !in last && forall l :: l in lines ==> '\n' !in l
    ensures ParseLines(env, st, Lines(Unlines(lines) + last)) == ParseLines(env, st, lines + [last])
    decreases |lines|
  {
    if lines == [] {
      assert Unlines(lines) + last == last && lines + [last] == [last];
      ParseOnly(env, st, last);
    } else {
      var first, rest := lines[0], Unlines(lines[1..]) + last;
      assert Unlines(lines) + last == first + "\n" + rest;
      ParseFirst(env, st, first, rest);
      ParseUnterminated(env, ParseLine(env, st, first), lines[1..], last);
      assert lines + [last] == [first] + (lines[1..] + [last]);
      ParseCons(env, st, first, lines[1..] + [last]);
    }
  }

  lemma {:induction false} ParseOnly(env: Env, st: Parse, last: string)
    requires '\n' !in last
    ensures ParseLines(env, st, Lines(last)) == ParseLines(env, st, [last])
  {
    assert "" + last == last;
    ReadLast("", last);
    assert [last][1..] == [];
    EmptyLineParsed(env, st);
  }

  lemma {:induction false} ParseFirst(env: Env, st: Parse, first: string, rest: string)
    requires '\n' !in first
    ensures ParseLines(env, st, Lines(first + "\n" + rest)) == ParseLines(env, ParseLine(env, st, first), Lines(rest))
  {
    ReadLine("", first, rest);
    assert "" + first == first;
    ParseCr(env, st, first);
    ParseCons(env, st, StripCr(first), Lines(rest));
  }

  lemma {:induction false} EmptyLineParsed(env: Env, st: Parse)
    ensures ParseLine(env, st, "") == st
  {
  }

  // ----- parsing structures

  function Add(st: Parse, s: Summary): Parse {
    st.(added := st.added + s.added, deleted := st.deleted + s.deleted, prints := st.prints + s.prints)
  }

  lemma {:induction false} AddNothing(st: Parse)
    ensures Add(st, Summary(0, 0, [])) == st
  {
    assert st.prints + [] == st.prints;
  }

  lemma {:induction false} AddTwice(st: Parse, a: Summary, b: Summary)
    ensures Add(Add(st, a), b) == Add(st, Plus(a, b))
  {
    assert st.prints + a.prints + b.prints == st.prints + (a.prints + b.prints);
  }

  lemma {:induction false} AddThrough(
    st: Parse, p: Option<string>, h: bool, a: Summary, p': Option<string>, h': bool, b: Summary)
    ensures Add(Add(st.(path := p, inHunk := h), a).(path := p', inHunk := h'), b) ==
      Add(st.(path := p', inHunk := h'), Plus(a, b))
  {
    AddTwice(st.(path := p', inHunk := h'), a, b);
  }

  lemma {:induction false} FirstCharDecides(line: string)
    requires line != ""
    ensures "diff --git " <= line ==> line[0] == 'd'
    ensures "@@ " <= line ==> line[0] == '@'
    ensures "+++ " <= line ==> line[0] == '+'
    ensures "--- " <= line ==> line[0] == '-'
    ensures "+" <= line <==> line[0] == '+'
    ensures "-" <= line <==> line[0] == '-'
  {
  }

  lemma {:induction false} BodyLineParsed(env: Env, st: Parse, l: BodyLine)
    requires st.inHunk
    ensures ParseLine(env, st, RenderBody(l)) == Add(st, LineSummary(env, st.path, l))
  {
    var line := RenderBody(l);
    FirstCharDecides(line);
    assert line[1..] == l.text;
    AddNothing(st);
  }

  lemma {:induction false} BodyParsed(env: Env, st: Parse, body: seq<BodyLine>)
    requires st.inHunk
    ensures ParseLines(env, st, BodyLines(body)) == Add(st, BodySummary(env, st.path, body))
    decreases |body|
  {
    if body == [] {
      AddNothing(st);
    } else {
      var one := LineSummary(env, st.path, body[0]);
      BodyLineParsed(env, st, body[0]);
      BodyParsed(env, Add(st, one), body[1..]);
      AddTwice(st, one, BodySummary(env, st.path, body[1..]));
      assert BodyLines(body)[1..] == BodyLines(body[1..]);
    }
  }

  lemma {:induction false} HunkHeadParsed(env: Env, st: Parse, ranges: string)
    ensures ParseLine(env, st, "@@ " + ranges) == st.(inHunk := true)
  {
    FirstCharDecides("@@ " + ranges);
  }

  lemma {:induction false} HunksParsed(env: Env, st: Parse, hunks: seq<Hunk>)
    ensures ParseLines(env, st, HunkLines(hunks)) ==
      Add(st.(inHunk := st.inHunk || hunks != []), HunkSummary(env, st.path, hunks))
    decreases |hunks|
  {
    if hunks == [] {
      AddNothing(st);
    } else {
      var head := "@@ " + hunks[0].ranges;
      var body, rest := BodyLines(hunks[0].body), HunkLines(hunks[1..]);
      assert HunkLines(hunks) == [head] + (body + rest);
      assert ([head] + (body + rest))[1..] == body + rest;
      var st1 := st.(inHunk := true);
      HunkHeadParsed(env, st, hunks[0].ranges);
      ParseAppend(env, st1, body, rest);
      BodyParsed(env, st1, hunks[0].body);
      var b := BodySummary(env, st.path, hunks[0].body);
      HunksParsed(env, Add(st1, b), hunks[1..]);
      AddTwice(st1, b, HunkSummary(env, st.path, hunks[1..]));
    }
  }

  lemma {:induction false} MetadataParsed(env: Env, st: Parse, lines: seq<string>)
    requires !st.inHunk && forall l :: l in lines ==> IsMetadata(l)
    ensures ParseLines(env, st, lines) == st
    decreases |lines|
  {
    if lines != [] {
      MetadataLineParsed(env, st, lines[0]);
      MetadataParsed(env, st, lines[1..]);
    }
  }

  lemma {:induction false} MetadataLineParsed(env: Env, st: Parse, line: string)
    requires !st.inHunk && IsMetadata(line)
    ensures ParseLine(env, st, line) == st
  {
    if line != "" {
      FirstCharDecides(line);
    }
  }

  lemma {:induction false} TargetsParsed(env: Env, st: Parse, c: Change)
    requires !st.inHunk
    ensures ParseLines(env, st, ChangeLines(Some(c))) ==
      ParseLines(env, st.(path := NormalizeDiffPath(c.newTarget)), HunkLines(c.hunks))
  {
    var h := HunkLines(c.hunks);
    var minus, plus := "--- " + c.oldTarget, "+++ " + c.newTarget;
    assert ChangeLines(Some(c)) == [minus] + ([plus] + h);
    OldTargetParsed(env, st, minus, c.oldTarget);
    TwoLinesParsed(env, st, minus, plus, h);
    NewTargetParsed(env, st, plus, c.newTarget);
  }

  lemma {:induction false} TwoLinesParsed(env: Env, st: Parse, first: string, second: string, rest: seq<string>)
    requires ParseLine(env, st, first) == st
    ensures ParseLines(env, st, [first] + ([second] + rest)) == ParseLines(env, ParseLine(env, st, second), rest)
  {
    ParseCons(env, st, first, [second] + rest);
    ParseCons(env, st, second, rest);
  }

  lemma {:induction false} ParseCons(env: Env, st: Parse, line: string, rest: seq<string>)
    ensures ParseLines(env, st, [line] + rest) == ParseLines(env, ParseLine(env, st, line), rest)
  {
    assert ([line] + rest)[1..] == rest;
  }

  lemma {:induction false} OldTargetParsed(env: Env, st: Parse, line: string, target: string)
    requires !st.inHunk && line == "--- " + target
    ensures ParseLine(env, st, line) == st
  {
    FirstCharDecides(line);
  }

  lemma {:induction false} NewTargetParsed(env: Env, st: Parse, line: string, target: string)
    requires !st.inHunk && line == "+++ " + target
    ensures ParseLine(env, st, line) == st.(path := NormalizeDiffPath(target))
  {
    assert KindOf(st.inHunk, line) == NewFile(target) by {
      NewTargetKind(line, target);
    }
  }

  lemma {:induction false} NewTargetKind(line: string, target: string)
    requires line == "+++ " + target
    ensures KindOf(false, line) == NewFile(target)
  {
    FirstCharDecides(line);
    assert line[4..] == target;
  }

  lemma {:induction false} ChangeParsed(
    env: Env, st: Parse, change: Option<Change>) returns (path: Option<string>, inHunk: bool)
    requires !st.inHunk
    ensures ParseLines(env, st, ChangeLines(change)) ==
      Add(st.(path := path, inHunk := inHunk), ChangeSummary(env, change))
  {
    match change
    case None =>
      path, inHunk := st.path, false;
      AddNothing(st);
    case Some(c) =>
      path, inHunk := NormalizeDiffPath(c.newTarget), c.hunks != [];
      TargetsParsed(env, st, c);
      HunksParsed(env, st.(path := path), c.hunks);
  }

  lemma {:induction false} FileParsed(env: Env, st: Parse, f: FileDiff) returns (path: Option<string>, inHunk: bool)
    requires HasMetadata(f)
    ensures ParseLines(env, st, FileLines(f)) == Add(st.(path := path, inHunk := inHunk), ChangeSummary(env, f.change))
  {
    var head := "diff --git " + f.names;
    var rest := ChangeLines(f.change);
    assert FileLines(f) == [head] + (f.metadata + rest);
    assert ([head] + (f.metadata + rest))[1..] == f.metadata + rest;
    var st1 := st.(path := None, inHunk := false);
    assert ParseLine(env, st, head) == st1;
    ParseAppend(env, st1, f.metadata, rest);
    MetadataParsed(env, st1, f.metadata);
    path, inHunk := ChangeParsed(env, st1, f.change);
  }

  lemma {:induction false} FilesParsed(
    env: Env, st: Parse, files: seq<FileDiff>) returns (path: Option<string>, inHunk: bool)
    requires forall f :: f in files ==> HasMetadata(f)
    ensures ParseLines(env, st, DiffLines(files)) == Add(st.(path := path, inHunk := inHunk), DiffSummary(env, files))
    decreases |files|
  {
    if files == [] {
      path, inHunk := st.path, st.inHunk;
      AddNothing(st);
    } else {
      ParseAppend(env, st, FileLines(files[0]), DiffLines(files[1..]));
      var p, h := FileParsed(env, st, files[0]);
      var st1 := Add(st.(path := p, inHunk := h), ChangeSummary(env, files[0].change));
      path, inHunk := FilesParsed(env, st1, files[1..]);
      AddThrough(st, p, h, ChangeSummary(env, files[0].change), path, inHunk, DiffSummary(env, files[1..]));
    }
  }

  /** Parsing a rendered diff gives exactly its line counts and its fingerprints, in order. */
  lemma {:induction false} ParsingInvertsRendering(env: Env, files: seq<FileDiff>)
    requires WellFormed(files)
    ensures var st := ParseLines(env, EMPTY, Lines(Render(files)));
      Summary(st.added, st.deleted, st.prints) == DiffSummary(env, files)
  {
    ParseUnlines(env, EMPTY, DiffLines(files));
    var path, inHunk := FilesParsed(env, EMPTY, files);
    assert [] + DiffSummary(env, files).prints == DiffSummary(env, files).prints;
  }

  lemma {:induction false} UnlinesSnoc(lines: seq<string>, last: string)
    ensures Unlines(lines + [last]) == Unlines(lines) + last + "\n"
  {
    if lines == [] {
      assert lines + [last] == [last] && [last][1..] == [];
      assert Unlines([last]) == last + "\n" + "";
    } else {
      assert (lines + [last])[1..] == lines[1..] + [last];
      UnlinesSnoc(lines[1..], last);
    }
  }

  /** The same without the newline at the very end. */
  lemma {:induction false} LastNewlineDoesNotMatter(env: Env, files: seq<FileDiff>, text: string)
    requires WellFormed(files) && text + "\n" == Render(files)
    ensures ParseLines(env, EMPTY, Lines(text)) == ParseLines(env, EMPTY, Lines(Render(files)))
  {
    var lines := DiffLines(files);
    var init, last := lines[..|lines| - 1], lines[|lines| - 1];
    assert lines == init + [last];
    UnlinesSnoc(init, last);
    SameBeforeLast(text, Unlines(init) + last);
    assert last in lines && forall l :: l in init ==> l in lines;
    ParseUnterminated(env, EMPTY, init, last);
    ParseUnlines(env, EMPTY, lines);
  }

  lemma {:induction false} SameBeforeLast(a: string, b: string)
    requires a + "\n" == b + "\n"
    ensures a == b
  {
    assert a == (a + "\n")[..|a|] && b == (b + "\n")[..|b|];
  }

  /** The path hashed for a git target is the file's own path; deleted files have none. */
  lemma {:induction false} GitTarget(path: string)
    requires path != "" && !IsWhitespace(path[|path| - 1])
    ensures NormalizeDiffPath("b/" + path) == Some(path)
  {
    var t := "b/" + path;
    assert t[|t| - 1] == path[|path| - 1];
    NothingToTrim(t);
    assert t[0] == 'b' && t[2..] == path;
    FirstCharOfNull(t);
  }

  lemma {:induction false} FirstCharOfNull(t: string)
    requires t != "" && t[0] == 'b'
    ensures t != "/dev/null"
  {
  }

  lemma {:induction false} NothingToTrim(t: string)
    requires t != "" && !IsWhitespace(t[0]) && !IsWhitespace(t[|t| - 1])
    ensures Trim(t) == t
  {
    assert "" + t == t && t + "" == t;
    TrimStartSkips("", t);
    TrimEndSkips(t, "");
  }

  lemma {:induction false} NullTarget()
    ensures NormalizeDiffPath("/dev/null") == None
  {
    NothingToTrim("/dev/null");
  }
}
