/**
 What the size estimate of the chunker is an estimate of: the JSON text of the
 fingerprints in an event (`codex-rs/analytics/src/accepted_lines.rs`).
 */
module ChunkSize {
  import opened Chunking
  import opened Json
  import opened JsonText

  /** Text that JSON writes as it is, such as a digest in hexadecimal. */
  predicate NeedsNoEscape(s: string) {
    forall k :: 0 <= k < |s| ==> s[k] >= ' ' && s[k] != '"' && s[k] != '\\'
  }

  predicate IsPlain(c: Chunk) {
    forall f :: f in c ==> NeedsNoEscape(f.pathHash) && NeedsNoEscape(f.lineHash)
  }

  function ObjectOf(f: Fingerprint): Value {
    Obj([Member("path_hash", Str(f.pathHash)), Member("line_hash", Str(f.lineHash))])
  }

  function ArrayOf(c: Chunk): seq<Value> {
    seq(|c|, i requires 0 <= i < |c| => ObjectOf(c[i]))
  }

  lemma {:induction false} EscapeLength(s: string, rest: string)
    requires NeedsNoEscape(s)
    ensures |EscapeTo(s, rest)| == |s| + |rest|
  {
    if s != "" {
      EscapeLength(s[1..], rest);
    }
  }

  lemma {:induction false} QuoteLength(s: string, rest: string)
    requires NeedsNoEscape(s)
    ensures |QuoteTo(s, rest)| == |s| + 2 + |rest|
  {
    EscapeLength(s, "\"" + rest);
  }

  lemma {:induction false} MemberLength(key: string, s: string, rest: string)
    requires NeedsNoEscape(key) && NeedsNoEscape(s)
    ensures |QuoteTo(key, ":" + PrintTo(Str(s), rest))| == |key| + |s| + 5 + |rest|
  {
    QuoteLength(s, rest);
    QuoteLength(key, ":" + PrintTo(Str(s), rest));
  }

  lemma {:induction false} ObjectText(f: Fingerprint, rest: string)
    ensures PrintTo(ObjectOf(f), rest) ==
      "{" + QuoteTo("path_hash", ":" + PrintTo(Str(f.pathHash),
                    "," + QuoteTo("line_hash", ":" + PrintTo(Str(f.lineHash), "}" + rest))))
  {
    var a, b := Member("path_hash", Str(f.pathHash)), Member("line_hash", Str(f.lineHash));
    assert [a, b][1..] == [b];
    var last := QuoteTo(b.key, ":" + PrintTo(b.value, "}" + rest));
    assert MembersTo([b], "}" + rest) == last;
    assert MembersTo([a, b], "}" + rest) == QuoteTo(a.key, ":" + PrintTo(a.value, "," + last));
  }

  /** One fingerprint as JSON: the two digests and 31 characters around them. */
  lemma {:induction false} ObjectLength(f: Fingerprint, rest: string)
    requires NeedsNoEscape(f.pathHash) && NeedsNoEscape(f.lineHash)
    ensures |PrintTo(ObjectOf(f), rest)| == 31 + |f.pathHash| + |f.lineHash| + |rest|
  {
    ObjectText(f, rest);
    MemberLength("line_hash", f.lineHash, "}" + rest);
    MemberLength("path_hash", f.pathHash,
                 "," + QuoteTo("line_hash", ":" + PrintTo(Str(f.lineHash), "}" + rest)));
  }

  lemma {:induction false} ItemsLength(c: Chunk, rest: string)
    requires IsPlain(c) && c != []
    ensures |ItemsTo(ArrayOf(c), rest)| + |c| == Weight(c) - 1 + |rest|
    decreases |c|
  {
    var items := ArrayOf(c);
    assert items[0] == ObjectOf(c[0]) && c[0] in c;
    if |c| == 1 {
      ObjectLength(c[0], rest);
      assert Weight(c[1..]) == 0;
    } else {
      assert items[1..] == ArrayOf(c[1..]);
      assert forall f :: f in c[1..] ==> f in c;
      ItemsLength(c[1..], rest);
      ObjectLength(c[0], "," + ItemsTo(items[1..], rest));
    }
  }

  /**
   The estimate for a chunk is the fixed part and the length of its fingerprints as a JSON
   array, counting one byte too many for each fingerprint and not counting the brackets.
   */
  lemma {:induction false} EstimateIsJsonLength(c: Chunk)
    requires IsPlain(c)
    ensures ChunkBytes(c) == 1024 + |Print(Arr(ArrayOf(c)))| - 2 + |c|
  {
    if c == [] {
      assert ArrayOf(c) == [];
    } else {
      ItemsLength(c, "]" + "");
    }
  }

  /** So a chunk of more than one fingerprint keeps its JSON within 2 MiB less 1 KiB. */
  lemma {:induction false} FittingChunkIsSmall(c: Chunk)
    requires IsPlain(c) && Fits(c) && |c| > 1
    ensures |Print(Arr(ArrayOf(c)))| <= 2 * 1024 * 1024 - 1024
  {
    EstimateIsJsonLength(c);
  }
}
