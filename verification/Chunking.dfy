/**
 Cutting accepted-line fingerprints into events of bounded size
 (`codex-rs/analytics/src/accepted_lines.rs`).
 */
module Chunking {

  const TARGET_BYTES: nat := 2 * 1024 * 1024
  const FIXED_BYTES: nat := 1024

  datatype Fingerprint = Fingerprint(pathHash: string, lineHash: string)

  type Chunk = seq<Fingerprint>

  function ItemBytes(f: Fingerprint): nat {
    32 + |f.pathHash| + |f.lineHash|
  }

  /** Item sizes plus one separator each. */
  function Weight(c: Chunk): nat {
    if c == [] then 0 else ItemBytes(c[0]) + 1 + Weight(c[1..])
  }

  /** The estimated size of an event: fixed part, items, and a separator between items. */
  function ChunkBytes(c: Chunk): nat {
    if c == [] then FIXED_BYTES else FIXED_BYTES + Weight(c) - 1
  }

  /** A chunk may exceed the target only when it is a single item. */
  predicate Fits(c: Chunk) {
    ChunkBytes(c) <= 2 * 1024 * 1024 || |c| == 1
  }

  function Concat(chunks: seq<Chunk>): Chunk {
    if chunks == [] then [] else chunks[0] + Concat(chunks[1..])
  }

  predicate IsPartition(chunks: seq<Chunk>, items: Chunk) {
    Concat(chunks) == items && forall k :: 0 <= k < |chunks| ==> Fits(chunks[k])
  }

  /** `c` has no room for the item that starts `next`. */
  predicate Full(c: Chunk, next: Chunk) {
    next != [] && ChunkBytes(c + [next[0]]) > 2 * 1024 * 1024
  }

  /** No chunk has room for the item that starts the next one. */
  ghost predicate Tight(chunks: seq<Chunk>) {
    forall j, k :: 0 <= j < k < |chunks| && k == j + 1 ==> Full(chunks[j], chunks[k])
  }

  predicate NoneEmpty(chunks: seq<Chunk>) {
    forall k :: 0 <= k < |chunks| ==> chunks[k] != []
  }

  // ----- sizes and concatenations

  lemma {:induction false} WeightAppend(a: Chunk, b: Chunk)
    ensures Weight(a + b) == Weight(a) + Weight(b)
  {
    if a == [] {
      assert a + b == b;
    } else {
      assert (a + b)[1..] == a[1..] + b;
      WeightAppend(a[1..], b);
    }
  }

  lemma {:induction false} ConcatSnoc(chunks: seq<Chunk>, c: Chunk)
    ensures Concat(chunks + [c]) == Concat(chunks) + c
  {
    if chunks == [] {
      assert [c][1..] == [];
    } else {
      assert (chunks + [c])[1..] == chunks[1..] + [c];
      ConcatSnoc(chunks[1..], c);
    }
  }

  lemma {:induction false} BytesGrow(c: Chunk, f: Fingerprint)
    ensures ChunkBytes(c + [f]) == ChunkBytes(c) + (if c == [] then 0 else 1) + ItemBytes(f)
  {
    WeightAppend(c, [f]);
    if c == [] {
      assert c + [f] == [f];
    }
  }

  // ----- the greedy loop

  /** Finished chunks and the one being filled. */
  ghost predicate Filling(chunks: seq<Chunk>, current: Chunk) {
    current != [] && Fits(current) && NoneEmpty(chunks) && Tight(chunks + [current])
    && forall k :: 0 <= k < |chunks| ==> Fits(chunks[k])
  }

  lemma {:induction false} FillOn(chunks: seq<Chunk>, current: Chunk, f: Fingerprint)
    requires Filling(chunks, current) && ChunkBytes(current + [f]) <= TARGET_BYTES
    ensures Filling(chunks, current + [f])
  {
    forall j, k | 0 <= j < k < |chunks| + 1 && k == j + 1
      ensures Full((chunks + [current + [f]])[j], (chunks + [current + [f]])[k])
    {
      assert Full((chunks + [current])[j], (chunks + [current])[k]);
    }
  }

  lemma {:induction false} StartNext(chunks: seq<Chunk>, current: Chunk, f: Fingerprint)
    requires Filling(chunks, current) && ChunkBytes(current + [f]) > TARGET_BYTES
    ensures Filling(chunks + [current], [f])
  {
    forall j, k | 0 <= j < k < |chunks| + 2 && k == j + 1
      ensures Full((chunks + [current] + [[f]])[j], (chunks + [current] + [[f]])[k])
    {
      if k <= |chunks| {
        assert Full((chunks + [current])[j], (chunks + [current])[k]);
      }
    }
  }

  /** `accepted_line_fingerprint_chunks`; no fingerprints still make one, empty, chunk. */
  method FingerprintChunks(items: Chunk) returns (chunks: seq<Chunk>)
    ensures IsPartition(chunks, items) && Tight(chunks)
    ensures if items == [] then chunks == [[]] else NoneEmpty(chunks)
  {
    if items == [] {
      return [[]];
    }
    chunks := [];
    var current: Chunk := [];
    var currentBytes := FIXED_BYTES;
    for i := 0 to |items|
      invariant Concat(chunks) + current == items[..i]
      invariant currentBytes == ChunkBytes(current)
      invariant if i == 0 then chunks == [] && current == [] else Filling(chunks, current)
    {
      var itemBytes := ItemBytes(items[i]);
      var separatorBytes := if current != [] then 1 else 0;
      BytesGrow(current, items[i]);
      assert items[..i + 1] == items[..i] + [items[i]];
      if current != [] && currentBytes + separatorBytes + itemBytes > TARGET_BYTES {
        StartNext(chunks, current, items[i]);
        ConcatSnoc(chunks, current);
        chunks := chunks + [current];
        current := [];
        currentBytes := FIXED_BYTES;
      } else if current != [] {
        FillOn(chunks, current, items[i]);
      }
      BytesGrow(current, items[i]);
      currentBytes := currentBytes + (if current != [] then 1 else 0) + itemBytes;
      assert current == [] ==> current + [items[i]] == [items[i]];
      current := current + [items[i]];
    }
    assert items[..|items|] == items;
    ConcatSnoc(chunks, current);
    chunks := chunks + [current];
  }

  // ----- no partition uses fewer chunks

  function Lengths(chunks: seq<Chunk>, n: nat): nat
    requires n <= |chunks|
  {
    if n == 0 then 0 else Lengths(chunks, n - 1) + |chunks[n - 1]|
  }

  lemma {:induction false} ChunkAt(chunks: seq<Chunk>, items: Chunk, n: nat)
    requires Concat(chunks) == items && n < |chunks|
    ensures Lengths(chunks, n + 1) <= |items|
    ensures chunks[n] == items[Lengths(chunks, n)..Lengths(chunks, n + 1)]
  {
    ConcatTake(chunks, n);
    ConcatTake(chunks, n + 1);
    assert chunks[..n + 1] == chunks[..n] + [chunks[n]];
    ConcatSnoc(chunks[..n], chunks[n]);
  }

  lemma {:induction false} ConcatTake(chunks: seq<Chunk>, n: nat)
    requires n <= |chunks|
    ensures Lengths(chunks, n) <= |Concat(chunks)|
    ensures Concat(chunks[..n]) == Concat(chunks)[..Lengths(chunks, n)]
    decreases |chunks| - n
  {
    if n == |chunks| {
      assert chunks[..n] == chunks;
      LengthsAll(chunks, n);
    } else {
      ConcatTake(chunks, n + 1);
      assert chunks[..n + 1] == chunks[..n] + [chunks[n]];
      ConcatSnoc(chunks[..n], chunks[n]);
      LengthsAll(chunks, n);
    }
  }

  lemma {:induction false} LengthsAll(chunks: seq<Chunk>, n: nat)
    requires n <= |chunks|
    ensures Lengths(chunks, n) == |Concat(chunks[..n])|
  {
    if n > 0 {
      LengthsAll(chunks, n - 1);
      assert chunks[..n] == chunks[..n - 1] + [chunks[n - 1]];
      ConcatSnoc(chunks[..n - 1], chunks[n - 1]);
    } else {
      assert chunks[..n] == [];
    }
  }

  lemma {:induction false} InnerWeighsLess(items: Chunk, a: nat, b: nat, c: nat, d: nat)
    requires a <= b <= c <= d <= |items|
    ensures Weight(items[b..c]) <= Weight(items[a..d])
  {
    assert items[a..d] == items[a..b] + items[b..c] + items[c..d];
    WeightAppend(items[a..b] + items[b..c], items[c..d]);
    WeightAppend(items[a..b], items[b..c]);
  }

  /** A chunk that reaches past a full greedy one is too big. */
  lemma {:induction false} OvertakingDoesNotFit(items: Chunk, g0: nat, g1: nat, o0: nat, o1: nat, c: Chunk, next: Chunk)
    requires o0 <= g0 < g1 < o1 <= |items| && c == items[g0..g1] && Full(c, next) && next[0] == items[g1]
    ensures !Fits(items[o0..o1])
  {
    assert c + [next[0]] == items[g0..g1 + 1];
    InnerWeighsLess(items, o0, g0, g1 + 1, o1);
  }

  /** Greedy stays ahead: after `n` chunks it has used at least as many items. */
  lemma {:induction false} GreedyStaysAhead(greedy: seq<Chunk>, other: seq<Chunk>, items: Chunk, n: nat)
    requires IsPartition(greedy, items) && Tight(greedy) && NoneEmpty(greedy)
    requires IsPartition(other, items) && n <= |greedy| && n <= |other|
    ensures Lengths(greedy, n) >= Lengths(other, n)
  {
    if n > 0 {
      GreedyStaysAhead(greedy, other, items, n - 1);
      ChunkAt(greedy, items, n - 1);
      ChunkAt(other, items, n - 1);
      var g0, g1 := Lengths(greedy, n - 1), Lengths(greedy, n);
      var o0, o1 := Lengths(other, n - 1), Lengths(other, n);
      if n == |greedy| {
        LengthsAll(greedy, n);
        assert greedy[..n] == greedy;
      } else if g1 < o1 {
        ChunkAt(greedy, items, n);
        OvertakingDoesNotFit(items, g0, g1, o0, o1, greedy[n - 1], greedy[n]);
      }
    }
  }

  /** No in-order partition into chunks that fit has fewer chunks. */
  lemma {:induction false} GreedyIsOptimal(greedy: seq<Chunk>, other: seq<Chunk>, items: Chunk)
    requires IsPartition(greedy, items) && Tight(greedy) && NoneEmpty(greedy)
    requires IsPartition(other, items)
    ensures |greedy| <= |other|
  {
    if |other| < |greedy| {
      var n := |other|;
      GreedyStaysAhead(greedy, other, items, n);
      LengthsAll(other, n);
      assert other[..n] == other;
      ChunkAt(greedy, items, n);
    }
  }

  /** The one exception: without items the loop still makes a chunk. */
  lemma EmptyInputExample()
    ensures IsPartition([], []) && IsPartition([[]], []) && Tight([[]])
  {
    var one: seq<Chunk> := [[]];
    assert one[1..] == [];
    assert Concat(one) == one[0] + Concat(one[1..]);
  }

  // ----- events

  datatype Event = Event(added: nat, deleted: nat, fingerprints: Chunk)

  function SumAdded(events: seq<Event>): nat {
    if events == [] then 0 else events[0].added + SumAdded(events[1..])
  }

  function SumDeleted(events: seq<Event>): nat {
    if events == [] then 0 else events[0].deleted + SumDeleted(events[1..])
  }

  function Fingerprints(events: seq<Event>): seq<Chunk> {
    seq(|events|, i requires 0 <= i < |events| => events[i].fingerprints)
  }

  /** One event per chunk; only the first carries the line counts. */
  function EventsOf(added: nat, deleted: nat, chunks: seq<Chunk>): (events: seq<Event>)
    ensures |events| == |chunks| && Fingerprints(events) == chunks
    ensures chunks != [] ==> SumAdded(events) == added && SumDeleted(events) == deleted
    decreases |chunks|
  {
    if chunks == [] then []
    else
      var rest := EventsOf(0, 0, chunks[1..]);
      var events := [Event(added, deleted, chunks[0])] + rest;
      assert events[1..] == rest;
      assert Fingerprints(events) == [chunks[0]] + Fingerprints(rest);
      events
  }

  /**
   `accepted_line_fingerprint_event_requests`: the events carry the input counts and
   fingerprints exactly once, every event fits, and no fewer events could.
   */
  method EventRequests(added: nat, deleted: nat, items: Chunk) returns (events: seq<Event>)
    ensures |events| > 0
    ensures SumAdded(events) == added && SumDeleted(events) == deleted
    ensures events[0].added == added && events[0].deleted == deleted
    ensures IsPartition(Fingerprints(events), items)
    ensures items != [] ==> forall other :: IsPartition(other, items) ==> |events| <= |other|
  {
    var chunks := FingerprintChunks(items);
    events := [];
    var index := 0;
    while index < |chunks|
      invariant index <= |chunks|
      invariant events == EventsOf(added, deleted, chunks)[..index]
    {
      var first := index == 0;
      EventAt(added, deleted, chunks, index);
      events := events + [Event(if first then added else 0, if first then deleted else 0, chunks[index])];
      index := index + 1;
    }
    assert events == EventsOf(added, deleted, chunks);
    if items != [] {
      forall other | IsPartition(other, items)
        ensures |events| <= |other|
      {
        GreedyIsOptimal(chunks, other, items);
      }
    }
  }

  lemma {:induction false} EventAt(added: nat, deleted: nat, chunks: seq<Chunk>, i: nat)
    requires i < |chunks|
    ensures EventsOf(added, deleted, chunks)[i] ==
      Event(if i == 0 then added else 0, if i == 0 then deleted else 0, chunks[i])
    decreases i
  {
    if i > 0 {
      EventAt(0, 0, chunks[1..], i - 1);
    }
  }
}
