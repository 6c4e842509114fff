/** `permuterace`: instead of sampling, reorder the whole input by score.
    A first pass streams the records through one sketch and keeps, for
    each record, its stream position(s) and its score; the score is then
    optionally normalised or recomputed against the final sketch; the
    index is sorted by score; and the records are copied to the output in
    that order, one batch at a time, each batch visited in file order. */
module Permute {
  import opened Outcomes
  import opened Hashing
  import opened MinHash
  import opened Sketch
  import opened Sorting
  import opened Pipeline
  import opened FrontEnd

  /** `--scoretype`: the running score `query_and_add` gives, that score
      divided by the record's 1-based rank, or `query` against the sketch
      that holds every record. */
  datatype ScoreType = Running | Normalized | Full

  /** No `--scoretype` means the running score; `R`, `N` and `F` pick one;
      anything else is refused. */
  function ScoreTypeOf(arg: Option<string>): (t: Option<ScoreType>)
    ensures arg.None? ==> t == Some(Running)
    ensures arg.Some? ==> (t == Some(Running) <==> arg.value == "R")
    ensures arg.Some? ==> (t == Some(Normalized) <==> arg.value == "N")
    ensures arg.Some? ==> (t == Some(Full) <==> arg.value == "F")
  {
    match arg
    case None => Some(Running)
    case Some(a) =>
      if a == "R" then Some(Running) else if a == "N" then Some(Normalized) else if a == "F" then Some(Full) else None
  }

  /** `read_info_SEI` / `read_info_PE`: where a record starts in the input
      stream(s), and its score. Single-end and interleaved runs leave
      `pos2` unused. */
  datatype Entry = Entry(pos1: int, pos2: int, score: real)

  function ScoreOf(e: Entry): real {
    e.score
  }

  /** The index entries point at the records, one for one, in stream order. */
  ghost predicate Locates(index: seq<Entry>, recs: seq<Record>) {
    |index| == |recs| && forall d :: 0 <= d < |recs| ==> index[d].pos1 == recs[d].pos1 && index[d].pos2 == recs[d].pos2
  }

  /** An entry per record, at the record's positions, with the given scores. */
  function Indexed(recs: seq<Record>, scores: seq<nat>): (index: seq<Entry>)
    requires |scores| == |recs|
    ensures Locates(index, recs)
  {
    seq(|recs|, d requires 0 <= d < |recs| => Entry(recs[d].pos1, recs[d].pos2, scores[d] as real))
  }

  /** Scores divided by the number of records seen so far. */
  function Normalize(index: seq<Entry>): (r: seq<Entry>)
    ensures |r| == |index|
  {
    seq(|index|, d requires 0 <= d < |index| => index[d].(score := index[d].score / ((d + 1) as real)))
  }

  /** The same entries with new scores. */
  function Rescore(index: seq<Entry>, scores: seq<nat>): (r: seq<Entry>)
    requires |scores| == |index|
    ensures |r| == |index|
  {
    seq(|index|, d requires 0 <= d < |index| => index[d].(score := scores[d] as real))
  }

  /** What `query` gives each record once the sketch holds the whole
      stream. */
  function FinalScores(key: KeyFn, p: Params, recs: seq<Record>): (scores: seq<nat>)
    requires ValidParams(p) && KeyWidth(key, p.reps)
    ensures |scores| == |recs|
  {
    var c := StreamCounts(key, p, Zero(p.reps, p.range), recs);
    seq(|recs|, d requires 0 <= d < |recs| => Estimate(c, key(recs[d].sequence), p.range))
  }

  /** The index a run sorts, for each score type. */
  function Scored(t: ScoreType, key: KeyFn, p: Params, recs: seq<Record>): (index: seq<Entry>)
    requires ValidParams(p) && KeyWidth(key, p.reps)
    ensures Locates(index, recs)
  {
    var running := Indexed(recs, StreamScores(key, p, Zero(p.reps, p.range), recs));
    match t
    case Running => running
    case Normalized => Normalize(running)
    case Full => Rescore(running, FinalScores(key, p, recs))
  }

  /** A normalised score lies in `[0, R)`: record `d` is scored against
      `d` earlier records, each adding at most `R`, and then divided by
      `d + 1`. */
  lemma NormalizedScoreBounds(key: KeyFn, p: Params, recs: seq<Record>)
    requires ValidParams(p) && KeyWidth(key, p.reps)
    ensures forall d :: 0 <= d < |recs| ==> 0.0 <= Scored(Normalized, key, p, recs)[d].score < p.reps as real
  {
    var keys := Keys(key, recs);
    var running := StreamScores(key, p, Zero(p.reps, p.range), recs);
    CausalScoreBound(p.reps, p.range, keys);
    forall d | 0 <= d < |recs|
      ensures 0.0 <= Scored(Normalized, key, p, recs)[d].score < p.reps as real
    {
      assert running[d] <= p.reps * d;
      BelowAfterDividing(running[d], p.reps, d);
    }
  }

  lemma BelowAfterDividing(s: nat, reps: nat, d: nat)
    requires reps > 0 && s <= reps * d
    ensures 0.0 <= (s as real) / ((d + 1) as real) < reps as real
  {
    var x, y := s as real, (d + 1) as real;
    assert x < (reps as real) * y;
    assert x / y * y == x;
  }

  /** A full score is at least the running score plus `R` (the record's
      own increments) and at most `R * N`. */
  lemma FullScoreBounds(key: KeyFn, p: Params, recs: seq<Record>)
    requires ValidParams(p) && KeyWidth(key, p.reps)
    ensures forall d :: 0 <= d < |recs| ==>
              && Scored(Running, key, p, recs)[d].score + p.reps as real <= Scored(Full, key, p, recs)[d].score
              && Scored(Full, key, p, recs)[d].score <= (p.reps * |recs|) as real
  {
    var keys := Keys(key, recs);
    forall d | 0 <= d < |recs|
      ensures && Scored(Running, key, p, recs)[d].score + p.reps as real <= Scored(Full, key, p, recs)[d].score
              && Scored(Full, key, p, recs)[d].score <= (p.reps * |recs|) as real
    {
      FinalScoreBounds(p.reps, p.range, keys, d);
    }
  }

  /** One record of the scoring pass: `query_and_add`, then its entry is
      appended to the index. */
  method IndexNext(hash: HashFn, p: Params, ghost key: KeyFn, mh: SequenceMinHash, raw: array<int32>, folded: array<int32>, sketch: Race,
                   ghost recs: seq<Record>, ghost scores: seq<nat>, r: Record, index: seq<Entry>)
    returns (score: nat, next: seq<Entry>)
    requires IsKeyOf(key, hash, p) && mh.numHashes == p.reps * p.hashPower
    requires raw.Length == p.reps * p.hashPower && folded.Length == p.reps && raw != folded
    requires sketch.Valid() && sketch.reps == p.reps && sketch.range == p.range
    requires sketch.counts == StreamCounts(key, p, Zero(p.reps, p.range), recs)
    requires scores == StreamScores(key, p, Zero(p.reps, p.range), recs) && index == Indexed(recs, scores)
    modifies raw, folded, sketch
    ensures sketch.Valid() && sketch.counts == StreamCounts(key, p, Zero(p.reps, p.range), recs + [r])
    ensures scores + [score] == StreamScores(key, p, Zero(p.reps, p.range), recs + [r])
    ensures next == Indexed(recs + [r], scores + [score])
  {
    ghost var z := Zero(p.reps, p.range);
    score := ScoreNext(hash, p, key, mh, raw, folded, sketch, z, recs, r);
    assert sketch.counts == StreamCounts(key, p, z, recs + [r]);
    assert scores + [score] == StreamScores(key, p, z, recs + [r]);
    next := index + [Entry(r.pos1, r.pos2, score as real)];
    IndexedSnoc(recs, scores, r, score);
  }

  lemma IndexedSnoc(recs: seq<Record>, scores: seq<nat>, r: Record, s: nat)
    requires |scores| == |recs|
    ensures Indexed(recs + [r], scores + [s]) == Indexed(recs, scores) + [Entry(r.pos1, r.pos2, s as real)]
  {
  }

  /** The scoring pass: every parsed record gets an entry with the
      positions captured before parsing it and its running score, and the
      sketch ends up holding the whole stream. */
  method BuildIndex(hash: HashFn, p: Params, ghost key: KeyFn, mh: SequenceMinHash, raw: array<int32>, folded: array<int32>, sketch: Race,
                    attempts: seq<Attempt>)
    returns (index: seq<Entry>)
    requires IsKeyOf(key, hash, p) && mh.numHashes == p.reps * p.hashPower
    requires raw.Length == p.reps * p.hashPower && folded.Length == p.reps && raw != folded
    requires sketch.Valid() && sketch.reps == p.reps && sketch.range == p.range && sketch.counts == Zero(p.reps, p.range)
    modifies raw, folded, sketch
    ensures sketch.Valid() && sketch.counts == StreamCounts(key, p, Zero(p.reps, p.range), Recs(attempts))
    ensures index == Scored(Running, key, p, Recs(attempts))
  {
    index := [];
    ghost var recs: seq<Record> := [];
    ghost var scores: seq<nat> := [];
    var i := 0;
    assert attempts[..0] == [];
    while i < |attempts|
      invariant i <= |attempts| && recs == Recs(attempts[..i]) && sketch.Valid()
      invariant sketch.counts == StreamCounts(key, p, Zero(p.reps, p.range), recs)
      invariant scores == StreamScores(key, p, Zero(p.reps, p.range), recs) && index == Indexed(recs, scores)
    {
      var next := i + 1;
      RecsStep(attempts, i);
      if attempts[i].Parsed? {
        var score;
        score, index := IndexNext(hash, p, key, mh, raw, folded, sketch, recs, scores, attempts[i].rec, index);
        recs, scores := recs + [attempts[i].rec], scores + [score];
      }
      assert recs == Recs(attempts[..next]);
      i := next;
    }
    assert attempts[..i] == attempts;
  }

  /** `--scoretype N`: each score divided by its 1-based rank in the
      stream, in place; positions are kept. */
  method NormalizeScores(index: seq<Entry>) returns (normalized: seq<Entry>)
    ensures normalized == Normalize(index)
  {
    normalized := index;
    var d := 0;
    while d < |normalized|
      invariant |normalized| == |index| && d <= |index|
      invariant forall j :: 0 <= j < d ==> normalized[j] == Normalize(index)[j]
      invariant forall j :: d <= j < |index| ==> normalized[j] == index[j]
    {
      normalized := normalized[d := normalized[d].(score := normalized[d].score / ((d + 1) as real))];
      d := d + 1;
    }
  }

  /** A record's key, then `query`: its score against the sketch, which is
      left as it is. */
  method QueryRecord(hash: HashFn, p: Params, ghost key: KeyFn, mh: SequenceMinHash, raw: array<int32>, folded: array<int32>,
                     sketch: Race, sequence: string) returns (score: nat)
    requires IsKeyOf(key, hash, p) && mh.numHashes == p.reps * p.hashPower
    requires raw.Length == p.reps * p.hashPower && folded.Length == p.reps && raw != folded
    requires sketch.Valid() && sketch.reps == p.reps && sketch.range == p.range
    modifies raw, folded
    ensures score == Estimate(sketch.counts, key(sequence), p.range)
  {
    FoldedKey(hash, p, mh, raw, folded, sequence);
    score := sketch.Query(folded);
    assert folded[..] == Key(hash, p, sequence);
  }

  /** The first `n` entries carry their new scores and the rest are as
      they were. */
  ghost predicate RescoredUpTo(rescored: seq<Entry>, index: seq<Entry>, scores: seq<nat>, n: nat) {
    && |rescored| == |index| == |scores| && n <= |index|
    && (forall d :: 0 <= d < n ==> rescored[d] == index[d].(score := scores[d] as real))
    && (forall d :: n <= d < |index| ==> rescored[d] == index[d])
  }

  /** One parsed record of the second pass: it is entry `dataId`'s
      record, and that entry takes the record's full score. */
  method RescoreNext(hash: HashFn, p: Params, ghost key: KeyFn, mh: SequenceMinHash, raw: array<int32>, folded: array<int32>, sketch: Race,
                     ghost all: seq<Record>, ghost index: seq<Entry>, rescored: seq<Entry>, dataId: nat, id: nat, r: Record)
    returns (next: seq<Entry>)
    requires IsKeyOf(key, hash, p) && mh.numHashes == p.reps * p.hashPower
    requires raw.Length == p.reps * p.hashPower && folded.Length == p.reps && raw != folded
    requires sketch.Valid() && sketch.reps == p.reps && sketch.range == p.range
    requires sketch.counts == StreamCounts(key, p, Zero(p.reps, p.range), all)
    requires |index| == |all| && dataId < |all| && all[dataId] == r && id == dataId + 1
    requires RescoredUpTo(rescored, index, FinalScores(key, p, all), dataId)
    modifies raw, folded
    ensures RescoredUpTo(next, index, FinalScores(key, p, all), id)
  {
    var score := QueryRecord(hash, p, key, mh, raw, folded, sketch, r.sequence);
    ghost var finals := FinalScores(key, p, all);
    assert score == finals[dataId];
    next := rescored[dataId := rescored[dataId].(score := score as real)];
  }

  /** `--scoretype F`: the input is parsed again from the start and the
      `d`-th parsed record's entry takes the score `query` gives it against
      the sketch of the first pass, which stays as it is. */
  method RescoreFull(hash: HashFn, p: Params, ghost key: KeyFn, mh: SequenceMinHash, raw: array<int32>, folded: array<int32>, sketch: Race,
                     attempts: seq<Attempt>, index: seq<Entry>)
    returns (rescored: seq<Entry>)
    requires IsKeyOf(key, hash, p) && mh.numHashes == p.reps * p.hashPower
    requires raw.Length == p.reps * p.hashPower && folded.Length == p.reps && raw != folded
    requires sketch.Valid() && sketch.reps == p.reps && sketch.range == p.range
    requires sketch.counts == StreamCounts(key, p, Zero(p.reps, p.range), Recs(attempts))
    requires |index| == |Recs(attempts)|
    modifies raw, folded
    ensures rescored == Rescore(index, FinalScores(key, p, Recs(attempts)))
  {
    ghost var all := Recs(attempts);
    ghost var finals := FinalScores(key, p, all);
    rescored := index;
    var dataId := 0;
    var i := 0;
    assert attempts[0..] == attempts;
    while i < |attempts|
      invariant i <= |attempts| && dataId <= |all|
      invariant all[dataId..] == Recs(attempts[i..])
      invariant RescoredUpTo(rescored, index, finals, dataId)
    {
      var next := i + 1;
      RecsFront(attempts[i..]);
      assert attempts[i..][1..] == attempts[next..];
      if attempts[i].Parsed? {
        var id := dataId + 1;
        assert all[id..] == all[dataId..][1..];
        rescored := RescoreNext(hash, p, key, mh, raw, folded, sketch, all, index, rescored, dataId, id, attempts[i].rec);
        dataId := id;
      }
      i := next;
    }
    assert dataId == |all|;
    assert rescored == Rescore(index, finals);
  }

  /** The parser the rewrite restarts at an entry's positions returns the
      chunk(s) found there: `fetch(layout, pos1, pos2)`. Positions are
      opaque stream offsets, so what lies there is a parameter. */
  type Fetcher = (Layout, int, int) -> (string, string)

  /** The rewrite re-parses with the single-end parser for single-end and
      interleaved input, and with the paired parser for paired input. */
  function FetchLayout(layout: Layout): (l: Layout)
    ensures l == PE <==> layout == PE
  {
    if layout == PE then PE else SE
  }

  /** The chunk copied to output `1` (or `2` when `second`) for an entry. */
  function Fetched(fetch: Fetcher, layout: Layout, e: Entry, second: bool): string {
    var chunks := fetch(layout, e.pos1, e.pos2);
    if second then chunks.1 else chunks.0
  }

  function Rewrite(fetch: Fetcher, layout: Layout, second: bool): Entry -> string {
    e => Fetched(fetch, layout, e, second)
  }

  /** The `count` consecutive indices from `start`, as `std::iota` lays
      them out. */
  function Range(start: nat, count: nat): (r: seq<nat>)
    ensures |r| == count
  {
    seq(count, j => start + j)
  }

  lemma RangeMembers(start: nat, count: nat)
    ensures forall x :: x in multiset(Range(start, count)) <==> start <= x < start + count
  {
    forall x | start <= x < start + count
      ensures x in multiset(Range(start, count))
    {
      assert Range(start, count)[x - start] == x;
    }
  }

  /** Sort key of the in-batch order: an index entry's first position. */
  function PositionOf(index: seq<Entry>): nat -> real {
    (i: nat) => if i < |index| then index[i].pos1 as real else 0.0
  }

  /** `std::iota` then `std::sort` on the first `count` slots of
      `sorted_idx`: the batch's indices, ordered by where their records
      start in the input. */
  method OrderBatch(order: array<nat>, index: seq<Entry>, start: nat, count: nat)
    requires count <= order.Length
    modifies order
    ensures order[..count] == SortBy(Range(start, count), PositionOf(index))
  {
    Iota(order, start, count);
    SortPrefix(order, count, PositionOf(index));
  }

  /** `std::iota`: slots `0 .. count` take `start, start + 1, ...`. */
  method Iota(order: array<nat>, start: nat, count: nat)
    requires count <= order.Length
    modifies order
    ensures order[..count] == Range(start, count)
  {
    var j := 0;
    while j < count
      invariant j <= count
      invariant forall m :: 0 <= m < j ==> order[m] == start + m
    {
      order[j] := start + j;
      j := j + 1;
    }
    assert order[..count] == Range(start, count);
  }

  /** `std::sort` on the first `count` slots: they take a sorted
      permutation of what they held. */
  method SortPrefix(order: array<nat>, count: nat, key: nat -> real)
    requires count <= order.Length
    modifies order
    ensures order[..count] == SortBy(old(order[..count]), key)
  {
    var sorted := SortBy(order[..count], key);
    assert |multiset(sorted)| == count;
    var j := 0;
    while j < count
      invariant j <= count
      invariant forall m :: 0 <= m < j ==> order[m] == sorted[m]
    {
      order[j] := sorted[j];
      j := j + 1;
    }
    assert order[..count] == sorted;
  }

  /** Visits the batch's records in the order `order` gives and parks
      each chunk at the slot of its rank in the score order. Whatever the
      visiting order, as long as it visits each index of the batch once,
      slot `b` ends up holding the chunk of entry `start + b`. */
  method FillBatch(fetch: Fetcher, layout: Layout, index: seq<Entry>, order: array<nat>, start: nat, count: nat,
                   batch1: array<string>, batch2: array<string>, paired: bool)
    requires count <= order.Length && count <= batch1.Length && count <= batch2.Length && batch1 != batch2
    requires start + count <= |index|
    requires multiset(order[..count]) == multiset(Range(start, count))
    modifies batch1, batch2
    ensures forall b :: 0 <= b < count ==> batch1[b] == Fetched(fetch, layout, index[start + b], false)
    ensures paired ==> forall b :: 0 <= b < count ==> batch2[b] == Fetched(fetch, layout, index[start + b], true)
  {
    ghost var visit := order[..count];
    RangeMembers(start, count);
    forall m | 0 <= m < count
      ensures start <= visit[m] < start + count
    {
      assert visit[m] in multiset(visit);
    }
    var n := 0;
    while n < count
      invariant n <= count
      invariant forall b :: 0 <= b < count && start + b in visit[..n] ==> batch1[b] == Fetched(fetch, layout, index[start + b], false)
      invariant paired ==> forall b :: 0 <= b < count && start + b in visit[..n] ==> batch2[b] == Fetched(fetch, layout, index[start + b], true)
    {
      var i := order[n];
      assert i == visit[n];
      var slot := i - start;
      var chunks := fetch(layout, index[i].pos1, index[i].pos2);
      batch1[slot] := chunks.0;
      if paired {
        batch2[slot] := chunks.1;
      }
      var next := n + 1;
      assert visit[..next] == visit[..n] + [i];
      n := next;
    }
    assert visit[..n] == visit;
    forall b | 0 <= b < count
      ensures batch1[b] == Fetched(fetch, layout, index[start + b], false)
      ensures paired ==> batch2[b] == Fetched(fetch, layout, index[start + b], true)
    {
      assert start + b in multiset(Range(start, count));
      assert start + b in visit[..n];
    }
  }

  /** The chunks of one batch, appended to an output in slot order. */
  method Flush(out: seq<string>, batch: array<string>, count: nat) returns (more: seq<string>)
    requires count <= batch.Length
    ensures more == out + batch[..count]
  {
    more := out;
    var n := 0;
    while n < count
      invariant n <= count && more == out + batch[..n]
    {
      var next := n + 1;
      assert batch[..next] == batch[..n] + [batch[n]];
      more := more + [batch[n]];
      n := next;
    }
  }

  /** A batch's chunks, in slot order, extend the rewrite of the entries
      before it to the rewrite of the entries up to its end. */
  lemma AppendBatch(f: Entry -> string, sorted: seq<Entry>, start: nat, count: nat, batch: seq<string>)
    requires start + count <= |sorted| && |batch| == count
    requires forall b :: 0 <= b < count ==> batch[b] == f(sorted[start + b])
    ensures Map(f, sorted[..start]) + batch == Map(f, sorted[..start + count])
  {
    var end := start + count;
    assert sorted[..end] == sorted[..start] + sorted[start..end];
    MapAppend(f, sorted[..start], sorted[start..end]);
    assert Map(f, sorted[start..end]) == batch;
  }

  /** One batch: the entries `start .. start + count` of the score order
      are ordered by file position, fetched in that order into their
      slots, and the slots are appended to the outputs. The buffers are
      allocated once and reused by every batch. */
  method WriteBatch(fetch: Fetcher, layout: Layout, sorted: seq<Entry>, start: nat, count: nat, paired: bool,
                    order: array<nat>, batch1: array<string>, batch2: array<string>, out1: seq<string>, out2: seq<string>)
    returns (next1: seq<string>, next2: seq<string>)
    requires count <= order.Length && count <= batch1.Length && count <= batch2.Length && batch1 != batch2
    requires start + count <= |sorted|
    requires out1 == Map(Rewrite(fetch, layout, false), sorted[..start])
    requires out2 == (if paired then Map(Rewrite(fetch, layout, true), sorted[..start]) else [])
    modifies order, batch1, batch2
    ensures next1 == Map(Rewrite(fetch, layout, false), sorted[..start + count])
    ensures next2 == (if paired then Map(Rewrite(fetch, layout, true), sorted[..start + count]) else [])
  {
    OrderBatch(order, sorted, start, count);
    FillBatch(fetch, layout, sorted, order, start, count, batch1, batch2, paired);
    AppendBatch(Rewrite(fetch, layout, false), sorted, start, count, batch1[..count]);
    next1 := Flush(out1, batch1, count);
    next2 := out2;
    if paired {
      AppendBatch(Rewrite(fetch, layout, true), sorted, start, count, batch2[..count]);
      next2 := Flush(out2, batch2, count);
    }
  }

  /** The batched rewrite: batches of `batchSize` consecutive entries of
      the score order (the last one possibly shorter), each visited in
      file order and written in score order. The outputs are the entries'
      chunks in score order, the two outputs of a pair at the same place. */
  method WriteBatches(fetch: Fetcher, layout: Layout, sorted: seq<Entry>, batchSize: nat, paired: bool)
    returns (out1: seq<string>, out2: seq<string>)
    requires batchSize > 0
    ensures out1 == Map(Rewrite(fetch, layout, false), sorted)
    ensures out2 == (if paired then Map(Rewrite(fetch, layout, true), sorted) else [])
  {
    var order := new nat[batchSize];
    var batch1 := new string[batchSize](_ => "");
    var batch2 := new string[batchSize](_ => "");
    out1, out2 := [], [];
    var numReads := |sorted|;
    var numWritten := 0;
    ghost var done := 0;
    while numWritten < numReads
      invariant done == (if numWritten < numReads then numWritten else numReads)
      invariant out1 == Map(Rewrite(fetch, layout, false), sorted[..done])
      invariant out2 == (if paired then Map(Rewrite(fetch, layout, true), sorted[..done]) else [])
      decreases numReads - numWritten
    {
      var numAvailable := if numReads - numWritten < batchSize then numReads - numWritten else batchSize;
      var end := numWritten + numAvailable;
      out1, out2 := WriteBatch(fetch, layout, sorted, numWritten, numAvailable, paired, order, batch1, batch2, out1, out2);
      done := end;
      numWritten := numWritten + batchSize;
    }
    assert sorted[..done] == sorted;
  }

  /** The chunks output `1` (or `2`) holds after a run: the chunks at the
      positions of the index entries, in score order. */
  function Permuted(fetch: Fetcher, layout: Layout, t: ScoreType, key: KeyFn, p: Params, recs: seq<Record>, second: bool): seq<string>
    requires ValidParams(p) && KeyWidth(key, p.reps)
  {
    Map(Rewrite(fetch, FetchLayout(layout), second), SortBy(Scored(t, key, p, recs), ScoreOf))
  }

  /** When re-parsing at a record's positions gives back that record's
      chunk, the output holds every record's chunk exactly once: the run
      permutes its input. */
  lemma RewriteKeepsEveryRecord(fetch: Fetcher, layout: Layout, t: ScoreType, key: KeyFn, p: Params, recs: seq<Record>, second: bool)
    requires ValidParams(p) && KeyWidth(key, p.reps)
    requires forall d :: 0 <= d < |recs| ==> fetch(FetchLayout(layout), recs[d].pos1, recs[d].pos2).0 == recs[d].chunk1
    requires second ==> forall d :: 0 <= d < |recs| ==> fetch(FetchLayout(layout), recs[d].pos1, recs[d].pos2).1 == recs[d].chunk2
    ensures multiset(Permuted(fetch, layout, t, key, p, recs, second))
            == multiset(seq(|recs|, d requires 0 <= d < |recs| => Chunk(recs[d], second)))
  {
    var index := Scored(t, key, p, recs);
    var f := Rewrite(fetch, FetchLayout(layout), second);
    MapPreservesPermutation(f, SortBy(index, ScoreOf), index);
    assert Map(f, index) == seq(|recs|, d requires 0 <= d < |recs| => Chunk(recs[d], second));
  }

  /** `permuterace <format> <input(s)> <output(s)> [--chunksize n]
      [--scoretype R|N|F]`. Any invalid argument ends the run with status
      -1 before a record is read. */
  method PermuteRace(hash: HashFn, read: Reader, fetch: Fetcher, formatArg: string, input1: string, input2: string,
                     p: Params, batchSize: int, scoreArg: Option<string>)
    returns (status: Status, out1: seq<string>, out2: seq<string>)
    ensures status == Exited(0) || status == Exited(-1)
    ensures status == Exited(0) <==>
              && LayoutOf(formatArg).Some? && InputExtensionAsWritten(input1).Ok? && ScoreTypeOf(scoreArg).Some?
              && ValidParams(p) && batchSize > 0
    ensures ExtensionOf(input1) == Some("fq") ==> status == Exited(-1)
    ensures status == Exited(-1) ==> out1 == [] && out2 == []
    ensures status == Exited(0) ==>
              var layout := LayoutOf(formatArg).value;
              var recs := Recs(read(layout, input1, input2, InputExtensionAsWritten(input1).value));
              var t := ScoreTypeOf(scoreArg).value;
              && out1 == Permuted(fetch, layout, t, KeyOf(hash, p), p, recs, false)
              && out2 == (if layout == PE then Permuted(fetch, layout, t, KeyOf(hash, p), p, recs, true) else [])
  {
    out1, out2 := [], [];
    var layout := LayoutOf(formatArg);
    if layout.None? {
      return Exited(-1), out1, out2;
    }
    var ext := InputExtensionAsWritten(input1);
    if ext.Err? {
      return Exited(-1), out1, out2;
    }
    var scoreType := ScoreTypeOf(scoreArg);
    if scoreType.None? || !ValidParams(p) || batchSize <= 0 {
      return Exited(-1), out1, out2;
    }
    ghost var key := KeyOf(hash, p);
    var mh, raw, folded, sketch := Setup(p);
    var attempts := read(layout.value, input1, input2, ext.value);
    var index := BuildIndex(hash, p, key, mh, raw, folded, sketch, attempts);
    if scoreType.value == Normalized {
      index := NormalizeScores(index);
    } else if scoreType.value == Full {
      var again := read(layout.value, input1, input2, ext.value);
      index := RescoreFull(hash, p, key, mh, raw, folded, sketch, again, index);
    }
    ghost var recs := Recs(attempts);
    assert index == Scored(scoreType.value, key, p, recs);
    var sorted := SortBy(index, ScoreOf);
    out1, out2 := WriteBatches(fetch, FetchLayout(layout.value), sorted, batchSize, layout.value == PE);
    assert out1 == Permuted(fetch, layout.value, scoreType.value, key, p, recs, false);
    status := Exited(0);
  }
}
