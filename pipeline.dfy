/** What every front end shares: the record layouts, the per-record key
    (fingerprint, then fold), the score step against the sketch, and the
    keep rule `score < tau`. The layout-specific parsers
    `SequenceFeaturesSE/I/PE` are not part of this model: a stream is the
    sequence of their attempts, each failed or yielding a record. */
module Pipeline {
  import opened Hashing
  import opened MinHash
  import opened Fold
  import opened Sketch
  import opened Sorting
  import opened Outcomes

  /** The `format` argument: single-end, interleaved or paired-end reads. */
  datatype Layout = SE | I | PE

  function LayoutOf(arg: string): (l: Option<Layout>)
    ensures l == Some(SE) <==> arg == "SE"
    ensures l == Some(I) <==> arg == "I"
    ensures l == Some(PE) <==> arg == "PE"
  {
    if arg == "SE" then Some(SE) else if arg == "I" then Some(I) else if arg == "PE" then Some(PE) else None
  }

  /** `--range`, `--reps`, `--hashes` and `--k`. */
  datatype Params = Params(range: int, reps: int, hashPower: int, k: int)

  /** The front ends refuse a non-positive value of any of them. */
  predicate ValidParams(p: Params) {
    p.range > 0 && p.reps > 0 && p.hashPower > 0 && p.k > 0
  }

  /** One parsed record: the sequence line, the raw chunk(s), and the
      stream position(s) captured just before parsing it. */
  datatype Record = Record(sequence: string, chunk1: string, chunk2: string, pos1: int, pos2: int)

  datatype Attempt = Failed | Parsed(rec: Record)

  /** The attempts the layout's parser makes on the named input(s) (the
      second name is unused except for paired-end reads), with the given
      file extension, in stream order. */
  type Reader = (Layout, string, string, string) -> seq<Attempt>

  /** The records of the successful attempts, in order. */
  function Recs(attempts: seq<Attempt>): (rs: seq<Record>)
    ensures |rs| <= |attempts|
  {
    if attempts == [] then []
    else
      var last := attempts[|attempts| - 1];
      Recs(attempts[..|attempts| - 1]) + (if last.Parsed? then [last.rec] else [])
  }

  lemma {:induction false} RecsAppend(a: seq<Attempt>, b: seq<Attempt>)
    ensures Recs(a + b) == Recs(a) + Recs(b)
    decreases |b|
  {
    if b == [] {
      assert a + b == a;
    } else {
      assert (a + b)[..|a + b| - 1] == a + b[..|b| - 1];
      RecsAppend(a, b[..|b| - 1]);
    }
  }

  /** The first attempt's record, if any, comes first. */
  lemma RecsFront(attempts: seq<Attempt>)
    requires attempts != []
    ensures Recs(attempts) == (if attempts[0].Parsed? then [attempts[0].rec] else []) + Recs(attempts[1..])
  {
    assert attempts == [attempts[0]] + attempts[1..];
    RecsAppend([attempts[0]], attempts[1..]);
    assert Recs([attempts[0]]) == Recs([]) + (if attempts[0].Parsed? then [attempts[0].rec] else []);
  }

  /** A failed parse contributes no record, wherever it occurs: the sketch
      and the outputs, both functions of the records alone, are the same
      as without it. */
  lemma FailedAttemptsChangeNothing(a: seq<Attempt>, b: seq<Attempt>)
    ensures Recs(a + [Failed] + b) == Recs(a + b)
  {
    RecsAppend(a + [Failed], b);
    RecsAppend(a, [Failed]);
    RecsAppend(a, b);
    assert Recs([Failed]) == Recs([]) + [];
  }

  /** The folded key of a sequence: `reps * hashPower` MinHash lanes, folded
      to `reps` values. */
  function Key(hash: HashFn, p: Params, sequence: string): (key: seq<int32>)
    requires ValidParams(p)
    ensures |key| == p.reps
  {
    OffsetIsProduct(p.reps, p.hashPower);
    Folded(hash, Fingerprint(hash, p.k, sequence, p.reps * p.hashPower), p.reps, p.hashPower)
  }

  /** What a run computes for each sequence: its key. The stream-level
      definitions below take the key function as a value, so that they
      do not depend on how a key is computed. */
  type KeyFn = string -> seq<int32>

  /** Every key has `reps` values. */
  ghost predicate KeyWidth(key: KeyFn, reps: int) {
    forall s :: |key(s)| == reps
  }

  /** `key` gives the key `Key` gives, for every sequence. */
  ghost predicate IsKeyOf(key: KeyFn, hash: HashFn, p: Params) {
    && ValidParams(p) && KeyWidth(key, p.reps)
    && forall s {:trigger Key(hash, p, s)} :: key(s) == Key(hash, p, s)
  }

  /** The key function of a run with this hash and these parameters. */
  function KeyOf(hash: HashFn, p: Params): (key: KeyFn)
    requires ValidParams(p)
    ensures IsKeyOf(key, hash, p)
  {
    s => Key(hash, p, s)
  }

  /** The keys of a stream's records, in order. */
  function Keys(key: KeyFn, recs: seq<Record>): (keys: seq<seq<int32>>)
    ensures |keys| == |recs|
    ensures forall i :: 0 <= i < |recs| ==> keys[i] == key(recs[i].sequence)
  {
    seq(|recs|, i requires 0 <= i < |recs| => key(recs[i].sequence))
  }

  lemma KeysFitWidth(key: KeyFn, reps: nat, recs: seq<Record>)
    requires KeyWidth(key, reps)
    ensures KeysFit(Keys(key, recs), reps)
  {
  }

  /** The objects a run allocates once: the MinHash of `reps * hashPower`
      lanes, the buffers `raw_hashes` and `rehashes`, and a fresh sketch. */
  method Setup(p: Params) returns (mh: SequenceMinHash, raw: array<int32>, folded: array<int32>, sketch: Race)
    requires ValidParams(p)
    ensures fresh(mh) && fresh(raw) && fresh(folded) && fresh(sketch) && raw != folded
    ensures mh.numHashes == p.reps * p.hashPower && raw.Length == p.reps * p.hashPower && folded.Length == p.reps
    ensures sketch.Valid() && sketch.reps == p.reps && sketch.range == p.range
    ensures sketch.counts == Zero(p.reps, p.range)
  {
    mh := new SequenceMinHash(p.reps * p.hashPower);
    raw := new int32[p.reps * p.hashPower];
    folded := new int32[p.reps];
    sketch := new Race(p.reps, p.range);
  }

  /** `getHash` into `raw`, then `rehash` into `folded`: the folded buffer
      ends up holding the sequence's key. */
  method FoldedKey(hash: HashFn, p: Params, mh: SequenceMinHash, raw: array<int32>, folded: array<int32>, sequence: string)
    requires ValidParams(p) && mh.numHashes == p.reps * p.hashPower
    requires raw.Length == p.reps * p.hashPower && folded.Length == p.reps && raw != folded
    modifies raw, folded
    ensures folded[..] == Key(hash, p, sequence)
  {
    OffsetIsProduct(p.reps, p.hashPower);
    mh.GetHash(hash, p.k, sequence, raw);
    assert raw[..] == Fingerprint(hash, p.k, sequence, p.reps * p.hashPower);
    Rehash(hash, raw, folded, p.reps, p.hashPower);
    assert raw[..Offset(p.reps, p.hashPower)] == raw[..];
    assert folded[..] == folded[..p.reps];
  }

  /** One record through the pipeline: its key, then `query_and_add`. The
      two buffers are allocated once by the caller and reused for every
      record. */
  method ScoreRecord(hash: HashFn, p: Params, mh: SequenceMinHash, raw: array<int32>, folded: array<int32>,
                     sketch: Race, sequence: string) returns (score: nat)
    requires ValidParams(p) && mh.numHashes == p.reps * p.hashPower
    requires raw.Length == p.reps * p.hashPower && folded.Length == p.reps && raw != folded
    requires sketch.Valid() && sketch.reps == p.reps && sketch.range == p.range
    modifies raw, folded, sketch
    ensures sketch.Valid()
    ensures score == Estimate(old(sketch.counts), Key(hash, p, sequence), p.range)
    ensures sketch.counts == Increment(old(sketch.counts), Key(hash, p, sequence), p.range)
  {
    FoldedKey(hash, p, mh, raw, folded, sequence);
    score := sketch.QueryAndAdd(folded);
  }

  /** The positions, in stream order, of the scores below `tau`. */
  function Selected(scores: seq<nat>, tau: real): (sel: seq<nat>)
    ensures forall j :: 0 <= j < |sel| ==> sel[j] < |scores|
  {
    if scores == [] then []
    else
      var n := |scores| - 1;
      Selected(scores[..n], tau) + (if (scores[n] as real) < tau then [n] else [])
  }

  /** The keep rule: position `i` is selected exactly when its score is
      below `tau`, and selected positions keep stream order. */
  lemma {:induction false} SelectedIsKeepRule(scores: seq<nat>, tau: real)
    ensures forall i :: i in Selected(scores, tau) <==> 0 <= i < |scores| && (scores[i] as real) < tau
    ensures forall a, b :: 0 <= a < b < |Selected(scores, tau)| ==> Selected(scores, tau)[a] < Selected(scores, tau)[b]
  {
    if scores != [] {
      var n := |scores| - 1;
      SelectedIsKeepRule(scores[..n], tau);
    }
  }

  /** Every threshold judges the same score, so a smaller threshold keeps a
      subset of what a larger one keeps. */
  lemma SmallerTauKeepsSubset(scores: seq<nat>, tau1: real, tau2: real)
    requires tau1 <= tau2
    ensures forall i :: i in Selected(scores, tau1) ==> i in Selected(scores, tau2)
  {
    SelectedIsKeepRule(scores, tau1);
    SelectedIsKeepRule(scores, tau2);
  }

  /** The chunks a threshold writes to output `1` (or `2` when `second`),
      in stream order. */
  function Kept(recs: seq<Record>, scores: seq<nat>, tau: real, second: bool): seq<string>
    requires |recs| == |scores|
  {
    if recs == [] then []
    else
      var n := |recs| - 1;
      Kept(recs[..n], scores[..n], tau, second)
        + (if (scores[n] as real) < tau then [if second then recs[n].chunk2 else recs[n].chunk1] else [])
  }

  function Chunk(r: Record, second: bool): string {
    if second then r.chunk2 else r.chunk1
  }

  /** What a threshold writes is the chunk of each selected record, in
      order; in paired mode both outputs take the same records at the same
      positions, so a record's two chunks are written together or not at
      all. */
  lemma {:induction false} KeptAreSelectedChunks(recs: seq<Record>, scores: seq<nat>, tau: real, second: bool)
    requires |recs| == |scores|
    ensures var sel := Selected(scores, tau);
            && |Kept(recs, scores, tau, second)| == |sel|
            && forall j :: 0 <= j < |sel| ==> Kept(recs, scores, tau, second)[j] == Chunk(recs[sel[j]], second)
  {
    if recs != [] {
      var n := |recs| - 1;
      KeptAreSelectedChunks(recs[..n], scores[..n], tau, second);
    }
  }

  /** Appending a record to a stream appends its key, adds it to the
      counters, and appends the score it gets against the counters of the
      records before it. */
  lemma RecordStep(key: KeyFn, p: Params, c0: Counters, recs: seq<Record>, r: Record)
    requires ValidParams(p) && KeyWidth(key, p.reps) && Shaped(c0, p.reps, p.range)
    ensures Keys(key, recs + [r]) == Keys(key, recs) + [key(r.sequence)]
    ensures AddAll(c0, Keys(key, recs + [r]), p.range)
            == Increment(AddAll(c0, Keys(key, recs), p.range), key(r.sequence), p.range)
    ensures CausalScores(c0, Keys(key, recs + [r]), p.range)
            == CausalScores(c0, Keys(key, recs), p.range) + [Estimate(AddAll(c0, Keys(key, recs), p.range), key(r.sequence), p.range)]
  {
    var keys := Keys(key, recs);
    var k := key(r.sequence);
    assert Keys(key, recs + [r]) == keys + [k];
    assert (keys + [k])[..|keys|] == keys;
    CausalScoresSnoc(c0, keys, k, p.range);
  }

  /** One more attempt: a parsed record joins the stream, a failed one
      adds nothing. */
  lemma RecsStep(attempts: seq<Attempt>, i: nat)
    requires i < |attempts|
    ensures Recs(attempts[..i + 1]) == Recs(attempts[..i]) + (if attempts[i].Parsed? then [attempts[i].rec] else [])
  {
    assert attempts[..i + 1][..i] == attempts[..i];
  }

  /** Scores the next record of a stream whose earlier records `recs` the
      sketch, started from `c0`, has already taken in: the score is the
      record's causal score and the sketch has then taken it in too. */
  method ScoreNext(hash: HashFn, p: Params, ghost key: KeyFn, mh: SequenceMinHash, raw: array<int32>, folded: array<int32>,
                   sketch: Race, ghost c0: Counters, ghost recs: seq<Record>, r: Record) returns (score: nat)
    requires IsKeyOf(key, hash, p) && Shaped(c0, p.reps, p.range) && mh.numHashes == p.reps * p.hashPower
    requires raw.Length == p.reps * p.hashPower && folded.Length == p.reps && raw != folded
    requires sketch.Valid() && sketch.reps == p.reps && sketch.range == p.range
    requires sketch.counts == AddAll(c0, Keys(key, recs), p.range)
    modifies raw, folded, sketch
    ensures sketch.Valid()
    ensures sketch.counts == AddAll(c0, Keys(key, recs + [r]), p.range)
    ensures CausalScores(c0, Keys(key, recs + [r]), p.range) == CausalScores(c0, Keys(key, recs), p.range) + [score]
  {
    score := ScoreRecord(hash, p, mh, raw, folded, sketch, r.sequence);
    RecordStep(key, p, c0, recs, r);
  }

  lemma KeptSnoc(recs: seq<Record>, scores: seq<nat>, r: Record, s: nat, tau: real, second: bool)
    requires |recs| == |scores|
    ensures Kept(recs + [r], scores + [s], tau, second)
            == Kept(recs, scores, tau, second) + (if (s as real) < tau then [Chunk(r, second)] else [])
  {
    assert (recs + [r])[..|recs|] == recs;
    assert (scores + [s])[..|scores|] == scores;
  }

  lemma {:induction false} KeptSplit(a: seq<Record>, sa: seq<nat>, b: seq<Record>, sb: seq<nat>, tau: real, second: bool)
    requires |a| == |sa| && |b| == |sb|
    ensures Kept(a + b, sa + sb, tau, second) == Kept(a, sa, tau, second) + Kept(b, sb, tau, second)
    decreases |b|
  {
    if b == [] {
      assert a + b == a && sa + sb == sa;
    } else {
      var n := |b| - 1;
      KeptSplit(a, sa, b[..n], sb[..n], tau, second);
      SnocOfAppend(a, b);
      SnocOfAppend(sa, sb);
      KeptSnoc(a + b[..n], sa + sb[..n], b[n], sb[n], tau, second);
      KeptSnoc(b[..n], sb[..n], b[n], sb[n], tau, second);
      assert b == b[..n] + [b[n]] && sb == sb[..n] + [sb[n]];
    }
  }

  /** A stream cut in two: the second part is scored against counters that
      already hold the first part, and what it keeps is appended to what
      the first part kept. This is how one sketch carries over from one
      input file to the next, and from one saved run to the next. */
  lemma SplitStream(key: KeyFn, p: Params, c0: Counters, a: seq<Record>, b: seq<Record>, tau: real, second: bool)
    requires ValidParams(p) && KeyWidth(key, p.reps) && Shaped(c0, p.reps, p.range)
    ensures AddAll(c0, Keys(key, a + b), p.range)
            == AddAll(AddAll(c0, Keys(key, a), p.range), Keys(key, b), p.range)
    ensures Kept(a + b, CausalScores(c0, Keys(key, a + b), p.range), tau, second)
            == Kept(a, CausalScores(c0, Keys(key, a), p.range), tau, second)
               + Kept(b, CausalScores(AddAll(c0, Keys(key, a), p.range), Keys(key, b), p.range), tau, second)
  {
    var ka, kb := Keys(key, a), Keys(key, b);
    assert Keys(key, a + b) == ka + kb;
    AddAllSplit(c0, ka, kb, p.range);
    CausalScoresSplit(c0, ka, kb, p.range);
    KeptSplit(a, CausalScores(c0, ka, p.range), b, CausalScores(AddAll(c0, ka, p.range), kb, p.range), tau, second);
  }

  /** The scores the records of a stream get from a sketch that starts
      from counters `c0`. */
  function StreamScores(key: KeyFn, p: Params, c0: Counters, recs: seq<Record>): (scores: seq<nat>)
    requires ValidParams(p) && KeyWidth(key, p.reps) && Shaped(c0, p.reps, p.range)
    ensures |scores| == |recs|
  {
    CausalScores(c0, Keys(key, recs), p.range)
  }

  /** The counters once the sketch has taken in the records of a stream. */
  function StreamCounts(key: KeyFn, p: Params, c0: Counters, recs: seq<Record>): (c: Counters)
    requires ValidParams(p) && KeyWidth(key, p.reps) && Shaped(c0, p.reps, p.range)
    ensures Shaped(c, p.reps, p.range)
  {
    AddAll(c0, Keys(key, recs), p.range)
  }
}
