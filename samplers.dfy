/** The three sampling front ends. Each streams records through one
    sketch and writes a record's chunk to a threshold's output when the
    score `query_and_add` gives it is below the threshold.
    `samplerace` takes one threshold and one input; the many-files front
    end takes a threshold list and a file of input names, sharing one
    sketch across all of them; the savable front end takes a threshold
    list and a savefile that carries the sketch from one run to the next. */
module Samplers {
  import opened Outcomes
  import opened Hashing
  import opened MinHash
  import opened Sketch
  import opened Pipeline
  import opened FrontEnd

  /** Per-threshold outputs: output `t` holds what it held before, then
      the chunks threshold `taus[t]` keeps, in stream order. */
  function Outputs(prior: seq<seq<string>>, recs: seq<Record>, scores: seq<nat>, taus: seq<real>, second: bool): (outs: seq<seq<string>>)
    requires |prior| == |taus| && |recs| == |scores|
    ensures |outs| == |taus|
  {
    seq(|taus|, t requires 0 <= t < |taus| => prior[t] + Kept(recs, scores, taus[t], second))
  }

  /** `n` freshly truncated outputs. */
  function Empties(n: nat): (outs: seq<seq<string>>)
    ensures |outs| == n && forall t :: 0 <= t < n ==> outs[t] == []
  {
    seq(n, t => [])
  }

  /** What a run leaves in its outputs: each output's prior content, then
      the chunks its threshold keeps as `recs` stream through a sketch
      that starts from counters `c0`. */
  function Sampled(key: KeyFn, p: Params, c0: Counters, prior: seq<seq<string>>, recs: seq<Record>, taus: seq<real>, second: bool)
    : (outs: seq<seq<string>>)
    requires ValidParams(p) && KeyWidth(key, p.reps) && Shaped(c0, p.reps, p.range) && |prior| == |taus|
    ensures |outs| == |taus|
  {
    Outputs(prior, recs, StreamScores(key, p, c0, recs), taus, second)
  }

  /** Before any record, every output holds what it held before. */
  lemma OutputsOfNothing(prior: seq<seq<string>>, taus: seq<real>, second: bool)
    requires |prior| == |taus|
    ensures Outputs(prior, [], [], taus, second) == prior
  {
    forall t | 0 <= t < |taus|
      ensures Outputs(prior, [], [], taus, second)[t] == prior[t]
    {
      assert Kept([], [], taus[t], second) == [];
    }
  }

  /** Before any record, the outputs hold what they held and the sketch
      its starting counters. */
  lemma SampledNothing(key: KeyFn, p: Params, c0: Counters, outs1: seq<seq<string>>, outs2: seq<seq<string>>, taus: seq<real>)
    requires ValidParams(p) && KeyWidth(key, p.reps) && Shaped(c0, p.reps, p.range) && |outs1| == |taus|
    ensures Sampled(key, p, c0, outs1, [], taus, false) == outs1
    ensures |outs2| == |taus| ==> Sampled(key, p, c0, outs2, [], taus, true) == outs2
    ensures StreamCounts(key, p, c0, []) == c0
  {
    OutputsOfNothing(outs1, taus, false);
    if |outs2| == |taus| {
      OutputsOfNothing(outs2, taus, true);
    }
  }

  /** One more record: every output whose threshold exceeds the score
      gains the record's chunk, and no other output changes. */
  lemma OutputsStep(prior: seq<seq<string>>, recs: seq<Record>, scores: seq<nat>, r: Record, s: nat, taus: seq<real>, second: bool,
                    next: seq<seq<string>>)
    requires |prior| == |taus| && |recs| == |scores| && |next| == |taus|
    requires forall t :: 0 <= t < |taus| ==>
               next[t] == Outputs(prior, recs, scores, taus, second)[t] + (if (s as real) < taus[t] then [Chunk(r, second)] else [])
    ensures next == Outputs(prior, recs + [r], scores + [s], taus, second)
  {
    forall t | 0 <= t < |taus|
      ensures next[t] == Outputs(prior, recs + [r], scores + [s], taus, second)[t]
    {
      KeptSnoc(recs, scores, r, s, taus[t], second);
    }
  }

  /** The threshold loop for one scored record: output `t` (and, for
      paired reads, its mate output) gains the chunk when the score is
      below `taus[t]`. */
  method Deliver(outs1: seq<seq<string>>, outs2: seq<seq<string>>, taus: seq<real>, score: nat, r: Record, paired: bool)
    returns (next1: seq<seq<string>>, next2: seq<seq<string>>)
    requires |outs1| == |taus| && |outs2| == (if paired then |taus| else 0)
    ensures |next1| == |taus| && |next2| == |outs2|
    ensures forall t :: 0 <= t < |taus| ==>
              next1[t] == outs1[t] + (if (score as real) < taus[t] then [Chunk(r, false)] else [])
    ensures paired ==> forall t :: 0 <= t < |taus| ==>
              next2[t] == outs2[t] + (if (score as real) < taus[t] then [Chunk(r, true)] else [])
    ensures !paired ==> next2 == outs2
  {
    next1, next2 := outs1, outs2;
    var t := 0;
    while t < |taus|
      invariant t <= |taus| && |next1| == |taus| && |next2| == |outs2|
      invariant forall u :: 0 <= u < t ==> next1[u] == outs1[u] + (if (score as real) < taus[u] then [r.chunk1] else [])
      invariant forall u :: t <= u < |taus| ==> next1[u] == outs1[u]
      invariant paired ==> forall u :: 0 <= u < t ==> next2[u] == outs2[u] + (if (score as real) < taus[u] then [r.chunk2] else [])
      invariant paired ==> forall u :: t <= u < |taus| ==> next2[u] == outs2[u]
      invariant !paired ==> next2 == outs2
    {
      if (score as real) < taus[t] {
        next1 := next1[t := next1[t] + [r.chunk1]];
        if paired {
          next2 := next2[t := next2[t] + [r.chunk2]];
        }
      }
      t := t + 1;
    }
  }

  /** Where a record loop stands: the sketch's counters, the scores the
      records so far got (ghost bookkeeping) and the two outputs. */
  datatype Stage<T> = Stage(counts: Counters, scores: seq<nat>, out1: T, out2: T)

  /** The stage `samplerace`'s record loop reaches after `recs`. */
  ghost function KeptStage(key: KeyFn, p: Params, c0: Counters, recs: seq<Record>, tau: real, paired: bool): Stage<seq<string>>
    requires ValidParams(p) && KeyWidth(key, p.reps) && Shaped(c0, p.reps, p.range)
  {
    var scores := StreamScores(key, p, c0, recs);
    Stage(StreamCounts(key, p, c0, recs), scores, Kept(recs, scores, tau, false),
          if paired then Kept(recs, scores, tau, true) else [])
  }

  /** One more record, scored `score` against the records before it:
      the chunk (and its mate's) is kept exactly when `score < tau`. */
  lemma KeptStageSnoc(key: KeyFn, p: Params, c0: Counters, recs: seq<Record>, r: Record, score: nat, tau: real, paired: bool)
    requires ValidParams(p) && KeyWidth(key, p.reps) && Shaped(c0, p.reps, p.range)
    requires StreamScores(key, p, c0, recs + [r]) == StreamScores(key, p, c0, recs) + [score]
    ensures var before := KeptStage(key, p, c0, recs, tau, paired);
            var after := KeptStage(key, p, c0, recs + [r], tau, paired);
            var keep := (score as real) < tau;
            && after.scores == before.scores + [score]
            && after.out1 == before.out1 + (if keep then [r.chunk1] else [])
            && after.out2 == (if paired then before.out2 + (if keep then [r.chunk2] else []) else [])
  {
    var scores := StreamScores(key, p, c0, recs);
    KeptSnoc(recs, scores, r, score, tau, false);
    KeptSnoc(recs, scores, r, score, tau, true);
  }

  /** One parsed record in `samplerace`'s loop: it is scored against the
      records before it and kept (with its mate) when the score is below
      `tau`. */
  method KeepNext(hash: HashFn, p: Params, ghost key: KeyFn, mh: SequenceMinHash, raw: array<int32>, folded: array<int32>, sketch: Race,
                  ghost c0: Counters, ghost recs: seq<Record>, ghost scores: seq<nat>, r: Record, tau: real, paired: bool,
                  out1: seq<string>, out2: seq<string>)
    returns (score: nat, next1: seq<string>, next2: seq<string>)
    requires IsKeyOf(key, hash, p) && Shaped(c0, p.reps, p.range) && mh.numHashes == p.reps * p.hashPower
    requires raw.Length == p.reps * p.hashPower && folded.Length == p.reps && raw != folded
    requires sketch.Valid() && sketch.reps == p.reps && sketch.range == p.range
    requires Stage(sketch.counts, scores, out1, out2) == KeptStage(key, p, c0, recs, tau, paired)
    modifies raw, folded, sketch
    ensures sketch.Valid()
    ensures Stage(sketch.counts, scores + [score], next1, next2) == KeptStage(key, p, c0, recs + [r], tau, paired)
  {
    score := ScoreNext(hash, p, key, mh, raw, folded, sketch, c0, recs, r);
    KeptStageSnoc(key, p, c0, recs, r, score, tau, paired);
    next1, next2 := out1, out2;
    if (score as real) < tau {
      next1 := next1 + [r.chunk1];
      if paired {
        next2 := next2 + [r.chunk2];
      }
    }
    ghost var after := KeptStage(key, p, c0, recs + [r], tau, paired);
    assert sketch.counts == after.counts && scores + [score] == after.scores;
    assert next1 == after.out1 && next2 == after.out2;
  }

  /** The record loop of `samplerace`: each parsed record is scored
      against the records before it, then kept (both mates for
      paired-end reads) when its score is below `tau`. */
  method KeepBelow(hash: HashFn, p: Params, ghost key: KeyFn, mh: SequenceMinHash, raw: array<int32>, folded: array<int32>, sketch: Race,
                   ghost c0: Counters, attempts: seq<Attempt>, tau: real, paired: bool)
    returns (out1: seq<string>, out2: seq<string>)
    requires IsKeyOf(key, hash, p) && mh.numHashes == p.reps * p.hashPower
    requires raw.Length == p.reps * p.hashPower && folded.Length == p.reps && raw != folded
    requires sketch.Valid() && sketch.reps == p.reps && sketch.range == p.range && sketch.counts == c0
    modifies raw, folded, sketch
    ensures sketch.Valid()
    ensures var stage := KeptStage(key, p, c0, Recs(attempts), tau, paired);
            sketch.counts == stage.counts && out1 == stage.out1 && out2 == stage.out2
  {
    out1, out2 := [], [];
    ghost var recs: seq<Record> := [];
    ghost var scores: seq<nat> := [];
    var i := 0;
    assert attempts[..0] == [];
    while i < |attempts|
      invariant i <= |attempts| && recs == Recs(attempts[..i]) && sketch.Valid()
      invariant Stage(sketch.counts, scores, out1, out2) == KeptStage(key, p, c0, recs, tau, paired)
    {
      var next := i + 1;
      RecsStep(attempts, i);
      if attempts[i].Parsed? {
        var score;
        score, out1, out2 := KeepNext(hash, p, key, mh, raw, folded, sketch, c0, recs, scores, attempts[i].rec, tau, paired, out1, out2);
        recs, scores := recs + [attempts[i].rec], scores + [score];
      }
      assert recs == Recs(attempts[..next]);
      i := next;
    }
    assert attempts[..i] == attempts;
  }

  /** `samplerace <tau> <format> <input(s)> <output(s)>`. Any invalid
      argument ends the run with status -1 before a record is read. */
  method SampleRace(hash: HashFn, read: Reader, tau: real, formatArg: string, input1: string, input2: string, p: Params)
    returns (status: Status, out1: seq<string>, out2: seq<string>)
    ensures status == Exited(0) || status == Exited(-1)
    ensures status == Exited(0) <==>
              LayoutOf(formatArg).Some? && InputExtensionAsWritten(input1).Ok? && tau > 0.0 && ValidParams(p)
    ensures ExtensionOf(input1) == Some("fq") ==> status == Exited(-1)
    ensures status == Exited(-1) ==> out1 == [] && out2 == []
    ensures status == Exited(0) ==>
              var layout := LayoutOf(formatArg).value;
              var recs := Recs(read(layout, input1, input2, InputExtensionAsWritten(input1).value));
              var scores := StreamScores(KeyOf(hash, p), p, Zero(p.reps, p.range), recs);
              && out1 == Kept(recs, scores, tau, false)
              && out2 == (if layout == PE then Kept(recs, scores, tau, true) else [])
  {
    out1, out2 := [], [];
    var layout := LayoutOf(formatArg);
    if layout.None? {
      return Exited(-1), out1, out2;
    }
    var ext := InputExtensionAsWritten(input1);
    if ext.Err? {
      return Exited(-1), out1, out2;
    }
    if tau <= 0.0 || !ValidParams(p) {
      return Exited(-1), out1, out2;
    }
    var paired := layout.value == PE;
    var mh, raw, folded, sketch := Setup(p);
    var attempts := read(layout.value, input1, input2, ext.value);
    out1, out2 := KeepBelow(hash, p, KeyOf(hash, p), mh, raw, folded, sketch, Zero(p.reps, p.range), attempts, tau, paired);
    status := Exited(0);
  }

  /** The stage the threshold-list record loop reaches after `recs`,
      starting from outputs `prior1` and `prior2`. */
  ghost function SampledStage(key: KeyFn, p: Params, c0: Counters, recs: seq<Record>, taus: seq<real>,
                              prior1: seq<seq<string>>, prior2: seq<seq<string>>, paired: bool): Stage<seq<seq<string>>>
    requires ValidParams(p) && KeyWidth(key, p.reps) && Shaped(c0, p.reps, p.range)
    requires |prior1| == |taus| && |prior2| == (if paired then |taus| else 0)
  {
    Stage(StreamCounts(key, p, c0, recs), StreamScores(key, p, c0, recs), Sampled(key, p, c0, prior1, recs, taus, false),
          if paired then Sampled(key, p, c0, prior2, recs, taus, true) else prior2)
  }

  /** One parsed record in the threshold-list loop: it is scored against
      everything before it and delivered to every threshold above its
      score. */
  method DeliverNext(hash: HashFn, p: Params, ghost key: KeyFn, mh: SequenceMinHash, raw: array<int32>, folded: array<int32>, sketch: Race,
                     ghost c0: Counters, ghost recs: seq<Record>, ghost scores: seq<nat>, r: Record, taus: seq<real>, paired: bool,
                     ghost prior1: seq<seq<string>>, ghost prior2: seq<seq<string>>, outs1: seq<seq<string>>, outs2: seq<seq<string>>)
    returns (score: nat, next1: seq<seq<string>>, next2: seq<seq<string>>)
    requires IsKeyOf(key, hash, p) && Shaped(c0, p.reps, p.range) && mh.numHashes == p.reps * p.hashPower
    requires raw.Length == p.reps * p.hashPower && folded.Length == p.reps && raw != folded
    requires sketch.Valid() && sketch.reps == p.reps && sketch.range == p.range
    requires |prior1| == |taus| && |prior2| == (if paired then |taus| else 0)
    requires Stage(sketch.counts, scores, outs1, outs2) == SampledStage(key, p, c0, recs, taus, prior1, prior2, paired)
    modifies raw, folded, sketch
    ensures sketch.Valid()
    ensures Stage(sketch.counts, scores + [score], next1, next2) == SampledStage(key, p, c0, recs + [r], taus, prior1, prior2, paired)
  {
    score := ScoreNext(hash, p, key, mh, raw, folded, sketch, c0, recs, r);
    next1, next2 := Deliver(outs1, outs2, taus, score, r, paired);
    OutputsStep(prior1, recs, scores, r, score, taus, false, next1);
    if paired {
      OutputsStep(prior2, recs, scores, r, score, taus, true, next2);
    }
    ghost var after := SampledStage(key, p, c0, recs + [r], taus, prior1, prior2, paired);
    assert sketch.counts == after.counts && scores + [score] == after.scores;
    assert next1 == after.out1 && next2 == after.out2;
  }

  /** The record loop of the threshold-list front ends: each parsed
      record of one input is scored against everything the sketch has
      taken in before it (starting from counters `c0`), then delivered to
      the outputs of the thresholds its score is below. */
  method DeliverStream(hash: HashFn, p: Params, ghost key: KeyFn, mh: SequenceMinHash, raw: array<int32>, folded: array<int32>, sketch: Race,
                       ghost c0: Counters, attempts: seq<Attempt>, taus: seq<real>, paired: bool,
                       outs1: seq<seq<string>>, outs2: seq<seq<string>>)
    returns (next1: seq<seq<string>>, next2: seq<seq<string>>)
    requires IsKeyOf(key, hash, p) && mh.numHashes == p.reps * p.hashPower
    requires raw.Length == p.reps * p.hashPower && folded.Length == p.reps && raw != folded
    requires sketch.Valid() && sketch.reps == p.reps && sketch.range == p.range && sketch.counts == c0
    requires |outs1| == |taus| && |outs2| == (if paired then |taus| else 0)
    modifies raw, folded, sketch
    ensures sketch.Valid()
    ensures var stage := SampledStage(key, p, c0, Recs(attempts), taus, outs1, outs2, paired);
            sketch.counts == stage.counts && next1 == stage.out1 && next2 == stage.out2
  {
    next1, next2 := outs1, outs2;
    SampledNothing(key, p, c0, outs1, outs2, taus);
    ghost var recs: seq<Record> := [];
    ghost var scores: seq<nat> := [];
    var i := 0;
    assert attempts[..0] == [];
    while i < |attempts|
      invariant i <= |attempts| && recs == Recs(attempts[..i]) && sketch.Valid()
      invariant Stage(sketch.counts, scores, next1, next2) == SampledStage(key, p, c0, recs, taus, outs1, outs2, paired)
    {
      var next := i + 1;
      RecsStep(attempts, i);
      if attempts[i].Parsed? {
        var score;
        score, next1, next2 := DeliverNext(hash, p, key, mh, raw, folded, sketch, c0, recs, scores, attempts[i].rec, taus, paired,
                                           outs1, outs2, next1, next2);
        recs, scores := recs + [attempts[i].rec], scores + [score];
      }
      assert recs == Recs(attempts[..next]);
      i := next;
    }
    assert attempts[..i] == attempts;
  }

  /** The records of one listed file, given what its extension check
      gave: none when the extension is refused (the file is skipped),
      otherwise those its parser yields. */
  function FileRecs(read: Reader, layout: Layout, ext: Result<string>, name1: string, name2: string): seq<Record> {
    match ext
    case Err(_) => []
    case Ok(e) => Recs(read(layout, name1, name2, e))
  }

  /** The records of the first `n` listed files, in list order, one
      stream for one sketch; `exts` holds each file's extension check and
      the mate name is used only for paired-end reads. */
  function ListedRecs(read: Reader, layout: Layout, first: seq<string>, second: seq<string>, exts: seq<Result<string>>, n: nat): seq<Record>
    requires n <= |first| && n <= |exts| && (layout == PE ==> n <= |second|)
  {
    if n == 0 then []
    else ListedRecs(read, layout, first, second, exts, n - 1)
         + FileRecs(read, layout, exts[n - 1], first[n - 1], if layout == PE then second[n - 1] else "")
  }

  /** Whether every threshold read from the list is positive. */
  predicate TausValid(taus: seq<real>) {
    forall i :: 0 <= i < |taus| ==> taus[i] > 0.0
  }

  /** What one sketch and its outputs hold part way through the list. */
  datatype Progress = Progress(counts: Counters, outs1: seq<seq<string>>, outs2: seq<seq<string>>)

  /** Whether a state fits the sketch's shape and the threshold list. */
  predicate Fits(run: Progress, p: Params, taus: seq<real>, layout: Layout) {
    && ValidParams(p) && Shaped(run.counts, p.reps, p.range)
    && |run.outs1| == |taus| && |run.outs2| == (if layout == PE then |taus| else 0)
  }

  /** One listed file: its records (none when its extension is refused)
      stream through the sketch as the files before it left it, and
      each output gains the chunks its threshold keeps. */
  function FileStep(key: KeyFn, p: Params, read: Reader, layout: Layout, taus: seq<real>, prev: Progress,
                    ext: Result<string>, name1: string, name2: string): (next: Progress)
    requires ValidParams(p) && KeyWidth(key, p.reps) && Fits(prev, p, taus, layout)
    ensures Fits(next, p, taus, layout)
  {
    var recs := FileRecs(read, layout, ext, name1, name2);
    Progress(StreamCounts(key, p, prev.counts, recs),
             Sampled(key, p, prev.counts, prev.outs1, recs, taus, false),
             if layout == PE then Sampled(key, p, prev.counts, prev.outs2, recs, taus, true) else prev.outs2)
  }

  /** The state after the first `n` listed files, file by file. */
  function ListedRun(key: KeyFn, p: Params, read: Reader, layout: Layout, first: seq<string>, second: seq<string>,
                     exts: seq<Result<string>>, taus: seq<real>, start: Progress, n: nat)
    : (run: Progress)
    requires ValidParams(p) && KeyWidth(key, p.reps) && Fits(start, p, taus, layout)
    requires n <= |first| && |exts| == |first| && (layout == PE ==> |first| <= |second|)
    ensures Fits(run, p, taus, layout)
  {
    if n == 0 then start
    else FileStep(key, p, read, layout, taus, ListedRun(key, p, read, layout, first, second, exts, taus, start, n - 1),
                  exts[n - 1], first[n - 1], if layout == PE then second[n - 1] else "")
  }

  /** Going through the list file by file is one run of the sketch over
      the records of all the accepted files, in list order. */
  lemma {:induction false} ListedRunIsOneRun(key: KeyFn, p: Params, read: Reader, layout: Layout,
                                             first: seq<string>, second: seq<string>, exts: seq<Result<string>>,
                                             taus: seq<real>, start: Progress, n: nat)
    requires ValidParams(p) && KeyWidth(key, p.reps) && Fits(start, p, taus, layout)
    requires n <= |first| && |exts| == |first| && (layout == PE ==> |first| <= |second|)
    ensures var recs := ListedRecs(read, layout, first, second, exts, n);
            var c0 := start.counts;
            ListedRun(key, p, read, layout, first, second, exts, taus, start, n)
            == Progress(StreamCounts(key, p, c0, recs), Sampled(key, p, c0, start.outs1, recs, taus, false),
                        if layout == PE then Sampled(key, p, c0, start.outs2, recs, taus, true) else start.outs2)
  {
    if n == 0 {
      SampledNothing(key, p, start.counts, start.outs1, start.outs2, taus);
    } else {
      var m := n - 1;
      var mate := if layout == PE then second[m] else "";
      ListedRunIsOneRun(key, p, read, layout, first, second, exts, taus, start, m);
      var prev := ListedRun(key, p, read, layout, first, second, exts, taus, start, m);
      var before := ListedRecs(read, layout, first, second, exts, m);
      var recs := FileRecs(read, layout, exts[m], first[m], mate);
      assert ListedRun(key, p, read, layout, first, second, exts, taus, start, n)
             == FileStep(key, p, read, layout, taus, prev, exts[m], first[m], mate);
      assert ListedRecs(read, layout, first, second, exts, n) == before + recs;
      ResumedRunIsOneRun(key, p, start.counts, before, recs, start.outs1, taus, false);
      if layout == PE {
        ResumedRunIsOneRun(key, p, start.counts, before, recs, start.outs2, taus, true);
      }
    }
  }

  /** One listed file: skipped when its extension is refused, otherwise
      streamed through the sketch where the files before it left it. */
  method DeliverFile(hash: HashFn, p: Params, ghost key: KeyFn, mh: SequenceMinHash, raw: array<int32>, folded: array<int32>, sketch: Race,
                     read: Reader, layout: Layout, taus: seq<real>, ext: Result<string>, name1: string, name2: string,
                     outs1: seq<seq<string>>, outs2: seq<seq<string>>, ghost prev: Progress)
    returns (next1: seq<seq<string>>, next2: seq<seq<string>>)
    requires IsKeyOf(key, hash, p) && mh.numHashes == p.reps * p.hashPower
    requires raw.Length == p.reps * p.hashPower && folded.Length == p.reps && raw != folded
    requires sketch.Valid() && sketch.reps == p.reps && sketch.range == p.range
    requires prev == Progress(sketch.counts, outs1, outs2) && Fits(prev, p, taus, layout)
    modifies raw, folded, sketch
    ensures sketch.Valid()
    ensures Progress(sketch.counts, next1, next2) == FileStep(key, p, read, layout, taus, prev, ext, name1, name2)
  {
    if ext.Err? {
      SampledNothing(key, p, sketch.counts, outs1, outs2, taus);
      return outs1, outs2;
    }
    var attempts := read(layout, name1, name2, ext.value);
    next1, next2 := DeliverStream(hash, p, key, mh, raw, folded, sketch, sketch.counts, attempts, taus, layout == PE, outs1, outs2);
  }

  /** The file loop of the many-files front end: the listed inputs, in
      list order, stream through one sketch; an input with a refused
      extension is skipped. */
  method DeliverListed(hash: HashFn, p: Params, ghost key: KeyFn, mh: SequenceMinHash, raw: array<int32>, folded: array<int32>, sketch: Race,
                       read: Reader, layout: Layout, first: seq<string>, second: seq<string>,
                       exts: seq<Result<string>>, taus: seq<real>, outs1: seq<seq<string>>, outs2: seq<seq<string>>, ghost start: Progress)
    returns (next1: seq<seq<string>>, next2: seq<seq<string>>)
    requires IsKeyOf(key, hash, p) && mh.numHashes == p.reps * p.hashPower
    requires raw.Length == p.reps * p.hashPower && folded.Length == p.reps && raw != folded
    requires sketch.Valid() && sketch.reps == p.reps && sketch.range == p.range
    requires start == Progress(sketch.counts, outs1, outs2) && Fits(start, p, taus, layout)
    requires |exts| == |first| && (layout == PE ==> |first| <= |second|)
    modifies raw, folded, sketch
    ensures sketch.Valid()
    ensures Progress(sketch.counts, next1, next2) == ListedRun(key, p, read, layout, first, second, exts, taus, start, |first|)
  {
    next1, next2 := outs1, outs2;
    var f := 0;
    while f < |first|
      invariant f <= |first| && sketch.Valid()
      invariant Progress(sketch.counts, next1, next2) == ListedRun(key, p, read, layout, first, second, exts, taus, start, f)
    {
      var mate := if layout == PE then second[f] else "";
      var g := f + 1;
      next1, next2 := DeliverFile(hash, p, key, mh, raw, folded, sketch, read, layout, taus, exts[f], first[f], mate,
                                  next1, next2, Progress(sketch.counts, next1, next2));
      f := g;
    }
  }

  /** `sampleracemanyfilestaus <taus> <format> <list> <output(s)>`. The
      list names the inputs; every output is named
      `base-<tau>.fastq`, whatever the inputs are. `listLines` are the
      lines of the list file when `listOpened`; a list file that cannot be
      opened leaves the stream failed without end of file, so the first
      line read is empty and the program aborts as on a blank line. */
  method SampleManyFiles(hash: HashFn, read: Reader, tauValues: seq<real>, formatArg: string,
                         listOpened: bool, listLines: seq<string>,
                         base1: string, base2: string, p: Params, show: real -> string)
    returns (status: Status, names1: seq<string>, names2: seq<string>, outs1: seq<seq<string>>, outs2: seq<seq<string>>)
    requires listOpened && LayoutOf(formatArg) == Some(PE) && ListAfter(listLines, true).Some? ==>
               |ListAfter(listLines, true).value.first| <= |ListAfter(listLines, true).value.second|
    ensures status == Exited(0) || status == Exited(-1) || status == Aborted
    ensures status == Aborted <==>
              TausValid(tauValues) && LayoutOf(formatArg).Some?
              && (!listOpened || ListAfter(listLines, LayoutOf(formatArg).value == PE).None?)
    ensures status == Exited(0) <==>
              TausValid(tauValues) && LayoutOf(formatArg).Some?
              && listOpened && ListAfter(listLines, LayoutOf(formatArg).value == PE).Some?
              && ValidParams(p)
    ensures status != Exited(0) ==> outs1 == Empties(|names1|) && outs2 == Empties(|names2|)
    ensures status == Exited(0) ==>
              var layout := LayoutOf(formatArg).value;
              var lists := ListAfter(listLines, layout == PE).value;
              var recs := ListedRecs(read, layout, lists.first, lists.second, Extensions(lists.first), |lists.first|);
              var c0 := Zero(p.reps, p.range);
              && names1 == OutputNames(base1, tauValues, "fastq", show)
              && names2 == (if layout == PE then OutputNames(base2, tauValues, "fastq", show) else [])
              && outs1 == Sampled(KeyOf(hash, p), p, c0, Empties(|tauValues|), recs, tauValues, false)
              && outs2 == (if layout == PE then Sampled(KeyOf(hash, p), p, c0, Empties(|tauValues|), recs, tauValues, true) else [])
  {
    names1, names2, outs1, outs2 := [], [], [], [];
    var parsed := ParseTaus(tauValues);
    if parsed.None? {
      return Exited(-1), names1, names2, outs1, outs2;
    }
    var taus := parsed.value;
    var layout := LayoutOf(formatArg);
    if layout.None? {
      return Exited(-1), names1, names2, outs1, outs2;
    }
    var paired := layout.value == PE;
    if !listOpened {
      return Aborted, names1, names2, outs1, outs2;
    }
    var lists := ReadFileList(listLines, paired);
    if lists.None? {
      return Aborted, names1, names2, outs1, outs2;
    }
    var first, second := lists.value.first, lists.value.second;
    names1, outs1 := OutputNames(base1, taus, "fastq", show), Empties(|taus|);
    if paired {
      names2, outs2 := OutputNames(base2, taus, "fastq", show), Empties(|taus|);
    }
    if !ValidParams(p) {
      return Exited(-1), names1, names2, outs1, outs2;
    }
    var mh, raw, folded, sketch := Setup(p);
    ghost var start := Progress(sketch.counts, outs1, outs2);
    outs1, outs2 := DeliverListed(hash, p, KeyOf(hash, p), mh, raw, folded, sketch, read, layout.value, first, second,
                                  Extensions(first), taus, outs1, outs2, start);
    ListedRunIsOneRun(KeyOf(hash, p), p, read, layout.value, first, second, Extensions(first), taus, start, |first|);
    status := Exited(0);
  }

  /** What the savefile holds when the run starts. */
  datatype SaveFile = Unopenable | EmptyFile | Holds(snap: Snapshot)

  /** The counters a savable run starts from: the saved ones, or a fresh
      sketch when the savefile cannot be opened or is empty. */
  function Initial(saved: SaveFile, p: Params): Counters
    requires ValidParams(p)
  {
    if saved.Holds? then saved.snap.counts else Zero(p.reps, p.range)
  }

  /** Output files opened for appending: each starts with its old content. */
  function Priors(prior: string -> seq<string>, names: seq<string>): (outs: seq<seq<string>>)
    ensures |outs| == |names| && forall t :: 0 <= t < |names| ==> outs[t] == prior(names[t])
  {
    seq(|names|, t requires 0 <= t < |names| => prior(names[t]))
  }

  /** `sampleracesavable <taus> <format> <savefile> <input(s)> <output(s)>`.
      `prior` gives what each output file held before the run, `saved`
      what the savefile held, and `canSave` whether it can be written at
      the end. The outputs are named `base-<tau>.<extension of the input>`
      and opened for appending; the final counters are saved for the next
      run. */
  method SampleSavable(hash: HashFn, read: Reader, tauValues: seq<real>, formatArg: string, saveName: string,
                       input1: string, input2: string, base1: string, base2: string, p: Params, show: real -> string,
                       saved: SaveFile, prior: string -> seq<string>, canSave: bool)
    returns (status: Status, names1: seq<string>, names2: seq<string>, outs1: seq<seq<string>>, outs2: seq<seq<string>>,
             stored: Option<Snapshot>)
    requires saved.Holds? && ValidParams(p) ==>
               saved.snap.reps == p.reps && saved.snap.range == p.range && Shaped(saved.snap.counts, p.reps, p.range)
    ensures status == Exited(0) || status == Exited(-1)
    ensures status == Exited(0) <==>
              TausValid(tauValues) && LayoutOf(formatArg).Some? && InputExtension(input1).Ok? && ValidParams(p)
              && SavefileExtension(saveName).Ok? && canSave
    ensures status == Exited(0) <==> stored.Some?
    ensures !(TausValid(tauValues) && LayoutOf(formatArg).Some? && InputExtension(input1).Ok?) ==>
              names1 == [] && names2 == [] && outs1 == [] && outs2 == []
    ensures TausValid(tauValues) && LayoutOf(formatArg).Some? && InputExtension(input1).Ok? ==>
              var layout := LayoutOf(formatArg).value;
              var ext := InputExtension(input1).value;
              && names1 == OutputNames(base1, tauValues, ext, show)
              && names2 == (if layout == PE then OutputNames(base2, tauValues, ext, show) else [])
              && (!(ValidParams(p) && SavefileExtension(saveName).Ok?) ==>
                    outs1 == Priors(prior, names1) && outs2 == Priors(prior, names2))
    ensures TausValid(tauValues) && LayoutOf(formatArg).Some? && InputExtension(input1).Ok? && ValidParams(p)
            && SavefileExtension(saveName).Ok? ==>
              var layout := LayoutOf(formatArg).value;
              var recs := Recs(read(layout, input1, input2, InputExtension(input1).value));
              var c0 := Initial(saved, p);
              && outs1 == Sampled(KeyOf(hash, p), p, c0, Priors(prior, names1), recs, tauValues, false)
              && outs2 == (if layout == PE then Sampled(KeyOf(hash, p), p, c0, Priors(prior, names2), recs, tauValues, true) else [])
              && (canSave ==> stored == Some(Snapshot(p.reps, p.range, StreamCounts(KeyOf(hash, p), p, c0, recs))))
  {
    names1, names2, outs1, outs2, stored := [], [], [], [], None;
    var parsed := ParseTaus(tauValues);
    if parsed.None? {
      return Exited(-1), names1, names2, outs1, outs2, stored;
    }
    var taus := parsed.value;
    var layout := LayoutOf(formatArg);
    if layout.None? {
      return Exited(-1), names1, names2, outs1, outs2, stored;
    }
    var ext := InputExtension(input1);
    if ext.Err? {
      return Exited(-1), names1, names2, outs1, outs2, stored;
    }
    var paired := layout.value == PE;
    names1 := OutputNames(base1, taus, ext.value, show);
    outs1 := Priors(prior, names1);
    if paired {
      names2 := OutputNames(base2, taus, ext.value, show);
      outs2 := Priors(prior, names2);
    }
    if !ValidParams(p) {
      return Exited(-1), names1, names2, outs1, outs2, stored;
    }
    var mh, raw, folded, sketch := Setup(p);
    if SavefileExtension(saveName).Err? {
      return Exited(-1), names1, names2, outs1, outs2, stored;
    }
    if saved.Holds? {
      sketch.Deserialize(saved.snap);
    }
    ghost var c0 := Initial(saved, p);
    var attempts := read(layout.value, input1, input2, ext.value);
    outs1, outs2 := DeliverStream(hash, p, KeyOf(hash, p), mh, raw, folded, sketch, c0, attempts, taus, paired, outs1, outs2);
    if !canSave {
      return Exited(-1), names1, names2, outs1, outs2, stored;
    }
    var snap := sketch.Serialize();
    stored := Some(snap);
    status := Exited(0);
  }

  /** A stream split in two, the second part scored by a sketch that
      starts from the counters the first part left (a later listed file,
      or a later run that loads the savefile), leaves the outputs and the
      counters exactly as the whole stream in one go would. */
  lemma ResumedRunIsOneRun(key: KeyFn, p: Params, c0: Counters, a: seq<Record>, b: seq<Record>,
                           prior: seq<seq<string>>, taus: seq<real>, second: bool)
    requires ValidParams(p) && KeyWidth(key, p.reps) && Shaped(c0, p.reps, p.range) && |prior| == |taus|
    ensures var mid := StreamCounts(key, p, c0, a);
            && Sampled(key, p, mid, Sampled(key, p, c0, prior, a, taus, second), b, taus, second)
               == Sampled(key, p, c0, prior, a + b, taus, second)
            && StreamCounts(key, p, mid, b) == StreamCounts(key, p, c0, a + b)
  {
    var sa := StreamScores(key, p, c0, a);
    var sb := StreamScores(key, p, StreamCounts(key, p, c0, a), b);
    var sab := StreamScores(key, p, c0, a + b);
    var run1 := Outputs(prior, a, sa, taus, second);
    var lhs := Outputs(run1, b, sb, taus, second);
    var rhs := Outputs(prior, a + b, sab, taus, second);
    forall t | 0 <= t < |taus|
      ensures lhs[t] == rhs[t]
    {
      SplitStream(key, p, c0, a, b, taus[t], second);
      AppendAssoc(prior[t], Kept(a, sa, taus[t], second), Kept(b, sb, taus[t], second));
    }
    SplitStream(key, p, c0, a, b, 0.0, second);
  }

  lemma AppendAssoc<T>(x: seq<T>, y: seq<T>, z: seq<T>)
    ensures (x + y) + z == x + (y + z)
  {
  }
}
