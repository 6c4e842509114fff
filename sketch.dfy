/** The RACE density sketch as the targets use it: `R` repetitions of `B`
    counters. A folded key picks one bucket per repetition; `query` sums the
    picked counters and `query_and_add` does the same and then increments
    each of them. The sketch's own source is not part of this model: the
    bucket rule `h mod B` and the read-then-increment order follow the
    design's description of it, and every contract in this module is an
    assumption about that code. */
module Sketch {
  import opened Hashing

  /** Counter rows, one per repetition. */
  type Counters = seq<seq<nat>>

  predicate Shaped(c: Counters, reps: nat, range: nat) {
    |c| == reps && forall r :: 0 <= r < reps ==> |c[r]| == range
  }

  /** Keys of exactly `reps` folded values. */
  predicate KeysFit(keys: seq<seq<int32>>, reps: nat) {
    forall i :: 0 <= i < |keys| ==> |keys[i]| == reps
  }

  /** Repetition `r`'s bucket for folded value `h`: `h mod B`, never negative. */
  function Bucket(h: int32, range: nat): (b: nat)
    requires range > 0
    ensures b < range
  {
    h as int % range
  }

  /** The sum of the counters the first `upto` repetitions pick for `key`. */
  function Score(c: Counters, key: seq<int32>, range: nat, upto: nat): nat
    requires range > 0 && Shaped(c, |c|, range) && upto <= |c| <= |key|
  {
    if upto == 0 then 0
    else Score(c, key, range, upto - 1) + c[upto - 1][Bucket(key[upto - 1], range)]
  }

  /** What `query(key)` returns. */
  function Estimate(c: Counters, key: seq<int32>, range: nat): nat
    requires range > 0 && Shaped(c, |c|, range) && |c| <= |key|
  {
    Score(c, key, range, |c|)
  }

  /** The counters after `query_and_add(key)`: each repetition's picked
      counter is one higher and nothing else changes. */
  function Increment(c: Counters, key: seq<int32>, range: nat): (c': Counters)
    requires range > 0 && Shaped(c, |c|, range) && |c| <= |key|
    ensures Shaped(c', |c|, range)
    ensures forall r, b :: 0 <= r < |c| && 0 <= b < range ==>
              c'[r][b] == if b == Bucket(key[r], range) then c[r][b] + 1 else c[r][b]
  {
    seq(|c|, r requires 0 <= r < |c| => c[r][Bucket(key[r], range) := c[r][Bucket(key[r], range)] + 1])
  }

  /** A fresh sketch: every counter zero. */
  function Zero(reps: nat, range: nat): (c: Counters)
    ensures Shaped(c, reps, range)
    ensures forall r, b :: 0 <= r < reps && 0 <= b < range ==> c[r][b] == 0
  {
    seq(reps, r => seq(range, b => 0))
  }

  /** The counters after `query_and_add` of each key in turn. */
  function AddAll(c: Counters, keys: seq<seq<int32>>, range: nat): (c': Counters)
    requires range > 0 && Shaped(c, |c|, range) && KeysFit(keys, |c|)
    ensures Shaped(c', |c|, range)
  {
    if keys == [] then c
    else Increment(AddAll(c, keys[..|keys| - 1], range), keys[|keys| - 1], range)
  }

  /** The scores `query_and_add` returns for each key in turn: key `i` is
      scored against the counters holding keys `0 .. i` only. */
  function CausalScores(c: Counters, keys: seq<seq<int32>>, range: nat): (s: seq<nat>)
    requires range > 0 && Shaped(c, |c|, range) && KeysFit(keys, |c|)
    ensures |s| == |keys|
  {
    if keys == [] then []
    else
      var before := keys[..|keys| - 1];
      CausalScores(c, before, range) + [Estimate(AddAll(c, before, range), keys[|keys| - 1], range)]
  }

  /** The sum of one counter row. */
  function Total(row: seq<nat>): nat {
    if row == [] then 0 else Total(row[..|row| - 1]) + row[|row| - 1]
  }

  /** Scoring a key right after adding it finds every one of its `R`
      counters one higher: the score rises by exactly `R`. */
  lemma {:induction false} RescoringAddsReps(c: Counters, key: seq<int32>, range: nat, upto: nat)
    requires range > 0 && Shaped(c, |c|, range) && upto <= |c| <= |key|
    ensures Score(Increment(c, key, range), key, range, upto) == Score(c, key, range, upto) + upto
  {
    if upto > 0 {
      RescoringAddsReps(c, key, range, upto - 1);
    }
  }

  /** Adding one key never lowers any score, and raises it by at most `R`
      (one for each repetition where the two keys share a bucket). */
  lemma {:induction false} AddingRaisesScoreByAtMostReps(c: Counters, added: seq<int32>, key: seq<int32>, range: nat, upto: nat)
    requires range > 0 && Shaped(c, |c|, range) && upto <= |c| <= |added| && |c| <= |key|
    ensures Score(c, key, range, upto) <= Score(Increment(c, added, range), key, range, upto) <= Score(c, key, range, upto) + upto
  {
    if upto > 0 {
      AddingRaisesScoreByAtMostReps(c, added, key, range, upto - 1);
    }
  }

  /** Counters only ever grow as keys are added. */
  lemma {:induction false} CountersNeverDecrease(c: Counters, keys: seq<seq<int32>>, range: nat)
    requires range > 0 && Shaped(c, |c|, range) && KeysFit(keys, |c|)
    ensures forall r, b :: 0 <= r < |c| && 0 <= b < range ==> c[r][b] <= AddAll(c, keys, range)[r][b]
  {
    if keys != [] {
      CountersNeverDecrease(c, keys[..|keys| - 1], range);
    }
  }

  /** Counters that are no lower everywhere give a score that is no lower. */
  lemma {:induction false} ScoreMonotone(c: Counters, c': Counters, key: seq<int32>, range: nat, upto: nat)
    requires range > 0 && Shaped(c, |c|, range) && Shaped(c', |c|, range) && upto <= |c| <= |key|
    requires forall r, b :: 0 <= r < |c| && 0 <= b < range ==> c[r][b] <= c'[r][b]
    ensures Score(c, key, range, upto) <= Score(c', key, range, upto)
  {
    if upto > 0 {
      ScoreMonotone(c, c', key, range, upto - 1);
    }
  }

  /** `query` of key `i` once all `N` keys are in a fresh sketch: at least
      the causal score `query_and_add` gave it plus `R` (its own
      increments), and at most `R * N`. */
  lemma FinalScoreBounds(reps: nat, range: nat, keys: seq<seq<int32>>, i: nat)
    requires range > 0 && KeysFit(keys, reps) && i < |keys|
    ensures CausalScores(Zero(reps, range), keys, range)[i] + reps
            <= Estimate(AddAll(Zero(reps, range), keys, range), keys[i], range)
            <= reps * |keys|
  {
    FinalScoreAboveCausal(reps, range, keys, i);
    RowsCountKeys(reps, range, keys);
    ScoreAtMostUptoTimes(AddAll(Zero(reps, range), keys, range), keys[i], range, reps, |keys|);
  }

  /** The lower half of `FinalScoreBounds`: key `i`'s own increments and
      every later key only add to what it scored when it came in. */
  lemma FinalScoreAboveCausal(reps: nat, range: nat, keys: seq<seq<int32>>, i: nat)
    requires range > 0 && KeysFit(keys, reps) && i < |keys|
    ensures CausalScores(Zero(reps, range), keys, range)[i] + reps
            <= Estimate(AddAll(Zero(reps, range), keys, range), keys[i], range)
  {
    var z := Zero(reps, range);
    CausalScoresAt(z, keys, range, i);
    var j := i + 1;
    var head, tail := keys[..j], keys[j..];
    AddAllPrefixStep(z, keys, range, i, j);
    var before := AddAll(z, keys[..i], range);
    var own := AddAll(z, head, range);
    RescoringAddsReps(before, keys[i], range, reps);
    assert Estimate(own, keys[i], range) == Estimate(before, keys[i], range) + reps;
    LaterKeysOnlyAdd(own, tail, keys[i], range);
    TakeDrop(keys, j);
    AddAllSplit(z, head, tail, range);
    assert AddAll(z, keys, range) == AddAll(own, tail, range);
  }

  /** Adding the keys before `j = i + 1` is adding those before `i`, then
      key `i`. */
  lemma AddAllPrefixStep(c: Counters, keys: seq<seq<int32>>, range: nat, i: nat, j: nat)
    requires range > 0 && Shaped(c, |c|, range) && KeysFit(keys, |c|) && i < |keys| && j == i + 1
    ensures KeysFit(keys[..i], |c|) && KeysFit(keys[..j], |c|)
    ensures AddAll(c, keys[..j], range) == Increment(AddAll(c, keys[..i], range), keys[i], range)
  {
    var head := keys[..j];
    assert head[..|head| - 1] == keys[..i];
    assert head[|head| - 1] == keys[i];
  }

  /** Whatever keys come later, a score against the counters only grows. */
  lemma LaterKeysOnlyAdd(c: Counters, later: seq<seq<int32>>, key: seq<int32>, range: nat)
    requires range > 0 && Shaped(c, |c|, range) && KeysFit(later, |c|) && |c| <= |key|
    ensures Estimate(c, key, range) <= Estimate(AddAll(c, later, range), key, range)
  {
    CountersNeverDecrease(c, later, range);
    ScoreMonotone(c, AddAll(c, later, range), key, range, |c|);
  }

  lemma {:induction false} TotalBoundsEntries(row: seq<nat>, b: nat)
    requires b < |row|
    ensures row[b] <= Total(row)
  {
    if b < |row| - 1 {
      TotalBoundsEntries(row[..|row| - 1], b);
    }
  }

  lemma {:induction false} TotalOfIncrement(row: seq<nat>, b: nat)
    requires b < |row|
    ensures Total(row[b := row[b] + 1]) == Total(row) + 1
  {
    if b < |row| - 1 {
      assert row[b := row[b] + 1][..|row| - 1] == row[..|row| - 1][b := row[b] + 1];
      TotalOfIncrement(row[..|row| - 1], b);
    } else {
      assert row[b := row[b] + 1][..|row| - 1] == row[..|row| - 1];
    }
  }

  lemma {:induction false} TotalOfZeros(n: nat)
    ensures Total(seq(n, b => 0)) == 0
  {
    if n > 0 {
      assert seq(n, b => 0)[..n - 1] == seq(n - 1, b => 0);
      TotalOfZeros(n - 1);
    }
  }

  /** After `n` keys are added to a fresh sketch, every row's counters sum
      to `n`. */
  lemma {:induction false} RowsCountKeys(reps: nat, range: nat, keys: seq<seq<int32>>)
    requires range > 0 && KeysFit(keys, reps)
    ensures forall r :: 0 <= r < reps ==> Total(AddAll(Zero(reps, range), keys, range)[r]) == |keys|
  {
    if keys == [] {
      TotalOfZeros(range);
      assert forall r :: 0 <= r < reps ==> Zero(reps, range)[r] == seq(range, b => 0);
    } else {
      var before := keys[..|keys| - 1];
      RowsCountKeys(reps, range, before);
      var c := AddAll(Zero(reps, range), before, range);
      var c' := Increment(c, keys[|keys| - 1], range);
      forall r | 0 <= r < reps
        ensures Total(c'[r]) == |keys|
      {
        var b := Bucket(keys[|keys| - 1][r], range);
        assert c'[r] == c[r][b := c[r][b] + 1];
        TotalOfIncrement(c[r], b);
      }
    }
  }

  lemma {:induction false} ScoreAtMostUptoTimes(c: Counters, key: seq<int32>, range: nat, upto: nat, n: nat)
    requires range > 0 && Shaped(c, |c|, range) && upto <= |c| <= |key|
    requires forall r :: 0 <= r < |c| ==> Total(c[r]) == n
    ensures Score(c, key, range, upto) <= upto * n
  {
    if upto > 0 {
      ScoreAtMostUptoTimes(c, key, range, upto - 1, n);
      TotalBoundsEntries(c[upto - 1], Bucket(key[upto - 1], range));
      assert upto * n == (upto - 1) * n + n;
    }
  }

  /** Scale of the causal scores: the score of the `i`-th key added to a
      fresh sketch is at most `R * i`, so in `[0, N]` when `R = 1`. */
  lemma CausalScoreBound(reps: nat, range: nat, keys: seq<seq<int32>>)
    requires range > 0 && KeysFit(keys, reps)
    ensures forall i :: 0 <= i < |keys| ==> CausalScores(Zero(reps, range), keys, range)[i] <= reps * i
  {
    forall i | 0 <= i < |keys|
      ensures CausalScores(Zero(reps, range), keys, range)[i] <= reps * i
    {
      CausalScoresAt(Zero(reps, range), keys, range, i);
      RowsCountKeys(reps, range, keys[..i]);
      ScoreAtMostUptoTimes(AddAll(Zero(reps, range), keys[..i], range), keys[i], range, reps, i);
    }
  }

  /** Score `i` is key `i` scored against the sketch holding keys `0 .. i`. */
  lemma {:induction false} CausalScoresAt(c: Counters, keys: seq<seq<int32>>, range: nat, i: nat)
    requires range > 0 && Shaped(c, |c|, range) && KeysFit(keys, |c|) && i < |keys|
    ensures KeysFit(keys[..i], |c|)
    ensures CausalScores(c, keys, range)[i] == Estimate(AddAll(c, keys[..i], range), keys[i], range)
  {
    if i < |keys| - 1 {
      var before := keys[..|keys| - 1];
      assert before[..i] == keys[..i];
      CausalScoresAt(c, before, range, i);
    }
  }

  /** Adding keys `a ++ b` is adding `a`, then `b` to the result. */
  lemma {:induction false} AddAllSplit(c: Counters, a: seq<seq<int32>>, b: seq<seq<int32>>, range: nat)
    requires range > 0 && Shaped(c, |c|, range) && KeysFit(a, |c|) && KeysFit(b, |c|)
    ensures KeysFit(a + b, |c|)
    ensures AddAll(c, a + b, range) == AddAll(AddAll(c, a, range), b, range)
    decreases |b|
  {
    if b == [] {
      assert a + b == a;
    } else {
      assert (a + b)[..|a + b| - 1] == a + b[..|b| - 1];
      AddAllSplit(c, a, b[..|b| - 1], range);
    }
  }

  /** One more key: one more score, against the counters holding the
      earlier keys. */
  lemma CausalScoresSnoc(c: Counters, keys: seq<seq<int32>>, last: seq<int32>, range: nat)
    requires range > 0 && Shaped(c, |c|, range) && KeysFit(keys, |c|) && |last| == |c|
    ensures KeysFit(keys + [last], |c|)
    ensures CausalScores(c, keys + [last], range) == CausalScores(c, keys, range) + [Estimate(AddAll(c, keys, range), last, range)]
  {
    assert (keys + [last])[..|keys|] == keys;
  }

  /** A sketch carried from one stream to the next scores the second
      stream exactly as one long stream would: resuming from saved counters
      loses nothing. */
  lemma {:induction false} CausalScoresSplit(c: Counters, a: seq<seq<int32>>, b: seq<seq<int32>>, range: nat)
    requires range > 0 && Shaped(c, |c|, range) && KeysFit(a, |c|) && KeysFit(b, |c|)
    ensures KeysFit(a + b, |c|)
    ensures CausalScores(c, a + b, range) == CausalScores(c, a, range) + CausalScores(AddAll(c, a, range), b, range)
    decreases |b|
  {
    if b == [] {
      assert a + b == a;
    } else {
      var b', last := b[..|b| - 1], b[|b| - 1];
      CausalScoresSplit(c, a, b', range);
      AddAllSplit(c, a, b', range);
      SnocOfAppend(a, b);
      CausalScoresSplitStep(c, a, b', last, range);
    }
  }

  /** The step of `CausalScoresSplit`: the split holds for `b' ++ [last]`
      once it holds for `b'`. */
  lemma CausalScoresSplitStep(c: Counters, a: seq<seq<int32>>, b': seq<seq<int32>>, last: seq<int32>, range: nat)
    requires range > 0 && Shaped(c, |c|, range) && KeysFit(a, |c|) && KeysFit(b', |c|) && |last| == |c|
    requires KeysFit(a + b', |c|)
    requires CausalScores(c, a + b', range) == CausalScores(c, a, range) + CausalScores(AddAll(c, a, range), b', range)
    requires AddAll(c, a + b', range) == AddAll(AddAll(c, a, range), b', range)
    ensures KeysFit((a + b') + [last], |c|) && KeysFit(b' + [last], |c|)
    ensures CausalScores(c, (a + b') + [last], range)
            == CausalScores(c, a, range) + CausalScores(AddAll(c, a, range), b' + [last], range)
  {
    CausalScoresSnoc(c, a + b', last, range);
    CausalScoresSnoc(AddAll(c, a, range), b', last, range);
    ConcatAssoc(CausalScores(c, a, range), CausalScores(AddAll(c, a, range), b', range),
                Estimate(AddAll(c, a + b', range), last, range));
  }

  lemma TakeDrop<T>(s: seq<T>, j: nat)
    requires j <= |s|
    ensures s[..j] + s[j..] == s
  {
  }

  lemma ConcatAssoc<T>(x: seq<T>, y: seq<T>, e: T)
    ensures (x + y) + [e] == x + (y + [e])
  {
  }

  /** A non-empty `b` ends `a ++ b` with its own last element. */
  lemma SnocOfAppend<T>(a: seq<T>, b: seq<T>)
    requires b != []
    ensures a + b == (a + b[..|b| - 1]) + [b[|b| - 1]]
  {
  }

  /** The collision scenario with `R = 1` and `B = 10`: when the first and
      third keys share a bucket and the second does not, `query_and_add`
      returns 0, 0 and 1. */
  lemma CollisionScenario(k1: seq<int32>, k2: seq<int32>, k3: seq<int32>)
    requires |k1| == 1 && |k2| == 1 && |k3| == 1
    requires Bucket(k1[0], 10) == Bucket(k3[0], 10) != Bucket(k2[0], 10)
    ensures CausalScores(Zero(1, 10), [k1, k2, k3], 10) == [0, 0, 1]
  {
    var z := Zero(1, 10);
    assert [k1, k2, k3][..2] == [k1, k2];
    assert [k1, k2][..1] == [k1];
    assert [k1][..0] == [];
    assert AddAll(z, [], 10) == z;
    var c1 := Increment(z, k1, 10);
    assert AddAll(z, [k1], 10) == c1;
    var c2 := Increment(c1, k2, 10);
    assert AddAll(z, [k1, k2], 10) == c2;
    assert Score(z, k1, 10, 1) == z[0][Bucket(k1[0], 10)];
    assert Score(c1, k2, 10, 1) == c1[0][Bucket(k2[0], 10)];
    assert Score(c2, k3, 10, 1) == c2[0][Bucket(k3[0], 10)];
    assert CausalScores(z, [k1], 10) == [0];
    assert CausalScores(z, [k1, k2], 10) == [0, 0];
  }

  /** The persisted content of a sketch: its shape and its counters. The
      byte layout of the savefile is not part of this model. */
  datatype Snapshot = Snapshot(reps: nat, range: nat, counts: Counters)

  /** A RACE sketch (`RACE(repetitions, range)`). */
  class Race {
    const reps: nat
    const range: nat
    var counts: Counters

    ghost predicate Valid()
      reads this
    {
      range > 0 && Shaped(counts, reps, range)
    }

    constructor (repetitions: nat, hashRange: nat)
      requires hashRange > 0
      ensures Valid() && reps == repetitions && range == hashRange
      ensures counts == Zero(repetitions, hashRange)
    {
      reps, range := repetitions, hashRange;
      counts := Zero(repetitions, hashRange);
    }

    /** `query_and_add(key)`: per repetition, read the picked counter into
        the sum and then increment it. */
    method QueryAndAdd(key: array<int32>) returns (score: nat)
      requires Valid() && key.Length == reps
      modifies this
      ensures Valid()
      ensures score == Estimate(old(counts), key[..], range)
      ensures counts == Increment(old(counts), key[..], range)
    {
      ghost var c := counts;
      ghost var k := key[..];
      ghost var target := Increment(c, k, range);
      score := 0;
      var r := 0;
      while r < reps
        invariant r <= reps && |counts| == reps
        invariant score == Score(c, k, range, r)
        invariant forall i :: 0 <= i < r ==> counts[i] == target[i]
        invariant forall i :: r <= i < reps ==> counts[i] == c[i]
      {
        var b := Bucket(key[r], range);
        var next := r + 1;
        score := score + counts[r][b];
        counts := counts[r := counts[r][b := counts[r][b] + 1]];
        r := next;
      }
      assert counts == target;
    }

    /** `query(key)`: the same sum, and the sketch is left as it was. */
    method Query(key: array<int32>) returns (score: nat)
      requires Valid() && key.Length == reps
      ensures score == Estimate(counts, key[..], range)
    {
      score := 0;
      var r := 0;
      while r < reps
        invariant r <= reps
        invariant score == Score(counts, key[..], range, r)
      {
        score := score + counts[r][Bucket(key[r], range)];
        r := r + 1;
      }
    }

    /** `serialize`: the sketch's shape and counters, as written to the
        savefile; the sketch is left as it was. */
    method Serialize() returns (snap: Snapshot)
      requires Valid()
      ensures snap.reps == reps && snap.range == range && snap.counts == counts
      ensures Shaped(snap.counts, snap.reps, snap.range)
    {
      snap := Snapshot(reps, range, counts);
    }

    /** `deserialize`: the saved counters replace the current ones. The
        caller must supply the parameters the state was saved with. */
    method Deserialize(snap: Snapshot)
      requires Valid() && snap.reps == reps && snap.range == range && Shaped(snap.counts, reps, range)
      modifies this
      ensures Valid() && counts == snap.counts
    {
      counts := snap.counts;
    }
  }
}
