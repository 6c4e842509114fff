/** The windowed MinHash fingerprint of a sequence (`SequenceMinHash`).
    Lane `n` slides a window of `k` characters over the sequence, keeps the
    smallest `hash(window, n)` it sees, and records `hash(window, 3n)` of the
    window that first reached that minimum. */
module MinHash {
  import opened Hashing

  /** Number of window starts the scan visits: exactly the `start` with
      `start + k + 1 < |s|`, so the last two k-mer positions are never read. */
  function WindowCount(k: nat, s: string): nat {
    if |s| > k + 1 then |s| - k - 1 else 0
  }

  function Window(k: nat, s: string, start: nat): string
    requires start < WindowCount(k, s)
  {
    s[start..start + k]
  }

  /** `MurmurHash(seq + start, k, seed)`. */
  function WindowHash(hash: HashFn, k: nat, s: string, start: nat, seed: int): uint32
    requires start < WindowCount(k, s)
  {
    hash(StringBytes(Window(k, s, start)), seed)
  }

  /** The scan of one lane from window `start` on, with the running minimum
      `minv` and the stored value `out`; yields the final pair. */
  function Scan(hash: HashFn, k: nat, s: string, n: int, start: nat, minv: uint32, out: int32): (uint32, int32)
    requires start <= WindowCount(k, s)
    decreases WindowCount(k, s) - start
  {
    if start == WindowCount(k, s) then (minv, out)
    else if WindowHash(hash, k, s, start, n) < minv then
      Scan(hash, k, s, n, start + 1, WindowHash(hash, k, s, start, n), ToInt32(WindowHash(hash, k, s, start, 3 * n)))
    else
      Scan(hash, k, s, n, start + 1, minv, out)
  }

  /** The value lane `n` stores: the scan from the initial state
      (`minhashed_value = UINT_MAX`, `hashes[n] = 0`). */
  function Lane(hash: HashFn, k: nat, s: string, n: int): int32 {
    Scan(hash, k, s, n, 0, UintMax, 0).1
  }

  /** The whole fingerprint: one lane per index below `count`. */
  function Fingerprint(hash: HashFn, k: nat, s: string, count: nat): (fp: seq<int32>)
    ensures |fp| == count
  {
    seq(count, n requires 0 <= n < count => Lane(hash, k, s, n))
  }

  /** Window `j` is the earliest window attaining the least seed-`n` hash. */
  ghost predicate IsFirstArgMin(hash: HashFn, k: nat, s: string, n: int, j: nat) {
    && j < WindowCount(k, s)
    && (forall i :: 0 <= i < WindowCount(k, s) ==> WindowHash(hash, k, s, j, n) <= WindowHash(hash, k, s, i, n))
    && (forall i :: 0 <= i < j ==> WindowHash(hash, k, s, j, n) < WindowHash(hash, k, s, i, n))
  }

  /** What the scan has established after visiting windows `0 .. upto`. */
  ghost predicate Seen(hash: HashFn, k: nat, s: string, n: int, upto: nat, minv: uint32, out: int32)
    requires upto <= WindowCount(k, s)
  {
    || (minv == UintMax && out == 0 && forall i :: 0 <= i < upto ==> WindowHash(hash, k, s, i, n) == UintMax)
    || (exists j :: 0 <= j < upto && SeenMin(hash, k, s, n, upto, j) && minv == WindowHash(hash, k, s, j, n)
                   && out == ToInt32(WindowHash(hash, k, s, j, 3 * n)))
  }

  /** Window `j` is the earliest least window among the first `upto`. */
  ghost predicate SeenMin(hash: HashFn, k: nat, s: string, n: int, upto: nat, j: nat)
    requires j < upto <= WindowCount(k, s)
  {
    && WindowHash(hash, k, s, j, n) < UintMax
    && (forall i :: 0 <= i < upto ==> WindowHash(hash, k, s, j, n) <= WindowHash(hash, k, s, i, n))
    && (forall i :: 0 <= i < j ==> WindowHash(hash, k, s, j, n) < WindowHash(hash, k, s, i, n))
  }

  /** One step of the scan keeps `Seen`. */
  lemma SeenStep(hash: HashFn, k: nat, s: string, n: int, start: nat, minv: uint32, out: int32)
    requires start < WindowCount(k, s)
    requires Seen(hash, k, s, n, start, minv, out)
    ensures WindowHash(hash, k, s, start, n) < minv ==>
              Seen(hash, k, s, n, start + 1, WindowHash(hash, k, s, start, n), ToInt32(WindowHash(hash, k, s, start, 3 * n)))
    ensures WindowHash(hash, k, s, start, n) >= minv ==> Seen(hash, k, s, n, start + 1, minv, out)
  {
    var h := WindowHash(hash, k, s, start, n);
    if h < minv {
      var out' := ToInt32(WindowHash(hash, k, s, start, 3 * n));
      assert SeenMin(hash, k, s, n, start + 1, start) by {
        forall i | 0 <= i < start
          ensures h < WindowHash(hash, k, s, i, n)
        {
          if minv != UintMax {
            var j :| 0 <= j < start && SeenMin(hash, k, s, n, start, j) && minv == WindowHash(hash, k, s, j, n)
                     && out == ToInt32(WindowHash(hash, k, s, j, 3 * n));
            assert WindowHash(hash, k, s, j, n) <= WindowHash(hash, k, s, i, n);
          }
        }
      }
      assert Seen(hash, k, s, n, start + 1, h, out');
    } else if minv == UintMax {
      assert h == UintMax;
      assert Seen(hash, k, s, n, start + 1, minv, out);
    } else {
      var j :| 0 <= j < start && SeenMin(hash, k, s, n, start, j) && minv == WindowHash(hash, k, s, j, n)
               && out == ToInt32(WindowHash(hash, k, s, j, 3 * n));
      assert SeenMin(hash, k, s, n, start + 1, j);
      assert Seen(hash, k, s, n, start + 1, minv, out);
    }
  }

  lemma {:induction false} ScanKeepsSeen(hash: HashFn, k: nat, s: string, n: int, start: nat, minv: uint32, out: int32)
    requires start <= WindowCount(k, s)
    requires Seen(hash, k, s, n, start, minv, out)
    ensures Seen(hash, k, s, n, WindowCount(k, s), Scan(hash, k, s, n, start, minv, out).0, Scan(hash, k, s, n, start, minv, out).1)
    decreases WindowCount(k, s) - start
  {
    if start < WindowCount(k, s) {
      SeenStep(hash, k, s, n, start, minv, out);
      var h := WindowHash(hash, k, s, start, n);
      if h < minv {
        ScanKeepsSeen(hash, k, s, n, start + 1, h, ToInt32(WindowHash(hash, k, s, start, 3 * n)));
      } else {
        ScanKeepsSeen(hash, k, s, n, start + 1, minv, out);
      }
    }
  }

  /** A lane stores 0 when every scanned window hashes to `UINT_MAX` (in
      particular when no window fits), and otherwise the seed-`3n` hash of
      the earliest window attaining the least seed-`n` hash: the strict `<`
      keeps the first of tied minima. */
  lemma {:induction false} LaneIsFirstMinimum(hash: HashFn, k: nat, s: string, n: int)
    ensures (forall i :: 0 <= i < WindowCount(k, s) ==> WindowHash(hash, k, s, i, n) == UintMax) ==> Lane(hash, k, s, n) == 0
    ensures forall j :: IsFirstArgMin(hash, k, s, n, j) && WindowHash(hash, k, s, j, n) < UintMax ==>
              Lane(hash, k, s, n) == ToInt32(WindowHash(hash, k, s, j, 3 * n))
    ensures (exists i :: 0 <= i < WindowCount(k, s) && WindowHash(hash, k, s, i, n) < UintMax) ==>
              exists j :: IsFirstArgMin(hash, k, s, n, j) && Lane(hash, k, s, n) == ToInt32(WindowHash(hash, k, s, j, 3 * n))
  {
    var W := WindowCount(k, s);
    assert Seen(hash, k, s, n, 0, UintMax, 0);
    ScanKeepsSeen(hash, k, s, n, 0, UintMax, 0);
    var fin := Scan(hash, k, s, n, 0, UintMax, 0);
    if fin.0 != UintMax || fin.1 != 0 || !(forall i :: 0 <= i < W ==> WindowHash(hash, k, s, i, n) == UintMax) {
      var j :| 0 <= j < W && SeenMin(hash, k, s, n, W, j) && fin.0 == WindowHash(hash, k, s, j, n)
               && fin.1 == ToInt32(WindowHash(hash, k, s, j, 3 * n));
      assert IsFirstArgMin(hash, k, s, n, j);
      forall j': nat | IsFirstArgMin(hash, k, s, n, j') && WindowHash(hash, k, s, j', n) < UintMax
        ensures j' == j
      {
      }
    } else {
      forall j': nat | IsFirstArgMin(hash, k, s, n, j')
        ensures WindowHash(hash, k, s, j', n) == UintMax
      {
      }
    }
  }

  /** Lane 0 stores the minimum hash itself, because its two seeds `n` and
      `3n` coincide. */
  lemma LaneZeroStoresTheMinimum(hash: HashFn, k: nat, s: string)
    ensures forall j :: IsFirstArgMin(hash, k, s, 0, j) && WindowHash(hash, k, s, j, 0) < UintMax ==>
              Lane(hash, k, s, 0) == ToInt32(WindowHash(hash, k, s, j, 0))
  {
    LaneIsFirstMinimum(hash, k, s, 0);
  }

  /** Only the scanned windows are ever hashed: two hash functions that
      agree on windows `0 .. WindowCount` under seeds `n` and `3n` give the
      lane the same value, whatever they do on the last two k-mers. */
  lemma {:induction false} LaneReadsOnlyScannedWindows(h1: HashFn, h2: HashFn, k: nat, s: string, n: int)
    requires forall j :: 0 <= j < WindowCount(k, s) ==>
               WindowHash(h1, k, s, j, n) == WindowHash(h2, k, s, j, n) &&
               WindowHash(h1, k, s, j, 3 * n) == WindowHash(h2, k, s, j, 3 * n)
    ensures Lane(h1, k, s, n) == Lane(h2, k, s, n)
  {
    ScanSameOnScannedWindows(h1, h2, k, s, n, 0, UintMax, 0);
  }

  lemma {:induction false} ScanSameOnScannedWindows(h1: HashFn, h2: HashFn, k: nat, s: string, n: int, start: nat, minv: uint32, out: int32)
    requires start <= WindowCount(k, s)
    requires forall j :: 0 <= j < WindowCount(k, s) ==>
               WindowHash(h1, k, s, j, n) == WindowHash(h2, k, s, j, n) &&
               WindowHash(h1, k, s, j, 3 * n) == WindowHash(h2, k, s, j, 3 * n)
    ensures Scan(h1, k, s, n, start, minv, out) == Scan(h2, k, s, n, start, minv, out)
    decreases WindowCount(k, s) - start
  {
    if start < WindowCount(k, s) {
      var m := WindowHash(h1, k, s, start, n);
      var o := ToInt32(WindowHash(h1, k, s, start, 3 * n));
      ScanSameOnScannedWindows(h1, h2, k, s, n, start + 1, m, o);
      ScanSameOnScannedWindows(h1, h2, k, s, n, start + 1, minv, out);
    }
  }

  /** `SequenceMinHash`: the number of lanes, fixed at construction. */
  class SequenceMinHash {
    var numHashes: int

    constructor (numberOfHashes: int)
      ensures numHashes == numberOfHashes
    {
      numHashes := numberOfHashes;
    }

    /** `getHash(k, sequence, hashes)`: lane `n` overwrites `hashes[n]` and
        nothing else; exactly the first `numHashes` slots are written and the
        result depends only on `k`, `sequence` and `numHashes`. The caller
        must pre-allocate `numHashes` slots. */
    method GetHash(hash: HashFn, k: nat, sequence: string, hashes: array<int32>)
      requires numHashes <= hashes.Length
      modifies hashes
      ensures forall m :: 0 <= m < numHashes ==> hashes[m] == Lane(hash, k, sequence, m)
      ensures forall m :: 0 <= m < hashes.Length && numHashes <= m ==> hashes[m] == old(hashes[m])
    {
      var n := 0;
      while n < numHashes
        invariant 0 <= n && (n <= numHashes || n == 0)
        invariant forall m :: 0 <= m < n ==> hashes[m] == Lane(hash, k, sequence, m)
        invariant forall m :: n <= m < hashes.Length ==> hashes[m] == old(hashes[m])
      {
        var minv: uint32 := UintMax;
        hashes[n] := 0;
        var start: nat := 0;
        while start + k + 1 < |sequence|
          invariant start <= WindowCount(k, sequence)
          invariant Scan(hash, k, sequence, n, start, minv, hashes[n]) == Scan(hash, k, sequence, n, 0, UintMax, 0)
          invariant forall m :: 0 <= m < n ==> hashes[m] == Lane(hash, k, sequence, m)
          invariant forall m :: n < m < hashes.Length ==> hashes[m] == old(hashes[m])
        {
          var hv := hash(StringBytes(sequence[start..start + k]), n);
          if hv < minv {
            minv := hv;
            hashes[n] := ToInt32(hash(StringBytes(sequence[start..start + k]), n * 3));
          }
          start := start + 1;
        }
        n := n + 1;
      }
    }
  }
}
