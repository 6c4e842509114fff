/** The fold stage (`rehash`): `nhashes * valuesPerSet` fingerprint values
    are compressed to `nhashes` values, one hash of each block of
    `valuesPerSet` consecutive `int`s under the fixed seed 42. */
module Fold {
  import opened Hashing

  /** The seed `rehash` always passes. */
  const FoldSeed := 42

  /** Where block `i` starts, `values_per_set * i`, written as repeated
      addition so that the solver does not reason about products. */
  function Offset(i: nat, vps: nat): nat {
    if i == 0 then 0 else Offset(i - 1, vps) + vps
  }

  lemma {:induction false} OffsetIsProduct(i: nat, vps: nat)
    ensures Offset(i, vps) == vps * i
  {
    if i > 0 {
      OffsetIsProduct(i - 1, vps);
      assert vps * i == vps * (i - 1) + vps;
    }
  }

  /** Block `i` ends no later than block `nhashes` starts. */
  lemma {:induction false} BlockFits(i: nat, nhashes: nat, vps: nat)
    requires i < nhashes
    ensures Offset(i, vps) + vps <= Offset(nhashes, vps)
    decreases nhashes
  {
    if i + 1 < nhashes {
      BlockFits(i, nhashes - 1, vps);
    }
  }

  lemma AllBlocksFit(nhashes: nat, vps: nat)
    ensures forall i :: 0 <= i < nhashes ==> Offset(i, vps) + vps <= Offset(nhashes, vps)
  {
    forall i | 0 <= i < nhashes
      ensures Offset(i, vps) + vps <= Offset(nhashes, vps)
    {
      BlockFits(i, nhashes, vps);
    }
  }

  /** Block `i` of the input: `input[vps*i .. vps*(i+1))`. */
  function Block(input: seq<int32>, i: nat, vps: nat): (b: seq<int32>)
    requires Offset(i, vps) + vps <= |input|
    ensures |b| == vps
    ensures forall t :: 0 <= t < vps ==> b[t] == input[Offset(i, vps) + t]
  {
    input[Offset(i, vps)..Offset(i, vps) + vps]
  }

  /** The value `rehash` stores in slot `i`. */
  function FoldedSlot(hash: HashFn, input: seq<int32>, i: nat, vps: nat): int32
    requires Offset(i, vps) + vps <= |input|
  {
    ToInt32(hash(IntsBytes(Block(input, i, vps)), FoldSeed))
  }

  /** The folded key: `nhashes` slots, each the hash of its own block. */
  function Folded(hash: HashFn, input: seq<int32>, nhashes: nat, vps: nat): (r: seq<int32>)
    requires Offset(nhashes, vps) <= |input|
    ensures |r| == nhashes
    ensures forall i :: 0 <= i < nhashes ==>
              Offset(i, vps) + vps <= |input| && r[i] == FoldedSlot(hash, input, i, vps)
  {
    AllBlocksFit(nhashes, vps);
    seq(nhashes, i requires 0 <= i < nhashes => FoldedSlot(hash, input, i, vps))
  }

  /** `rehash(input, output, nhashes, values_per_set)`: writes exactly the
      first `nhashes` output slots, slot `i` from block `i` alone; the input
      is only read, and only its first `nhashes * values_per_set` values. */
  method Rehash(hash: HashFn, input: array<int32>, output: array<int32>, nhashes: nat, vps: nat)
    requires Offset(nhashes, vps) <= input.Length && nhashes <= output.Length
    requires input != output
    modifies output
    ensures output[..nhashes] == Folded(hash, input[..Offset(nhashes, vps)], nhashes, vps)
    ensures forall m :: nhashes <= m < output.Length ==> output[m] == old(output[m])
  {
    ghost var used := input[..Offset(nhashes, vps)];
    var i := 0;
    while i < nhashes
      invariant i <= nhashes
      invariant output[..i] == Folded(hash, used, nhashes, vps)[..i]
      invariant forall m :: nhashes <= m < output.Length ==> output[m] == old(output[m])
    {
      BlockFits(i, nhashes, vps);
      var start := Offset(i, vps);
      var block := input[start..start + vps];
      assert block == Block(used, i, vps);
      output[i] := ToInt32(hash(IntsBytes(block), FoldSeed));
      assert output[i] == Folded(hash, used, nhashes, vps)[i];
      assert output[..i + 1] == output[..i] + [output[i]];
      i := i + 1;
    }
  }

  /** Slot `i` depends only on block `i`: inputs that agree on that block
      fold to the same slot `i`, whatever they hold elsewhere. */
  lemma FoldSlotDependsOnlyOnItsBlock(hash: HashFn, a: seq<int32>, b: seq<int32>, i: nat, nhashes: nat, vps: nat)
    requires Offset(nhashes, vps) <= |a| && Offset(nhashes, vps) <= |b| && i < nhashes
    requires forall t :: Offset(i, vps) <= t < Offset(i, vps) + vps && t < |a| && t < |b| ==> a[t] == b[t]
    ensures Folded(hash, a, nhashes, vps)[i] == Folded(hash, b, nhashes, vps)[i]
  {
    BlockFits(i, nhashes, vps);
    assert Block(a, i, vps) == Block(b, i, vps);
  }

  /** Overwriting one value changes at most the slot whose block holds it. */
  lemma FoldUpdateChangesOneSlot(hash: HashFn, a: seq<int32>, t: nat, v: int32, nhashes: nat, vps: nat)
    requires Offset(nhashes, vps) <= |a| && t < |a|
    ensures forall i :: 0 <= i < nhashes && !(Offset(i, vps) <= t < Offset(i, vps) + vps) ==>
              Folded(hash, a[t := v], nhashes, vps)[i] == Folded(hash, a, nhashes, vps)[i]
  {
    forall i | 0 <= i < nhashes && !(Offset(i, vps) <= t < Offset(i, vps) + vps)
      ensures Folded(hash, a[t := v], nhashes, vps)[i] == Folded(hash, a, nhashes, vps)[i]
    {
      FoldSlotDependsOnlyOnItsBlock(hash, a[t := v], a, i, nhashes, vps);
    }
  }

  /** Values past `nhashes * vps` are never read. */
  lemma FoldReadsOnlyPrefix(hash: HashFn, a: seq<int32>, nhashes: nat, vps: nat)
    requires Offset(nhashes, vps) <= |a|
    ensures Folded(hash, a, nhashes, vps) == Folded(hash, a[..Offset(nhashes, vps)], nhashes, vps)
  {
    forall i | 0 <= i < nhashes
      ensures Folded(hash, a, nhashes, vps)[i] == Folded(hash, a[..Offset(nhashes, vps)], nhashes, vps)[i]
    {
      FoldSlotDependsOnlyOnItsBlock(hash, a, a[..Offset(nhashes, vps)], i, nhashes, vps);
    }
  }
}
