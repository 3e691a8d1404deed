/** The 64-bit window word of nps_mux: wait flag, 31-bit maximum, one unused bit, 31-bit done. */
module WindowWord {
  import opened Common

  const M31: nat := 0x8000_0000
  const M32: nat := 0x1_0000_0000
  const M63: nat := 0x8000_0000_0000_0000

  /** The unpacked word.  Every word held by a window is below `M31` in both counters. */
  datatype Word = Word(max: nat, done: nat, wait: bool)

  /** `x & mask31`; the first branch only spares the verifier a modulus. */
  function Mask(x: nat): (m: nat)
    ensures x < M31 ==> m == x
  {
    if x < M31 then x else x % M31
  }

  /** `pack` seen through `unpack`: both counters are masked to 31 bits. */
  function Pack(max: nat, done: nat, wait: bool): Word {
    Word(Mask(max), Mask(done), wait)
  }

  /** The integer that `pack` builds. */
  function ToBits(max: nat, done: nat, wait: bool): (ptrs: uint64)
    ensures ptrs >= M63 <==> wait
  {
    (if wait then M63 else 0) + Mask(max) * M32 + Mask(done)
  }

  /** `unpack`: shifts and masks of the 64-bit integer. */
  function FromBits(ptrs: uint64): Word {
    Word(Mask(ptrs / M32), Mask(ptrs), (ptrs / M63) % 2 == 1)
  }

  /** Shifts and masks of `hi` in the upper and `d` in the lower half. */
  lemma Halves(hi: nat, d: nat)
    requires hi < M32 && d < M31
    ensures (hi * M32 + d) / M32 == hi && Mask(hi * M32 + d) == d
  {
    var p := hi * M32 + d;
    assert p == (2 * hi) * M31 + d;
    assert p % M31 == d;
  }

  lemma TopBit(m: nat, d: nat, wait: bool)
    requires m < M31 && d < M31
    ensures var hi := (if wait then M31 else 0) + m;
      && hi < M32 && (hi * M32 + d >= M63 <==> wait) && ((hi * M32 + d) / M63) % 2 == (if wait then 1 else 0)
      && Mask(hi) == m
  {
  }

  /** Unpacking a packed word yields the masked counters, so a compare-and-swap on
      the integer is a compare-and-swap on the `Word`. */
  lemma UnpackPack(max: nat, done: nat, wait: bool)
    ensures FromBits(ToBits(max, done, wait)) == Pack(max, done, wait)
    ensures max < M31 && done < M31 ==> FromBits(ToBits(max, done, wait)) == Word(max, done, wait)
  {
    var m, d := Mask(max), Mask(done);
    var hi := (if wait then M31 else 0) + m;
    assert ToBits(max, done, wait) == hi * M32 + d;
    TopBit(m, d, wait);
    Halves(hi, d);
  }

  /** Two words pack to the same integer only when they agree in all three fields. */
  lemma PackInjective(v: Word, w: Word)
    requires v.max < M31 && v.done < M31 && w.max < M31 && w.done < M31
    ensures ToBits(v.max, v.done, v.wait) == ToBits(w.max, w.done, w.wait) <==> v == w
  {
    UnpackPack(v.max, v.done, v.wait);
    UnpackPack(w.max, w.done, w.wait);
  }
}
