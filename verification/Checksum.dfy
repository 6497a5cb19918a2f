/** One's-complement sums as the agents compute them: over bytes in big-endian
    pairs (full recomputation) and over raw little-endian words with end-around
    carry (incremental update).  All are compared modulo 65535. */
module Checksum {
  import opened Words

  const ONES16: int := 0xffff
  const ONES32: int := 0xffff_ffff

  // ---------------------------------------------------------------------------
  // Full recomputation

  /** `(hi << 8) + lo`. */
  function Pair(hi: int, lo: int): int { hi * 256 + lo }

  /** The sum of big-endian byte pairs; a last odd byte is padded with zero. */
  function BeSum(b: seq<u8>): nat
    decreases b
  {
    if b == [] then 0
    else if |b| == 1 then b[0] * 256
    else b[0] * 256 + b[1] + BeSum(b[2..])
  }

  lemma {:induction false} BeSumBound(b: seq<u8>)
    ensures BeSum(b) <= (|b| + 1) / 2 * 65535
    decreases b
  {
    if |b| >= 2 { BeSumBound(b[2..]); }
  }

  /** CalSum: a 32-bit accumulator is enough for any IP packet. */
  method CalSum(buf: seq<u8>) returns (sum: u32)
    requires |buf| <= 65535
    ensures sum == BeSum(buf)
  {
    BeSumBound(buf);
    sum := 0;
    var p, len := 0, |buf|;
    while len > 1
      invariant p + len == |buf| && 0 <= len
      invariant sum + BeSum(buf[p..]) == BeSum(buf)
    {
      assert buf[p..][0] == buf[p] && buf[p..][1] == buf[p + 1] && buf[p..][2..] == buf[p + 2..];
      sum := Add32(sum, Pair(buf[p], buf[p + 1]));
      p, len := p + 2, len - 2;
    }
    if len == 1 {
      assert buf[p..] == [buf[p]];
      sum := Add32(sum, Pair(buf[p], 0));
    } else {
      assert buf[p..] == [];
    }
  }

  /** Two folds of a 32-bit sum into 16 bits (csum_fold, and the end of cksumTcp). */
  function Fold(c: u32): (r: u16)
    ensures r == 0 <==> c == 0
    ensures (c - r) % ONES16 == 0
  {
    var d := c % TWO16 + c / TWO16;
    assert c - d == ONES16 * (c / TWO16);
    var e := d % TWO16 + d / TWO16;
    assert d - e == ONES16 * (d / TWO16);
    assert c - e == ONES16 * (c / TWO16 + d / TWO16);
    e
  }

  /** bpf_htons on a little-endian machine. */
  function Swap16(x: u16): (r: u16)
    ensures (r - 256 * x) % ONES16 == 0
    ensures r == ONES16 <==> x == ONES16
  {
    assert 256 * x == x % 256 * 256 + x / 256 + ONES16 * (x / 256);
    x % 256 * 256 + x / 256
  }

  /** The check field that cksumIp and cksumTcp compute from a sum of pairs. */
  function CheckOf(sum: u32): u16 {
    Swap16(ONES16 - Fold(sum))
  }

  // ---------------------------------------------------------------------------
  // Incremental update

  function Not32(x: u32): u32 { ONES32 - x }

  /** csum_add: 32-bit addition with end-around carry. */
  function CsumAdd(csum: u32, addend: u32): (r: u32)
    ensures r == 0 <==> csum == 0 && addend == 0
    ensures r == csum + addend || r == csum + addend - ONES32
  {
    var s := Add32(csum, addend);
    Add32(s, if s < addend then 1 else 0)
  }

  lemma CsumAddModulo(csum: u32, addend: u32)
    ensures (CsumAdd(csum, addend) - csum - addend) % ONES16 == 0
  {
    assert ONES32 == 65537 * ONES16;
  }

  /** The words that a series of csum_add calls adds, in order. */
  datatype Update = Update(words: seq<u32>) {
    function Sum(): int
      decreases |words|
    {
      if words == [] then 0 else Update(words[..|words| - 1]).Sum() + words[|words| - 1]
    }

    /** `csum = csum_add(csum, w)`. */
    function Plus(w: u32): (r: Update)
      ensures r.Sum() == Sum() + w
    {
      assert (words + [w])[..|words|] == words;
      Update(words + [w])
    }

    /** `csum = csum_add(csum, ~w)`. */
    function Minus(w: u32): (r: Update)
      ensures r.Sum() == Sum() + ONES32 - w
    {
      Plus(Not32(w))
    }

    function Apply(csum: u32): (r: u32)
      ensures csum != 0 ==> r != 0
      decreases |words|
    {
      if words == [] then csum
      else CsumAdd(Update(words[..|words| - 1]).Apply(csum), words[|words| - 1])
    }
  }

  const START := Update([])

  lemma {:induction false} ApplyModulo(csum: u32, u: Update)
    ensures (u.Apply(csum) - csum - u.Sum()) % ONES16 == 0
    decreases |u.words|
  {
    if u.words != [] {
      var v := Update(u.words[..|u.words| - 1]);
      var w := u.words[|u.words| - 1];
      ApplyModulo(csum, v);
      CsumAddModulo(v.Apply(csum), w);
      ModSum3(v.Apply(csum) - csum - v.Sum(), u.Apply(csum) - v.Apply(csum) - w, 0, 0);
    }
  }

  lemma ModSum3(x: int, y: int, z: int, w: int)
    requires x % ONES16 == 0 && y % ONES16 == 0 && z % ONES16 == 0 && w % ONES16 == 0
    ensures (x + y + z + w) % ONES16 == 0
  {
  }

  lemma ModNeg(x: int)
    requires x % ONES16 == 0
    ensures (-x) % ONES16 == 0
  {
  }

  /** `~csum_fold(...)` after starting from `~csum_unfold(check)`: the gateway's
      incremental update. */
  function Incremental(check: u16, u: Update): u16 {
    ONES16 - Fold(u.Apply(Not32(check)))
  }

  /** It never yields the alternate zero, and moves the field by the change. */
  lemma {:induction false} IncrementalModulo(check: u16, u: Update)
    ensures Incremental(check, u) != ONES16
    ensures (Incremental(check, u) - check + u.Sum()) % ONES16 == 0
  {
    var a, d := u.Apply(Not32(check)), u.Sum();
    ApplyModulo(Not32(check), u);
    assert ONES32 == 65537 * ONES16;
    var x, f := a - Not32(check) - d, Fold(a);
    assert (a - f) % ONES16 == 0 && f != 0 && Incremental(check, u) == ONES16 - f;
    hide *;
    ModNeg(x);
    ModNeg(ONES32);
    ModSum3(ONES16, a - f, -x, -ONES32);
  }

  // ---------------------------------------------------------------------------
  // The server side

  type u64 = x: int | 0 <= x < 0x1_0000_0000_0000_0000

  function FoldOnce(c: nat): nat { c % TWO16 + c / TWO16 }

  /** Folding a 64-bit sum until it fits: 2^48, 2^32 and 2^17 bound the results of
      the first three folds. */
  function Fold64(c: u64): (r: u16)
    ensures r == 0 <==> c == 0
    ensures (c - r) % ONES16 == 0
  {
    var c1 := FoldOnce(c);
    assert c - c1 == ONES16 * (c / TWO16) && c1 <= 0x1_0000_0000_fffe;
    var c2 := FoldOnce(c1);
    assert c1 - c2 == ONES16 * (c1 / TWO16) && c2 <= 0x1_0000_fffe;
    var c3 := FoldOnce(c2);
    assert c2 - c3 == ONES16 * (c2 / TWO16) && c3 <= 0x1_fffe;
    var c4 := FoldOnce(c3);
    assert c3 - c4 == ONES16 * (c3 / TWO16) && c4 <= 0xffff;
    assert c - c4 == ONES16 * (c / TWO16 + c1 / TWO16 + c2 / TWO16 + c3 / TWO16);
    c4
  }

  /** csum_fold_helper_64: four conditional folds are enough for every 64-bit
      accumulator. */
  method FoldHelper64(csum: u64) returns (r: u16)
    ensures r == ONES16 - Fold64(csum)
  {
    var c: nat := csum;
    for i := 0 to 4
      invariant c == FoldTimes(csum, i)
    {
      if c / TWO16 != 0 {
        c := c % TWO16 + c / TWO16;
      }
    }
    assert c == Fold64(csum) by {
      assert FoldTimes(csum, 4) == FoldOnce(FoldTimes(csum, 3));
      assert FoldTimes(csum, 3) == FoldOnce(FoldTimes(csum, 2));
      assert FoldTimes(csum, 2) == FoldOnce(FoldTimes(csum, 1));
    }
    r := ONES16 - c;
  }

  function FoldTimes(c: nat, i: nat): nat {
    if i == 0 then c else FoldOnce(FoldTimes(c, i - 1))
  }

  /** bpf_csum_diff: subtract the words of `before`, add those of `after`. */
  function CsumDiff(before: seq<u32>, after: seq<u32>, seed: u32): u32
    decreases before, after
  {
    if before != [] then CsumDiff(before[1..], after, CsumAdd(seed, Not32(before[0])))
    else if after != [] then CsumDiff([], after[1..], CsumAdd(seed, after[0]))
    else seed
  }

  lemma {:induction false} DiffModulo(before: seq<u32>, after: seq<u32>, seed: u32)
    requires |before| <= 1 && |after| <= 1
    ensures seed != 0 ==> CsumDiff(before, after, seed) != 0
    ensures (CsumDiff(before, after, seed) - seed + Only(before) - Only(after)) % ONES16 == 0
  {
    var a := if before == [] then seed else CsumAdd(seed, Not32(before[0]));
    var b := if after == [] then a else CsumAdd(a, after[0]);
    assert CsumDiff(before, after, seed) == CsumDiff([], after, a) == CsumDiff([], [], b) == b;
    if before != [] { CsumAddModulo(seed, Not32(before[0])); }
    if after != [] { CsumAddModulo(a, after[0]); }
    assert ONES32 == 65537 * ONES16;
    var x, y := a - seed + Only(before), b - a - Only(after);
    assert x % ONES16 == 0 by { if before != [] { ModSum3(a - seed - Not32(before[0]), ONES32, 0, 0); } }
    hide *;
    ModSum3(x, y, 0, 0);
  }

  function Only(words: seq<u32>): int { if words == [] then 0 else words[0] }
}
