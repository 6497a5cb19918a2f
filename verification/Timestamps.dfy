/** The two parsers that look for the TCP timestamp option: mask tests on the first
    12 option bytes, then a bounded walk.  `o` holds the bytes after the fixed
    header up to the end of the packet, of which the first n are options. */
module Timestamps {
  import opened Words

  // ---------------------------------------------------------------------------
  // Masks

  /** The number that a little-endian machine loads from the bytes. */
  function LoadLe(b: seq<u8>): nat
    decreases |b|
  {
    if b == [] then 0 else b[0] + 256 * LoadLe(b[1..])
  }

  lemma AndDigit(x: nat, y: nat, a: nat, b: nat)
    requires a <= 1 && b <= 1
    ensures And(2 * x + a, 2 * y + b) == 2 * And(x, y) + a * b
  {
    assert (2 * x + a) / 2 == x && (2 * y + b) / 2 == y;
    assert (2 * x + a) % 2 == a && (2 * y + b) % 2 == b;
  }

  /** High digits x above low digits p, where h is a power of two. */
  function Join(p: nat, h: nat, x: nat): nat { p + h * x }

  /** `&` works on the low k digits and on the others separately. */
  lemma {:induction false} AndSplit(k: nat, p: nat, q: nat, x: nat, y: nat)
    requires p < Pow2(k) && q < Pow2(k)
    ensures And(Join(p, Pow2(k), x), Join(q, Pow2(k), y)) == Join(And(p, q), Pow2(k), And(x, y))
    decreases k
  {
    if k > 0 {
      assert Pow2(k) == 2 * Pow2(k - 1);
      AndSplit(k - 1, p / 2, q / 2, x, y);
      hide *;
      AndSplitStep(Pow2(k - 1), p, q, x, y);
    } else {
      AndZeros();
    }
  }

  lemma AndSplitStep(h: nat, p: nat, q: nat, x: nat, y: nat)
    requires And(Join(p / 2, h, x), Join(q / 2, h, y)) == Join(And(p / 2, q / 2), h, And(x, y))
    ensures And(Join(p, 2 * h, x), Join(q, 2 * h, y)) == Join(And(p, q), 2 * h, And(x, y))
  {
    hide And, Join;
    var p', a, q', b := p / 2, p % 2, q / 2, q % 2;
    AndDigit(p', q', a, b);
    AndDigit(Join(p', h, x), Join(q', h, y), a, b);
    Doubled(h, x, p', a, p);
    Doubled(h, y, q', b, q);
    Doubled(h, And(x, y), And(p', q'), a * b, And(p, q));
  }

  lemma Doubled(h: nat, x: nat, p': nat, a: nat, p: nat)
    requires p == 2 * p' + a
    ensures Join(p, 2 * h, x) == 2 * Join(p', h, x) + a
  {
    MulAssoc(2, h, x);
  }

  /** Every byte of the pattern is covered by the byte in its place. */
  predicate Fits(pattern: seq<u8>, o: seq<u8>)
    requires |pattern| <= |o|
  {
    forall i :: 0 <= i < |pattern| ==> And(pattern[i], o[i]) == pattern[i]
  }

  /** `(mask & word) == mask`, byte by byte. */
  lemma {:induction false} MaskByBytes(pattern: seq<u8>, b: seq<u8>)
    requires |b| == |pattern|
    ensures And(LoadLe(pattern), LoadLe(b)) == LoadLe(pattern) <==> Fits(pattern, b)
    decreases |b|
  {
    hide And, Fits;
    if b != [] {
      var p, q, x, y := pattern[0], b[0], LoadLe(pattern[1..]), LoadLe(b[1..]);
      MaskByBytes(pattern[1..], b[1..]);
      AndBytes(p, q, x, y);
      FitsTail(pattern, b);
    } else {
      AndZeros();
      FitsNothing(b);
    }
  }

  lemma AndBytes(p: u8, q: u8, x: nat, y: nat)
    ensures And(p + 256 * x, q + 256 * y) == And(p, q) + 256 * And(x, y)
    ensures And(p, q) <= p && And(x, y) <= x
  {
    Pow2Of32();
    hide And, Pow2;
    AndSplit(8, p, q, x, y);
  }

  lemma FitsNothing(b: seq<u8>)
    ensures Fits([], b)
  {
  }

  lemma AndZeros()
    ensures And(0, 0) == 0
  {
  }

  lemma FitsTail(pattern: seq<u8>, b: seq<u8>)
    requires |b| == |pattern| > 0
    ensures Fits(pattern, b) <==> And(pattern[0], b[0]) == pattern[0] && Fits(pattern[1..], b[1..])
  {
    if And(pattern[0], b[0]) == pattern[0] && Fits(pattern[1..], b[1..]) {
      forall i | 0 <= i < |pattern| ensures And(pattern[i], b[i]) == pattern[i] {
        if i > 0 { assert pattern[i] == pattern[1..][i - 1] && b[i] == b[1..][i - 1]; }
      }
    }
    if Fits(pattern, b) {
      forall i | 0 <= i < |pattern| - 1 ensures And(pattern[1..][i], b[1..][i]) == pattern[1..][i] {
        assert pattern[1..][i] == pattern[i + 1] && b[1..][i] == b[i + 1];
      }
    }
  }

  const SYN_1: seq<u8> := [2, 0, 0, 0, 4, 0, 8, 0]       // MSS, SackOK, timestamp
  const SYN_2A: seq<u8> := [2, 0, 0, 0, 1, 7, 0, 0]      // MSS, NOP, WScale ...
  const SYN_2B: seq<u8> := [0, 1, 1, 8]                  // ... NOP, NOP, timestamp
  const SYN_3B: seq<u8> := [0, 4, 0, 8]                  // ... SackOK, timestamp
  const ACK_1: seq<u8> := [1, 1, 8, 0, 0, 0, 0, 0]       // NOP, NOP, timestamp
  const SYNACK_3: seq<u8> := [4, 0, 0, 0, 1, 1, 8, 0]    // MSS, NOP, NOP, timestamp

  /** A 64-bit test at the start, a 32-bit test behind it. */
  method Test64(mask: nat, pattern: seq<u8>, o: seq<u8>) returns (b: bool)
    requires |o| >= 8 && |pattern| == 8 && LoadLe(pattern) == mask
    ensures b == Fits(pattern, o)
  {
    MaskByBytes(pattern, o[..8]);
    FitsPrefix(pattern, o, o[..8]);
    b := And(mask, LoadLe(o[..8])) == mask;
  }

  method Test32(mask: nat, pattern: seq<u8>, o: seq<u8>) returns (b: bool)
    requires |o| >= 12 && |pattern| == 4 && LoadLe(pattern) == mask
    ensures b == Fits(pattern, o[8..])
  {
    MaskByBytes(pattern, o[8..12]);
    FitsPrefix(pattern, o[8..], o[8..12]);
    b := And(mask, LoadLe(o[8..12])) == mask;
  }

  lemma FitsPrefix(pattern: seq<u8>, o: seq<u8>, p: seq<u8>)
    requires |p| == |pattern| <= |o| && forall i :: 0 <= i < |p| ==> p[i] == o[i]
    ensures Fits(pattern, o) == Fits(pattern, p)
  {
  }

  lemma Masks()
    ensures LoadLe(SYN_1) == 0x0008_0004_0000_0002 && LoadLe(SYN_2A) == 0x0000_0701_0000_0002
    ensures LoadLe(SYN_2B) == 0x0801_0100 && LoadLe(SYN_3B) == 0x0800_0400
    ensures LoadLe(ACK_1) == 0x8_0101 && LoadLe(SYNACK_3) == 0x0008_0101_0000_0004
  {
    hide LoadLe;
    assert [0, 1, 1, 8] + [] == SYN_2B && [0, 4, 0, 8] + [] == SYN_3B;
    LoadNothing();
    Load8(2, 0, 0, 0, 4, 0, 8, 0);
    Load8(2, 0, 0, 0, 1, 7, 0, 0);
    Load8(1, 1, 8, 0, 0, 0, 0, 0);
    Load8(4, 0, 0, 0, 1, 1, 8, 0);
    Load4(0, 1, 1, 8, []);
    Load4(0, 4, 0, 8, []);
  }

  lemma LoadNothing()
    ensures LoadLe([]) == 0
  {
  }

  lemma Load4(a: u8, b: u8, c: u8, d: u8, rest: seq<u8>)
    ensures LoadLe([a, b, c, d] + rest) == a + 0x100 * b + 0x1_0000 * c + 0x100_0000 * d + TWO32 * LoadLe(rest)
  {
    var s := [a, b, c, d] + rest;
    assert s[1..] == [b, c, d] + rest && s[1..][1..] == [c, d] + rest && s[1..][1..][1..] == [d] + rest && s[1..][1..][1..][1..] == rest;
    var z := LoadLe(rest);
    assert LoadLe([d] + rest) == d + 256 * z;
    assert LoadLe([c, d] + rest) == c + 256 * (d + 256 * z);
    assert LoadLe([b, c, d] + rest) == b + 256 * (c + 256 * (d + 256 * z));
  }

  lemma Load8(a: u8, b: u8, c: u8, d: u8, e: u8, f: u8, g: u8, h: u8)
    ensures LoadLe([a, b, c, d, e, f, g, h]) ==
      a + 0x100 * b + 0x1_0000 * c + 0x100_0000 * d + TWO32 * (e + 0x100 * f + 0x1_0000 * g + 0x100_0000 * h)
  {
    hide LoadLe;
    LoadNothing();
    Load4(a, b, c, d, [e, f, g, h]);
    Load4(e, f, g, h, []);
    assert [a, b, c, d] + [e, f, g, h] == [a, b, c, d, e, f, g, h];
    assert [e, f, g, h] + [] == [e, f, g, h];
  }

  // ---------------------------------------------------------------------------
  // The parsers as functions

  /** The offset a mask promises, or -1.  The tests for the third SYN layout and the
      fourth SYN-ACK layout repeat an earlier first half and are never reached. */
  function Fast(syn: bool, ack: bool, o: seq<u8>): int
    requires |o| >= 12
  {
    if syn && !ack then
      if Fits(SYN_1, o) then 6
      else if Fits(SYN_2A, o) && Fits(SYN_2B, o[8..]) then 10
      else -1
    else if ack && !syn then
      if Fits(ACK_1, o) then 2 else -1
    else
      if Fits(ACK_1, o) then 2
      else if Fits(SYN_2A, o) then (if Fits(SYN_3B, o[8..]) then 10 else -1)
      else if Fits(SYNACK_3, o) && Fits(SYN_3B, o[8..]) then 6
      else -1
  }

  /** The walk from i, for at most `turns` options. */
  function Slow(o: seq<u8>, n: nat, i: nat, turns: nat): int
    requires n <= |o|
    decreases turns
  {
    if turns == 0 || i >= n || o[i] == 0 then -1
    else if o[i] == 1 then Slow(o, n, i + 1, turns - 1)
    else if i + 2 > n then -1
    else if o[i] != 8 then Slow(o, n, i + o[i + 1], turns - 1)
    else i
  }

  /** parse_timestamp at the gateway, on at least 12 option bytes. */
  function Gateway(syn: bool, ack: bool, o: seq<u8>, n: nat): int
    requires 12 <= n <= |o|
  {
    if Fast(syn, ack, o) != -1 then Fast(syn, ack, o) else Slow(o, n, 0, 40)
  }

  /** parse_timestamp at the server: 10 turns, and the option must end in the packet. */
  function Server(syn: bool, ack: bool, o: seq<u8>, n: nat): int
    requires 12 <= n <= |o|
  {
    var k := if (syn || ack) && Fast(syn, ack, o) != -1 then Fast(syn, ack, o) else Slow(o, n, 0, 10);
    if k + 10 > |o| then -1 else k
  }

  // ---------------------------------------------------------------------------
  // The parsers as they run

  method WalkFrom(o: seq<u8>, n: nat, turns: nat) returns (r: int)
    requires n <= |o|
    ensures r == Slow(o, n, 0, turns)
  {
    var i, opt := 0, 0;
    while i < turns
      invariant 0 <= i <= turns && 0 <= opt
      invariant Slow(o, n, opt, turns - i) == Slow(o, n, 0, turns)
    {
      if opt + 1 > n {
        return -1;
      }
      if o[opt] == 0 {
        return -1;
      }
      if o[opt] == 1 {
        opt := opt + 1;
      } else {
        if opt + 2 > n {
          return -1;
        }
        var optLen: int := o[opt + 1];
        if o[opt] != 8 {
          opt := opt + optLen;
        } else {
          return opt;
        }
      }
      i := i + 1;
    }
    return -1;
  }

  /** The gateway's parser, for any number of option bytes. */
  method ParseAtGateway(syn: bool, ack: bool, o: seq<u8>, n: nat) returns (r: int)
    requires n <= |o|
    ensures n >= 12 ==> r == Gateway(syn, ack, o, n)
    ensures 8 <= n < 12 ==>
      r == if syn && !ack then (if Fits(SYN_1, o) then 6 else -1)
           else if Fits(ACK_1, o) then 2
           else if ack && !syn then Slow(o, n, 0, 40)
           else -1
    ensures n < 8 ==> r == -1
  {
    Masks();
    hide Fits, Slow, LoadLe;
    if n < 8 {
      return -1;
    }
    if syn && !ack {
      var first := Test64(0x0008_0004_0000_0002, SYN_1, o);
      if first {
        return 6;
      }
      if n < 12 {
        return -1;
      }
      var front := Test64(0x0000_0701_0000_0002, SYN_2A, o);
      if front {
        var back := Test32(0x0801_0100, SYN_2B, o);
        if back {
          return 10;
        }
      } else {
        front := Test64(0x0000_0701_0000_0002, SYN_2A, o);
        if front {
          assert false;
        }
      }
    } else if ack && !syn {
      var first := Test64(0x8_0101, ACK_1, o);
      if first {
        return 2;
      }
    } else {
      var first := Test64(0x8_0101, ACK_1, o);
      if first {
        return 2;
      }
      if n < 12 {
        return -1;
      }
      r := SynAckMasks(o);
      if r != -1 {
        return;
      }
    }
    r := WalkFrom(o, n, 40);
  }

  method SynAckMasks(o: seq<u8>) returns (r: int)
    requires |o| >= 12
    ensures !Fits(ACK_1, o) ==> r == Fast(true, true, o)
  {
    Masks();
    hide Fits, LoadLe;
    var front := Test64(0x0000_0701_0000_0002, SYN_2A, o);
    if front {
      var back := Test32(0x0800_0400, SYN_3B, o);
      if back {
        return 10;
      }
    } else {
      front := Test64(0x0008_0101_0000_0004, SYNACK_3, o);
      if front {
        var back := Test32(0x0800_0400, SYN_3B, o);
        if back {
          return 6;
        }
      } else {
        front := Test64(0x0000_0701_0000_0002, SYN_2A, o);
        if front {
          assert false;
        }
      }
    }
    return -1;
  }

  /** The server's parser; the header lies inside the packet. */
  method ParseAtServer(syn: bool, ack: bool, o: seq<u8>, n: nat) returns (r: int)
    requires 12 <= n <= |o|
    ensures r == Server(syn, ack, o, n)
  {
    Masks();
    hide Fits, Slow, LoadLe;
    var found := -1;
    if syn && !ack {
      var first := Test64(0x0008_0004_0000_0002, SYN_1, o);
      if first {
        found := 6;
      } else {
        var front := Test64(0x0000_0701_0000_0002, SYN_2A, o);
        if front {
          var back := Test32(0x0801_0100, SYN_2B, o);
          if back {
            found := 10;
          }
        }
      }
    }
    if ack && !syn {
      var first := Test64(0x8_0101, ACK_1, o);
      if first {
        found := 2;
      }
    }
    if syn && ack {
      var first := Test64(0x8_0101, ACK_1, o);
      if first {
        found := 2;
      } else {
        found := SynAckMasks(o);
      }
    }
    if found == -1 {
      var k := WalkFrom(o, n, 10);
      if k + 10 > |o| {
        return -1;
      }
      return k;
    }
    // the cursor moves by the offset before it is checked once more
    if found + found > |o| {
      return -1;
    }
    if found + 10 > |o| {
      return -1;
    }
    return found;
  }

  // ---------------------------------------------------------------------------
  // Agreement

  lemma {:induction false} MoreTurns(o: seq<u8>, n: nat, i: nat, t: nat, t': nat)
    requires n <= |o| && t <= t' && Slow(o, n, i, t) != -1
    ensures Slow(o, n, i, t') == Slow(o, n, i, t)
    decreases t
  {
    if i < n && o[i] == 1 {
      MoreTurns(o, n, i + 1, t - 1, t' - 1);
    } else if i + 2 <= n && o[i] != 8 && o[i] != 0 {
      MoreTurns(o, n, i + o[i + 1], t - 1, t' - 1);
    }
  }

  /** What the server finds, the gateway finds at the same offset; and the server
      finds it exactly when a mask or 10 turns reach it and it lies in the packet. */
  lemma {:induction false} ParsersAgree(syn: bool, ack: bool, o: seq<u8>, n: nat)
    requires 12 <= n <= |o| && (syn || ack)
    ensures Server(syn, ack, o, n) != -1 ==> Gateway(syn, ack, o, n) == Server(syn, ack, o, n)
    ensures var g := Gateway(syn, ack, o, n);
      g != -1 ==>
        (Server(syn, ack, o, n) == g <==> g + 10 <= |o| && (Fast(syn, ack, o) != -1 || Slow(o, n, 0, 10) != -1))
  {
    hide Fits;
    if Slow(o, n, 0, 10) != -1 { MoreTurns(o, n, 0, 10, 40); }
  }

  /** Ten NOPs in front of the option are too many for the server. */
  lemma {:induction false} TenNops(o: seq<u8>, k: nat, t: nat)
    requires |o| >= 20 && (forall i :: 0 <= i < 10 ==> o[i] == 1) && o[10] == 8 && k <= 10
    ensures Slow(o, 20, k, t) == if t > 10 - k then 10 else -1
    decreases t
  {
    if k < 10 && t > 0 { TenNops(o, k + 1, t - 1); }
  }

  lemma {:induction false} ServerMisses(o: seq<u8>)
    requires |o| >= 20 && (forall i :: 0 <= i < 10 ==> o[i] == 1) && o[10] == 8
    ensures Gateway(false, true, o, 20) == 10 && Server(false, true, o, 20) == -1
  {
    assert And(8, 1) == 0;
    assert !Fits(ACK_1, o) by { assert ACK_1[2] == 8 && o[2] == 1; }
    TenNops(o, 0, 40);
    TenNops(o, 0, 10);
  }

  // ---------------------------------------------------------------------------
  // The plain walk

  datatype Finding = At(offset: nat) | Absent | Malformed

  /** The option list as section 3.1 of RFC 9293 defines it: end of list, no
      operation, or kind, length and data; timestamps have length 10. */
  function Plain(o: seq<u8>, n: nat, i: nat): Finding
    requires n <= |o|
    decreases n - i
  {
    if i >= n || o[i] == 0 then Absent
    else if o[i] == 1 then Plain(o, n, i + 1)
    else if i + 2 > n || o[i + 1] < 2 || i + o[i + 1] > n then Malformed
    else if o[i] != 8 then Plain(o, n, i + o[i + 1])
    else if o[i + 1] == 10 then At(i)
    else Malformed
  }

  function Offset(f: Finding): int { if f.At? then f.offset else -1 }

  lemma {:induction false} EnoughTurns(o: seq<u8>, n: nat, i: nat, t: nat)
    requires n <= |o| && n - i <= t && Plain(o, n, i) != Malformed
    ensures Slow(o, n, i, t) == Offset(Plain(o, n, i))
    decreases n - i
  {
    if i < n && o[i] == 1 {
      EnoughTurns(o, n, i + 1, t - 1);
    } else if i + 2 <= n && o[i] != 8 && o[i] != 0 {
      EnoughTurns(o, n, i + o[i + 1], t - 1);
    }
  }

  /** An option other than end of list, no operation and timestamp. */
  predicate IsOption(kind: u8) { kind != 0 && kind != 1 && kind != 8 }

  /** Offset k starts an option: a NOP ends there, or an option of the right length. */
  predicate Starts(o: seq<u8>, k: nat)
    requires k <= |o|
    decreases k
  {
    || k == 0
    || (Starts(o, k - 1) && o[k - 1] == 1)
    || exists i :: 0 <= i <= k - 2 && Starts(o, i) && IsOption(o[i]) && i + o[i + 1] == k
  }

  /** The option that begins at i ends at k. */
  predicate Jump(o: seq<u8>, k: nat, i: nat)
    requires i + 2 <= k <= |o|
  {
    Starts(o, i) && IsOption(o[i]) && i + o[i + 1] == k
  }

  lemma StartsNext(o: seq<u8>, k: nat)
    requires 0 < k <= |o|
    ensures Starts(o, k) <==> (Starts(o, k - 1) && o[k - 1] == 1) || exists i :: 0 <= i <= k - 2 && Jump(o, k, i)
  {
    if exists i :: 0 <= i <= k - 2 && Starts(o, i) && IsOption(o[i]) && i + o[i + 1] == k {
      var i :| 0 <= i <= k - 2 && Starts(o, i) && IsOption(o[i]) && i + o[i + 1] == k;
      assert Jump(o, k, i);
    }
  }

  lemma {:induction false} WalkReaches(o: seq<u8>, n: nat, k: nat)
    requires k <= n <= |o| && Starts(o, k)
    ensures Plain(o, n, 0) == Plain(o, n, k)
    decreases k
  {
    if k > 0 {
      if Starts(o, k - 1) && o[k - 1] == 1 {
        WalkReaches(o, n, k - 1);
      } else {
        var i :| 0 <= i <= k - 2 && Starts(o, i) && IsOption(o[i]) && i + o[i + 1] == k;
        WalkReaches(o, n, i);
      }
    }
  }

  lemma {:induction false} WalkStarts(o: seq<u8>, n: nat, i: nat, k: nat)
    requires i <= n <= |o| && Starts(o, i) && Plain(o, n, i) == At(k)
    ensures k < n && Starts(o, k) && o[k] == 8
    decreases n - i
  {
    if o[i] == 1 {
      WalkStarts(o, n, i + 1, k);
    } else if o[i] != 8 {
      var l: int := o[i + 1];
      assert Starts(o, i + l);
      WalkStarts(o, n, i + l, k);
    }
  }

  /** Where the plain walk finds the timestamp, in terms of the bytes before it. */
  lemma {:induction false} PlainIff(o: seq<u8>, n: nat, k: nat)
    requires k < n <= |o| && Plain(o, n, 0) != Malformed
    ensures Plain(o, n, 0) == At(k) <==> Starts(o, k) && o[k] == 8
  {
    if Plain(o, n, 0) == At(k) { WalkStarts(o, n, 0, k); }
    if Starts(o, k) && o[k] == 8 { WalkReaches(o, n, k); }
  }

  /** What the bounded walk itself reaches, on any bytes: it also steps over options
      that claim a length of 1, or one beyond the header. */
  predicate Steps(o: seq<u8>, n: nat, k: nat)
    requires k <= n <= |o|
    decreases k
  {
    || k == 0
    || (Steps(o, n, k - 1) && o[k - 1] == 1)
    || exists i :: 0 <= i < k && i + 2 <= n && Steps(o, n, i) && IsOption(o[i]) && i + o[i + 1] == k
  }

  lemma {:induction false} StepsTaken(o: seq<u8>, n: nat, k: nat, t: nat) returns (t': nat)
    requires k <= n <= |o| && k <= t && Steps(o, n, k)
    ensures t' >= t - k && Slow(o, n, 0, t) == Slow(o, n, k, t')
    decreases k
  {
    t' := t;
    if k > 0 {
      if Steps(o, n, k - 1) && o[k - 1] == 1 {
        t' := StepsTaken(o, n, k - 1, t);
        t' := t' - 1;
      } else {
        var i :| 0 <= i < k && i + 2 <= n && Steps(o, n, i) && IsOption(o[i]) && i + o[i + 1] == k;
        t' := StepsTaken(o, n, i, t);
        t' := t' - 1;
      }
    }
  }

  lemma {:induction false} WalkSteps(o: seq<u8>, n: nat, i: nat, t: nat)
    requires i <= n <= |o| && Steps(o, n, i) && Slow(o, n, i, t) >= 0
    ensures var k := Slow(o, n, i, t); k + 2 <= n && Steps(o, n, k) && o[k] == 8
    decreases t
  {
    if o[i] == 1 {
      WalkSteps(o, n, i + 1, t - 1);
    } else if o[i] != 8 {
      var l: int := o[i + 1];
      assert Slow(o, n, i, t) == Slow(o, n, i + l, t - 1);
      assert i + l < n;
      WalkSteps(o, n, i + l, t - 1);
    }
  }

  /** Forty turns find the option, whatever the bytes, exactly where a chain of steps
      leads to its kind byte with room for its length. */
  lemma {:induction false} SlowIff(o: seq<u8>, n: nat, k: nat)
    requires n <= 40 && n <= |o|
    ensures Slow(o, n, 0, 40) == k <==> k + 2 <= n && Steps(o, n, k) && o[k] == 8
    ensures Slow(o, n, 0, 40) >= -1
  {
    SlowBound(o, n, 0, 40);
    if Slow(o, n, 0, 40) == k { WalkSteps(o, n, 0, 40); }
    if k + 2 <= n && Steps(o, n, k) && o[k] == 8 {
      var t := StepsTaken(o, n, k, 40);
    }
  }

  lemma {:induction false} SlowBound(o: seq<u8>, n: nat, i: nat, t: nat)
    requires n <= |o|
    ensures Slow(o, n, i, t) >= -1
    decreases t
  {
    if t > 0 && i < n && o[i] == 1 {
      SlowBound(o, n, i + 1, t - 1);
    } else if t > 0 && i + 2 <= n && o[i] != 8 && o[i] != 0 {
      SlowBound(o, n, i + o[i + 1], t - 1);
    }
  }

  // The mask tests leave few ways to an offset; these are they.

  predicate To2(o: seq<u8>)
    requires |o| >= 12
  {
    o[1] == 2
  }

  predicate To3(o: seq<u8>)
    requires |o| >= 12
  {
    o[1] == 3 || (To2(o) && o[2] == 1)
  }

  predicate To4(o: seq<u8>)
    requires |o| >= 12
  {
    o[1] == 4 || (To3(o) && o[3] == 1) || (To2(o) && IsOption(o[2]) && o[3] == 2)
  }

  /** With bit 1 of the first kind, bit 2 of byte 4 and bit 3 of byte 6 set. */
  predicate SixInSyn(o: seq<u8>)
    requires |o| >= 12
  {
    o[6] == 8 &&
    (o[1] == 6 || (o[1] == 5 && o[5] == 1) || (To4(o) && o[5] == 2) || (To2(o) && IsOption(o[2]) && (o[3] == 4 || (o[3] == 3 && o[5] == 1))))
  }

  /** Offset 5, when byte 4 is odd. */
  predicate To5(o: seq<u8>)
    requires |o| >= 12
  {
    o[1] == 5 || (To4(o) && o[4] == 1) || (To2(o) && IsOption(o[2]) && o[3] == 3)
  }

  /** With bit 2 of the first kind and bytes 4 and 5 odd. */
  predicate SixInSynAck(o: seq<u8>)
    requires |o| >= 12
  {
    o[6] == 8 &&
    (o[1] == 6 || (To5(o) && o[5] == 1) || (To3(o) && IsOption(o[3]) && o[4] == 3) || (To2(o) && IsOption(o[2]) && o[3] == 4))
  }

  predicate To6(o: seq<u8>)
    requires |o| >= 12
  {
    o[1] == 6 || (To3(o) && IsOption(o[3]) && o[4] == 3) || (To2(o) && IsOption(o[2]) && o[3] == 4)
  }

  predicate To7(o: seq<u8>)
    requires |o| >= 12
  {
    || o[1] == 7 || (To6(o) && o[6] == 1) || (To5(o) && o[6] == 2)
    || (To2(o) && IsOption(o[2]) && o[3] == 5)
  }

  /** With bit 1 of the first kind, byte 4 odd, byte 5 = 7 mod 8 and bit 2 of byte 9. */
  predicate TenInSynAck(o: seq<u8>)
    requires |o| >= 12
  {
    o[10] == 8 &&
    (|| o[1] == 10
     || (To7(o) && IsOption(o[7]) && o[8] == 3)
     || (To6(o) && IsOption(o[6]) && o[7] == 4)
     || (To5(o) && o[6] == 5)
     || (To3(o) && IsOption(o[3]) && o[4] == 7)
     || (To2(o) && IsOption(o[2]) && o[3] == 8))
  }

  /** The bytes that make the offset promised by a matching mask the right one. */
  predicate MaskRight(syn: bool, ack: bool, o: seq<u8>)
    requires |o| >= 12
  {
    if syn && !ack then Fits(SYN_1, o) && SixInSyn(o)
    else if Fits(ACK_1, o) then o[0] == 1 && o[1] == 1 && o[2] == 8
    else if ack && !syn then false
    else if Fits(SYN_2A, o) then TenInSynAck(o)
    else SixInSynAck(o)
  }

  /** A single bit, or the low three, by division. */
  lemma MaskBits(x: u8)
    ensures And(1, x) == 1 <==> x % 2 == 1
    ensures And(2, x) == 2 <==> x / 2 % 2 == 1
    ensures And(4, x) == 4 <==> x / 4 % 2 == 1
    ensures And(8, x) == 8 <==> x / 8 % 2 == 1
    ensures And(7, x) == 7 <==> x % 8 == 7
  {
    var x2, x4, x8 := x / 2, x / 2 / 2, x / 2 / 2 / 2;
    assert x4 == x / 4 && x8 == x / 8;
    One(x); One(x2); One(x4); One(x8);
    Twice(1, x); Twice(1, x2); Twice(1, x4);
    Twice(2, x); Twice(2, x2);
    Twice(4, x);
    AndDigit(3, x2, 1, x % 2);
    AndDigit(1, x4, 1, x2 % 2);
  }

  lemma One(x: nat)
    ensures And(1, x) == x % 2
  {
  }

  lemma Twice(m: nat, x: nat)
    ensures And(2 * m, x) == 2 * And(m, x / 2)
  {
    AndDigit(m, x / 2, 0, x % 2);
  }

  lemma StartsEarly(o: seq<u8>)
    requires |o| >= 12 && IsOption(o[0])
    ensures !Starts(o, 1) && Starts(o, 2) == To2(o) && Starts(o, 3) == To3(o) && Starts(o, 4) == To4(o)
  {
    hide Starts;
    AtZero(o);
    StartsNext(o, 1);
    StartsNext(o, 2);
    if To2(o) { assert Jump(o, 2, 0); }
    StartsNext(o, 3);
    if o[1] == 3 { assert Jump(o, 3, 0); }
    StartsNext(o, 4);
    if o[1] == 4 { assert Jump(o, 4, 0); }
    if To2(o) && IsOption(o[2]) && o[3] == 2 { assert Jump(o, 4, 2); }
  }

  lemma AtZero(o: seq<u8>)
    ensures Starts(o, 0)
  {
  }

  lemma StartsFive(o: seq<u8>)
    requires |o| >= 12 && IsOption(o[0])
    ensures Starts(o, 5) <==>
      o[1] == 5 || (To4(o) && o[4] == 1) || (To3(o) && IsOption(o[3]) && o[4] == 2) || (To2(o) && IsOption(o[2]) && o[3] == 3)
  {
    hide Starts, To2, To3, To4;
    AtZero(o);
    StartsEarly(o);
    StartsNext(o, 5);
    if o[1] == 5 { assert Jump(o, 5, 0); }
    if To3(o) && IsOption(o[3]) && o[4] == 2 { assert Jump(o, 5, 3); }
    if To2(o) && IsOption(o[2]) && o[3] == 3 { assert Jump(o, 5, 2); }
  }

  lemma StartsSix(o: seq<u8>)
    requires |o| >= 12 && IsOption(o[0])
    ensures Starts(o, 6) <==>
      || o[1] == 6 || (Starts(o, 5) && o[5] == 1) || (To4(o) && IsOption(o[4]) && o[5] == 2)
      || (To3(o) && IsOption(o[3]) && o[4] == 3) || (To2(o) && IsOption(o[2]) && o[3] == 4)
  {
    hide Starts, To2, To3, To4;
    AtZero(o);
    StartsEarly(o);
    StartsNext(o, 6);
    if o[1] == 6 { assert Jump(o, 6, 0); }
    if To4(o) && IsOption(o[4]) && o[5] == 2 { assert Jump(o, 6, 4); }
    if To3(o) && IsOption(o[3]) && o[4] == 3 { assert Jump(o, 6, 3); }
    if To2(o) && IsOption(o[2]) && o[3] == 4 { assert Jump(o, 6, 2); }
  }

  lemma StartsSeven(o: seq<u8>)
    requires |o| >= 12 && IsOption(o[0])
    ensures Starts(o, 7) <==>
      || o[1] == 7 || (Starts(o, 6) && o[6] == 1) || (Starts(o, 5) && IsOption(o[5]) && o[6] == 2)
      || (To4(o) && IsOption(o[4]) && o[5] == 3) || (To3(o) && IsOption(o[3]) && o[4] == 4)
      || (To2(o) && IsOption(o[2]) && o[3] == 5)
  {
    hide Starts, To2, To3, To4;
    AtZero(o);
    StartsEarly(o);
    StartsNext(o, 7);
    if o[1] == 7 { assert Jump(o, 7, 0); }
    if Starts(o, 5) && IsOption(o[5]) && o[6] == 2 { assert Jump(o, 7, 5); }
    if To4(o) && IsOption(o[4]) && o[5] == 3 { assert Jump(o, 7, 4); }
    if To3(o) && IsOption(o[3]) && o[4] == 4 { assert Jump(o, 7, 3); }
    if To2(o) && IsOption(o[2]) && o[3] == 5 { assert Jump(o, 7, 2); }
  }

  lemma StartsTen(o: seq<u8>)
    requires |o| >= 12 && IsOption(o[0]) && o[9] != 1 && o[9] != 2 && o[5] != 6
    ensures Starts(o, 10) <==>
      || o[1] == 10 || (Starts(o, 7) && IsOption(o[7]) && o[8] == 3) || (Starts(o, 6) && IsOption(o[6]) && o[7] == 4)
      || (Starts(o, 5) && IsOption(o[5]) && o[6] == 5) || (To3(o) && IsOption(o[3]) && o[4] == 7)
      || (To2(o) && IsOption(o[2]) && o[3] == 8)
  {
    hide Starts, To2, To3, To4;
    AtZero(o);
    StartsEarly(o);
    StartsNext(o, 10);
    if o[1] == 10 { assert Jump(o, 10, 0); }
    if Starts(o, 7) && IsOption(o[7]) && o[8] == 3 { assert Jump(o, 10, 7); }
    if Starts(o, 6) && IsOption(o[6]) && o[7] == 4 { assert Jump(o, 10, 6); }
    if Starts(o, 5) && IsOption(o[5]) && o[6] == 5 { assert Jump(o, 10, 5); }
    if To3(o) && IsOption(o[3]) && o[4] == 7 { assert Jump(o, 10, 3); }
    if To2(o) && IsOption(o[2]) && o[3] == 8 { assert Jump(o, 10, 2); }
  }

  lemma FitsAt(pattern: seq<u8>, o: seq<u8>, i: nat)
    requires |pattern| <= |o| && i < |pattern| && Fits(pattern, o)
    ensures And(pattern[i], o[i]) == pattern[i]
  {
  }

  lemma AckRight(o: seq<u8>)
    requires |o| >= 12 && Fits(ACK_1, o)
    ensures Starts(o, 2) && o[2] == 8 <==> o[0] == 1 && o[1] == 1 && o[2] == 8
  {
    FitsAt(ACK_1, o, 1);
    MaskBits(o[1]);
    hide Starts, And, Fits;
    AtZero(o);
    StartsNext(o, 1);
    StartsNext(o, 2);
  }

  lemma SynRight(o: seq<u8>)
    requires |o| >= 12 && Fits(SYN_1, o)
    ensures Starts(o, 6) && o[6] == 8 <==> SixInSyn(o)
  {
    FitsAt(SYN_1, o, 0);
    FitsAt(SYN_1, o, 4);
    MaskBits(o[0]);
    MaskBits(o[4]);
    hide Starts, And, Fits, To2, To3, To4;
    StartsFive(o);
    StartsSix(o);
  }

  lemma SynAckSixRight(o: seq<u8>)
    requires |o| >= 12 && Fits(SYNACK_3, o)
    ensures Starts(o, 6) && o[6] == 8 <==> SixInSynAck(o)
  {
    FitsAt(SYNACK_3, o, 0);
    FitsAt(SYNACK_3, o, 4);
    FitsAt(SYNACK_3, o, 5);
    MaskBits(o[0]);
    MaskBits(o[4]);
    MaskBits(o[5]);
    hide Starts, And, Fits, To2, To3, To4;
    StartsFive(o);
    StartsSix(o);
  }

  /** What the two masks say about the bytes that matter. */
  predicate TenBytes(o: seq<u8>)
    requires |o| >= 12
  {
    IsOption(o[0]) && o[4] != 2 && o[4] != 4 && o[5] !in {1, 2, 3, 6} && IsOption(o[5]) && o[9] != 1 && o[9] != 2
  }

  lemma TenMasks(o: seq<u8>)
    requires |o| >= 12 && Fits(SYN_2A, o) && Fits(SYN_3B, o[8..])
    ensures TenBytes(o)
  {
    FitsAt(SYN_2A, o, 0);
    FitsAt(SYN_2A, o, 4);
    FitsAt(SYN_2A, o, 5);
    FitsAt(SYN_3B, o[8..], 1);
    assert o[8..][1] == o[9];
    MaskBits(o[0]);
    MaskBits(o[4]);
    MaskBits(o[5]);
    MaskBits(o[9]);
    hide And, Fits;
  }

  lemma TenSteps(o: seq<u8>)
    requires |o| >= 12 && TenBytes(o)
    ensures Starts(o, 5) == To5(o) && Starts(o, 6) == To6(o) && Starts(o, 7) == To7(o)
  {
    hide Starts, To2, To3, To4;
    StartsFive(o);
    StartsSix(o);
    StartsSeven(o);
  }

  lemma SynAckTenRight(o: seq<u8>)
    requires |o| >= 12 && Fits(SYN_2A, o) && Fits(SYN_3B, o[8..])
    ensures Starts(o, 10) && o[10] == 8 <==> TenInSynAck(o)
  {
    hide Starts, Fits, To2, To3, To4, To5, To6, To7;
    TenMasks(o);
    TenSteps(o);
    StartsTen(o);
  }

  lemma SynTenWrong(o: seq<u8>)
    requires |o| >= 12 && Fits(SYN_2B, o[8..])
    ensures o[10] != 8
  {
    FitsAt(SYN_2B, o[8..], 2);
    assert o[8..][2] == o[10];
    MaskBits(o[10]);
  }

  /** 40 turns suffice for every well-formed list, since a header has at most 40
      option bytes; so the gateway is right exactly when no mask matches, or the bytes
      in front make the offset promised by the mask an option start. */
  lemma {:induction false} GatewayIsPlain(syn: bool, ack: bool, o: seq<u8>, n: nat)
    requires 12 <= n <= 40 && n <= |o| && Plain(o, n, 0) != Malformed
    ensures Slow(o, n, 0, 40) == Offset(Plain(o, n, 0))
    ensures Gateway(syn, ack, o, n) == Offset(Plain(o, n, 0)) <==> Fast(syn, ack, o) == -1 || MaskRight(syn, ack, o)
  {
    EnoughTurns(o, n, 0, 40);
    hide Fits, Slow, Plain, Starts, SixInSyn, SixInSynAck, TenInSynAck;
    PlainIff(o, n, 2);
    PlainIff(o, n, 6);
    PlainIff(o, n, 10);
    if Fits(ACK_1, o) { AckRight(o); }
    if Fits(SYN_1, o) { SynRight(o); }
    if Fits(SYNACK_3, o) { SynAckSixRight(o); }
    if Fits(SYN_2A, o) && Fits(SYN_3B, o[8..]) { SynAckTenRight(o); }
    if Fits(SYN_2B, o[8..]) { SynTenWrong(o); }
  }

  /** A mask can mislead: window scale 9 before a NOP looks like two NOPs and a
      timestamp, in every ACK that starts so. */
  lemma {:induction false} MaskMisleads(o: seq<u8>)
    requires |o| >= 16 && o[..6] == [3, 3, 9, 1, 8, 10]
    ensures Plain(o, 16, 0) == At(4) && Gateway(false, true, o, 16) == 2
  {
    assert o[0] == o[..6][0] && o[1] == o[..6][1] && o[2] == o[..6][2] && o[3] == o[..6][3] && o[4] == o[..6][4] && o[5] == o[..6][5];
    assert Plain(o, 16, 3) == Plain(o, 16, 4);
    assert And(1, 3) == 1 && And(8, 9) == 8;
    AndNothing(o[3]); AndNothing(o[4]); AndNothing(o[5]); AndNothing(o[6]); AndNothing(o[7]);
    assert Fits(ACK_1, o);
  }

  lemma AndNothing(x: u8)
    ensures And(0, x) == 0
  {
  }

  // ---------------------------------------------------------------------------
  // The layouts that the masks are named after, and the gateway's own templates

  /** The option list starts with `front` and then the timestamp option. */
  predicate StartsWith(o: seq<u8>, n: nat, front: seq<u8>) {
    && |front| + 10 <= n <= |o| && n <= 40
    && o[..|front|] == front && o[|front|] == 8 && o[|front| + 1] == 10
  }

  lemma Starting(o: seq<u8>, n: nat, front: seq<u8>, i: nat)
    requires StartsWith(o, n, front) && i < |front|
    ensures o[i] == front[i]
  {
    assert o[i] == o[..|front|][i];
  }

  /** MSS, SackOK, timestamp: the first SYN layout, and both option templates. */
  lemma {:induction false} MssSack(syn: bool, ack: bool, o: seq<u8>, n: nat, m0: u8, m1: u8)
    requires StartsWith(o, n, [2, 4, m0, m1, 4, 2])
    ensures Plain(o, n, 0) == At(6) && Gateway(syn, ack, o, n) == 6
  {
    var front: seq<u8> := [2, 4, m0, m1, 4, 2];
    Starting(o, n, front, 0); Starting(o, n, front, 1); Starting(o, n, front, 4); Starting(o, n, front, 5);
    assert Plain(o, n, 4) == Plain(o, n, 6) == At(6);
    SmallAnds();
    assert !Fits(ACK_1, o) by { assert ACK_1[0] == 1 && And(1, 2) == 0; }
    assert !Fits(SYN_2A, o) by { assert SYN_2A[4] == 1 && And(1, 4) == 0; }
    assert !Fits(SYNACK_3, o) by { assert SYNACK_3[0] == 4 && And(4, 2) == 0; }
    GatewayIsPlain(syn, ack, o, n);
  }

  lemma SmallAnds()
    ensures And(1, 2) == 0 && And(1, 4) == 0 && And(4, 2) == 0 && And(4, 1) == 0 && And(7, 3) == 3
  {
  }

  /** MSS, NOP, WScale, NOP, NOP, timestamp. */
  lemma {:induction false} MssScaleNops(syn: bool, ack: bool, o: seq<u8>, n: nat, m0: u8, m1: u8, s: u8)
    requires StartsWith(o, n, [2, 4, m0, m1, 1, 3, 3, s, 1, 1])
    ensures Plain(o, n, 0) == At(10) && Gateway(syn, ack, o, n) == 10
  {
    var front: seq<u8> := [2, 4, m0, m1, 1, 3, 3, s, 1, 1];
    Starting(o, n, front, 0); Starting(o, n, front, 1); Starting(o, n, front, 4); Starting(o, n, front, 5);
    Starting(o, n, front, 6); Starting(o, n, front, 8); Starting(o, n, front, 9);
    assert Plain(o, n, 8) == Plain(o, n, 9) == Plain(o, n, 10) == At(10);
    assert Plain(o, n, 4) == Plain(o, n, 5) == Plain(o, n, 8);
    NoMask(syn, ack, o);
    GatewayIsPlain(syn, ack, o, n);
  }

  /** MSS, NOP, WScale, SackOK, timestamp. */
  lemma {:induction false} MssScaleSack(syn: bool, ack: bool, o: seq<u8>, n: nat, m0: u8, m1: u8, s: u8)
    requires StartsWith(o, n, [2, 4, m0, m1, 1, 3, 3, s, 4, 2])
    ensures Plain(o, n, 0) == At(10) && Gateway(syn, ack, o, n) == 10
  {
    var front: seq<u8> := [2, 4, m0, m1, 1, 3, 3, s, 4, 2];
    Starting(o, n, front, 0); Starting(o, n, front, 1); Starting(o, n, front, 4); Starting(o, n, front, 5);
    Starting(o, n, front, 6); Starting(o, n, front, 8); Starting(o, n, front, 9);
    assert Plain(o, n, 8) == Plain(o, n, 10) == At(10);
    assert Plain(o, n, 4) == Plain(o, n, 5) == Plain(o, n, 8);
    NoMask(syn, ack, o);
    GatewayIsPlain(syn, ack, o, n);
  }

  /** The masks test window scale with 7, but its kind is 3: they never match. */
  lemma NoMask(syn: bool, ack: bool, o: seq<u8>)
    requires |o| >= 12 && o[0] == 2 && o[4] == 1 && o[5] == 3
    ensures Fast(syn, ack, o) == -1
  {
    SmallAnds();
    assert !Fits(SYN_1, o) by { assert SYN_1[4] == 4 && And(4, 1) == 0; }
    assert !Fits(ACK_1, o) by { assert ACK_1[0] == 1 && And(1, 2) == 0; }
    assert !Fits(SYN_2A, o) by { assert SYN_2A[5] == 7 && And(7, 3) == 3; }
    assert !Fits(SYNACK_3, o) by { assert SYNACK_3[0] == 4 && And(4, 2) == 0; }
  }

  /** MSS, NOP, NOP, timestamp. */
  lemma {:induction false} MssNops(syn: bool, ack: bool, o: seq<u8>, n: nat, m0: u8, m1: u8)
    requires StartsWith(o, n, [2, 4, m0, m1, 1, 1])
    ensures Plain(o, n, 0) == At(6) && Gateway(syn, ack, o, n) == 6
  {
    var front: seq<u8> := [2, 4, m0, m1, 1, 1];
    Starting(o, n, front, 0); Starting(o, n, front, 1); Starting(o, n, front, 4); Starting(o, n, front, 5);
    assert Plain(o, n, 4) == Plain(o, n, 5) == Plain(o, n, 6) == At(6);
    SmallAnds();
    assert And(7, 1) == 1;
    assert !Fits(SYN_1, o) by { assert SYN_1[4] == 4; }
    assert !Fits(ACK_1, o) by { assert ACK_1[0] == 1; }
    assert !Fits(SYN_2A, o) by { assert SYN_2A[5] == 7; }
    assert !Fits(SYNACK_3, o) by { assert SYNACK_3[0] == 4; }
    GatewayIsPlain(syn, ack, o, n);
  }

  /** NOP, NOP, timestamp: the layout of ordinary segments. */
  lemma {:induction false} TwoNops(syn: bool, ack: bool, o: seq<u8>, n: nat)
    requires StartsWith(o, n, [1, 1])
    ensures Plain(o, n, 0) == At(2) && Gateway(syn, ack, o, n) == 2
  {
    var front: seq<u8> := [1, 1];
    Starting(o, n, front, 0); Starting(o, n, front, 1);
    assert Plain(o, n, 0) == Plain(o, n, 1) == Plain(o, n, 2) == At(2);
    assert And(2, 1) == 0;
    assert !Fits(SYN_1, o) by { assert SYN_1[0] == 2; }
    assert !Fits(SYN_2A, o) by { assert SYN_2A[0] == 2; }
    assert And(4, 1) == 0;
    assert !Fits(SYNACK_3, o) by { assert SYNACK_3[0] == 4; }
    GatewayIsPlain(syn, ack, o, n);
  }
}
