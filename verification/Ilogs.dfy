/** Integer binary logarithm of 32-bit and 64-bit words: the table form that indexes by a de
    Bruijn sequence, the branchless form, and the constant-expression form, all equal to
    floor(log2 v) + 1, or 0 at 0. */
module Ilogs {

  /** Bit `k` is the highest bit of `v`: 2^k <= v < 2^(k+1). */
  predicate Top(v: bv64, k: bv8) {
    k < 64 && v >> k == 1
  }

  /** `r` is floor(log2 v) + 1, or 0 at 0. */
  predicate IsLog(v: bv64, r: bv8) {
    if v == 0 then r == 0 else r >= 1 && Top(v, r - 1)
  }

  /** There is only one, so forms that satisfy the condition agree. */
  lemma LogIsUnique(v: bv64, r: bv8, s: bv8)
    requires IsLog(v, r) && IsLog(v, s)
    ensures r == s
  {
  }

  // ------------------------------------------------------------ constant expressions

  function StaticIlog0(v: bv64): bv8 { if v != 0 then 1 else 0 }

  function StaticIlog1(v: bv64): bv8 { if v & 0x2 != 0 then 2 else StaticIlog0(v) }

  function StaticIlog2(v: bv64): bv8 { if v & 0xC != 0 then 2 + StaticIlog1(v >> 2) else StaticIlog1(v) }

  function StaticIlog3(v: bv64): bv8 { if v & 0xF0 != 0 then 4 + StaticIlog2(v >> 4) else StaticIlog2(v) }

  function StaticIlog4(v: bv64): bv8 { if v & 0xFF00 != 0 then 8 + StaticIlog3(v >> 8) else StaticIlog3(v) }

  function StaticIlog5(v: bv64): bv8 { if v & 0xFFFF0000 != 0 then 16 + StaticIlog4(v >> 16) else StaticIlog4(v) }

  function StaticIlog6(v: bv64): bv8 {
    if v & 0xFFFF_FFFF_0000_0000 != 0 then 32 + StaticIlog5(v >> 32) else StaticIlog5(v)
  }

  /** STATIC_ILOG_32 on every 32-bit word. */
  lemma Static5IsLog(v: bv64)
    requires v < 0x1_0000_0000
    ensures IsLog(v, StaticIlog5(v)) && StaticIlog5(v) <= 32
  {
  }

  /** STATIC_ILOG_64 on every 64-bit word. */
  lemma Static6IsLog(v: bv64)
    ensures IsLog(v, StaticIlog6(v)) && StaticIlog6(v) <= 64
  {
  }

  // ------------------------------------------------------------ the de Bruijn form

  /** Entry `i` of a row of eight. */
  function Row(i: bv8, a: bv8, b: bv8, c: bv8, d: bv8, e: bv8, f: bv8, g: bv8, h: bv8): bv8 {
    if i == 0 then a else if i == 1 then b else if i == 2 then c else if i == 3 then d else
    if i == 4 then e else if i == 5 then f else if i == 6 then g else h
  }

  /** DEBRUIJN_IDX32. */
  function DebruijnIdx32(i: bv32): bv8 {
    var row, col := i >> 3, (i & 7) as bv8;
    if row == 0 then Row(col, 0, 1, 28, 2, 29, 14, 24, 3) else
    if row == 1 then Row(col, 30, 22, 20, 15, 25, 17, 4, 8) else
    if row == 2 then Row(col, 31, 27, 13, 23, 21, 19, 16, 7) else
    Row(col, 26, 12, 18, 6, 11, 5, 10, 9)
  }

  /** DEBRUIJN_IDX64. */
  function DebruijnIdx64(i: bv64): bv8 {
    var row, col := i >> 3, (i & 7) as bv8;
    if row == 0 then Row(col, 0, 1, 2, 7, 3, 13, 8, 19) else
    if row == 1 then Row(col, 4, 25, 14, 28, 9, 34, 20, 40) else
    if row == 2 then Row(col, 5, 17, 26, 38, 15, 46, 29, 48) else
    if row == 3 then Row(col, 10, 31, 35, 54, 21, 50, 41, 57) else
    if row == 4 then Row(col, 63, 6, 12, 18, 24, 27, 33, 39) else
    if row == 5 then Row(col, 16, 37, 45, 47, 30, 53, 49, 56) else
    if row == 6 then Row(col, 62, 11, 23, 32, 36, 44, 52, 55) else
    Row(col, 61, 22, 43, 51, 60, 42, 59, 58)
  }

  /** The index into the table: the top bits of a product that wraps. */
  function Key32(p: bv32): bv32 { ((p * 0x77CB531) >> 27) & 0x1F }

  function Key64(p: bv64): bv64 { ((p * 0x218A392CD3D5DBF) >> 58) & 0x3F }

  lemma Table64(k: bv8)
    requires k < 64
    ensures DebruijnIdx64(Key64((1 as bv64) << k)) == k
  {
  }

  function Smear32(v: bv32): bv32 {
    var a := v | (v >> 1);
    var b := a | (a >> 2);
    var c := b | (b >> 4);
    var d := c | (c >> 8);
    d | (d >> 16)
  }

  function Smear64(v: bv64): bv64 {
    var a := v | (v >> 1);
    var b := a | (a >> 2);
    var c := b | (b >> 4);
    var d := c | (c >> 8);
    var e := d | (d >> 16);
    e | (e >> 32)
  }

  lemma SmearedTop64(v: bv64, k: bv8)
    requires Top(v, k)
    ensures (Smear64(v) >> 1) + 1 == (1 as bv64) << k
  {
    if k < 8 { SmearedByte0(v, k); }
    else if k < 16 { SmearedByte1(v, k); }
    else if k < 24 { SmearedByte2(v, k); }
    else if k < 32 { SmearedByte3(v, k); }
    else if k < 40 { SmearedByte4(v, k); }
    else if k < 48 { SmearedByte5(v, k); }
    else if k < 56 { SmearedByte6(v, k); }
    else { SmearedByte7(v, k); }
  }

  lemma SmearedByte0(v: bv64, k: bv8)
    requires k < 8 && v >> k == 1
    ensures (Smear64(v) >> 1) + 1 == (1 as bv64) << k
  {
  }

  lemma SmearedByte1(v: bv64, k: bv8)
    requires 8 <= k < 16 && v >> k == 1
    ensures (Smear64(v) >> 1) + 1 == (1 as bv64) << k
  {
  }

  lemma SmearedByte2(v: bv64, k: bv8)
    requires 16 <= k < 24 && v >> k == 1
    ensures (Smear64(v) >> 1) + 1 == (1 as bv64) << k
  {
  }

  lemma SmearedByte3(v: bv64, k: bv8)
    requires 24 <= k < 32 && v >> k == 1
    ensures (Smear64(v) >> 1) + 1 == (1 as bv64) << k
  {
  }

  lemma SmearedByte4(v: bv64, k: bv8)
    requires 32 <= k < 40 && v >> k == 1
    ensures (Smear64(v) >> 1) + 1 == (1 as bv64) << k
  {
  }

  lemma SmearedByte5(v: bv64, k: bv8)
    requires 40 <= k < 48 && v >> k == 1
    ensures (Smear64(v) >> 1) + 1 == (1 as bv64) << k
  {
  }

  lemma SmearedByte6(v: bv64, k: bv8)
    requires 48 <= k < 56 && v >> k == 1
    ensures (Smear64(v) >> 1) + 1 == (1 as bv64) << k
  {
  }

  lemma SmearedByte7(v: bv64, k: bv8)
    requires 56 <= k < 64 && v >> k == 1
    ensures (Smear64(v) >> 1) + 1 == (1 as bv64) << k
  {
  }

  /** ilog32 with the de Bruijn table. */
  function Ilog32(v: bv32): (ret: bv8) {
    (if v > 0 then 1 else 0) + DebruijnIdx32(Key32((Smear32(v) >> 1) + 1))
  }

  /** ilog64 in one 64-bit operation. */
  function Ilog64(v: bv64): (ret: bv8) {
    (if v > 0 then 1 else 0) + DebruijnIdx64(Key64((Smear64(v) >> 1) + 1))
  }

  /** ilog64 on a host without 64-bit words: the logarithm of the half that matters. */
  function Ilog64Halves(v: bv64): (ret: bv8) {
    if v > 0xFFFF_FFFF then 32 + Ilog32((v >> 32) as bv32) else Ilog32(v as bv32)
  }

  lemma Ilog32IsLog(v: bv32)
    ensures IsLog(v as bv64, Ilog32(v)) && Ilog32(v) <= 32
  {
  }

  lemma Ilog64AtTop(v: bv64, k: bv8)
    requires Top(v, k)
    ensures Ilog64(v) == k + 1
  {
    SmearedTop64(v, k);
    Table64(k);
  }

  lemma Ilog64IsLog(v: bv64)
    ensures IsLog(v, Ilog64(v))
  {
    if v != 0 {
      Static6IsLog(v);
      Ilog64AtTop(v, StaticIlog6(v) - 1);
    }
  }

  lemma Ilog64HalvesIsLog(v: bv64)
    ensures IsLog(v, Ilog64Halves(v))
  {
  }

  // ------------------------------------------------------------ the branchless form

  /** What is left to compute before each step of the form without multiplication or table, from
      the last step to the first. */
  function Branchless2(v: bv64): bv8 { (if v > 0 then 1 else 0) + (if v > 1 then 1 else 0) }

  function Branchless4(v: bv64): bv8 { if v > 3 then 2 + Branchless2(v >> 2) else Branchless2(v) }

  function Branchless8(v: bv64): bv8 { if v > 0xF then 4 + Branchless4(v >> 4) else Branchless4(v) }

  function Branchless16(v: bv64): bv8 { if v > 0xFF then 8 + Branchless8(v >> 8) else Branchless8(v) }

  function Ilog32Branchless(v: bv64): (ret: bv8) {
    if v > 0xFFFF then 16 + Branchless16(v >> 16) else Branchless16(v)
  }

  function Ilog64Branchless(v: bv64): (ret: bv8) {
    if v > 0xFFFF_FFFF then 32 + Ilog32Branchless(v >> 32) else Ilog32Branchless(v)
  }

  lemma Branchless32IsLog(v: bv64)
    requires v < 0x1_0000_0000
    ensures IsLog(v, Ilog32Branchless(v)) && Ilog32Branchless(v) <= 32
  {
  }

  lemma Branchless64IsLog(v: bv64)
    ensures IsLog(v, Ilog64Branchless(v))
  {
  }

  /** One step: an amount that is zero or the constant, and the word shifted by it. */
  method Narrow32(v: bv64) returns (m: bv8, w: bv64)
    ensures m == 0 || m == 32
    ensures Ilog64Branchless(v) == m + Ilog32Branchless(w) && (v > 0 <==> w > 0)
  {
    if v > 0xFFFF_FFFF { m, w := 32, v >> 32; } else { m, w := 0, v; }
  }

  method Narrow16(v: bv64) returns (m: bv8, w: bv64)
    ensures m == 0 || m == 16
    ensures Ilog32Branchless(v) == m + Branchless16(w) && (v > 0 <==> w > 0)
  {
    if v > 0xFFFF { m, w := 16, v >> 16; } else { m, w := 0, v; }
  }

  method Narrow8(v: bv64) returns (m: bv8, w: bv64)
    ensures m == 0 || m == 8
    ensures Branchless16(v) == m + Branchless8(w) && (v > 0 <==> w > 0)
  {
    if v > 0xFF { m, w := 8, v >> 8; } else { m, w := 0, v; }
  }

  method Narrow4(v: bv64) returns (m: bv8, w: bv64)
    ensures m == 0 || m == 4
    ensures Branchless8(v) == m + Branchless4(w) && (v > 0 <==> w > 0)
  {
    if v > 0xF { m, w := 4, v >> 4; } else { m, w := 0, v; }
  }

  method Narrow2(v: bv64) returns (m: bv8, w: bv64)
    ensures m == 0 || m == 2
    ensures Branchless4(v) == m + Branchless2(w) && (v > 0 <==> w > 0)
  {
    if v > 3 { m, w := 2, v >> 2; } else { m, w := 0, v; }
  }

  /** Every amount has a bit of its own, so collecting them with `|` adds them up. */
  lemma OrIsSum(one: bv8, e: bv8, a: bv8, b: bv8, c: bv8, d: bv8)
    requires one <= 1 && (e == 0 || e == 32) && (a == 0 || a == 16) && (b == 0 || b == 8)
    requires (c == 0 || c == 4) && (d == 0 || d == 2)
    ensures one | e | a | b | c | d == e + (a + (b + (c + (d + one))))
    ensures one | a | b | c | d == a + (b + (c + (d + one)))
  {
  }

  /** ilog32 without multiplication or table. */
  method Ilog32NoDebruijn(v: bv64) returns (ret: bv8)
    ensures ret == Ilog32Branchless(v)
  {
    var one := if v > 0 then 1 else 0;
    var a, w := Narrow16(v);
    var b, x := Narrow8(w);
    var c, y := Narrow4(x);
    var d, z := Narrow2(y);
    ret := (one | a | b | c | d) + if z > 1 then 1 else 0;
    OrIsSum(one, 0, a, b, c, d);
  }

  /** ilog64 without multiplication or table. */
  method Ilog64NoDebruijn(v: bv64) returns (ret: bv8)
    ensures ret == Ilog64Branchless(v)
  {
    var one := if v > 0 then 1 else 0;
    var e, u := Narrow32(v);
    var a, w := Narrow16(u);
    var b, x := Narrow8(w);
    var c, y := Narrow4(x);
    var d, z := Narrow2(y);
    ret := (one | e | a | b | c | d) + if z > 1 then 1 else 0;
    OrIsSum(one, e, a, b, c, d);
  }

  // ------------------------------------------------------------ all forms agree

  /** The forms of ilog32 agree on every word. */
  lemma Ilog32FormsAgree(v: bv32)
    ensures Ilog32(v) == Ilog32Branchless(v as bv64) == StaticIlog5(v as bv64)
    ensures IsLog(v as bv64, Ilog32(v))
  {
    Ilog32IsLog(v);
    Static5IsLog(v as bv64);
    Branchless32IsLog(v as bv64);
    LogIsUnique(v as bv64, Ilog32(v), StaticIlog5(v as bv64));
    LogIsUnique(v as bv64, Ilog32(v), Ilog32Branchless(v as bv64));
  }

  /** The forms of ilog64 agree on every word. */
  lemma Ilog64FormsAgree(v: bv64)
    ensures Ilog64(v) == Ilog64Halves(v) == Ilog64Branchless(v) == StaticIlog6(v)
    ensures IsLog(v, Ilog64(v))
  {
    Ilog64IsLog(v);
    Ilog64HalvesIsLog(v);
    Branchless64IsLog(v);
    Static6IsLog(v);
    LogIsUnique(v, Ilog64(v), Ilog64Halves(v));
    LogIsUnique(v, Ilog64(v), Ilog64Branchless(v));
    LogIsUnique(v, Ilog64(v), StaticIlog6(v));
  }
}
