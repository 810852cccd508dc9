/**
 Compacting a KMS signature: lower S to the canonical half of the curve order, then write R and S as
 two 32-byte big-endian words. Parsing the DER form is a foreign call, so R and S come in as any
 integers it may yield.
 */
module CompactSignature {

  import opened Words
  import opened Arithmetic

  type Byte = b: int | 0 <= b < 256

  /** The order of the secp256k1 group. */
  const CURVE_ORDER: int := 0xFFFFFFFF_FFFFFFFF_FFFFFFFF_FFFFFFFE_BAAEDCE6_AF48A03B_BFD25E8C_D0364141

  const WORD_LEN := 32

  function Pow256(k: nat): (p: nat)
    ensures p > 0
  {
    if k == 0 then 1 else 256 * Pow256(k - 1)
  }

  function Decode(s: seq<Byte>): nat {
    if s == [] then 0 else Decode(s[..|s| - 1]) * 256 + s[|s| - 1]
  }

  /** `big.Int.Bytes`: the absolute value, big-endian, without leading zeros. */
  function Bytes(x: int): seq<Byte> {
    if x < 0 then Magnitude(-x) else Magnitude(x)
  }

  function Magnitude(x: nat): seq<Byte> {
    if x == 0 then [] else Magnitude(x / 256) + [x % 256]
  }

  lemma {:induction false} DecodeBytes(x: nat)
    ensures Decode(Magnitude(x)) == x
  {
    if x > 0 {
      DecodeBytes(x / 256);
      assert Magnitude(x)[..|Magnitude(x)| - 1] == Magnitude(x / 256);
    }
  }

  lemma {:induction false} BytesLength(x: nat, k: nat)
    ensures x < Pow256(k) <==> |Magnitude(x)| <= k
    decreases k
  {
    if k > 0 && x > 0 {
      BytesLength(x / 256, k - 1);
    }
  }

  lemma {:induction false} DecodePadded(pad: seq<Byte>, s: seq<Byte>)
    requires forall i :: 0 <= i < |pad| ==> pad[i] == 0
    ensures Decode(pad + s) == Decode(s)
    decreases |pad| + |s|
  {
    if s != [] {
      assert (pad + s)[..|pad + s| - 1] == pad + s[..|s| - 1];
      DecodePadded(pad, s[..|s| - 1]);
    } else if pad != [] {
      assert pad + s == pad && pad[..|pad| - 1] + s == pad[..|pad| - 1];
      DecodePadded(pad[..|pad| - 1], s);
    }
  }

  lemma TimesPower(h: int, k: nat)
    ensures h * Pow256(k + 1) == 256 * (h * Pow256(k))
  {
  }

  lemma {:induction false} DecodeBounds(s: seq<Byte>)
    requires s != []
    ensures s[0] * Pow256(|s| - 1) <= Decode(s) < (s[0] + 1) * Pow256(|s| - 1)
  {
    var n := |s| - 1;
    if n > 0 {
      DecodeBounds(s[..n]);
      TimesPower(s[0], n - 1);
      TimesPower(s[0] as int + 1, n - 1);
    } else {
      assert s[..0] == [];
    }
  }

  lemma DecodeFits(s: seq<Byte>)
    requires s != []
    ensures Decode(s) < Pow256(|s|)
  {
    DecodeBounds(s);
    MulMonotone(s[0] as int + 1, 256, Pow256(|s| - 1));
  }

  /** S, or its mirror image when it lies above half the order. */
  function LowS(s: int): int {
    if s > CURVE_ORDER / 2 then CURVE_ORDER - s else s
  }

  /** For a real S, lowering picks the smaller of the two equivalent values, always in the lower half. */
  lemma LowSIsMinimum(s: int)
    requires 1 <= s < CURVE_ORDER
    ensures LowS(s) == (if s < CURVE_ORDER - s then s else CURVE_ORDER - s)
    ensures 1 <= LowS(s) <= CURVE_ORDER / 2
    ensures LowS(LowS(s)) == LowS(s) && LowS(CURVE_ORDER - s) == LowS(s)
  {
  }

  predicate FitsWord(x: int) {
    0 <= x < Pow256(WORD_LEN)
  }

  datatype Compacted = ParseFailure | SlicePanic | Signature(bytes: seq<Byte>)

  /** Both words of `sig` are in place. */
  predicate Holds(sig: seq<Byte>, r: int, s: int) {
    && |sig| == 2 * WORD_LEN
    && Decode(sig[..WORD_LEN]) == r
    && Decode(sig[WORD_LEN..]) == s
  }

  /** Copies `src` into `buf` so that it ends just before `end`; the bytes in front stay as they are. */
  method CopyEndingAt(buf: array<Byte>, end: nat, src: seq<Byte>)
    requires |src| <= end <= buf.Length
    modifies buf
    ensures buf[..] == old(buf[..end - |src|]) + src + old(buf[end..])
  {
    var start := end - |src|;
    for i := 0 to |src|
      invariant forall j :: 0 <= j < buf.Length && !(start <= j < start + i) ==> buf[j] == old(buf[j])
      invariant forall j :: 0 <= j < i ==> buf[start + j] == src[j]
    {
      buf[start + i] := src[i];
    }
  }

  method ConvertToCompactSignature(parsed: Option<(int, int)>) returns (c: Compacted)
    ensures c.ParseFailure? <==> parsed.None?
    ensures parsed.Some? ==>
              (c.SlicePanic? <==> |Bytes(parsed.value.0)| > WORD_LEN || |Bytes(LowS(parsed.value.1))| > 2 * WORD_LEN)
    ensures c.Signature? ==> |c.bytes| == 2 * WORD_LEN
    ensures parsed.Some? ==>
              ((c.Signature? && Holds(c.bytes, parsed.value.0, LowS(parsed.value.1)))
               <==> FitsWord(parsed.value.0) && FitsWord(LowS(parsed.value.1)))
  {
    if parsed.None? {
      return ParseFailure;
    }
    var (r, s) := parsed.value;
    var signature := new Byte[2 * WORD_LEN](_ => 0);
    if s > CURVE_ORDER / 2 {
      s := CURVE_ORDER - s;
    }
    var rBytes, sBytes := Bytes(r), Bytes(s);
    BytesFit(r, rBytes);
    BytesFit(s, sBytes);
    if |rBytes| > WORD_LEN || |sBytes| > 2 * WORD_LEN {
      return SlicePanic;
    }
    ghost var zeros := signature[..];
    CopyEndingAt(signature, WORD_LEN, rBytes);
    CopyEndingAt(signature, 2 * WORD_LEN, sBytes);
    c := Signature(signature[..]);
    if FitsWord(r) && FitsWord(s) {
      WordsInPlace(zeros, rBytes, sBytes, c.bytes, r, s);
    } else {
      HalvesFit(c.bytes);
    }
  }

  lemma BytesFit(x: int, bs: seq<Byte>)
    requires bs == Bytes(x)
    ensures FitsWord(x) ==> |bs| <= WORD_LEN && Decode(bs) == x
    ensures |bs| > WORD_LEN ==> !FitsWord(x)
  {
    if x >= 0 {
      DecodeBytes(x);
      BytesLength(x, WORD_LEN);
    }
  }

  lemma WordsInPlace(zeros: seq<Byte>, rBytes: seq<Byte>, sBytes: seq<Byte>, sig: seq<Byte>, r: int, s: int)
    requires |zeros| == 2 * WORD_LEN && forall i :: 0 <= i < |zeros| ==> zeros[i] == 0
    requires |rBytes| <= WORD_LEN && |sBytes| <= WORD_LEN
    requires Decode(rBytes) == r && Decode(sBytes) == s
    requires var half := zeros[..WORD_LEN - |rBytes|] + rBytes + zeros[WORD_LEN..];
             sig == half[..2 * WORD_LEN - |sBytes|] + sBytes + half[2 * WORD_LEN..]
    ensures Holds(sig, r, s)
  {
    var half := zeros[..WORD_LEN - |rBytes|] + rBytes + zeros[WORD_LEN..];
    var rPad, sPad := zeros[..WORD_LEN - |rBytes|], half[WORD_LEN..2 * WORD_LEN - |sBytes|];
    forall i | 0 <= i < |sPad| ensures sPad[i] == 0 {
      assert sPad[i] == half[WORD_LEN + i] == zeros[WORD_LEN..][i] == zeros[WORD_LEN + i];
    }
    assert sig[..WORD_LEN] == rPad + rBytes;
    assert sig[WORD_LEN..] == sPad + sBytes;
    DecodePadded(rPad, rBytes);
    DecodePadded(sPad, sBytes);
  }

  lemma HalvesFit(sig: seq<Byte>)
    requires |sig| == 2 * WORD_LEN
    ensures FitsWord(Decode(sig[..WORD_LEN])) && FitsWord(Decode(sig[WORD_LEN..]))
  {
    DecodeFits(sig[..WORD_LEN]);
    DecodeFits(sig[WORD_LEN..]);
  }

  /** The check on the top bit of S; `b >> 7` and `b & 0x80` are written as arithmetic. */
  method CompactSignatureMalleabilityCheck(sig: seq<Byte>) returns (ok: bool)
    requires |sig| == 2 * WORD_LEN
    ensures ok <==> sig[WORD_LEN] < 0x80
  {
    var b: int := sig[WORD_LEN];
    if b < 0 {
      return false;
    }
    if (b / 128 == 1) != ((b / 128) % 2 == 1) {
      return false;
    }
    if (b / 128) % 2 == 1 {
      return false;
    }
    return true;
  }

  lemma {:induction false} PowAdd(a: nat, b: nat)
    ensures Pow256(a + b) == Pow256(a) * Pow256(b)
  {
    if a > 0 {
      PowAdd(a - 1, b);
    }
  }

  lemma PowerOf8()
    ensures Pow256(8) == 0x1_0000_0000_0000_0000
  {
    PowAdd(4, 4);
    PowAdd(2, 2);
    assert Pow256(2) == 0x1_0000;
  }

  lemma PowerOf31()
    ensures Pow256(31) == 0x1000000_00000000_00000000_00000000_00000000_00000000_00000000_00000000
  {
    PowerOf8();
    PowAdd(8, 8);
    PowAdd(16, 8);
    PowAdd(24, 7);
    PowAdd(7, 1);
  }

  lemma HalfOrderBelowTopBit()
    ensures CURVE_ORDER < Pow256(WORD_LEN) && CURVE_ORDER / 2 < 0x80 * Pow256(WORD_LEN - 1)
  {
    PowerOf31();
  }

  /** Every R and S a signature can have fit their words, S in the lower half of its own. */
  lemma RealWordsFit(r: int, s: int)
    requires 1 <= r < CURVE_ORDER && 1 <= s < CURVE_ORDER
    ensures FitsWord(r) && FitsWord(LowS(s)) && LowS(s) < 0x80 * Pow256(WORD_LEN - 1)
  {
    HalfOrderBelowTopBit();
    LowSIsMinimum(s);
  }

  /** A word in the lower half has a clear top bit. */
  lemma TopBitClear(word: seq<Byte>)
    requires |word| == WORD_LEN && Decode(word) < 0x80 * Pow256(WORD_LEN - 1)
    ensures word[0] < 0x80
  {
    DecodeBounds(word);
    if 0x80 <= word[0] {
      MulMonotone(0x80, word[0], Pow256(WORD_LEN - 1));
    }
  }

  /** End to end: conversion of a real signature succeeds and the malleability check cannot fail. */
  method CompactAndCheck(r: int, s: int) returns (sig: seq<Byte>, ok: bool)
    requires 1 <= r < CURVE_ORDER && 1 <= s < CURVE_ORDER
    ensures Holds(sig, r, if s < CURVE_ORDER - s then s else CURVE_ORDER - s)
    ensures ok
  {
    LowSIsMinimum(s);
    RealWordsFit(r, s);
    var c := ConvertToCompactSignature(Some((r, s)));
    sig := c.bytes;
    TopBitClear(sig[WORD_LEN..]);
    ok := CompactSignatureMalleabilityCheck(sig);
  }
}
