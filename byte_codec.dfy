/** Fixed-width little-endian element bytes. A tensor element is held as the
    bit pattern of its value in the low `w` bytes of a 64-bit word; the flat
    buffer is the elements' bytes one after another (row-major order). */
module ByteCodec {

  /** The byte widths of the element types the codec handles. */
  predicate IsWidth(w: nat) {
    w == 1 || w == 2 || w == 4 || w == 8
  }

  /** The bits of a word that lie above its low `w` bytes. */
  function HighMask(w: nat): bv64 {
    if w == 0 then 0xFFFF_FFFF_FFFF_FFFF
    else if w == 1 then 0xFFFF_FFFF_FFFF_FF00
    else if w == 2 then 0xFFFF_FFFF_FFFF_0000
    else if w == 3 then 0xFFFF_FFFF_FF00_0000
    else if w == 4 then 0xFFFF_FFFF_0000_0000
    else if w == 5 then 0xFFFF_FF00_0000_0000
    else if w == 6 then 0xFFFF_0000_0000_0000
    else if w == 7 then 0xFF00_0000_0000_0000
    else 0
  }

  /** `e` has no bits set above its low `w` bytes. */
  predicate Fits(e: bv64, w: nat) {
    e & HighMask(w) == 0
  }

  /** A word fits `w` bytes exactly when the word above its low byte fits
      `w - 1` bytes. Each width is one bit-vector fact, stated on its own. */
  lemma FitsStep(e: bv64, w: nat)
    requires 1 <= w <= 8
    ensures Fits(e, w) <==> Fits(e >> 8, w - 1)
  {
    if w == 1 {
      FitsStep1(e);
    } else if w == 2 {
      FitsStep2(e);
    } else if w == 3 {
      FitsStep3(e);
    } else if w == 4 {
      FitsStep4(e);
    } else if w == 5 {
      FitsStep5(e);
    } else if w == 6 {
      FitsStep6(e);
    } else if w == 7 {
      FitsStep7(e);
    } else {
      FitsStep8(e);
    }
  }

  lemma FitsStep1(e: bv64)
    ensures Fits(e, 1) <==> Fits(e >> 8, 0)
  {
  }

  lemma FitsStep2(e: bv64)
    ensures Fits(e, 2) <==> Fits(e >> 8, 1)
  {
  }

  lemma FitsStep3(e: bv64)
    ensures Fits(e, 3) <==> Fits(e >> 8, 2)
  {
  }

  lemma FitsStep4(e: bv64)
    ensures Fits(e, 4) <==> Fits(e >> 8, 3)
  {
  }

  lemma FitsStep5(e: bv64)
    ensures Fits(e, 5) <==> Fits(e >> 8, 4)
  {
  }

  lemma FitsStep6(e: bv64)
    ensures Fits(e, 6) <==> Fits(e >> 8, 5)
  {
  }

  lemma FitsStep7(e: bv64)
    ensures Fits(e, 7) <==> Fits(e >> 8, 6)
  {
  }

  lemma FitsStep8(e: bv64)
    ensures Fits(e, 8) <==> Fits(e >> 8, 7)
  {
  }

  /** A low byte put under a word that fits `w - 1` bytes gives a word that
      fits `w` bytes. */
  lemma FitsPush(b: bv8, x: bv64, w: nat)
    requires 1 <= w <= 8
    ensures Fits(x, w - 1) ==> Fits((b as bv64) | (x << 8), w)
  {
    if w == 1 {
      FitsPush1(b, x);
    } else if w == 2 {
      FitsPush2(b, x);
    } else if w == 3 {
      FitsPush3(b, x);
    } else if w == 4 {
      FitsPush4(b, x);
    } else if w == 5 {
      FitsPush5(b, x);
    } else if w == 6 {
      FitsPush6(b, x);
    } else if w == 7 {
      FitsPush7(b, x);
    } else {
      FitsPush8(b, x);
    }
  }

  lemma FitsPush1(b: bv8, x: bv64)
    ensures Fits(x, 0) ==> Fits((b as bv64) | (x << 8), 1)
  {
  }

  lemma FitsPush2(b: bv8, x: bv64)
    ensures Fits(x, 1) ==> Fits((b as bv64) | (x << 8), 2)
  {
  }

  lemma FitsPush3(b: bv8, x: bv64)
    ensures Fits(x, 2) ==> Fits((b as bv64) | (x << 8), 3)
  {
  }

  lemma FitsPush4(b: bv8, x: bv64)
    ensures Fits(x, 3) ==> Fits((b as bv64) | (x << 8), 4)
  {
  }

  lemma FitsPush5(b: bv8, x: bv64)
    ensures Fits(x, 4) ==> Fits((b as bv64) | (x << 8), 5)
  {
  }

  lemma FitsPush6(b: bv8, x: bv64)
    ensures Fits(x, 5) ==> Fits((b as bv64) | (x << 8), 6)
  {
  }

  lemma FitsPush7(b: bv8, x: bv64)
    ensures Fits(x, 6) ==> Fits((b as bv64) | (x << 8), 7)
  {
  }

  lemma FitsPush8(b: bv8, x: bv64)
    ensures Fits(x, 7) ==> Fits((b as bv64) | (x << 8), 8)
  {
  }

  /** A word that fits `w` bytes fits `w + 1` bytes. */
  lemma FitsGrow(x: bv64, w: nat)
    requires w <= 7
    ensures Fits(x, w) ==> Fits(x, w + 1)
  {
    if w == 0 {
      FitsGrow0(x);
    } else if w == 1 {
      FitsGrow1(x);
    } else if w == 2 {
      FitsGrow2(x);
    } else if w == 3 {
      FitsGrow3(x);
    } else if w == 4 {
      FitsGrow4(x);
    } else if w == 5 {
      FitsGrow5(x);
    } else if w == 6 {
      FitsGrow6(x);
    } else {
      FitsGrow7(x);
    }
  }

  lemma FitsGrow0(x: bv64)
    ensures Fits(x, 0) ==> Fits(x, 1)
  {
  }

  lemma FitsGrow1(x: bv64)
    ensures Fits(x, 1) ==> Fits(x, 2)
  {
  }

  lemma FitsGrow2(x: bv64)
    ensures Fits(x, 2) ==> Fits(x, 3)
  {
  }

  lemma FitsGrow3(x: bv64)
    ensures Fits(x, 3) ==> Fits(x, 4)
  {
  }

  lemma FitsGrow4(x: bv64)
    ensures Fits(x, 4) ==> Fits(x, 5)
  {
  }

  lemma FitsGrow5(x: bv64)
    ensures Fits(x, 5) ==> Fits(x, 6)
  {
  }

  lemma FitsGrow6(x: bv64)
    ensures Fits(x, 6) ==> Fits(x, 7)
  {
  }

  lemma FitsGrow7(x: bv64)
    ensures Fits(x, 7) ==> Fits(x, 8)
  {
  }

  /** A word that fits `k <= 7` bytes leaves its top byte clear. */
  lemma {:induction false} FitsTopByte(x: bv64, k: nat)
    requires k <= 7 && Fits(x, k)
    ensures Fits(x, 7)
    decreases 7 - k
  {
    if k < 7 {
      FitsGrow(x, k);
      FitsTopByte(x, k + 1);
    }
  }

  /** The word under the low byte shifts back out when its top byte is clear. */
  lemma ShiftBack(b: bv8, x: bv64)
    requires Fits(x, 7)
    ensures ((b as bv64) | (x << 8)) >> 8 == x
  {
  }

  /** The low `w` bytes of `e`, least significant first. */
  function ElemBytes(e: bv64, w: nat): (bs: seq<bv8>)
    ensures |bs| == w
    decreases w
  {
    if w == 0 then [] else [(e & 0xFF) as bv8] + ElemBytes(e >> 8, w - 1)
  }

  /** The word whose low bytes are `bs`, least significant first. */
  function ElemOfBytes(bs: seq<bv8>): bv64
    decreases |bs|
  {
    if bs == [] then 0 else (bs[0] as bv64) | (ElemOfBytes(bs[1..]) << 8)
  }

  /** Reading back the bytes of an element that fits its width gives it back. */
  lemma {:induction false} ElemRoundTrip(e: bv64, w: nat)
    requires w <= 8 && Fits(e, w)
    ensures ElemOfBytes(ElemBytes(e, w)) == e
    decreases w
  {
    if w > 0 {
      FitsStep(e, w);
      ElemRoundTrip(e >> 8, w - 1);
      var bs := ElemBytes(e, w);
      assert bs[1..] == ElemBytes(e >> 8, w - 1);
      assert ElemOfBytes(bs) == ((e & 0xFF) as bv8 as bv64) | ((e >> 8) << 8);
    }
  }

  /** The flat buffer of a sequence of elements, `w` bytes each. */
  function EncodeElems(es: seq<bv64>, w: nat): (bs: seq<bv8>)
    decreases |es|
  {
    if es == [] then [] else ElemBytes(es[0], w) + EncodeElems(es[1..], w)
  }

  /** The elements read from a buffer `w` bytes at a time; trailing bytes that
      do not fill a whole element are not read. */
  function DecodeElems(bs: seq<bv8>, w: nat): (es: seq<bv64>)
    requires w > 0
    decreases |bs|
  {
    if |bs| < w then [] else [ElemOfBytes(bs[..w])] + DecodeElems(bs[w..], w)
  }

  /** The buffer holds exactly `w` bytes per element. */
  lemma {:induction false} EncodeLength(es: seq<bv64>, w: nat)
    ensures |EncodeElems(es, w)| == |es| * w
    decreases |es|
  {
    if es != [] {
      EncodeLength(es[1..], w);
      assert |es| * w == w + |es[1..]| * w;
    }
  }

  /** Decoding reads as many whole elements as the buffer holds. */
  lemma {:induction false} DecodeCount(bs: seq<bv8>, w: nat)
    requires w > 0
    ensures |DecodeElems(bs, w)| * w <= |bs| < (|DecodeElems(bs, w)| + 1) * w
    decreases |bs|
  {
    if |bs| >= w {
      DecodeCount(bs[w..], w);
      var k := |DecodeElems(bs[w..], w)|;
      assert (k + 1) * w == k * w + w;
      assert (k + 2) * w == k * w + 2 * w;
    }
  }

  /** A buffer that is a whole number of elements decodes to exactly that
      many elements. */
  lemma DecodeExact(bs: seq<bv8>, w: nat)
    requires w > 0 && |bs| % w == 0
    ensures |DecodeElems(bs, w)| * w == |bs|
  {
    DecodeCount(bs, w);
    var k := |DecodeElems(bs, w)|;
    var q := |bs| / w;
    assert |bs| == q * w;
    if k < q {
      MulGap(k, q, w);
    } else if q < k {
      MulGap(q, k, w);
    }
  }

  /** Between two multiples of `w` lies at least `w`. */
  lemma MulGap(a: int, b: int, w: int)
    requires a < b && w > 0
    ensures a * w + w <= b * w
  {
    var d := b - a - 1;
    assert b * w == a * w + d * w + w;
    assert d * w >= 0;
  }

  /** Decoding the buffer of elements that fit their width gives them back. */
  lemma {:induction false} ElemsRoundTrip(es: seq<bv64>, w: nat)
    requires 0 < w <= 8
    requires forall i :: 0 <= i < |es| ==> Fits(es[i], w)
    ensures DecodeElems(EncodeElems(es, w), w) == es
    decreases |es|
  {
    if es != [] {
      var bs := EncodeElems(es, w);
      var head := ElemBytes(es[0], w);
      EncodeLength(es[1..], w);
      assert bs[..w] == head;
      assert bs[w..] == EncodeElems(es[1..], w);
      ElemRoundTrip(es[0], w);
      ElemsRoundTrip(es[1..], w);
    }
  }

  /** Every element read from a buffer fits the width it was read with. */
  lemma {:induction false} DecodedFit(bs: seq<bv8>, w: nat)
    requires IsWidth(w)
    ensures forall i :: 0 <= i < |DecodeElems(bs, w)| ==> Fits(DecodeElems(bs, w)[i], w)
    decreases |bs|
  {
    if |bs| >= w {
      DecodedFit(bs[w..], w);
      BytesFit(bs[..w]);
    }
  }

  /** A word built from `k` bytes fits `k` bytes. */
  lemma {:induction false} BytesFit(bs: seq<bv8>)
    requires |bs| <= 8
    ensures Fits(ElemOfBytes(bs), |bs|)
    decreases |bs|
  {
    if bs != [] {
      BytesFit(bs[1..]);
      FitsPush(bs[0], ElemOfBytes(bs[1..]), |bs|);
      FitsTopByte(ElemOfBytes(bs[1..]), |bs| - 1);
      ShiftBack(bs[0], ElemOfBytes(bs[1..]));
    }
  }
}
