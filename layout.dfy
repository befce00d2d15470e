/** Row-major layout of a dense D-dimensional grid.

    A grid of shape [n_0, ..., n_(D-1)] stores its n_0 * ... * n_(D-1) entries
    in one flat buffer. The entry at coordinate tuple (i_0, ..., i_(D-1)) lives
    at the row-major offset: the model fixes this layout, with axis 0 varying
    slowest and axis D-1 fastest. The same layout is used to fill a grid and
    to read it, so Offset and Decode below must be inverse bijections between
    valid tuples and [0, Size). */
module Layout {

  /** Number of entries of a grid of this shape: the product of its axis sizes.
      A grid has entries exactly when none of its axes is empty. */
  function Size(shape: seq<nat>): (s: nat)
    ensures s > 0 <==> forall j :: 0 <= j < |shape| ==> shape[j] > 0
  {
    if |shape| == 0 then 1 else shape[0] * Size(shape[1..])
  }

  /** idx is a valid coordinate tuple for shape: one index per axis, each below its axis size. */
  predicate InBounds(shape: seq<nat>, idx: seq<nat>)
  {
    |idx| == |shape| && forall j :: 0 <= j < |idx| ==> idx[j] < shape[j]
  }

  // Arithmetic facts about the offsets of one axis.

  lemma MulStrictBound(i: nat, n: nat, s: nat, r: nat)
    requires i < n && r < s
    ensures i * s + r < n * s
  {
    assert i * s + s == (i + 1) * s;
    assert (i + 1) * s <= n * s;
  }

  lemma MulNonneg(a: int, b: int)
    requires a >= 0 && b >= 0
    ensures a * b >= 0
  {
  }

  lemma SmallMultipleIsZero(d: int, s: int)
    requires s > 0 && -s < d * s < s
    ensures d == 0
  {
    if d > 0 {
      MulNonneg(d - 1, s);
      assert false;
    } else if d < 0 {
      MulNonneg(-d - 1, s);
      assert false;
    }
  }

  lemma DivModOfSum(i: nat, s: nat, r: nat)
    requires r < s
    ensures (i * s + r) / s == i && (i * s + r) % s == r
  {
    var q, m := (i * s + r) / s, (i * s + r) % s;
    assert (q - i) * s == r - m;
    SmallMultipleIsZero(q - i, s);
  }

  lemma DivBound(off: nat, n: nat, s: nat)
    requires off < n * s
    ensures s > 0 && off / s < n
  {
    assert s != 0;
    var q := off / s;
    assert q * s <= off;
    if q >= n {
      MulNonneg(q - n, s);
      assert false;
    }
  }

  lemma InBoundsCons(shape: seq<nat>, i: nat, rest: seq<nat>)
    requires |shape| > 0 && i < shape[0] && InBounds(shape[1..], rest)
    ensures InBounds(shape, [i] + rest)
  {
    var idx := [i] + rest;
    forall j | 0 <= j < |idx|
      ensures idx[j] < shape[j]
    {
      if j > 0 {
        assert idx[j] == rest[j - 1] && shape[j] == shape[1..][j - 1];
      }
    }
  }

  /** The row-major offset of a valid tuple; it always falls inside the buffer. */
  function Offset(shape: seq<nat>, idx: seq<nat>): (off: nat)
    requires InBounds(shape, idx)
    ensures off < Size(shape)
    decreases |shape|
  {
    if |shape| == 0 then 0
    else
      assert InBounds(shape[1..], idx[1..]);
      var rest := Offset(shape[1..], idx[1..]);
      MulStrictBound(idx[0], shape[0], Size(shape[1..]), rest);
      idx[0] * Size(shape[1..]) + rest
  }

  /** The tuple stored at a buffer offset; it is always a valid tuple. */
  function Decode(shape: seq<nat>, off: nat): (idx: seq<nat>)
    requires off < Size(shape)
    ensures InBounds(shape, idx)
    decreases |shape|
  {
    if |shape| == 0 then []
    else
      var s := Size(shape[1..]);
      DivBound(off, shape[0], s);
      var rest := Decode(shape[1..], off % s);
      InBoundsCons(shape, off / s, rest);
      [off / s] + rest
  }

  /** Decoding the offset of a tuple gives the tuple back. */
  lemma {:induction false} DecodeOffset(shape: seq<nat>, idx: seq<nat>)
    requires InBounds(shape, idx)
    ensures Decode(shape, Offset(shape, idx)) == idx
    decreases |shape|
  {
    if |shape| > 0 {
      assert InBounds(shape[1..], idx[1..]);
      var s := Size(shape[1..]);
      var rest := Offset(shape[1..], idx[1..]);
      DivModOfSum(idx[0], s, rest);
      DecodeOffset(shape[1..], idx[1..]);
      assert idx == [idx[0]] + idx[1..];
    }
  }

  /** Taking the offset of a decoded tuple gives the offset back. */
  lemma {:induction false} OffsetDecode(shape: seq<nat>, off: nat)
    requires off < Size(shape)
    ensures Offset(shape, Decode(shape, off)) == off
    decreases |shape|
  {
    if |shape| > 0 {
      var s := Size(shape[1..]);
      DivBound(off, shape[0], s);
      OffsetDecode(shape[1..], off % s);
      var idx := Decode(shape, off);
      assert idx[1..] == Decode(shape[1..], off % s);
    }
  }

  /** Distinct valid tuples never share an offset. */
  lemma OffsetInjective(shape: seq<nat>, idx1: seq<nat>, idx2: seq<nat>)
    requires InBounds(shape, idx1) && InBounds(shape, idx2)
    ensures Offset(shape, idx1) == Offset(shape, idx2) <==> idx1 == idx2
  {
    DecodeOffset(shape, idx1);
    DecodeOffset(shape, idx2);
  }

  /** Every offset of the buffer is the offset of exactly one valid tuple. */
  lemma OffsetSurjective(shape: seq<nat>, off: nat)
    requires off < Size(shape)
    ensures exists idx :: InBounds(shape, idx) && Offset(shape, idx) == off
  {
    OffsetDecode(shape, off);
    var idx := Decode(shape, off);
    assert InBounds(shape, idx) && Offset(shape, idx) == off;
  }

  /** A valid tuple is stored at its own offset and at no other. */
  lemma DecodeOnlyAtOffset(shape: seq<nat>, idx: seq<nat>)
    requires InBounds(shape, idx)
    ensures forall off :: 0 <= off < Size(shape) && Decode(shape, off) == idx ==> off == Offset(shape, idx)
  {
    forall off | 0 <= off < Size(shape) && Decode(shape, off) == idx
      ensures off == Offset(shape, idx)
    {
      OffsetDecode(shape, off);
    }
  }
}
