/** meshgen::meshgrid and the mesh_grid<T, k, D> container.

    Given D axis sequences, meshgrid returns D dense D-dimensional grids of
    shape [|axis_0|, ..., |axis_(D-1)|]; grid k holds axis k broadcast across
    every other axis ("ij" indexing: grid_k(i_0, ..., i_(D-1)) == axis_k[i_k]).
    Each grid keeps its axis tag k and dimension D, which the C++ code carries
    as template arguments, and a flat buffer in the row-major layout of Layout. */
module Meshgrid {
  import opened Layout

  /** mesh_grid<T, k, D>: the grid for axis k of a D-dimensional mesh. */
  datatype MeshGrid<T> = MeshGrid(axis: nat, dim: nat, shape: seq<nat>, data: seq<T>)
  {
    /** The tags fit the shape and the buffer holds one entry per coordinate tuple,
        so a valid grid has entries exactly when none of its axes is empty. */
    predicate Valid()
      ensures Valid() ==> (|data| > 0 <==> forall j :: 0 <= j < |shape| ==> shape[j] > 0)
    {
      |shape| == dim && axis < dim && |data| == Size(shape)
    }

    /** The D-ary accessor grid(i_0, ..., i_(D-1)): the buffer entry whose
        coordinate tuple, in the row-major layout, is idx. */
    function At(idx: seq<nat>): (v: T)
      requires Valid() && InBounds(shape, idx)
      ensures forall off :: 0 <= off < |data| && Decode(shape, off) == idx ==> v == data[off]
    {
      DecodeOnlyAtOffset(shape, idx);
      data[Offset(shape, idx)]
    }
  }

  /** The shape of the mesh spanned by the given axes: one size per axis. */
  function Shape<T>(axes: seq<seq<T>>): seq<nat>
  {
    seq(|axes|, k requires 0 <= k < |axes| => |axes[k]|)
  }

  /** g holds values broadcast along its own axis: every entry equals the
      axis value picked by its own coordinate on that axis. */
  ghost predicate Broadcasts<T>(g: MeshGrid<T>, values: seq<T>)
  {
    g.Valid() && |values| == g.shape[g.axis] &&
    forall idx :: InBounds(g.shape, idx) ==> g.At(idx) == values[idx[g.axis]]
  }

  /** grids is what meshgrid must return for axes: grid k is tagged (k, D),
      spans the whole mesh, and broadcasts axis k. */
  ghost predicate IsMeshgrid<T>(axes: seq<seq<T>>, grids: seq<MeshGrid<T>>)
  {
    |grids| == |axes| &&
    forall k :: 0 <= k < |axes| ==>
      grids[k].axis == k && grids[k].dim == |axes| && grids[k].shape == Shape(axes) &&
      Broadcasts(grids[k], axes[k])
  }

  /** Broadcasting read through the accessor is the same as the flat fill
      rule: buffer entry o holds the axis value of the o-th tuple's own coordinate. */
  lemma BroadcastsFlat<T>(g: MeshGrid<T>, values: seq<T>)
    requires g.Valid() && |values| == g.shape[g.axis]
    ensures Broadcasts(g, values) <==>
      forall o :: 0 <= o < |g.data| ==> g.data[o] == values[Decode(g.shape, o)[g.axis]]
  {
    if Broadcasts(g, values) {
      forall o | 0 <= o < |g.data|
        ensures g.data[o] == values[Decode(g.shape, o)[g.axis]]
      {
        OffsetDecode(g.shape, o);
        assert g.At(Decode(g.shape, o)) == g.data[o];
      }
    }
    if forall o :: 0 <= o < |g.data| ==> g.data[o] == values[Decode(g.shape, o)[g.axis]] {
      forall idx | InBounds(g.shape, idx)
        ensures g.At(idx) == values[idx[g.axis]]
      {
        DecodeOffset(g.shape, idx);
      }
    }
  }

  /** Builds the grid for one axis: fills its flat buffer offset by offset,
      decoding at each offset the coordinate on the grid's own axis. */
  method Broadcast<T(0)>(values: seq<T>, shape: seq<nat>, axis: nat) returns (g: MeshGrid<T>)
    requires axis < |shape| && |values| == shape[axis]
    ensures g.axis == axis && g.dim == |shape| && g.shape == shape
    ensures Broadcasts(g, values)
  {
    var n := Size(shape);
    var buf := new T[n];
    var off := 0;
    while off < n
      invariant off <= n
      invariant forall o :: 0 <= o < off ==> buf[o] == values[Decode(shape, o)[axis]]
    {
      buf[off] := values[Decode(shape, off)[axis]];
      off := off + 1;
    }
    g := MeshGrid(axis, |shape|, shape, buf[..]);
    BroadcastsFlat(g, values);
  }

  /** meshgrid(axis_0, ..., axis_(D-1)) from whole containers: one grid per axis. */
  method Meshgrid<T(0)>(axes: seq<seq<T>>) returns (grids: seq<MeshGrid<T>>)
    ensures IsMeshgrid(axes, grids)
  {
    var shape := Shape(axes);
    grids := [];
    var k := 0;
    while k < |axes|
      invariant k <= |axes| && |grids| == k
      invariant forall j :: 0 <= j < k ==>
        grids[j].axis == j && grids[j].dim == |axes| && grids[j].shape == shape &&
        Broadcasts(grids[j], axes[j])
    {
      var g := Broadcast(axes[k], shape, k);
      grids := grids + [g];
      k := k + 1;
    }
  }

  /** Meshgrid's result is determined by the axis contents alone: two results
      for the same axes are the same grids, buffer for buffer. */
  lemma MeshgridUnique<T>(axes: seq<seq<T>>, grids1: seq<MeshGrid<T>>, grids2: seq<MeshGrid<T>>)
    requires IsMeshgrid(axes, grids1) && IsMeshgrid(axes, grids2)
    ensures grids1 == grids2
  {
    forall k | 0 <= k < |axes|
      ensures grids1[k] == grids2[k]
    {
      var g1, g2 := grids1[k], grids2[k];
      BroadcastsFlat(g1, axes[k]);
      BroadcastsFlat(g2, axes[k]);
      assert g1.data == g2.data;
    }
  }

  /** Every grid of a mesh has one entry per coordinate tuple, the product of the
      axis sizes; an empty axis leaves every grid empty, so no read is valid. */
  lemma MeshgridSize<T>(axes: seq<seq<T>>, grids: seq<MeshGrid<T>>)
    requires IsMeshgrid(axes, grids)
    ensures forall k :: 0 <= k < |grids| ==> |grids[k].data| == Size(Shape(axes))
    ensures (exists j :: 0 <= j < |axes| && axes[j] == []) ==>
      forall k :: 0 <= k < |grids| ==> grids[k].data == []
  {
    if exists j :: 0 <= j < |axes| && axes[j] == [] {
      var j :| 0 <= j < |axes| && axes[j] == [];
      assert Shape(axes)[j] == 0;
    }
  }

  /** grid k does not depend on any coordinate other than its own: two tuples
      that agree on axis k read the same entry value. */
  lemma BroadcastIgnoresOtherAxes<T>(g: MeshGrid<T>, values: seq<T>, idx1: seq<nat>, idx2: seq<nat>)
    requires Broadcasts(g, values)
    requires InBounds(g.shape, idx1) && InBounds(g.shape, idx2) && idx1[g.axis] == idx2[g.axis]
    ensures g.At(idx1) == g.At(idx2)
  {
  }

  /** Each range [first, last) lies inside its sequence, of the given length. */
  predicate RangesFit(lengths: seq<nat>, ranges: seq<(nat, nat)>)
  {
    |ranges| == |lengths| &&
    forall k :: 0 <= k < |ranges| ==> ranges[k].0 <= ranges[k].1 <= lengths[k]
  }

  /** The axis contents an iterator pair names. */
  function RangeAxes<T>(vecs: seq<seq<T>>, ranges: seq<(nat, nat)>): seq<seq<T>>
    requires RangesFit(Shape(vecs), ranges)
  {
    seq(|vecs|, k requires 0 <= k < |vecs| => vecs[k][ranges[k].0..ranges[k].1])
  }

  /** The length of each buffer. */
  function ArrayLengths<T>(bufs: seq<array<T>>): seq<nat>
  {
    seq(|bufs|, k requires 0 <= k < |bufs| => bufs[k].Length)
  }

  /** The axis contents a raw-pointer pair names. */
  function PointerAxes<T>(bufs: seq<array<T>>, ranges: seq<(nat, nat)>): seq<seq<T>>
    requires RangesFit(ArrayLengths(bufs), ranges)
    reads set k | 0 <= k < |bufs| :: bufs[k]
  {
    seq(|bufs|, k requires 0 <= k < |bufs| reads set j | 0 <= j < |bufs| :: bufs[j] => bufs[k][ranges[k].0..ranges[k].1])
  }

  /** meshgrid(first_0, last_0, ..., first_(D-1), last_(D-1)) over vector iterators. */
  method MeshgridOfRanges<T(0)>(vecs: seq<seq<T>>, ranges: seq<(nat, nat)>) returns (grids: seq<MeshGrid<T>>)
    requires RangesFit(Shape(vecs), ranges)
    ensures IsMeshgrid(RangeAxes(vecs, ranges), grids)
  {
    grids := Meshgrid(RangeAxes(vecs, ranges));
  }

  /** meshgrid(p_0, q_0, ..., p_(D-1), q_(D-1)) over raw pointers into buffers. */
  method MeshgridOfPointers<T(0)>(bufs: seq<array<T>>, ranges: seq<(nat, nat)>) returns (grids: seq<MeshGrid<T>>)
    requires RangesFit(ArrayLengths(bufs), ranges)
    ensures IsMeshgrid(PointerAxes(bufs, ranges), grids)
  {
    grids := Meshgrid(PointerAxes(bufs, ranges));
  }

  /** The ranges begin()..end() of whole vectors, or p..p + size of whole buffers. */
  function WholeRanges(lengths: seq<nat>): (ranges: seq<(nat, nat)>)
    ensures RangesFit(lengths, ranges)
  {
    seq(|lengths|, k requires 0 <= k < |lengths| => (0, lengths[k]))
  }

  /** Iterator pairs over whole vectors name exactly the vectors. */
  lemma WholeRangesAreContainers<T>(vecs: seq<seq<T>>)
    ensures RangeAxes(vecs, WholeRanges(Shape(vecs))) == vecs
  {
    var axes := RangeAxes(vecs, WholeRanges(Shape(vecs)));
    forall k | 0 <= k < |vecs|
      ensures axes[k] == vecs[k]
    {
      assert vecs[k][0..|vecs[k]|] == vecs[k];
    }
  }

  /** The whole contents of each buffer. */
  function BufferContents<T>(bufs: seq<array<T>>): seq<seq<T>>
    reads set k | 0 <= k < |bufs| :: bufs[k]
  {
    seq(|bufs|, k requires 0 <= k < |bufs| reads set j | 0 <= j < |bufs| :: bufs[j] => bufs[k][..])
  }

  /** Pointer pairs over whole buffers name exactly the buffers' contents. */
  lemma WholePointerRangesAreContents<T>(bufs: seq<array<T>>)
    ensures PointerAxes(bufs, WholeRanges(ArrayLengths(bufs))) == BufferContents(bufs)
  {
    var axes := PointerAxes(bufs, WholeRanges(ArrayLengths(bufs)));
    forall k | 0 <= k < |bufs|
      ensures axes[k] == bufs[k][..]
    {
      assert bufs[k][0..bufs[k].Length] == bufs[k][..];
    }
  }

  /** The test's three call shapes on the same axes: meshgrid over the
      containers, over begin()/end() iterator pairs of those containers, and over
      pointer pairs spanning buffers with the same contents return the same grids. */
  method MeshgridShapesAgree<T(0)>(bufs: seq<array<T>>)
    returns (byContainer: seq<MeshGrid<T>>, byIterators: seq<MeshGrid<T>>, byPointers: seq<MeshGrid<T>>)
    ensures byContainer == byIterators == byPointers
    ensures IsMeshgrid(BufferContents(bufs), byContainer)
  {
    var axes := BufferContents(bufs);
    byContainer := Meshgrid(axes);

    WholeRangesAreContainers(axes);
    byIterators := MeshgridOfRanges(axes, WholeRanges(Shape(axes)));
    MeshgridUnique(axes, byContainer, byIterators);

    WholePointerRangesAreContents(bufs);
    byPointers := MeshgridOfPointers(bufs, WholeRanges(ArrayLengths(bufs)));
    MeshgridUnique(axes, byContainer, byPointers);
  }

  /** The entries the test reads from the 2D mesh x = [0.0], y = [0.1, 0.2]:
      X(0, j) == 0.0 and Y(0, j) == y[j]. */
  lemma Meshgrid2DValues(grids: seq<MeshGrid<real>>)
    requires IsMeshgrid([[0.0], [0.1, 0.2]], grids)
    ensures grids[0].axis == 0 && grids[1].axis == 1 && grids[0].dim == grids[1].dim == 2
    ensures grids[0].Valid() && grids[1].Valid() && grids[0].shape == grids[1].shape == [1, 2]
    ensures grids[0].At([0, 0]) == 0.0 && grids[0].At([0, 1]) == 0.0
    ensures grids[1].At([0, 0]) == 0.1 && grids[1].At([0, 1]) == 0.2
  {
    var axes := [[0.0], [0.1, 0.2]];
    assert Shape(axes) == [1, 2];
    assert InBounds([1, 2], [0, 0]) && InBounds([1, 2], [0, 1]);
    assert Broadcasts(grids[0], axes[0]) && Broadcasts(grids[1], axes[1]);
  }

  /** The entries the test reads from the 3D mesh x = [0.0], y = [0.1, 0.2],
      z = [0.3, 0.4]: X(0, j, l) == 0.0, Y(0, j, l) == y[j] whatever l, and
      Z(0, j, l) == z[l] whatever j. */
  lemma Meshgrid3DValues(grids: seq<MeshGrid<real>>)
    requires IsMeshgrid([[0.0], [0.1, 0.2], [0.3, 0.4]], grids)
    ensures forall k :: 0 <= k < 3 ==>
      grids[k].axis == k && grids[k].dim == 3 && grids[k].Valid() && grids[k].shape == [1, 2, 2]
    ensures forall j: nat, l: nat :: j < 2 && l < 2 ==>
      grids[0].At([0, j, l]) == 0.0 &&
      grids[1].At([0, j, l]) == [0.1, 0.2][j] &&
      grids[2].At([0, j, l]) == [0.3, 0.4][l]
  {
    var axes := [[0.0], [0.1, 0.2], [0.3, 0.4]];
    var shape := [1, 2, 2];
    assert Shape(axes) == shape;
    forall j: nat, l: nat | j < 2 && l < 2
      ensures grids[0].At([0, j, l]) == 0.0
      ensures grids[1].At([0, j, l]) == [0.1, 0.2][j]
      ensures grids[2].At([0, j, l]) == [0.3, 0.4][l]
    {
      var idx := [0, j, l];
      assert InBounds(shape, idx);
      BroadcastAt(grids[0], axes[0], idx);
      BroadcastAt(grids[1], axes[1], idx);
      BroadcastAt(grids[2], axes[2], idx);
    }
  }

  /** One read of a broadcasting grid. */
  lemma BroadcastAt<T>(g: MeshGrid<T>, values: seq<T>, idx: seq<nat>)
    requires Broadcasts(g, values) && InBounds(g.shape, idx)
    ensures g.At(idx) == values[idx[g.axis]]
  {
  }
}
