# meshgen in Dafny

A model of the two numeric primitives of meshgen, a small C++ header library:

- `linspace`, which produces evenly spaced samples in three call shapes: a step form that fills a
  destination range `[first, last)` with `start, start + step, ...`; a count form that writes `n`
  samples from `start` to `end` with the step `(end - start) / (n - 1)`; and a returning form that
  gives the same `n` samples as a new vector;
- `meshgrid` with its container `mesh_grid<T, k, D>`: from D axis sequences it builds D dense
  D-dimensional grids of shape `[|axis_0|, ..., |axis_(D-1)|]`; grid `k` holds axis `k` broadcast
  across every other axis ("ij" indexing, so in 2D `X(i, j) == x[i]` and `Y(i, j) == y[j]`), and is
  read through the D-ary accessor `grid(i_0, ..., i_(D-1))`.

The header `meshgrid.hpp` itself is not part of this model; the behaviour modelled is the one its
test file `test/meshgrid_test.cpp` requires. Where the test is silent the model makes its own
choices: a count of 1 writes `start`, a count of 0 writes nothing, and an empty axis gives empty
grids.

Files:

- `layout.dfy` (module `Layout`): the model fixes a row-major layout for a grid's buffer, with axis 0
  varying slowest. `Size` is
  the product of the axis sizes, `Offset` maps a coordinate tuple to its buffer offset and `Decode`
  maps an offset back; the two are proved inverse bijections between valid tuples and `[0, Size)`.
- `linspace.dfy` (module `Linspace`): the step and count forms as methods that fill a range of an
  `array<real>` in place (a vector iterator pair and a raw pointer pair are both a range of an
  array), the returning form as the function `Linspace`, and the test's sample count `NumPoints`.
- `meshgrid.dfy` (module `Meshgrid`): `MeshGrid` carries the axis tag `k`, the dimension `D`, the
  shape and the flat buffer. `Broadcast` fills one grid's buffer offset by offset in a loop;
  `Meshgrid` builds the D grids; `MeshgridOfRanges` and `MeshgridOfPointers` are the iterator-pair
  and pointer-pair call shapes, adapters that name the axis contents and call `Meshgrid`.

## Model

| member | source | states |
|---|---|---|
| Layout.Offset | test/meshgrid_test.cpp:84-87 | the row-major offset the accessor reads for a valid coordinate tuple always lies inside the grid's buffer |
| Layout.Decode | test/meshgrid_test.cpp:83 | the tuple the fill decodes at any buffer offset is a valid coordinate tuple (each index below its axis size) |
| Layout.DecodeOffset | test/meshgrid_test.cpp:83-87 | decoding the offset of a valid tuple gives the tuple back, so the fill and the accessor agree on where each tuple lives |
| Layout.OffsetDecode | test/meshgrid_test.cpp:83-87 | the offset of the tuple decoded at an offset is that offset |
| Layout.OffsetInjective | test/meshgrid_test.cpp:117-128 | two valid tuples share an offset if and only if they are equal |
| Layout.OffsetSurjective | test/meshgrid_test.cpp:116 | every buffer offset is the offset of some valid tuple, so the buffer has no unused entries |
| Layout.Size | test/meshgrid_test.cpp:116 | the number of entries of a grid, the product of its axis sizes, is positive if and only if no axis is empty |
| Layout.DecodeOnlyAtOffset | test/meshgrid_test.cpp:83-87 | a valid tuple is decoded at its own offset and at no other buffer offset |
| Linspace.StepSeqSpacing | test/meshgrid_test.cpp:17-23 | consecutive samples of the step form differ by exactly the step |
| Linspace.ImpliedStepSpansRange | test/meshgrid_test.cpp:41-47 | with at least two samples, n - 1 implied steps span exactly from start to end |
| Linspace.Linspace | test/meshgrid_test.cpp:64-70 | the returning form gives n samples, the first equal to start, the last (for n >= 2) equal to end, with constant spacing (end - start) / (n - 1) |
| Linspace.FillStep | test/meshgrid_test.cpp:14-31 | the step form writes element i of [first, last) as start + i * step (by repeated addition) and leaves everything outside the range unchanged |
| Linspace.FillCount | test/meshgrid_test.cpp:36-55 | the count form writes exactly the n samples of the returning form starting at first, through the step form, and nothing else |
| Linspace.NumPoints | test/meshgrid_test.cpp:40 | the test's count N = trunc((x2 - x1) / h) + 1 is at least 1 and is the number of whole steps in the interval plus one |
| Linspace.CountFormMatchesStepForm | test/meshgrid_test.cpp:12-55 | when the interval is m whole steps of h, N is m + 1 and the count form writes exactly the samples the step form writes with step h |
| Linspace.StepFormExample | test/meshgrid_test.cpp:17-23 | start 0.0 with step 0.1 over six entries gives 0.0, 0.1, 0.2, 0.3, 0.4, 0.5 |
| Linspace.CountFormExample | test/meshgrid_test.cpp:58-70 | from 0.0 to 0.5 with h = 0.1 the count is 6 and the samples are 0.0, 0.1, 0.2, 0.3, 0.4, 0.5 |
| Linspace.StepFormDestinationsAgree | test/meshgrid_test.cpp:17-31 | a vector destination and a raw buffer destination of the same length receive identical samples |
| Linspace.CountFormDestinationsAgree | test/meshgrid_test.cpp:41-64 | the count form into a vector, into a raw buffer, and the returning form give identical samples, and both destinations are unchanged past the first n entries |
| Meshgrid.MeshGrid.Valid | test/meshgrid_test.cpp:80-81 | a mesh_grid<T, k, D> has k < D, D axis sizes and one buffer entry per coordinate tuple, so it has entries if and only if none of its axes is empty; `Broadcast` and `Meshgrid` ensure every grid they build is valid |
| Meshgrid.MeshGrid.At | test/meshgrid_test.cpp:84-87 | the accessor grid(i_0, ..., i_(D-1)) returns the buffer entry whose row-major coordinate tuple is the one given; through `Broadcasts` in the ensures of `Broadcast` and `Meshgrid` it reads axis_k[i_k] |
| Meshgrid.BroadcastsFlat | test/meshgrid_test.cpp:84-87 | a grid reads axis[i_k] at every tuple if and only if each buffer entry holds the axis value of the k-th coordinate decoded at its offset |
| Meshgrid.Broadcast | test/meshgrid_test.cpp:80-87 | the grid built for axis k of a shape carries tag (k, D) and that shape, and reads axis_k[i_k] at every valid tuple |
| Meshgrid.Meshgrid | test/meshgrid_test.cpp:83-87 | meshgrid of D containers returns D grids; grid k is tagged (k, D), has the axis lengths as its shape and reads axis_k[i_k] at every valid tuple |
| Meshgrid.MeshgridUnique | test/meshgrid_test.cpp:89-99 | two meshgrid results for the same axis contents are the same grids, tags and buffers included |
| Meshgrid.MeshgridSize | test/meshgrid_test.cpp:116 | every grid has one entry per tuple, the product of the axis sizes, and all grids are empty when an axis is empty |
| Meshgrid.BroadcastIgnoresOtherAxes | test/meshgrid_test.cpp:117-128 | grid k reads the same value at two tuples that agree on coordinate k |
| Meshgrid.MeshgridOfRanges | test/meshgrid_test.cpp:89 | meshgrid over iterator pairs returns the meshgrid of the sub-sequences the pairs delimit |
| Meshgrid.MeshgridOfPointers | test/meshgrid_test.cpp:95 | meshgrid over pointer pairs returns the meshgrid of the buffer ranges the pairs delimit |
| Meshgrid.WholeRanges | test/meshgrid_test.cpp:130-132 | the begin/end ranges of whole sequences lie inside those sequences |
| Meshgrid.WholeRangesAreContainers | test/meshgrid_test.cpp:130-132 | iterator pairs spanning whole vectors delimit exactly the vectors |
| Meshgrid.WholePointerRangesAreContents | test/meshgrid_test.cpp:146-148 | pointer pairs spanning whole buffers delimit exactly the buffers' contents |
| Meshgrid.MeshgridShapesAgree | test/meshgrid_test.cpp:130-160 | the container, iterator-pair and pointer-pair shapes over the same axis contents return identical grids, and that result is the meshgrid of those contents |
| Meshgrid.Meshgrid2DValues | test/meshgrid_test.cpp:73-87 | for x = [0.0], y = [0.1, 0.2] the grids are tagged (0, 2) and (1, 2), shaped [1, 2], with X(0, 0) = X(0, 1) = 0.0, Y(0, 0) = 0.1, Y(0, 1) = 0.2 |
| Meshgrid.Meshgrid3DValues | test/meshgrid_test.cpp:102-128 | for x = [0.0], y = [0.1, 0.2], z = [0.3, 0.4] the grids are tagged (k, 3), shaped [1, 2, 2], X is 0.0 everywhere, Y(0, j, l) = y[j] and Z(0, j, l) = z[l] |

## Left out

- Floating point: samples are exact `real`s, so the IEEE-754 rounding of repeated addition and the 4-ULP tolerance of the test's comparisons are not modelled; in exact arithmetic accumulating the step and computing start + i * step coincide, which `FillStep` proves.
- The header `meshgrid.hpp` is not part of this model; where the test says nothing, the count form with n = 1 writes `start` (no division by zero happens) and with n = 0 writes nothing.
- Compile-time template parameters `k` and `D` become the runtime fields `axis` and `dim` of `MeshGrid`, checked by `Valid()`; the D-ary accessor takes its coordinates as one sequence.
- C++ iterator and pointer machinery: a vector is a `seq` (or an `array` when it is written in place), an iterator or pointer pair is a range `[first, last)` of it, and `std::tie` unpacking is reading the returned sequence of grids.
- Out-of-range accessor reads and writes past the end of a count-form destination are caller contract violations and appear as preconditions; allocation failure is not modelled.
- Negative counts are not representable, since counts are `nat`; steps of any sign are allowed.
- The gtest/gmock harness and `main`.
