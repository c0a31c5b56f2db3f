/**
 * The deformation renderer `ElasticShapeView`: its tessellated mesh (a
 * row-major grid of vertices and six triangle indices per cell, rebuilt when
 * the frame changes) and the orientation flags it derives from its edge.
 * The GPU side (pipeline, textures, buffers, drawing) is not modelled; the
 * two buffers are kept as the sequences that would be copied into them.
 */
module ElasticShape {
  import opened Edges
  import opened Geometry

  /** A mesh vertex, named by its grid column and row. */
  datatype Vertex = Vertex(gx: nat, gy: nat)

  /** `VertexUniform`, the per-frame parameters of the vertex stage. */
  datatype Uniform = Uniform(position: Point, shift: Point, transpose: real, flip: real, foldAlpha: real, padding: real)

  const InitialUniform := Uniform(Point(1.0, 0.0), Zero, 0.0, 0.0, 0.2, 0.0)

  /** `vertexBufferSize`: the number of cells across and down. */
  datatype GridSize = GridSize(width: int, height: int)

  /** Side, in points, of a mesh cell. */
  const CellSize := 10

  const UInt16Max := 65535

  // ---------------------------------------------------------------------------
  // Orientation flags

  /** `transpose` is 1 exactly for the vertical-axis edges. */
  function TransposeFlag(e: Edge): (t: real)
    ensures t == 0.0 || t == 1.0
    ensures t == 1.0 <==> !IsHorizontal(e)
  {
    if e == Bottom || e == Top then 1.0 else 0.0
  }

  /** `flip` is 1 exactly for the bottom and left edges. */
  function FlipFlag(e: Edge): (f: real)
    ensures f == 0.0 || f == 1.0
    ensures f == 1.0 <==> e == Bottom || e == Left
  {
    if e == Bottom || e == Left then 1.0 else 0.0
  }

  /** The two flags tell all four edges apart. */
  lemma FlagsIdentifyEdge(a: Edge, b: Edge)
    ensures TransposeFlag(a) == TransposeFlag(b) && FlipFlag(a) == FlipFlag(b) ==> a == b
  {
  }

  /** Turning to the opposite edge keeps the axis and toggles the flip. */
  lemma OppositeFlags(e: Edge)
    ensures TransposeFlag(Opposite(e)) == TransposeFlag(e)
    ensures FlipFlag(Opposite(e)) == 1.0 - FlipFlag(e)
  {
  }

  // ---------------------------------------------------------------------------
  // Grid size

  /** `Int(x)` for a non-negative `CGFloat`: truncation toward zero. */
  function Truncate(r: real): (n: int)
    requires r >= 0.0
    ensures n >= 0 && n as real <= r < n as real + 1.0
  {
    r.Floor
  }

  /**
   * The frame observer's `(Int(width) / 10, Int(height) / 10)`: the number
   * of whole 10-point cells that fit across and down the frame.
   */
  function GridSizeFor(frame: Rect): (s: GridSize)
    ensures s.width >= 0 && s.height >= 0
    ensures (s.width * CellSize) as real <= Width(frame) < ((s.width + 1) * CellSize) as real
    ensures (s.height * CellSize) as real <= Height(frame) < ((s.height + 1) * CellSize) as real
  {
    GridSize(Truncate(Width(frame)) / CellSize, Truncate(Height(frame)) / CellSize)
  }

  predicate InUInt16(n: int) {
    0 <= n <= UInt16Max
  }

  /**
   * Every `UInt16` value `createBuffers` computes is in range, so none of
   * its conversions or additions traps: the two conversions, the two loop
   * bounds, the cell count and, for each cell, the row offset, the base
   * vertex `i`, every index written and the slot number `idx`.
   */
  ghost predicate TrapFree(s: GridSize) {
    && InUInt16(s.width) && InUInt16(s.height)
    && InUInt16(s.height + 1) && InUInt16(s.width + 1)
    && InUInt16(s.width * s.height)
    && forall x: nat, y: nat :: x < s.width && y < s.height ==> CellTrapFree(s.width, x, y)
  }

  /** The `UInt16` values computed for cell `(x, y)` are all in range. */
  ghost predicate CellTrapFree(w: nat, x: nat, y: nat) {
    && InUInt16(y * (w + 1))
    && InUInt16(CellBase(w, x, y))
    && InUInt16(CellBase(w, x, y) + 1)
    && InUInt16(CellBase(w, x, y) + w)
    && InUInt16(CellBase(w, x, y) + w + 1)
    && InUInt16(CellBase(w, x, y) + w + 2)
    && InUInt16(y * w)
    && InUInt16(y * w + x)
  }

  /** A closed form of `TrapFree`. */
  predicate FitsUInt16(s: GridSize) {
    && 0 <= s.width < UInt16Max && 0 <= s.height < UInt16Max
    && s.width * s.height <= UInt16Max
    && (s.width > 0 && s.height > 0 ==> (s.width + 1) * (s.height + 1) <= UInt16Max + 1)
  }

  // Small facts about products, each proved on its own so that the lemmas
  // that use them reason linearly.

  lemma MulMonotone(a: int, b: int, c: int)
    requires a <= b && 0 <= c
    ensures a * c <= b * c
  {
  }

  lemma MulSucc(a: int, b: int)
    ensures (a + 1) * b == a * b + b
  {
  }

  lemma MulSuccRight(a: int, b: int)
    ensures a * (b + 1) == a * b + a
  {
  }

  lemma MulComm(a: int, b: int)
    ensures a * b == b * a
  {
  }

  lemma MulNonNegative(a: int, b: int)
    requires 0 <= a && 0 <= b
    ensures 0 <= a * b
  {
  }

  /**
   * The largest index a cell in row `y` writes, `y * (w + 1) + (w - 1) + w + 2`,
   * is at most the last vertex `(w + 1) * (h + 1) - 1`, and equal to it in
   * the last row.
   */
  lemma RowTop(w: nat, h: nat, y: nat)
    requires y < h
    ensures y * (w + 1) + 2 * w + 1 <= (w + 1) * (h + 1) - 1
    ensures y == h - 1 ==> y * (w + 1) + 2 * w + 1 == (w + 1) * (h + 1) - 1
  {
    MulMonotone(y + 1, h, w + 1);
    MulSucc(y, w + 1);
    MulSucc(h, w + 1);
    MulComm(h + 1, w + 1);
  }

  /** Under `FitsUInt16`, the largest value cell `(x, y)` computes is at most 65535. */
  lemma CellFitsUInt16(s: GridSize, x: nat, y: nat)
    requires FitsUInt16(s) && x < s.width && y < s.height
    ensures CellTrapFree(s.width, x, y)
  {
    var w, h := s.width, s.height;
    RowTop(w, h, y);
    MulSuccRight(y, w);
    MulNonNegative(y, w);
  }

  lemma FitsImpliesTrapFree(s: GridSize)
    requires FitsUInt16(s)
    ensures TrapFree(s)
  {
    forall x: nat, y: nat | x < s.width && y < s.height
      ensures CellTrapFree(s.width, x, y)
    {
      CellFitsUInt16(s, x, y);
    }
  }

  lemma TrapFreeImpliesFits(s: GridSize)
    requires TrapFree(s)
    ensures FitsUInt16(s)
  {
    var w, h := s.width, s.height;
    if w > 0 && h > 0 {
      var x: nat, y: nat := w - 1, h - 1;
      assert CellTrapFree(w, x, y);
      RowTop(w, h, y);
    }
  }

  /** `FitsUInt16` is exactly the condition under which `createBuffers` does not trap. */
  lemma FitsUInt16IffTrapFree(s: GridSize)
    ensures FitsUInt16(s) <==> TrapFree(s)
  {
    if FitsUInt16(s) {
      FitsImpliesTrapFree(s);
    }
    if TrapFree(s) {
      TrapFreeImpliesFits(s);
    }
  }

  // ---------------------------------------------------------------------------
  // Vertex grid

  /** The first `n` vertices of grid row `y`, left to right. */
  function GridRow(y: nat, n: nat): seq<Vertex>
  {
    if n == 0 then [] else GridRow(y, n - 1) + [Vertex(n - 1, y)]
  }

  /** Rows `0 .. m-1` of a grid that is `w + 1` vertices wide, in row-major order. */
  function Grid(w: nat, m: nat): seq<Vertex>
  {
    if m == 0 then [] else Grid(w, m - 1) + GridRow(m - 1, w + 1)
  }

  lemma {:induction false} GridRowAt(y: nat, n: nat, x: nat)
    requires x < n
    ensures |GridRow(y, n)| == n && GridRow(y, n)[x] == Vertex(x, y)
  {
    if x < n - 1 {
      GridRowAt(y, n - 1, x);
    } else {
      GridRowLength(y, n - 1);
    }
  }

  lemma {:induction false} GridRowLength(y: nat, n: nat)
    ensures |GridRow(y, n)| == n
  {
    if n > 0 {
      GridRowLength(y, n - 1);
    }
  }

  lemma {:induction false} GridLength(w: nat, m: nat)
    ensures |Grid(w, m)| == m * (w + 1)
  {
    if m > 0 {
      GridLength(w, m - 1);
      GridRowLength(m - 1, w + 1);
      MulSucc(m - 1, w + 1);
    }
  }

  /** Entry `y * (w + 1) + x` of the vertex array is grid point `(x, y)`. */
  lemma {:induction false} GridAt(w: nat, m: nat, x: nat, y: nat)
    requires x <= w && y < m
    ensures |Grid(w, m)| == m * (w + 1)
    ensures Grid(w, m)[y * (w + 1) + x] == Vertex(x, y)
  {
    var n := w + 1;
    var k := y * n + x;
    var left, row := Grid(w, m - 1), GridRow(m - 1, n);
    assert Grid(w, m) == left + row;
    GridLength(w, m);
    GridLength(w, m - 1);
    GridRowLength(m - 1, n);
    if y < m - 1 {
      MulMonotone(y + 1, m - 1, n);
      MulSucc(y, n);
      assert k < |left|;
      GridAt(w, m - 1, x, y);
      assert (left + row)[k] == left[k];
    } else {
      assert k == |left| + x;
      GridRowAt(y, n, x);
      assert (left + row)[k] == row[x];
    }
  }

  // ---------------------------------------------------------------------------
  // Index array

  /** `i` of the source: the vertex at the top-left corner of cell `(x, y)`. */
  function CellBase(w: nat, x: nat, y: nat): nat {
    y * (w + 1) + x
  }

  /** The six indices cell `(x, y)` writes: two triangles of the same winding. */
  function CellIndices(w: nat, x: nat, y: nat): (r: seq<nat>)
    ensures |r| == 6
  {
    var i := CellBase(w, x, y);
    [i, i + 1, i + w + 1, i + 1, i + w + 2, i + w + 1]
  }

  /** The indices of the first `n` cells of row `y`, left to right. */
  function RowIndices(w: nat, y: nat, n: nat): seq<nat>
  {
    if n == 0 then [] else RowIndices(w, y, n - 1) + CellIndices(w, n - 1, y)
  }

  /** The indices of rows `0 .. m-1` of cells, each row `w` cells wide. */
  function MeshIndices(w: nat, m: nat): seq<nat>
  {
    if m == 0 then [] else MeshIndices(w, m - 1) + RowIndices(w, m - 1, w)
  }

  lemma {:induction false} RowIndicesLength(w: nat, y: nat, n: nat)
    ensures |RowIndices(w, y, n)| == n * 6
  {
    if n > 0 {
      RowIndicesLength(w, y, n - 1);
    }
  }

  /** The index array holds exactly six entries per cell. */
  lemma {:induction false} MeshIndicesLength(w: nat, m: nat)
    ensures |MeshIndices(w, m)| == w * m * 6
  {
    if m > 0 {
      MeshIndicesLength(w, m - 1);
      RowIndicesLength(w, m - 1, w);
      MulSuccRight(w, m - 1);
    }
  }

  lemma IndexCountIsLength(w: nat, h: nat)
    ensures h * w * 6 == |MeshIndices(w, h)|
  {
    MeshIndicesLength(w, h);
    MulComm(h, w);
  }

  lemma {:induction false} RowIndicesAt(w: nat, y: nat, n: nat, x: nat, j: nat)
    requires x < n && j < 6
    ensures |RowIndices(w, y, n)| == n * 6
    ensures RowIndices(w, y, n)[x * 6 + j] == CellIndices(w, x, y)[j]
  {
    RowIndicesLength(w, y, n);
    RowIndicesLength(w, y, n - 1);
    if x < n - 1 {
      RowIndicesAt(w, y, n - 1, x, j);
    }
  }

  /** Slot number `idx` of cell `(x, y)`: its position in row-major cell order. */
  function Slot(w: nat, x: nat, y: nat): nat {
    y * w + x
  }

  /** Cell `(x, y)` occupies slots `Slot * 6 .. Slot * 6 + 5` of the index array. */
  lemma {:induction false} MeshIndicesAt(w: nat, m: nat, x: nat, y: nat, j: nat)
    requires x < w && y < m && j < 6
    ensures |MeshIndices(w, m)| == w * m * 6
    ensures Slot(w, x, y) * 6 + j < w * m * 6
    ensures MeshIndices(w, m)[Slot(w, x, y) * 6 + j] == CellIndices(w, x, y)[j]
  {
    MeshIndicesLength(w, m);
    MeshIndicesLength(w, m - 1);
    SlotInBounds(w, m, x, y);
    if y < m - 1 {
      MeshIndicesAt(w, m - 1, x, y, j);
    } else {
      MulComm(y, w);
      RowIndicesAt(w, y, w, x, j);
    }
  }

  lemma SlotInBounds(w: nat, m: nat, x: nat, y: nat)
    requires x < w && y < m
    ensures Slot(w, x, y) < w * m
    ensures Slot(w, x, y) * 6 + 6 <= w * m * 6
  {
    MulMonotone(y + 1, m, w);
    MulSucc(y, w);
    MulComm(m, w);
  }

  lemma RowInBounds(w: nat, m: nat, y: nat)
    requires y < m
    ensures Slot(w, 0, y) * 6 <= Slot(w, w, y) * 6 <= w * m * 6
  {
    MulMonotone(y + 1, m, w);
    MulSucc(y, w);
    MulComm(m, w);
  }

  /** Different cells own disjoint six-slot ranges. */
  lemma SlotsDisjoint(w: nat, x1: nat, y1: nat, x2: nat, y2: nat)
    requires x1 < w && x2 < w
    requires x1 != x2 || y1 != y2
    ensures Slot(w, x1, y1) != Slot(w, x2, y2)
  {
    if y1 < y2 {
      MulMonotone(y1 + 1, y2, w);
      MulSucc(y1, w);
    } else if y2 < y1 {
      MulMonotone(y2 + 1, y1, w);
      MulSucc(y2, w);
    }
  }

  /** Every position of the index array belongs to the range of some cell. */
  lemma SlotsCover(w: nat, m: nat, k: nat)
    requires k < w * m * 6
    ensures exists x: nat, y: nat {:trigger Slot(w, x, y)} ::
      x < w && y < m && Slot(w, x, y) * 6 <= k < Slot(w, x, y) * 6 + 6
  {
    var s := k / 6;
    assert w > 0;
    var y, x := s / w, s % w;
    assert s == y * w + x;
    if y >= m {
      MulMonotone(m, y, w);
      MulComm(m, w);
      assert false;
    }
    assert Slot(w, x, y) == s;
  }

  /**
   * The two triangles of cell `(x, y)` are (top-left, top-right, bottom-left)
   * and (top-right, bottom-right, bottom-left) of that cell in the vertex grid.
   */
  lemma CellCorners(w: nat, h: nat, x: nat, y: nat)
    requires x < w && y < h
    ensures var c := CellIndices(w, x, y);
      && |Grid(w, h + 1)| == (h + 1) * (w + 1)
      && c[0] < c[1] < c[2] < c[4] < |Grid(w, h + 1)|
      && Grid(w, h + 1)[c[0]] == Vertex(x, y)
      && Grid(w, h + 1)[c[1]] == Vertex(x + 1, y)
      && Grid(w, h + 1)[c[2]] == Vertex(x, y + 1)
      && Grid(w, h + 1)[c[4]] == Vertex(x + 1, y + 1)
      && c[3] == c[1] && c[5] == c[2]
  {
    assert CellBase(w, x, y) + w + 1 == CellBase(w, x, y + 1) by {
      MulSucc(y, w + 1);
    }
    CellTopCorners(w, h, x, y);
    CellBottomCorners(w, h, x, y);
  }

  lemma CellTopCorners(w: nat, h: nat, x: nat, y: nat)
    requires x < w && y < h
    ensures |Grid(w, h + 1)| == (h + 1) * (w + 1)
    ensures CellBase(w, x, y) + 1 < |Grid(w, h + 1)|
    ensures Grid(w, h + 1)[CellBase(w, x, y)] == Vertex(x, y)
    ensures Grid(w, h + 1)[CellBase(w, x, y) + 1] == Vertex(x + 1, y)
  {
    VertexAt(w, h + 1, x, y, CellBase(w, x, y));
    VertexAt(w, h + 1, x + 1, y, CellBase(w, x, y) + 1);
  }

  lemma CellBottomCorners(w: nat, h: nat, x: nat, y: nat)
    requires x < w && y < h
    ensures |Grid(w, h + 1)| == (h + 1) * (w + 1)
    ensures CellBase(w, x, y + 1) + 1 < |Grid(w, h + 1)|
    ensures Grid(w, h + 1)[CellBase(w, x, y + 1)] == Vertex(x, y + 1)
    ensures Grid(w, h + 1)[CellBase(w, x, y + 1) + 1] == Vertex(x + 1, y + 1)
  {
    VertexAt(w, h + 1, x, y + 1, CellBase(w, x, y + 1));
    VertexAt(w, h + 1, x + 1, y + 1, CellBase(w, x, y + 1) + 1);
  }

  lemma VertexAt(w: nat, m: nat, x: nat, y: nat, k: nat)
    requires x <= w && y < m && k == y * (w + 1) + x
    ensures |Grid(w, m)| == m * (w + 1)
    ensures k < |Grid(w, m)| && Grid(w, m)[k] == Vertex(x, y)
  {
    GridAt(w, m, x, y);
  }

  /** Every index names an existing vertex. */
  lemma {:induction false} RowIndicesInRange(w: nat, h: nat, y: nat, n: nat)
    requires y < h && n <= w
    ensures forall k :: 0 <= k < |RowIndices(w, y, n)| ==> RowIndices(w, y, n)[k] < (w + 1) * (h + 1)
  {
    if n > 0 {
      RowIndicesInRange(w, h, y, n - 1);
      RowTop(w, h, y);
    }
  }

  lemma {:induction false} MeshIndicesInRange(w: nat, h: nat, m: nat)
    requires m <= h
    ensures forall k :: 0 <= k < |MeshIndices(w, m)| ==> MeshIndices(w, m)[k] < (w + 1) * (h + 1)
  {
    if m > 0 {
      MeshIndicesInRange(w, h, m - 1);
      RowIndicesInRange(w, h, m - 1, w);
    }
  }

  /** When the grid fits, every index is a `UInt16` below the vertex count. */
  lemma IndicesFitUInt16(s: GridSize)
    requires FitsUInt16(s)
    ensures var w, h := s.width as nat, s.height as nat;
      forall k :: 0 <= k < |MeshIndices(w, h)| ==>
        MeshIndices(w, h)[k] < (w + 1) * (h + 1) && InUInt16(MeshIndices(w, h)[k])
  {
    var w, h := s.width as nat, s.height as nat;
    MeshIndicesInRange(w, h, h);
    MeshIndicesLength(w, h);
  }

  // ---------------------------------------------------------------------------
  // The two loops of `createBuffers`

  /** The vertex loop: `(xRes + 1) * (yRes + 1)` grid points appended in row-major order. */
  method BuildVertices(xRes: nat, yRes: nat) returns (vertexData: seq<Vertex>)
    ensures vertexData == Grid(xRes, yRes + 1)
  {
    vertexData := [];
    var y: nat := 0;
    while y < yRes + 1
      invariant y <= yRes + 1
      invariant vertexData == Grid(xRes, y)
    {
      var x: nat := 0;
      while x < xRes + 1
        invariant x <= xRes + 1
        invariant vertexData == Grid(xRes, y) + GridRow(y, x)
      {
        vertexData := vertexData + [Vertex(x, y)];
        x := x + 1;
      }
      y := y + 1;
    }
  }

  /** The body of the index loop: the six indices of the cell whose top-left vertex is `i`. */
  method WriteCell(indices: array<nat>, base: nat, i: nat, xRes: nat)
    requires base + 6 <= indices.Length
    modifies indices
    ensures indices[..base + 6] == old(indices[..base]) + [i, i + 1, i + xRes + 1, i + 1, i + xRes + 2, i + xRes + 1]
    ensures forall k :: base + 6 <= k < indices.Length ==> indices[k] == old(indices[k])
  {
    indices[base + 0] := i;
    indices[base + 1] := i + 1;
    indices[base + 2] := i + xRes + 1;
    indices[base + 3] := i + 1;
    indices[base + 4] := i + xRes + 2;
    indices[base + 5] := i + xRes + 1;
  }

  /**
   * The index loop: an array of `xRes * yRes * 6` zeros, then for each cell
   * in row-major order its six indices written at slots `idx * 6 ..`.
   */
  method BuildIndices(xRes: nat, yRes: nat) returns (indices: array<nat>)
    ensures fresh(indices)
    ensures indices[..] == MeshIndices(xRes, yRes)
  {
    indices := new nat[xRes * yRes * 6](_ => 0);
    MeshIndicesLength(xRes, yRes);
    var y: nat := 0;
    while y < yRes
      invariant y <= yRes
      invariant Slot(xRes, 0, y) * 6 <= indices.Length
      invariant indices[..Slot(xRes, 0, y) * 6] == MeshIndices(xRes, y)
    {
      FillRow(indices, xRes, yRes, y);
      assert Slot(xRes, xRes, y) == Slot(xRes, 0, y + 1) by { MulSucc(y, xRes); }
      assert indices[..Slot(xRes, 0, y + 1) * 6] == MeshIndices(xRes, y + 1);
      y := y + 1;
    }
    assert Slot(xRes, 0, yRes) * 6 == indices.Length;
    assert indices[..] == indices[..Slot(xRes, 0, yRes) * 6];
  }

  /** The inner loop of the index loop: the cells of row `y`, left to right. */
  method FillRow(indices: array<nat>, xRes: nat, yRes: nat, y: nat)
    requires y < yRes && indices.Length == xRes * yRes * 6
    requires indices[..Slot(xRes, 0, y) * 6] == MeshIndices(xRes, y)
    modifies indices
    ensures Slot(xRes, xRes, y) * 6 <= indices.Length
    ensures indices[..Slot(xRes, xRes, y) * 6] == MeshIndices(xRes, y + 1)
    ensures forall k :: Slot(xRes, xRes, y) * 6 <= k < indices.Length ==> indices[k] == old(indices[k])
  {
    RowInBounds(xRes, yRes, y);
    var x: nat := 0;
    while x < xRes
      invariant x <= xRes
      invariant Slot(xRes, x, y) * 6 <= indices.Length
      invariant indices[..Slot(xRes, x, y) * 6] == MeshIndices(xRes, y) + RowIndices(xRes, y, x)
      invariant forall k :: Slot(xRes, x, y) * 6 <= k < indices.Length ==> indices[k] == old(indices[k])
    {
      FillCell(indices, xRes, yRes, x, y);
      assert Slot(xRes, x + 1, y) * 6 == Slot(xRes, x, y) * 6 + 6;
      x := x + 1;
    }
  }

  /** One step of the inner loop: cell `(x, y)` written at slot `idx`, all other slots kept. */
  method FillCell(indices: array<nat>, xRes: nat, yRes: nat, x: nat, y: nat)
    requires x < xRes && y < yRes && indices.Length == xRes * yRes * 6
    requires Slot(xRes, x, y) * 6 <= indices.Length
    requires indices[..Slot(xRes, x, y) * 6] == MeshIndices(xRes, y) + RowIndices(xRes, y, x)
    modifies indices
    ensures Slot(xRes, x + 1, y) * 6 <= indices.Length
    ensures indices[..Slot(xRes, x + 1, y) * 6] == MeshIndices(xRes, y) + RowIndices(xRes, y, x + 1)
    ensures forall k :: Slot(xRes, x + 1, y) * 6 <= k < indices.Length ==> indices[k] == old(indices[k])
  {
    var i := y * (xRes + 1) + x;
    var idx := y * xRes + x;
    SlotInBounds(xRes, yRes, x, y);
    ghost var done := MeshIndices(xRes, y) + RowIndices(xRes, y, x);
    assert indices[..idx * 6] == done;
    WriteCell(indices, idx * 6, i, xRes);
    assert CellIndices(xRes, x, y) == [i, i + 1, i + xRes + 1, i + 1, i + xRes + 2, i + xRes + 1];
    assert indices[..idx * 6 + 6] == done + CellIndices(xRes, x, y);
    assert RowIndices(xRes, y, x + 1) == RowIndices(xRes, y, x) + CellIndices(xRes, x, y);
    assert Slot(xRes, x + 1, y) * 6 == idx * 6 + 6;
  }

  // ---------------------------------------------------------------------------
  // The view

  class ShapeView {
    var frame: Rect
    var edge: Edge
    var viewState: Uniform
    var shift: Point
    var touchPosition: Point
    var vertexBufferSize: GridSize
    /** What `createBuffers` copies into the vertex buffer. */
    var vertexBuffer: seq<Vertex>
    /** What `createBuffers` copies into the index buffer. */
    var indexBuffer: seq<nat>

    /** The buffers match the grid size, and the flags match the edge. */
    ghost predicate Valid()
      reads this
    {
      && FitsUInt16(vertexBufferSize)
      && vertexBuffer == Grid(vertexBufferSize.width, vertexBufferSize.height + 1)
      && indexBuffer == MeshIndices(vertexBufferSize.width, vertexBufferSize.height)
      && viewState.transpose == TransposeFlag(edge)
      && viewState.flip == FlipFlag(edge)
    }

    /** `init(frame:)`: the default state, with the mesh built for `frame`. */
    constructor (frame: Rect)
      requires FitsUInt16(GridSizeFor(frame))
      ensures Valid()
      ensures this.frame == frame && vertexBufferSize == GridSizeFor(frame)
      ensures edge == Right && viewState == InitialUniform
      ensures shift == Zero && touchPosition == Zero
    {
      this.frame := frame;
      edge := Right;
      viewState := InitialUniform;
      shift := Zero;
      touchPosition := Zero;
      vertexBufferSize := GridSizeFor(frame);
      vertexBuffer := [];
      indexBuffer := [];
      new;
      CreateBuffers();
    }

    /** The `edge` observer: records the edge and derives the two flags. */
    method SetEdge(e: Edge)
      requires Valid()
      modifies this`edge, this`viewState
      ensures Valid()
      ensures edge == e
      ensures viewState == old(viewState).(transpose := TransposeFlag(e), flip := FlipFlag(e))
    {
      edge := e;
      viewState := viewState.(transpose := TransposeFlag(e), flip := FlipFlag(e));
    }

    /** The `frame` observer: resizes the grid for the new frame and rebuilds the mesh. */
    method SetFrame(f: Rect)
      requires Valid()
      requires FitsUInt16(GridSizeFor(f))
      modifies this
      ensures Valid()
      ensures frame == f && vertexBufferSize == GridSizeFor(f)
      ensures edge == old(edge) && viewState == old(viewState)
      ensures shift == old(shift) && touchPosition == old(touchPosition)
    {
      frame := f;
      vertexBufferSize := GridSizeFor(f);
      CreateBuffers();
    }

    /** `createBuffers`: both arrays for the current grid size. */
    method CreateBuffers()
      requires FitsUInt16(vertexBufferSize)
      modifies this`vertexBuffer, this`indexBuffer
      ensures vertexBuffer == Grid(vertexBufferSize.width, vertexBufferSize.height + 1)
      ensures indexBuffer == MeshIndices(vertexBufferSize.width, vertexBufferSize.height)
    {
      var yRes: nat := vertexBufferSize.height;
      var xRes: nat := vertexBufferSize.width;
      var vertexData := BuildVertices(xRes, yRes);
      var indices := BuildIndices(xRes, yRes);
      vertexBuffer := vertexData;
      indexBuffer := indices[..];
    }

    /** The `indexCount` of the draw call: the whole index array. */
    function DrawIndexCount(): (n: nat)
      reads this
      requires Valid()
      ensures n == |indexBuffer|
    {
      IndexCountIsLength(vertexBufferSize.width, vertexBufferSize.height);
      vertexBufferSize.height * vertexBufferSize.width * 6
    }
  }
}
