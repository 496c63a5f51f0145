/**
 * NoiseData.cs: the integer side of building a terrain chunk's mesh from a 241 x 241 noise map.
 *
 * A level of detail `lod` in 0..6 keeps every `LodIncrement(lod)`-th noise sample along each
 * axis, so a line of the map holds `PointsPerLine(lod)` grid points. Every grid point becomes a
 * vertex; every grid square (quad) becomes two triangles, written as six vertex indices. The
 * seamless variant numbers the outer ring of grid points separately (negative lookup values),
 * so that only the interior points form the chunk's mesh. Vertices, UVs and heights are all
 * computed from the grid point they come from: the model keeps that grid point (`Point`) and
 * leaves the floating-point values out.
 */
module NoiseData {

  /** The side of the noise map, seamless or not. */
  const NoiseSize: int := 241

  /** `_ChunkSize`: a seamless chunk loses its outer ring of samples. */
  function ChunkSize(seamless: bool): (r: int)
    ensures r == NoiseSize - (if seamless then 2 else 0)
  {
    if seamless then 239 else 241
  }

  /** The Octaves setter: clamped to at least one octave. */
  function ClampOctaves(value: int): (r: int)
    ensures r >= 1
    ensures value >= 1 ==> r == value
    ensures value < 1 ==> r == 1
  {
    if value < 1 then 1 else value
  }

  /** Clamping twice is clamping once. */
  lemma ClampOctavesIdempotent(value: int)
    ensures ClampOctaves(ClampOctaves(value)) == ClampOctaves(value)
  {
  }

  /** The step between kept samples: 1 at full detail, else twice the level. */
  function LodIncrement(lod: int): (r: int)
    requires 0 <= lod <= 6
    ensures r >= 1 && (NoiseSize - 1) % r == 0
    ensures lod == 0 ==> r == 1
    ensures lod > 0 ==> r == 2 * lod
  {
    if lod == 0 then 1 else lod * 2
  }

  /** `verticesPerLine` of the plain mesh: grid points on one line of the noise map. */
  function PointsPerLine(lod: int): (r: int)
    requires 0 <= lod <= 6
    ensures (r - 1) * LodIncrement(lod) == NoiseSize - 1
    ensures 21 <= r <= NoiseSize
  {
    var inc := LodIncrement(lod);
    var r := (NoiseSize - 1) / inc + 1;
    assert r == 241 || r == 121 || r == 61 || r == 41 || r == 31 || r == 25 || r == 21 by {
      if lod == 0 {} else if lod == 1 {} else if lod == 2 {} else if lod == 3 {}
      else if lod == 4 {} else if lod == 5 {} else {}
    }
    r
  }

  /** Only full detail gets a collision shape. */
  function HasCollisionShape(lod: int): bool
    requires 0 <= lod <= 6
  {
    lod == 0
  }

  /**
   * The source's loops `for (x = 0; x < 241; x += lodIncrement)` visit exactly the steps
   * `i * lodIncrement` with `i < PointsPerLine(lod)`, and such a step has a square to its right
   * (`x < 240`) exactly when it is not the last one.
   */
  lemma Steps(lod: int, i: int)
    requires 0 <= lod <= 6 && 0 <= i
    ensures i * LodIncrement(lod) < NoiseSize <==> i < PointsPerLine(lod)
    ensures i * LodIncrement(lod) < NoiseSize - 1 <==> i < PointsPerLine(lod) - 1
  {
    var inc, m := LodIncrement(lod), PointsPerLine(lod);
    if i < m - 1 {
      assert i * inc <= (m - 2) * inc by { MulMono(i, m - 2, inc); }
      assert (m - 2) * inc == (m - 1) * inc - inc;
    } else if i == m - 1 {
    } else {
      assert i * inc >= m * inc by { MulMono(m, i, inc); }
      assert m * inc == (m - 1) * inc + inc;
    }
  }

  lemma MulMono(a: int, b: int, k: int)
    requires a <= b && k >= 0
    ensures a * k <= b * k
  {
    assert b * k - a * k == (b - a) * k;
  }

  // ----- Grid arithmetic ---------------------------------------------------------------------

  /** A sampled grid point, in noise-map coordinates. */
  datatype Point = Point(x: int, y: int)

  /** The vertex number of the point in row `r`, column `c` of a grid `w` points wide. */
  function Index(r: int, c: int, w: int): int {
    r * w + c
  }

  /** Row and column offsets of the six corners a quad emits: (a, d, c) then (d, a, b). */
  function Dr(k: int): int {
    if k == 1 || k == 2 || k == 3 then 1 else 0
  }

  function Dc(k: int): int {
    if k == 1 || k == 3 || k == 5 then 1 else 0
  }

  /** The vertex index the quad at (r, c) of an m-wide grid emits as its k-th entry. */
  function Corner(r: int, c: int, k: int, m: int): int {
    Index(r + Dr(k), c + Dc(k), m)
  }

  /** Where the quad at (r, c) of an m-wide grid puts its k-th entry. */
  function Slot(r: int, c: int, k: int, m: int): int {
    6 * Index(r, c, m - 1) + k
  }

  /** Points before (r, c) in row-major order are numbered lower. */
  lemma IndexBefore(r: int, c: int, j: int, i: int, w: int)
    requires 0 <= c < w && 0 <= i && (r < j || (r == j && c < i))
    ensures Index(r, c, w) < Index(j, i, w)
  {
    if r < j {
      assert (j - r) * w == (j - r - 1) * w + w;
      MulMono(0, j - r - 1, w);
    }
  }

  /** Every index in an m x m grid lies below m * m. */
  lemma IndexBound(r: int, c: int, w: int, h: int)
    requires 0 <= r < h && 0 <= c < w
    ensures 0 <= Index(r, c, w) < h * w
  {
    MulMono(0, r, w);
    MulMono(r, h - 1, w);
    assert (h - 1) * w == h * w - w;
  }

  /** The plain mesh: the quads of an m-wide grid, each as (a, d, c, d, a, b). */
  ghost predicate GridTriangles(t: seq<int>, m: int) {
    && |t| == (m - 1) * (m - 1) * 6
    && forall r, c, k :: 0 <= r < m - 1 && 0 <= c < m - 1 && 0 <= k < 6 ==>
         0 <= Slot(r, c, k, m) < |t| && t[Slot(r, c, k, m)] == Corner(r, c, k, m)
  }

  /** Vertex (r, c) of an m-wide grid comes from the sample `offset` steps further in. */
  ghost predicate GridVertices(v: seq<Point>, m: int, inc: int, offset: int) {
    && |v| == m * m
    && forall r, c :: 0 <= r < m && 0 <= c < m ==>
         0 <= Index(r, c, m) < |v| && v[Index(r, c, m)] == Point((c + offset) * inc, (r + offset) * inc)
  }

  /** Quads before row j, column i of an m-wide grid (those whose top-left corner comes first). */
  function QuadsBefore(j: int, i: int, m: int): int {
    if j < m - 1 then Index(j, if i < m - 1 then i else m - 1, m - 1) else Index(m - 1, 0, m - 1)
  }

  /** AddTriangle: three entries after the running counter. */
  method AddTriangle(triangles: array<int>, index: int, a: int, b: int, c: int) returns (next: int)
    requires -1 <= index && index + 3 < triangles.Length
    modifies triangles
    ensures next == index + 3
    ensures triangles[index + 1] == a && triangles[index + 2] == b && triangles[index + 3] == c
    ensures forall p :: 0 <= p < triangles.Length && !(index < p <= next) ==> triangles[p] == old(triangles[p])
  {
    next := index + 1;
    triangles[next] := a;
    next := next + 1;
    triangles[next] := b;
    next := next + 1;
    triangles[next] := c;
  }

  /** The quad at (r, c) of an m-wide grid only uses vertices of that grid. */
  lemma CornerBound(r: int, c: int, k: int, m: int)
    requires 0 <= r < m - 1 && 0 <= c < m - 1 && 0 <= k < 6
    ensures 0 <= Corner(r, c, k, m) < m * m
  {
    IndexBound(r + Dr(k), c + Dc(k), m, m);
  }

  /** The quad at (r, c) fills the six slots after all earlier quads. */
  lemma SlotBound(r: int, c: int, k: int, m: int)
    requires 0 <= r < m - 1 && 0 <= c < m - 1 && 0 <= k < 6
    ensures 0 <= Slot(r, c, k, m) < (m - 1) * (m - 1) * 6
  {
    IndexBound(r, c, m - 1, m - 1);
  }

  /**
   * The two triangles of the quad whose top-left vertex is `vertexIndex`: a is that vertex, b
   * the one to its right, c the one below and d the one below and to the right.
   */
  method AddQuad(triangles: array<int>, triangleIndex: int, vertexIndex: int, verticesPerLine: int, ghost j: int, ghost i: int)
    returns (next: int)
    requires vertexIndex == Index(j, i, verticesPerLine)
    requires -1 <= triangleIndex && triangleIndex + 6 < triangles.Length
    modifies triangles
    ensures next == triangleIndex + 6
    ensures forall k :: 0 <= k < 6 ==> triangles[triangleIndex + 1 + k] == Corner(j, i, k, verticesPerLine)
    ensures forall p :: 0 <= p < triangles.Length && !(triangleIndex < p <= next) ==> triangles[p] == old(triangles[p])
  {
    var a := vertexIndex;
    var b := vertexIndex + 1;
    var c := vertexIndex + verticesPerLine;
    var d := vertexIndex + verticesPerLine + 1;
    assert (j + 1) * verticesPerLine == j * verticesPerLine + verticesPerLine;
    next := AddTriangle(triangles, triangleIndex, a, d, c);
    next := AddTriangle(triangles, next, d, a, b);
  }

  /** Row-major numbering runs on from the end of one line to the start of the next. */
  lemma NextLine(j: int, m: int)
    requires 0 <= j < m
    ensures Index(j, m, m) == Index(j + 1, 0, m)
    ensures QuadsBefore(j, m, m) == QuadsBefore(j + 1, 0, m)
  {
    assert (j + 1) * m == j * m + m;
    assert (j + 1) * (m - 1) == j * (m - 1) + (m - 1);
  }

  /** Vertices of the points before (j, i) in scan order are in place. */
  ghost predicate VerticesUpTo(v: seq<Point>, m: int, inc: int, offset: int, j: int, i: int) {
    forall r, c :: 0 <= c < m && 0 <= r < m && (r < j || (r == j && c < i)) ==>
      0 <= Index(r, c, m) < |v| && v[Index(r, c, m)] == Point((c + offset) * inc, (r + offset) * inc)
  }

  /** Triangles of the quads before (j, i) in scan order are in place. */
  ghost predicate TrianglesUpTo(t: seq<int>, m: int, j: int, i: int) {
    forall r, c, k :: 0 <= c < m - 1 && 0 <= k < 6 && 0 <= r < m - 1 && (r < j || (r == j && c < i)) ==>
      0 <= Slot(r, c, k, m) < |t| && t[Slot(r, c, k, m)] == Corner(r, c, k, m)
  }

  /** The first `count` entries are vertex indices below `n`. */
  ghost predicate InRange(t: seq<int>, count: int, n: int) {
    0 <= count <= |t| && forall p :: 0 <= p < count ==> 0 <= t[p] < n
  }

  /** Writing the vertex of (j, i) extends the scanned prefix by that point. */
  lemma VerticesStep(v: seq<Point>, m: int, inc: int, offset: int, j: int, i: int)
    requires 0 <= j < m && 0 <= i < m && VerticesUpTo(v, m, inc, offset, j, i) && Index(j, i, m) < |v|
    ensures VerticesUpTo(v[Index(j, i, m) := Point((i + offset) * inc, (j + offset) * inc)], m, inc, offset, j, i + 1)
  {
    IndexBound(j, i, m, m);
    forall r, c | 0 <= c < m && 0 <= r < m && (r < j || (r == j && c < i))
      ensures Index(r, c, m) < Index(j, i, m)
    {
      IndexBefore(r, c, j, i, m);
    }
  }

  /** Writing the quad of (j, i) at its slots extends the scanned prefix by that quad. */
  lemma TrianglesStep(t: seq<int>, t': seq<int>, m: int, j: int, i: int)
    requires 0 <= j < m - 1 && 0 <= i < m - 1 && TrianglesUpTo(t, m, j, i) && |t'| == |t|
    requires Slot(j, i, 5, m) < |t|
    requires forall k :: 0 <= k < 6 ==> t'[Slot(j, i, k, m)] == Corner(j, i, k, m)
    requires forall p :: 0 <= p < |t| && !(Slot(j, i, 0, m) <= p <= Slot(j, i, 5, m)) ==> t'[p] == t[p]
    ensures TrianglesUpTo(t', m, j, i + 1)
  {
    forall r, c, k | 0 <= c < m - 1 && 0 <= k < 6 && 0 <= r < m - 1 && (r < j || (r == j && c < i))
      ensures Slot(r, c, k, m) < Slot(j, i, 0, m)
    {
      IndexBefore(r, c, j, i, m - 1);
    }
    IndexBound(j, i, m - 1, m - 1);
  }

  /** One grid point of the plain mesh: AddVertex, then the quad to its lower right if any. */
  method AddPoint(vertices: array<Point>, triangles: array<int>, vertexIndex: int, triangleIndex: int,
                  lod: int, j: int, i: int) returns (vertexNext: int, triangleNext: int)
    requires 0 <= lod <= 6
    requires var m := PointsPerLine(lod);
      && 0 <= j < m && 0 <= i < m && vertices.Length == m * m && triangles.Length == (m - 1) * (m - 1) * 6
      && vertexIndex == Index(j, i, m) - 1 && triangleIndex + 1 == 6 * QuadsBefore(j, i, m)
      && VerticesUpTo(vertices[..], m, LodIncrement(lod), 0, j, i) && TrianglesUpTo(triangles[..], m, j, i)
      && InRange(triangles[..], triangleIndex + 1, vertices.Length)
    modifies vertices, triangles
    ensures var m := PointsPerLine(lod);
      && vertexNext == Index(j, i + 1, m) - 1 && triangleNext + 1 == 6 * QuadsBefore(j, i + 1, m)
      && VerticesUpTo(vertices[..], m, LodIncrement(lod), 0, j, i + 1) && TrianglesUpTo(triangles[..], m, j, i + 1)
      && InRange(triangles[..], triangleNext + 1, vertices.Length)
  {
    var meshSize := NoiseSize;
    var lodIncrement := LodIncrement(lod);
    var verticesPerLine := PointsPerLine(lod);
    ghost var m := verticesPerLine;
    var x, y := i * lodIncrement, j * lodIncrement;
    Steps(lod, i);
    Steps(lod, j);
    IndexBound(j, i, m, m);
    VerticesStep(vertices[..], m, lodIncrement, 0, j, i);
    vertexNext := vertexIndex + 1;
    vertices[vertexNext] := Point(x, y);
    triangleNext := triangleIndex;
    if x < meshSize - 1 && y < meshSize - 1 {
      SlotBound(j, i, 5, m);
      forall k | 0 <= k < 6
        ensures 0 <= Corner(j, i, k, m) < m * m
      {
        CornerBound(j, i, k, m);
      }
      ghost var before := triangles[..];
      triangleNext := AddQuad(triangles, triangleIndex, vertexNext, verticesPerLine, j, i);
      TrianglesStep(before, triangles[..], m, j, i);
      forall p | triangleIndex < p <= triangleNext
        ensures 0 <= triangles[p] < vertices.Length
      {
        assert triangles[triangleIndex + 1 + (p - triangleIndex - 1)] == Corner(j, i, p - triangleIndex - 1, m);
      }
    }
  }

  /** One line of the plain mesh: the inner loop of CreateTriangleArrays. */
  method AddLine(vertices: array<Point>, triangles: array<int>, vertexIndex: int, triangleIndex: int,
                 lod: int, j: int) returns (vertexNext: int, triangleNext: int)
    requires 0 <= lod <= 6
    requires var m := PointsPerLine(lod);
      && 0 <= j < m && vertices.Length == m * m && triangles.Length == (m - 1) * (m - 1) * 6
      && vertexIndex == Index(j, 0, m) - 1 && triangleIndex + 1 == 6 * QuadsBefore(j, 0, m)
      && VerticesUpTo(vertices[..], m, LodIncrement(lod), 0, j, 0) && TrianglesUpTo(triangles[..], m, j, 0)
      && InRange(triangles[..], triangleIndex + 1, vertices.Length)
    modifies vertices, triangles
    ensures var m := PointsPerLine(lod);
      && vertexNext == Index(j + 1, 0, m) - 1 && triangleNext + 1 == 6 * QuadsBefore(j + 1, 0, m)
      && VerticesUpTo(vertices[..], m, LodIncrement(lod), 0, j + 1, 0) && TrianglesUpTo(triangles[..], m, j + 1, 0)
      && InRange(triangles[..], triangleNext + 1, vertices.Length)
  {
    ghost var m := PointsPerLine(lod);
    vertexNext, triangleNext := vertexIndex, triangleIndex;
    for i := 0 to PointsPerLine(lod)
      invariant vertexNext == Index(j, i, m) - 1
      invariant triangleNext + 1 == 6 * QuadsBefore(j, i, m)
      invariant VerticesUpTo(vertices[..], m, LodIncrement(lod), 0, j, i) && TrianglesUpTo(triangles[..], m, j, i)
      invariant InRange(triangles[..], triangleNext + 1, vertices.Length)
    {
      vertexNext, triangleNext := AddPoint(vertices, triangles, vertexNext, triangleNext, lod, j, i);
    }
    NextLine(j, m);
  }

  /**
   * The plain (not seamless) mesh: vertex i of line j is the sample at (i, j) steps, and each
   * grid square with a vertex to its right and below emits (a, d, c) and (d, a, b).
   */
  method CreateTriangleArrays(lod: int) returns (vertices: array<Point>, triangles: array<int>)
    requires 0 <= lod <= 6
    ensures fresh(vertices) && fresh(triangles)
    ensures GridVertices(vertices[..], PointsPerLine(lod), LodIncrement(lod), 0)
    ensures GridTriangles(triangles[..], PointsPerLine(lod))
    ensures forall p :: 0 <= p < triangles.Length ==> 0 <= triangles[p] < vertices.Length
  {
    var meshSize := NoiseSize;
    var lodIncrement := LodIncrement(lod);
    var verticesPerLine := (meshSize - 1) / lodIncrement + 1;
    ghost var m := verticesPerLine;
    assert m == PointsPerLine(lod);
    vertices := new Point[verticesPerLine * verticesPerLine];
    triangles := new int[(verticesPerLine - 1) * (verticesPerLine - 1) * 6];
    ScanGrid(vertices, triangles, lod);
  }

  /** The line loop of CreateTriangleArrays, with both indices starting at -1. */
  method ScanGrid(vertices: array<Point>, triangles: array<int>, lod: int)
    requires 0 <= lod <= 6
    requires var m := PointsPerLine(lod);
      vertices.Length == m * m && triangles.Length == (m - 1) * (m - 1) * 6
    modifies vertices, triangles
    ensures GridVertices(vertices[..], PointsPerLine(lod), LodIncrement(lod), 0)
    ensures GridTriangles(triangles[..], PointsPerLine(lod))
    ensures forall p :: 0 <= p < triangles.Length ==> 0 <= triangles[p] < vertices.Length
  {
    ghost var m := PointsPerLine(lod);
    var vertexIndex := -1;
    var triangleIndex := -1;
    for j := 0 to PointsPerLine(lod)
      invariant vertexIndex == Index(j, 0, m) - 1 && triangleIndex + 1 == 6 * QuadsBefore(j, 0, m)
      invariant VerticesUpTo(vertices[..], m, LodIncrement(lod), 0, j, 0) && TrianglesUpTo(triangles[..], m, j, 0)
      invariant InRange(triangles[..], triangleIndex + 1, vertices.Length)
    {
      vertexIndex, triangleIndex := AddLine(vertices, triangles, vertexIndex, triangleIndex, lod, j);
    }
    Finish(vertices, triangles, m, LodIncrement(lod));
  }

  /** A finished scan is the whole grid. */
  lemma Finish(vertices: array<Point>, triangles: array<int>, m: int, inc: int)
    requires m >= 2 && vertices.Length == m * m && triangles.Length == (m - 1) * (m - 1) * 6
    requires VerticesUpTo(vertices[..], m, inc, 0, m, 0) && TrianglesUpTo(triangles[..], m, m, 0)
    requires InRange(triangles[..], 6 * QuadsBefore(m, 0, m), vertices.Length)
    ensures GridVertices(vertices[..], m, inc, 0)
    ensures GridTriangles(triangles[..], m)
    ensures forall p :: 0 <= p < triangles.Length ==> 0 <= triangles[p] < vertices.Length
  {
    assert 6 * QuadsBefore(m, 0, m) == triangles.Length;
  }

  // ----- Seamless mesh: the border lookup ----------------------------------------------------

  /** A grid point on the outer ring of an n x n grid. */
  predicate IsBorder(i: int, j: int, n: int) {
    i == 0 || i == n - 1 || j == 0 || j == n - 1
  }

  /** Ring points scanned before column i of line j (row by row, left to right). */
  function BorderBefore(j: int, i: int, n: int): int {
    if j == 0 then i
    else if j < n - 1 then n + 2 * (j - 1) + (if i == 0 then 0 else if i < n then 1 else 2)
    else n + 2 * (n - 2) + (if j == n - 1 then i else n)
  }

  /** Interior points scanned before column i of line j. */
  function InteriorBefore(j: int, i: int, n: int): int {
    if j == 0 then 0
    else if j < n - 1 then Index(j - 1, if i == 0 then 0 else if i < n - 1 then i - 1 else n - 2, n - 2)
    else Index(n - 2, 0, n - 2)
  }

  /**
   * The lookup entry of grid point (i, j): ring points count down from -1 and interior points
   * count up from 0, both in scan order.
   */
  function LookupValue(i: int, j: int, n: int): int {
    if IsBorder(i, j, n) then -BorderBefore(j, i, n) - 1 else InteriorBefore(j, i, n)
  }

  /** GetBorderIndex: the place of a ring point's vertex in the border vertex array. */
  function GetBorderIndex(lookupValue: int): (r: int)
    requires lookupValue < 0
    ensures r >= 0 && -r - 1 == lookupValue
  {
    -lookupValue - 1
  }

  /** IsBorderTriangle: a triangle with a ring corner belongs to the border. */
  predicate IsBorderTriangle(a: int, b: int, c: int) {
    a < 0 || b < 0 || c < 0
  }

  /** The lookup of an n x n grid, indexed [x, y] as the source's is. */
  ghost predicate IsLookup(lookup: array2<int>, n: int)
    reads lookup
  {
    lookup.Length0 == n && lookup.Length1 == n &&
    forall i, j :: 0 <= i < n && 0 <= j < n ==> lookup[i, j] == LookupValue(i, j, n)
  }

  /** Interior points are numbered as the (n-2)-wide grid they form; ring points by their scan rank. */
  lemma LookupNumbering(i: int, j: int, n: int)
    requires n >= 3 && 0 <= i < n && 0 <= j < n
    ensures !IsBorder(i, j, n) ==> LookupValue(i, j, n) == Index(j - 1, i - 1, n - 2)
    ensures !IsBorder(i, j, n) ==> 0 <= LookupValue(i, j, n) < (n - 2) * (n - 2)
    ensures IsBorder(i, j, n) ==> -(4 * n - 4) <= LookupValue(i, j, n) < 0
    ensures IsBorder(i, j, n) ==> 0 <= GetBorderIndex(LookupValue(i, j, n)) < 4 * n - 4
  {
    if !IsBorder(i, j, n) {
      IndexBound(j - 1, i - 1, n - 2, n - 2);
    }
  }

  /** The ring numbering has no gaps or repeats: scan ranks are distinct. */
  lemma BorderRanksDistinct(i: int, j: int, i': int, j': int, n: int)
    requires n >= 3 && 0 <= i < n && 0 <= j < n && 0 <= i' < n && 0 <= j' < n
    requires IsBorder(i, j, n) && IsBorder(i', j', n) && (i, j) != (i', j')
    ensures LookupValue(i, j, n) != LookupValue(i', j', n)
  {
  }

  /** Scanning one point moves exactly one of the two counters on by one. */
  lemma ScanStep(i: int, j: int, n: int)
    requires n >= 3 && 0 <= i < n && 0 <= j < n
    ensures IsBorder(i, j, n) ==> BorderBefore(j, i + 1, n) == BorderBefore(j, i, n) + 1 && InteriorBefore(j, i + 1, n) == InteriorBefore(j, i, n)
    ensures !IsBorder(i, j, n) ==> InteriorBefore(j, i + 1, n) == InteriorBefore(j, i, n) + 1 && BorderBefore(j, i + 1, n) == BorderBefore(j, i, n)
    ensures i == n - 1 ==> BorderBefore(j, n, n) == BorderBefore(j + 1, 0, n) && InteriorBefore(j, n, n) == InteriorBefore(j + 1, 0, n)
  {
    if 0 < j < n - 1 {
      assert Index(j - 1, n - 2, n - 2) == Index(j, 0, n - 2) by {
        assert j * (n - 2) == (j - 1) * (n - 2) + (n - 2);
      }
    }
  }

  /** CreateBorderMeshLookup: one scan over the grid, two running counters. */
  method CreateBorderMeshLookup(lod: int) returns (lookup: array2<int>)
    requires 0 <= lod <= 6
    ensures fresh(lookup) && IsLookup(lookup, PointsPerLine(lod))
  {
    var borderSize := PointsPerLine(lod);
    var meshIndex := 0;
    var borderIndex := -1;
    lookup := new int[borderSize, borderSize];
    for y := 0 to borderSize
      invariant meshIndex == InteriorBefore(y, 0, borderSize) && borderIndex == -BorderBefore(y, 0, borderSize) - 1
      invariant forall i, j :: 0 <= i < borderSize && 0 <= j < y ==> lookup[i, j] == LookupValue(i, j, borderSize)
    {
      for x := 0 to borderSize
        invariant meshIndex == InteriorBefore(y, x, borderSize) && borderIndex == -BorderBefore(y, x, borderSize) - 1
        invariant forall i, j :: 0 <= i < borderSize && 0 <= j < borderSize && (j < y || (j == y && i < x)) ==>
          lookup[i, j] == LookupValue(i, j, borderSize)
      {
        ScanStep(x, y, borderSize);
        var isBorderVertex := x == 0 || x == borderSize - 1 || y == 0 || y == borderSize - 1;
        if isBorderVertex {
          lookup[x, y] := borderIndex;
          borderIndex := borderIndex - 1;
        } else {
          lookup[x, y] := meshIndex;
          meshIndex := meshIndex + 1;
        }
      }
      ScanStep(borderSize - 1, y, borderSize);
    }
  }

  // ----- Seamless mesh: vertices and triangles -----------------------------------------------

  /** Quads of the interior grid whose top-left point is scanned before (i, j). */
  function InteriorQuadsBefore(j: int, i: int, n: int): int {
    if j <= 0 then 0 else QuadsBefore(j - 1, if i <= 0 then 0 else i - 1, n - 2)
  }

  /** A quad of the full grid lies in the interior exactly when its four corners do. */
  predicate IsInteriorQuad(i: int, j: int, n: int) {
    1 <= i <= n - 3 && 1 <= j <= n - 3
  }

  /** Scanning a point with a quad moves the quad counts; the counts run on across lines. */
  lemma QuadStep(i: int, j: int, n: int)
    requires n >= 4 && 0 <= i < n && 0 <= j < n
    ensures i < n - 1 && j < n - 1 ==> QuadsBefore(j, i + 1, n) == QuadsBefore(j, i, n) + 1
    ensures !(i < n - 1 && j < n - 1) ==> QuadsBefore(j, i + 1, n) == QuadsBefore(j, i, n)
    ensures IsInteriorQuad(i, j, n) ==> InteriorQuadsBefore(j, i + 1, n) == InteriorQuadsBefore(j, i, n) + 1
    ensures !IsInteriorQuad(i, j, n) ==> InteriorQuadsBefore(j, i + 1, n) == InteriorQuadsBefore(j, i, n)
    ensures i == n - 1 ==> QuadsBefore(j, n, n) == QuadsBefore(j + 1, 0, n)
    ensures i == n - 1 ==> InteriorQuadsBefore(j, n, n) == InteriorQuadsBefore(j + 1, 0, n)
  {
    if i == n - 1 {
      NextLine(j, n);
      if 1 <= j < n - 1 {
        NextLine(j - 1, n - 2);
      }
    }
  }

  /** The k-th entry the interior quad at (i, j) of the full grid emits, in interior numbering. */
  function InteriorCorner(i: int, j: int, k: int, n: int): int {
    Corner(j - 1, i - 1, k, n - 2)
  }

  /** The interior quad at (i, j) reads the lookup as the (n-2)-wide grid's quad at (j-1, i-1). */
  lemma InteriorQuadCorners(lookup: array2<int>, i: int, j: int, n: int)
    requires n >= 4 && IsLookup(lookup, n) && IsInteriorQuad(i, j, n)
    ensures lookup[i, j] == InteriorCorner(i, j, 0, n) == InteriorCorner(i, j, 4, n)
    ensures lookup[i + 1, j + 1] == InteriorCorner(i, j, 1, n) == InteriorCorner(i, j, 3, n)
    ensures lookup[i, j + 1] == InteriorCorner(i, j, 2, n) && lookup[i + 1, j] == InteriorCorner(i, j, 5, n)
    ensures 0 <= lookup[i, j] && 0 <= lookup[i + 1, j] && 0 <= lookup[i, j + 1] && 0 <= lookup[i + 1, j + 1]
  {
    LookupNumbering(i, j, n);
    LookupNumbering(i + 1, j + 1, n);
    LookupNumbering(i, j + 1, n);
    LookupNumbering(i + 1, j, n);
    assert j * (n - 2) == (j - 1) * (n - 2) + (n - 2);
  }

  /** A quad touching the ring has a ring corner in each of its two triangles. */
  lemma BorderQuadCorners(lookup: array2<int>, i: int, j: int, n: int)
    requires n >= 4 && IsLookup(lookup, n) && 0 <= i < n - 1 && 0 <= j < n - 1 && !IsInteriorQuad(i, j, n)
    ensures IsBorderTriangle(lookup[i, j], lookup[i + 1, j + 1], lookup[i, j + 1])
    ensures IsBorderTriangle(lookup[i + 1, j + 1], lookup[i, j], lookup[i + 1, j])
  {
    if i == 0 || j == 0 {
      LookupNumbering(i, j, n);
    } else {
      LookupNumbering(i + 1, j + 1, n);
    }
  }

  /** AddBorderMeshTriangle: a triangle with a ring corner goes to the border list, any other to the mesh. */
  method AddBorderMeshTriangle(meshTriangles: array<int>, borderTriangles: array<int>, meshTriangleIndex: int,
                               borderTriangleIndex: int, a: int, b: int, c: int)
    returns (meshNext: int, borderNext: int)
    requires meshTriangles != borderTriangles
    requires IsBorderTriangle(a, b, c) ==> -1 <= borderTriangleIndex && borderTriangleIndex + 3 < borderTriangles.Length
    requires !IsBorderTriangle(a, b, c) ==> -1 <= meshTriangleIndex && meshTriangleIndex + 3 < meshTriangles.Length
    modifies meshTriangles, borderTriangles
    ensures IsBorderTriangle(a, b, c) ==>
      && meshNext == meshTriangleIndex && borderNext == borderTriangleIndex + 3
      && borderTriangles[borderNext - 2] == a && borderTriangles[borderNext - 1] == b && borderTriangles[borderNext] == c
      && meshTriangles[..] == old(meshTriangles[..])
      && forall p :: 0 <= p <= borderTriangleIndex ==> borderTriangles[p] == old(borderTriangles[p])
    ensures !IsBorderTriangle(a, b, c) ==>
      && borderNext == borderTriangleIndex && meshNext == meshTriangleIndex + 3
      && meshTriangles[meshNext - 2] == a && meshTriangles[meshNext - 1] == b && meshTriangles[meshNext] == c
      && borderTriangles[..] == old(borderTriangles[..])
      && forall p :: 0 <= p < meshTriangles.Length && !(meshTriangleIndex < p <= meshNext) ==> meshTriangles[p] == old(meshTriangles[p])
  {
    meshNext, borderNext := meshTriangleIndex, borderTriangleIndex;
    if IsBorderTriangle(a, b, c) {
      borderNext := AddTriangle(borderTriangles, borderTriangleIndex, a, b, c);
    } else {
      meshNext := AddTriangle(meshTriangles, meshTriangleIndex, a, b, c);
    }
  }

  /** The quad whose top-left point is (i, j): (a, d, c) and (d, a, b), each sent to its list. */
  method AddSeamlessQuad(lookup: array2<int>, meshTriangles: array<int>, borderTriangles: array<int>,
                         meshTriangleIndex: int, borderTriangleIndex: int, i: int, j: int, ghost n: int)
    returns (meshNext: int, borderNext: int)
    requires n >= 4 && IsLookup(lookup, n) && 0 <= i < n - 1 && 0 <= j < n - 1
    requires meshTriangles != borderTriangles
    requires IsInteriorQuad(i, j, n) ==> -1 <= meshTriangleIndex && meshTriangleIndex + 6 < meshTriangles.Length
    requires !IsInteriorQuad(i, j, n) ==> -1 <= borderTriangleIndex && borderTriangleIndex + 6 < borderTriangles.Length
    modifies meshTriangles, borderTriangles
    ensures IsInteriorQuad(i, j, n) ==>
      && meshNext == meshTriangleIndex + 6 && borderNext == borderTriangleIndex
      && (forall k :: 0 <= k < 6 ==> meshTriangles[meshTriangleIndex + 1 + k] == InteriorCorner(i, j, k, n))
      && (forall p :: 0 <= p < meshTriangles.Length && !(meshTriangleIndex < p <= meshNext) ==> meshTriangles[p] == old(meshTriangles[p]))
      && borderTriangles[..] == old(borderTriangles[..])
    ensures !IsInteriorQuad(i, j, n) ==>
      && meshNext == meshTriangleIndex && borderNext == borderTriangleIndex + 6
      && IsBorderTriangle(borderTriangles[borderTriangleIndex + 1], borderTriangles[borderTriangleIndex + 2], borderTriangles[borderTriangleIndex + 3])
      && IsBorderTriangle(borderTriangles[borderTriangleIndex + 4], borderTriangles[borderTriangleIndex + 5], borderTriangles[borderTriangleIndex + 6])
      && (forall p :: borderTriangleIndex < p <= borderNext ==> -(4 * n - 4) <= borderTriangles[p] < (n - 2) * (n - 2))
      && (forall p :: 0 <= p <= borderTriangleIndex ==> borderTriangles[p] == old(borderTriangles[p]))
      && meshTriangles[..] == old(meshTriangles[..])
  {
    var a := lookup[i, j];
    var b := lookup[i + 1, j];
    var c := lookup[i, j + 1];
    var d := lookup[i + 1, j + 1];
    if IsInteriorQuad(i, j, n) {
      InteriorQuadCorners(lookup, i, j, n);
    } else {
      BorderQuadCorners(lookup, i, j, n);
      LookupNumbering(i, j, n);
      LookupNumbering(i + 1, j, n);
      LookupNumbering(i, j + 1, n);
      LookupNumbering(i + 1, j + 1, n);
    }
    ghost var mesh0, border0 := meshTriangles[..], borderTriangles[..];
    meshNext, borderNext := AddBorderMeshTriangle(meshTriangles, borderTriangles, meshTriangleIndex, borderTriangleIndex, a, d, c);
    ghost var mesh1, border1 := meshTriangles[..], borderTriangles[..];
    meshNext, borderNext := AddBorderMeshTriangle(meshTriangles, borderTriangles, meshNext, borderNext, d, a, b);
    if IsInteriorQuad(i, j, n) {
      assert border1 == border0 && borderTriangles[..] == border1;
      assert meshTriangles[meshTriangleIndex + 1] == a == InteriorCorner(i, j, 0, n);
      assert meshTriangles[meshTriangleIndex + 2] == d == InteriorCorner(i, j, 1, n);
      assert meshTriangles[meshTriangleIndex + 3] == c == InteriorCorner(i, j, 2, n);
      assert meshTriangles[meshTriangleIndex + 4] == d == InteriorCorner(i, j, 3, n);
      assert meshTriangles[meshTriangleIndex + 5] == a == InteriorCorner(i, j, 4, n);
      assert meshTriangles[meshTriangleIndex + 6] == b == InteriorCorner(i, j, 5, n);
    } else {
      assert mesh1 == mesh0 && meshTriangles[..] == mesh1;
    }
  }

  /** AddBorderMeshVertex: a ring point's vertex goes to the border array, any other to the mesh. */
  method AddBorderMeshVertex(lookup: array2<int>, meshVertices: array<Point>, borderVertices: array<Point>,
                             i: int, j: int, lodIncrement: int, ghost n: int)
    requires n >= 4 && IsLookup(lookup, n) && 0 <= i < n && 0 <= j < n
    requires meshVertices != borderVertices
    requires meshVertices.Length >= (n - 2) * (n - 2) && borderVertices.Length >= 4 * n - 4
    modifies meshVertices, borderVertices
    ensures IsBorder(i, j, n) ==>
      && 0 <= BorderBefore(j, i, n) < borderVertices.Length
      && borderVertices[BorderBefore(j, i, n)] == Point(i * lodIncrement, j * lodIncrement)
      && (forall p :: 0 <= p < borderVertices.Length && p != BorderBefore(j, i, n) ==> borderVertices[p] == old(borderVertices[p]))
      && meshVertices[..] == old(meshVertices[..])
    ensures !IsBorder(i, j, n) ==>
      && 0 <= Index(j - 1, i - 1, n - 2) < meshVertices.Length
      && meshVertices[Index(j - 1, i - 1, n - 2)] == Point(i * lodIncrement, j * lodIncrement)
      && (forall p :: 0 <= p < meshVertices.Length && p != Index(j - 1, i - 1, n - 2) ==> meshVertices[p] == old(meshVertices[p]))
      && borderVertices[..] == old(borderVertices[..])
  {
    var x, y := i * lodIncrement, j * lodIncrement;
    var vertexIndex := lookup[i, j];
    LookupNumbering(i, j, n);
    if vertexIndex < 0 {
      borderVertices[GetBorderIndex(vertexIndex)] := Point(x, y);
    } else {
      meshVertices[vertexIndex] := Point(x, y);
    }
  }

  /** Ring vertices of the points before (i, j) in scan order are in place, at their scan rank. */
  ghost predicate BorderVerticesUpTo(v: seq<Point>, n: int, inc: int, j: int, i: int) {
    forall r, c :: 0 <= r < n && 0 <= c < n && IsBorder(c, r, n) && (r < j || (r == j && c < i)) ==>
      0 <= BorderBefore(r, c, n) < |v| && v[BorderBefore(r, c, n)] == Point(c * inc, r * inc)
  }

  /** Entries from `from` on still hold the zero the array was created with. */
  ghost predicate Unwritten(t: seq<int>, from: int) {
    forall p :: 0 <= p < |t| && from <= p ==> t[p] == 0
  }

  function Tri(q: int, k: int): int {
    3 * q + k
  }

  /** The first `count` triples are border triangles whose entries are lookup values. */
  ghost predicate BorderTriples(t: seq<int>, count: int, n: int) {
    && 0 <= 3 * count <= |t|
    && (forall q :: 0 <= q < count ==> IsBorderTriangle(t[Tri(q, 0)], t[Tri(q, 1)], t[Tri(q, 2)]))
    && (forall p :: 0 <= p < 3 * count ==> -(4 * n - 4) <= t[p] < (n - 2) * (n - 2))
  }

  /** The vertex side of the seamless scan up to (i, j). */
  ghost predicate SeamlessVerticesUpTo(meshVertices: seq<Point>, borderVertices: seq<Point>, n: int, inc: int, j: int, i: int) {
    VerticesUpTo(meshVertices, n - 2, inc, 1, j - 1, i - 1) && BorderVerticesUpTo(borderVertices, n, inc, j, i)
  }

  /** The triangle side of the seamless scan up to (i, j), with both running counters. */
  ghost predicate SeamlessTrianglesUpTo(meshTriangles: seq<int>, borderTriangles: seq<int>,
                                        meshTriangleIndex: int, borderTriangleIndex: int, n: int, j: int, i: int) {
    && meshTriangleIndex + 1 == 6 * InteriorQuadsBefore(j, i, n)
    && borderTriangleIndex + 1 == 6 * (QuadsBefore(j, i, n) - InteriorQuadsBefore(j, i, n))
    && TrianglesUpTo(meshTriangles, n - 2, j - 1, i - 1)
    && InRange(meshTriangles, meshTriangleIndex + 1, (n - 2) * (n - 2))
    && Unwritten(meshTriangles, meshTriangleIndex + 1)
    && BorderTriples(borderTriangles, 2 * (QuadsBefore(j, i, n) - InteriorQuadsBefore(j, i, n)), n)
  }

  /** Ring points are ranked in scan order. */
  lemma BorderBeforeIncreasing(c: int, r: int, i: int, j: int, n: int)
    requires n >= 4 && 0 <= r < n && 0 <= c < n && 0 <= j < n && 0 <= i < n
    requires IsBorder(c, r, n) && IsBorder(i, j, n) && (r < j || (r == j && c < i))
    ensures BorderBefore(r, c, n) < BorderBefore(j, i, n)
  {
  }

  /** The quad counts never pass their totals. */
  lemma QuadCountsBound(j: int, i: int, n: int)
    requires n >= 4 && 0 <= j < n && 0 <= i <= n
    ensures 0 <= InteriorQuadsBefore(j, i, n) <= (n - 3) * (n - 3)
    ensures 0 <= QuadsBefore(j, i, n) - InteriorQuadsBefore(j, i, n) <= 4 * n - 8
  {
    var w := n - 2;
    if 1 <= j <= n - 3 {
      MulMono(0, j - 1, w - 1);
      MulMono(j, w - 1, w - 1);
      assert (j - 1) * (w - 1) + (w - 1) == j * (w - 1);
      assert j * (n - 1) - (j - 1) * (n - 3) == 2 * j + n - 3;
      if j < n - 2 {
        var c' := if i < n - 1 then i else n - 1;
        assert QuadsBefore(j, i, n) == j * (n - 1) + c';
      }
    } else if j == n - 2 {
      assert (n - 2) * (n - 1) - (n - 3) * (n - 3) == 3 * n - 7;
      MulMono(0, n - 3, n - 3);
    } else if j == n - 1 {
      assert (n - 1) * (n - 1) - (n - 3) * (n - 3) == 4 * n - 8;
      MulMono(0, n - 3, n - 3);
    }
  }

  /** Writing the vertex of (i, j) where AddBorderMeshVertex puts it extends the vertex side. */
  lemma SeamlessVertexStep(mv: seq<Point>, bv: seq<Point>, mv': seq<Point>, bv': seq<Point>, n: int, inc: int, j: int, i: int)
    requires n >= 4 && 0 <= j < n && 0 <= i < n && SeamlessVerticesUpTo(mv, bv, n, inc, j, i)
    requires |mv'| == |mv| && |bv'| == |bv|
    requires IsBorder(i, j, n) ==>
      && 0 <= BorderBefore(j, i, n) < |bv| && bv'[BorderBefore(j, i, n)] == Point(i * inc, j * inc)
      && (forall p :: 0 <= p < |bv| && p != BorderBefore(j, i, n) ==> bv'[p] == bv[p]) && mv' == mv
    requires !IsBorder(i, j, n) ==>
      && 0 <= Index(j - 1, i - 1, n - 2) < |mv| && mv'[Index(j - 1, i - 1, n - 2)] == Point(i * inc, j * inc)
      && (forall p :: 0 <= p < |mv| && p != Index(j - 1, i - 1, n - 2) ==> mv'[p] == mv[p]) && bv' == bv
    ensures SeamlessVerticesUpTo(mv', bv', n, inc, j, i + 1)
  {
    if IsBorder(i, j, n) {
      forall r, c | 0 <= r < n && 0 <= c < n && IsBorder(c, r, n) && (r < j || (r == j && c < i))
        ensures BorderBefore(r, c, n) < BorderBefore(j, i, n)
      {
        BorderBeforeIncreasing(c, r, i, j, n);
      }
    } else {
      VerticesStep(mv, n - 2, inc, 1, j - 1, i - 1);
      assert mv' == mv[Index(j - 1, i - 1, n - 2) := Point((i - 1 + 1) * inc, (j - 1 + 1) * inc)];
    }
  }

  /** The two triangles AddSeamlessQuad writes for (i, j), or none past the last row or column, extend the triangle side. */
  lemma SeamlessQuadStep(mt: seq<int>, bt: seq<int>, mt': seq<int>, bt': seq<int>,
                         mi: int, bi: int, mi': int, bi': int, n: int, j: int, i: int)
    requires n >= 4 && 0 <= j < n && 0 <= i < n && SeamlessTrianglesUpTo(mt, bt, mi, bi, n, j, i)
    requires |mt'| == |mt| && |bt'| == |bt|
    requires !(i < n - 1 && j < n - 1) ==> mt' == mt && bt' == bt && mi' == mi && bi' == bi
    requires i < n - 1 && j < n - 1 && IsInteriorQuad(i, j, n) ==>
      && mi + 6 < |mt| && mi' == mi + 6 && bi' == bi
      && (forall k :: 0 <= k < 6 ==> mt'[mi + 1 + k] == InteriorCorner(i, j, k, n))
      && (forall p :: 0 <= p < |mt| && !(mi < p <= mi') ==> mt'[p] == mt[p])
      && bt' == bt
    requires i < n - 1 && j < n - 1 && !IsInteriorQuad(i, j, n) ==>
      && bi + 6 < |bt| && mi' == mi && bi' == bi + 6
      && IsBorderTriangle(bt'[bi + 1], bt'[bi + 2], bt'[bi + 3])
      && IsBorderTriangle(bt'[bi + 4], bt'[bi + 5], bt'[bi + 6])
      && (forall p :: bi < p <= bi' ==> -(4 * n - 4) <= bt'[p] < (n - 2) * (n - 2))
      && (forall p :: 0 <= p <= bi ==> bt'[p] == bt[p])
      && mt' == mt
    ensures SeamlessTrianglesUpTo(mt', bt', mi', bi', n, j, i + 1)
  {
    if !(i < n - 1 && j < n - 1) {
      NoQuadStep(mt, bt, mi, bi, n, j, i);
    } else if IsInteriorQuad(i, j, n) {
      InteriorQuadStep(mt, bt, mt', mi, bi, n, j, i);
    } else {
      BorderQuadStep(mt, bt, bt', mi, bi, n, j, i);
    }
  }

  lemma NoQuadStep(mt: seq<int>, bt: seq<int>, mi: int, bi: int, n: int, j: int, i: int)
    requires n >= 4 && 0 <= j < n && 0 <= i < n && !(i < n - 1 && j < n - 1)
    requires SeamlessTrianglesUpTo(mt, bt, mi, bi, n, j, i)
    ensures SeamlessTrianglesUpTo(mt, bt, mi, bi, n, j, i + 1)
  {
    QuadStep(i, j, n);
  }

  lemma InteriorQuadStep(mt: seq<int>, bt: seq<int>, mt': seq<int>, mi: int, bi: int, n: int, j: int, i: int)
    requires n >= 4 && 0 <= j < n - 1 && 0 <= i < n - 1 && IsInteriorQuad(i, j, n)
    requires SeamlessTrianglesUpTo(mt, bt, mi, bi, n, j, i) && |mt'| == |mt| && mi + 6 < |mt|
    requires forall k :: 0 <= k < 6 ==> mt'[mi + 1 + k] == InteriorCorner(i, j, k, n)
    requires forall p :: 0 <= p < |mt| && !(mi < p <= mi + 6) ==> mt'[p] == mt[p]
    ensures SeamlessTrianglesUpTo(mt', bt, mi + 6, bi, n, j, i + 1)
  {
    QuadStep(i, j, n);
    InteriorTriangles(mt, mt', mi, n, j, i);
    InteriorValues(mt, mt', mi, n, j, i);
  }

  lemma InteriorTriangles(mt: seq<int>, mt': seq<int>, mi: int, n: int, j: int, i: int)
    requires n >= 4 && 0 <= j < n - 1 && 0 <= i < n - 1 && IsInteriorQuad(i, j, n)
    requires TrianglesUpTo(mt, n - 2, j - 1, i - 1) && mi + 1 == 6 * InteriorQuadsBefore(j, i, n)
    requires |mt'| == |mt| && mi + 6 < |mt|
    requires forall k :: 0 <= k < 6 ==> mt'[mi + 1 + k] == InteriorCorner(i, j, k, n)
    requires forall p :: 0 <= p < |mt| && !(mi < p <= mi + 6) ==> mt'[p] == mt[p]
    ensures TrianglesUpTo(mt', n - 2, j - 1, i)
  {
    var w, r, c := n - 2, j - 1, i - 1;
    assert mi + 1 == 6 * Index(r, c, w - 1);
    forall k | 0 <= k < 6
      ensures mt'[Slot(r, c, k, w)] == Corner(r, c, k, w)
    {
      assert Slot(r, c, k, w) == mi + 1 + k;
      assert mt'[mi + 1 + k] == InteriorCorner(i, j, k, n) == Corner(r, c, k, w);
    }
    TrianglesStep(mt, mt', w, r, c);
  }

  lemma InteriorValues(mt: seq<int>, mt': seq<int>, mi: int, n: int, j: int, i: int)
    requires n >= 4 && IsInteriorQuad(i, j, n)
    requires InRange(mt, mi + 1, (n - 2) * (n - 2)) && Unwritten(mt, mi + 1)
    requires |mt'| == |mt| && mi + 6 < |mt|
    requires forall k :: 0 <= k < 6 ==> mt'[mi + 1 + k] == InteriorCorner(i, j, k, n)
    requires forall p :: 0 <= p < |mt| && !(mi < p <= mi + 6) ==> mt'[p] == mt[p]
    ensures InRange(mt', mi + 7, (n - 2) * (n - 2)) && Unwritten(mt', mi + 7)
  {
    forall k | 0 <= k < 6
      ensures 0 <= InteriorCorner(i, j, k, n) < (n - 2) * (n - 2)
    {
      CornerBound(j - 1, i - 1, k, n - 2);
    }
    forall p | 0 <= p < mi + 7
      ensures 0 <= mt'[p] < (n - 2) * (n - 2)
    {
      if p > mi {
        assert mt'[mi + 1 + (p - mi - 1)] == InteriorCorner(i, j, p - mi - 1, n);
      }
    }
  }

  lemma BorderQuadStep(mt: seq<int>, bt: seq<int>, bt': seq<int>, mi: int, bi: int, n: int, j: int, i: int)
    requires n >= 4 && 0 <= j < n - 1 && 0 <= i < n - 1 && !IsInteriorQuad(i, j, n)
    requires SeamlessTrianglesUpTo(mt, bt, mi, bi, n, j, i) && |bt'| == |bt| && bi + 6 < |bt|
    requires IsBorderTriangle(bt'[bi + 1], bt'[bi + 2], bt'[bi + 3])
    requires IsBorderTriangle(bt'[bi + 4], bt'[bi + 5], bt'[bi + 6])
    requires forall p :: bi < p <= bi + 6 ==> -(4 * n - 4) <= bt'[p] < (n - 2) * (n - 2)
    requires forall p :: 0 <= p <= bi ==> bt'[p] == bt[p]
    ensures SeamlessTrianglesUpTo(mt, bt', mi, bi + 6, n, j, i + 1)
  {
    QuadStep(i, j, n);
    var count := QuadsBefore(j, i, n) - InteriorQuadsBefore(j, i, n);
    assert Tri(2 * count, 0) == bi + 1;
    assert Tri(2 * count + 1, 0) == bi + 4;
  }

  /**
   * One step of the seamless scan at grid step (i, j): the vertex goes to the mesh or
   * the ring, and the quad to its lower right, if there is one, goes to the mesh
   * triangles when all its corners are interior and to the border triangles otherwise.
   */
  method AddSeamlessPoint(lookup: array2<int>, meshVertices: array<Point>, borderVertices: array<Point>,
                          meshTriangles: array<int>, borderTriangles: array<int>,
                          meshTriangleIndex: int, borderTriangleIndex: int, lod: int, i: int, j: int, ghost n: int)
    returns (meshNext: int, borderNext: int)
    requires 0 <= lod <= 6 && n == PointsPerLine(lod)
    requires IsLookup(lookup, n) && 0 <= i < n && 0 <= j < n
    requires meshVertices != borderVertices && meshTriangles != borderTriangles
    requires meshVertices.Length >= (n - 2) * (n - 2) && borderVertices.Length >= 4 * n - 4
    requires meshTriangles.Length >= (n - 3) * (n - 3) * 6 && borderTriangles.Length >= 6 * (4 * n - 8)
    requires SeamlessVerticesUpTo(meshVertices[..], borderVertices[..], n, LodIncrement(lod), j, i)
    requires SeamlessTrianglesUpTo(meshTriangles[..], borderTriangles[..], meshTriangleIndex, borderTriangleIndex, n, j, i)
    modifies meshVertices, borderVertices, meshTriangles, borderTriangles
    ensures SeamlessVerticesUpTo(meshVertices[..], borderVertices[..], n, LodIncrement(lod), j, i + 1)
    ensures SeamlessTrianglesUpTo(meshTriangles[..], borderTriangles[..], meshNext, borderNext, n, j, i + 1)
  {
    var lodIncrement := LodIncrement(lod);
    var borderSize := NoiseSize;
    var x, y := i * lodIncrement, j * lodIncrement;
    Steps(lod, i);
    Steps(lod, j);
    ghost var mv, bv := meshVertices[..], borderVertices[..];
    AddBorderMeshVertex(lookup, meshVertices, borderVertices, i, j, lodIncrement, n);
    SeamlessVertexStep(mv, bv, meshVertices[..], borderVertices[..], n, lodIncrement, j, i);
    ghost var mt, bt := meshTriangles[..], borderTriangles[..];
    meshNext, borderNext := meshTriangleIndex, borderTriangleIndex;
    if x < borderSize - 1 && y < borderSize - 1 {
      QuadStep(i, j, n);
      QuadCountsBound(j, i + 1, n);
      meshNext, borderNext := AddSeamlessQuad(lookup, meshTriangles, borderTriangles, meshTriangleIndex, borderTriangleIndex, i, j, n);
    }
    SeamlessQuadStep(mt, bt, meshTriangles[..], borderTriangles[..], meshTriangleIndex, borderTriangleIndex, meshNext, borderNext, n, j, i);
  }

  /** A finished line of the seamless scan is the start of the next one. */
  lemma SeamlessNextLine(mv: seq<Point>, bv: seq<Point>, mt: seq<int>, bt: seq<int>, mi: int, bi: int, n: int, inc: int, j: int)
    requires n >= 4 && 0 <= j < n
    requires SeamlessVerticesUpTo(mv, bv, n, inc, j, n) && SeamlessTrianglesUpTo(mt, bt, mi, bi, n, j, n)
    ensures SeamlessVerticesUpTo(mv, bv, n, inc, j + 1, 0) && SeamlessTrianglesUpTo(mt, bt, mi, bi, n, j + 1, 0)
  {
    QuadStep(n - 1, j, n);
  }

  /** One line of the seamless scan. */
  method AddSeamlessLine(lookup: array2<int>, meshVertices: array<Point>, borderVertices: array<Point>,
                         meshTriangles: array<int>, borderTriangles: array<int>,
                         meshTriangleIndex: int, borderTriangleIndex: int, lod: int, j: int, ghost n: int)
    returns (meshNext: int, borderNext: int)
    requires 0 <= lod <= 6 && n == PointsPerLine(lod)
    requires IsLookup(lookup, n) && 0 <= j < n
    requires meshVertices != borderVertices && meshTriangles != borderTriangles
    requires meshVertices.Length >= (n - 2) * (n - 2) && borderVertices.Length >= 4 * n - 4
    requires meshTriangles.Length >= (n - 3) * (n - 3) * 6 && borderTriangles.Length >= 6 * (4 * n - 8)
    requires SeamlessVerticesUpTo(meshVertices[..], borderVertices[..], n, LodIncrement(lod), j, 0)
    requires SeamlessTrianglesUpTo(meshTriangles[..], borderTriangles[..], meshTriangleIndex, borderTriangleIndex, n, j, 0)
    modifies meshVertices, borderVertices, meshTriangles, borderTriangles
    ensures SeamlessVerticesUpTo(meshVertices[..], borderVertices[..], n, LodIncrement(lod), j + 1, 0)
    ensures SeamlessTrianglesUpTo(meshTriangles[..], borderTriangles[..], meshNext, borderNext, n, j + 1, 0)
  {
    meshNext, borderNext := meshTriangleIndex, borderTriangleIndex;
    for i := 0 to PointsPerLine(lod)
      invariant SeamlessVerticesUpTo(meshVertices[..], borderVertices[..], n, LodIncrement(lod), j, i)
      invariant SeamlessTrianglesUpTo(meshTriangles[..], borderTriangles[..], meshNext, borderNext, n, j, i)
    {
      meshNext, borderNext := AddSeamlessPoint(lookup, meshVertices, borderVertices, meshTriangles, borderTriangles,
                                               meshNext, borderNext, lod, i, j, n);
    }
    SeamlessNextLine(meshVertices[..], borderVertices[..], meshTriangles[..], borderTriangles[..],
                     meshNext, borderNext, n, LodIncrement(lod), j);
  }

  lemma SquareMono(a: int, b: int)
    requires 0 <= a <= b
    ensures a * a <= b * b
  {
    MulMono(a, b, a);
    MulMono(a, b, b);
  }

  /** A finished seamless scan has placed every interior vertex, every ring vertex and every quad. */
  lemma SeamlessFinish(mv: seq<Point>, bv: seq<Point>, mt: seq<int>, bt: seq<int>, mi: int, bi: int, n: int, inc: int)
    requires n >= 4
    requires SeamlessVerticesUpTo(mv, bv, n, inc, n, 0) && SeamlessTrianglesUpTo(mt, bt, mi, bi, n, n, 0)
    ensures mi + 1 == (n - 3) * (n - 3) * 6 && bi + 1 == 6 * (4 * n - 8)
    ensures VerticesUpTo(mv, n - 2, inc, 1, n - 2, 0) && TrianglesUpTo(mt, n - 2, n - 2, 0)
    ensures BorderVerticesUpTo(bv, n, inc, n, 0) && BorderTriples(bt, 2 * (4 * n - 8), n)
  {
    assert (n - 1) * (n - 1) - (n - 3) * (n - 3) == 4 * n - 8;
  }

  /** Before the scan nothing is placed and the triangle arrays are all zero. */
  lemma SeamlessStart(mv: seq<Point>, bv: seq<Point>, mt: seq<int>, bt: seq<int>, n: int, inc: int)
    requires n >= 4 && Unwritten(mt, 0)
    ensures SeamlessVerticesUpTo(mv, bv, n, inc, 0, 0) && SeamlessTrianglesUpTo(mt, bt, -1, -1, n, 0, 0)
  {
  }

  /** The seamless scan proper: every line, top to bottom. */
  method SeamlessScan(lookup: array2<int>, meshVertices: array<Point>, borderVertices: array<Point>,
                      meshTriangles: array<int>, borderTriangles: array<int>, lod: int, ghost n: int)
    returns (meshTriangleIndex: int, borderTriangleIndex: int)
    requires 0 <= lod <= 6 && n == PointsPerLine(lod) && IsLookup(lookup, n)
    requires meshVertices != borderVertices && meshTriangles != borderTriangles
    requires meshVertices.Length >= (n - 2) * (n - 2) && borderVertices.Length >= 4 * n - 4
    requires meshTriangles.Length >= (n - 3) * (n - 3) * 6 && borderTriangles.Length >= 6 * (4 * n - 8)
    requires SeamlessVerticesUpTo(meshVertices[..], borderVertices[..], n, LodIncrement(lod), 0, 0)
    requires SeamlessTrianglesUpTo(meshTriangles[..], borderTriangles[..], -1, -1, n, 0, 0)
    modifies meshVertices, borderVertices, meshTriangles, borderTriangles
    ensures SeamlessVerticesUpTo(meshVertices[..], borderVertices[..], n, LodIncrement(lod), n, 0)
    ensures SeamlessTrianglesUpTo(meshTriangles[..], borderTriangles[..], meshTriangleIndex, borderTriangleIndex, n, n, 0)
  {
    meshTriangleIndex, borderTriangleIndex := -1, -1;
    for j := 0 to PointsPerLine(lod)
      invariant SeamlessVerticesUpTo(meshVertices[..], borderVertices[..], n, LodIncrement(lod), j, 0)
      invariant SeamlessTrianglesUpTo(meshTriangles[..], borderTriangles[..], meshTriangleIndex, borderTriangleIndex, n, j, 0)
    {
      meshTriangleIndex, borderTriangleIndex := AddSeamlessLine(lookup, meshVertices, borderVertices, meshTriangles, borderTriangles,
                                                                meshTriangleIndex, borderTriangleIndex, lod, j, n);
    }
  }

  /**
   * The seamless scan into arrays sized from `verticesPerLine` as the source sizes them,
   * which must leave room for the n - 2 interior points per line.
   */
  method CreateSeamlessArrays(lod: int, verticesPerLine: int)
    returns (meshVertices: array<Point>, meshTriangles: array<int>, borderVertices: array<Point>, borderTriangles: array<int>)
    requires 0 <= lod <= 6 && verticesPerLine >= PointsPerLine(lod) - 2
    ensures fresh(meshVertices) && fresh(meshTriangles) && fresh(borderVertices) && fresh(borderTriangles)
    ensures meshVertices.Length == verticesPerLine * verticesPerLine
    ensures meshTriangles.Length == (verticesPerLine - 1) * (verticesPerLine - 1) * 6
    ensures borderVertices.Length == verticesPerLine * 4 + 4 && borderTriangles.Length == verticesPerLine * 24
    ensures var n := PointsPerLine(lod);
      && VerticesUpTo(meshVertices[..], n - 2, LodIncrement(lod), 1, n - 2, 0)
      && TrianglesUpTo(meshTriangles[..], n - 2, n - 2, 0)
      && InRange(meshTriangles[..], (n - 3) * (n - 3) * 6, (n - 2) * (n - 2))
      && Unwritten(meshTriangles[..], (n - 3) * (n - 3) * 6)
      && BorderVerticesUpTo(borderVertices[..], n, LodIncrement(lod), n, 0)
      && BorderTriples(borderTriangles[..], 2 * (4 * n - 8), n)
  {
    var lodIncrement := LodIncrement(lod);
    ghost var n := PointsPerLine(lod);
    SquareMono(n - 2, verticesPerLine);
    SquareMono(n - 3, verticesPerLine - 1);
    meshVertices := new Point[verticesPerLine * verticesPerLine](_ => Point(0, 0));
    meshTriangles := new int[(verticesPerLine - 1) * (verticesPerLine - 1) * 6](_ => 0);
    borderVertices := new Point[verticesPerLine * 4 + 4](_ => Point(0, 0));
    borderTriangles := new int[verticesPerLine * 24](_ => 0);

    var lookup := CreateBorderMeshLookup(lod);
    SeamlessStart(meshVertices[..], borderVertices[..], meshTriangles[..], borderTriangles[..], n, lodIncrement);
    var meshTriangleIndex, borderTriangleIndex := SeamlessScan(lookup, meshVertices, borderVertices, meshTriangles, borderTriangles, lod, n);
    SeamlessFinish(meshVertices[..], borderVertices[..], meshTriangles[..], borderTriangles[..],
                   meshTriangleIndex, borderTriangleIndex, n, lodIncrement);
  }

  // ----- Seamless mesh: sizing the arrays ----------------------------------------------------

  /**
   * Interior points per line as the seamless path sizes its arrays:
   * (meshSize - 1) / lodIncrement + 1 with meshSize two less than the noise size.
   * Only at level 0 is that the n - 2 interior points per line of the scan.
   */
  function SeamlessPointsPerLineAsWritten(lod: int): (r: int)
    requires 0 <= lod <= 6
    ensures lod == 0 ==> r == PointsPerLine(lod) - 2
    ensures lod > 0 ==> r == PointsPerLine(lod) - 1
  {
    var meshSize := NoiseSize - 2;
    assert lod == 0 || lod == 1 || lod == 2 || lod == 3 || lod == 4 || lod == 5 || lod == 6;
    (meshSize - 1) / LodIncrement(lod) + 1
  }

  /** Interior points per line of the seamless scan: the points per line less the two ring points. */
  function SeamlessPointsPerLine(lod: int): (r: int)
    requires 0 <= lod <= 6
    ensures r == PointsPerLine(lod) - 2 && r >= 19
  {
    (NoiseSize - 1) / LodIncrement(lod) - 1
  }

  /**
   * The seamless path with its arrays sized as written. Above level 0 the mesh arrays are one
   * line and one column too large: the scan leaves their tail at zero, so the mesh ends in
   * (0, 0, 0) triangles and holds vertices no triangle places.
   */
  method CreateSeamlessTriangleArraysAsWritten(lod: int)
    returns (meshVertices: array<Point>, meshTriangles: array<int>, borderVertices: array<Point>, borderTriangles: array<int>)
    requires 0 <= lod <= 6
    ensures fresh(meshVertices) && fresh(meshTriangles) && fresh(borderVertices) && fresh(borderTriangles)
    ensures var n := PointsPerLine(lod);
      && TrianglesUpTo(meshTriangles[..], n - 2, n - 2, 0)
      && InRange(meshTriangles[..], (n - 3) * (n - 3) * 6, (n - 2) * (n - 2))
    ensures lod > 0 ==> var len := meshTriangles.Length;
      && len >= 3 && meshTriangles[len - 3] == 0 && meshTriangles[len - 2] == 0 && meshTriangles[len - 1] == 0
      && meshVertices.Length > (PointsPerLine(lod) - 2) * (PointsPerLine(lod) - 2)
  {
    var verticesPerLine := SeamlessPointsPerLineAsWritten(lod);
    meshVertices, meshTriangles, borderVertices, borderTriangles := CreateSeamlessArrays(lod, verticesPerLine);
    if lod > 0 {
      SizeGap(PointsPerLine(lod));
    }
  }

  /** One more point per line gives a (n - 2)-wide mesh room for at least one more triangle. */
  lemma SizeGap(n: int)
    requires n >= 4
    ensures (n - 2) * (n - 2) * 6 >= (n - 3) * (n - 3) * 6 + 3
    ensures (n - 1) * (n - 1) > (n - 2) * (n - 2)
  {
    assert (n - 2) * (n - 2) == (n - 3) * (n - 3) + 2 * n - 5;
    assert (n - 1) * (n - 1) == (n - 2) * (n - 2) + 2 * n - 3;
  }

  /**
   * The seamless path with its arrays sized to the scan: the interior vertices form an
   * (n - 2)-wide grid one step in from the ring, the mesh triangles are exactly that
   * grid's quads, every ring point sits at its scan rank, and every ring triangle
   * touches the ring.
   */
  method CreateSeamlessTriangleArrays(lod: int)
    returns (meshVertices: array<Point>, meshTriangles: array<int>, borderVertices: array<Point>, borderTriangles: array<int>)
    requires 0 <= lod <= 6
    ensures fresh(meshVertices) && fresh(meshTriangles) && fresh(borderVertices) && fresh(borderTriangles)
    ensures GridVertices(meshVertices[..], PointsPerLine(lod) - 2, LodIncrement(lod), 1)
    ensures GridTriangles(meshTriangles[..], PointsPerLine(lod) - 2)
    ensures forall p :: 0 <= p < meshTriangles.Length ==> 0 <= meshTriangles[p] < meshVertices.Length
    ensures var n := PointsPerLine(lod);
      && borderVertices.Length == 4 * n - 4 && BorderVerticesUpTo(borderVertices[..], n, LodIncrement(lod), n, 0)
      && borderTriangles.Length == 3 * (2 * (4 * n - 8)) && BorderTriples(borderTriangles[..], 2 * (4 * n - 8), n)
  {
    var verticesPerLine := SeamlessPointsPerLine(lod);
    meshVertices, meshTriangles, borderVertices, borderTriangles := CreateSeamlessArrays(lod, verticesPerLine);
  }

  // ----- Flat shading and the mesh ------------------------------------------------------------

  /** The point each triangle corner draws. */
  ghost function Drawn(vertices: seq<Point>, triangles: seq<int>): (r: seq<Point>)
    requires forall p :: 0 <= p < |triangles| ==> 0 <= triangles[p] < |vertices|
    ensures |r| == |triangles| && forall p :: 0 <= p < |triangles| ==> r[p] == vertices[triangles[p]]
  {
    seq(|triangles|, p requires 0 <= p < |triangles| => vertices[triangles[p]])
  }

  /** Corner k of quad (r, c) of an m-wide grid, as drawn. */
  function CornerPoint(r: int, c: int, k: int, inc: int, offset: int): Point {
    Point((c + Dc(k) + offset) * inc, (r + Dr(k) + offset) * inc)
  }

  /** Corner slots of an m-wide grid's quads draw the grid's points. */
  ghost predicate GridCorners(drawn: seq<Point>, m: int, inc: int, offset: int) {
    && |drawn| == (m - 1) * (m - 1) * 6
    && forall r, c, k :: 0 <= r < m - 1 && 0 <= c < m - 1 && 0 <= k < 6 ==>
         0 <= Slot(r, c, k, m) < |drawn| && drawn[Slot(r, c, k, m)] == CornerPoint(r, c, k, inc, offset)
  }

  /** A grid of vertices with its quads draws each quad's four corner points. */
  lemma GridDrawsCorners(vertices: seq<Point>, triangles: seq<int>, m: int, inc: int, offset: int)
    requires GridVertices(vertices, m, inc, offset) && GridTriangles(triangles, m)
    requires forall p :: 0 <= p < |triangles| ==> 0 <= triangles[p] < |vertices|
    ensures GridCorners(Drawn(vertices, triangles), m, inc, offset)
  {
    var drawn := Drawn(vertices, triangles);
    forall r, c, k | 0 <= r < m - 1 && 0 <= c < m - 1 && 0 <= k < 6
      ensures drawn[Slot(r, c, k, m)] == CornerPoint(r, c, k, inc, offset)
    {
      assert triangles[Slot(r, c, k, m)] == Index(r + Dr(k), c + Dc(k), m);
    }
  }

  /**
   * ApplyFlatShading: every triangle corner gets a vertex of its own. The triangles become
   * 0, 1, 2, ... and the new vertex p is the old vertex corner p pointed at, so every
   * triangle draws the same points as before.
   */
  method ApplyFlatShading(vertices: array<Point>, triangles: array<int>) returns (flat: array<Point>)
    requires forall p :: 0 <= p < triangles.Length ==> 0 <= triangles[p] < vertices.Length
    modifies triangles
    ensures fresh(flat) && flat.Length == triangles.Length
    ensures forall p :: 0 <= p < triangles.Length ==> triangles[p] == p
    ensures forall p :: 0 <= p < triangles.Length ==> 0 <= triangles[p] < flat.Length
    ensures Drawn(flat[..], triangles[..]) == Drawn(vertices[..], old(triangles[..]))
  {
    flat := new Point[triangles.Length](_ => Point(0, 0));
    for i := 0 to triangles.Length
      invariant forall p :: 0 <= p < i ==> triangles[p] == p && flat[p] == vertices[old(triangles[p])]
      invariant forall p :: i <= p < triangles.Length ==> triangles[p] == old(triangles[p])
    {
      flat[i] := vertices[triangles[i]];
      triangles[i] := i;
    }
  }

  /** Points per line of the mesh CreateMesh builds. */
  function MeshWidth(seamless: bool, lod: int): (r: int)
    requires 0 <= lod <= 6
    ensures r == PointsPerLine(lod) - (if seamless then 2 else 0)
  {
    if seamless then SeamlessPointsPerLine(lod) else PointsPerLine(lod)
  }

  /**
   * CreateMesh: the plain or seamless grid, flat shaded on request; only level 0 gets a
   * collision shape. Either way the triangles draw the quads of the grid of samples,
   * one step in from the edge for a seamless chunk.
   */
  method CreateMesh(seamless: bool, flatShaded: bool, lod: int)
    returns (vertices: array<Point>, triangles: array<int>, hasShape: bool)
    requires 0 <= lod <= 6
    ensures hasShape <==> lod == 0
    ensures forall p :: 0 <= p < triangles.Length ==> 0 <= triangles[p] < vertices.Length
    ensures GridCorners(Drawn(vertices[..], triangles[..]), MeshWidth(seamless, lod), LodIncrement(lod), if seamless then 1 else 0)
    ensures !flatShaded ==>
      GridVertices(vertices[..], MeshWidth(seamless, lod), LodIncrement(lod), if seamless then 1 else 0) &&
      GridTriangles(triangles[..], MeshWidth(seamless, lod))
    ensures flatShaded ==> forall p :: 0 <= p < triangles.Length ==> triangles[p] == p
  {
    if seamless {
      var borderVertices, borderTriangles;
      vertices, triangles, borderVertices, borderTriangles := CreateSeamlessTriangleArrays(lod);
    } else {
      vertices, triangles := CreateTriangleArrays(lod);
    }
    GridDrawsCorners(vertices[..], triangles[..], MeshWidth(seamless, lod), LodIncrement(lod), if seamless then 1 else 0);
    if flatShaded {
      vertices := ApplyFlatShading(vertices, triangles);
    }
    hasShape := HasCollisionShape(lod);
  }
}
