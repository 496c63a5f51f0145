/**
 * Terrain.cs: the node that keeps a square of terrain chunks around an actor.
 *
 * Every frame, OnProcess asks whether a redraw is due (the terrain data changed, or the actor
 * moved more than half a chunk since the last redraw). A redraw rebuilds the chunk dictionary
 * so that its keys are exactly the chunk coordinates within `visibleChunks` of the centre
 * chunk: chunks already there are kept, missing ones are created, the rest are removed and
 * freed, and every chunk in the square is asked for its level of detail. Chunks report their
 * pending background jobs, which the terrain adds up in `asyncCount`; the terrain is ready the
 * first frame nothing is pending.
 *
 * Positions are `real` triples (Godot's Vector3 without float rounding). A chunk's level of
 * detail request is recorded in `lodRequests` (chunk coordinate and regenerate flag) instead
 * of running TerrainChunk's mesh jobs.
 */
module Terrain {
  import opened Optional
  import NoiseData

  type Coord = (int, int)

  datatype Vec3 = Vec3(x: real, y: real, z: real)

  /** Vector3.DistanceSquaredTo. */
  function DistanceSquared(a: Vec3, b: Vec3): (r: real)
    ensures r >= 0.0
    ensures a == b ==> r == 0.0
  {
    var dx, dy, dz := a.x - b.x, a.y - b.y, a.z - b.z;
    assert dx * dx >= 0.0 && dy * dy >= 0.0 && dz * dz >= 0.0;
    dx * dx + dy * dy + dz * dz
  }

  /**
   * Mathf.RoundToInt: the nearest integer, ties to the even one (MathF.Round's default
   * midpoint rule).
   */
  function RoundToInt(v: real): (r: int)
    ensures -0.5 <= r as real - v <= 0.5
    ensures r as real - v == 0.5 || r as real - v == -0.5 ==> r % 2 == 0
  {
    var f := v.Floor;
    var frac := v - f as real;
    if frac < 0.5 then f
    else if frac > 0.5 then f + 1
    else if f % 2 == 0 then f
    else f + 1
  }

  /** The part of TerrainData the terrain node reads. */
  datatype TerrainSettings = TerrainSettings(seamless: bool, maxViewDistance: real)

  /**
   * A TerrainData resource. The terrain node compares instances, not contents: TerrainData.Default
   * is a new instance each time.
   */
  class TerrainData {
    const settings: TerrainSettings

    constructor (settings: TerrainSettings)
      ensures this.settings == settings
    {
      this.settings := settings;
    }
  }

  /** TerrainData.ChunkSize: one less than the noise chunk size, so neighbouring chunks share an edge. */
  function ChunkSize(data: TerrainSettings): (r: int)
    ensures r == NoiseData.ChunkSize(data.seamless) - 1 && r > 0
  {
    NoiseData.ChunkSize(data.seamless) - 1
  }

  /** TerrainData.HalfChunk: half the chunk size, rounded up. */
  function HalfChunk(data: TerrainSettings): (r: int)
    ensures 2 * r - 2 < ChunkSize(data) <= 2 * r
  {
    (ChunkSize(data) + 1) / 2
  }

  /** A terrain chunk: its coordinate and the counter of its pending background jobs. */
  class Chunk {
    const coord: Coord
    var asyncUpdateCount: int

    constructor (coord: Coord)
      ensures this.coord == coord && asyncUpdateCount == 0
    {
      this.coord := coord;
      asyncUpdateCount := 0;
    }
  }

  /** The chunk coordinates within `v` chunks of (cx, cy) along both axes. */
  predicate InSquare(k: Coord, cx: int, cy: int, v: int) {
    cx - v <= k.0 <= cx + v && cy - v <= k.1 <= cy + v
  }

  /** Columns lo .. hi - 1 (relative to cx) of line y, as level of detail requests. */
  function RowScan(cx: int, y: int, lo: int, hi: int, regenerate: bool): seq<(Coord, bool)>
    decreases hi - lo
  {
    if hi <= lo then [] else RowScan(cx, y, lo, hi - 1, regenerate) + [((cx + hi - 1, y), regenerate)]
  }

  /** Lines lo .. hi - 1 (relative to cy) of the square, each scanned over columns -v .. v. */
  function SquareScan(cx: int, cy: int, v: int, lo: int, hi: int, regenerate: bool): seq<(Coord, bool)>
    decreases hi - lo
  {
    if hi <= lo then [] else SquareScan(cx, cy, v, lo, hi - 1, regenerate) + RowScan(cx, cy + hi - 1, -v, v + 1, regenerate)
  }

  /** A row scan requests exactly the coordinates of its columns, each with the given flag. */
  lemma {:induction false} RowScanMembers(cx: int, y: int, lo: int, hi: int, regenerate: bool, k: Coord, flag: bool)
    ensures (k, flag) in RowScan(cx, y, lo, hi, regenerate) <==> k.1 == y && lo <= k.0 - cx < hi && flag == regenerate
    decreases hi - lo
  {
    if hi > lo {
      RowScanMembers(cx, y, lo, hi - 1, regenerate, k, flag);
    }
  }

  /** A square scan requests exactly the coordinates of its lines, each with the given flag. */
  lemma {:induction false} SquareScanMembers(cx: int, cy: int, v: int, lo: int, hi: int, regenerate: bool, k: Coord, flag: bool)
    ensures (k, flag) in SquareScan(cx, cy, v, lo, hi, regenerate) <==>
      lo <= k.1 - cy < hi && -v <= k.0 - cx <= v && flag == regenerate
    decreases hi - lo
  {
    if hi > lo {
      SquareScanMembers(cx, cy, v, lo, hi - 1, regenerate, k, flag);
      RowScanMembers(cx, cy + hi - 1, -v, v + 1, regenerate, k, flag);
    }
  }

  /** The whole scan of UpdateTerrainChunks asks every chunk of the square, and only those, with the flag. */
  lemma ScanCoversSquare(cx: int, cy: int, v: int, regenerate: bool, k: Coord, flag: bool)
    ensures (k, flag) in SquareScan(cx, cy, v, -v, v + 1, regenerate) <==> InSquare(k, cx, cy, v) && flag == regenerate
  {
    SquareScanMembers(cx, cy, v, -v, v + 1, regenerate, k, flag);
  }

  /** The chunk under a position: its coordinates over the chunk size, rounded. */
  function CentreChunk(center: Vec3, data: TerrainSettings): Coord {
    (RoundToInt(center.x / ChunkSize(data) as real), RoundToInt(center.z / ChunkSize(data) as real))
  }

  /** How many chunks the view distance reaches on each side of the centre chunk. */
  function VisibleChunks(viewDistance: real, data: TerrainSettings): int {
    RoundToInt(viewDistance / ChunkSize(data) as real)
  }

  /** Coordinates of line y (relative to cy) before column x (relative to cx), from column -v. */
  predicate OnLine(k: Coord, cx: int, cy: int, v: int, y: int, x: int) {
    k.1 - cy == y && -v <= k.0 - cx < x
  }

  /** Moving one column on adds exactly the coordinate of that column. */
  lemma OnLineStep(cx: int, cy: int, v: int, y: int, x: int)
    requires -v <= x
    ensures forall k: Coord :: OnLine(k, cx, cy, v, y, x + 1) <==> OnLine(k, cx, cy, v, y, x) || k == (cx + x, cy + y)
  {
    forall k: Coord
      ensures OnLine(k, cx, cy, v, y, x + 1) <==> OnLine(k, cx, cy, v, y, x) || k == (cx + x, cy + y)
    {
      var (a, b) := k;
      assert k == (a, b);
      assert OnLine(k, cx, cy, v, y, x + 1) <==> b - cy == y && -v <= a - cx < x + 1;
    }
  }

  /** Coordinates the scan of UpdateTerrainChunks has reached before line y, column x (relative to the centre). */
  predicate Visited(k: Coord, cx: int, cy: int, v: int, y: int, x: int) {
    (-v <= k.1 - cy < y && -v <= k.0 - cx <= v) || (k.1 - cy == y && -v <= k.0 - cx < x)
  }

  /** Scanning line y appends that line's requests. */
  lemma SquareScanStep(start: seq<(Coord, bool)>, cx: int, cy: int, v: int, y: int, regenerate: bool)
    requires -v <= y
    ensures start + SquareScan(cx, cy, v, -v, y + 1, regenerate) ==
            start + SquareScan(cx, cy, v, -v, y, regenerate) + RowScan(cx, cy + y, -v, v + 1, regenerate)
  {
  }

  /** Scanning line y adds that line to the visited coordinates. */
  lemma VisitedStep(cx: int, cy: int, v: int, y: int)
    requires -v <= y <= v
    ensures forall k :: Visited(k, cx, cy, v, y + 1, -v) <==> Visited(k, cx, cy, v, y, -v) || (k.1 - cy == y && -v <= k.0 - cx <= v)
  {
  }

  /** After the last line every coordinate of the square has been visited, and no other. */
  lemma VisitedAll(cx: int, cy: int, v: int, y: int)
    requires (y == v + 1 && v >= -1) || (y == -v && v < 0)
    ensures forall k :: Visited(k, cx, cy, v, y, -v) <==> InSquare(k, cx, cy, v)
  {
  }

  class Terrain {
    var data: TerrainData
    var subscribed: bool
    var dataChanged: bool
    var lastActorPos: Vec3
    var asyncCount: int
    var terrainReady: bool
    var chunks: map<Coord, Chunk>
    /** Every SetLevelOfDetail call made on a chunk: its coordinate and the regenerate flag. */
    var lodRequests: seq<(Coord, bool)>
    /** Chunks removed from the tree and freed. */
    var freed: set<Chunk>

    /** A fresh node, with its Data already assigned. */
    constructor (data: TerrainData)
      ensures this.data == data && !subscribed && dataChanged && lastActorPos == Vec3(0.0, 0.0, 0.0)
      ensures asyncCount == 0 && !terrainReady && chunks == map[] && lodRequests == [] && freed == {}
    {
      this.data := data;
      subscribed := false;
      dataChanged := true;
      lastActorPos := Vec3(0.0, 0.0, 0.0);
      asyncCount := 0;
      terrainReady := false;
      chunks := map[];
      lodRequests := [];
      freed := {};
    }

    /** OnReady: from now on a change of Data marks the terrain for a redraw. */
    method OnReady()
      modifies this`subscribed
      ensures subscribed
    {
      subscribed := true;
    }

    /**
     * The Data setter: a null value becomes a new default TerrainData; assigning another instance
     * than the current one raises DataChanged. The [Notify] setter compares references, so a null
     * value always counts as a change, and an equal but distinct instance does too.
     */
    method SetData(value: TerrainData?, defaultSettings: TerrainSettings)
      modifies this`data, this`dataChanged
      ensures value != null ==> data == value
      ensures value == null ==> fresh(data) && data.settings == defaultSettings
      ensures dataChanged == (old(dataChanged) || (subscribed && data != old(data)))
    {
      var newData := value;
      if newData == null {
        newData := new TerrainData(defaultSettings);
      }
      if newData != data {
        data := newData;
        if subscribed {
          dataChanged := true;
        }
      }
    }

    /**
     * RedrawRequired: due whenever the data changed; otherwise only with an actor that has moved
     * more than half a chunk since the last redraw, which then becomes the new centre.
     */
    method RedrawRequired(actor: Option<Vec3>) returns (redraw: bool, center: Vec3)
      modifies this`lastActorPos
      ensures dataChanged ==> redraw && center == lastActorPos == old(lastActorPos)
      ensures !dataChanged && actor.None? ==> !redraw && lastActorPos == old(lastActorPos)
      ensures !dataChanged && actor.Some? ==>
        && (redraw <==> DistanceSquared(actor.value, old(lastActorPos)) > (HalfChunk(data.settings) * HalfChunk(data.settings)) as real)
        && (redraw ==> center == lastActorPos == actor.value)
        && (!redraw ==> lastActorPos == old(lastActorPos))
    {
      center := lastActorPos;
      if dataChanged {
        return true, center;
      }
      if actor.None? {
        return false, center;
      }
      var actorPos := actor.value;
      var threshold := HalfChunk(data.settings);
      if DistanceSquared(actorPos, lastActorPos) > (threshold * threshold) as real {
        lastActorPos := actorPos;
        center := actorPos;
        return true, center;
      }
      return false, center;
    }

    /**
     * UpdateTerrainChunks: afterwards the chunk keys are exactly the square of `visibleChunks`
     * around the centre chunk. Chunks already in the square are the same objects as before, the
     * others are new; chunks outside it are freed; every chunk in the square, in scan order, is
     * asked for its level of detail with the regenerate flag.
     */
    method UpdateTerrainChunks(center: Vec3, viewDistance: real, regenerateTerrain: bool)
      modifies this`chunks, this`lodRequests, this`freed
      ensures var (cx, cy) := CentreChunk(center, data.settings);
        forall k :: k in chunks <==> InSquare(k, cx, cy, VisibleChunks(viewDistance, data.settings))
      ensures var (cx, cy) := CentreChunk(center, data.settings); var v := VisibleChunks(viewDistance, data.settings);
        lodRequests == old(lodRequests) + SquareScan(cx, cy, v, -v, v + 1, regenerateTerrain)
      ensures var (cx, cy) := CentreChunk(center, data.settings);
        freed == old(freed) + set k | k in old(chunks) && !InSquare(k, cx, cy, VisibleChunks(viewDistance, data.settings)) :: old(chunks)[k]
      ensures forall k :: k in chunks && k in old(chunks) ==> chunks[k] == old(chunks[k])
      ensures forall k :: k in chunks && k !in old(chunks) ==> fresh(chunks[k]) && chunks[k].coord == k && chunks[k].asyncUpdateCount == 0
    {
      var size := ChunkSize(data.settings) as real;
      var centerCoordX := RoundToInt(center.x / size);
      var centerCoordY := RoundToInt(center.z / size);
      var visibleChunks := RoundToInt(viewDistance / size);
      ghost var cx, cy, v := centerCoordX, centerCoordY, visibleChunks;

      var chunksToRemove := UpdateSquare(centerCoordX, centerCoordY, visibleChunks, regenerateTerrain);
      ghost var scanned := chunks;
      RemoveTerrainChunks(chunksToRemove);
      assert (set k | k in chunksToRemove :: scanned[k]) == (set k | k in old(chunks) && !InSquare(k, cx, cy, v) :: old(chunks)[k]);
    }

    /** The scan of UpdateTerrainChunks, line by line; returns the keys it did not meet. */
    method UpdateSquare(cx: int, cy: int, v: int, regenerateTerrain: bool) returns (chunksToRemove: set<Coord>)
      modifies this`chunks, this`lodRequests
      ensures forall k :: k in chunks <==> k in old(chunks) || InSquare(k, cx, cy, v)
      ensures forall k :: k in chunksToRemove <==> k in old(chunks) && !InSquare(k, cx, cy, v)
      ensures forall k :: k in old(chunks) ==> k in chunks && chunks[k] == old(chunks[k])
      ensures forall k :: k in chunks && k !in old(chunks) ==> fresh(chunks[k]) && chunks[k].coord == k && chunks[k].asyncUpdateCount == 0
      ensures lodRequests == old(lodRequests) + SquareScan(cx, cy, v, -v, v + 1, regenerateTerrain)
    {
      chunksToRemove := chunks.Keys;
      var y := -v;
      while y <= v
        invariant -v <= y <= v + 1 || (y == -v && v < 0)
        invariant forall k :: k in chunks <==> k in old(chunks) || Visited(k, cx, cy, v, y, -v)
        invariant forall k :: k in chunksToRemove <==> k in old(chunks) && !Visited(k, cx, cy, v, y, -v)
        invariant forall k :: k in old(chunks) ==> k in chunks && chunks[k] == old(chunks[k])
        invariant forall k :: k in chunks && k !in old(chunks) ==> fresh(chunks[k]) && chunks[k].coord == k && chunks[k].asyncUpdateCount == 0
        invariant lodRequests == old(lodRequests) + SquareScan(cx, cy, v, -v, y, regenerateTerrain)
      {
        chunksToRemove := UpdateLine(cx, cy, v, y, regenerateTerrain, chunksToRemove);
        VisitedStep(cx, cy, v, y);
        SquareScanStep(old(lodRequests), cx, cy, v, y, regenerateTerrain);
        y := y + 1;
      }
      VisitedAll(cx, cy, v, y);
    }

    /**
     * One line (y, relative to the centre) of the scan in UpdateTerrainChunks: each chunk of the
     * line is looked up, or created when missing, and asked for its level of detail; found
     * chunks are struck from the removal set.
     */
    method UpdateLine(cx: int, cy: int, v: int, y: int, regenerateTerrain: bool, toRemove: set<Coord>) returns (rest: set<Coord>)
      requires toRemove <= chunks.Keys
      modifies this`chunks, this`lodRequests
      ensures forall k :: k in chunks <==> k in old(chunks) || OnLine(k, cx, cy, v, y, v + 1)
      ensures forall k :: k in rest <==> k in toRemove && !OnLine(k, cx, cy, v, y, v + 1)
      ensures forall k :: k in old(chunks) ==> k in chunks && chunks[k] == old(chunks[k])
      ensures forall k :: k in chunks && k !in old(chunks) ==> fresh(chunks[k]) && chunks[k].coord == k && chunks[k].asyncUpdateCount == 0
      ensures lodRequests == old(lodRequests) + RowScan(cx, cy + y, -v, v + 1, regenerateTerrain)
    {
      rest := toRemove;
      var x := -v;
      while x <= v
        invariant -v <= x <= v + 1 || (x == -v && v < 0)
        invariant forall k :: k in chunks <==> k in old(chunks) || OnLine(k, cx, cy, v, y, x)
        invariant forall k :: k in rest <==> k in toRemove && !OnLine(k, cx, cy, v, y, x)
        invariant forall k :: k in old(chunks) ==> k in chunks && chunks[k] == old(chunks[k])
        invariant forall k :: k in chunks && k !in old(chunks) ==> fresh(chunks[k]) && chunks[k].coord == k && chunks[k].asyncUpdateCount == 0
        invariant lodRequests == old(lodRequests) + RowScan(cx, cy + y, -v, x, regenerateTerrain)
      {
        var chunkCoord := (cx + x, cy + y);
        rest := UpdateChunk(chunkCoord, regenerateTerrain, rest);
        OnLineStep(cx, cy, v, y, x);
        x := x + 1;
      }
    }

    /**
     * The body of the scan for one coordinate: the chunk found there is struck from the removal
     * set, or a new chunk is added there (AddTerrainChunk); either way it is asked for its level
     * of detail.
     */
    method UpdateChunk(chunkCoord: Coord, regenerateTerrain: bool, toRemove: set<Coord>) returns (rest: set<Coord>)
      requires toRemove <= chunks.Keys
      modifies this`chunks, this`lodRequests
      ensures chunks.Keys == old(chunks).Keys + {chunkCoord}
      ensures forall k :: k in old(chunks) ==> chunks[k] == old(chunks)[k]
      ensures chunkCoord !in old(chunks) ==> fresh(chunks[chunkCoord]) && chunks[chunkCoord].coord == chunkCoord && chunks[chunkCoord].asyncUpdateCount == 0
      ensures rest == toRemove - {chunkCoord}
      ensures lodRequests == old(lodRequests) + [(chunkCoord, regenerateTerrain)]
    {
      rest := toRemove;
      if chunkCoord !in chunks {
        var chunk := new Chunk(chunkCoord);
        chunks := chunks[chunkCoord := chunk];
      } else {
        rest := rest - {chunkCoord};
      }
      lodRequests := lodRequests + [(chunkCoord, regenerateTerrain)];
    }

    /** RemoveTerrainChunk for each key: the entry leaves the dictionary and its chunk is freed. */
    method RemoveTerrainChunks(keys: set<Coord>)
      requires keys <= chunks.Keys
      modifies this`chunks, this`freed
      ensures chunks == old(chunks) - keys
      ensures freed == old(freed) + set k | k in keys :: old(chunks)[k]
    {
      var rest := keys;
      while rest != {}
        invariant rest <= keys
        invariant chunks == old(chunks) - (keys - rest)
        invariant freed == old(freed) + set k | k in keys - rest :: old(chunks)[k]
        decreases rest
      {
        if forall k :: k !in rest {
          assert false;
        }
        var key :| key in rest;
        freed := freed + {chunks[key]};
        chunks := chunks - {key};
        rest := rest - {key};
      }
    }

    /**
     * OnProcess: redraw when due, which clears `dataChanged`: after a data change around the last
     * centre, regenerating every chunk; after a move of more than half a chunk around the actor,
     * without regenerating. The terrain becomes ready the first frame no chunk job is pending,
     * and stays ready.
     */
    method OnProcess(actor: Option<Vec3>)
      modifies this`lastActorPos, this`chunks, this`lodRequests, this`freed, this`dataChanged, this`terrainReady
      ensures !dataChanged
      ensures terrainReady == (old(terrainReady) || asyncCount == 0)
      ensures old(dataChanged) ==>
        && lastActorPos == old(lastActorPos)
        && var (cx, cy) := CentreChunk(lastActorPos, data.settings); var v := VisibleChunks(data.settings.maxViewDistance, data.settings);
           (forall k :: k in chunks <==> InSquare(k, cx, cy, v)) &&
           lodRequests == old(lodRequests) + SquareScan(cx, cy, v, -v, v + 1, true)
      ensures !old(dataChanged) && actor.None? ==>
        chunks == old(chunks) && lodRequests == old(lodRequests) && lastActorPos == old(lastActorPos)
      ensures !old(dataChanged) && actor.Some? ==>
        var threshold := HalfChunk(data.settings);
        if DistanceSquared(actor.value, old(lastActorPos)) > (threshold * threshold) as real then
          && lastActorPos == actor.value
          && var (cx, cy) := CentreChunk(actor.value, data.settings); var v := VisibleChunks(data.settings.maxViewDistance, data.settings);
             (forall k :: k in chunks <==> InSquare(k, cx, cy, v)) &&
             lodRequests == old(lodRequests) + SquareScan(cx, cy, v, -v, v + 1, false)
        else
          chunks == old(chunks) && lodRequests == old(lodRequests) && lastActorPos == old(lastActorPos)
    {
      var redraw, center := RedrawRequired(actor);
      if redraw {
        UpdateTerrainChunks(center, data.settings.maxViewDistance, dataChanged);
        dataChanged := false;
      }
      if !terrainReady && asyncCount == 0 {
        terrainReady := true;
      }
    }

    /**
     * The handler attached to each new chunk's AsyncUpdateCountChanged: the chunk's pending
     * count moves into `asyncCount`, so the sum of the two is unchanged.
     */
    method OnAsyncUpdateCountChanged(chunk: Chunk)
      modifies this`asyncCount, chunk`asyncUpdateCount
      ensures asyncCount + chunk.asyncUpdateCount == old(asyncCount) + old(chunk.asyncUpdateCount)
      ensures chunk.asyncUpdateCount == 0
    {
      asyncCount := asyncCount + chunk.asyncUpdateCount;
      chunk.asyncUpdateCount := 0;
    }
  }
}
