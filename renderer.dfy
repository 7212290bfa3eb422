/**
 * The software path of class Renderer (Renderer.h, Renderer.cpp): the
 * three screen buffers, the configuration fields with their Toggle* and
 * Cycle* methods, the frame reset, the vertex transform, the per-triangle
 * rasterizer HandleRenderBB and the triangle loop over a mesh. The buffers
 * are fixed-size arrays updated in place; every method is specified by the
 * pure definitions of the modules it imports.
 */
module SoftwareRenderer {
  import opened Math
  import opened Datatypes
  import Config
  import opened Raster
  import opened Shading
  import opened Rasterizer
  import opened Projection

  /** The value SDL_FillRect clears the back buffer to */
  function ClearPixel(hasClearColor: bool): int
  {
    if hasClearColor then 0x191919 else 0x636363
  }

  /** Every index of the index list names a vertex that can be projected */
  predicate MeshReady(xf: Transform, vertices: seq<Vertex>, indices: seq<nat>)
  {
    forall j :: 0 <= j < |indices| ==> indices[j] < |vertices| && Projectable(xf, vertices[indices[j]])
  }

  /** The int arithmetic of the triangle loop does not overflow: 3i + 2 stays below INT_MAX for every
      triangle, and every stored index, being below the vertex count, keeps its value under static_cast<int> */
  predicate FitsInt(vertices: seq<Vertex>, indices: seq<nat>)
  {
    |vertices| <= IntLimit && |indices| <= IntLimit
  }

  /** Triangle t of a mesh in screen space: the vertices named by indices 3t, 3t + 1, 3t + 2, transformed */
  function Triangle(xf: Transform, width: int, height: int, vertices: seq<Vertex>, indices: seq<nat>, t: nat)
    : (verts: seq<VertexOut>)
    requires width > 0 && height > 0 && MeshReady(xf, vertices, indices) && 3 * t + 2 < |indices|
    ensures Renderable(verts)
  {
    var v0, v1, v2 := vertices[indices[3 * t]], vertices[indices[3 * t + 1]], vertices[indices[3 * t + 2]];
    ProjectableKeepsDepth(xf, width, height, v0);
    ProjectableKeepsDepth(xf, width, height, v1);
    ProjectableKeepsDepth(xf, width, height, v2);
    [TransformVertex(xf, width, height, v0), TransformVertex(xf, width, height, v1),
     TransformVertex(xf, width, height, v2)]
  }

  /** The first k triangles of a mesh, in loop order */
  function Triangles(xf: Transform, width: int, height: int, vertices: seq<Vertex>, indices: seq<nat>, k: nat)
    : (tris: seq<seq<VertexOut>>)
    requires width > 0 && height > 0 && MeshReady(xf, vertices, indices) && 3 * k <= |indices|
    ensures |tris| == k && AllRenderable(tris)
  {
    if k == 0 then []
    else Triangles(xf, width, height, vertices, indices, k - 1) + [Triangle(xf, width, height, vertices, indices, k - 1)]
  }

  /** Entry t of the list is triangle t */
  lemma {:induction false} TrianglesInOrder(xf: Transform, width: int, height: int, vertices: seq<Vertex>,
                                            indices: seq<nat>, k: nat, t: nat)
    requires width > 0 && height > 0 && MeshReady(xf, vertices, indices) && 3 * k <= |indices| && t < k
    ensures Triangles(xf, width, height, vertices, indices, k)[t] == Triangle(xf, width, height, vertices, indices, t)
  {
    if t < k - 1 {
      TrianglesInOrder(xf, width, height, vertices, indices, k - 1, t);
    }
  }

  /** Drawing triangles 0 .. t is drawing triangles 0 .. t - 1 and then triangle t */
  lemma TrianglesStep(cfg: RasterConfig, xf: Transform, vertices: seq<Vertex>, indices: seq<nat>, t: nat,
                      i: int, cell: Cell)
    requires cfg.width > 0 && cfg.height > 0 && MeshReady(xf, vertices, indices) && 3 * t + 2 < |indices|
    ensures CellAfterAll(cfg, Triangles(xf, cfg.width, cfg.height, vertices, indices, t + 1), i, cell)
         == CellAfter(cfg, Triangle(xf, cfg.width, cfg.height, vertices, indices, t), i,
                      CellAfterAll(cfg, Triangles(xf, cfg.width, cfg.height, vertices, indices, t), i, cell))
  {
    var next := Triangles(xf, cfg.width, cfg.height, vertices, indices, t + 1);
    assert next[..t] == Triangles(xf, cfg.width, cfg.height, vertices, indices, t);
  }

  class Renderer {
    const width: int
    const height: int
    /** Textures, BRDF terms, Normalized, MaxToOne and SDL_MapRGB */
    const services: Services

    const depth: array<real>
    const color: array<ColorRGB>
    const back: array<int>

    var cullMode: CullMode
    var sampleMode: SampleMode
    var lightingMode: LightingMode
    var isInitialized: bool
    var isHardware: bool
    var hasRotation: bool
    var hasNormalMap: bool
    var hasFire: bool
    var isShowDepthBuffer: bool
    var hasBB: bool
    var hasClearColor: bool
    var selectedColor: ColorRGB

    ghost predicate Valid()
    {
      width > 0 && height > 0 &&
      depth.Length == width * height && color.Length == width * height && back.Length == width * height
    }

    /** The configuration fields as one value */
    function State(): Config.Settings
      reads this
    {
      Config.Settings(cullMode, sampleMode, lightingMode, isInitialized, isHardware,
                      hasRotation, hasNormalMap, hasFire, isShowDepthBuffer, hasBB, hasClearColor,
                      selectedColor)
    }

    /** The fields HandleRenderBB reads */
    function Raster(): RasterConfig
      reads this
    {
      RasterConfig(width, height, cullMode, lightingMode, hasNormalMap, isShowDepthBuffer, hasBB, services)
    }

    ghost function CellAt(i: int): Cell
      requires Valid() && 0 <= i < width * height
      reads depth, color, back
    {
      Cell(depth[i], color[i], back[i])
    }

    /** The window size and the buffers come from SDL; directXReady is what InitializeDirectX returned */
    constructor (width: int, height: int, services: Services, directXReady: bool)
      requires width > 0 && height > 0
      ensures Valid() && this.width == width && this.height == height && this.services == services
      ensures fresh(depth) && fresh(color) && fresh(back)
      ensures State() == Config.DefaultSettings.(isInitialized := directXReady)
    {
      this.width := width;
      this.height := height;
      this.services := services;
      depth := new real[width * height];
      color := new ColorRGB[width * height];
      back := new int[width * height];
      cullMode, sampleMode, lightingMode := Back, Point, Combined;
      isInitialized, isHardware := false, false;
      hasRotation, hasNormalMap, hasFire := true, true, true;
      isShowDepthBuffer, hasBB, hasClearColor := false, false, false;
      selectedColor := Config.SoftwareColor;
      new;
      if directXReady {
        isInitialized := true;
      }
    }

    // ---- key handlers ----

    method ToggleRenderer()
      modifies this`isHardware
      ensures State() == Config.Toggled(old(State()), Config.Hardware)
    {
      isHardware := !isHardware;
    }

    method ToggleRotation()
      modifies this`hasRotation
      ensures State() == Config.Toggled(old(State()), Config.Rotation)
    {
      hasRotation := !hasRotation;
    }

    method ToggleNormalMap()
      modifies this`hasNormalMap
      ensures State() == Config.Toggled(old(State()), Config.NormalMap)
    {
      hasNormalMap := !hasNormalMap;
    }

    method ToggleBoundingBox()
      modifies this`hasBB
      ensures State() == Config.Toggled(old(State()), Config.BoundingBox)
    {
      hasBB := !hasBB;
    }

    method ToggleFire()
      modifies this`hasFire
      ensures State() == Config.Toggled(old(State()), Config.Fire)
    {
      hasFire := !hasFire;
    }

    method ToggleDepthBuffer()
      modifies this`isShowDepthBuffer
      ensures State() == Config.Toggled(old(State()), Config.DepthBuffer)
    {
      isShowDepthBuffer := !isShowDepthBuffer;
    }

    method ToggleClearColor()
      modifies this`hasClearColor
      ensures State() == Config.Toggled(old(State()), Config.ClearColor)
    {
      hasClearColor := !hasClearColor;
    }

    method CycleCullMode()
      modifies this`cullMode
      ensures State() == old(State()).(cullMode := Config.NextCullMode(old(cullMode)))
    {
      cullMode := if cullMode == Back then CullFromOrdinal(0) else CullFromOrdinal(CullOrdinal(cullMode) + 1);
    }

    method CycleLightingMode()
      modifies this`lightingMode
      ensures State() == old(State()).(lightingMode := Config.NextLightingMode(old(lightingMode)))
    {
      lightingMode := if lightingMode == Combined then LightingFromOrdinal(0)
                      else LightingFromOrdinal(LightingOrdinal(lightingMode) + 1);
    }

    method CycleSampler()
      modifies this`sampleMode
      ensures State() == old(State()).(sampleMode := Config.NextSampleMode(old(sampleMode)))
    {
      sampleMode := if sampleMode == Anisotropic then SampleFromOrdinal(0)
                    else SampleFromOrdinal(SampleOrdinal(sampleMode) + 1);
    }

    /** The clear-colour choice at the start of Update: uniform grey wins, else the path's own colour */
    method SelectClearColor()
      modifies this`selectedColor
      ensures selectedColor == if hasClearColor then Config.UniformColor
                               else if isHardware then Config.HardwareColor else Config.SoftwareColor
      ensures State() == old(State()).(selectedColor := selectedColor)
    {
      selectedColor := if isHardware then Config.HardwareColor else Config.SoftwareColor;
      if hasClearColor {
        selectedColor := Config.UniformColor;
      }
    }

    // ---- the software frame ----

    /** The frame reset: depth to FLT_MAX, colour to the selected colour, back buffer to the clear value */
    method ResetBuffers()
      requires Valid()
      modifies depth, color, back
      ensures forall i :: 0 <= i < width * height ==>
        CellAt(i) == Cell(FltMax, selectedColor, ClearPixel(hasClearColor))
    {
      var size := width * height;
      for i := 0 to size
        invariant forall j :: 0 <= j < i ==> depth[j] == FltMax && color[j] == selectedColor
      {
        depth[i] := FltMax;
        color[i] := selectedColor;
      }
      var clear := ClearPixel(hasClearColor);
      for i := 0 to size
        invariant forall j :: 0 <= j < size ==> depth[j] == FltMax && color[j] == selectedColor
        invariant forall j :: 0 <= j < i ==> back[j] == clear
      {
        back[i] := clear;
      }
    }

    /** Each vertex to screen space; the output has one vertex per input, in order */
    method VertexTransformationFunction(verticesIn: seq<Vertex>, xf: Transform) returns (verticesOut: seq<VertexOut>)
      requires width > 0 && height > 0
      requires forall j :: 0 <= j < |verticesIn| ==> xf.toClip(verticesIn[j].position).w != 0.0
      ensures |verticesOut| == |verticesIn|
      ensures forall j :: 0 <= j < |verticesIn| ==> verticesOut[j] == TransformVertex(xf, width, height, verticesIn[j])
    {
      verticesOut := seq(|verticesIn|, _ => DefaultVertexOut);
      for i := 0 to |verticesIn|
        invariant |verticesOut| == |verticesIn|
        invariant forall j :: 0 <= j < i ==> verticesOut[j] == TransformVertex(xf, width, height, verticesIn[j])
      {
        var transformed := xf.toClip(verticesIn[i].position);
        var projectedW := transformed.w;
        var projectedX := transformed.x / transformed.w;
        var projectedY := transformed.y / transformed.w;
        var projectedZ := transformed.z / transformed.w;
        projectedX := ScreenX(projectedX, width);
        projectedY := ScreenY(projectedY, height);
        var normal := xf.toWorld(verticesIn[i].normal);
        var tangent := xf.toWorld(verticesIn[i].tangent);
        var pos := Vec4(projectedX, projectedY, projectedZ, projectedW);
        var viewDirection := xf.cameraOrigin.Minus(transformed.Xyz());
        AcceptsEveryVertex(pos);
        if AcceptsVertex(pos) {
          verticesOut := verticesOut[i := VertexOut(pos, verticesIn[i].color, verticesIn[i].uv, normal, tangent, viewDirection)];
        }
      }
    }

    /** The body of the pixel loop for a visited pixel whose triangle is not culled there: the
        depth test, the depth write, shading or the depth view, the bounding-box overlay and the
        back-buffer write, all at index k of pixel (px, py) */
    method ShadePixel(verts: seq<VertexOut>, px: int, py: int, k: int, e: Edges, inside: bool)
      requires Valid() && Renderable(verts) && Visits(Raster(), verts, px, py) && k == px + py * width
      requires e == EdgesAt(verts, PixelCentre(px, py)) && inside == Inside(e)
      modifies depth, color, back
      ensures 0 < k < width * height
      ensures CellAt(k) == Outcome(Raster(), verts, px, py, old(CellAt(k)))
      ensures forall i :: 0 <= i < width * height && i != k ==> CellAt(i) == old(CellAt(i))
    {
      if inside {
        var w := WeightsOf(e);
        var interpolatedDepth := PixelDepth(verts, w);
        if !Passes(interpolatedDepth, depth[k]) {
          return;
        }
        depth[k] := interpolatedDepth.value;
        CoveredIsDefined(verts, e);
        if isShowDepthBuffer {
          color[k] := Gray(LinearDepth(interpolatedDepth.value));
        } else {
          var f := CalculateVertexWithAttributes(verts, w, hasNormalMap, services.tex, services.geo);
          color[k] := PixelShading(f.vertex, f.gloss, f.specularKS, lightingMode, services.brdf, services.geo);
        }
      }
      if hasBB {
        color[k] := White;
      }
      var finalColor := services.maxToOne(color[k]);
      back[k] := services.mapRGB(ToByte(finalColor.r), ToByte(finalColor.g), ToByte(finalColor.b));
    }

    /** One triangle: every cell ends as CellAfter says */
    method HandleRenderBB(verts: seq<VertexOut>)
      requires Valid() && Renderable(verts)
      modifies depth, color, back
      ensures forall i :: 0 <= i < width * height ==> CellAt(i) == CellAfter(Raster(), verts, i, old(CellAt(i)))
    {
      ghost var cfg := Raster();
      var size := width * height;
      ghost var start := map i | 0 <= i < size :: CellAt(i);
      var b := BoundingBox(verts);
      if !Gate(b, width, height) {
        forall i | 0 <= i < size ensures CellAt(i) == CellAfter(cfg, verts, i, old(CellAt(i))) {
          GateClosedLeavesCell(cfg, verts, i, old(CellAt(i)));
        }
        return;
      }
      var x0, x1 := Trunc(b.minX), Ceil(b.maxX);
      LoopRangesOrdered(b);
      for px := x0 to x1
        invariant forall i :: 0 <= i < size ==>
          CellAt(i) == (if DoneBefore(cfg, verts, i, px, Trunc(b.minY)) then Outcome(cfg, verts, Col(cfg, i), Row(cfg, i), start[i])
           else start[i])
        invariant Culls(cullMode, verts) ==> NoCoverBefore(cfg, verts, px, Trunc(b.minY))
      {
        var stopped := RenderColumn(verts, px, start);
        if stopped {
          return;
        }
      }
      forall i | 0 <= i < size ensures CellAt(i) == CellAfter(cfg, verts, i, old(CellAt(i))) {
        Finished(cfg, verts, i);
      }
    }

    /** Column px of the bounding box, rows Trunc(minY) up to Ceil(maxY). It reports stopped when a
        culled triangle covers a visited pixel, and every cell then holds its final value; start
        holds the cells as they were before the triangle */
    method RenderColumn(verts: seq<VertexOut>, px: int, ghost start: map<int, Cell>) returns (stopped: bool)
      requires Valid() && Renderable(verts) && Gate(BoundingBox(verts), width, height)
      requires Trunc(BoundingBox(verts).minX) <= px < Ceil(BoundingBox(verts).maxX)
      requires forall i :: 0 <= i < width * height ==> i in start
      requires forall i :: 0 <= i < width * height ==>
        CellAt(i) == (if DoneBefore(Raster(), verts, i, px, Trunc(BoundingBox(verts).minY))
                      then Outcome(Raster(), verts, Col(Raster(), i), Row(Raster(), i), start[i])
                      else start[i])
      requires Culls(cullMode, verts) ==> NoCoverBefore(Raster(), verts, px, Trunc(BoundingBox(verts).minY))
      modifies depth, color, back
      ensures stopped ==> forall i :: 0 <= i < width * height ==> CellAt(i) == CellAfter(Raster(), verts, i, start[i])
      ensures !stopped ==> forall i :: 0 <= i < width * height ==>
        CellAt(i) == (if DoneBefore(Raster(), verts, i, px + 1, Trunc(BoundingBox(verts).minY))
                      then Outcome(Raster(), verts, Col(Raster(), i), Row(Raster(), i), start[i])
                      else start[i])
      ensures !stopped ==> (Culls(cullMode, verts) ==> NoCoverBefore(Raster(), verts, px + 1, Trunc(BoundingBox(verts).minY)))
    {
      ghost var cfg := Raster();
      var size := width * height;
      var b := BoundingBox(verts);
      var y0, y1 := Trunc(b.minY), Ceil(b.maxY);
      LoopRangesOrdered(b);
      for py := y0 to y1
        invariant forall i :: 0 <= i < size ==>
          CellAt(i) == (if DoneBefore(cfg, verts, i, px, py) then Outcome(cfg, verts, Col(cfg, i), Row(cfg, i), start[i])
           else start[i])
        invariant Culls(cullMode, verts) ==> NoCoverBefore(cfg, verts, px, py)
      {
        var currentPixel := px + py * width;
        if !(currentPixel > 0 && currentPixel < size) {
          forall i | 0 <= i < size
            ensures DoneBefore(cfg, verts, i, px, py + 1) == DoneBefore(cfg, verts, i, px, py) {
            DoneStep(cfg, verts, i, px, py);
          }
          if Culls(cullMode, verts) {
            NoCoverStep(cfg, verts, px, py);
          }
          continue;
        }
        assert Visits(cfg, verts, px, py);
        VisitedIndex(cfg, verts, px, py);
        assert !DoneBefore(cfg, verts, currentPixel, px, py);
        var e := EdgesAt(verts, PixelCentre(px, py));
        var inside := Inside(e);
        if inside && Culls(cullMode, verts) {
          forall i | 0 <= i < size ensures CellAt(i) == CellAfter(cfg, verts, i, start[i]) {
            StoppedAt(cfg, verts, px, py, i);
          }
          return true;
        }
        ShadePixel(verts, px, py, currentPixel, e, inside);
        forall i | 0 <= i < size
          ensures CellAt(i) == if DoneBefore(cfg, verts, i, px, py + 1)
                                then Outcome(cfg, verts, Col(cfg, i), Row(cfg, i), start[i])
                                else start[i] {
          DoneStep(cfg, verts, i, px, py);
        }
        if Culls(cullMode, verts) {
          NoCoverStep(cfg, verts, px, py);
        }
      }
      forall i | 0 <= i < size
        ensures DoneBefore(cfg, verts, i, px, y1) == DoneBefore(cfg, verts, i, px + 1, y0) {
        DoneColumn(cfg, verts, i, px);
      }
      if Culls(cullMode, verts) {
        NoCoverColumn(cfg, verts, px);
      }
      return false;
    }

    /** The body of the triangle loop: gather triangle t, transform it and rasterize it */
    method RenderTriangle(vertices: seq<Vertex>, indices: seq<nat>, xf: Transform, t: nat)
      requires Valid() && MeshReady(xf, vertices, indices) && FitsInt(vertices, indices) && 3 * t + 2 < |indices|
      modifies depth, color, back
      ensures forall i :: 0 <= i < width * height ==>
        CellAt(i) == CellAfter(Raster(), Triangle(xf, width, height, vertices, indices, t), i, old(CellAt(i)))
    {
      var index := t * 3;
      var triangleVerts := [vertices[indices[index]], vertices[indices[index + 1]], vertices[indices[index + 2]]];
      var verts := VertexTransformationFunction(triangleVerts, xf);
      assert verts == Triangle(xf, width, height, vertices, indices, t);
      HandleRenderBB(verts);
    }

    /** RenderMeshTriangleList, run sequentially: triangle t covers indices 3t .. 3t + 2 */
    method RenderMeshTriangleList(vertices: seq<Vertex>, indices: seq<nat>, xf: Transform)
      requires Valid() && MeshReady(xf, vertices, indices) && FitsInt(vertices, indices) && 2 <= |indices|
      modifies depth, color, back
      ensures forall i :: 0 <= i < width * height ==>
        CellAt(i) == CellAfterAll(Raster(), Triangles(xf, width, height, vertices, indices, TriangleCount(|indices|)),
                                  i, old(CellAt(i)))
    {
      ghost var cfg := Raster();
      var count := TriangleCount(|indices|);
      assert (|indices| - 2) % SizeMod == |indices| - 2;
      assert 3 * count <= |indices|;
      for t := 0 to count
        invariant forall i :: 0 <= i < width * height ==>
          CellAt(i) == CellAfterAll(cfg, Triangles(xf, width, height, vertices, indices, t), i, old(CellAt(i)))
      {
        TriangleIndicesInBounds(|indices|, t);
        TriangleIndicesFitInt(|indices|, t);
        RenderTriangle(vertices, indices, xf, t);
        forall i | 0 <= i < width * height
          ensures CellAt(i) == CellAfterAll(cfg, Triangles(xf, width, height, vertices, indices, t + 1), i, old(CellAt(i)))
        {
          TrianglesStep(cfg, xf, vertices, indices, t, i, old(CellAt(i)));
        }
      }
    }

    /** The software branch of Render: reset the buffers, then rasterize the mesh.
        The hardware branch does not touch the software buffers. */
    method Render(vertices: seq<Vertex>, indices: seq<nat>, xf: Transform)
      requires Valid() && MeshReady(xf, vertices, indices) && FitsInt(vertices, indices) && 2 <= |indices|
      modifies depth, color, back
      ensures isHardware ==> forall i :: 0 <= i < width * height ==> CellAt(i) == old(CellAt(i))
      ensures !isHardware ==> forall i :: 0 <= i < width * height ==>
        CellAt(i) == CellAfterAll(Raster(), Triangles(xf, width, height, vertices, indices, TriangleCount(|indices|)),
                                  i, Cell(FltMax, selectedColor, ClearPixel(hasClearColor)))
    {
      if isHardware {
        return;
      }
      ResetBuffers();
      RenderMeshTriangleList(vertices, indices, xf);
    }
  }
}
