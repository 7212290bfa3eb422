/**
 * What HandleRenderBB (Renderer.cpp) does to one cell of the three screen
 * buffers, as a closed form. A cell is the depth value, the colour and the
 * packed back-buffer pixel at one index. The pixel loops run px-major, and
 * a culled triangle returns at its first covered pixel, so which cells are
 * processed depends on the loop order: `Processed` captures that, and
 * `CellAfter` is the whole effect of one triangle on one cell.
 */
module Rasterizer {
  import opened Math
  import opened Datatypes
  import opened Materials
  import Config
  import opened Raster
  import opened Shading

  /** The calls into code this model cannot see */
  datatype Services = Services(
    tex: Textures, brdf: Brdf, geo: Geometry,
    maxToOne: ColorRGB -> ColorRGB,
    mapRGB: (int, int, int) -> int)

  /** The renderer state one triangle is rasterized with */
  datatype RasterConfig = RasterConfig(
    width: int, height: int, cullMode: CullMode, lightingMode: LightingMode,
    hasNormalMap: bool, showDepth: bool, hasBB: bool, services: Services)

  datatype Cell = Cell(depth: real, color: ColorRGB, pixel: int)

  /** static_cast<uint8_t>(x * 255) for a channel in [0, 1] */
  function ToByte(x: real): (b: int)
    ensures 0.0 <= x <= 1.0 ==> 0 <= b <= 255
    ensures x == 1.0 ==> b == 255
  {
    Trunc(x * 255.0)
  }

  /** The back-buffer value of a colour: MaxToOne, each channel to a byte, SDL_MapRGB */
  function Pack(s: Services, c: ColorRGB): int
  {
    var m := s.maxToOne(c);
    s.mapRGB(ToByte(m.r), ToByte(m.g), ToByte(m.b))
  }

  /** The bounding-box overlay paints every processed pixel white */
  function Overlay(hasBB: bool, c: ColorRGB): ColorRGB
  {
    if hasBB then White else c
  }

  /** The depth visualisation 2n / (f + n - d (f - n)); 0 where the program divides by zero */
  function LinearDepth(d: real): real
  {
    var den := Config.FarZ + Config.NearZ - d * (Config.FarZ - Config.NearZ);
    if den == 0.0 then 0.0 else 2.0 * Config.NearZ / den
  }

  /** Depth 1 shows as white, depth -1 as near / far, and the grey grows with the depth below the pole */
  lemma LinearDepthRange(d: real, d': real)
    requires d < d' < (Config.FarZ + Config.NearZ) / (Config.FarZ - Config.NearZ)
    ensures LinearDepth(1.0) == 1.0 && LinearDepth(-1.0) == Config.NearZ / Config.FarZ
    ensures 0.0 < LinearDepth(d) < LinearDepth(d')
  {
    var den, den' := Config.FarZ + Config.NearZ - d * (Config.FarZ - Config.NearZ), Config.FarZ + Config.NearZ - d' * (Config.FarZ - Config.NearZ);
    assert 0.0 < den' < den;
    assert 2.0 * Config.NearZ / den < 2.0 * Config.NearZ / den' by {
      assert 2.0 * Config.NearZ / den * den == 2.0 * Config.NearZ;
      assert 2.0 * Config.NearZ / den' * den' == 2.0 * Config.NearZ;
    }
  }

  /** The colour written at a covered pixel that passed the depth test */
  function ShadedColor(cfg: RasterConfig, verts: seq<VertexOut>, w: Weights, depth: real): ColorRGB
    requires PerspectiveDefined(verts, w)
  {
    if cfg.showDepth then
      Gray(LinearDepth(depth))
    else
      var f := CalculateVertexWithAttributes(verts, w, cfg.hasNormalMap, cfg.services.tex, cfg.services.geo);
      PixelShading(f.vertex, f.gloss, f.specularKS, cfg.lightingMode, cfg.services.brdf, cfg.services.geo)
  }

  /** The effect of processing pixel (px, py) on its cell, when the triangle has not been culled */
  function Outcome(cfg: RasterConfig, verts: seq<VertexOut>, px: int, py: int, cell: Cell): Cell
    requires Renderable(verts)
  {
    var e := EdgesAt(verts, PixelCentre(px, py));
    if Inside(e) then
      var w := WeightsOf(e);
      var d := PixelDepth(verts, w);
      if !Passes(d, cell.depth) then cell
      else
        CoveredIsDefined(verts, e);
        var c := Overlay(cfg.hasBB, ShadedColor(cfg, verts, w, d.value));
        Cell(d.value, c, Pack(cfg.services, c))
    else
      var c := Overlay(cfg.hasBB, cell.color);
      Cell(cell.depth, c, Pack(cfg.services, c))
  }

  // ---- which cells are processed ----

  /** The pixel of buffer index i */
  function Col(cfg: RasterConfig, i: int): int requires cfg.width > 0 { i % cfg.width }
  function Row(cfg: RasterConfig, i: int): int requires cfg.width > 0 { i / cfg.width }

  /** Loop order: px-major, then py */
  predicate Before(qx: int, qy: int, px: int, py: int)
  {
    qx < px || (qx == px && qy < py)
  }

  /** Pixel (px, py) reaches the body of the loops: the gate holds, the pixel is in the box and
      its index passes the 0 < index < width * height check */
  predicate Visits(cfg: RasterConfig, verts: seq<VertexOut>, px: int, py: int)
    requires |verts| >= 3
  {
    var b := BoundingBox(verts);
    Gate(b, cfg.width, cfg.height) && InBox(b, px, py) && 0 < px + py * cfg.width < cfg.width * cfg.height
  }

  /** No visited pixel before (px, py) in loop order is covered */
  ghost predicate NoCoverBefore(cfg: RasterConfig, verts: seq<VertexOut>, px: int, py: int)
    requires |verts| >= 3
  {
    forall qx, qy :: Visits(cfg, verts, qx, qy) && Before(qx, qy, px, py) ==> !InsideAt(verts, qx, qy)
  }

  /** Pixel (px, py) is processed: visited, and, for a culled triangle, no covered pixel up to and
      including it has made the method return */
  ghost predicate Processed(cfg: RasterConfig, verts: seq<VertexOut>, px: int, py: int)
    requires |verts| >= 3
  {
    Visits(cfg, verts, px, py) && (Culls(cfg.cullMode, verts) ==> NoCoverBefore(cfg, verts, px, py + 1))
  }

  /** The cell at index i after one triangle */
  ghost function CellAfter(cfg: RasterConfig, verts: seq<VertexOut>, i: int, cell: Cell): Cell
    requires cfg.width > 0 && Renderable(verts)
  {
    if Processed(cfg, verts, Col(cfg, i), Row(cfg, i)) then Outcome(cfg, verts, Col(cfg, i), Row(cfg, i), cell)
    else cell
  }

  // ---- index arithmetic ----

  /** The index px + py * width of a pixel with 0 <= px < width gives back px and py */
  lemma {:induction false} IndexOfPixel(cfg: RasterConfig, px: int, py: int)
    requires cfg.width > 0 && 0 <= px < cfg.width
    ensures Col(cfg, px + py * cfg.width) == px && Row(cfg, px + py * cfg.width) == py
  {
    var w, i := cfg.width, px + py * cfg.width;
    var q, r := i / w, i % w;
    assert i == q * w + r && 0 <= r < w;
    assert (q - py) * w == px - r;
    if q > py {
      MulMonotone(1, q - py, w);
      assert false;
    } else if q < py {
      MulMonotone(1, py - q, w);
      assert false;
    }
  }

  /** Every index is the index of its own pixel */
  lemma PixelOfIndex(cfg: RasterConfig, i: int)
    requires cfg.width > 0
    ensures i == Col(cfg, i) + Row(cfg, i) * cfg.width && 0 <= Col(cfg, i) < cfg.width
  {
  }

  /** A visited pixel has a column inside the screen, so its index names it */
  lemma VisitedIndex(cfg: RasterConfig, verts: seq<VertexOut>, px: int, py: int)
    requires cfg.width > 0 && |verts| >= 3 && Visits(cfg, verts, px, py)
    ensures 0 <= px < cfg.width - 1 && 0 <= py < cfg.height - 1
    ensures Col(cfg, px + py * cfg.width) == px && Row(cfg, px + py * cfg.width) == py
  {
    GatedPixelInScreen(BoundingBox(verts), cfg.width, cfg.height, px, py);
    IndexOfPixel(cfg, px, py);
  }

  // ---- the loop's progress, as used by the rasterizer method ----

  /** Index i was processed before the loops reached (px, py), for a triangle not (yet) culled */
  ghost predicate DoneBefore(cfg: RasterConfig, verts: seq<VertexOut>, i: int, px: int, py: int)
    requires cfg.width > 0 && |verts| >= 3
  {
    Visits(cfg, verts, Col(cfg, i), Row(cfg, i)) && Before(Col(cfg, i), Row(cfg, i), px, py)
  }

  /** One step of the inner loop adds exactly the index of the current pixel, if it is visited */
  lemma DoneStep(cfg: RasterConfig, verts: seq<VertexOut>, i: int, px: int, py: int)
    requires cfg.width > 0 && |verts| >= 3
    ensures DoneBefore(cfg, verts, i, px, py + 1)
        <==> DoneBefore(cfg, verts, i, px, py) || (i == px + py * cfg.width && Visits(cfg, verts, px, py))
  {
    PixelOfIndex(cfg, i);
    if i == px + py * cfg.width && Visits(cfg, verts, px, py) {
      VisitedIndex(cfg, verts, px, py);
    }
  }

  /** The end of a column is the start of the next one */
  lemma DoneColumn(cfg: RasterConfig, verts: seq<VertexOut>, i: int, px: int)
    requires cfg.width > 0 && |verts| >= 3
    ensures DoneBefore(cfg, verts, i, px, Ceil(BoundingBox(verts).maxY))
        <==> DoneBefore(cfg, verts, i, px + 1, Trunc(BoundingBox(verts).minY))
  {
  }

  lemma NoCoverStep(cfg: RasterConfig, verts: seq<VertexOut>, px: int, py: int)
    requires |verts| >= 3 && NoCoverBefore(cfg, verts, px, py)
    requires Visits(cfg, verts, px, py) ==> !InsideAt(verts, px, py)
    ensures NoCoverBefore(cfg, verts, px, py + 1)
  {
  }

  lemma NoCoverColumn(cfg: RasterConfig, verts: seq<VertexOut>, px: int)
    requires |verts| >= 3 && NoCoverBefore(cfg, verts, px, Ceil(BoundingBox(verts).maxY))
    ensures NoCoverBefore(cfg, verts, px + 1, Trunc(BoundingBox(verts).minY))
  {
    var b := BoundingBox(verts);
    forall qx, qy | Visits(cfg, verts, qx, qy) && Before(qx, qy, px + 1, Trunc(b.minY))
      ensures !InsideAt(verts, qx, qy)
    {
      assert Before(qx, qy, px, Ceil(b.maxY));
    }
  }

  /** When the loops run to the end, the processed indices are the ones done */
  lemma Finished(cfg: RasterConfig, verts: seq<VertexOut>, i: int)
    requires cfg.width > 0 && Renderable(verts)
    requires Culls(cfg.cullMode, verts) ==> NoCoverBefore(cfg, verts, Ceil(BoundingBox(verts).maxX), Trunc(BoundingBox(verts).minY))
    ensures Processed(cfg, verts, Col(cfg, i), Row(cfg, i))
        <==> DoneBefore(cfg, verts, i, Ceil(BoundingBox(verts).maxX), Trunc(BoundingBox(verts).minY))
  {
    var b := BoundingBox(verts);
    var cx, cy := Col(cfg, i), Row(cfg, i);
    if Visits(cfg, verts, cx, cy) && Culls(cfg.cullMode, verts) {
      forall qx, qy | Visits(cfg, verts, qx, qy) && Before(qx, qy, cx, cy + 1)
        ensures !InsideAt(verts, qx, qy)
      {
        assert Before(qx, qy, Ceil(b.maxX), Trunc(b.minY));
      }
    }
  }

  /** When a culled triangle returns at the covered pixel (px, py), the processed indices are the
      ones done before it */
  lemma StoppedAt(cfg: RasterConfig, verts: seq<VertexOut>, px: int, py: int, i: int)
    requires cfg.width > 0 && Renderable(verts) && Culls(cfg.cullMode, verts)
    requires Visits(cfg, verts, px, py) && InsideAt(verts, px, py) && NoCoverBefore(cfg, verts, px, py)
    ensures Processed(cfg, verts, Col(cfg, i), Row(cfg, i)) <==> DoneBefore(cfg, verts, i, px, py)
  {
    var cx, cy := Col(cfg, i), Row(cfg, i);
    if DoneBefore(cfg, verts, i, px, py) {
      forall qx, qy | Visits(cfg, verts, qx, qy) && Before(qx, qy, cx, cy + 1)
        ensures !InsideAt(verts, qx, qy)
      {
        assert Before(qx, qy, px, py);
      }
    } else if Visits(cfg, verts, cx, cy) {
      assert Before(px, py, cx, cy + 1);
    }
  }

  // ---- properties of one triangle ----

  /** A depth cell is overwritten only by a smaller-or-equal depth: the buffer only gets nearer */
  lemma DepthNeverIncreases(cfg: RasterConfig, verts: seq<VertexOut>, i: int, cell: Cell)
    requires cfg.width > 0 && Renderable(verts)
    ensures CellAfter(cfg, verts, i, cell).depth <= cell.depth
  {
  }

  /** The new depth is the minimum of the stored depth and the pixel's, when the pixel is covered */
  lemma DepthIsMin(cfg: RasterConfig, verts: seq<VertexOut>, i: int, cell: Cell)
    requires cfg.width > 0 && Renderable(verts)
    ensures var e := EdgesAt(verts, PixelCentre(Col(cfg, i), Row(cfg, i)));
            var after := CellAfter(cfg, verts, i, cell).depth;
            if Processed(cfg, verts, Col(cfg, i), Row(cfg, i)) && Inside(e)
               && PixelDepth(verts, WeightsOf(e)).Finite?
            then after == Min(cell.depth, PixelDepth(verts, WeightsOf(e)).value)
            else after == cell.depth
  {
  }

  /** With the gate closed nothing changes */
  lemma GateClosedLeavesCell(cfg: RasterConfig, verts: seq<VertexOut>, i: int, cell: Cell)
    requires cfg.width > 0 && Renderable(verts)
    requires !Gate(BoundingBox(verts), cfg.width, cfg.height)
    ensures CellAfter(cfg, verts, i, cell) == cell
  {
  }

  /** Index 0 (the top-left pixel) is never written, and nor is any pixel outside the box */
  lemma UnvisitedCellsUnchanged(cfg: RasterConfig, verts: seq<VertexOut>, i: int, cell: Cell)
    requires cfg.width > 0 && Renderable(verts)
    requires i == 0 || !InBox(BoundingBox(verts), Col(cfg, i), Row(cfg, i))
    ensures CellAfter(cfg, verts, i, cell) == cell
  {
    PixelOfIndex(cfg, i);
  }

  /** Every processed pixel has its index strictly between 0 and width * height, and names its cell */
  lemma ProcessedInScreen(cfg: RasterConfig, verts: seq<VertexOut>, px: int, py: int)
    requires cfg.width > 0 && Renderable(verts) && Processed(cfg, verts, px, py)
    ensures 0 < px + py * cfg.width < cfg.width * cfg.height
    ensures Col(cfg, px + py * cfg.width) == px && Row(cfg, px + py * cfg.width) == py
  {
    VisitedIndex(cfg, verts, px, py);
  }

  /** A culled triangle leaves every depth cell as it was; only the overlay can change colours */
  lemma {:induction false} CulledKeepsDepth(cfg: RasterConfig, verts: seq<VertexOut>, i: int, cell: Cell)
    requires cfg.width > 0 && Renderable(verts) && Culls(cfg.cullMode, verts)
    ensures CellAfter(cfg, verts, i, cell).depth == cell.depth
    ensures CellAfter(cfg, verts, i, cell).color == cell.color
         || CellAfter(cfg, verts, i, cell).color == Overlay(cfg.hasBB, cell.color)
  {
    var cx, cy := Col(cfg, i), Row(cfg, i);
    if Processed(cfg, verts, cx, cy) {
      assert Before(cx, cy, cx, cy + 1);
      assert !InsideAt(verts, cx, cy);
    }
  }

  /** Without culling, every visited pixel is processed */
  lemma NoneNeverCulls(cfg: RasterConfig, verts: seq<VertexOut>, px: int, py: int)
    requires |verts| >= 3 && cfg.cullMode == None
    ensures Processed(cfg, verts, px, py) <==> Visits(cfg, verts, px, py)
  {
  }

  /** Rasterizing the same triangle twice gives the same buffers as once */
  lemma {:induction false} RasterizeIdempotent(cfg: RasterConfig, verts: seq<VertexOut>, i: int, cell: Cell)
    requires cfg.width > 0 && Renderable(verts)
    ensures CellAfter(cfg, verts, i, CellAfter(cfg, verts, i, cell)) == CellAfter(cfg, verts, i, cell)
  {
    var cx, cy := Col(cfg, i), Row(cfg, i);
    if Processed(cfg, verts, cx, cy) {
      var e := EdgesAt(verts, PixelCentre(cx, cy));
      if Inside(e) {
        var d := PixelDepth(verts, WeightsOf(e));
        if Passes(d, cell.depth) {
          assert Passes(d, d.value);
        }
      }
    }
  }

  // ---- a sequence of triangles ----

  predicate AllRenderable(tris: seq<seq<VertexOut>>)
  {
    forall t :: 0 <= t < |tris| ==> Renderable(tris[t])
  }

  /** The cell at index i after the triangles, in order */
  ghost function CellAfterAll(cfg: RasterConfig, tris: seq<seq<VertexOut>>, i: int, cell: Cell): Cell
    requires cfg.width > 0 && AllRenderable(tris)
    decreases |tris|
  {
    if tris == [] then cell
    else CellAfter(cfg, tris[|tris| - 1], i, CellAfterAll(cfg, tris[..|tris| - 1], i, cell))
  }

  /** Over a whole mesh the depth buffer still only gets nearer */
  lemma {:induction false} MeshDepthNeverIncreases(cfg: RasterConfig, tris: seq<seq<VertexOut>>, i: int, cell: Cell)
    requires cfg.width > 0 && AllRenderable(tris)
    ensures CellAfterAll(cfg, tris, i, cell).depth <= cell.depth
    decreases |tris|
  {
    if tris != [] {
      MeshDepthNeverIncreases(cfg, tris[..|tris| - 1], i, cell);
      DepthNeverIncreases(cfg, tris[|tris| - 1], i, CellAfterAll(cfg, tris[..|tris| - 1], i, cell));
    }
  }

  /** Index 0 keeps its reset value through the whole mesh */
  lemma {:induction false} MeshNeverWritesIndexZero(cfg: RasterConfig, tris: seq<seq<VertexOut>>, cell: Cell)
    requires cfg.width > 0 && AllRenderable(tris)
    ensures CellAfterAll(cfg, tris, 0, cell) == cell
    decreases |tris|
  {
    if tris != [] {
      MeshNeverWritesIndexZero(cfg, tris[..|tris| - 1], cell);
      UnvisitedCellsUnchanged(cfg, tris[|tris| - 1], 0, cell);
    }
  }
}
