/**
 * The per-vertex stage of VertexTransformationFunction (Renderer.cpp): the
 * perspective divide, the NDC-to-pixel mapping with the Y axis flipped, and
 * the vertex attributes carried to screen space. The matrices (Math.h is
 * not part of this model) are abstract: `toClip` is TransformPoint of the
 * combined world-view-projection matrix on (position, 1), `toWorld` is
 * TransformVector of the world matrix.
 */
module Projection {
  import opened Math
  import opened Datatypes

  datatype Transform = Transform(toClip: Vec3 -> Vec4, toWorld: Vec3 -> Vec3, cameraOrigin: Vec3)

  /** The acceptance test of the transform: a coordinate cannot be both below -1 and above 1 */
  predicate AcceptsVertex(pos: Vec4)
  {
    !(pos.x < -1.0 && pos.x > 1.0) && !(pos.y < -1.0 && pos.y > 1.0)
  }

  lemma AcceptsEveryVertex(pos: Vec4)
    ensures AcceptsVertex(pos)
  {
  }

  /** NDC x in [-1, 1] to [0, width] */
  function ScreenX(ndcX: real, width: int): real
  {
    ((ndcX + 1.0) / 2.0) * width as real
  }

  /** NDC y in [-1, 1] to [height, 0]: the Y axis is flipped, origin top-left */
  function ScreenY(ndcY: real, height: int): real
  {
    ((1.0 - ndcY) / 2.0) * height as real
  }

  /** The screen mapping can be undone, and it maps the NDC square onto the pixel rectangle */
  lemma ScreenMappingInverse(ndcX: real, ndcY: real, width: int, height: int)
    requires width > 0 && height > 0
    ensures 2.0 * ScreenX(ndcX, width) / width as real - 1.0 == ndcX
    ensures 1.0 - 2.0 * ScreenY(ndcY, height) / height as real == ndcY
    ensures -1.0 <= ndcX <= 1.0 <==> 0.0 <= ScreenX(ndcX, width) <= width as real
    ensures -1.0 <= ndcY <= 1.0 <==> 0.0 <= ScreenY(ndcY, height) <= height as real
    ensures ScreenY(1.0, height) == 0.0 && ScreenY(-1.0, height) == height as real
  {
    var w, h := width as real, height as real;
    var sx, sy := 2.0 * ScreenX(ndcX, width), 2.0 * ScreenY(ndcY, height);
    assert sx == (ndcX + 1.0) * w;
    MulDivCancel(sx, ndcX + 1.0, w);
    assert sx / w == ndcX + 1.0;
    assert sy == (1.0 - ndcY) * h;
    MulDivCancel(sy, 1.0 - ndcY, h);
    assert sy / h == 1.0 - ndcY;
  }

  /** One vertex in screen space: x, y in pixels, z divided by w, w kept for interpolation */
  function TransformVertex(xf: Transform, width: int, height: int, v: Vertex): VertexOut
    requires xf.toClip(v.position).w != 0.0
  {
    var clip := xf.toClip(v.position);
    var pos := Vec4(ScreenX(clip.x / clip.w, width), ScreenY(clip.y / clip.w, height), clip.z / clip.w, clip.w);
    VertexOut(pos, v.color, v.uv, xf.toWorld(v.normal), xf.toWorld(v.tangent),
              xf.cameraOrigin.Minus(clip.Xyz()))
  }

  /** The transformed vertex keeps w, has z * w equal to the clip z, maps back to the clip-space
      x / w and y / w, and carries the vertex's colour and uv */
  lemma TransformVertexMapsBack(xf: Transform, width: int, height: int, v: Vertex)
    requires width > 0 && height > 0
    requires xf.toClip(v.position).w != 0.0
    ensures var r := TransformVertex(xf, width, height, v);
      && r.position.w == xf.toClip(v.position).w
      && r.position.z * r.position.w == xf.toClip(v.position).z
      && 2.0 * r.position.x / width as real - 1.0 == xf.toClip(v.position).x / r.position.w
      && 1.0 - 2.0 * r.position.y / height as real == xf.toClip(v.position).y / r.position.w
      && r.color == v.color && r.uv == v.uv
  {
    var clip := xf.toClip(v.position);
    ScreenMappingInverse(clip.x / clip.w, clip.y / clip.w, width, height);
    MulDivCancel(clip.z, clip.z / clip.w, clip.w);
  }

  /** What the rasterizer needs of a model-space vertex once transformed: a positive clip w and a
      nonzero clip z */
  predicate Projectable(xf: Transform, v: Vertex)
  {
    xf.toClip(v.position).w > 0.0 && xf.toClip(v.position).z != 0.0
  }

  /** A projectable vertex keeps a positive w and gets a nonzero depth */
  lemma ProjectableKeepsDepth(xf: Transform, width: int, height: int, v: Vertex)
    requires width > 0 && height > 0 && Projectable(xf, v)
    ensures TransformVertex(xf, width, height, v).position.w > 0.0
    ensures TransformVertex(xf, width, height, v).position.z != 0.0
  {
    TransformVertexMapsBack(xf, width, height, v);
  }
}
