/** The camera projection component (`src/projection.rs`): a 4x4 matrix taken
    verbatim from the platform, column-major, with one sign flip applied so
    that the platform's clip space matches the engine's. Matrix entries are
    f32 in the source; they are `real` here, which is exact for negation. */
module Projection {

  /** `Vec4`: one column of a matrix. */
  datatype Vec4 = Vec4(x: real, y: real, z: real, w: real)

  /** `Mat4`: four columns, as the math library lays them out. */
  datatype Mat4 = Mat4(xAxis: Vec4, yAxis: Vec4, zAxis: Vec4, wAxis: Vec4)

  /** The component `WebXrProjection { projection_matrix }`. */
  datatype WebXrProjection = WebXrProjection(projectionMatrix: Mat4)

  /** `Mat4::to_cols_array`: the 16 entries column by column. */
  function ToColsArray(m: Mat4): (r: seq<real>)
    ensures |r| == 16
  {
    [m.xAxis.x, m.xAxis.y, m.xAxis.z, m.xAxis.w,
     m.yAxis.x, m.yAxis.y, m.yAxis.z, m.yAxis.w,
     m.zAxis.x, m.zAxis.y, m.zAxis.z, m.zAxis.w,
     m.wAxis.x, m.wAxis.y, m.wAxis.z, m.wAxis.w]
  }

  /** `Mat4::from_cols_slice`: the first 16 values, read column by column.
      The library panics on a shorter slice, so callers must supply 16. */
  function FromColsSlice(v: seq<real>): (m: Mat4)
    requires |v| >= 16
    ensures ToColsArray(m) == v[..16]
  {
    Mat4(Vec4(v[0], v[1], v[2], v[3]), Vec4(v[4], v[5], v[6], v[7]),
         Vec4(v[8], v[9], v[10], v[11]), Vec4(v[12], v[13], v[14], v[15]))
  }

  /** Reading a matrix's own column array back gives the matrix. */
  lemma FromColsRoundTrip(m: Mat4)
    ensures FromColsSlice(ToColsArray(m)) == m
  {
  }

  /** `transform_matrix`: negate `y_axis.y` (entry 5 of the column array),
      keep every other entry. */
  function TransformMatrix(m: Mat4): (r: Mat4)
    ensures ToColsArray(r) == ToColsArray(m)[5 := -m.yAxis.y]
  {
    m.(yAxis := m.yAxis.(y := -m.yAxis.y))
  }

  /** Flipping twice is the identity. */
  lemma TransformInvolution(m: Mat4)
    ensures TransformMatrix(TransformMatrix(m)) == m
  {
  }

  /** `From<Vec<f32>>`: build column-major from the platform values, then flip. */
  function FromPlatform(v: seq<real>): (p: WebXrProjection)
    requires |v| >= 16
    ensures ToColsArray(TransformMatrix(p.projectionMatrix)) == v[..16]
    ensures p.projectionMatrix.yAxis.y == -v[5]
  {
    TransformInvolution(FromColsSlice(v));
    WebXrProjection(TransformMatrix(FromColsSlice(v)))
  }

  /** `update_matrix`: the stored matrix becomes what `From` would build from
      the same values; nothing else is kept from the old matrix. */
  function UpdateMatrix(p: WebXrProjection, v: seq<real>): (r: WebXrProjection)
    requires |v| >= 16
    ensures r == FromPlatform(v)
  {
    WebXrProjection(TransformMatrix(FromColsSlice(v)))
  }

  /** `Default`: the column values the source lists. */
  function Default(): (p: WebXrProjection)
    ensures var a := ToColsArray(p.projectionMatrix);
      && a[0] == 2.4142134 && a[5] == 2.4142134 && a[11] == -1.0 && a[14] == 0.1
      && forall k :: 0 <= k < 16 && k !in {0, 5, 11, 14} ==> a[k] == 0.0
  {
    WebXrProjection(Mat4(Vec4(2.4142134, 0.0, 0.0, 0.0), Vec4(0.0, 2.4142134, 0.0, 0.0),
                         Vec4(0.0, 0.0, 0.0, -1.0), Vec4(0.0, 0.0, 0.1, 0.0)))
  }

  /** `CameraProjection::get_projection_matrix`. */
  function GetProjectionMatrix(p: WebXrProjection): Mat4 {
    p.projectionMatrix
  }

  /** `CameraProjection::update`: the projection ignores viewport resizes. */
  function Update(p: WebXrProjection, width: real, height: real): WebXrProjection {
    p
  }

  /** `CameraProjection::far`: a constant, whatever the matrix. */
  function Far(p: WebXrProjection): real {
    1000.0
  }

  /** What the engine reads back through the projection trait: the matrix
      stored by the last update, unchanged by resizes, and a fixed far plane. */
  lemma CameraProjectionContract(p: WebXrProjection, v: seq<real>, width: real, height: real)
    requires |v| >= 16
    ensures GetProjectionMatrix(Update(UpdateMatrix(p, v), width, height)) == FromPlatform(v).projectionMatrix
    ensures ToColsArray(TransformMatrix(GetProjectionMatrix(UpdateMatrix(p, v)))) == v[..16]
    ensures Far(p) == Far(UpdateMatrix(p, v)) == 1000.0
  {
  }
}
