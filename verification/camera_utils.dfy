/**
  The camera-geometry resolver of the render server: conforming a USD
  camera's vertical aperture to an image resolution, and capturing the
  camera's intrinsics and extrinsics in a `CameraInfo` record of row-major
  16-value tuples. Nothing mutates that record after it is built, so it is
  an immutable datatype here.

  What the USD library computes (the projection matrix of the camera's
  frustum, the local-to-world transform, the stage's up axis and the matrix
  inverse) enters as parameters.
 */
module CameraUtils {
  import opened Matrix
  import opened Wrappers

  /** The stage up axis, as reported for a USD stage. */
  datatype UpAxis = YAxis | ZAxis

  /** The attributes of a USD camera prim that the resolver reads or writes. */
  datatype Camera = Camera(
    focalLength: real,
    horizontalAperture: real,
    verticalAperture: real,
    clippingRange: (real, real),
    localToWorld: Mat4)

  /** An image resolution (width, height). */
  datatype Resolution = Resolution(width: real, height: real)

  datatype CameraError = ZeroDivisionError

  /** The captured camera: intrinsics, then three row-major 4x4 matrices as 16-value tuples. */
  datatype CameraInfo = CameraInfo(
    focalLength: real,
    horizontalAperture: real,
    verticalAperture: real,
    nearClip: real,
    farClip: real,
    worldToCamera: seq<real>,
    worldToNdc: seq<real>,
    projectionMatrix: seq<real>)

  /** The three matrix fields hold 16 values each. */
  predicate HasMatrixShape(info: CameraInfo) {
    |info.worldToCamera| == 16 && |info.worldToNdc| == 16 && |info.projectionMatrix| == 16
  }

  /**
    The record's own invariant: its world-to-NDC matrix is its world-to-camera
    matrix followed by its projection matrix.
   */
  predicate ComposedInOrder(info: CameraInfo) {
    HasMatrixShape(info) &&
    Unflatten(info.worldToNdc) == Mul(Unflatten(info.worldToCamera), Unflatten(info.projectionMatrix))
  }

  /**
    `conform_camera_vertical_aperture`: overwrites the vertical aperture with
    `horizontal / (width / height)`. Python raises ZeroDivisionError when the
    height is zero, and also when the width is zero, since the aspect ratio is
    then zero and becomes the divisor.
   */
  function ConformVerticalAperture(camera: Camera, resolution: Resolution): (r: Result<Camera, CameraError>)
    ensures r.Failure? <==> resolution.width == 0.0 || resolution.height == 0.0
    ensures r.Failure? ==> r.error == ZeroDivisionError
    ensures r.Success? ==>
      r.value.verticalAperture * resolution.width == camera.horizontalAperture * resolution.height
    ensures r.Success? ==> r.value == camera.(verticalAperture := r.value.verticalAperture)
  {
    if resolution.height == 0.0 then Failure(ZeroDivisionError)
    else
      var aspectRatio := resolution.width / resolution.height;
      if aspectRatio == 0.0 then Failure(ZeroDivisionError)
      else
        var conformed := camera.horizontalAperture / aspectRatio;
        assert conformed * resolution.width == camera.horizontalAperture * resolution.height by {
          assert conformed * aspectRatio == camera.horizontalAperture;
          assert aspectRatio * resolution.height == resolution.width;
        }
        Success(camera.(verticalAperture := conformed))
  }

  /**
    The conformed aperture is the ONLY value meeting the aspect relation: for a
    nonzero resolution, `v` is the new vertical aperture exactly when
    `v * width == horizontal * height`.
   */
  lemma ConformedApertureCharacterised(camera: Camera, resolution: Resolution, v: real)
    requires resolution.width != 0.0 && resolution.height != 0.0
    ensures ConformVerticalAperture(camera, resolution).Success?
    ensures ConformVerticalAperture(camera, resolution).value.verticalAperture == v
        <==> v * resolution.width == camera.horizontalAperture * resolution.height
  {
  }

  /** Conforming twice with the same resolution gives the camera state of conforming once. */
  lemma ConformIdempotent(camera: Camera, resolution: Resolution)
    requires ConformVerticalAperture(camera, resolution).Success?
    ensures var once := ConformVerticalAperture(camera, resolution).value;
      ConformVerticalAperture(once, resolution) == Success(once)
  {
  }

  /** The vertical aperture the camera held before conformance has no influence on the result. */
  lemma ConformIgnoresPriorVertical(camera: Camera, resolution: Resolution, v: real)
    ensures ConformVerticalAperture(camera.(verticalAperture := v), resolution)
         == ConformVerticalAperture(camera, resolution)
  {
  }

  /** A square image keeps the vertical aperture equal to the horizontal one. */
  lemma ConformSquare(camera: Camera, side: real)
    requires side != 0.0
    ensures ConformVerticalAperture(camera, Resolution(side, side))
         == Success(camera.(verticalAperture := camera.horizontalAperture))
  {
    ConformedApertureCharacterised(camera, Resolution(side, side), camera.horizontalAperture);
  }

  /**
    The fixed Z-up to Y-up correction: the rotation by -90 degrees about the X
    axis, in Gf's row-vector layout. As a rotation about X it leaves the X axis
    where it is, and its transpose undoes it.
   */
  function ZUpCorrection(): (r: Mat4)
    ensures Transform([1.0, 0.0, 0.0, 0.0], r) == [1.0, 0.0, 0.0, 0.0]
    ensures IsInverse(Transpose(r), r)
  {
    var r: Mat4 :=
      [[1.0, 0.0,  0.0, 0.0],
       [0.0, 0.0, -1.0, 0.0],
       [0.0, 1.0,  0.0, 0.0],
       [0.0, 0.0,  0.0, 1.0]];
    EqualByEntries(Mul(Transpose(r), r), Identity());
    EqualByEntries(Mul(r, Transpose(r)), Identity());
    r
  }

  /**
    The correction turns by -90 degrees about X: it sends Y to -Z and Z to Y,
    and keeps X and the homogeneous W axis.
   */
  lemma ZUpCorrectionIsRotation()
    ensures Transform([1.0, 0.0, 0.0, 0.0], ZUpCorrection()) == [1.0, 0.0, 0.0, 0.0]
    ensures Transform([0.0, 1.0, 0.0, 0.0], ZUpCorrection()) == [0.0, 0.0, -1.0, 0.0]
    ensures Transform([0.0, 0.0, 1.0, 0.0], ZUpCorrection()) == [0.0, 1.0, 0.0, 0.0]
    ensures Transform([0.0, 0.0, 0.0, 1.0], ZUpCorrection()) == [0.0, 0.0, 0.0, 1.0]
    ensures IsInverse(Transpose(ZUpCorrection()), ZUpCorrection())
  {
  }

  /**
    The camera-to-world transform. On a Z-up stage the local-to-world matrix is
    right-multiplied by the correction, so a camera-space point is carried to
    world space by local-to-world first and then turned by the correction.
   */
  function CameraToWorld(localToWorld: Mat4, upAxis: UpAxis): (r: Mat4)
    ensures upAxis == ZAxis ==>
              forall p: Vec4 :: Transform(p, r) == Transform(Transform(p, localToWorld), ZUpCorrection())
    ensures upAxis == YAxis ==> forall p: Vec4 :: Transform(p, r) == Transform(p, localToWorld)
  {
    var r := if upAxis == ZAxis then Mul(localToWorld, ZUpCorrection()) else localToWorld;
    forall p: Vec4 | upAxis == ZAxis
      ensures Transform(p, r) == Transform(Transform(p, localToWorld), ZUpCorrection())
    {
      TransformMul(p, localToWorld, ZUpCorrection());
    }
    r
  }

  /**
    `CameraInfo.from_usd_camera`. `projection` is the frustum's projection
    matrix and `worldToCamera` what `GetInverse` returns for the camera-to-world
    transform.
   */
  function FromUsdCamera(camera: Camera, upAxis: UpAxis, projection: Mat4, worldToCamera: Mat4): (info: CameraInfo)
    requires IsInverse(worldToCamera, CameraToWorld(camera.localToWorld, upAxis))
    ensures info.focalLength == camera.focalLength
    ensures info.horizontalAperture == camera.horizontalAperture
    ensures info.verticalAperture == camera.verticalAperture
    ensures info.nearClip == camera.clippingRange.0 && info.farClip == camera.clippingRange.1
    ensures HasMatrixShape(info)
    ensures Unflatten(info.projectionMatrix) == projection
    ensures upAxis == YAxis ==> IsInverse(Unflatten(info.worldToCamera), camera.localToWorld)
    ensures upAxis == ZAxis ==> IsInverse(Unflatten(info.worldToCamera), Mul(camera.localToWorld, ZUpCorrection()))
    ensures ComposedInOrder(info)
  {
    var worldToNdc := Mul(worldToCamera, projection);
    UnflattenFlatten(projection);
    UnflattenFlatten(worldToCamera);
    UnflattenFlatten(worldToNdc);
    CameraInfo(
      focalLength := camera.focalLength,
      nearClip := camera.clippingRange.0,
      farClip := camera.clippingRange.1,
      horizontalAperture := camera.horizontalAperture,
      verticalAperture := camera.verticalAperture,
      projectionMatrix := Flatten(projection),
      worldToCamera := Flatten(worldToCamera),
      worldToNdc := Flatten(worldToNdc))
  }

  /**
    Z-up and Y-up stages with the same camera differ in world-to-camera by
    exactly the fixed correction: the Z-up matrix is the transposed correction
    followed by the Y-up matrix's own inverse-of-pose.
   */
  lemma UpAxisChangesOnlyByCorrection(camera: Camera, projection: Mat4, yInverse: Mat4, zInverse: Mat4)
    requires IsInverse(yInverse, CameraToWorld(camera.localToWorld, YAxis))
    requires IsInverse(zInverse, CameraToWorld(camera.localToWorld, ZAxis))
    ensures Unflatten(FromUsdCamera(camera, ZAxis, projection, zInverse).worldToCamera)
         == Mul(Transpose(ZUpCorrection()), Unflatten(FromUsdCamera(camera, YAxis, projection, yInverse).worldToCamera))
  {
    var r := ZUpCorrection();
    var wz := Unflatten(FromUsdCamera(camera, ZAxis, projection, zInverse).worldToCamera);
    var wy := Unflatten(FromUsdCamera(camera, YAxis, projection, yInverse).worldToCamera);
    ZUpCorrectionIsRotation();
    InverseOfProduct(camera.localToWorld, wy, r, Transpose(r));
    InverseUnique(Mul(camera.localToWorld, r), wz, Mul(Transpose(r), wy));
  }

  /**
    A world point mapped by the captured world-to-NDC matrix lands where
    mapping it to camera space and then projecting it would.
   */
  lemma NdcIsCameraThenProjection(info: CameraInfo, p: Vec4)
    requires ComposedInOrder(info)
    ensures Transform(p, Unflatten(info.worldToNdc))
         == Transform(Transform(p, Unflatten(info.worldToCamera)), Unflatten(info.projectionMatrix))
  {
    TransformMul(p, Unflatten(info.worldToCamera), Unflatten(info.projectionMatrix));
  }

  /**
    A world point taken to camera space by the captured matrix and back to
    world space by the camera-to-world transform is the point itself.
   */
  lemma CameraSpaceRoundTrip(camera: Camera, upAxis: UpAxis, projection: Mat4, worldToCamera: Mat4, p: Vec4)
    requires IsInverse(worldToCamera, CameraToWorld(camera.localToWorld, upAxis))
    ensures Transform(Transform(p, Unflatten(FromUsdCamera(camera, upAxis, projection, worldToCamera).worldToCamera)),
                      CameraToWorld(camera.localToWorld, upAxis)) == p
  {
    var w2c := Unflatten(FromUsdCamera(camera, upAxis, projection, worldToCamera).worldToCamera);
    TransformMul(p, w2c, CameraToWorld(camera.localToWorld, upAxis));
    TransformIdentity(p);
  }

  /**
    Conforming and then capturing yields a record that satisfies the aspect
    relation, and conformance leaves the extrinsics it captures untouched.
   */
  lemma ConformedCaptureKeepsAspect(camera: Camera, resolution: Resolution, upAxis: UpAxis,
                                    projection: Mat4, worldToCamera: Mat4)
    requires IsInverse(worldToCamera, CameraToWorld(camera.localToWorld, upAxis))
    requires ConformVerticalAperture(camera, resolution).Success?
    ensures var info := FromUsdCamera(ConformVerticalAperture(camera, resolution).value, upAxis, projection, worldToCamera);
      && info.verticalAperture * resolution.width == info.horizontalAperture * resolution.height
      && info.worldToCamera == FromUsdCamera(camera, upAxis, projection, worldToCamera).worldToCamera
  {
  }
}
