# Camera-geometry resolver of the render server, in Dafny

This project models the camera utilities of the render-server extension
(`camera_utils.py`). Three parts are modelled:

- **Aperture conformance** (`conform_camera_vertical_aperture`). It overwrites
  a camera's vertical aperture with `horizontal / (width / height)`.
- **Row-major flattening** (`CameraInfo.gf_matrix_to_tuple`). It turns a 4x4
  matrix into a 16-value tuple, row by row.
- **Camera capture** (`CameraInfo.from_usd_camera`). It builds a `CameraInfo`
  dataclass. The dataclass is not frozen, but nothing mutates it after
  construction, so the model represents it as an immutable datatype. The
  capture works as follows:
  - it takes the local-to-world transform;
  - on a Z-up stage it right-multiplies it by a fixed -90 degree rotation
    about X;
  - it inverts the result to get world-to-camera;
  - it composes world-to-NDC as world-to-camera times the projection matrix;
  - it copies the intrinsics (focal length, both apertures, clipping range)
    verbatim.

Arithmetic is over exact `real`. Matrices are the `Mat4` subset type of
`seq<seq<real>>`, in the Gf convention: rows first, points as row vectors
(`v * M`). So in `A * B` the transform `A` acts first.

Files:

- `wrappers.dfy`: the `Result` type for operations that can raise.
- `matrix.dfy`: module `Matrix`. It holds the product, transpose, point
  transform, two-sided inverse predicate, flattening and unflattening, and the
  algebra lemmas the camera proofs use (associativity, identity, uniqueness of
  inverses, the inverse of a product).
- `camera_utils.dfy`: module `CameraUtils`. It holds the camera record, the
  conformance function, the fixed Z-up correction, the capture function and
  the lemmas about them.

The USD library supplies four things, and they enter as parameters rather
than as computations:

- the frustum's projection matrix (`ComputeProjectionMatrix`);
- the local-to-world transform (`ComputeLocalToWorldTransform`), as a field of
  the camera record;
- the stage up axis (`GetStageUpAxis`), as the two-valued `UpAxis`;
- the inverse (`GetInverse`), as a matrix argument. The capture function
  requires that it is the two-sided inverse of the camera-to-world transform.

Two facts about the code shape the model:

- The Z-up correction right-multiplies: `camera_to_world_matrix * R`
  (`camera_utils.py:67`). In Gf's row-vector convention this applies R after
  the local-to-world transform, in world space. `CameraUtils.CameraToWorld` is
  `Mul(localToWorld, ZUpCorrection())`, and its contract states this order
  point by point.
- Conformance raises Python's `ZeroDivisionError` in two places. It is raised
  at line 8 when the height is zero. It is raised at line 10 when the width is
  zero, because the aspect ratio is then zero and becomes the divisor.
  `CameraUtils.ConformVerticalAperture` returns `Failure(ZeroDivisionError)`
  in both cases.

## Model

| member | source | states |
|---|---|---|
| CameraUtils.ConformVerticalAperture | source/extensions/miris_render_server_ext/miris_render_server_ext/camera_utils.py:7-11 | Fails with ZeroDivisionError exactly when width or height is zero. Otherwise the new vertical aperture times the width equals the horizontal aperture times the height. It is the only field that changes: horizontal aperture, focal length, clipping range and transform are kept. |
| CameraUtils.ConformedApertureCharacterised | source/extensions/miris_render_server_ext/miris_render_server_ext/camera_utils.py:8-11 | For a nonzero resolution, conformance succeeds. A value `v` is the conformed vertical aperture if and only if `v * width == horizontal * height`, so the aspect relation pins the aperture down uniquely. |
| CameraUtils.ConformIdempotent | source/extensions/miris_render_server_ext/miris_render_server_ext/camera_utils.py:9-11 | Conforming the conformed camera again with the same resolution gives back the same camera. |
| CameraUtils.ConformIgnoresPriorVertical | source/extensions/miris_render_server_ext/miris_render_server_ext/camera_utils.py:9-11 | The result does not depend on the vertical aperture the camera held before. Only the horizontal aperture is read, and the old vertical value is overwritten. |
| CameraUtils.ConformSquare | source/extensions/miris_render_server_ext/miris_render_server_ext/camera_utils.py:8-10 | For a square nonzero resolution, the vertical aperture becomes equal to the horizontal one, and nothing else changes. |
| Matrix.FlattenRows | source/extensions/miris_render_server_ext/miris_render_server_ext/camera_utils.py:48-50 | Iterating four-wide rows and then the values in each row yields `4 * rows` values. Value `k` is entry `k % 4` of row `k / 4`. |
| Matrix.Flatten | source/extensions/miris_render_server_ext/miris_render_server_ext/camera_utils.py:47-50 | The tuple has exactly 16 values, and value `4*i + j` is the matrix entry in row `i`, column `j`. The layout is row-major, not column-major. |
| Matrix.UnflattenFlatten | source/extensions/miris_render_server_ext/miris_render_server_ext/camera_utils.py:47-50 | Rebuilding a matrix row-major from the flattened tuple recovers the original matrix. |
| Matrix.FlattenUnflatten | source/extensions/miris_render_server_ext/miris_render_server_ext/camera_utils.py:47-50 | Every 16-value tuple is the flattening of the matrix it describes row-major. |
| Matrix.FlattenInjective | source/extensions/miris_render_server_ext/miris_render_server_ext/camera_utils.py:47-50 | Two matrices with the same tuple are equal, so the tuple loses no information. |
| CameraUtils.ZUpCorrection | source/extensions/miris_render_server_ext/miris_render_server_ext/camera_utils.py:58-59 | The fixed correction R, the same on every call. As a rotation about X it leaves the X axis unchanged, and its transpose is its two-sided inverse. |
| CameraUtils.CameraToWorld | source/extensions/miris_render_server_ext/miris_render_server_ext/camera_utils.py:65-67 | On a Z-up stage, every camera-space point is carried by local-to-world first and then turned by the correction. On a Y-up stage, every point is carried by local-to-world alone. |
| CameraUtils.ZUpCorrectionIsRotation | source/extensions/miris_render_server_ext/miris_render_server_ext/camera_utils.py:57-59 | The fixed correction fixes the X axis, sends Y to -Z and Z to Y, as a -90 degree rotation about X does. Its transpose is its two-sided inverse. |
| CameraUtils.FromUsdCamera | source/extensions/miris_render_server_ext/miris_render_server_ext/camera_utils.py:52-80 | The record holds the focal length, both apertures and the near and far clip, copied verbatim. Each tuple holds 16 values, and the projection tuple unflattens to the projection matrix. World-to-camera is the inverse of local-to-world on a Y-up stage, and of local-to-world times the correction on a Z-up stage. World-to-NDC is world-to-camera times projection, in that order. |
| CameraUtils.UpAxisChangesOnlyByCorrection | source/extensions/miris_render_server_ext/miris_render_server_ext/camera_utils.py:62-68 | For the same camera, the world-to-camera matrix on a Z-up stage is the transposed correction times the world-to-camera matrix on a Y-up stage. They differ by exactly the fixed rotation. |
| CameraUtils.NdcIsCameraThenProjection | source/extensions/miris_render_server_ext/miris_render_server_ext/camera_utils.py:69 | A world point mapped by the captured world-to-NDC matrix lands where mapping it to camera space and then projecting it lands. |
| CameraUtils.CameraSpaceRoundTrip | source/extensions/miris_render_server_ext/miris_render_server_ext/camera_utils.py:65-68 | A world point taken to camera space by the captured matrix, and back by the camera-to-world transform, is unchanged. |
| CameraUtils.ConformedCaptureKeepsAspect | source/extensions/miris_render_server_ext/miris_render_server_ext/camera_utils.py:71-80 | Capturing a conformed camera yields a record whose vertical aperture times width equals its horizontal aperture times height. Its world-to-camera tuple is the same as without conformance. |

## Left out

- `service.py` as a whole. Its `open_stage` and `render` handlers are HTTP glue over the USD context and the replicator library. They create the camera and render product, register one trigger, attach a writer and run the orchestrator, with no logic of their own to state. `render` does not check for an active stage, does not check that artifacts exist, and does not build a `CameraInfo`.
- Forcing path-traced mode in `open_stage`. It is a side-effecting library call.
- The USD/Gf computations: the frustum projection matrix, the local-to-world transform, the stage up-axis lookup and the matrix inverse. They are parameters, not computations.
- CameraUtils.ZUpCorrection: written with exact entries 0 and ±1. The trigonometry inside `Gf.Rotation`/`SetRotate` and its rounding are not modelled.
- CameraUtils.FromUsdCamera: requires the supplied world-to-camera matrix to be the two-sided inverse of the camera-to-world transform. Gf's behaviour on a singular transform is not modelled.
- Floating-point rounding. With exact reals the aspect relation holds exactly; in Python it holds only up to rounding.
- Attribute get/set plumbing on USD prims. The camera is a plain immutable record, and the write of the conformed aperture is the returned new camera.
- Reading the transform at a time sample other than the default one. Only the default sample is read, so the model has no time parameter.
