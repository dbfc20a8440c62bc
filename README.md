# VOsolver in Dafny

A model of the monocular visual-odometry solver `VOsolver` (`src/vo_solver.py`). The solver
holds two frames, their ORB keypoints, the matched image points, the last accepted relative
motion (`R`, `t`), the triangulated points and the accumulated camera pose. For each new frame
it:

- matches the frame's descriptors against the held frame's with a k = 2 nearest-neighbour
  search and Lowe's ratio test;
- recovers a relative motion from the essential matrix;
- decides whether that motion replaces the held one;
- composes the held motion into the pose;
- makes the new frame the held one.

The model is in four files:

- `wrappers.dfy` (module `Wrappers`): the exceptions the Python code can raise, `Result`
  and `Outcome` values carrying them, and Python's sequence subscript (`PyIndex`). Negative
  subscripts count from the end and out-of-range ones raise `IndexError`.
- `linalg.dfy` (module `LinAlg`): 3-vectors, 4-vectors, 3x3 and 4x4 matrices over exact
  reals, numpy's `@`, the homogeneous transform `Homogeneous(R, t)`, and the facts the solver
  relies on. These facts are: the block structure of the transform, that it keeps the
  homogeneous row of the points it maps, how two transforms compose, associativity, and that
  frame-by-frame composition equals one product.
- `matching.dfy` (module `Matching`): the ratio test (`Kept`), the tracker's loop that
  computes it (`RatioTest`) and the aligned point lists (`Track`). They are proved to keep
  exactly the rows that pass, in row order, and to raise exactly in the cases Python raises.
- `vo_solver.dfy` (module `VoSolver`): the acceptance condition (`Accepts`) and the class
  `Solver`. The class has the source's data fields (the calibration, the preferred axis,
  the constant `origin` of line 14, the frames, keypoints, points, `R`, `t`, `triangulated`
  and `cur_pose`) and its methods. The methods update the fields in place and state the
  whole new state, including the state left behind when a step raises. Two ghost fields
  record what the pose is built from: `start`, the pose `setup` was given, and `history`,
  every transform composed onto it since. `Valid()` says that the held pose is `start` with
  `history` composed on in order. `Setup` establishes it and `RunFrame` keeps it.

The OpenCV calls are not modelled. `detectAndCompute`, `knnMatch`, `findEssentialMat` and
`recoverPose` are fields of a `Vision` value given to the constructor. So are the norms and the
mean of the scale estimate (`meanDistanceRatio`). Each may be any function of its inputs, and
the ones that can raise return a `Result`. Every property proved here therefore holds for every
behaviour of the library.

Behaviour of the code that the model keeps as written:

- A k-nearest-neighbour row with fewer than two matches makes `for m, n in matches` raise
  `ValueError`. The tracker is not robust to it, and `Solver.Tracker` fails with `ValueError`.
- `__compute_ratio` is called with the NEW triangulated points and the motion held BEFORE this
  frame (`R`, `t` are reassigned only afterwards). `Solver.Ratio` is stated that way.
- `get_pose` does not return the current pose. It returns `cur_pose @ T(R, t)`, one more step
  composed on. `Solver.Pose` says so.
- `setup` makes `frame0` and `points0` the second frame's, but `kpoints0` stays the first
  frame's keypoints. The first `run_frame` therefore matches frame 0's features against frame 2.
- The scale ratio is computed whenever `scale` is absent, even when the motion is then
  rejected.
- When fewer than 2000 points were matched, `run_frame` calls the detector again on
  `frame0`. By then `frame0` is the frame just detected, so the detector, a function of the
  frame, returns the same keypoints. After every successful frame `kpoints0 == kpoints1`.

## Model

| member | source | states |
|---|---|---|
| `Wrappers.PyIndex` | src/vo_solver.py:117-118 | A Python subscript `xs[i]` succeeds exactly for `-len <= i < len` and selects element `i`, or `i + len` for a negative `i`. Otherwise it raises `IndexError`. |
| `LinAlg.Homogeneous` | src/vo_solver.py:72-76 | The transform built from `R` and `t` has `R` as its upper-left 3x3 block, `t` as the first three entries of its last column, and `[0, 0, 0, 1]` as its bottom row. |
| `LinAlg.ApplyKeepsHomogeneousRow` | src/vo_solver.py:79-81 | Mapping 4xN homogeneous points by `T(R, t)` leaves their fourth row unchanged. So dividing both point sets by `triangulated1[3]` divides each by its own homogeneous row. |
| `LinAlg.ComposeHomogeneous` | src/vo_solver.py:69-76 | `T(R1, t1) @ T(R2, t2) == T(R1 R2, R1 t2 + t1)`: the product of two homogeneous transforms with bottom row `[0, 0, 0, 1]` is again such a transform, with the composed rotation block and translation. |
| `LinAlg.ComposeKeepsBottomRow` | src/vo_solver.py:69-71 | A pose whose last row is `[0, 0, 0, 1]` keeps that row after `get_pose` composes a transform onto it. |
| `LinAlg.MatMul4Associative` | src/vo_solver.py:71 | The 4x4 matrix product is associative. |
| `LinAlg.AccumulateIsProduct` | src/vo_solver.py:62 | Composing the per-frame transforms onto a pose one frame at a time equals the initial pose times the product of all the transforms. |
| `LinAlg.AccumulateSplit` | src/vo_solver.py:62 | Processing frames in two runs gives the same pose as processing them in one run. |
| `LinAlg.ScaledSquaredNorm` | src/vo_solver.py:59 | `t = scale * ft` has squared length `scale^2` times that of `ft`. |
| `Matching.Kept` | src/vo_solver.py:112-115 | The `good` list has at most one entry per row, and every entry is the best match of some row. |
| `Matching.RatioTest` | src/vo_solver.py:112-115 | The loop over the matcher's rows returns exactly `Kept` of the rows when every row unpacks into two matches, and raises `ValueError` otherwise. |
| `Matching.KeptExactly` | src/vo_solver.py:112-115 | The `good` list holds a row's best match exactly when `best.distance < 0.5 * second.distance`. It holds one entry per kept row, in row order. |
| `Matching.TiesKeepNothing` | src/vo_solver.py:112-115 | Rows whose two candidates are equally distant keep nothing. |
| `Matching.Gather` | src/vo_solver.py:117-118 | The list comprehension over `good` succeeds exactly when every index is a valid Python subscript of the keypoints. On success it has one point per index, the subscripted keypoint. |
| `Matching.Track` | src/vo_solver.py:97-120 | The tracker passes on the matcher's error. When it succeeds, every row unpacked into two matches and both point lists have one entry per kept row. |
| `Matching.TrackAligned` | src/vo_solver.py:117-120 | On success `p0` and `p1` have equal length, equal to the number of kept rows. Entry k of `p0` is the query keypoint and entry k of `p1` the train keypoint of the k-th kept row's best match. |
| `Matching.TrackFailsExactly` | src/vo_solver.py:111-118 | The tracker raises exactly when the matcher raises, some row does not unpack into two matches, or a kept match's index is out of range. |
| `VoSolver.MaxAbs` | src/vo_solver.py:58 | `max(abs(ft[:, 0]))` bounds every component's magnitude and is attained by one of them. |
| `VoSolver.Accepts` | src/vo_solver.py:58 | With `preferred == -1` the motion is accepted. The only exception is `IndexError`. Accepting with another `preferred` needs `scale > 0.1`. |
| `VoSolver.AcceptsExactly` | src/vo_solver.py:58 | The motion is accepted exactly when `preferred == -1`, or when `preferred` is a valid subscript whose component has the largest magnitude and `scale > 0.1`. With `preferred == -1` it is accepted whatever the scale. It raises `IndexError` exactly when `preferred` is neither -1 nor a valid subscript. |
| `VoSolver.Solver.constructor` | src/vo_solver.py:5-25 | Stores the calibration, the preferred axis and the vision backend, and sets `origin` to `[0, 0, 0, 1]`. No sequence has been set up yet. |
| `VoSolver.Solver.Recover` | src/vo_solver.py:87-95 | The essential matrix is estimated from the newer frame's points first. Its error is the result when it raises, otherwise the result is `recoverPose` of it with the same argument order. |
| `VoSolver.Solver.Tracker` | src/vo_solver.py:97-120 | The tracker returns exactly `Track` of the matcher's answer, so every `Matching` lemma applies to it. |
| `VoSolver.Solver.GetT` | src/vo_solver.py:72-76 | Filling `np.eye(4)` in place with `R` and `t` yields `Homogeneous(R, t)`. |
| `VoSolver.Solver.Ratio` | src/vo_solver.py:77-85 | The scale estimate maps the points by the held motion. It divides both point sets by the unmapped points' own homogeneous row. |
| `VoSolver.Solver.Pose` | src/vo_solver.py:69-71 | Once `R` and `t` are set, `get_pose` keeps the bottom row `[0, 0, 0, 1]` of a pose that has it. |
| `VoSolver.Solver.PoseIsProduct` | src/vo_solver.py:62 | The held pose equals the start pose times the product of every transform composed since `setup`. |
| `VoSolver.Solver.Observe` | src/vo_solver.py:47-53 | The newer frame and its keypoints are stored and the points are those the tracker returns. The result is the recovered motion or OpenCV's error. When the tracker raises, the result is its error and the points are left as they were. |
| `VoSolver.Solver.AdvancePose` | src/vo_solver.py:62 | `cur_pose` becomes the old `get_pose()`. The transform is appended to the history and the pose stays the start pose with the history composed on. |
| `VoSolver.Solver.Begin` | src/vo_solver.py:38-43 | After the first motion is recovered, it becomes `R`, `t`. `points0 = points1`, `frame0 = frame1`, and `cur_pose = initial_pose @ T(R, t)`. The history starts at `initial_pose` with that one transform. |
| `VoSolver.Solver.Setup` | src/vo_solver.py:27-43 | On success both frames' keypoints are detected, and `frame0`, `points0` are the second frame's while `kpoints0` stays the first frame's. The held motion is the recovered one and `cur_pose = initial_pose @ T(R, t)`. The history is that one transform from `initial_pose`. On each failure it lists exactly which fields had already been assigned. The pose invariant holds on every path. |
| `VoSolver.Solver.Adopt` | src/vo_solver.py:54-67 | `triangulated` is the new points. On acceptance `t = scale * ft` and `R = fR`; on rejection `R` and `t` are kept. The pose is always composed. `frame0` becomes the new frame, and `kpoints0` its keypoints, detected again when fewer than 2000 points matched. The transform composed is appended to the history. When the acceptance test raises, only `triangulated` has changed. |
| `VoSolver.Solver.RunFrame` | src/vo_solver.py:45-67 | The whole new state after a frame is a function of the old state and the backend's answers: the tracker, essential-matrix and acceptance outcomes. Every field the source leaves untouched before an exception is unchanged. A successful frame appends the composed transform to the history, keeps the pose invariant and leaves `kpoints0 == kpoints1`. |

## Left out

- The OpenCV calls (ORB detection with 3500 features, FLANN LSH matching, RANSAC
  `findEssentialMat`, `recoverPose` with cheirality checks and triangulation) are opaque
  functions of the `Vision` value. Their parameters (FLANN index and search parameters,
  probability 0.9999, threshold 1.0, distance threshold 500) belong to that backend.
- The Euclidean norms, the division and `np.mean` in `__compute_ratio` are the opaque
  `meanDistanceRatio`. Only the homogeneous-row fact about its inputs is modelled.
- Floating point: all arithmetic is exact over `real`. NaN, infinities, numpy's division
  warnings and rounding of the 0.1 threshold and of the `==` comparison on line 58 are not
  modelled.
- The unused outputs of OpenCV (the essential-matrix mask after it is passed on, `good`, the
  flattened `P_mask`) and the unused `frame0`/`frame1` arguments of `__tracker` are not
  modelled.
- `VoSolver.Solver.RunFrame`, `VoSolver.Solver.Pose` and `VoSolver.Solver.Ratio` require
  that a `Setup` has succeeded. Their failures before that are not modelled. Before any
  `setup`, `kpoints0` is `None` and `run_frame` raises `TypeError` when it unpacks it at
  line 108. After a first `setup` that raised, `R`, `t` and `cur_pose` were never assigned.
  `run_frame` then raises in `__get_T` (lines 74-75) or in `get_pose` at line 71, where
  `cur_pose` does not exist (`AttributeError`).
- Rotation matrices are not constrained to be orthonormal, and nothing depends on it.
- `src/main.py` (directory listing, image loading, frame-rate timing, ground-truth scale) and
  `src/vo_visualizer.py` (drawing and windows) are outside the solver core. `vo_utils` (the
  star import) is not part of this model.
