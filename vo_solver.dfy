/** The monocular visual-odometry solver: per-frame state, the acceptance heuristic
    for a new relative motion, and pose accumulation. The OpenCV calls it makes are the
    fields of a `Vision` value given to the constructor, so the model holds for every
    behaviour they may have. */
module VoSolver {
  import opened Wrappers
  import opened LinAlg
  import opened Matching

  /** An image as the caller hands it over; only the OpenCV backend reads its pixels. */
  type Frame = seq<seq<bv8>>

  /** What `detectAndCompute` returns: keypoints and their descriptors. */
  datatype Features = Features(keypoints: seq<Point2>, descriptors: seq<Descriptor>)

  /** What `findEssentialMat` returns: the essential matrix and its RANSAC inlier mask. */
  datatype EssentialFit = EssentialFit(e: Mat3, mask: seq<bool>)

  /** What `recoverPose` returns: the inlier count, the rotation, the unit translation,
      the refined mask and the triangulated points (a 4xN matrix, held as its columns). */
  datatype RecoveredPose = RecoveredPose(inliers: int, r: Mat3, t: Vec3, mask: seq<bool>, triangulated: seq<Vec4>)

  /** The OpenCV and numpy work the solver delegates. Each may be any function of its
      inputs; the ones that can raise return a Result. */
  datatype Vision = Vision(
    detectAndCompute: Frame -> Features,                                       // ORB, 3500 features
    knnMatch: (seq<Descriptor>, seq<Descriptor>) -> Result<seq<seq<DMatch>>>,   // FLANN LSH, k = 2
    findEssentialMat: (seq<Point2>, seq<Point2>, Mat3) -> Result<EssentialFit>, // RANSAC, prob 0.9999, threshold 1.0
    recoverPose: (EssentialFit, seq<Point2>, seq<Point2>, Mat3) -> Result<RecoveredPose>, // distanceThresh 500
    meanDistanceRatio: (seq<Vec3>, seq<Vec3>, seq<real>) -> real)              // division, norms and mean

  /** Below this many matched points the keypoints of the held frame are detected again. */
  const FeatLimit: nat := 2000

  /** The `preferred` value that accepts every new motion. */
  const AnyAxis: int := -1

  /** A new motion on the preferred axis is accepted only with a scale above this. */
  const MinScale: real := 0.1

  /** `max(abs(v))` */
  function MaxAbs(v: Vec3): (m: real)
    ensures forall i :: 0 <= i < 3 ==> Abs(v[i]) <= m
    ensures exists i :: 0 <= i < 3 && Abs(v[i]) == m
  {
    var m01 := if Abs(v[0]) >= Abs(v[1]) then Abs(v[0]) else Abs(v[1]);
    if m01 >= Abs(v[2]) then m01 else Abs(v[2])
  }

  /** The condition under which a recovered translation `ft` and its scale replace the
      held motion: `preferred == -1 or (|ft[preferred]| == max |ft| and scale > 0.1)`,
      raising IndexError when `ft[preferred]` has to be evaluated and is out of range. */
  function Accepts(ft: Vec3, preferred: int, scale: real): (r: Result<bool>)
    ensures preferred == AnyAxis ==> r == Success(true)
    ensures r.Failure? ==> r.error == IndexError
    ensures r == Success(true) && preferred != AnyAxis ==> scale > MinScale
  {
    if preferred == AnyAxis then Success(true)
    else
      match PyIndex(preferred, 3)
      case None => Failure(IndexError)
      case Some(p) => Success(Abs(ft[p]) == MaxAbs(ft) && scale > MinScale)
  }

  /** The acceptance condition in plain terms: with the axis selector disabled every motion
      is accepted whatever its scale; otherwise exactly the motions whose preferred component
      dominates in magnitude and whose scale exceeds the threshold; it raises only for a
      selector that is neither -1 nor a valid subscript of a 3-vector. */
  lemma AcceptsExactly(ft: Vec3, preferred: int, scale: real)
    ensures Accepts(ft, preferred, scale).Failure? <==> preferred != AnyAxis && !(-3 <= preferred < 3)
    ensures Accepts(ft, preferred, scale) == Success(true) <==>
      || preferred == AnyAxis
      || (&& -3 <= preferred < 3
          && scale > MinScale
          && var p := if preferred < 0 then preferred + 3 else preferred;
             forall i :: 0 <= i < 3 ==> Abs(ft[i]) <= Abs(ft[p]))
  {
    if preferred != AnyAxis && -3 <= preferred < 3 {
      var p := if preferred < 0 then preferred + 3 else preferred;
      assert PyIndex(preferred, 3) == Some(p);
      if forall i :: 0 <= i < 3 ==> Abs(ft[i]) <= Abs(ft[p]) {
        var j :| 0 <= j < 3 && Abs(ft[j]) == MaxAbs(ft);
        assert Abs(ft[j]) <= Abs(ft[p]);
      }
    }
  }

  class Solver {
    const calib: Mat3
    const preferred: int
    const vision: Vision
    /** `origin`, the homogeneous origin that callers map through the pose. */
    const origin: Vec4

    var frame0: Frame
    var frame1: Frame
    var kpoints0: Features
    var kpoints1: Features
    var points0: seq<Point2>
    var points1: seq<Point2>
    var R: Mat3
    var t: Vec3
    var triangulated: seq<Vec4>
    var curPose: Mat4

    /** Whether the held motion and pose have been assigned by `Setup`; before that the
        source's fields are still None. */
    ghost var tracking: bool
    /** The pose `Setup` started from, and the transform composed onto it at each step since. */
    ghost var start: Mat4
    ghost var history: seq<Mat4>

    /** Once tracking, the held pose is the start pose with every step composed on in order. */
    ghost predicate Valid()
      reads this
    {
      tracking ==> curPose == Accumulate(start, history)
    }

    constructor (cameraCalib: Mat3, preferredAxis: int, backend: Vision)
      ensures calib == cameraCalib && preferred == preferredAxis && vision == backend
      ensures origin == [0.0, 0.0, 0.0, 1.0]
      ensures !tracking && Valid()
    {
      calib, preferred, vision := cameraCalib, preferredAxis, backend;
      origin := BottomRow;
      frame0, frame1 := [], [];
      kpoints0, kpoints1 := Features([], []), Features([], []);
      points0, points1 := [], [];
      R, t := [Zero3, Zero3, Zero3], Zero3;
      triangulated := [];
      curPose := Identity4;
      tracking := false;
      start, history := Identity4, [];
    }

    /** The correspondences the tracker yields for two keypoint sets. */
    function Matches(features0: Features, features1: Features): Result<Correspondences> {
      Track(vision.knnMatch(features0.descriptors, features1.descriptors), features0.keypoints, features1.keypoints)
    }

    /** `__compute_essential_matrix` then `__recover_pose`: the newer frame's points go first
        to both calls, and the first failure is the result. */
    function Recover(c: Correspondences): (r: Result<RecoveredPose>)
      ensures vision.findEssentialMat(c.p1, c.p0, calib).Failure? ==>
                r == Failure(vision.findEssentialMat(c.p1, c.p0, calib).error)
      ensures vision.findEssentialMat(c.p1, c.p0, calib).Success? ==>
                r == vision.recoverPose(vision.findEssentialMat(c.p1, c.p0, calib).value, c.p1, c.p0, calib)
    {
      match vision.findEssentialMat(c.p1, c.p0, calib)
      case Failure(e) => Failure(e)
      case Success(fit) => vision.recoverPose(fit, c.p1, c.p0, calib)
    }

    /** The ratio-test tracker: `RatioTest`, then both keypoints of every kept match are
        looked up. */
    method Tracker(features0: Features, features1: Features) returns (r: Result<Correspondences>)
      ensures r == Matches(features0, features1)
    {
      var matches := vision.knnMatch(features0.descriptors, features1.descriptors);
      if matches.Failure? {
        return Failure(matches.error);
      }
      var good := RatioTest(matches.value);
      if good.Failure? {
        return Failure(good.error);
      }
      var p0 := Gather(features0.keypoints, QueryIndices(good.value));
      if p0.Failure? {
        return Failure(p0.error);
      }
      var p1 := Gather(features1.keypoints, TrainIndices(good.value));
      if p1.Failure? {
        return Failure(p1.error);
      }
      r := Success(Correspondences(p0.value, p1.value));
    }

    /** The homogeneous transform of the held motion, filled in place from the identity. */
    method GetT() returns (T: Mat4)
      ensures T == Homogeneous(R, t)
    {
      var a := new real[4, 4]((i, j) => if i == j then 1.0 else 0.0);
      for i := 0 to 3
        invariant forall p, q :: 0 <= p < 4 && 0 <= q < 4 ==>
          a[p, q] == if p < i && q < 3 then R[p][q] else if p == q then 1.0 else 0.0
      {
        a[i, 0], a[i, 1], a[i, 2] := R[i][0], R[i][1], R[i][2];
      }
      for i := 0 to 3
        invariant forall p, q :: 0 <= p < 4 && 0 <= q < 4 ==>
          a[p, q] == if p < 3 && q < 3 then R[p][q] else if p < i && q == 3 then t[p] else if p == q then 1.0 else 0.0
      {
        a[i, 3] := t[i];
      }
      T := seq(4, p requires 0 <= p < 4 reads a => seq(4, q requires 0 <= q < 4 reads a => a[p, q]));
      forall p | 0 <= p < 4
        ensures T[p] == Homogeneous(R, t)[p]
      {
      }
    }

    /** The scale estimate from triangulated points: they are mapped by the held motion, both
        sets are divided by the homogeneous row, and the mean ratio of consecutive distances
        is taken. The divisor is the unmapped points' own homogeneous row. */
    function Ratio(triangulated0: seq<Vec4>): (s: real)
      requires tracking
      reads this
      ensures s == vision.meanDistanceRatio(Euclidean(triangulated0),
                                            Euclidean(ApplyAll(Homogeneous(R, t), triangulated0)),
                                            HomogeneousRow(triangulated0))
    {
      var triangulated1 := ApplyAll(Homogeneous(R, t), triangulated0);
      ApplyKeepsHomogeneousRow(R, t, triangulated0);
      vision.meanDistanceRatio(Euclidean(triangulated0), Euclidean(triangulated1), HomogeneousRow(triangulated1))
    }

    /** `get_pose`: the held pose composed once more with the held motion. */
    function Pose(): (p: Mat4)
      requires tracking
      reads this
      ensures curPose[3] == BottomRow ==> p[3] == BottomRow
    {
      ComposeKeepsBottomRow(curPose, R, t);
      MatMul4(curPose, Homogeneous(R, t))
    }

    /** The held pose is the start pose times the product of every step composed since. */
    lemma PoseIsProduct()
      requires tracking && Valid()
      ensures curPose == MatMul4(start, Product(history))
    {
      AccumulateIsProduct(start, history);
    }

    /** The steps `setup` and `run_frame` share: `frame` becomes the newer frame, its
        keypoints are detected and tracked against the held ones, and the relative motion
        is recovered from the correspondences. The points are left as they were when the
        tracker raises. */
    method Observe(frame: Frame) returns (r: Result<RecoveredPose>)
      modifies this`frame1, this`kpoints1, this`points0, this`points1
      ensures frame1 == frame && kpoints1 == vision.detectAndCompute(frame)
      ensures match Matches(kpoints0, kpoints1)
        case Failure(e) => r == Failure(e) && points0 == old(points0) && points1 == old(points1)
        case Success(c) => r == Recover(c) && points0 == c.p0 && points1 == c.p1
    {
      frame1 := frame;
      kpoints1 := vision.detectAndCompute(frame1);
      var matched := Tracker(kpoints0, kpoints1);
      if matched.Failure? {
        return Failure(matched.error);
      }
      points0, points1 := matched.value.p0, matched.value.p1;
      var fit := vision.findEssentialMat(points1, points0, calib);
      if fit.Failure? {
        return Failure(fit.error);
      }
      r := vision.recoverPose(fit.value, points1, points0, calib);
    }

    /** `self.cur_pose = self.get_pose()`; the step composed on is recorded in the history. */
    method AdvancePose()
      requires tracking && Valid()
      modifies this`curPose, this`history
      ensures curPose == old(Pose())
      ensures history == old(history) + [Homogeneous(R, t)]
      ensures Valid()
    {
      var T := GetT();
      AccumulateSplit(start, history, [T]);
      curPose := MatMul4(curPose, T);
      history := history + [T];
    }

    /** The part of `setup` after the first relative motion `rp` is recovered: it becomes
        the held motion, the newer frame and its points become the held ones, and the pose
        is the initial pose composed with the motion. */
    method Begin(rp: RecoveredPose, initialPose: Mat4)
      modifies this`R, this`t, this`triangulated, this`points0, this`frame0, this`curPose
      modifies this`tracking, this`start, this`history
      ensures R == rp.r && t == rp.t && triangulated == rp.triangulated
      ensures points0 == points1 && frame0 == frame1
      ensures curPose == MatMul4(initialPose, Homogeneous(rp.r, rp.t))
      ensures initialPose[3] == BottomRow ==> curPose[3] == BottomRow
      ensures tracking && Valid() && start == initialPose && history == [Homogeneous(rp.r, rp.t)]
    {
      R, t, triangulated := rp.r, rp.t, rp.triangulated;
      points0 := points1;
      frame0 := frame1;
      StartAt(initialPose);
      ComposeKeepsBottomRow(initialPose, rp.r, rp.t);
      assert Pose() == MatMul4(initialPose, Homogeneous(rp.r, rp.t));
      AdvancePose();
    }

    /** The pose before the first step is composed on: `initial_pose`, with nothing composed yet. */
    method StartAt(initialPose: Mat4)
      modifies this`curPose, this`tracking, this`start, this`history
      ensures curPose == initialPose && tracking && start == initialPose && history == []
      ensures Valid()
    {
      curPose := initialPose;
      tracking, start, history := true, initialPose, [];
    }

    /** Starts a sequence from its first two frames and the first frame's pose. */
    method Setup(first: Frame, second: Frame, initialPose: Mat4) returns (out: Outcome)
      requires Valid()
      modifies this
      ensures Valid()
      ensures frame1 == second
      ensures kpoints0 == vision.detectAndCompute(first) && kpoints1 == vision.detectAndCompute(second)
      ensures match Matches(kpoints0, kpoints1)
        case Failure(e) =>
          && out == Fail(e) && frame0 == first && tracking == old(tracking) && history == old(history)
          && points0 == old(points0) && points1 == old(points1)
          && R == old(R) && t == old(t) && triangulated == old(triangulated) && curPose == old(curPose)
        case Success(c) =>
          match Recover(c)
          case Failure(e) =>
            && out == Fail(e) && frame0 == first && tracking == old(tracking) && history == old(history)
            && points0 == c.p0 && points1 == c.p1
            && R == old(R) && t == old(t) && triangulated == old(triangulated) && curPose == old(curPose)
          case Success(rp) =>
            && out == Pass && tracking
            && frame0 == second
            && points0 == c.p1 && points1 == c.p1
            && R == rp.r && t == rp.t && triangulated == rp.triangulated
            && curPose == MatMul4(initialPose, Homogeneous(rp.r, rp.t))
            && (initialPose[3] == BottomRow ==> curPose[3] == BottomRow)
            && start == initialPose && history == [Homogeneous(rp.r, rp.t)]
    {
      frame0 := first;
      kpoints0 := vision.detectAndCompute(first);
      var recovered := Observe(second);
      ghost var matched := Matches(kpoints0, kpoints1);
      assert matched.Success? ==> recovered == Recover(matched.value) && points1 == matched.value.p1;
      if recovered.Failure? {
        return Fail(recovered.error);
      }
      Begin(recovered.value, initialPose);
      out := Pass;
    }

    /** The part of `run_frame` after the relative motion `rp` is recovered: the scale is
        resolved (`scale`, or the triangulated-point ratio under the held motion when absent),
        the held motion is replaced only when `Accepts` says so, the held motion is composed
        into the pose whether or not it was replaced, and the newer frame becomes the held
        one, with its keypoints detected again when too few points were matched. */
    method Adopt(rp: RecoveredPose, scale: Option<real>) returns (out: Outcome)
      requires tracking && Valid()
      modifies this`triangulated, this`R, this`t, this`curPose, this`kpoints0, this`frame0, this`history
      ensures Valid()
      ensures triangulated == rp.triangulated
      ensures var s := if scale.Some? then scale.value else old(Ratio(rp.triangulated));
        match Accepts(rp.t, preferred, s)
        case Failure(e) =>
          && out == Fail(e)
          && R == old(R) && t == old(t) && curPose == old(curPose) && history == old(history)
          && frame0 == old(frame0) && kpoints0 == old(kpoints0)
        case Success(accepted) =>
          && out == Pass
          && history == old(history) + [Homogeneous(R, t)]
          && (accepted ==> R == rp.r && t == Scale3(s, rp.t))
          && (!accepted ==> R == old(R) && t == old(t))
          && curPose == MatMul4(old(curPose), Homogeneous(R, t))
          && (old(curPose)[3] == BottomRow ==> curPose[3] == BottomRow)
          && frame0 == frame1
          && kpoints0 == if |points1| < FeatLimit then vision.detectAndCompute(frame1) else kpoints1
    {
      var s := if scale.Some? then scale.value else Ratio(rp.triangulated);
      triangulated := rp.triangulated;
      var accepted := Accepts(rp.t, preferred, s);
      if accepted.Failure? {
        return Fail(accepted.error);
      }
      if accepted.value {
        t := Scale3(s, rp.t);
        R := rp.r;
      }
      AdvancePose();
      kpoints0 := kpoints1;
      frame0 := frame1;
      if |points1| < FeatLimit {
        kpoints0 := vision.detectAndCompute(frame0);
      }
      out := Pass;
    }

    /** Processes the next frame: tracks it against the held frame, recovers the relative
        motion and adopts it. */
    method RunFrame(frame: Frame, scale: Option<real>) returns (out: Outcome)
      requires tracking && Valid()
      modifies this
      ensures tracking && Valid() && start == old(start)
      ensures frame1 == frame && kpoints1 == vision.detectAndCompute(frame)
      ensures out == Pass ==> kpoints0 == kpoints1
      ensures match Matches(old(kpoints0), kpoints1)
        case Failure(e) =>
          && out == Fail(e)
          && points0 == old(points0) && points1 == old(points1) && triangulated == old(triangulated)
          && R == old(R) && t == old(t) && curPose == old(curPose) && history == old(history)
          && frame0 == old(frame0) && kpoints0 == old(kpoints0)
        case Success(c) =>
          && points0 == c.p0 && points1 == c.p1
          && match Recover(c)
             case Failure(e) =>
               && out == Fail(e) && triangulated == old(triangulated)
               && R == old(R) && t == old(t) && curPose == old(curPose) && history == old(history)
               && frame0 == old(frame0) && kpoints0 == old(kpoints0)
             case Success(rp) =>
               && triangulated == rp.triangulated
               && var s := if scale.Some? then scale.value else old(Ratio(rp.triangulated));
                  match Accepts(rp.t, preferred, s)
                  case Failure(e) =>
                    && out == Fail(e)
                    && R == old(R) && t == old(t) && curPose == old(curPose) && history == old(history)
                    && frame0 == old(frame0) && kpoints0 == old(kpoints0)
                  case Success(accepted) =>
                    && out == Pass
                    && history == old(history) + [Homogeneous(R, t)]
                    && (accepted ==> R == rp.r && t == Scale3(s, rp.t))
                    && (!accepted ==> R == old(R) && t == old(t))
                    && curPose == MatMul4(old(curPose), Homogeneous(R, t))
                    && (old(curPose)[3] == BottomRow ==> curPose[3] == BottomRow)
                    && frame0 == frame
                    && kpoints0 == if |c.p1| < FeatLimit then vision.detectAndCompute(frame) else kpoints1
    {
      var recovered := Observe(frame);
      if recovered.Failure? {
        return Fail(recovered.error);
      }
      out := Adopt(recovered.value, scale);
    }
  }
}
