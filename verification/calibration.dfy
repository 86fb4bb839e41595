/** What both calibration scripts do after collecting views: call the solver,
    recompute each view's reprojection error, average those errors, and build
    the record that is dumped to `calibration_matrix.yaml`. */
module Calibration {
  import opened Wrappers
  import opened Aggregation

  datatype Point2 = Point2(x: real, y: real)
  datatype Point3 = Point3(x: real, y: real, z: real)
  type Vector = seq<real>
  type Matrix = seq<seq<real>>

  /** The eight values `cv2.calibrateCameraExtended` returns. */
  datatype Solution = Solution(
    rms: real, cameraMatrix: Matrix, distCoeffs: Vector,
    rvecs: seq<Vector>, tvecs: seq<Vector>,
    stdevIntrinsics: Vector, stdevExtrinsics: Vector, viewErrors: seq<real>)

  /** OpenCV's documented output shape: one rotation, one translation and one
      error per input view. */
  predicate PerViewShape(sol: Solution, views: nat) {
    |sol.rvecs| == views && |sol.tvecs| == views && |sol.viewErrors| == views
  }

  /** `cv2.calibrateCameraExtended` on the object and image point lists;
      `None` when it raises. */
  type Solver = (seq<seq<Point3>>, seq<seq<Point2>>) -> Option<Solution>

  /** `cv2.projectPoints(objs, rvec, tvec, K, dist)`. */
  type Projector = (seq<Point3>, Vector, Vector, Matrix, Vector) -> seq<Point2>

  /** `cv2.norm(a, b, cv2.NORM_L2)`. */
  type Norm = (seq<Point2>, seq<Point2>) -> real

  /** The dictionary passed to `yaml.dump`, key by key. */
  datatype Record = Record(
    cameraMatrix: Matrix, distCoeff: Vector, rms: real,
    rvecs: seq<Vector>, tvecs: seq<Vector>,
    stdevIntrinsics: Vector, stdevExtrinsics: Vector, viewErrors: seq<real>,
    calibrationImages: seq<string>)

  /** Why a run ends without writing a record. */
  datatype RunError =
    | Stopped(name: string)     // an exception while reading `name`
    | NoViews                   // no accepted view: the solve (or the final division) fails
    | SolveFailed               // the solver raised
    | MissingPose(view: nat)    // `rvecs[i]` or `tvecs[i]` is out of range
    | EmptyProjection(view: nat) // `len(imgpoints2)` is zero: division by zero

  /** A finished run: the saved record, the per-view errors recomputed by the
      mean-error loop, the printed total error and the skip messages. */
  datatype Outcome = Outcome(record: Record, reprojErrors: seq<real>, totalError: real, skipped: seq<Skipped>)

  function Sum(xs: seq<real>): real {
    if |xs| == 0 then 0.0 else Sum(xs[..|xs| - 1]) + xs[|xs| - 1]
  }

  function Min(xs: seq<real>): (m: real)
    requires |xs| > 0
    ensures m in xs
    ensures forall i :: 0 <= i < |xs| ==> m <= xs[i]
  {
    if |xs| == 1 then xs[0]
    else var m := Min(xs[..|xs| - 1]); if xs[|xs| - 1] < m then xs[|xs| - 1] else m
  }

  function Max(xs: seq<real>): (m: real)
    requires |xs| > 0
    ensures m in xs
    ensures forall i :: 0 <= i < |xs| ==> xs[i] <= m
  {
    if |xs| == 1 then xs[0]
    else var m := Max(xs[..|xs| - 1]); if m < xs[|xs| - 1] then xs[|xs| - 1] else m
  }

  lemma {:induction false} SumBounds(xs: seq<real>, lo: real, hi: real)
    requires forall i :: 0 <= i < |xs| ==> lo <= xs[i] <= hi
    ensures |xs| as real * lo <= Sum(xs) <= |xs| as real * hi
  {
    if |xs| > 0 {
      SumBounds(xs[..|xs| - 1], lo, hi);
    }
  }

  lemma QuotientBetween(s: real, n: real, lo: real, hi: real)
    requires n > 0.0 && n * lo <= s <= n * hi
    ensures lo <= s / n <= hi && (s / n) * n == s
  {
  }

  /** The printed "total error": the plain mean of the per-view errors, which
      needs at least one view. */
  function MeanError(errs: seq<real>): (r: Result<real, RunError>)
    ensures r.Success? <==> |errs| > 0
    ensures r.Failure? ==> r.error == NoViews
    ensures r.Success? ==> r.value * |errs| as real == Sum(errs)
    ensures r.Success? ==> Min(errs) <= r.value <= Max(errs)
  {
    if |errs| == 0 then Failure(NoViews)
    else
      SumBounds(errs, Min(errs), Max(errs));
      QuotientBetween(Sum(errs), |errs| as real, Min(errs), Max(errs));
      Success(Sum(errs) / |errs| as real)
  }

  /** A pooled per-point figure (all norms over all points) is a different
      number: two views with norm 1 over 1 point and norm 1 over 3 points
      average to 2/3 per view but pool to 1/2. */
  lemma MeanIsNotPooled()
    ensures MeanError([1.0 / 1.0, 1.0 / 3.0]) == Success(2.0 / 3.0)
    ensures MeanError([1.0 / 1.0, 1.0 / 3.0]).value != (1.0 + 1.0) / (1.0 + 3.0)
  {
    assert Sum([1.0 / 1.0, 1.0 / 3.0]) == 4.0 / 3.0 by {
      assert [1.0 / 1.0, 1.0 / 3.0][..1] == [1.0];
    }
  }

  /** The body of the mean-error loop for view `i`: project view `i`'s object
      points with its solved pose, take the L2 norm against the observed
      points and divide by the number of projected points. */
  function ViewError(objs: seq<seq<Point3>>, pts: seq<seq<Point2>>, i: nat, sol: Solution,
                     project: Projector, norm: Norm): (r: Result<real, RunError>)
    requires i < |objs| == |pts|
    ensures r.Failure? <==>
      (i >= |sol.rvecs| || i >= |sol.tvecs|
       || |project(objs[i], sol.rvecs[i], sol.tvecs[i], sol.cameraMatrix, sol.distCoeffs)| == 0)
  {
    if i >= |sol.rvecs| || i >= |sol.tvecs| then Failure(MissingPose(i))
    else
      var q := project(objs[i], sol.rvecs[i], sol.tvecs[i], sol.cameraMatrix, sol.distCoeffs);
      if |q| == 0 then Failure(EmptyProjection(i))
      else Success(norm(pts[i], q) / |q| as real)
  }

  /** A view's error times its number of projected points is the L2 norm
      between observed and projected points: the error is a per-point
      average within the view. */
  lemma ViewErrorIsNormPerPoint(objs: seq<seq<Point3>>, pts: seq<seq<Point2>>, i: nat, sol: Solution,
                                project: Projector, norm: Norm)
    requires i < |objs| == |pts|
    requires ViewError(objs, pts, i, sol, project, norm).Success?
    ensures var q := project(objs[i], sol.rvecs[i], sol.tvecs[i], sol.cameraMatrix, sol.distCoeffs);
      ViewError(objs, pts, i, sol, project, norm).value * |q| as real == norm(pts[i], q)
  {
  }

  /** The per-view errors of views `0..n`, in view order; the first view
      whose error cannot be computed stops the loop. */
  function ViewErrors(objs: seq<seq<Point3>>, pts: seq<seq<Point2>>, n: nat, sol: Solution,
                      project: Projector, norm: Norm): (r: Result<seq<real>, RunError>)
    requires n <= |objs| == |pts|
    ensures r.Success? <==> forall i :: 0 <= i < n ==> ViewError(objs, pts, i, sol, project, norm).Success?
    ensures r.Success? ==>
      (|r.value| == n
       && forall i :: 0 <= i < n ==> ViewError(objs, pts, i, sol, project, norm) == Success(r.value[i]))
    ensures r.Failure? ==>
      exists i :: (0 <= i < n && ViewError(objs, pts, i, sol, project, norm) == Failure(r.error)
                   && forall j :: 0 <= j < i ==> ViewError(objs, pts, j, sol, project, norm).Success?)
  {
    if n == 0 then Success([])
    else
      match ViewErrors(objs, pts, n - 1, sol, project, norm)
      case Failure(e) => Failure(e)
      case Success(es) =>
        match ViewError(objs, pts, n - 1, sol, project, norm)
        case Failure(e) => Failure(e)
        case Success(e) => Success(es + [e])
  }

  /** A loop that got through `n` views found a pose for each of them. */
  lemma PosesCoverViews(objs: seq<seq<Point3>>, pts: seq<seq<Point2>>, n: nat, sol: Solution,
                        project: Projector, norm: Norm)
    requires 0 < n <= |objs| == |pts|
    requires ViewErrors(objs, pts, n, sol, project, norm).Success?
    ensures n <= |sol.rvecs| && n <= |sol.tvecs|
  {
    assert ViewError(objs, pts, n - 1, sol, project, norm).Success?;
  }

  /** The mean-error loop as written: accumulate each view's error, then
      divide by the number of views. */
  method MeanReprojectionError(objs: seq<seq<Point3>>, pts: seq<seq<Point2>>, sol: Solution,
                               project: Projector, norm: Norm) returns (r: Result<real, RunError>)
    requires |objs| == |pts|
    ensures ViewErrors(objs, pts, |objs|, sol, project, norm).Failure? ==>
      r == Failure(ViewErrors(objs, pts, |objs|, sol, project, norm).error)
    ensures ViewErrors(objs, pts, |objs|, sol, project, norm).Success? ==>
      r == MeanError(ViewErrors(objs, pts, |objs|, sol, project, norm).value)
  {
    var total := 0.0;
    ghost var es: seq<real> := [];
    var i := 0;
    while i < |objs|
      invariant 0 <= i <= |objs|
      invariant ViewErrors(objs, pts, i, sol, project, norm) == Success(es)
      invariant total == Sum(es)
    {
      var e := ViewError(objs, pts, i, sol, project, norm);
      if e.Failure? {
        assert ViewErrors(objs, pts, i + 1, sol, project, norm) == Failure(e.error);
        FirstFailureStops(objs, pts, i + 1, |objs|, sol, project, norm);
        return Failure(e.error);
      }
      var ev := e.value;
      assert ViewErrors(objs, pts, i + 1, sol, project, norm) == Success(es + [ev]);
      assert Sum(es + [ev]) == Sum(es) + ev by {
        assert (es + [ev])[..|es|] == es;
      }
      es := es + [ev];
      total := total + ev;
      i := i + 1;
    }
    if |objs| == 0 {
      return Failure(NoViews);
    }
    assert |es| == |objs|;
    assert MeanError(es) == Success(Sum(es) / |es| as real);
    r := Success(total / |objs| as real);
  }

  /** A failure among the first `m` views is the failure of the whole loop. */
  lemma {:induction false} FirstFailureStops(objs: seq<seq<Point3>>, pts: seq<seq<Point2>>, m: nat, n: nat, sol: Solution,
                                          project: Projector, norm: Norm)
    requires m <= n <= |objs| == |pts|
    ensures ViewErrors(objs, pts, m, sol, project, norm).Failure? ==>
      ViewErrors(objs, pts, n, sol, project, norm) == ViewErrors(objs, pts, m, sol, project, norm)
    decreases n
  {
    if m < n {
      FirstFailureStops(objs, pts, m, n - 1, sol, project, norm);
    }
  }

  /** Everything after the collection loop: solve, run the mean-error loop
      over the views, and build the record to save. */
  function SolveBatch(b: Batch<seq<Point3>, seq<Point2>>, solve: Solver, project: Projector, norm: Norm)
    : (r: Result<Outcome, RunError>)
    requires Lockstep(b)
    ensures r == Failure(NoViews) <==> |b.fnames| == 0
    ensures r.Failure? ==> !r.error.Stopped?
    ensures r.Success? ==>
      && r.value.record.calibrationImages == b.fnames
      && r.value.skipped == b.skipped
      && |b.fnames| >= 1
      && |r.value.reprojErrors| == |b.fnames|
      && |r.value.record.rvecs| >= |b.fnames| && |r.value.record.tvecs| >= |b.fnames|
      && Min(r.value.reprojErrors) <= r.value.totalError <= Max(r.value.reprojErrors)
      && MeanError(r.value.reprojErrors) == Success(r.value.totalError)
    ensures r == Failure(SolveFailed) <==> |b.fnames| > 0 && solve(b.objs, b.pts).None?
    ensures r.Success? <==>
      && |b.fnames| > 0 && solve(b.objs, b.pts).Some?
      && ViewErrors(b.objs, b.pts, |b.objs|, solve(b.objs, b.pts).value, project, norm).Success?
    ensures r.Success? ==>
      solve(b.objs, b.pts).Some?
      && var sol := solve(b.objs, b.pts).value;
      && ViewErrors(b.objs, b.pts, |b.objs|, sol, project, norm) == Success(r.value.reprojErrors)
      && r.value.record.cameraMatrix == sol.cameraMatrix
      && r.value.record.distCoeff == sol.distCoeffs
      && r.value.record.rms == sol.rms
      && r.value.record.rvecs == sol.rvecs
      && r.value.record.tvecs == sol.tvecs
      && r.value.record.stdevIntrinsics == sol.stdevIntrinsics
      && r.value.record.stdevExtrinsics == sol.stdevExtrinsics
      && r.value.record.viewErrors == sol.viewErrors
    ensures |b.fnames| > 0 && solve(b.objs, b.pts).Some? ==>
      var errs := ViewErrors(b.objs, b.pts, |b.objs|, solve(b.objs, b.pts).value, project, norm);
      errs.Failure? ==> r == Failure(errs.error)
  {
    if |b.fnames| == 0 then Failure(NoViews)
    else
      match solve(b.objs, b.pts)
      case None => Failure(SolveFailed)
      case Some(sol) =>
        match ViewErrors(b.objs, b.pts, |b.objs|, sol, project, norm)
        case Failure(e) => Failure(e)
        case Success(es) =>
          PosesCoverViews(b.objs, b.pts, |b.objs|, sol, project, norm);
          var record := Record(sol.cameraMatrix, sol.distCoeffs, sol.rms, sol.rvecs, sol.tvecs,
                               sol.stdevIntrinsics, sol.stdevExtrinsics, sol.viewErrors, b.fnames);
          var mean := MeanError(es).value;
          Success(Outcome(record, es, mean, b.skipped))
  }

  /** The whole script after argument parsing: collect views, then solve. */
  function RunCalibration(names: seq<string>, classify: string -> Step<seq<Point3>, seq<Point2>>,
                          solve: Solver, project: Projector, norm: Norm): (r: Result<Outcome, RunError>)
    ensures r.Failure? && r.error.Stopped? <==> Aggregate(names, classify).Failure?
    ensures r == Failure(NoViews) <==>
      Aggregate(names, classify).Success? && |Aggregate(names, classify).value.fnames| == 0
    ensures r.Success? ==>
      Aggregate(names, classify).Success?
      && r.value.record.calibrationImages == Aggregate(names, classify).value.fnames
    ensures r.Success? <==>
      && Aggregate(names, classify).Success?
      && var b := Aggregate(names, classify).value;
      && |b.fnames| > 0 && solve(b.objs, b.pts).Some?
      && ViewErrors(b.objs, b.pts, |b.objs|, solve(b.objs, b.pts).value, project, norm).Success?
  {
    match Aggregate(names, classify)
    case Failure(h) => Failure(Stopped(h.name))
    case Success(b) => SolveBatch(b, solve, project, norm)
  }

  /** The solver keeps OpenCV's promise of one output row per view. */
  ghost predicate HonestSolver(solve: Solver) {
    forall os, ps :: |os| == |ps| && solve(os, ps).Some? ==> PerViewShape(solve(os, ps).value, |os|)
  }

  /** In a saved record, `calibration_images`, `rvecs`, `tvecs` and
      `view_errors` have one row per accepted view, and row `k` of
      `calibration_images` is the `k`-th accepted name of the listing. */
  lemma RecordAligned(names: seq<string>, classify: string -> Step<seq<Point3>, seq<Point2>>,
                      solve: Solver, project: Projector, norm: Norm)
    ensures HonestSolver(solve) && RunCalibration(names, classify, solve, project, norm).Success? ==>
      var rec := RunCalibration(names, classify, solve, project, norm).value.record;
      var ps := AcceptedAt(names, classify);
      && |rec.calibrationImages| == |rec.rvecs| == |rec.tvecs| == |rec.viewErrors| == |ps|
      && forall k :: 0 <= k < |ps| ==> rec.calibrationImages[k] == names[ps[k]]
  {
    if HonestSolver(solve) && RunCalibration(names, classify, solve, project, norm).Success? {
      AcceptedAligned(names, classify);
    }
  }
}
