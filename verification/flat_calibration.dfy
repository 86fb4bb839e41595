/** `flat_checkerboard_calibration.py`: a plain chessboard found by
    `cv2.findChessboardCorners` in demosaiced `.npy` captures, over a random
    draw of 50 files from the folder. */
module FlatCalibration {
  import opened Wrappers
  import opened Text
  import opened Aggregation
  import opened Calibration

  /** How many files `np.random.choice` draws. */
  const SampleSize: nat := 50

  /** The marker a name must contain to be loaded as an array. */
  const NpyMarker: string := ".npy"

  /** Point `k` of the board grid in board units: `x` walks the columns
      first, `y` counts whole rows, the board lies in `z = 0`. */
  function GridPoint(k: nat, cols: nat, square: real): Point3
    requires cols > 0
  {
    Point3((k % cols) as real * square, (k / cols) as real * square, 0.0)
  }

  lemma MulAtLeast(d: int, cols: int)
    requires d >= 1 && cols >= 0
    ensures d * cols >= cols
  {
    assert d * cols == (d - 1) * cols + cols;
  }

  lemma DivModOfRowMajor(k: nat, cols: nat, r: nat, c: nat)
    requires 0 <= c < cols && k == r * cols + c
    ensures k / cols == r && k % cols == c
  {
    var q, m := k / cols, k % cols;
    assert (r - q) * cols == m - c;
    if q < r {
      MulAtLeast(r - q, cols);
    } else if q > r {
      MulAtLeast(q - r, cols);
    }
  }

  /** `np.mgrid[0:cols, 0:rows].T.reshape(-1, 2)` scaled by `square`, with a
      zero third coordinate: the transpose makes the row index the outer
      loop, so the grid is laid out row by row. */
  method ObjectGrid(cols: nat, rows: nat, square: real) returns (objp: seq<Point3>)
    ensures |objp| == cols * rows
    ensures forall k :: 0 <= k < |objp| ==> objp[k].z == 0.0
    ensures cols > 0 ==> forall k :: 0 <= k < |objp| ==> objp[k] == GridPoint(k, cols, square)
  {
    objp := [];
    var r := 0;
    while r < rows
      invariant 0 <= r <= rows
      invariant |objp| == r * cols
      invariant forall k :: 0 <= k < |objp| ==> objp[k].z == 0.0
      invariant cols > 0 ==> forall k :: 0 <= k < |objp| ==> objp[k] == GridPoint(k, cols, square)
    {
      var c := 0;
      while c < cols
        invariant 0 <= c <= cols
        invariant |objp| == r * cols + c
        invariant forall k :: 0 <= k < |objp| ==> objp[k].z == 0.0
        invariant forall k :: 0 <= k < |objp| ==> objp[k] == GridPoint(k, cols, square)
      {
        DivModOfRowMajor(|objp|, cols, r, c);
        objp := objp + [Point3(c as real * square, r as real * square, 0.0)];
        c := c + 1;
      }
      r := r + 1;
    }
  }

  /** `np.random.choice(listing, 50, replace=False)` with the random draw
      supplied as positions: 50 distinct positions of the listing. */
  predicate IsDraw(picks: seq<nat>, n: nat) {
    |picks| == SampleSize
    && (forall k :: 0 <= k < |picks| ==> picks[k] < n)
    && NoDuplicates(picks)
  }

  datatype SampleError = FewerThanSampleSize(available: nat)

  /** The names to process. A listing shorter than 50 makes `np.random.choice`
      raise; otherwise the drawn names come out in draw order. */
  function Sample(listing: seq<string>, picks: seq<nat>): (r: Result<seq<string>, SampleError>)
    requires |listing| >= SampleSize ==> IsDraw(picks, |listing|)
    ensures r.Success? <==> |listing| >= SampleSize
    ensures r.Failure? ==> r.error == FewerThanSampleSize(|listing|)
    ensures r.Success? ==> |r.value| == SampleSize
    ensures r.Success? ==> forall k :: 0 <= k < SampleSize ==> r.value[k] == listing[picks[k]]
  {
    if |listing| < SampleSize then Failure(FewerThanSampleSize(|listing|))
    else Success(seq(SampleSize, k requires 0 <= k < SampleSize => listing[picks[k]]))
  }

  /** From a listing of distinct names (a directory listing) the draw yields
      50 distinct names of the listing. */
  lemma SampleDistinct(listing: seq<string>, picks: seq<nat>)
    requires NoDuplicates(listing)
    requires |listing| >= SampleSize && IsDraw(picks, |listing|)
    ensures var s := Sample(listing, picks).value;
      NoDuplicates(s) && forall k :: 0 <= k < |s| ==> s[k] in listing
  {
    var s := Sample(listing, picks).value;
    forall i, j | 0 <= i < j < |s|
      ensures s[i] != s[j]
    {
      assert picks[i] != picks[j];
    }
  }

  /** The loop body for one drawn name. A name without `.npy` in it is skipped
      as "no valid image"; otherwise `loadImage` is `np.load` followed by the
      Bayer demosaic and the 8-bit normalisation, and `None` means one of them
      raised, which nothing catches. `findCorners` is the grey conversion and
      `cv2.findChessboardCorners`, `None` when it reports no board;
      `cornerSubPix` refines the corners it found. Every accepted view pairs
      the refined corners with the same object grid. */
  function FlatStep<Img, Corners>(name: string, objp: seq<Point3>, loadImage: string -> Option<Img>,
                                  findCorners: Img -> Option<Corners>,
                                  cornerSubPix: (Img, Corners) -> seq<Point2>)
    : (s: Step<seq<Point3>, seq<Point2>>)
    ensures s == Skip(NoValidImage) <==> !Contains(name, NpyMarker)
    ensures s.Halt? <==> Contains(name, NpyMarker) && loadImage(name).None?
    ensures s == Skip(NoBoardFound) <==>
      Contains(name, NpyMarker) && loadImage(name).Some? && findCorners(loadImage(name).value).None?
    ensures s.Accept? ==> s.obj == objp
    ensures s.Accept? ==>
      var img := loadImage(name).value;
      findCorners(img).Some? && s.pts == cornerSubPix(img, findCorners(img).value)
  {
    if !Contains(name, NpyMarker) then Skip(NoValidImage)
    else
      match loadImage(name)
      case None => Halt
      case Some(img) =>
        match findCorners(img)
        case None => Skip(NoBoardFound)
        case Some(corners) => Accept(objp, cornerSubPix(img, corners))
  }

  function FlatClassifier<Img, Corners>(objp: seq<Point3>, loadImage: string -> Option<Img>,
                                        findCorners: Img -> Option<Corners>,
                                        cornerSubPix: (Img, Corners) -> seq<Point2>)
    : string -> Step<seq<Point3>, seq<Point2>>
  {
    name => FlatStep(name, objp, loadImage, findCorners, cornerSubPix)
  }

  /** Every view the loop keeps uses the one object grid, and only names
      containing `.npy` are kept. */
  lemma FlatViewsShareGrid<Img, Corners>(names: seq<string>, objp: seq<Point3>, loadImage: string -> Option<Img>,
                                         findCorners: Img -> Option<Corners>,
                                         cornerSubPix: (Img, Corners) -> seq<Point2>)
    requires Aggregate(names, FlatClassifier(objp, loadImage, findCorners, cornerSubPix)).Success?
    ensures var b := Aggregate(names, FlatClassifier(objp, loadImage, findCorners, cornerSubPix)).value;
      (forall k :: 0 <= k < |b.objs| ==> b.objs[k] == objp)
      && (forall k :: 0 <= k < |b.fnames| ==> Contains(b.fnames[k], NpyMarker))
  {
    var c := FlatClassifier(objp, loadImage, findCorners, cornerSubPix);
    AcceptedAligned(names, c);
    var ps := AcceptedAt(names, c);
    forall k | 0 <= k < |ps|
      ensures c(names[ps[k]]) == FlatStep(names[ps[k]], objp, loadImage, findCorners, cornerSubPix)
    {
    }
  }

  /** The collection loop stops on a name exactly when that name contains
      `.npy` and fails to load; names without `.npy` are never loaded. */
  lemma FlatHalts<Img, Corners>(names: seq<string>, objp: seq<Point3>, loadImage: string -> Option<Img>,
                                findCorners: Img -> Option<Corners>,
                                cornerSubPix: (Img, Corners) -> seq<Point2>)
    ensures Aggregate(names, FlatClassifier(objp, loadImage, findCorners, cornerSubPix)).Success?
      <==> forall i :: 0 <= i < |names| ==> !(Contains(names[i], NpyMarker) && loadImage(names[i]).None?)
  {
    var c := FlatClassifier(objp, loadImage, findCorners, cornerSubPix);
    forall i | 0 <= i < |names|
      ensures c(names[i]) == FlatStep(names[i], objp, loadImage, findCorners, cornerSubPix)
    {
    }
  }

  datatype FlatError = SampleFailed(sampleError: SampleError) | RunFailed(runError: RunError)

  /** The grid `ObjectGrid` builds. */
  predicate IsGrid(objp: seq<Point3>, cols: nat, rows: nat, square: real) {
    && |objp| == cols * rows
    && (cols > 0 ==> forall k :: 0 <= k < |objp| ==> objp[k] == GridPoint(k, cols, square))
  }

  /** The flat script's result is the shared run's, with a run error wrapped. */
  predicate FromRun(r: Result<Outcome, FlatError>, run: Result<Outcome, RunError>) {
    && (run.Success? ==> r == Success(run.value))
    && (run.Failure? ==> r == Failure(RunFailed(run.error)))
  }

  /** A run over drawn names stops exactly when a drawn `.npy` name fails to
      load. */
  lemma FlatRunStops<Img, Corners>(names: seq<string>, objp: seq<Point3>, loadImage: string -> Option<Img>,
                                   findCorners: Img -> Option<Corners>,
                                   cornerSubPix: (Img, Corners) -> seq<Point2>,
                                   solve: Solver, project: Projector, norm: Norm)
    ensures var run := RunCalibration(names, FlatClassifier(objp, loadImage, findCorners, cornerSubPix),
                                      solve, project, norm);
      run.Failure? && run.error.Stopped? <==>
        exists i :: 0 <= i < |names| && Contains(names[i], NpyMarker) && loadImage(names[i]).None?
  {
    FlatHalts(names, objp, loadImage, findCorners, cornerSubPix);
  }

  /** A saved record lists the kept names in draw order, each a `.npy` name,
      and each once when the drawn names are distinct. */
  lemma FlatRunOrder<Img, Corners>(names: seq<string>, objp: seq<Point3>, loadImage: string -> Option<Img>,
                                   findCorners: Img -> Option<Corners>,
                                   cornerSubPix: (Img, Corners) -> seq<Point2>,
                                   solve: Solver, project: Projector, norm: Norm)
    ensures var c := FlatClassifier(objp, loadImage, findCorners, cornerSubPix);
      var run := RunCalibration(names, c, solve, project, norm);
      run.Success? ==>
        var imgs := run.value.record.calibrationImages;
        && InAcceptedOrder(imgs, names, c)
        && (forall k :: 0 <= k < |imgs| ==> imgs[k] in names && Contains(imgs[k], NpyMarker))
        && (NoDuplicates(names) ==> NoDuplicates(imgs))
  {
    var c := FlatClassifier(objp, loadImage, findCorners, cornerSubPix);
    var run := RunCalibration(names, c, solve, project, norm);
    if run.Success? {
      var b := Aggregate(names, c).value;
      assert run.value.record.calibrationImages == b.fnames;
      FlatViewsShareGrid(names, objp, loadImage, findCorners, cornerSubPix);
      AcceptedAligned(names, c);
      var ps := AcceptedAt(names, c);
      forall k | 0 <= k < |b.fnames|
        ensures b.fnames[k] in names
      {
        assert b.fnames[k] == names[ps[k]];
      }
      if NoDuplicates(names) {
        AcceptedOnce(names, c);
      }
    }
  }

  /** The script from the directory listing to the saved record. */
  method FlatRun<Img, Corners>(listing: seq<string>, picks: seq<nat>, cols: nat, rows: nat, square: real,
                               loadImage: string -> Option<Img>, findCorners: Img -> Option<Corners>,
                               cornerSubPix: (Img, Corners) -> seq<Point2>,
                               solve: Solver, project: Projector, norm: Norm)
    returns (r: Result<Outcome, FlatError>)
    requires |listing| >= SampleSize ==> IsDraw(picks, |listing|)
    ensures r == Failure(SampleFailed(FewerThanSampleSize(|listing|))) <==> |listing| < SampleSize
    ensures r.Success? ==>
      var names := Sample(listing, picks).value;
      |r.value.record.calibrationImages| >= 1
      && forall k :: 0 <= k < |r.value.record.calibrationImages| ==>
           r.value.record.calibrationImages[k] in names
           && Contains(r.value.record.calibrationImages[k], NpyMarker)
    ensures |listing| >= SampleSize ==>
      var names := Sample(listing, picks).value;
      exists objp: seq<Point3> :: IsGrid(objp, cols, rows, square)
        && var c := FlatClassifier(objp, loadImage, findCorners, cornerSubPix);
        && FromRun(r, RunCalibration(names, c, solve, project, norm))
        && (r.Success? ==> InAcceptedOrder(r.value.record.calibrationImages, names, c))
    ensures |listing| >= SampleSize ==>
      var names := Sample(listing, picks).value;
      (r.Failure? && r.error.RunFailed? && r.error.runError.Stopped? <==>
       exists i :: 0 <= i < |names| && Contains(names[i], NpyMarker) && loadImage(names[i]).None?)
    ensures NoDuplicates(listing) && r.Success? ==> NoDuplicates(r.value.record.calibrationImages)
  {
    var objp := ObjectGrid(cols, rows, square);
    var drawn := Sample(listing, picks);
    if drawn.Failure? {
      return Failure(SampleFailed(drawn.error));
    }
    var names := drawn.value;
    var c := FlatClassifier(objp, loadImage, findCorners, cornerSubPix);
    if NoDuplicates(listing) {
      SampleDistinct(listing, picks);
    }
    FlatRunStops(names, objp, loadImage, findCorners, cornerSubPix, solve, project, norm);
    FlatRunOrder(names, objp, loadImage, findCorners, cornerSubPix, solve, project, norm);
    var run := RunCalibration(names, c, solve, project, norm);
    if run.Failure? {
      r := Failure(RunFailed(run.error));
    } else {
      r := Success(run.value);
    }
    assert IsGrid(objp, cols, rows, square) && FromRun(r, run);
  }
}
