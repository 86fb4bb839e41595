/** `checkerboard_calibration.py`: a ChArUco board found by an ArUco
    `CharucoDetector`. Reading the file, finding the board and matching its
    corners to board coordinates are OpenCV calls and appear as parameters. */
module CharucoCalibration {
  import opened Wrappers
  import opened Aggregation
  import opened Calibration

  /** The loop body for one listed name.
      `imread` is `cv2.imread` (`None` when the file is not a readable image);
      `detectBoard` is the grey conversion followed by `detector.detectBoard`
      (`None` when `corners is None`); `matchImagePoints` is
      `board.matchImagePoints` on the detection. These calls are taken not to
      raise, so the step never halts. */
  function CharucoStep<Img, Det>(name: string, imread: string -> Option<Img>,
                                 detectBoard: Img -> Option<Det>,
                                 matchImagePoints: Det -> (seq<Point3>, seq<Point2>))
    : (s: Step<seq<Point3>, seq<Point2>>)
    ensures !s.Halt?
    ensures s == Skip(NoValidImage) <==> imread(name).None?
    ensures s == Skip(NoBoardFound) <==> imread(name).Some? && detectBoard(imread(name).value).None?
    ensures s.Accept? <==> imread(name).Some? && detectBoard(imread(name).value).Some?
    ensures s.Accept? ==> (s.obj, s.pts) == matchImagePoints(detectBoard(imread(name).value).value)
  {
    match imread(name)
    case None => Skip(NoValidImage)
    case Some(img) =>
      match detectBoard(img)
      case None => Skip(NoBoardFound)
      case Some(det) =>
        var (obj, pts) := matchImagePoints(det);
        Accept(obj, pts)
  }

  function CharucoClassifier<Img, Det>(imread: string -> Option<Img>, detectBoard: Img -> Option<Det>,
                                       matchImagePoints: Det -> (seq<Point3>, seq<Point2>))
    : string -> Step<seq<Point3>, seq<Point2>>
  {
    name => CharucoStep(name, imread, detectBoard, matchImagePoints)
  }

  /** Collection ends with no view exactly when no listed image decodes and
      shows a board. */
  lemma CharucoViewCount<Img, Det>(listing: seq<string>, imread: string -> Option<Img>,
                                   detectBoard: Img -> Option<Det>,
                                   matchImagePoints: Det -> (seq<Point3>, seq<Point2>))
    ensures var c := CharucoClassifier(imread, detectBoard, matchImagePoints);
      && Aggregate(listing, c).Success?
      && (|Aggregate(listing, c).value.fnames| == 0 <==>
          forall i :: 0 <= i < |listing| ==>
            !(imread(listing[i]).Some? && detectBoard(imread(listing[i]).value).Some?))
  {
    var c := CharucoClassifier(imread, detectBoard, matchImagePoints);
    CharucoAcceptance(listing, imread, detectBoard, matchImagePoints);
    AcceptedAligned(listing, c);
    var ps := AcceptedAt(listing, c);
    if |ps| > 0 {
      assert ps[0] in ps;
    }
  }

  /** The script from the directory listing to the saved record. It never
      stops in the collection loop; it has no view to solve with exactly when
      no listed image decodes and shows a board; and a saved record lists
      exactly those images, in listing order. */
  function CharucoRun<Img, Det>(listing: seq<string>, imread: string -> Option<Img>,
                                detectBoard: Img -> Option<Det>,
                                matchImagePoints: Det -> (seq<Point3>, seq<Point2>),
                                solve: Solver, project: Projector, norm: Norm)
    : (r: Result<Outcome, RunError>)
    ensures r.Failure? ==> !r.error.Stopped?
    ensures r == Failure(NoViews) <==>
      forall i :: 0 <= i < |listing| ==>
        !(imread(listing[i]).Some? && detectBoard(imread(listing[i]).value).Some?)
    ensures r.Success? ==>
      var imgs, ps := r.value.record.calibrationImages,
                      AcceptedAt(listing, CharucoClassifier(imread, detectBoard, matchImagePoints));
      && |imgs| == |ps|
      && forall k :: 0 <= k < |ps| ==>
           imgs[k] == listing[ps[k]]
           && imread(imgs[k]).Some? && detectBoard(imread(imgs[k]).value).Some?
    ensures var b := Aggregate(listing, CharucoClassifier(imread, detectBoard, matchImagePoints)).value;
      r.Success? <==>
        && |b.fnames| > 0 && solve(b.objs, b.pts).Some?
        && ViewErrors(b.objs, b.pts, |b.objs|, solve(b.objs, b.pts).value, project, norm).Success?
  {
    var c := CharucoClassifier(imread, detectBoard, matchImagePoints);
    CharucoViewCount(listing, imread, detectBoard, matchImagePoints);
    CharucoAcceptance(listing, imread, detectBoard, matchImagePoints);
    AcceptedAligned(listing, c);
    RunCalibration(listing, c, solve, project, norm)
  }

  /** The collection loop never stops early, and a listed name becomes a view
      exactly when its image decodes and shows a board. Skipped names are
      reported with the matching reason, and such a name never appears in
      `fnames`. */
  lemma CharucoAcceptance<Img, Det>(listing: seq<string>, imread: string -> Option<Img>,
                                    detectBoard: Img -> Option<Det>,
                                    matchImagePoints: Det -> (seq<Point3>, seq<Point2>))
    ensures var c := CharucoClassifier(imread, detectBoard, matchImagePoints);
      && Aggregate(listing, c).Success?
      && (forall i :: 0 <= i < |listing| ==>
            (i in AcceptedAt(listing, c) <==>
               imread(listing[i]).Some? && detectBoard(imread(listing[i]).value).Some?))
      && (forall n :: n in Aggregate(listing, c).value.fnames ==>
            imread(n).Some? && detectBoard(imread(n).value).Some?)
  {
    var c := CharucoClassifier(imread, detectBoard, matchImagePoints);
    forall i | 0 <= i < |listing|
      ensures c(listing[i]) == CharucoStep(listing[i], imread, detectBoard, matchImagePoints)
    {
    }
    AcceptedAligned(listing, c);
    var b := Aggregate(listing, c).value;
    var ps := AcceptedAt(listing, c);
    forall n | n in b.fnames
      ensures imread(n).Some? && detectBoard(imread(n).value).Some?
    {
      var k :| 0 <= k < |b.fnames| && b.fnames[k] == n;
      assert c(listing[ps[k]]).Accept?;
    }
  }

  /** Three listed names where the middle one shows no
      board: `fnames` keeps the other two in listing order and the skip list
      names the middle one with its reason. */
  lemma CharucoSkipsMiddle<Img, Det>(a: string, b: string, c: string, imread: string -> Option<Img>,
                                     detectBoard: Img -> Option<Det>,
                                     matchImagePoints: Det -> (seq<Point3>, seq<Point2>))
    requires imread(a).Some? && detectBoard(imread(a).value).Some?
    requires imread(b).Some? && detectBoard(imread(b).value).None?
    requires imread(c).Some? && detectBoard(imread(c).value).Some?
    ensures var r := Aggregate([a, b, c], CharucoClassifier(imread, detectBoard, matchImagePoints));
      r.Success? && r.value.fnames == [a, c] && r.value.skipped == [Skipped(b, NoBoardFound)]
  {
    var cl := CharucoClassifier(imread, detectBoard, matchImagePoints);
    assert [a, b, c][..2] == [a, b];
    assert [a, b][..1] == [a];
    assert [a][..0] == [];
    assert cl(a).Accept? && cl(b) == Skip(NoBoardFound) && cl(c).Accept?;
    assert Aggregate([a][..0], cl) == Success(Batch([], [], [], []));
    var r1 := Aggregate([a], cl);
    assert r1.Success? && r1.value.fnames == [a] && r1.value.skipped == [];
    var r2 := Aggregate([a, b], cl);
    assert r2.Success? && r2.value.fnames == [a] && r2.value.skipped == [Skipped(b, NoBoardFound)];
  }
}
