/** The view-collection loop shared by both calibration scripts: walk the
    directory listing in order, ask a per-name classifier what the name yields,
    and append accepted views to three lists kept in lockstep. */
module Aggregation {
  import opened Wrappers

  /** Why a listed name contributed no view; each reason has its own message. */
  datatype SkipReason = NoValidImage | NoBoardFound

  /** What one listed name yields: a view (object points and image points),
      a skip with its reason, or an uncaught exception that ends the run. */
  datatype Step<O, P> = Accept(obj: O, pts: P) | Skip(reason: SkipReason) | Halt

  /** One "skipping" message. */
  datatype Skipped = Skipped(name: string, reason: SkipReason)

  /** The run stopped while processing `name`. */
  datatype Halted = Halted(name: string)

  /** `fnames`, `all_objs` and `all_pts` as the loop leaves them, plus the
      skip messages printed on the way. */
  datatype Batch<O, P> = Batch(fnames: seq<string>, objs: seq<O>, pts: seq<P>, skipped: seq<Skipped>)

  predicate Lockstep<O, P>(b: Batch<O, P>) {
    |b.fnames| == |b.objs| == |b.pts|
  }

  /** The loop over the listing, one name at a time, in listing order. */
  function Aggregate<O, P>(names: seq<string>, classify: string -> Step<O, P>): (r: Result<Batch<O, P>, Halted>)
    ensures r.Success? <==> forall i :: 0 <= i < |names| ==> !classify(names[i]).Halt?
    ensures r.Success? ==> Lockstep(r.value) && |r.value.fnames| + |r.value.skipped| == |names|
    ensures r.Failure? ==>
      exists i :: (0 <= i < |names| && classify(names[i]).Halt? && r.error == Halted(names[i])
                   && forall j :: 0 <= j < i ==> !classify(names[j]).Halt?)
  {
    if |names| == 0 then Success(Batch([], [], [], []))
    else
      var init, last := names[..|names| - 1], names[|names| - 1];
      match Aggregate(init, classify)
      case Failure(h) => Failure(h)
      case Success(b) =>
        match classify(last)
        case Halt => Failure(Halted(last))
        case Skip(reason) => Success(b.(skipped := b.skipped + [Skipped(last, reason)]))
        case Accept(o, p) => Success(b.(fnames := b.fnames + [last], objs := b.objs + [o], pts := b.pts + [p]))
  }

  /** The listing positions whose names yield a view, in increasing order. */
  function AcceptedAt<O, P>(names: seq<string>, classify: string -> Step<O, P>): (ps: seq<nat>)
    ensures forall k :: 0 <= k < |ps| ==> ps[k] < |names| && classify(names[ps[k]]).Accept?
    ensures forall k, l :: 0 <= k < l < |ps| ==> ps[k] < ps[l]
    ensures forall i :: 0 <= i < |names| && classify(names[i]).Accept? ==> i in ps
  {
    if |names| == 0 then []
    else
      var n := |names| - 1;
      AcceptedAt(names[..n], classify) + (if classify(names[n]).Accept? then [n] else [])
  }

  /** The listing positions whose names are skipped, in increasing order. */
  function SkippedAt<O, P>(names: seq<string>, classify: string -> Step<O, P>): (ps: seq<nat>)
    ensures forall k :: 0 <= k < |ps| ==> ps[k] < |names| && classify(names[ps[k]]).Skip?
    ensures forall k, l :: 0 <= k < l < |ps| ==> ps[k] < ps[l]
    ensures forall i :: 0 <= i < |names| && classify(names[i]).Skip? ==> i in ps
  {
    if |names| == 0 then []
    else
      var n := |names| - 1;
      SkippedAt(names[..n], classify) + (if classify(names[n]).Skip? then [n] else [])
  }

  /** Row `k` of the three lists comes from the `k`-th accepted name of the
      listing: `fnames` records exactly which files were used, and in what
      order, and each view's points sit at the same index as its name. */
  lemma {:induction false} AcceptedAligned<O, P>(names: seq<string>, classify: string -> Step<O, P>)
    requires Aggregate(names, classify).Success?
    ensures var b, ps := Aggregate(names, classify).value, AcceptedAt(names, classify);
      |b.fnames| == |ps|
      && forall k :: 0 <= k < |ps| ==>
           b.fnames[k] == names[ps[k]]
           && b.objs[k] == classify(names[ps[k]]).obj
           && b.pts[k] == classify(names[ps[k]]).pts
  {
    if |names| > 0 {
      var n := |names| - 1;
      assert names[..n][..n] == names[..n];
      AcceptedAligned(names[..n], classify);
    }
  }

  /** The skip messages name the skipped entries of the listing, in order,
      each with the reason its classifier gave. */
  lemma {:induction false} SkippedAligned<O, P>(names: seq<string>, classify: string -> Step<O, P>)
    requires Aggregate(names, classify).Success?
    ensures var b, qs := Aggregate(names, classify).value, SkippedAt(names, classify);
      |b.skipped| == |qs|
      && forall k :: 0 <= k < |qs| ==>
           b.skipped[k] == Skipped(names[qs[k]], classify(names[qs[k]]).reason)
  {
    if |names| > 0 {
      var n := |names| - 1;
      assert names[..n][..n] == names[..n];
      SkippedAligned(names[..n], classify);
    }
  }

  /** `xs` lists the accepted names of the listing, in listing order. */
  predicate InAcceptedOrder<O, P>(xs: seq<string>, names: seq<string>, classify: string -> Step<O, P>) {
    var ps := AcceptedAt(names, classify);
    |xs| == |ps| && forall k :: 0 <= k < |ps| ==> xs[k] == names[ps[k]]
  }

  predicate NoDuplicates<T(==)>(s: seq<T>) {
    forall i, j :: 0 <= i < j < |s| ==> s[i] != s[j]
  }

  /** A listing without repeated names (as a directory listing is) yields each
      file at most once in `fnames`. */
  lemma AcceptedOnce<O, P>(names: seq<string>, classify: string -> Step<O, P>)
    requires NoDuplicates(names)
    requires Aggregate(names, classify).Success?
    ensures NoDuplicates(Aggregate(names, classify).value.fnames)
  {
    AcceptedAligned(names, classify);
    var ps := AcceptedAt(names, classify);
    var f := Aggregate(names, classify).value.fnames;
    forall i, j | 0 <= i < j < |f|
      ensures f[i] != f[j]
    {
      assert ps[i] < ps[j];
    }
  }

  /** The loop as the scripts write it: three lists grown in place. */
  method CollectViews<O, P>(names: seq<string>, classify: string -> Step<O, P>) returns (r: Result<Batch<O, P>, Halted>)
    ensures r == Aggregate(names, classify)
  {
    var fnames, objs, pts, skipped := [], [], [], [];
    var i := 0;
    while i < |names|
      invariant 0 <= i <= |names|
      invariant Aggregate(names[..i], classify) == Success(Batch(fnames, objs, pts, skipped))
    {
      assert names[..i + 1][..i] == names[..i];
      match classify(names[i]) {
        case Halt =>
          HaltPersists(names, classify, i + 1);
          return Failure(Halted(names[i]));
        case Skip(reason) =>
          skipped := skipped + [Skipped(names[i], reason)];
        case Accept(o, p) =>
          fnames, objs, pts := fnames + [names[i]], objs + [o], pts + [p];
      }
      i := i + 1;
    }
    assert names[..i] == names;
    r := Success(Batch(fnames, objs, pts, skipped));
  }

  /** Once a prefix of the listing has stopped the run, the rest of the
      listing is never looked at. */
  lemma {:induction false} HaltPersists<O, P>(names: seq<string>, classify: string -> Step<O, P>, n: nat)
    requires n <= |names|
    requires Aggregate(names[..n], classify).Failure?
    ensures Aggregate(names, classify) == Aggregate(names[..n], classify)
    decreases |names| - n
  {
    if n < |names| {
      assert names[..n + 1][..n] == names[..n];
      HaltPersists(names, classify, n + 1);
    } else {
      assert names[..n] == names;
    }
  }
}
