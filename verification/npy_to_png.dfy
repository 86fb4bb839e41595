/** `image_npy_to_png.py`: every `.npy` capture in a folder is demosaiced,
    brightened by 16, cropped by fixed margins and written as
    `png_<stem>.png`. Loading, demosaicing and writing are parameters. */
module NpyToPng {
  import opened Wrappers
  import opened Text

  /** One channel of the demosaiced image. Captures are assumed to hold
      12-bit samples in `uint16`, as the acquisition code stores them. */
  type Channel = x: int | 0 <= x < 0x1_0000

  datatype Rgb = Rgb(r: Channel, g: Channel, b: Channel)

  /** An `height x width x 3` array, row by row. */
  datatype Grid = Grid(height: nat, width: nat, rows: seq<seq<Rgb>>) {
    predicate WellFormed() {
      |rows| == height && forall i :: 0 <= i < height ==> |rows[i]| == width
    }
  }

  type Image = g: Grid | g.WellFormed() witness Grid(0, 0, [])

  /** The factor applied by `img*16`. */
  const Gain: nat := 16

  /** Margins of `img[220:-210, 110:-60, :]`. */
  const Top: nat := 220
  const Bottom: nat := 210
  const Left: nat := 110
  const Right: nat := 60

  /** `x * 16` on a `uint16`: numpy wraps modulo 2^16. */
  function ScaleChannel(x: Channel): (y: Channel)
    ensures x < 0x1000 ==> y == Gain * x
    ensures (y - Gain * x) % 0x1_0000 == 0
  {
    (Gain * x) % 0x1_0000
  }

  function ScalePixel(p: Rgb): Rgb {
    Rgb(ScaleChannel(p.r), ScaleChannel(p.g), ScaleChannel(p.b))
  }

  /** `img*16`, element-wise. */
  function Brighten(img: Image): (out: Image)
    ensures out.height == img.height && out.width == img.width
    ensures forall i, j :: 0 <= i < out.height && 0 <= j < out.width ==>
      out.rows[i][j] == ScalePixel(img.rows[i][j])
  {
    Grid(img.height, img.width,
         seq(img.height, i requires 0 <= i < img.height =>
           seq(img.width, j requires 0 <= j < img.width => ScalePixel(img.rows[i][j]))))
  }

  /** Python's bounds for `a[start:-fromEnd]` on an axis of length `n`: the
      start is clamped to `n`, the stop counts back from the end and is
      clamped to 0, and a stop before the start gives an empty slice. */
  function SliceBounds(n: nat, start: nat, fromEnd: nat): (b: (nat, nat))
    requires fromEnd > 0
    ensures b.0 <= b.1 <= n
    ensures b.1 - b.0 == (if n > start + fromEnd then n - start - fromEnd else 0)
    ensures b.1 > b.0 ==> b.0 == start
  {
    var lo := if start < n then start else n;
    var hi := if fromEnd < n then n - fromEnd else 0;
    (lo, if hi < lo then lo else hi)
  }

  /** `img[220:-210, 110:-60, :]`: an `(H-430) x (W-170)` window when the
      image is big enough, empty along an axis otherwise; pixel `(i, j)` of
      the window is pixel `(i+220, j+110)` of the image. */
  function Crop(img: Image): (out: Image)
    ensures out.height == (if img.height > Top + Bottom then img.height - (Top + Bottom) else 0)
    ensures out.width == (if img.width > Left + Right then img.width - (Left + Right) else 0)
    ensures forall i, j :: 0 <= i < out.height && 0 <= j < out.width ==>
      i + Top < img.height && j + Left < img.width && out.rows[i][j] == img.rows[i + Top][j + Left]
  {
    var (r0, r1) := SliceBounds(img.height, Top, Bottom);
    var (c0, c1) := SliceBounds(img.width, Left, Right);
    Grid(r1 - r0, c1 - c0,
         seq(r1 - r0, i requires 0 <= i < r1 - r0 =>
           seq(c1 - c0, j requires 0 <= j < c1 - c0 => img.rows[r0 + i][c0 + j])))
  }

  /** The image written for one capture: brightened, then cropped. */
  function Convert(img: Image): Image {
    Crop(Brighten(img))
  }

  /** Pixel `(i, j)` written is 16 times demosaiced pixel `(i+220, j+110)`
      (modulo 2^16, exact for 12-bit samples), and brightening and cropping
      could be done in either order. */
  lemma ConvertPixels(img: Image)
    ensures Convert(img) == Brighten(Crop(img))
    ensures var out := Convert(img);
      forall i, j :: 0 <= i < out.height && 0 <= j < out.width ==>
        out.rows[i][j] == ScalePixel(img.rows[i + Top][j + Left])
  {
    var a, b := Convert(img), Brighten(Crop(img));
    assert a.height == b.height && a.width == b.width;
    forall i | 0 <= i < a.height
      ensures a.rows[i] == b.rows[i]
    {
    }
  }

  /** `png_{fname.split(".")[0]}.png`. */
  function OutputName(fname: string): (r: string)
    ensures |r| >= 8 && r[..4] == "png_" && r[|r| - 4..] == ".png"
    ensures r[4..|r| - 4] <= fname && '.' !in r[4..|r| - 4]
    ensures |r| - 8 < |fname| ==> fname[|r| - 8] == '.'
  {
    var stem := BeforeFirst(fname, '.');
    var r := "png_" + stem + ".png";
    assert r[4..|r| - 4] == stem;
    r
  }

  /** For the usual capture name `<stem>.npy` the stem is kept whole. */
  lemma OutputNameOfCapture(stem: string)
    requires '.' !in stem
    ensures OutputName(stem + ".npy") == "png_" + stem + ".png"
  {
    assert stem + ".npy" == stem + ['.'] + "npy";
    BeforeFirstOfJoin(stem, '.', "npy");
  }

  /** Names that agree up to their first '.' map to the same output file, so
      the later one overwrites the earlier. */
  lemma OutputNamesCollide()
    ensures OutputName("a.npy") == OutputName("a.b.npy") == "png_a.png"
  {
    OutputNameOfCapture("a");
    assert "a.b.npy" == "a" + ['.'] + "b.npy";
    BeforeFirstOfJoin("a", '.', "b.npy");
  }

  /** `os.path.join(dir, name)` for a relative `name`: the name follows one
      `/`, and what precedes that `/` is the folder less its own trailing
      `/`, if it has one. An empty folder adds nothing. */
  function PathJoin(dir: string, name: string): (p: string)
    ensures |name| <= |p| && p[|p| - |name|..] == name
    ensures dir <= p
    ensures dir == [] ==> p == name
    ensures dir != [] ==>
      && |p| > |name| && p[|p| - |name| - 1] == '/'
      && var front := p[..|p| - |name| - 1];
      && (dir[|dir| - 1] == '/' ==> front + "/" == dir)
      && (dir[|dir| - 1] != '/' ==> front == dir)
  {
    if dir == [] then name
    else if dir[|dir| - 1] == '/' then dir + name
    else dir + "/" + name
  }

  /** What happened to one listed name. */
  datatype FileOutcome =
    | NotNpy(name: string)              // "No valid image ... skipping." printed
    | Swallowed(name: string)           // an exception, silently ignored
    | NotWritten(name: string)          // converted; no output folder given
    | Written(path: string, image: Image)

  /** The loop body for one name. `load` is `np.load` and `demosaic` is the
      `COLOR_BAYER_GR2RGB` conversion; `None` means the call raised. An empty
      crop makes `cv2.imwrite` raise as well. All of these are caught by the
      bare `except`. */
  function ConvertFile<A>(name: string, writePath: string, load: string -> Option<A>,
                          demosaic: A -> Option<Image>): (r: FileOutcome)
    ensures r.NotNpy? <==> !Contains(name, ".npy")
    ensures writePath == "" ==> !r.Written?
    ensures r.Written? <==>
      && Contains(name, ".npy") && writePath != ""
      && load(name).Some? && demosaic(load(name).value).Some?
      && Convert(demosaic(load(name).value).value).height > 0
      && Convert(demosaic(load(name).value).value).width > 0
    ensures r.Written? ==>
      r.path == PathJoin(writePath, OutputName(name))
      && r.image == Convert(demosaic(load(name).value).value)
  {
    if !Contains(name, ".npy") then NotNpy(name)
    else
      match load(name)
      case None => Swallowed(name)
      case Some(arr) =>
        match demosaic(arr)
        case None => Swallowed(name)
        case Some(img) =>
          var out := Convert(img);
          if writePath == "" then NotWritten(name)
          else if out.height == 0 || out.width == 0 then Swallowed(name)
          else Written(PathJoin(writePath, OutputName(name)), out)
  }

  /** The `for fname in os.listdir(...)` loop: every name is handled once, in
      order, and a failure on one name has no effect on the others. */
  method ConvertAll<A>(names: seq<string>, writePath: string, load: string -> Option<A>,
                       demosaic: A -> Option<Image>) returns (outs: seq<FileOutcome>)
    ensures |outs| == |names|
    ensures forall i :: 0 <= i < |names| ==> outs[i] == ConvertFile(names[i], writePath, load, demosaic)
  {
    outs := [];
    for i := 0 to |names|
      invariant |outs| == i
      invariant forall k :: 0 <= k < i ==> outs[k] == ConvertFile(names[k], writePath, load, demosaic)
    {
      outs := outs + [ConvertFile(names[i], writePath, load, demosaic)];
    }
  }
}
