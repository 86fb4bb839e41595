# Calibration, serial-logging and capture-conversion logic of longterm-coral-imaging

This project models, in Dafny, the pure sequential logic inside four scripts
of the coral-imaging toolkit, and proves properties of it:

- **Calibration view collection** (`checkerboard_calibration.py` and
  `flat_checkerboard_calibration.py`). The scripts walk a folder listing in
  order. They skip names whose image cannot be read or shows no board, and
  append each accepted view to `fnames`, `all_objs` and `all_pts` together.
  They then call the solver, recompute each view's reprojection error
  (L2 norm over point count), print the plain mean of those errors, and save
  a record whose `calibration_images` is `fnames`. Both scripts share one
  fold (`Aggregation.Aggregate`); each supplies its own per-name classifier.
  The flat variant also builds the planar object grid and draws 50 files at
  random. It loads only names containing `.npy`; a load that raises ends
  the run.
- **Atlas EZO probe serial framing** (`atlas_temp_acquisition.py`).
  `read_line` reads byte by byte up to a `\r` or the end of the available
  input. `read_lines` repeats it until it returns nothing. `send_cmd` appends
  `\r` and encodes as UTF-8. The polling loop drops lines starting with `*`
  and appends `time,data\n` for the others. `strip("/n")` strips the
  characters `/` and `n`, so a trailing `\r` stays in the record
  (`TemperatureLog.DataKeepsCarriageReturn`).
- **`.npy` to PNG conversion** (`image_npy_to_png.py`). Names are filtered
  by the `.npy` substring. The demosaiced image is multiplied by 16 (a
  `uint16` product, wrapping modulo 2^16) and cropped by fixed margins. It
  is written as `png_<stem>.png`, unless the output folder is empty. Every
  exception on a file is swallowed.

OpenCV, numpy and the serial port are not modelled. `imread`, the board
detectors, `cornerSubPix`, `calibrateCameraExtended`, `projectPoints`,
`cv2.norm`, `np.load` and the Bayer demosaic are function-valued
parameters, and `None` stands for "the call raised" or "nothing found". The
serial port is the finite sequence of bytes waiting to be read. The random
draw and the clock are inputs. Numbers are Dafny `real`s.

The scripts enforce no minimum view or point count, no intrinsics sanity
check, no outlier flags and no atomic write, and the model has none either.
With no accepted view the scripts fail while calling the solver (or on the
unbound `gray`), which the model reports as `NoViews`.

Files: `wrappers.dfy` (Option/Result), `text.dfy` (`in`, `split`, `strip`),
`decimal.dfy` (`str(int)`), `utf8.dfy`, `aggregation.dfy`,
`calibration.dfy`, `charuco_calibration.dfy`, `flat_calibration.dfy`,
`atlas_serial.dfy`, `temperature_log.dfy`, `npy_to_png.dfy`.

## Model

| member | source | states |
|---|---|---|
| Aggregation.Aggregate | loci/camera_calibration/checkerboard_calibration.py:75-93 | the loop stops only if some name raises, and then at the first such name; otherwise the three lists have equal length and accepted plus skipped names account for every listed name |
| Aggregation.AcceptedAt | loci/camera_calibration/checkerboard_calibration.py:78-93 | the accepted positions are strictly increasing; a position is in the list exactly when its name yields a view |
| Aggregation.SkippedAt | loci/camera_calibration/checkerboard_calibration.py:79-88 | the skipped positions are strictly increasing; a position is in the list exactly when its name is skipped |
| Aggregation.AcceptedAligned | loci/camera_calibration/checkerboard_calibration.py:90-93 | row k of `fnames`, `all_objs` and `all_pts` comes from the k-th accepted listing entry, so the files and their order are recorded exactly |
| Aggregation.SkippedAligned | loci/camera_calibration/checkerboard_calibration.py:79-88 | the skip messages name the skipped entries in listing order, each with its reason |
| Aggregation.AcceptedOnce | loci/camera_calibration/checkerboard_calibration.py:78-90 | a listing without repeats yields each file at most once in `fnames` |
| Aggregation.CollectViews | loci/camera_calibration/checkerboard_calibration.py:75-93 | the in-place loop over three growing lists computes the same result as the fold |
| Aggregation.HaltPersists | loci/camera_calibration/flat_checkerboard_calibration.py:65-70 | once an uncaught exception stops the loop, later names change nothing |
| Calibration.MeanError | loci/camera_calibration/checkerboard_calibration.py:111-116 | the total error exists exactly when there is at least one view; times the view count it is the sum of per-view errors, and it lies between the smallest and largest per-view error |
| Calibration.MeanIsNotPooled | loci/camera_calibration/checkerboard_calibration.py:114-116 | the mean of per-view errors differs from a pooled per-point figure on a two-view example |
| Calibration.ViewError | loci/camera_calibration/checkerboard_calibration.py:113-114 | a view's error is undefined exactly when its rvec or tvec is missing or its projection is empty (division by zero) |
| Calibration.ViewErrorIsNormPerPoint | loci/camera_calibration/checkerboard_calibration.py:113-114 | a view's error times its projected point count is the L2 norm between observed and projected points |
| Calibration.ViewErrors | loci/camera_calibration/checkerboard_calibration.py:112-115 | the per-view errors are computed in view order, one per view; the loop fails at the first view whose error is undefined |
| Calibration.PosesCoverViews | loci/camera_calibration/checkerboard_calibration.py:112-113 | a completed error loop found an rvec and a tvec for every view |
| Calibration.FirstFailureStops | loci/camera_calibration/checkerboard_calibration.py:112-115 | a failure among the first views is the failure of the whole loop |
| Calibration.MeanReprojectionError | loci/camera_calibration/checkerboard_calibration.py:111-116 | the accumulate-then-divide loop returns the mean of the per-view errors, or the first failure, or `NoViews` for zero views |
| Calibration.SolveBatch | loci/camera_calibration/checkerboard_calibration.py:106-127 | a record is produced exactly when there are views, the solver returns a solution and every view's error is computable. With no views the run fails before solving, and a failed solve is `SolveFailed`. On success the record carries the solver's camera matrix, distortion, rms, rvecs, tvecs, deviations and view errors unchanged, with `calibration_images` equal to `fnames`. The recomputed errors are the per-view errors under that solution, and the total is their mean, between their minimum and maximum. When a view's error is not computable, the first such view's error is the run's |
| Calibration.RunCalibration | loci/camera_calibration/checkerboard_calibration.py:75-131 | a run saves a record exactly when collection completes with at least one view, the solver returns a solution and every view's error is computable. It stops early exactly when collection raises, fails with `NoViews` exactly when no view is accepted, and saves `fnames` as `calibration_images` |
| Calibration.RecordAligned | loci/camera_calibration/checkerboard_calibration.py:119-127 | if the solver returns one row per view, `calibration_images`, `rvecs`, `tvecs` and `view_errors` have equal length, and row k names the k-th accepted file |
| CharucoCalibration.CharucoStep | loci/camera_calibration/checkerboard_calibration.py:79-93 | an unreadable image is skipped as "no valid image"; a readable one without a board is skipped as "no board"; otherwise the view is the matched points of the detection; nothing raises |
| CharucoCalibration.CharucoAcceptance | loci/camera_calibration/checkerboard_calibration.py:78-93 | collection never stops early; a listed name is accepted exactly when it decodes and shows a board, and every name in `fnames` does |
| CharucoCalibration.CharucoSkipsMiddle | loci/camera_calibration/checkerboard_calibration.py:78-93 | with three names where the middle one shows no board, `fnames` is the outer two in order and the skip list names the middle one |
| CharucoCalibration.CharucoViewCount | loci/camera_calibration/checkerboard_calibration.py:78-93 | collection ends with no view exactly when no listed image decodes and shows a board |
| CharucoCalibration.CharucoRun | loci/camera_calibration/checkerboard_calibration.py:75-131 | the script never stops in the collection loop. It saves a record exactly when some image qualifies, the solver returns a solution and every view's error is computable. It fails with `NoViews` exactly when no listed image decodes and shows a board. A saved record lists those images in listing order |
| FlatCalibration.ObjectGrid | loci/camera_calibration/flat_checkerboard_calibration.py:53-56 | the grid has cols*rows points, all with z = 0, and point k is (k mod cols, k div cols, 0) times the square size |
| FlatCalibration.DivModOfRowMajor | loci/camera_calibration/flat_checkerboard_calibration.py:55 | index r*cols+c of the reshaped grid has row r and column c |
| FlatCalibration.Sample | loci/camera_calibration/flat_checkerboard_calibration.py:63-64 | the draw fails exactly when the listing has fewer than 50 names; otherwise it yields 50 names, the listing entries at the drawn positions |
| FlatCalibration.SampleDistinct | loci/camera_calibration/flat_checkerboard_calibration.py:63-64 | from a listing of distinct names the 50 drawn names are distinct names of the listing |
| FlatCalibration.FlatStep | loci/camera_calibration/flat_checkerboard_calibration.py:65-88 | a name without the `.npy` substring is skipped; one with it halts the run if loading raises, is skipped if no chessboard is found, and otherwise pairs the refined corners with the shared grid |
| FlatCalibration.FlatViewsShareGrid | loci/camera_calibration/flat_checkerboard_calibration.py:85-88 | every kept view uses the same object grid, and every kept name contains `.npy` |
| FlatCalibration.FlatHalts | loci/camera_calibration/flat_checkerboard_calibration.py:66-75 | collection completes exactly when no drawn name containing `.npy` fails to load |
| FlatCalibration.FlatRun | loci/camera_calibration/flat_checkerboard_calibration.py:53-122 | the run fails on the draw exactly when fewer than 50 files are listed. Otherwise its result is the shared calibration run over the drawn names with the object grid, with run errors wrapped. It stops exactly when a drawn `.npy` name fails to load. A saved record lists the kept names in draw order: at least one, each a drawn `.npy` name, and each once when the listing has no repeats |
| FlatCalibration.FlatRunStops | loci/camera_calibration/flat_checkerboard_calibration.py:65-70 | a run over drawn names stops exactly when some drawn name containing `.npy` fails to load |
| FlatCalibration.FlatRunOrder | loci/camera_calibration/flat_checkerboard_calibration.py:85-88 | a saved record's `calibration_images` are the accepted drawn names in draw order, each containing `.npy`, and distinct drawn names give distinct entries |
| AtlasSerial.ReadLine | loci/data_collection/atlas_temp_acquisition.py:18-33 | the line and the unread rest concatenate to the input; the line is empty only for empty input; `\r` appears only as its last byte; without `\r` the whole input is consumed |
| AtlasSerial.ReadLineUnique | loci/data_collection/atlas_temp_acquisition.py:25-33 | any split with those properties is the one `read_line` makes |
| AtlasSerial.ReadLineAt | loci/data_collection/atlas_temp_acquisition.py:18-33 | the byte-at-a-time buffer loop with a cursor returns the same line and leaves the same rest |
| AtlasSerial.ReadLines | loci/data_collection/atlas_temp_acquisition.py:35-47 | the lines are non-empty, hold `\r` only at their end, all but the last end in `\r`, and concatenate to the whole input |
| AtlasSerial.ReadLinesOfFrames | loci/data_collection/atlas_temp_acquisition.py:35-47 | complete `\r`-terminated lines sent back to back are read back unchanged |
| AtlasSerial.SendCmd | loci/data_collection/atlas_temp_acquisition.py:53-62 | the bytes written are the UTF-8 command followed by one `\r`, and for a command without `\r` that is the only `\r` |
| AtlasSerial.CarriageReturnAppended | loci/data_collection/atlas_temp_acquisition.py:60-62 | encoding `cmd + "\r"` appends exactly the byte 13 |
| AtlasSerial.SendCmdFramed | loci/data_collection/atlas_temp_acquisition.py:60-62 | a command without `\r` is read by `read_line` as exactly one line, leaving what follows |
| TemperatureLog.Unstarred | loci/data_collection/atlas_temp_acquisition.py:112-114 | the filter keeps every response line whose first byte is not `*` and no other |
| TemperatureLog.UnstarredAt | loci/data_collection/atlas_temp_acquisition.py:112-114 | the logged positions are strictly increasing, and a position is among them exactly when its line does not start with `*` |
| TemperatureLog.UnstarredAligned | loci/data_collection/atlas_temp_acquisition.py:112-114 | the filter keeps the unstarred lines in response order, each exactly once: entry k is the line at the k-th unstarred position |
| TemperatureLog.LineData | loci/data_collection/atlas_temp_acquisition.py:115 | a line's data exists exactly when it decodes as UTF-8; it is then the decoded text with only `/` and `n` removed around it, it has neither at either end, and stripping it again changes nothing |
| TemperatureLog.LogLines | loci/data_collection/atlas_temp_acquisition.py:112-118 | record k is `time,data\n` for the k-th unstarred line; all unstarred lines are logged unless one fails to decode, and then logging stops at that line |
| TemperatureLog.PollOnce | loci/data_collection/atlas_temp_acquisition.py:109-118 | a round sends `R\r`; record k is `time,data\n` for the data of the k-th unstarred response line; without decode errors there is one record per such line, and otherwise logging stops at the first line that fails to decode |
| TemperatureLog.ParseFormatRecord | loci/data_collection/atlas_temp_acquisition.py:117 | a record reads back as the time and data written, whatever the data holds |
| TemperatureLog.DataKeepsCarriageReturn | loci/data_collection/atlas_temp_acquisition.py:115 | the data of a line ending in `\r` still ends in `\r` after `strip("/n")` |
| Text.FindFrom | loci/data_collection/image_npy_to_png.py:24 | the result is the leftmost occurrence at or after the start, or none exists |
| Text.Contains | loci/data_collection/image_npy_to_png.py:24 | `sub in s` holds exactly when `sub` occurs somewhere in `s`, not only as a suffix |
| Text.BeforeFirst | loci/data_collection/image_npy_to_png.py:41 | `split(sep)[0]` is a prefix without `sep`, followed in `s` by `sep` unless it is all of `s` |
| Text.BeforeFirstOfJoin | loci/data_collection/image_npy_to_png.py:41 | splitting `p + sep + q` gives `p` when `p` holds no `sep` |
| Text.StripBounds | loci/data_collection/atlas_temp_acquisition.py:115 | `strip` keeps a slice whose ends are outside the strip set, and removes only characters of the strip set |
| Text.StripIdempotent | loci/data_collection/atlas_temp_acquisition.py:115 | stripping twice equals stripping once |
| Text.StripKeepsLast | loci/data_collection/atlas_temp_acquisition.py:115 | a last character outside the strip set survives stripping and stays last |
| Decimal.Show | loci/data_collection/atlas_temp_acquisition.py:117 | `str(n)` is a non-empty string of digits with no leading zero |
| Decimal.ParseShow | loci/data_collection/atlas_temp_acquisition.py:117 | parsing `str(n)` gives back `n` |
| Decimal.ShowInjective | loci/data_collection/atlas_temp_acquisition.py:117 | distinct timestamps render differently |
| Utf8.EncodeChar | loci/data_collection/atlas_temp_acquisition.py:62 | a character encodes to 1-4 bytes, to one byte equal to its code when ASCII, and otherwise to bytes that are all at least 0x80 |
| Utf8.DecodeEncodeChar | loci/data_collection/atlas_temp_acquisition.py:115 | decoding the encoding of a character gives it back, with its length |
| Utf8.EncodeDecodeChar | loci/data_collection/atlas_temp_acquisition.py:115 | whatever the strict decoder accepts is the encoding of the character it returns |
| Utf8.DecodeEncode | loci/data_collection/atlas_temp_acquisition.py:115 | decoding undoes encoding |
| Utf8.EncodeDecode | loci/data_collection/atlas_temp_acquisition.py:115 | a byte string that decodes is the encoding of its decoding |
| Utf8.EncodeConcat | loci/data_collection/atlas_temp_acquisition.py:60-62 | encoding distributes over concatenation |
| Utf8.AsciiByteInEncoding | loci/data_collection/atlas_temp_acquisition.py:60-62 | an ASCII byte occurs in an encoding exactly when its character occurs in the string |
| Utf8.EncodingEndsInAscii | loci/data_collection/atlas_temp_acquisition.py:115 | an encoding ending in an ASCII byte comes from a string ending in that character |
| NpyToPng.ScaleChannel | loci/data_collection/image_npy_to_png.py:29 | `x*16` on `uint16` agrees with 16x modulo 2^16 and is exact for 12-bit samples |
| NpyToPng.Brighten | loci/data_collection/image_npy_to_png.py:29 | brightening keeps the dimensions and scales every pixel |
| NpyToPng.SliceBounds | loci/data_collection/image_npy_to_png.py:31 | Python's `[start:-k]` on length n keeps max(0, n-start-k) elements, starting at `start` when non-empty |
| NpyToPng.Crop | loci/data_collection/image_npy_to_png.py:31 | the crop is (H-430) x (W-170) when large enough (empty along a short axis), and pixel (i, j) is source pixel (i+220, j+110) |
| NpyToPng.ConvertPixels | loci/data_collection/image_npy_to_png.py:29-31 | written pixel (i, j) is 16 times demosaiced pixel (i+220, j+110), and scaling and cropping commute |
| NpyToPng.OutputName | loci/data_collection/image_npy_to_png.py:41-42 | the output name is `png_` + the part of the name before its first `.` + `.png` |
| NpyToPng.OutputNameOfCapture | loci/data_collection/image_npy_to_png.py:41-42 | `<stem>.npy` becomes `png_<stem>.png` |
| NpyToPng.OutputNamesCollide | loci/data_collection/image_npy_to_png.py:41-42 | `a.npy` and `a.b.npy` map to the same output file |
| NpyToPng.PathJoin | loci/data_collection/image_npy_to_png.py:42 | `os.path.join` of a folder and a relative name puts the name after exactly one `/`, preceded by the folder less its trailing `/`; an empty folder gives the bare name |
| NpyToPng.ConvertFile | loci/data_collection/image_npy_to_png.py:24-49 | a name without `.npy` only gets a skip message; a file is written exactly when the name has `.npy`, the output folder is non-empty, loading and demosaicing succeed and the crop is non-empty, at the joined `png_` path with the converted image; nothing is written for an empty folder |
| NpyToPng.ConvertAll | loci/data_collection/image_npy_to_png.py:23-49 | every listed name is handled once, in order, independently of failures on other names |

## Left out

- OpenCV and numpy internals are parameters, not models. This covers `imread`, colour conversion, `detectBoard`, `matchImagePoints`, `findChessboardCorners`, `cornerSubPix` and its termination criteria, `calibrateCameraExtended`, `projectPoints`, `cv2.norm`, `np.load`, the Bayer demosaic and `normalize`. The board's legacy-pattern flag and the ArUco dictionary and detector settings are configuration of these calls.
- The image size passed to the solver (`gray.shape[::-1]`, taken from the last image read) is not modelled.
- Floating point: coordinates, norms and errors are reals. The `float32` object grid is treated as exact; it is exact for integer square sizes such as the default 20, but not for sizes such as 0.1.
- Apart from the flat script's image loading (`np.load`, demosaic, `normalize`), library calls are taken not to raise. This covers colour conversion, `detectBoard`, `matchImagePoints`, `findChessboardCorners` and `cornerSubPix`. Collection therefore halts only on a failed load in the flat script. In the scripts, an exception from any of these calls would end the run the same way.
- Sample type of the captures: the model assumes the arrays hold 12-bit samples in `uint16`, as the acquisition code writes them; the converter itself does not show the type. With `uint8` arrays, `img*16` would wrap modulo 256 instead.
- `np.random.choice` randomness: the drawn positions are an input, required to be 50 distinct valid positions.
- I/O and UI: argument parsing, directory listing (the listing is an input), YAML serialisation, file writes and appends, `print`, `imshow`/`waitKey`, the verbose drawing and undistortion preview, and the `verbose` branch of the converter.
- Serial port: opening, timing, `flush`, `time.sleep`, the endless polling loop, `KeyboardInterrupt`, the `C,0` command, and the `SerialException` paths that return `None`. The `ser.flush_input()` after `break` in `read_lines` is unreachable.
- `time.time_ns()` is the `time` parameter, a natural number.
- Calibration.RecordAligned: the equal length of `rvecs`, `tvecs` and `view_errors` rests on the solver returning one row per view, which is stated as an assumption (`HonestSolver`). Without it the model proves only that `rvecs` and `tvecs` are at least as long as `fnames`.
- Camera access and frame streaming (`utils.py`, `image_acquisition.py`), colour correction, target rendering, timestamp matching and packaging are not part of this model.
